/**
 The values `offsetBox` returns for the three argument tuples `GameRoom.createPlayer`
 uses for every vehicle, in the body's own frame (y pointing forward): the front
 box, the rear physical box, and the larger rear sensor box around it. These are
 facts about the corner lists; the shapes the physics library builds from them
 are not modelled.
 */
module VehicleLayout {
  import opened Boxes

  /** `offsetBox(0, 60, 60, 30)`: the front box. */
  function FrontPhysical(): seq<Vertex>
  {
    OffsetBox(0.0, 60.0, 60.0, 30.0)
  }

  /** `offsetBox(0, 0, 60, 90)`: the rear physical box. */
  function BackPhysical(): seq<Vertex>
  {
    OffsetBox(0.0, 0.0, 60.0, 90.0)
  }

  /** `offsetBox(0, 0, 70, 100)`: the rear sensor box. */
  function BackSensor(): seq<Vertex>
  {
    OffsetBox(0.0, 0.0, 70.0, 100.0)
  }

  /** The front box's corners, as the debugging `print` in `createPlayer` shows them. */
  lemma FrontCorners()
    ensures FrontPhysical() == [(-30.0, 45.0), (-30.0, 75.0), (30.0, 75.0), (30.0, 45.0)]
  {
  }

  /** The front box spans x in [-30, 30] and y in [45, 75]; the rear box spans
      x in [-30, 30] and y in [-45, 45]; the sensor spans x in [-35, 35] and y in [-50, 50]. */
  lemma HitBoxSpans()
    ensures Bounds(FrontPhysical()) == Region(0.0, 60.0, 60.0, 30.0) == Rect(-30.0, 30.0, 45.0, 75.0)
    ensures Bounds(BackPhysical()) == Region(0.0, 0.0, 60.0, 90.0) == Rect(-30.0, 30.0, -45.0, 45.0)
    ensures Bounds(BackSensor()) == Region(0.0, 0.0, 70.0, 100.0) == Rect(-35.0, 35.0, -50.0, 50.0)
  {
  }

  /** The rear sensor box strictly contains the rear physical box: it reaches 5
      beyond it on every side. */
  lemma SensorEnclosesBack()
    ensures StrictlyInside(Bounds(BackPhysical()), Bounds(BackSensor()))
  {
  }

  /** The front box sits directly ahead of the rear box: the regions the two
      outline (see `HitBoxSpans`) share exactly the segment y = 45, -30 <= x <= 30,
      and no other point. */
  lemma FrontMeetsBackAlongEdge()
    ensures forall p ::
              (Covers(Region(0.0, 0.0, 60.0, 90.0), p) && Covers(Region(0.0, 60.0, 60.0, 30.0), p))
              <==> (p.1 == 45.0 && -30.0 <= p.0 <= 30.0)
  {
  }

  /** Each hit box is walked clockwise without crossing itself, every edge
      axis-aligned, enclosing its full area (1800, 5400 and 7000). */
  lemma HitBoxesAreSimpleRectangles()
    ensures IsRectilinear(FrontPhysical()) && SignedArea(FrontPhysical()) == -1800.0
    ensures IsRectilinear(BackPhysical()) && SignedArea(BackPhysical()) == -5400.0
    ensures IsRectilinear(BackSensor()) && SignedArea(BackSensor()) == -7000.0
  {
  }
}
