# Vehicle hit-box geometry and 2-D vectors

This project models the arithmetic core of `main.py`. That file is the server
of a multiplayer vehicle game in which each player drives a vehicle with a
front box and a rear box. Two pieces of it are pure logic:

- `Vector` is a 2-D class with `+`, `-`, `*` and `/`, whose operators never
  mutate their operands. Every operator works per component. `*` is the
  Hadamard product and `/` the per-component quotient, not a scaling by a
  number. Dividing by a vector with a zero component
  raises `ZeroDivisionError`.
- `offsetBox(cx, cy, length, width)` returns the four corners of the
  axis-aligned rectangle centred on `(cx, cy)`. `length` is its extent along x
  and `width` its extent along y. The corners come in the order
  `(x1, y1), (x1, y2), (x2, y2), (x2, y1)`. `GameRoom.createPlayer` calls it with
  three argument tuples for every vehicle: a front box, a rear physical box and a
  larger rear sensor box. It calls it a fourth time, with the front box's
  arguments, to print the result.

Python floats are modelled as Dafny `real`, so the halving and the `float(...)`
conversions in `offsetBox` are exact.

Files:

- `vectors.dfy`, module `Vectors`: the `Vector` datatype, whose constructor
  stands for `Vector.__init__`. It also holds the four operators, the checked
  quotient `TryDiv` (which makes the exception an explicit value), and the
  algebraic laws.
- `boxes.dfy`, module `Boxes`: `OffsetBox` and the terms used to describe its
  result. `IsCentredBox` characterises the result by centre and extents.
  `Bounds` is the smallest rectangle enclosing any vertex list. `Region` is the
  closed rectangle a centre and extents describe. `Covers` is point membership.
  `StrictlyInside` is strict nesting. `SignedArea` is the shoelace area of a
  closed polygon.
- `layout.dfy`, module `VehicleLayout`: the values `offsetBox` returns for the
  three argument tuples of `createPlayer`, and concrete facts about how those
  corner lists sit relative to each other. These are facts about `offsetBox`'s
  values, not about the shapes pymunk builds from them.

Every Python operator returns a new `Vector` and leaves its operands unchanged.
In the model this holds by construction, because Dafny datatype values are
immutable. The model also gives `Vector` value equality, which the Python class
does not have (see "Left out").

## Model

| member | source | states |
|---|---|---|
| Vectors.Add | main.py:25-26 | `a + b` equals `a` exactly when `b` is the zero vector, and equals `b` exactly when `a` is |
| Vectors.Sub | main.py:28-29 | `a - b` is the unique vector that gives back `a` when added to `b` |
| Vectors.Mul | main.py:31-32 | `a * b` is the zero vector exactly when, in each of x and y, one of the two factors is zero |
| Vectors.Div | main.py:34-35 | for a divisor with no zero component, `a / b` is the unique vector that gives back `a` when multiplied by `b` |
| Vectors.TryDiv | main.py:34-35 | division raises `ZeroDivisionError` exactly when a component of the divisor is zero; otherwise it returns a quotient whose product with the divisor is `a` |
| Vectors.AddCommutative | main.py:25-26 | `a + b == b + a` |
| Vectors.AddAssociative | main.py:25-26 | `(a + b) + c == a + (b + c)` |
| Vectors.AddZero | main.py:25-29 | the zero vector is neutral for `+`, and `a - a` is the zero vector |
| Vectors.AddThenSub | main.py:25-29 | `(a + b) - b == a` |
| Vectors.MulCommutative | main.py:31-32 | `a * b == b * a`, and `(1, 1)` is neutral for `*` |
| Vectors.MulThenDiv | main.py:31-35 | `(a * b) / b == a` whenever `/ b` does not raise |
| Vectors.DivThenMul | main.py:31-35 | `(a / b) * b == a` whenever `/ b` does not raise |
| Vectors.MulDistributesOverAdd | main.py:25-32 | `(a + b) * c == a * c + b * c` |
| Boxes.OffsetBox | main.py:85-92 | the result has four corners. Corners 0 and 1 share x, and so do 2 and 3. Corners 1 and 2 share y, and so do 3 and 0. Corners 0 and 2 have midpoint `(cx, cy)`, and corner 2 lies `length` to the right of and `width` above corner 0 |
| Boxes.CentredBoxIsOffsetBox | main.py:85-92 | a vertex list meets that centre-and-extent description if and only if it equals `offsetBox`'s result, so the description fixes both the corners and their order |
| Boxes.OffsetBoxCornerOrder | main.py:86-91 | with non-negative extents, `x1 <= x2` and `y1 <= y2`: the first corner is the lower-left one and the third the upper-right one |
| Boxes.OffsetBoxRectilinear | main.py:92 | taken cyclically, each pair of consecutive corners shares exactly one coordinate if and only if both extents are non-zero |
| Boxes.OffsetBoxArea | main.py:92 | the corner walk has signed area `-(length * width)`: it goes once round the whole rectangle, clockwise when `length * width > 0` and counter-clockwise when `length * width < 0` |
| Boxes.CrossedOrderHasNoArea | main.py:92 | the two self-crossing orders of the same corners enclose zero signed area, for every box |
| Boxes.OffsetBoxOrderDoesNotCross | main.py:92 | when neither extent is zero, the corner walk has non-zero signed area, different from both self-crossing orders, so `offsetBox`'s order is the non-crossing one |
| Boxes.OffsetBoxBounds | main.py:85-92 | the smallest rectangle enclosing the corners is `[cx - |length|/2, cx + |length|/2] x [cy - |width|/2, cy + |width|/2]` |
| Boxes.ConcentricBoxesNest | main.py:85-92 | two boxes with the same centre nest strictly if and only if the inner one is smaller in both extents |
| Boxes.StackedBoxesShareEdge | main.py:85-92 | a box placed on top of another of the same length touches it in exactly the lower box's top edge |
| VehicleLayout.FrontCorners | main.py:72-73 | the front box is `[(-30, 45), (-30, 75), (30, 75), (30, 45)]` |
| VehicleLayout.HitBoxSpans | main.py:73-77 | the front box spans x in [-30, 30] and y in [45, 75]. The rear box spans x in [-30, 30] and y in [-45, 45]. The sensor spans x in [-35, 35] and y in [-50, 50] |
| VehicleLayout.SensorEnclosesBack | main.py:75-77 | the rear sensor box strictly contains the rear physical box |
| VehicleLayout.FrontMeetsBackAlongEdge | main.py:73-75 | the front and rear boxes share exactly the segment y = 45, -30 <= x <= 30 |
| VehicleLayout.HitBoxesAreSimpleRectangles | main.py:73-77 | each hit box is axis-aligned and walked clockwise without crossing itself, enclosing areas 1800, 5400 and 7000 |

## Left out

- Floating-point rounding. Floats are exact reals here, so `length / 2` and the
  `float(...)` conversions lose nothing. Python's IEEE doubles can round, for
  example when `cx` is very large compared with `length`.
- The `Vectors` laws `AddAssociative`, `AddThenSub`, `MulThenDiv`, `DivThenMul`
  and `MulDistributesOverAdd` hold over reals but not over IEEE doubles. For
  example, `(0.1 + 1e16) - 1e16` is `0.0` in Python, and `(0.1 * 3.0) / 3.0` is
  not `0.1`.
- Infinities and NaN are not modelled. Every value in the model is a finite real.
- `length / 2` at main.py:86 raises `OverflowError` when `length` is a Python int
  beyond the range of a float. That error path is not modelled.
- Object identity and mutability. Each Python operator allocates a fresh
  `Vector`, and the operators never write to their operands. But the class's
  `x` and `y` attributes can be reassigned, and it defines no `__eq__`. So `==`
  between two Python `Vector`s compares identity, and `a + b == b + a` is False
  in Python. The model gives `Vector` immutability and component-wise value
  equality, and the algebraic laws are stated for that equality.
- Mixed operand types. The Python operators accept any objects with `x` and `y`
  attributes, and a non-vector operand fails with an attribute error. The model
  types both operands as `Vector`.
- `Vector.__abs__` (main.py:37-38) is a floating-point square root, which adds
  nothing to the model.
- `Vector.__iter__` (main.py:40-42) takes an extra `other` parameter and refers
  to an undefined name `this`. It has no coherent behaviour.
- `Player` and `GameRoom` (main.py:44-82) are thin wrappers over the pymunk
  physics library, whose behaviour is not part of this model. Only the values of
  the `offsetBox` calls in `createPlayer` are modelled, in `VehicleLayout`.
  pymunk's `Poly.create_box(body, size, radius)` takes a `(width, height)` size,
  yet main.py:73, 75 and 77 pass it the corner list. The model says nothing about
  the shapes pymunk would build from that. The body's mass and moment, the
  shapes' elasticity and corner radius, and the `contact` attribute set on the
  sensor box (main.py:78) are pymunk settings and are not modelled. `createPlayer` also adds shapes to an undefined global
  `space`, and `getEncodedPositions` reads a `player.id` attribute that `Player`
  never sets.
- The debugging `print` in `createPlayer` (main.py:72) is I/O. The value it
  prints is stated by `VehicleLayout.FrontCorners`.
- The Flask route, the Socket.IO `connect` handler and the start-up code
  (main.py:95-109) are network and templating I/O.
- The tuning constants `BOOST_FORCE`, `NORMAL_FORCE`, `BRAKE_FRICTION` and
  `NORMAL_FRICTION` (main.py:12-15) are read by no code. `PLAYER_MASS`
  (main.py:16) is read only by `createPlayer` (main.py:71), which is left out
  together with `GameRoom`.
- VehicleLayout.FrontMeetsBackAlongEdge: states the contact segment for the
  regions `Region(0, 0, 60, 90)` and `Region(0, 60, 60, 30)`, not for
  `Bounds` of the vertex lists directly. `VehicleLayout.HitBoxSpans` proves that
  the two are the same rectangles.
