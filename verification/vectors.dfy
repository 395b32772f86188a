/**
 The two-dimensional `Vector` of main.py, modelled as an immutable value with
 component-wise equality (the Python class compares by identity). Every operator
 works component by component: `*` is the Hadamard (per-component) product and
 `/` the per-component quotient, not a scaling by a number. Python floats are
 modelled as exact reals.
 */
module Vectors {

  /** A 2-D value; the constructor plays the role of `Vector.__init__`. */
  datatype Vector = Vector(x: real, y: real)

  /** The zero vector, neutral for `Add`. */
  const Zero: Vector := Vector(0.0, 0.0)

  /** The vector whose components are both 1, neutral for `Mul`. */
  const One: Vector := Vector(1.0, 1.0)

  /** `a + b` (`Vector.__add__`): adding leaves `a` where it is exactly when `b`
      is the zero vector. */
  function Add(a: Vector, b: Vector): (r: Vector)
    ensures r == a <==> b == Zero
    ensures r == b <==> a == Zero
  {
    Vector(a.x + b.x, a.y + b.y)
  }

  /** `a - b` (`Vector.__sub__`): the one vector that, added back to `b`, gives `a`. */
  function Sub(a: Vector, b: Vector): (r: Vector)
    ensures Add(r, b) == a
    ensures forall d: Vector :: Add(d, b) == a ==> d == r
  {
    Vector(a.x - b.x, a.y - b.y)
  }

  /** `a * b` (`Vector.__mul__`), the per-component product: the result is the
      zero vector exactly when, in each component separately, one factor is zero. */
  function Mul(a: Vector, b: Vector): (r: Vector)
    ensures r == Zero <==> (a.x == 0.0 || b.x == 0.0) && (a.y == 0.0 || b.y == 0.0)
  {
    Vector(a.x * b.x, a.y * b.y)
  }

  /** A divisor Python accepts: dividing by a zero component raises `ZeroDivisionError`. */
  predicate NonZero(b: Vector)
  {
    b.x != 0.0 && b.y != 0.0
  }

  /** `a / b` (`Vector.__truediv__`): the one vector that, multiplied by `b`, gives `a`. */
  function Div(a: Vector, b: Vector): (r: Vector)
    requires NonZero(b)
    ensures Mul(r, b) == a
    ensures forall q: Vector :: Mul(q, b) == a ==> q == r
  {
    Vector(a.x / b.x, a.y / b.y)
  }

  /** The outcome of `a / b` as Python sees it: a quotient, or the exception raised
      when either component of the divisor is zero. */
  datatype Quotient = Ok(value: Vector) | ZeroDivisionError

  /** `a / b` for every divisor, with the exception made explicit. */
  function TryDiv(a: Vector, b: Vector): (r: Quotient)
    ensures r.ZeroDivisionError? <==> b.x == 0.0 || b.y == 0.0
    ensures r.Ok? ==> Mul(r.value, b) == a
  {
    if NonZero(b) then Ok(Div(a, b)) else ZeroDivisionError
  }

  /** `+` is commutative. */
  lemma AddCommutative(a: Vector, b: Vector)
    ensures Add(a, b) == Add(b, a)
  {
  }

  /** `+` is associative. */
  lemma AddAssociative(a: Vector, b: Vector, c: Vector)
    ensures Add(Add(a, b), c) == Add(a, Add(b, c))
  {
  }

  /** `Zero` is neutral for `+` and `a - a` is `Zero`. */
  lemma AddZero(a: Vector)
    ensures Add(a, Zero) == a && Add(Zero, a) == a
    ensures Sub(a, a) == Zero
  {
  }

  /** `(a + b) - b == a`: subtracting undoes adding. */
  lemma AddThenSub(a: Vector, b: Vector)
    ensures Sub(Add(a, b), b) == a
  {
  }

  /** `*` is commutative, and `One` is its neutral element. */
  lemma MulCommutative(a: Vector, b: Vector)
    ensures Mul(a, b) == Mul(b, a)
    ensures Mul(a, One) == a
  {
  }

  /** `(a * b) / b == a` whenever `/ b` does not raise. */
  lemma MulThenDiv(a: Vector, b: Vector)
    requires NonZero(b)
    ensures Div(Mul(a, b), b) == a
  {
  }

  /** `(a / b) * b == a` whenever `/ b` does not raise. */
  lemma DivThenMul(a: Vector, b: Vector)
    requires NonZero(b)
    ensures Mul(Div(a, b), b) == a
  {
  }

  /** `*` distributes over `+`, component by component. */
  lemma MulDistributesOverAdd(a: Vector, b: Vector, c: Vector)
    ensures Mul(Add(a, b), c) == Add(Mul(a, c), Mul(b, c))
  {
  }
}
