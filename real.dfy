/**
 * The exact scalar of the coordinate algebra (flipr/space/src/real.rs).
 *
 * The source wraps an arbitrary-precision rational, so every operation except the
 * float bridges is exact; Dafny's `real` is the same field, and the wrapper keeps
 * the source's newtype shape.
 */
module Reals {
  import opened Wrappers

  /** An IEEE double, abstracted to "finite with some value" or one of the non-finite values. */
  datatype F64 = Finite(value: real) | Infinite(negative: bool) | NaN

  datatype Real = Real(q: real)

  function One(): Real { Real(1.0) }

  function Zero(): Real { Real(0.0) }

  /** Construction from a float: fails exactly on the non-finite values, and is exact otherwise. */
  function FromF64(f: F64): (r: Option<Real>)
    ensures r.Some? <==> f.Finite?
    ensures r.Some? ==> r.value.q == f.value
  {
    match f
    case Finite(v) => Some(Real(v))
    case _ => None
  }

  function Add(a: Real, b: Real): Real { Real(a.q + b.q) }

  function Mul(a: Real, b: Real): Real { Real(a.q * b.q) }

  /** Negation yields the additive inverse. */
  function Neg(a: Real): (r: Real)
    ensures Add(a, r) == Zero()
  {
    Real(-a.q)
  }

  /** Subtraction undoes addition: `(a - b) + b == a`. */
  function Sub(a: Real, b: Real): (r: Real)
    ensures Add(r, b) == a
  {
    Real(a.q - b.q)
  }

  /**
   * Division is defined for every non-zero divisor and undoes multiplication;
   * an exactly-zero divisor panics in the source, so it is excluded here.
   */
  function Div(a: Real, b: Real): (r: Real)
    requires b != Zero()
    ensures Mul(r, b) == a
  {
    Real(a.q / b.q)
  }

  lemma AddZeroIdentity(a: Real)
    ensures Add(a, Zero()) == a && Add(Zero(), a) == a
  {
  }

  lemma AddCommutative(a: Real, b: Real)
    ensures Add(a, b) == Add(b, a)
  {
  }

  lemma AddAssociative(a: Real, b: Real, c: Real)
    ensures Add(Add(a, b), c) == Add(a, Add(b, c))
  {
  }

  lemma MulOneIdentity(a: Real)
    ensures Mul(a, One()) == a && Mul(One(), a) == a
  {
  }

  lemma MulZeroAnnihilates(a: Real)
    ensures Mul(a, Zero()) == Zero() && Mul(Zero(), a) == Zero()
  {
  }

  lemma MulCommutative(a: Real, b: Real)
    ensures Mul(a, b) == Mul(b, a)
  {
  }

  lemma MulAssociative(a: Real, b: Real, c: Real)
    ensures Mul(Mul(a, b), c) == Mul(a, Mul(b, c))
  {
  }

  lemma MulDistributesOverAdd(a: Real, b: Real, c: Real)
    ensures Mul(a, Add(b, c)) == Add(Mul(a, b), Mul(a, c))
  {
  }

  lemma NegInvolutive(a: Real)
    ensures Neg(Neg(a)) == a
  {
  }

  lemma SubIsAddNeg(a: Real, b: Real)
    ensures Sub(a, b) == Add(a, Neg(b))
  {
  }

  /** Any value `x` with `x + a == 0` is `-a`: the inverse is unique. */
  lemma NegUnique(a: Real, x: Real)
    requires Add(a, x) == Zero()
    ensures x == Neg(a)
  {
  }
}
