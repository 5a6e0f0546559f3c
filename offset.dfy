/**
 * A free vector (flipr/space/src/offset.rs): a pair of `Real`s forming an abelian
 * group under component-wise addition, with `Scale` acting on it.
 */
module Offsets {
  import opened Wrappers
  import R = Reals
  import S = Scales

  datatype Offset = Offset(dx: R.Real, dy: R.Real)

  function Zero(): Offset { Offset(R.Zero(), R.Zero()) }

  /** Construction from two floats fails when either is non-finite, and is exact otherwise. */
  function New(x: R.F64, y: R.F64): (r: Option<Offset>)
    ensures r.Some? <==> x.Finite? && y.Finite?
    ensures r.Some? ==> r.value.dx.q == x.value && r.value.dy.q == y.value
  {
    match R.FromF64(x)
    case None => None
    case Some(dx) =>
      match R.FromF64(y)
      case None => None
      case Some(dy) => Some(Offset(dx, dy))
  }

  /** Addition is component-wise. */
  function Add(a: Offset, b: Offset): Offset
  {
    Offset(R.Add(a.dx, b.dx), R.Add(a.dy, b.dy))
  }

  /** Negation yields the additive inverse. */
  function Neg(a: Offset): (r: Offset)
    ensures Add(a, r) == Zero()
  {
    Offset(R.Neg(a.dx), R.Neg(a.dy))
  }

  /** Scaling multiplies both components by the same factor. */
  function Mul(a: Offset, m: S.Scale): Offset
  {
    Offset(R.Mul(a.dx, m.factor), R.Mul(a.dy, m.factor))
  }

  lemma AddAssociative(a: Offset, b: Offset, c: Offset)
    ensures Add(a, Add(b, c)) == Add(Add(a, b), c)
  {
  }

  lemma AddCommutative(a: Offset, b: Offset)
    ensures Add(a, b) == Add(b, a)
  {
  }

  lemma AddZeroIdentity(a: Offset)
    ensures Add(Zero(), a) == a && Add(a, Zero()) == a
  {
  }

  lemma MulAssociative(a: Offset, m: S.Scale, n: S.Scale)
    ensures Mul(Mul(a, m), n) == Mul(a, S.Mul(m, n))
  {
  }

  lemma MulOneIdentity(a: Offset)
    ensures Mul(a, S.One()) == a
  {
  }

  lemma MulDistributesOverOffsetAdd(a: Offset, b: Offset, m: S.Scale)
    ensures Mul(Add(a, b), m) == Add(Mul(a, m), Mul(b, m))
  {
  }

  lemma MulDistributesOverScaleAdd(a: Offset, m: S.Scale, n: S.Scale)
    ensures Mul(a, S.Add(m, n)) == Add(Mul(a, m), Mul(a, n))
  {
  }
}
