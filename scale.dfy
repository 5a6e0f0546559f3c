/**
 * A scalar multiplier (flipr/space/src/scale.rs): one `Real`, forming a commutative
 * ring under its own addition and multiplication.
 */
module Scales {
  import R = Reals

  datatype Scale = Scale(factor: R.Real)

  function One(): Scale { Scale(R.One()) }

  function Zero(): Scale { Scale(R.Zero()) }

  function Mul(m: Scale, n: Scale): Scale { Scale(R.Mul(m.factor, n.factor)) }

  function Add(m: Scale, n: Scale): Scale { Scale(R.Add(m.factor, n.factor)) }

  /** Negation yields the additive inverse. */
  function Neg(m: Scale): (r: Scale)
    ensures Add(m, r) == Zero()
  {
    Scale(R.Neg(m.factor))
  }

  lemma AddAssociative(m: Scale, n: Scale, o: Scale)
    ensures Add(m, Add(n, o)) == Add(Add(m, n), o)
  {
  }

  lemma AddCommutative(m: Scale, n: Scale)
    ensures Add(m, n) == Add(n, m)
  {
  }

  lemma AddZeroIdentity(m: Scale)
    ensures Add(Zero(), m) == m && Add(m, Zero()) == m
  {
  }

  lemma MulAssociative(m: Scale, n: Scale, o: Scale)
    ensures Mul(m, Mul(n, o)) == Mul(Mul(m, n), o)
  {
  }

  lemma MulCommutative(m: Scale, n: Scale)
    ensures Mul(m, n) == Mul(n, m)
  {
  }

  lemma MulZeroAnnihilates(m: Scale)
    ensures Mul(Zero(), m) == Zero() && Mul(m, Zero()) == Zero()
  {
  }

  lemma MulOneIdentity(m: Scale)
    ensures Mul(One(), m) == m && Mul(m, One()) == m
  {
  }

  lemma MulDistributesOverAdd(m: Scale, n: Scale, o: Scale)
    ensures Mul(m, Add(n, o)) == Add(Mul(m, n), Mul(m, o))
  {
  }
}
