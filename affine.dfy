/**
 * 2x3 affine transforms (flipr-transform/src/lib.rs, the `AffineTransform` part):
 *
 *   x' = a*x + b*y + tx
 *   y' = c*x + d*y + ty
 *
 * The source stores `f64` coefficients; here they are exact reals, so composition
 * and inversion hold with equality instead of up to rounding.
 */
module Affine {
  import opened Wrappers

  datatype AffineTransform = AffineTransform(a: real, b: real, c: real, d: real, tx: real, ty: real)

  /** The `(f64, f64)` pair `transform_point` takes and returns. */
  datatype Point = Point(x: real, y: real)

  /** Determinants whose magnitude is below this are treated as singular. */
  const Epsilon: real := 0.0000000001

  function Abs(r: real): real { if r < 0.0 then -r else r }

  /** A row of one matrix times a column of another: `p1 * q1 + p2 * q2`. */
  function Dot(p1: real, p2: real, q1: real, q2: real): real { p1 * q1 + p2 * q2 }

  function Identity(): AffineTransform { AffineTransform(1.0, 0.0, 0.0, 1.0, 0.0, 0.0) }

  function Translation(dx: real, dy: real): AffineTransform { AffineTransform(1.0, 0.0, 0.0, 1.0, dx, dy) }

  function Scale(sx: real, sy: real): AffineTransform { AffineTransform(sx, 0.0, 0.0, sy, 0.0, 0.0) }

  function TransformPoint(t: AffineTransform, p: Point): Point
  {
    Point(Dot(t.a, t.b, p.x, p.y) + t.tx, Dot(t.c, t.d, p.x, p.y) + t.ty)
  }

  function Determinant(t: AffineTransform): real { t.a * t.d - t.b * t.c }

  /** `t.then(other)`: the transform that applies `t` first and `other` second. */
  function Then(t: AffineTransform, other: AffineTransform): AffineTransform
  {
    AffineTransform(
      Dot(other.a, other.b, t.a, t.c),
      Dot(other.a, other.b, t.b, t.d),
      Dot(other.c, other.d, t.a, t.c),
      Dot(other.c, other.d, t.b, t.d),
      Dot(other.a, other.b, t.tx, t.ty) + other.tx,
      Dot(other.c, other.d, t.tx, t.ty) + other.ty)
  }

  /** The closed-form inverse of `t`, given `k`, the reciprocal of its determinant. */
  function InverseWith(t: AffineTransform, k: real): (r: AffineTransform)
    requires k * Determinant(t) == 1.0
    ensures Then(t, r) == Identity() && Then(r, t) == Identity()
  {
    CancelLeft(t.a, t.b, t.c, t.d, t.tx, t.ty, k);
    CancelRight(t.a, t.b, t.c, t.d, t.tx, t.ty, k);
    AffineTransform(t.d * k, -t.b * k, -t.c * k, t.a * k,
                    (t.b * t.ty - t.d * t.tx) * k, (t.c * t.tx - t.a * t.ty) * k)
  }

  /**
   * `inverse()`: absent exactly when the determinant is within `Epsilon` of zero;
   * when present it undoes `t` when composed on either side.
   */
  function Inverse(t: AffineTransform): (r: Option<AffineTransform>)
    ensures r.None? <==> Abs(Determinant(t)) < Epsilon
    ensures r.Some? ==> Then(t, r.value) == Identity() && Then(r.value, t) == Identity()
  {
    var det := Determinant(t);
    if Abs(det) < Epsilon then None
    else
      var k := 1.0 / det;
      assert k * det == 1.0;
      Some(InverseWith(t, k))
  }

  /** The entries of `Then(t, inv)` for the closed-form inverse `inv`, with the determinant factored out. */
  lemma LeftEntries(a: real, b: real, c: real, d: real, tx: real, ty: real, k: real)
    ensures Dot(d * k, -b * k, a, c) == k * (a * d - b * c) && Dot(d * k, -b * k, b, d) == 0.0
    ensures Dot(-c * k, a * k, a, c) == 0.0 && Dot(-c * k, a * k, b, d) == k * (a * d - b * c)
    ensures Dot(d * k, -b * k, tx, ty) + (b * ty - d * tx) * k == 0.0
    ensures Dot(-c * k, a * k, tx, ty) + (c * tx - a * ty) * k == 0.0
  {
  }

  /** The entries of `Then(inv, t)` for the closed-form inverse `inv`, with the determinant factored out. */
  lemma RightEntries(a: real, b: real, c: real, d: real, tx: real, ty: real, k: real)
    ensures Dot(a, b, d * k, -c * k) == k * (a * d - b * c) && Dot(a, b, -b * k, a * k) == 0.0
    ensures Dot(c, d, d * k, -c * k) == 0.0 && Dot(c, d, -b * k, a * k) == k * (a * d - b * c)
    ensures Dot(a, b, (b * ty - d * tx) * k, (c * tx - a * ty) * k) == -(k * (a * d - b * c)) * tx
    ensures Dot(c, d, (b * ty - d * tx) * k, (c * tx - a * ty) * k) == -(k * (a * d - b * c)) * ty
  {
  }

  /** The entries of `Then(t, inv)` for the closed-form inverse `inv`. */
  lemma CancelLeft(a: real, b: real, c: real, d: real, tx: real, ty: real, k: real)
    requires k * (a * d - b * c) == 1.0
    ensures Dot(d * k, -b * k, a, c) == 1.0 && Dot(d * k, -b * k, b, d) == 0.0
    ensures Dot(-c * k, a * k, a, c) == 0.0 && Dot(-c * k, a * k, b, d) == 1.0
    ensures Dot(d * k, -b * k, tx, ty) + (b * ty - d * tx) * k == 0.0
    ensures Dot(-c * k, a * k, tx, ty) + (c * tx - a * ty) * k == 0.0
  {
    LeftEntries(a, b, c, d, tx, ty, k);
  }

  /** The entries of `Then(inv, t)` for the closed-form inverse `inv`. */
  lemma CancelRight(a: real, b: real, c: real, d: real, tx: real, ty: real, k: real)
    requires k * (a * d - b * c) == 1.0
    ensures Dot(a, b, d * k, -c * k) == 1.0 && Dot(a, b, -b * k, a * k) == 0.0
    ensures Dot(c, d, d * k, -c * k) == 0.0 && Dot(c, d, -b * k, a * k) == 1.0
    ensures Dot(a, b, (b * ty - d * tx) * k, (c * tx - a * ty) * k) + tx == 0.0
    ensures Dot(c, d, (b * ty - d * tx) * k, (c * tx - a * ty) * k) + ty == 0.0
  {
    RightEntries(a, b, c, d, tx, ty, k);
  }

  /**
   * `f64::round`: the nearest integer, ties rounded away from zero; the result
   * is within one half of `r`, and a tie goes up for positive `r` and down for
   * negative `r`.
   */
  function Round(r: real): (n: int)
    ensures r - 0.5 <= n as real <= r + 0.5
    ensures n as real == r + 0.5 ==> r > 0.0
    ensures n as real == r - 0.5 ==> r < 0.0
  {
    if r >= 0.0 then (r + 0.5).Floor else -((-r + 0.5).Floor)
  }

  lemma RoundInteger(n: int)
    ensures Round(n as real) == n
  {
  }

  lemma IdentityPoint(p: Point)
    ensures TransformPoint(Identity(), p) == p
  {
  }

  lemma TranslationPoint(dx: real, dy: real, p: Point)
    ensures TransformPoint(Translation(dx, dy), p) == Point(p.x + dx, p.y + dy)
  {
  }

  lemma ScalePoint(sx: real, sy: real, p: Point)
    ensures TransformPoint(Scale(sx, sy), p) == Point(sx * p.x, sy * p.y)
  {
  }

  /** Regrouping a product of three matrices, one linear entry at a time. */
  lemma DotAssociative(p1: real, p2: real, m11: real, m12: real, m21: real, m22: real, n1: real, n2: real)
    ensures Dot(p1, p2, Dot(m11, m12, n1, n2), Dot(m21, m22, n1, n2))
         == Dot(Dot(p1, p2, m11, m21), Dot(p1, p2, m12, m22), n1, n2)
  {
  }

  /** Regrouping a product of three matrices, one translation entry at a time. */
  lemma DotAssociativeShifted(p1: real, p2: real, m11: real, m12: real, m21: real, m22: real,
                              n1: real, n2: real, e1: real, e2: real)
    ensures Dot(p1, p2, Dot(m11, m12, n1, n2) + e1, Dot(m21, m22, n1, n2) + e2)
         == Dot(Dot(p1, p2, m11, m21), Dot(p1, p2, m12, m22), n1, n2) + Dot(p1, p2, e1, e2)
  {
  }

  /** Composition agrees with applying the two transforms one after the other. */
  lemma ThenPoint(t1: AffineTransform, t2: AffineTransform, p: Point)
    ensures TransformPoint(Then(t1, t2), p) == TransformPoint(t2, TransformPoint(t1, p))
  {
    DotAssociativeShifted(t2.a, t2.b, t1.a, t1.b, t1.c, t1.d, p.x, p.y, t1.tx, t1.ty);
    DotAssociativeShifted(t2.c, t2.d, t1.a, t1.b, t1.c, t1.d, p.x, p.y, t1.tx, t1.ty);
  }

  lemma ThenIdentity(t: AffineTransform)
    ensures Then(Identity(), t) == t && Then(t, Identity()) == t
  {
  }

  lemma ThenAssociative(t1: AffineTransform, t2: AffineTransform, t3: AffineTransform)
    ensures Then(Then(t1, t2), t3) == Then(t1, Then(t2, t3))
  {
    DotAssociative(t3.a, t3.b, t2.a, t2.b, t2.c, t2.d, t1.a, t1.c);
    DotAssociative(t3.a, t3.b, t2.a, t2.b, t2.c, t2.d, t1.b, t1.d);
    DotAssociative(t3.c, t3.d, t2.a, t2.b, t2.c, t2.d, t1.a, t1.c);
    DotAssociative(t3.c, t3.d, t2.a, t2.b, t2.c, t2.d, t1.b, t1.d);
    DotAssociativeShifted(t3.a, t3.b, t2.a, t2.b, t2.c, t2.d, t1.tx, t1.ty, t2.tx, t2.ty);
    DotAssociativeShifted(t3.c, t3.d, t2.a, t2.b, t2.c, t2.d, t1.tx, t1.ty, t2.tx, t2.ty);
  }

  /**
   * Order matters: translating by a non-zero `dx` and then scaling by a factor
   * other than one differs from scaling first.
   */
  lemma ThenNotCommutative(dx: real, factor: real)
    requires dx != 0.0 && factor != 1.0
    ensures Then(Translation(dx, 0.0), Scale(factor, factor)) != Then(Scale(factor, factor), Translation(dx, 0.0))
  {
    assert Then(Translation(dx, 0.0), Scale(factor, factor)).tx == factor * dx;
    assert Then(Scale(factor, factor), Translation(dx, 0.0)).tx == dx;
    assert (factor - 1.0) * dx != 0.0;
  }

  /** Mapping a point through `t` and then its inverse (or the other way round) returns it. */
  lemma InverseRoundTrip(t: AffineTransform, p: Point)
    requires Inverse(t).Some?
    ensures TransformPoint(Inverse(t).value, TransformPoint(t, p)) == p
    ensures TransformPoint(t, TransformPoint(Inverse(t).value, p)) == p
  {
    var inv := Inverse(t).value;
    ThenPoint(t, inv, p);
    ThenPoint(inv, t, p);
    IdentityPoint(p);
  }

  /** The identity transform is invertible and is its own inverse. */
  lemma InverseIdentity()
    ensures Inverse(Identity()) == Some(Identity())
  {
    InverseTranslation(0.0, 0.0);
    assert Translation(0.0, 0.0) == Identity();
    assert Translation(-0.0, -0.0) == Identity();
  }

  /** A translation is always invertible, by the opposite translation. */
  lemma InverseTranslation(dx: real, dy: real)
    ensures Inverse(Translation(dx, dy)) == Some(Translation(-dx, -dy))
  {
  }

  /** The source's inverse test: `translation(5, 10)` maps (10, 20) to (15, 30) and back. */
  lemma TranslationInverseExample()
    ensures TransformPoint(Translation(5.0, 10.0), Point(10.0, 20.0)) == Point(15.0, 30.0)
    ensures Inverse(Translation(5.0, 10.0)).Some?
    ensures TransformPoint(Inverse(Translation(5.0, 10.0)).value, Point(15.0, 30.0)) == Point(10.0, 20.0)
  {
    TranslationPoint(5.0, 10.0, Point(10.0, 20.0));
    InverseTranslation(5.0, 10.0);
    TranslationPoint(-5.0, -10.0, Point(15.0, 30.0));
  }

  /**
   * The source's composition test: `translation(5, 10).then(scale(2, 2))` maps
   * (10, 20) to (30, 60), which is where translating to (15, 30) and then scaling lands.
   */
  lemma CompositionExample()
    ensures TransformPoint(Then(Translation(5.0, 10.0), Scale(2.0, 2.0)), Point(10.0, 20.0)) == Point(30.0, 60.0)
    ensures TransformPoint(Scale(2.0, 2.0), TransformPoint(Translation(5.0, 10.0), Point(10.0, 20.0))) == Point(30.0, 60.0)
  {
    TranslationPoint(5.0, 10.0, Point(10.0, 20.0));
    ScalePoint(2.0, 2.0, Point(15.0, 30.0));
    ThenPoint(Translation(5.0, 10.0), Scale(2.0, 2.0), Point(10.0, 20.0));
  }
}
