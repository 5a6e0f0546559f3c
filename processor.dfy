/**
 * Pixel processors and their combinators (flipr-core/src/lib.rs), with the
 * `Transformed` node of flipr-transform/src/lib.rs.
 *
 * The source composes processors through generic wrapper types; here a pipeline
 * is a tree of nodes, and `Dimensions` and `Lookup` (`dimensions` and
 * `process_pixel`) are evaluated from the root down, one node at a time.
 * Coordinates are `usize` in the source and `nat` here.
 */
module Processors {
  import opened Wrappers
  import Affine

  /**
   * The outcome of one query: the `Result<Option<Pixel>, Error>` that `process_pixel`
   * returns, or the panic raised by `Chain` when its `x - w1` underflows `usize`.
   */
  datatype Outcome<P, E> = Returned(result: Result<Option<P>, E>) | Underflow
  {
    predicate IsPresent() { Returned? && result.Ok? && result.value.Some? }

    function Pixel(): P
      requires IsPresent()
    {
      result.value.value
    }
  }

  datatype Node<!P, E> =
    | Leaf(width: nat, height: nat, lookup: (nat, nat) -> Result<Option<P>, E>)
    | Map(source: Node<P, E>, f: P -> P)
    | Filter(source: Node<P, E>, keep: P -> bool)
    | Chain(first: Node<P, E>, second: Node<P, E>)
    | Transformed(source: Node<P, E>, transform: Affine.AffineTransform)

  /** `dimensions()`: the declared (width, height) of a node. */
  function Dimensions<P, E>(t: Node<P, E>): (nat, nat)
  {
    match t
    case Leaf(w, h, _) => (w, h)
    case Map(source, _) => Dimensions(source)
    case Filter(source, _) => Dimensions(source)
    case Chain(first, second) =>
      var (w1, h1) := Dimensions(first);
      var (w2, h2) := Dimensions(second);
      (w1 + w2, if h1 >= h2 then h1 else h2)
    case Transformed(source, _) => Dimensions(source)
  }

  /** `process_pixel(x, y)`, evaluated through the tree. */
  function Lookup<P, E>(t: Node<P, E>, x: nat, y: nat): Outcome<P, E>
  {
    match t
    case Leaf(_, _, lookup) => Returned(lookup(x, y))
    case Map(source, f) =>
      var r := Lookup(source, x, y);
      if r.IsPresent() then Returned(Ok(Some(f(r.Pixel())))) else r
    case Filter(source, keep) =>
      var r := Lookup(source, x, y);
      if r.IsPresent() && !keep(r.Pixel()) then Returned(Ok(None)) else r
    case Chain(first, second) =>
      var (w1, h1) := Dimensions(first);
      if x < w1 && y < h1 then Lookup(first, x, y)
      else if x < w1 then Underflow
      else Lookup(second, x - w1, y)
    case Transformed(source, transform) =>
      match SourcePixel(transform, x, y)
      case None => Returned(Ok(None))
      case Some(s) => Lookup(source, s.x, s.y)
  }

  datatype Position = Position(x: nat, y: nat)

  /**
   * The pixel nearest to a point of the source plane (coordinates rounded half
   * away from zero), or nothing when that pixel would have a negative coordinate.
   */
  function Nearest(q: Affine.Point): (r: Option<Position>)
    ensures r.Some? <==> q.x > -0.5 && q.y > -0.5
    ensures r.Some? ==> q.x - 0.5 < r.value.x as real <= q.x + 0.5
    ensures r.Some? ==> q.y - 0.5 < r.value.y as real <= q.y + 0.5
  {
    var sx, sy := Affine.Round(q.x), Affine.Round(q.y);
    if sx >= 0 && sy >= 0 then Some(Position(sx, sy)) else None
  }

  /** A point with whole coordinates is its own nearest pixel. */
  lemma NearestWhole(x: nat, y: nat)
    ensures Nearest(Affine.Point(x as real, y as real)) == Some(Position(x, y))
  {
    Affine.RoundInteger(x);
    Affine.RoundInteger(y);
  }

  /**
   * The source pixel that `Transformed` reads for the output pixel (x, y): the
   * pixel nearest to the query mapped through the inverse transform, or nothing
   * when the transform is singular.
   */
  function SourcePixel(transform: Affine.AffineTransform, x: nat, y: nat): (r: Option<Position>)
    ensures Affine.Abs(Affine.Determinant(transform)) < Affine.Epsilon ==> r.None?
    ensures Affine.Inverse(transform).Some? ==>
              r == Nearest(Affine.TransformPoint(Affine.Inverse(transform).value, Affine.Point(x as real, y as real)))
  {
    match Affine.Inverse(transform)
    case None => None
    case Some(inv) => Nearest(Affine.TransformPoint(inv, Affine.Point(x as real, y as real)))
  }

  // ---------------------------------------------------------------------------
  // One node at a time
  // ---------------------------------------------------------------------------

  /** `Map` applies `f` to a present pixel; absence, errors and panics pass through unchanged. */
  lemma MapLookup<P, E>(source: Node<P, E>, f: P -> P, x: nat, y: nat)
    ensures Lookup(source, x, y).IsPresent() ==>
              Lookup(Map(source, f), x, y) == Returned(Ok(Some(f(Lookup(source, x, y).Pixel()))))
    ensures !Lookup(source, x, y).IsPresent() ==> Lookup(Map(source, f), x, y) == Lookup(source, x, y)
  {
  }

  lemma MapDimensions<P, E>(source: Node<P, E>, f: P -> P)
    ensures Dimensions(Map(source, f)) == Dimensions(source)
  {
  }

  /**
   * `Filter` keeps a pixel exactly when the predicate holds of it, turns a rejected
   * pixel into absence, and passes absence, errors and panics through unchanged.
   */
  lemma FilterLookup<P, E>(source: Node<P, E>, keep: P -> bool, x: nat, y: nat)
    ensures Lookup(Filter(source, keep), x, y).IsPresent() <==>
              Lookup(source, x, y).IsPresent() && keep(Lookup(source, x, y).Pixel())
    ensures Lookup(Filter(source, keep), x, y).IsPresent() ==>
              Lookup(Filter(source, keep), x, y) == Lookup(source, x, y)
    ensures Lookup(source, x, y).IsPresent() && !keep(Lookup(source, x, y).Pixel()) ==>
              Lookup(Filter(source, keep), x, y) == Returned(Ok(None))
    ensures !Lookup(source, x, y).IsPresent() ==> Lookup(Filter(source, keep), x, y) == Lookup(source, x, y)
  {
  }

  lemma FilterDimensions<P, E>(source: Node<P, E>, keep: P -> bool)
    ensures Dimensions(Filter(source, keep)) == Dimensions(source)
  {
  }

  /** `Chain` places `second` to the right of `first`: widths add, the taller height wins. */
  lemma ChainDimensions<P, E>(first: Node<P, E>, second: Node<P, E>)
    ensures Dimensions(Chain(first, second)).0 == Dimensions(first).0 + Dimensions(second).0
    ensures Dimensions(Chain(first, second)).1 >= Dimensions(first).1
    ensures Dimensions(Chain(first, second)).1 >= Dimensions(second).1
    ensures Dimensions(Chain(first, second)).1 == Dimensions(first).1
         || Dimensions(Chain(first, second)).1 == Dimensions(second).1
  {
  }

  /**
   * `Chain` asks `first` exactly when the query lies inside `first`'s rectangle;
   * otherwise it asks `second` at `x - w1`, which underflows when `x < w1`.
   */
  lemma ChainLookup<P, E>(first: Node<P, E>, second: Node<P, E>, x: nat, y: nat)
    ensures x < Dimensions(first).0 && y < Dimensions(first).1 ==>
              Lookup(Chain(first, second), x, y) == Lookup(first, x, y)
    ensures x >= Dimensions(first).0 ==>
              Lookup(Chain(first, second), x, y) == Lookup(second, x - Dimensions(first).0, y)
    ensures x < Dimensions(first).0 && y >= Dimensions(first).1 ==>
              Lookup(Chain(first, second), x, y) == Underflow
  {
  }

  lemma TransformedDimensions<P, E>(source: Node<P, E>, transform: Affine.AffineTransform)
    ensures Dimensions(Transformed(source, transform)) == Dimensions(source)
  {
  }

  /**
   * `Transformed` asks its source at the pixel the inverse transform leads to,
   * answers absence where there is none, and whatever the transform, never
   * consults the source's dimensions.
   */
  lemma TransformedLookup<P, E>(source: Node<P, E>, transform: Affine.AffineTransform, x: nat, y: nat)
    ensures SourcePixel(transform, x, y).None? ==> Lookup(Transformed(source, transform), x, y) == Returned(Ok(None))
    ensures SourcePixel(transform, x, y).Some? ==>
              (Lookup(Transformed(source, transform), x, y)
               == Lookup(source, SourcePixel(transform, x, y).value.x, SourcePixel(transform, x, y).value.y))
  {
  }

  // ---------------------------------------------------------------------------
  // Whole pipelines
  // ---------------------------------------------------------------------------

  /** Every leaf answers absence outside its declared rectangle, as the trait asks of processors. */
  ghost predicate LeavesBounded<P, E>(t: Node<P, E>)
  {
    match t
    case Leaf(w, h, lookup) => forall x: nat, y: nat :: x >= w || y >= h ==> lookup(x, y) == Ok(None)
    case Map(source, _) => LeavesBounded(source)
    case Filter(source, _) => LeavesBounded(source)
    case Chain(first, second) => LeavesBounded(first) && LeavesBounded(second)
    case Transformed(source, _) => LeavesBounded(source)
  }

  /** No `Transformed` node occurs in the tree. */
  predicate Untransformed<P, E>(t: Node<P, E>)
  {
    match t
    case Leaf(_, _, _) => true
    case Map(source, _) => Untransformed(source)
    case Filter(source, _) => Untransformed(source)
    case Chain(first, second) => Untransformed(first) && Untransformed(second)
    case Transformed(_, _) => false
  }

  /** Both sides of every `Chain` in the tree have the same height. */
  predicate EqualHeights<P, E>(t: Node<P, E>)
  {
    match t
    case Leaf(_, _, _) => true
    case Map(source, _) => EqualHeights(source)
    case Filter(source, _) => EqualHeights(source)
    case Chain(first, second) =>
      EqualHeights(first) && EqualHeights(second) && Dimensions(first).1 == Dimensions(second).1
    case Transformed(source, _) => EqualHeights(source)
  }

  /** Some leaf of the tree answers some query with the error `e`. */
  ghost predicate Raises<P, E>(t: Node<P, E>, e: E)
  {
    match t
    case Leaf(_, _, lookup) => exists x: nat, y: nat :: lookup(x, y) == Err(e)
    case Map(source, _) => Raises(source, e)
    case Filter(source, _) => Raises(source, e)
    case Chain(first, second) => Raises(first, e) || Raises(second, e)
    case Transformed(source, _) => Raises(source, e)
  }

  /**
   * Right of the declared width, a pipeline of bounded leaves without transforms
   * answers absence: combinators keep the "None outside the bounds" promise.
   */
  lemma {:induction false} AbsentRightOfWidth<P, E>(t: Node<P, E>, x: nat, y: nat)
    requires LeavesBounded(t) && Untransformed(t)
    requires x >= Dimensions(t).0
    ensures Lookup(t, x, y) == Returned(Ok(None))
    decreases t
  {
    match t
    case Leaf(_, _, _) =>
    case Map(source, _) => AbsentRightOfWidth(source, x, y);
    case Filter(source, _) => AbsentRightOfWidth(source, x, y);
    case Chain(first, second) =>
      ChainDimensions(first, second);
      AbsentRightOfWidth(second, x - Dimensions(first).0, y);
  }

  /**
   * Below the declared height the same pipelines answer absence, except that a
   * `Chain` whose first part is shorter than the query panics on the subtraction.
   */
  lemma {:induction false} AbsentOrUnderflowBelowHeight<P, E>(t: Node<P, E>, x: nat, y: nat)
    requires LeavesBounded(t) && Untransformed(t)
    requires y >= Dimensions(t).1
    ensures Lookup(t, x, y) == Returned(Ok(None)) || Lookup(t, x, y) == Underflow
    decreases t
  {
    match t
    case Leaf(_, _, _) =>
    case Map(source, _) => AbsentOrUnderflowBelowHeight(source, x, y);
    case Filter(source, _) => AbsentOrUnderflowBelowHeight(source, x, y);
    case Chain(first, second) =>
      if x >= Dimensions(first).0 {
        AbsentOrUnderflowBelowHeight(second, x - Dimensions(first).0, y);
      }
  }

  /**
   * A query inside the declared rectangle of a pipeline without transforms whose
   * chains join parts of equal height never reaches the underflowing subtraction.
   */
  lemma {:induction false} NoUnderflowInBounds<P, E>(t: Node<P, E>, x: nat, y: nat)
    requires Untransformed(t) && EqualHeights(t)
    requires x < Dimensions(t).0 && y < Dimensions(t).1
    ensures Lookup(t, x, y) != Underflow
    decreases t
  {
    match t
    case Leaf(_, _, _) =>
    case Map(source, _) => NoUnderflowInBounds(source, x, y);
    case Filter(source, _) => NoUnderflowInBounds(source, x, y);
    case Chain(first, second) =>
      if x < Dimensions(first).0 {
        NoUnderflowInBounds(first, x, y);
      } else {
        NoUnderflowInBounds(second, x - Dimensions(first).0, y);
      }
  }

  /** Combinators create no errors: any error a pipeline answers was raised by one of its leaves. */
  lemma {:induction false} ErrorsComeFromLeaves<P, E>(t: Node<P, E>, x: nat, y: nat, e: E)
    requires Lookup(t, x, y) == Returned(Err(e))
    ensures Raises(t, e)
    decreases t
  {
    match t
    case Leaf(_, _, lookup) =>
      assert lookup(x, y) == Err(e);
    case Map(source, _) => ErrorsComeFromLeaves(source, x, y, e);
    case Filter(source, _) => ErrorsComeFromLeaves(source, x, y, e);
    case Chain(first, second) =>
      if x < Dimensions(first).0 {
        ErrorsComeFromLeaves(first, x, y, e);
      } else {
        ErrorsComeFromLeaves(second, x - Dimensions(first).0, y, e);
      }
    case Transformed(source, transform) =>
      var s := SourcePixel(transform, x, y).value;
      ErrorsComeFromLeaves(source, s.x, s.y, e);
  }

  // ---------------------------------------------------------------------------
  // Laws of the combinators
  // ---------------------------------------------------------------------------

  /** Mapping the identity function changes no answer. */
  lemma MapIdentity<P, E>(source: Node<P, E>, x: nat, y: nat)
    ensures Lookup(Map(source, p => p), x, y) == Lookup(source, x, y)
  {
  }

  /** Two maps in a row answer as one map of the composed function. */
  lemma MapFusion<P, E>(source: Node<P, E>, f: P -> P, g: P -> P, x: nat, y: nat)
    ensures Lookup(Map(Map(source, f), g), x, y) == Lookup(Map(source, p => g(f(p))), x, y)
  {
  }

  /** Two filters in a row answer as one filter of the conjoined predicates. */
  lemma FilterFusion<P, E>(source: Node<P, E>, keep1: P -> bool, keep2: P -> bool, x: nat, y: nat)
    ensures Lookup(Filter(Filter(source, keep1), keep2), x, y)
         == Lookup(Filter(source, p => keep1(p) && keep2(p)), x, y)
  {
  }

  /** Resampling through the identity transform answers exactly as the source. */
  lemma TransformedIdentity<P, E>(source: Node<P, E>, x: nat, y: nat)
    ensures Lookup(Transformed(source, Affine.Identity()), x, y) == Lookup(source, x, y)
  {
    SourcePixelIdentity(x, y);
    TransformedLookup(source, Affine.Identity(), x, y);
  }

  /**
   * When an invertible transform carries the source pixel `s` exactly onto the
   * output pixel (x, y), the output pixel (x, y) reads `s`.
   */
  lemma SourcePixelOfImage(transform: Affine.AffineTransform, s: Position, x: nat, y: nat)
    requires Affine.Abs(Affine.Determinant(transform)) >= Affine.Epsilon
    requires Affine.TransformPoint(transform, Affine.Point(s.x as real, s.y as real)) == Affine.Point(x as real, y as real)
    ensures SourcePixel(transform, x, y) == Some(s)
  {
    Affine.InverseRoundTrip(transform, Affine.Point(s.x as real, s.y as real));
    NearestWhole(s.x, s.y);
  }

  /** Under the identity transform every output pixel reads the source pixel at the same place. */
  lemma SourcePixelIdentity(x: nat, y: nat)
    ensures SourcePixel(Affine.Identity(), x, y) == Some(Position(x, y))
  {
    var p := Affine.Point(x as real, y as real);
    Affine.InverseIdentity();
    Affine.IdentityPoint(p);
    NearestWhole(x, y);
  }

  /**
   * Resampling through a whole-pixel translation moves the image: the answer at
   * (x, y) is the source's at (x - dx, y - dy), and absence left of or above it.
   */
  lemma TransformedTranslation<P, E>(source: Node<P, E>, dx: int, dy: int, x: nat, y: nat)
    ensures x - dx >= 0 && y - dy >= 0 ==>
              (Lookup(Transformed(source, Affine.Translation(dx as real, dy as real)), x, y)
               == Lookup(source, x - dx, y - dy))
    ensures x - dx < 0 || y - dy < 0 ==>
              Lookup(Transformed(source, Affine.Translation(dx as real, dy as real)), x, y) == Returned(Ok(None))
  {
    Affine.InverseTranslation(dx as real, dy as real);
    var p := Affine.Point(x as real, y as real);
    Affine.TranslationPoint(-(dx as real), -(dy as real), p);
    Affine.RoundInteger(x - dx);
    Affine.RoundInteger(y - dy);
    assert x - dx >= 0 && y - dy >= 0 ==>
      SourcePixel(Affine.Translation(dx as real, dy as real), x, y) == Some(Position(x - dx, y - dy));
  }
}

