/**
 * An absolute point (flipr/space/src/place.rs). Places are not added to each other:
 * they form a torsor over `Offset`, with `Place + Offset -> Place` and
 * `Place - Place -> Offset`.
 */
module Places {
  import opened Wrappers
  import R = Reals
  import O = Offsets

  datatype Place = Place(x: R.Real, y: R.Real)

  /** Construction from two floats fails when either is non-finite, and is exact otherwise. */
  function New(x: R.F64, y: R.F64): (r: Option<Place>)
    ensures r.Some? <==> x.Finite? && y.Finite?
    ensures r.Some? ==> r.value.x.q == x.value && r.value.y.q == y.value
  {
    match R.FromF64(x)
    case None => None
    case Some(px) =>
      match R.FromF64(y)
      case None => None
      case Some(py) => Some(Place(px, py))
  }

  /** The distinguished point with both coordinates zero. */
  function Origin(): Place
  {
    Place(R.Zero(), R.Zero())
  }

  /** Moving a place by an offset moves each coordinate by the matching component. */
  function Add(p: Place, a: O.Offset): Place
  {
    Place(R.Add(p.x, a.dx), R.Add(p.y, a.dy))
  }

  /**
   * `p - q` is the component-wise difference, and it is the offset that moves `q`
   * onto `p`.
   */
  function Sub(p: Place, q: Place): (r: O.Offset)
    ensures r.dx == R.Sub(p.x, q.x) && r.dy == R.Sub(p.y, q.y)
    ensures Add(q, r) == p
  {
    O.Offset(R.Sub(p.x, q.x), R.Sub(p.y, q.y))
  }

  /** `p.offset_to(q)` is the offset that moves `p` onto `q`, that is `q - p`. */
  function OffsetTo(p: Place, q: Place): (r: O.Offset)
    ensures r == Sub(q, p)
    ensures Add(p, r) == q
  {
    Sub(q, p)
  }

  /** The origin has both coordinates zero, so a place's offset from it is its coordinate pair. */
  lemma OriginCoordinates(p: Place)
    ensures Origin().x == R.Zero() && Origin().y == R.Zero()
    ensures Sub(p, Origin()) == O.Offset(p.x, p.y)
    ensures Add(Origin(), O.Offset(p.x, p.y)) == p
  {
  }

  lemma AddZeroIdentity(p: Place)
    ensures Add(p, O.Zero()) == p
  {
  }

  lemma AddAssociative(p: Place, a: O.Offset, b: O.Offset)
    ensures Add(Add(p, a), b) == Add(p, O.Add(a, b))
  {
  }

  lemma AddSubCancel(p: Place, q: Place)
    ensures Add(p, Sub(q, p)) == q
  {
  }

  /** The action is free: the offset between two places is the only one joining them. */
  lemma OffsetUnique(p: Place, q: Place, a: O.Offset)
    requires Add(p, a) == q
    ensures a == Sub(q, p)
  {
  }
}
