/**
 * The concrete pipelines of the repository's tests and example program, built
 * from the modelled combinators: the `TestProcessor` leaf of flipr-core's tests,
 * the `GradientProcessor` leaf of the example driver, and the backend tests.
 */
module Scenarios {
  import opened Wrappers
  import R = Reals
  import Affine
  import opened Processors
  import Ops

  /** A `u8`. */
  type Byte = x: int | 0 <= x < 256

  /** `Gray<u8>`. */
  datatype Gray = Gray(value: Byte)

  /** `as u8`: keeps the low eight bits. */
  function ToByte(n: nat): Byte
  {
    n % 256
  }

  /** `TestProcessor::process_pixel`: the value `x + y` inside the rectangle, absence outside it. */
  function TestPixel(width: nat, height: nat, x: nat, y: nat): Result<Option<Gray>, ()>
  {
    if x < width && y < height then Ok(Some(Gray(ToByte(x + y)))) else Ok(None)
  }

  function TestLeaf(width: nat, height: nat): Node<Gray, ()>
  {
    Leaf(width, height, (x: nat, y: nat) => TestPixel(width, height, x, y))
  }

  /** `GradientProcessor::process_pixel`: the value `(x + y) * 255 / (width + height)` inside the rectangle. */
  function GradientPixel(width: nat, height: nat, x: nat, y: nat): Result<Option<Gray>, ()>
  {
    if x < width && y < height then Ok(Some(Gray(ToByte((x + y) * 255 / (width + height))))) else Ok(None)
  }

  function GradientLeaf(width: nat, height: nat): Node<Gray, ()>
  {
    Leaf(width, height, (x: nat, y: nat) => GradientPixel(width, height, x, y))
  }

  /**
   * The test's `|p| Gray { value: p.value * 2 }`. The model wraps around modulo
   * 256 where the source's test build would panic on overflow.
   */
  function Double(p: Gray): Gray
  {
    Gray(ToByte(2 * p.value))
  }

  /** The example's `|p| Gray { value: p.value.saturating_mul(2) }`. */
  function DoubleSaturating(p: Gray): Gray
  {
    Gray(if 2 * p.value > 255 then 255 else 2 * p.value)
  }

  /** The test's `|p: &Gray<u8>| p.value < 10`. */
  predicate Below10(p: Gray)
  {
    p.value < 10
  }

  /** The example's `|p: &Gray<u8>| p.value < 200`. */
  predicate Below200(p: Gray)
  {
    p.value < 200
  }

  function Present(v: Byte): Outcome<Gray, ()>
  {
    Returned(Ok(Some(Gray(v))))
  }

  function Absent(): Outcome<Gray, ()>
  {
    Returned(Ok(None))
  }

  // ---------------------------------------------------------------------------
  // The test leaf
  // ---------------------------------------------------------------------------

  /**
   * The test leaf keeps the processor promise: absence outside its rectangle, the
   * value `x + y` (as a byte) inside it, and never an error or a panic.
   */
  lemma TestLeafLookup(width: nat, height: nat, x: nat, y: nat)
    ensures LeavesBounded(TestLeaf(width, height))
    ensures Dimensions(TestLeaf(width, height)) == (width, height)
    ensures x < width && y < height ==> Lookup(TestLeaf(width, height), x, y) == Present(ToByte(x + y))
    ensures x >= width || y >= height ==> Lookup(TestLeaf(width, height), x, y) == Absent()
  {
  }

  /** `test_basic_processor`. */
  lemma BasicScenario()
    ensures Lookup(TestLeaf(10, 10), 5, 5) == Present(10)
  {
  }

  /** `test_map`. */
  lemma MapScenario()
    ensures Lookup(Map(TestLeaf(10, 10), Double), 5, 5) == Present(20)
  {
    MapLookup(TestLeaf(10, 10), Double, 5, 5);
  }

  /** `test_filter`: the filter is applied to the bare test leaf. */
  lemma FilterScenario()
    ensures Lookup(Filter(TestLeaf(10, 10), Below10), 5, 5) == Absent()
    ensures Lookup(Filter(TestLeaf(10, 10), Below10), 2, 2) == Present(4)
  {
    FilterLookup(TestLeaf(10, 10), Below10, 5, 5);
    FilterLookup(TestLeaf(10, 10), Below10, 2, 2);
  }

  /** The same filter applied after the doubling map. */
  lemma MapFilterScenario()
    ensures Lookup(Filter(Map(TestLeaf(10, 10), Double), Below10), 5, 5) == Absent()
    ensures Lookup(Filter(Map(TestLeaf(10, 10), Double), Below10), 2, 2) == Present(8)
  {
    MapLookup(TestLeaf(10, 10), Double, 5, 5);
    MapLookup(TestLeaf(10, 10), Double, 2, 2);
    FilterLookup(Map(TestLeaf(10, 10), Double), Below10, 5, 5);
    FilterLookup(Map(TestLeaf(10, 10), Double), Below10, 2, 2);
  }

  /**
   * A chain whose first part is shorter than its second panics for a query in
   * the gap below the first part: (3, 7) with a 10x5 part followed by a 10x10 one.
   */
  lemma ChainGapScenario()
    ensures Dimensions(Chain(TestLeaf(10, 5), TestLeaf(10, 10))) == (20, 10)
    ensures Lookup(Chain(TestLeaf(10, 5), TestLeaf(10, 10)), 3, 7) == Underflow
    ensures Lookup(Chain(TestLeaf(10, 5), TestLeaf(10, 10)), 13, 7) == Present(10)
  {
    ChainLookup(TestLeaf(10, 5), TestLeaf(10, 10), 3, 7);
    ChainLookup(TestLeaf(10, 5), TestLeaf(10, 10), 13, 7);
  }

  /**
   * `Transformed` keeps its source's dimensions but does not check them: a 10x10
   * leaf shifted right by 10 answers a pixel at (15, 0), outside its declared width.
   */
  lemma TransformedOutsideDimensions()
    ensures Dimensions(Transformed(TestLeaf(10, 10), Affine.Translation(10 as real, 0 as real))) == (10, 10)
    ensures Lookup(Transformed(TestLeaf(10, 10), Affine.Translation(10 as real, 0 as real)), 15, 0) == Present(5)
  {
    TransformedTranslation(TestLeaf(10, 10), 10, 0, 15, 0);
  }

  // ---------------------------------------------------------------------------
  // The example program's gradient
  // ---------------------------------------------------------------------------

  /** A quotient by `d` of a number below `k * d` is below `k`. */
  lemma QuotientBelow(n: nat, d: nat, k: nat)
    requires d > 0 && n < k * d
    ensures n / d < k
  {
    assert (n / d) * d <= n;
  }

  /** The gradient stays below 255 inside its rectangle, so the `as u8` cast never truncates there. */
  lemma GradientNoTruncation(width: nat, height: nat, x: nat, y: nat)
    requires x < width && y < height
    ensures (x + y) * 255 / (width + height) < 255
    ensures Lookup(GradientLeaf(width, height), x, y) == Present((x + y) * 255 / (width + height))
  {
    QuotientBelow((x + y) * 255, width + height, 255);
  }

  /** Two chained 50x50 gradients: 100x50, each half answering as its own gradient. */
  lemma ChainScenario()
    ensures Dimensions(Chain(GradientLeaf(50, 50), GradientLeaf(50, 50))) == (100, 50)
    ensures Lookup(Chain(GradientLeaf(50, 50), GradientLeaf(50, 50)), 25, 25) == Lookup(GradientLeaf(50, 50), 25, 25)
    ensures Lookup(Chain(GradientLeaf(50, 50), GradientLeaf(50, 50)), 75, 25) == Lookup(GradientLeaf(50, 50), 25, 25)
    ensures Lookup(GradientLeaf(50, 50), 25, 25) == Present(127)
  {
    ChainLookup(GradientLeaf(50, 50), GradientLeaf(50, 50), 25, 25);
    ChainLookup(GradientLeaf(50, 50), GradientLeaf(50, 50), 75, 25);
  }

  /** The example's map-then-filter pipeline rejects the doubled centre pixel 127 -> 254. */
  lemma PipelineScenario()
    ensures Lookup(GradientLeaf(100, 100), 50, 50) == Present(127)
    ensures Lookup(Filter(Map(GradientLeaf(100, 100), DoubleSaturating), Below200), 50, 50) == Absent()
  {
    MapLookup(GradientLeaf(100, 100), DoubleSaturating, 50, 50);
    FilterLookup(Map(GradientLeaf(100, 100), DoubleSaturating), Below200, 50, 50);
  }

  /**
   * Shifting by `d` along both axes and then scaling both by `s` is the matrix
   * `s * p + s * d`; the example's `translation(10, 10).then(scale(0.5, 0.5))`
   * is thus `AffineTransform(0.5, 0, 0, 0.5, 5, 5)`.
   */
  lemma ShiftThenScale(d: real, s: real)
    ensures Affine.Then(Affine.Translation(d, d), Affine.Scale(s, s)) == Affine.AffineTransform(s, 0.0, 0.0, s, s * d, s * d)
  {
  }

  /**
   * The example's transformed gradient, first half: through the inverse of the
   * composed matrix, the output pixel (50, 50) reads the source pixel (90, 90).
   */
  lemma ExampleSourcePixel()
    ensures SourcePixel(Affine.AffineTransform(0.5, 0.0, 0.0, 0.5, 5.0, 5.0), 50, 50) == Some(Position(90, 90))
  {
    var t := Affine.AffineTransform(0.5, 0.0, 0.0, 0.5, 5.0, 5.0);
    assert Affine.Determinant(t) == 0.25;
    assert Affine.TransformPoint(t, Affine.Point(90 as real, 90 as real)) == Affine.Point(50 as real, 50 as real);
    SourcePixelOfImage(t, Position(90, 90), 50, 50);
  }

  /**
   * The example's transformed gradient, second half: the 100x100 gradient is 229
   * at (90, 90), which `TransformedLookup` makes the answer at (50, 50).
   */
  lemma GradientSample()
    ensures Lookup(GradientLeaf(100, 100), 90, 90) == Present(229)
  {
  }

  // ---------------------------------------------------------------------------
  // The backend tests
  // ---------------------------------------------------------------------------

  /** `test_cpu_backend`, `test_gpu_backend_not_supported` and `test_operation_builder`. */
  lemma BackendScenarios()
    ensures Ops.Execute(Ops.Cpu, Ops.Custom("test", [Gray(42)])) == Ok([Gray(42)])
    ensures Ops.Execute<Gray>(Ops.Gpu(0), Ops.Pointwise(Ops.Identity)).Err?
    ensures Ops.BuildPointwise<Gray>(Ops.Brighten(R.Finite(0.5))).Pointwise?
    ensures Ops.BuildPointwise<Gray>(Ops.Brighten(R.Finite(0.5))).op.Brighten?
  {
  }

  /**
   * A 1x1 CPU custom processor over the test's data answers 42 at its only pixel
   * and absence next to it.
   */
  lemma BackendPixelScenario()
    ensures Ops.ProcessPixel(Ops.BackendProcessor(Ops.Custom("test", [Gray(42)]), Ops.Cpu, 1, 1), 0, 0) == Ok(Some(Gray(42)))
    ensures Ops.ProcessPixel(Ops.BackendProcessor(Ops.Custom("test", [Gray(42)]), Ops.Cpu, 1, 1), 1, 0) == Ok(None)
  {
  }
}
