# flipr in Dafny

A model of the core of flipr, a Rust library of lazily evaluated 2-D pixel
pipelines. It has three parts, each a layer of the library.

- **An exact coordinate algebra** (`flipr/space`). `Real` is a rational
  number. `Scale` wraps one `Real`. `Offset` is a displacement `(dx, dy)`.
  `Place` is an absolute point. The ring, group, module and torsor laws that
  the source's property tests sample are proved here for every value.
- **Pixel processors and their combinators** (`flipr-core`). A processor has
  `dimensions()` and a per-pixel `process_pixel`. The result is
  `Result<Option<Pixel>, Error>`, where `None` means absence.
  - `Map` and `Filter` wrap one processor.
  - `Chain` places two processors side by side.
  - `Transformed` (`flipr-transform`) resamples a processor through the inverse
    of an affine transform, taking the nearest pixel.

  A pipeline is a tree of `Processors.Node`. `Processors.Dimensions` and
  `Processors.Lookup` evaluate the tree node by node, as the nested generic
  wrappers of the source do.
- **The backend processor** (`flipr-ops`). A CPU or GPU backend turns an
  `Operation` into a list of pixels. `BackendProcessor` answers each pixel from
  that list by row-major index.

Every core file is value code: it has no mutation and no loops. The model is
therefore datatypes, functions and lemmas.

Modelling decisions:
- `Ratio<BigInt>` is Dafny's `real`.
- An `f64` passed to a constructor is the datatype `Reals.F64`: `Finite(value)`,
  `Infinite`, or `NaN`.
- The `f64` coefficients of `AffineTransform` are `real`. `f64::round` is
  rounding half away from zero (`Affine.Round`).
- `usize` coordinates are `nat`.
- The `usize` subtraction `x - w1` in `Chain::process_pixel`
  (flipr-core/src/lib.rs:132) is modelled explicitly. When `x < w1`, the
  subtraction overflows, which panics in a debug build. The model returns the
  outcome `Underflow` there; `Processors.Outcome` is the source's `Result`, or
  that panic.
- The uses of `Chain` in the source's tests and example pipelines are modelled
  in `Scenarios`. The test leaf is `TestProcessor`; the gradient leaf is the
  example program's `GradientProcessor`.

Two behaviours of the code worth knowing:
- **Routing in `Chain`.** `Chain` sends a query to `first` only when
  `x < w1 && y < h1` (flipr-core/src/lib.rs:128). Every other query goes to
  `second` at `x - w1` (flipr-core/src/lib.rs:132). So a query left of `w1`
  and below a shorter first part underflows; it does not answer absence.
  `Processors.ChainLookup` and `Scenarios.ChainGapScenario` state this, and
  `Processors.NoUnderflowInBounds` states when it cannot happen.
- **Map followed by filter.** The core's filter test filters the bare test
  leaf and gets 4 at (2, 2) (`Scenarios.FilterScenario`).
  `Scenarios.MapFilterScenario` applies the test filter after the test map:
  it rejects (5, 5) and keeps 8 at (2, 2).

## Model

| member | source | states |
|---|---|---|
| Reals.Zero | flipr/space/src/real.rs:18-20 | the additive identity and the annihilator, by `Reals.AddZeroIdentity` and `Reals.MulZeroAnnihilates` |
| Reals.One | flipr/space/src/real.rs:14-16 | the multiplicative identity, by `Reals.MulOneIdentity` |
| Reals.Add | flipr/space/src/real.rs:58-60 | exact addition: a commutative group with `Reals.Neg`, by `Reals.AddCommutative`, `Reals.AddAssociative`, `Reals.AddZeroIdentity` and `Reals.NegUnique` |
| Reals.Mul | flipr/space/src/real.rs:130-132 | exact multiplication: commutative, associative and distributive over `Reals.Add`, by `Reals.MulCommutative`, `Reals.MulAssociative` and `Reals.MulDistributesOverAdd` |
| Reals.FromF64 | flipr/space/src/real.rs:22-24 | `Some` exactly for a finite float, and then exactly its value |
| Reals.Neg | flipr/space/src/real.rs:166-168 | the negation is an additive inverse: `a + (-a) == 0` |
| Reals.Sub | flipr/space/src/real.rs:94-96 | the difference added back to `b` gives `a` |
| Reals.Div | flipr/space/src/real.rs:186-188 | for every non-zero divisor, the quotient times the divisor is the dividend; dividing by zero is excluded, as the source panics |
| Reals.AddZeroIdentity | flipr/space/src/real.rs:258-266 | zero is a left and right additive identity |
| Reals.AddCommutative | flipr/space/src/real.rs:268-271 | addition is commutative |
| Reals.AddAssociative | flipr/space/src/real.rs:273-276 | addition is associative |
| Reals.MulOneIdentity | flipr/space/src/real.rs:278-286 | one is a left and right multiplicative identity |
| Reals.MulZeroAnnihilates | flipr/space/src/real.rs:288-296 | zero annihilates on both sides |
| Reals.MulCommutative | flipr/space/src/real.rs:298-301 | multiplication is commutative |
| Reals.MulAssociative | flipr/space/src/real.rs:303-306 | multiplication is associative |
| Reals.MulDistributesOverAdd | flipr/space/src/real.rs:308-311 | multiplication distributes over addition |
| Reals.NegInvolutive | flipr/space/src/real.rs:323-326 | `-(-a) == a` |
| Reals.SubIsAddNeg | flipr/space/src/real.rs:318-321 | `a - b == a + (-b)` |
| Reals.NegUnique | flipr/space/src/real.rs:313-316 | an additive inverse is unique, and it is the negation |
| Scales.Zero | flipr/space/src/scale.rs:17-19 | the additive identity and the annihilator, by `Scales.AddZeroIdentity` and `Scales.MulZeroAnnihilates` |
| Scales.One | flipr/space/src/scale.rs:13-15 | the multiplicative identity, by `Scales.MulOneIdentity` |
| Scales.Add | flipr/space/src/scale.rs:65-67 | a commutative group with `Scales.Neg`, by `Scales.AddAssociative`, `Scales.AddCommutative` and `Scales.AddZeroIdentity` |
| Scales.Mul | flipr/space/src/scale.rs:29-31 | commutative, associative and distributive over `Scales.Add`, by `Scales.MulAssociative`, `Scales.MulCommutative` and `Scales.MulDistributesOverAdd` |
| Scales.Neg | flipr/space/src/scale.rs:101-103 | `m + (-m) == Scale::zero()` |
| Scales.AddAssociative | flipr/space/src/scale.rs:145-148 | scale addition is associative |
| Scales.AddCommutative | flipr/space/src/scale.rs:150-153 | scale addition is commutative |
| Scales.AddZeroIdentity | flipr/space/src/scale.rs:155-163 | `Scale::zero` is a left and right additive identity |
| Scales.MulAssociative | flipr/space/src/scale.rs:170-173 | scale multiplication is associative |
| Scales.MulCommutative | flipr/space/src/scale.rs:175-178 | scale multiplication is commutative |
| Scales.MulZeroAnnihilates | flipr/space/src/scale.rs:180-188 | `Scale::zero` annihilates on both sides |
| Scales.MulOneIdentity | flipr/space/src/scale.rs:190-198 | `Scale::one` is a left and right identity |
| Scales.MulDistributesOverAdd | flipr/space/src/scale.rs:200-203 | multiplication distributes over addition |
| Offsets.Zero | flipr/space/src/offset.rs:20-25 | the additive identity, by `Offsets.AddZeroIdentity` |
| Offsets.Add | flipr/space/src/offset.rs:42-47 | a commutative group with `Offsets.Neg`, by `Offsets.AddAssociative`, `Offsets.AddCommutative` and `Offsets.AddZeroIdentity` |
| Offsets.Mul | flipr/space/src/offset.rs:104-109 | a module action of `Scale` on offsets, by `Offsets.MulAssociative`, `Offsets.MulOneIdentity` and the two distributivity lemmas |
| Offsets.New | flipr/space/src/offset.rs:27-32 | `None` when either coordinate is not finite; otherwise `Some` with exactly those values |
| Offsets.Neg | flipr/space/src/offset.rs:81-86 | `a + (-a) == Offset::zero()` |
| Offsets.AddAssociative | flipr/space/src/offset.rs:167-170 | offset addition is associative |
| Offsets.AddCommutative | flipr/space/src/offset.rs:172-175 | offset addition is commutative |
| Offsets.AddZeroIdentity | flipr/space/src/offset.rs:177-185 | `Offset::zero` is a left and right identity |
| Offsets.MulAssociative | flipr/space/src/offset.rs:192-195 | `(a * m) * n == a * (m * n)` |
| Offsets.MulOneIdentity | flipr/space/src/offset.rs:197-200 | `a * Scale::one() == a` |
| Offsets.MulDistributesOverOffsetAdd | flipr/space/src/offset.rs:202-205 | `(a + b) * m == a * m + b * m` |
| Offsets.MulDistributesOverScaleAdd | flipr/space/src/offset.rs:207-210 | `a * (m + n) == a * m + a * n` |
| Places.Origin | flipr/space/src/place.rs:27-32 | the point with zero coordinates, from which every place is its own offset, by `Places.OriginCoordinates` |
| Places.Add | flipr/space/src/place.rs:46-51 | a free action of offsets on places, undone by `Places.Sub`, by `Places.AddZeroIdentity`, `Places.AddAssociative`, `Places.AddSubCancel` and `Places.OffsetUnique` |
| Places.New | flipr/space/src/place.rs:20-25 | `None` when either coordinate is not finite; otherwise `Some` with exactly those values |
| Places.Sub | flipr/space/src/place.rs:85-90 | the component-wise difference, as an `Offset` that carries `q` back to `p` |
| Places.OffsetTo | flipr/space/src/place.rs:34-36 | `p.offset_to(q) == q - p`, the offset that carries `p` to `q` |
| Places.OriginCoordinates | flipr/space/src/place.rs:27-32 | the origin has both coordinates zero, and a place is its offset from the origin |
| Places.AddZeroIdentity | flipr/space/src/place.rs:148-151 | `p + Offset::zero() == p` |
| Places.AddAssociative | flipr/space/src/place.rs:153-156 | `(p + a) + b == p + (a + b)` |
| Places.AddSubCancel | flipr/space/src/place.rs:158-161 | `p + (q - p) == q` |
| Places.OffsetUnique | flipr/space/src/place.rs:46-51 | the one offset that carries `p` to `q` is `q - p` |
| Affine.Identity | flipr-transform/src/lib.rs:28-37 | fixes every point and is a unit of `then`, by `Affine.IdentityPoint` and `Affine.ThenIdentity` |
| Affine.Translation | flipr-transform/src/lib.rs:40-49 | shifts every point by `(dx, dy)` and is undone by the opposite shift, by `Affine.TranslationPoint` and `Affine.InverseTranslation` |
| Affine.Scale | flipr-transform/src/lib.rs:52-61 | multiplies each coordinate by its factor, by `Affine.ScalePoint` |
| Affine.TransformPoint | flipr-transform/src/lib.rs:78-82 | the affine map; composition and inversion act on it as `Affine.ThenPoint` and `Affine.InverseRoundTrip` state |
| Affine.Then | flipr-transform/src/lib.rs:103-112 | composition that applies `t` first, associative with the identity as unit and not commutative, by `Affine.ThenPoint`, `Affine.ThenAssociative`, `Affine.ThenIdentity` and `Affine.ThenNotCommutative` |
| Affine.Determinant | flipr-transform/src/lib.rs:86 | decides invertibility: `Affine.Inverse` is absent exactly when its magnitude is below `1e-10` |
| Affine.InverseWith | flipr-transform/src/lib.rs:90-99 | the closed-form inverse, for `k` with `k * det == 1`, cancels the transform when composed on either side |
| Affine.Inverse | flipr-transform/src/lib.rs:85-100 | `None` exactly when the absolute determinant is below `1e-10`; otherwise a two-sided inverse under `then` |
| Affine.Round | flipr-transform/src/lib.rs:141-142 | the nearest integer, with halves rounded away from zero |
| Affine.RoundInteger | flipr-transform/src/lib.rs:141-142 | rounding an integer gives that integer |
| Affine.IdentityPoint | flipr-transform/src/lib.rs:190-196 | `identity()` leaves every point where it is |
| Affine.TranslationPoint | flipr-transform/src/lib.rs:198-204 | `translation(dx, dy)` maps `(x, y)` to `(x + dx, y + dy)` |
| Affine.ScalePoint | flipr-transform/src/lib.rs:206-212 | `scale(sx, sy)` maps `(x, y)` to `(sx * x, sy * y)` |
| Affine.ThenPoint | flipr-transform/src/lib.rs:103-112 | `t1.then(t2)` applies `t1` and then `t2` to every point |
| Affine.ThenIdentity | flipr-transform/src/lib.rs:28-37 | `identity()` is a left and right unit of `then` |
| Affine.ThenAssociative | flipr-transform/src/lib.rs:103-112 | `then` is associative |
| Affine.ThenNotCommutative | flipr-transform/src/lib.rs:103-112 | `then` is not commutative: a shift followed by a scaling differs from the reverse |
| Affine.InverseRoundTrip | flipr-transform/src/lib.rs:214-222 | the inverse undoes the transform on every point, in both orders |
| Affine.InverseIdentity | flipr-transform/src/lib.rs:85-100 | the identity is its own inverse |
| Affine.InverseTranslation | flipr-transform/src/lib.rs:85-100 | the inverse of `translation(dx, dy)` is `translation(-dx, -dy)` |
| Affine.TranslationInverseExample | flipr-transform/src/lib.rs:214-222 | `test_inverse`: (10, 20) shifted by (5, 10) is (15, 30), and the inverse brings it back |
| Affine.CompositionExample | flipr-transform/src/lib.rs:224-236 | `test_composition`: the composed matrix and the two steps both send (10, 20) to (30, 60) |
| Processors.Dimensions | flipr-core/src/lib.rs:76-140 | the `dimensions()` of each node, by `Processors.MapDimensions`, `Processors.FilterDimensions`, `Processors.ChainDimensions` and `Processors.TransformedDimensions` |
| Processors.Lookup | flipr-core/src/lib.rs:72-134 | the `process_pixel` of each node, by `Processors.MapLookup`, `Processors.FilterLookup`, `Processors.ChainLookup` and `Processors.TransformedLookup`, and over whole pipelines by `Processors.AbsentRightOfWidth`, `Processors.NoUnderflowInBounds` and `Processors.ErrorsComeFromLeaves` |
| Processors.Nearest | flipr-transform/src/lib.rs:141-148 | the pixel `f64::round` picks on each axis: the one integer in `(q - 0.5, q + 0.5]`, so a half rounds up; present exactly when both coordinates exceed -0.5 |
| Processors.NearestWhole | flipr-transform/src/lib.rs:141-148 | a point with whole coordinates is its own nearest pixel |
| Processors.SourcePixel | flipr-transform/src/lib.rs:137-150 | nothing for a singular transform; otherwise the nearest pixel to the query mapped through the inverse |
| Processors.MapLookup | flipr-core/src/lib.rs:72-74 | `Map` applies `f` to a present pixel; absence, errors and the panic pass through unchanged |
| Processors.MapDimensions | flipr-core/src/lib.rs:76-78 | `Map` keeps the wrapped dimensions |
| Processors.FilterLookup | flipr-core/src/lib.rs:95-105 | `Filter` keeps a pixel exactly when the predicate holds of it; a rejected pixel becomes absence; everything else passes through unchanged |
| Processors.FilterDimensions | flipr-core/src/lib.rs:107-109 | `Filter` keeps the wrapped dimensions |
| Processors.ChainDimensions | flipr-core/src/lib.rs:136-140 | widths add, and the height is the larger of the two |
| Processors.ChainLookup | flipr-core/src/lib.rs:126-134 | `first` answers exactly inside its own rectangle; right of it `second` answers at `x - w1`; below it, left of `w1`, the subtraction underflows |
| Processors.TransformedDimensions | flipr-transform/src/lib.rs:154-158 | `Transformed` keeps the wrapped dimensions |
| Processors.TransformedLookup | flipr-transform/src/lib.rs:135-152 | `Transformed` answers absence when there is no source pixel, and otherwise exactly what the source answers at that pixel |
| Processors.AbsentRightOfWidth | flipr-core/src/lib.rs:23-26 | for bounded leaves and no transforms, every pipeline answers absence right of its declared width |
| Processors.AbsentOrUnderflowBelowHeight | flipr-core/src/lib.rs:126-140 | below the declared height, such a pipeline answers absence or hits the `Chain` underflow |
| Processors.NoUnderflowInBounds | flipr-core/src/lib.rs:126-140 | a query inside the rectangle never underflows when every chain joins parts of equal height |
| Processors.ErrorsComeFromLeaves | flipr-core/src/lib.rs:72-134 | combinators create no errors: every error answered comes from some leaf |
| Processors.MapIdentity | flipr-core/src/lib.rs:72-74 | mapping the identity function changes no answer |
| Processors.MapFusion | flipr-core/src/lib.rs:72-74 | two maps in a row answer as one map of the composed function |
| Processors.FilterFusion | flipr-core/src/lib.rs:95-105 | two filters in a row answer as one filter of the conjoined predicates |
| Processors.TransformedIdentity | flipr-transform/src/lib.rs:135-152 | resampling through the identity answers exactly as the source |
| Processors.SourcePixelOfImage | flipr-transform/src/lib.rs:137-148 | a pixel that an invertible transform carries exactly onto `(x, y)` is the pixel `(x, y)` reads |
| Processors.SourcePixelIdentity | flipr-transform/src/lib.rs:137-148 | under the identity, every pixel reads the source pixel at the same place |
| Processors.TransformedTranslation | flipr-transform/src/lib.rs:135-152 | a whole-pixel translation moves the image: the answer at `(x, y)` is the source's at `(x - dx, y - dy)`, and absence where that is negative |
| Ops.Execute | flipr-ops/src/lib.rs:56-95 | dispatches to the CPU or GPU backend, whose results `Ops.CpuExecute` and `Ops.GpuExecute` state |
| Ops.Index | flipr-ops/src/lib.rs:139 | row-major indexing, a bijection between the pixels of the rectangle and the indices below `width * height`, by `Ops.IndexInBounds`, `Ops.IndexInjective` and `Ops.IndexOfPosition` |
| Ops.Dimensions | flipr-ops/src/lib.rs:150-152 | the declared `(width, height)`, as `Ops.AsNodeLeaf` states for the pipeline leaf |
| Ops.AsNode | flipr-ops/src/lib.rs:122-153 | the `ImageProcessor` impl as a pipeline leaf, by `Ops.AsNodeLeaf` |
| Ops.BuildPointwise | flipr-ops/src/lib.rs:169-171 | the `Pointwise` variant with `op` unchanged, by `Ops.BuildersExecute` |
| Ops.BuildConvolve | flipr-ops/src/lib.rs:174-176 | the `Convolve` variant with `kernel` unchanged, by `Ops.BuildersExecute` |
| Ops.BuildCustom | flipr-ops/src/lib.rs:179-181 | the `Custom` variant with `name` and `data` unchanged, by `Ops.BuildersExecute` |
| Ops.CpuExecute | flipr-ops/src/lib.rs:56-68 | the CPU backend never fails; a custom operation yields its own data, and pointwise and convolution yield no pixels |
| Ops.GpuExecute | flipr-ops/src/lib.rs:86-95 | the GPU backend answers `NotSupported` for every operation |
| Ops.ProcessPixel | flipr-ops/src/lib.rs:130-148 | absence outside the rectangle; an error only from the GPU, and then `NotSupported`; a present pixel only from CPU custom data, at the row-major index; and, for CPU custom data, every in-rectangle pixel whose index is below the data length is that element |
| Ops.IndexInBounds | flipr-ops/src/lib.rs:139 | the row-major index of a pixel inside the rectangle is below `width * height` |
| Ops.IndexInjective | flipr-ops/src/lib.rs:139 | distinct pixels within the width have distinct row-major indices |
| Ops.RowsApart | flipr-ops/src/lib.rs:139 | every pixel of a row comes before the first pixel of any later row |
| Ops.IndexOfPosition | flipr-ops/src/lib.rs:139 | every index below `width * height` is the row-major index of exactly the pixel `(i % width, i / width)` inside the rectangle |
| Ops.CpuCustomPixel | flipr-ops/src/lib.rs:137-145 | a CPU custom operation answers every pixel inside the rectangle whose row-major index is below the data length with the element at that index |
| Ops.CpuCustomRoundTrip | flipr-ops/src/lib.rs:130-148 | reading a CPU custom processor back pixel by pixel, row by row, recovers every data element whose index lies inside the rectangle |
| Ops.CpuPlaceholderAbsent | flipr-ops/src/lib.rs:58-65 | CPU pointwise and convolution processors answer absence everywhere |
| Ops.GpuNotSupported | flipr-ops/src/lib.rs:86-95 | on the GPU, every pixel inside the rectangle answers `NotSupported` |
| Ops.AsNodeLeaf | flipr-ops/src/lib.rs:150-152 | as a pipeline leaf, the backend processor has dimensions `(width, height)`, answers as `process_pixel` and is bounded |
| Ops.BuildersExecute | flipr-ops/src/lib.rs:169-181 | each builder yields the named variant with its arguments unchanged, and the backends execute it as that variant |
| Scenarios.ToByte | flipr-core/src/lib.rs:180 | `as u8`, the low eight bits; the gradient never needs the truncation, by `Scenarios.GradientNoTruncation` |
| Scenarios.TestPixel | flipr-core/src/lib.rs:178-184 | `x + y` as a byte inside the rectangle and absence outside, by `Scenarios.TestLeafLookup` |
| Scenarios.TestLeaf | flipr-core/src/lib.rs:174-189 | `TestProcessor` as a bounded pipeline leaf of its own dimensions, by `Scenarios.TestLeafLookup` |
| Scenarios.GradientPixel | flipr-examples/src/basic_usage.rs:16-23 | the gradient value inside the rectangle and absence outside, by `Scenarios.GradientNoTruncation` and `Scenarios.GradientSample` |
| Scenarios.Double | flipr-core/src/lib.rs:201 | the test's doubling map, by `Scenarios.MapScenario` and `Scenarios.MapFilterScenario` |
| Scenarios.DoubleSaturating | flipr-examples/src/basic_usage.rs:48 | the example's saturating doubling, by `Scenarios.PipelineScenario` |
| Scenarios.TestLeafLookup | flipr-core/src/lib.rs:178-189 | the test leaf is bounded and answers `x + y` as a byte inside its rectangle |
| Scenarios.BasicScenario | flipr-core/src/lib.rs:191-196 | `test_basic_processor`: the value at (5, 5) is 10 |
| Scenarios.MapScenario | flipr-core/src/lib.rs:198-204 | `test_map`: after doubling, the value at (5, 5) is 20 |
| Scenarios.FilterScenario | flipr-core/src/lib.rs:206-214 | `test_filter`: `v < 10` rejects (5, 5) and keeps 4 at (2, 2) |
| Scenarios.MapFilterScenario | flipr-core/src/lib.rs:198-214 | filtering the doubled leaf by `v < 10` rejects (5, 5) and keeps 8 at (2, 2) |
| Scenarios.ChainGapScenario | flipr-core/src/lib.rs:126-140 | a 10x5 leaf chained with a 10x10 leaf is 20x10, underflows at (3, 7) and answers 10 at (13, 7) |
| Scenarios.TransformedOutsideDimensions | flipr-transform/src/lib.rs:135-158 | a 10x10 leaf shifted right by 10 keeps its 10x10 dimensions but answers a pixel at (15, 0) |
| Scenarios.GradientNoTruncation | flipr-examples/src/basic_usage.rs:16-23 | the gradient stays below 255 inside its rectangle, so the `as u8` cast never truncates |
| Scenarios.ChainScenario | flipr-examples/src/basic_usage.rs:98-111 | two chained 50x50 gradients are 100x50; (25, 25) and (75, 25) answer as the gradient's (25, 25), which is 127 |
| Scenarios.PipelineScenario | flipr-examples/src/basic_usage.rs:46-52 | the example's saturating double and `v < 200` filter reject the centre pixel 127 |
| Scenarios.ShiftThenScale | flipr-examples/src/basic_usage.rs:63-64 | shifting by `(d, d)` and then scaling by `s` is the matrix `s * p + s * d` |
| Scenarios.ExampleSourcePixel | flipr-examples/src/basic_usage.rs:63-78 | under the example's composed matrix, the output pixel (50, 50) reads the source pixel (90, 90) |
| Scenarios.GradientSample | flipr-examples/src/basic_usage.rs:16-23 | the 100x100 gradient is 229 at (90, 90) |
| Scenarios.BackendScenarios | flipr-ops/src/lib.rs:195-225 | the three backend tests: CPU custom data comes back, GPU pointwise fails, and the pointwise builder builds `Brighten` |
| Scenarios.BackendPixelScenario | flipr-ops/src/lib.rs:130-148 | a 1x1 CPU custom processor over `[42]` answers 42 at (0, 0) and absence at (1, 0) |

## Left out

- `Real::sin`, `Real::cos`, `Real::to_f64` and `AffineTransform::rotation`: they round-trip through `f64` transcendental functions and bit conversion.
- `f64` behaviour of `AffineTransform` and `Transformed`: rounding error, NaN, overflow, and the saturating `as isize` / `as usize` casts. The coefficients are exact reals.
- The `Display` impls and `BackendError` formatting: string rendering only.
- flipr-macros: procedural macros that generate code at compile time.
- The `println!` output of the example program, and its gradient-sampling loop. Its leaf and pipelines are modelled in `Scenarios`.
- The `Pixel` marker trait and the `Send`/`Sync` bounds: pixels are an opaque type parameter.
- `Map` with a function that changes the pixel type: `Processors.Node` has one pixel type, so `f` maps `P` to `P`.
- Open backends: the `Backend` trait is modelled by its two implementations, `Ops.Cpu` and `Ops.Gpu`.
- Release builds, where the `Chain` subtraction `x - w1` wraps around instead of panicking.
- `usize` overflow of `w1 + w2` and of `y * width + x`: both are unbounded `nat`.
- Scenarios.Double: the test's `p.value * 2` on `u8` panics on overflow in a test build; the model wraps around modulo 256 instead. The test's values never reach the overflow.
- Scenarios.ExampleSourcePixel: the example's transformed pixel is stated in two halves. `Scenarios.ExampleSourcePixel` gives the source pixel and `Scenarios.GradientSample` the value there; `Processors.TransformedLookup` joins them. The solver cannot evaluate the whole pipeline with these constants within the resource limit.
