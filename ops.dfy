/**
 * Operation descriptions and execution backends (flipr-ops/src/lib.rs).
 *
 * The open `Backend` trait is modelled by its two implementations, the CPU
 * backend and the placeholder GPU backend, as cases of one datatype.
 */
module Ops {
  import opened Wrappers
  import R = Reals
  import Processors

  datatype BackendError = NotSupported | ExecutionFailed(message: string)

  datatype PointwiseOp = Identity | Negate | Brighten(amount: R.F64) | Contrast(factor: R.F64)

  datatype Operation<Px> =
    | Pointwise(op: PointwiseOp)
    | Convolve(kernel: seq<seq<R.F64>>)
    | Custom(name: string, data: seq<Px>)

  datatype Backend = Cpu | Gpu(deviceId: nat)

  /**
   * The CPU backend never fails: a custom operation yields its own pixel data,
   * the pointwise and convolution operations yield no pixels at all.
   */
  function CpuExecute<Px>(operation: Operation<Px>): (r: Result<seq<Px>, BackendError>)
    ensures r.Ok?
    ensures operation.Custom? ==> r.value == operation.data
    ensures !operation.Custom? ==> |r.value| == 0
  {
    match operation
    case Pointwise(_) => Ok([])
    case Convolve(_) => Ok([])
    case Custom(_, data) => Ok(data)
  }

  /** The GPU backend supports no operation, on any device. */
  function GpuExecute<Px>(deviceId: nat, operation: Operation<Px>): (r: Result<seq<Px>, BackendError>)
    ensures r == Err(NotSupported)
  {
    match operation
    case Pointwise(_) => Err(NotSupported)
    case Convolve(_) => Err(NotSupported)
    case Custom(_, _) => Err(NotSupported)
  }

  function Execute<Px>(backend: Backend, operation: Operation<Px>): Result<seq<Px>, BackendError>
  {
    match backend
    case Cpu => CpuExecute(operation)
    case Gpu(deviceId) => GpuExecute(deviceId, operation)
  }

  /** A processor that answers each pixel from the pixels its backend computes for the operation. */
  datatype BackendProcessor<Px> = BackendProcessor(operation: Operation<Px>, backend: Backend, width: nat, height: nat)

  /** The row-major position of pixel (x, y) in an image `width` pixels wide. */
  function Index(width: nat, x: nat, y: nat): nat
  {
    y * width + x
  }

  /**
   * `process_pixel`: absence outside the rectangle; inside it, the backend's
   * error, or the computed pixel at the row-major index, or absence when the
   * backend computed fewer pixels than that.
   */
  function ProcessPixel<Px>(p: BackendProcessor<Px>, x: nat, y: nat): (r: Result<Option<Px>, BackendError>)
    ensures x >= p.width || y >= p.height ==> r == Ok(None)
    ensures r.Err? ==> p.backend.Gpu? && r.error == NotSupported
    ensures r.Ok? && r.value.Some? ==>
              p.operation.Custom? && p.backend.Cpu? && Index(p.width, x, y) < |p.operation.data|
              && r.value.value == p.operation.data[Index(p.width, x, y)]
    ensures x < p.width && y < p.height && p.backend.Cpu? && p.operation.Custom?
              && Index(p.width, x, y) < |p.operation.data| ==>
              r == Ok(Some(p.operation.data[Index(p.width, x, y)]))
  {
    if x >= p.width || y >= p.height then Ok(None)
    else
      match Execute(p.backend, p.operation)
      case Ok(pixels) =>
        var idx := Index(p.width, x, y);
        if idx < |pixels| then Ok(Some(pixels[idx])) else Ok(None)
      case Err(e) => Err(e)
  }

  function Dimensions<Px>(p: BackendProcessor<Px>): (nat, nat)
  {
    (p.width, p.height)
  }

  /** The backend processor as a leaf of a processor pipeline. */
  function AsNode<Px>(p: BackendProcessor<Px>): Processors.Node<Px, BackendError>
  {
    Processors.Leaf(p.width, p.height, (x: nat, y: nat) => ProcessPixel(p, x, y))
  }

  /** `OperationBuilder::pointwise`. */
  function BuildPointwise<Px>(op: PointwiseOp): Operation<Px>
  {
    Pointwise(op)
  }

  /** `OperationBuilder::convolve`. */
  function BuildConvolve<Px>(kernel: seq<seq<R.F64>>): Operation<Px>
  {
    Convolve(kernel)
  }

  /** `OperationBuilder::custom`. */
  function BuildCustom<Px>(name: string, data: seq<Px>): Operation<Px>
  {
    Custom(name, data)
  }

  // ---------------------------------------------------------------------------
  // Row-major indexing
  // ---------------------------------------------------------------------------

  /** Pixels inside the rectangle have indices below `width * height`. */
  lemma IndexInBounds(width: nat, height: nat, x: nat, y: nat)
    requires x < width && y < height
    ensures Index(width, x, y) < width * height
  {
    assert y * width + x < y * width + width == (y + 1) * width;
    assert (y + 1) * width <= height * width;
  }

  /** Distinct pixels inside one row's width have distinct indices. */
  lemma IndexInjective(width: nat, x1: nat, y1: nat, x2: nat, y2: nat)
    requires x1 < width && x2 < width
    requires Index(width, x1, y1) == Index(width, x2, y2)
    ensures x1 == x2 && y1 == y2
  {
    if y1 < y2 {
      RowsApart(width, x1, y1, y2);
    } else if y2 < y1 {
      RowsApart(width, x2, y2, y1);
    }
  }

  /** Every pixel of a row comes before the first pixel of any later row. */
  lemma RowsApart(width: nat, x: nat, y1: nat, y2: nat)
    requires x < width && y1 < y2
    ensures Index(width, x, y1) < Index(width, 0, y2)
  {
    assert y1 * width + x < (y1 + 1) * width;
    assert (y1 + 1) * width <= y2 * width;
  }

  /** Every index below `width * height` is the index of the pixel (i % width, i / width). */
  lemma IndexOfPosition(width: nat, height: nat, i: nat)
    requires i < width * height
    ensures width > 0
    ensures i % width < width && i / width < height
    ensures Index(width, i % width, i / width) == i
  {
    if width == 0 {
      assert false;
    }
    var q, m := i / width, i % width;
    assert i == q * width + m;
    if q >= height {
      assert false;
    }
  }

  // ---------------------------------------------------------------------------
  // What each backend answers
  // ---------------------------------------------------------------------------

  /**
   * A CPU custom operation answers every pixel inside the rectangle whose
   * row-major index falls within its data with the data element at that index.
   */
  lemma CpuCustomPixel<Px>(name: string, data: seq<Px>, width: nat, height: nat, x: nat, y: nat)
    requires Index(width, x, y) < |data|
    requires x < width && y < height
    ensures ProcessPixel(BackendProcessor(Custom(name, data), Cpu, width, height), x, y)
         == Ok(Some(data[Index(width, x, y)]))
  {
  }

  /** Reading a CPU custom operation back pixel by pixel, row by row, recovers its data. */
  lemma CpuCustomRoundTrip<Px>(name: string, data: seq<Px>, width: nat, height: nat, i: nat)
    requires i < |data| && i < width * height
    ensures ProcessPixel(BackendProcessor(Custom(name, data), Cpu, width, height), i % width, i / width)
         == Ok(Some(data[i]))
  {
    IndexOfPosition(width, height, i);
    CpuCustomPixel(name, data, width, height, i % width, i / width);
  }

  /** Pointwise and convolution operations on the CPU answer absence everywhere. */
  lemma CpuPlaceholderAbsent<Px>(operation: Operation<Px>, width: nat, height: nat, x: nat, y: nat)
    requires !operation.Custom?
    ensures ProcessPixel(BackendProcessor(operation, Cpu, width, height), x, y) == Ok(None)
  {
  }

  /** On the GPU every pixel inside the rectangle answers `NotSupported`. */
  lemma GpuNotSupported<Px>(operation: Operation<Px>, deviceId: nat, width: nat, height: nat, x: nat, y: nat)
    requires x < width && y < height
    ensures ProcessPixel(BackendProcessor(operation, Gpu(deviceId), width, height), x, y) == Err(NotSupported)
  {
  }

  /**
   * As a pipeline leaf the backend processor keeps its dimensions, answers as
   * `ProcessPixel`, and answers absence outside its rectangle.
   */
  lemma AsNodeLeaf<Px>(p: BackendProcessor<Px>, x: nat, y: nat)
    ensures Processors.Dimensions(AsNode(p)) == Dimensions(p) == (p.width, p.height)
    ensures Processors.Lookup(AsNode(p), x, y) == Processors.Returned(ProcessPixel(p, x, y))
    ensures Processors.LeavesBounded(AsNode(p))
  {
  }

  /** Each builder yields the operation it names, which the backends then execute as such. */
  lemma BuildersExecute<Px>(op: PointwiseOp, kernel: seq<seq<R.F64>>, name: string, data: seq<Px>, deviceId: nat)
    ensures BuildPointwise<Px>(op).Pointwise? && BuildPointwise<Px>(op).op == op
    ensures BuildConvolve<Px>(kernel).Convolve? && BuildConvolve<Px>(kernel).kernel == kernel
    ensures BuildCustom(name, data).Custom? && BuildCustom(name, data).name == name
    ensures Execute(Cpu, BuildCustom(name, data)) == Ok(data)
    ensures Execute(Cpu, BuildPointwise<Px>(op)) == Ok([])
    ensures Execute(Cpu, BuildConvolve<Px>(kernel)) == Ok([])
    ensures Execute(Gpu(deviceId), BuildCustom(name, data)) == Err(NotSupported)
    ensures Execute(Gpu(deviceId), BuildPointwise<Px>(op)) == Err(NotSupported)
    ensures Execute(Gpu(deviceId), BuildConvolve<Px>(kernel)) == Err(NotSupported)
  {
  }
}
