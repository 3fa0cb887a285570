/** The object model the two tools work on: DICOM tags and values, a dataset
    (its elements, its file meta information and the two encoding flags
    pydicom keeps beside them), the mutable dataset object the loops edit in
    place, and the decoded pixel array. */
module Dicom {

  import opened Wrappers

  type Byte = x: int | 0 <= x < 256
  type Uint16 = x: int | 0 <= x < 0x1_0000

  /** A unique identifier, such as a SOP Class UID or a transfer syntax. */
  type Uid = string

  /** A data element tag (group, element). */
  datatype Tag = Tag(group: Uint16, element: Uint16)

  // Attributes of the main dataset that the tools read or write (keywords as
  // in the DICOM data dictionary, PS3.6 section 6).
  const SOPClassUID := Tag(0x0008, 0x0016)
  const SOPInstanceUID := Tag(0x0008, 0x0018)
  const Modality := Tag(0x0008, 0x0060)
  const SliceThickness := Tag(0x0018, 0x0050)
  const ScanningSequence := Tag(0x0018, 0x0020)
  const SequenceVariant := Tag(0x0018, 0x0021)
  const InstanceNumber := Tag(0x0020, 0x0013)
  const ImagePositionPatient := Tag(0x0020, 0x0032)
  const ImageOrientationPatient := Tag(0x0020, 0x0037)
  const PlanePositionSequence := Tag(0x0020, 0x9113)
  const PlaneOrientationSequence := Tag(0x0020, 0x9116)
  const NumberOfFrames := Tag(0x0028, 0x0008)
  const Rows := Tag(0x0028, 0x0010)
  const Columns := Tag(0x0028, 0x0011)
  const PixelSpacing := Tag(0x0028, 0x0030)
  const PixelMeasuresSequence := Tag(0x0028, 0x9110)
  const SharedFunctionalGroupsSequence := Tag(0x5200, 0x9229)
  const PerFrameFunctionalGroupsSequence := Tag(0x5200, 0x9230)
  const PixelData := Tag(0x7FE0, 0x0010)

  // Attributes of the file meta information (group 0002).
  const MediaStorageSOPClassUID := Tag(0x0002, 0x0002)
  const MediaStorageSOPInstanceUID := Tag(0x0002, 0x0003)
  const TransferSyntaxUID := Tag(0x0002, 0x0010)

  /** The value of a data element: a string (CS, UI, ...), an integer (US,
      IS), a list of decimals (DS), raw bytes (OB/OW) or a sequence of item
      datasets (SQ). */
  datatype Value =
    | Text(text: string)
    | Number(number: int)
    | Decimals(decimals: seq<real>)
    | Bytes(bytes: seq<Byte>)
    | Items(items: seq<map<Tag, Value>>)

  type Elements = map<Tag, Value>

  /** `ds.get(tag)` with `None` as the default. */
  function Get(e: Elements, t: Tag): Option<Value>
  {
    if t in e then Some(e[t]) else None
  }

  /** The observable content of a pydicom dataset: what `save_as` writes. */
  datatype DatasetState = DatasetState(
    elements: Elements,
    fileMeta: Elements,
    isImplicitVR: bool,
    isLittleEndian: bool)

  /** A dataset object whose attributes are assigned and deleted in place. */
  class Dataset {
    var elements: Elements
    var fileMeta: Elements
    var isImplicitVR: bool
    var isLittleEndian: bool

    /** The dataset produced by reading a file whose content is `s`. */
    constructor (s: DatasetState)
      ensures State() == s
    {
      elements := s.elements;
      fileMeta := s.fileMeta;
      isImplicitVR := s.isImplicitVR;
      isLittleEndian := s.isLittleEndian;
    }

    function State(): DatasetState
      reads this
    {
      DatasetState(elements, fileMeta, isImplicitVR, isLittleEndian)
    }

    /** `ds.copy()`, taken as an independent copy: editing the copy leaves
        this object as it was. */
    method Copy() returns (c: Dataset)
      ensures fresh(c) && c.State() == State()
    {
      c := new Dataset(State());
    }
  }

  /** Multiplication kept out of the solver's nonlinear arithmetic: sizes
      and offsets are products, and every pixel array carries one. */
  function Mul(a: nat, b: nat): nat
  {
    if a == 0 then 0 else b + Mul(a - 1, b)
  }

  lemma {:induction false} MulIsTimes(a: nat, b: nat)
    ensures Mul(a, b) == a * b
  {
    if a > 0 {
      MulIsTimes(a - 1, b);
    }
  }

  function Product(dims: seq<nat>): nat
  {
    if dims == [] then 1 else Mul(dims[0], Product(dims[1..]))
  }

  /** What `ds.pixel_array` returns, as far as the tools use it: its shape,
      the size of one sample, and its bytes in C (row-major) order, which is
      what `tobytes()` yields. */
  datatype NdArray = NdArray(shape: seq<nat>, itemSize: nat, data: seq<Byte>)

  /** A C-contiguous array holds exactly one item per index tuple. */
  type PixelArray = a: NdArray | a.itemSize > 0 && |a.data| == Mul(Product(a.shape), a.itemSize)
    witness NdArray([0], 1, [])

  /** Number of bytes in one frame `a[i]` of a 3-dimensional array. */
  function FrameSize(pixels: PixelArray): nat
    requires |pixels.shape| == 3
  {
    Mul(Product(pixels.shape[1..]), pixels.itemSize)
  }

  lemma VolumeSize(pixels: PixelArray)
    requires |pixels.shape| == 3
    ensures |pixels.data| == Mul(pixels.shape[0], FrameSize(pixels))
  {
    var n, p, s := pixels.shape[0], Product(pixels.shape[1..]), pixels.itemSize;
    MulIsTimes(n, p);
    MulIsTimes(n * p, s);
    MulIsTimes(p, s);
    MulIsTimes(n, p * s);
    assert (n * p) * s == n * (p * s);
  }

  lemma FrameWithinVolume(pixels: PixelArray, i: nat)
    requires |pixels.shape| == 3 && i < pixels.shape[0]
    ensures Mul(i + 1, FrameSize(pixels)) <= |pixels.data|
  {
    VolumeSize(pixels);
    var f := FrameSize(pixels);
    MulIsTimes(i + 1, f);
    MulIsTimes(pixels.shape[0], f);
    MultiplyMonotone(i + 1, pixels.shape[0], f);
  }

  lemma MultiplyMonotone(a: nat, b: nat, c: nat)
    requires a <= b
    ensures a * c <= b * c
  {
  }

  /** `pixel_array[i].tobytes()`: the bytes of frame `i`. */
  function FrameBytes(pixels: PixelArray, i: nat): (b: seq<Byte>)
    requires |pixels.shape| == 3 && i < pixels.shape[0]
    ensures |b| == FrameSize(pixels)
  {
    FrameWithinVolume(pixels, i);
    pixels.data[Mul(i, FrameSize(pixels))..Mul(i + 1, FrameSize(pixels))]
  }
}
