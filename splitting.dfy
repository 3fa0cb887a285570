/** The 3D splitting tool: one multi-frame image becomes one single-frame
    image per frame, each carrying the geometry that the Per-frame Functional
    Groups Sequence (DICOM PS3.3 section C.7.6.16) records for its frame. */
module Splitting {

  import opened Wrappers
  import opened Dicom
  import opened Uids
  import opened FileNames

  /** Why no slice is written. The last two stand for the exceptions the
      per-frame lookups raise; the source lets them escape, so the slices
      already written to the temporary directory are never delivered. */
  datatype SplitError =
    | NotVolumetric(ndim: nat)
    | UnsupportedModality(modality: Value)
    | MissingPerFrameSequence
    | MissingPerFrameEntry(frame: nat)
    | MissingGeometry(frame: nat, sequence: Tag, attribute: Tag)

  /** One saved slice: its file name and the dataset written under it. */
  datatype SliceFile = SliceFile(name: string, dataset: DatasetState)

  /** The four attributes copied from a frame's functional groups. */
  datatype Geometry = Geometry(spacing: Value, thickness: Value, position: Value, orientation: Value)

  /** The tags deleted from every slice, in the order the source deletes them. */
  const MultiFrameTags: seq<Tag> := [NumberOfFrames, PerFrameFunctionalGroupsSequence, SharedFunctionalGroupsSequence]

  /** `ds.get("Modality", "Unknown")`. */
  function ModalityOf(e: Elements): Value
  {
    if Modality in e then e[Modality] else Text("Unknown")
  }

  /** `per_frame_seq[i]`. */
  function PerFrameEntry(perFrame: Value, i: nat): Result<Elements, SplitError>
  {
    if perFrame.Items? && i < |perFrame.items| then Success(perFrame.items[i])
    else Failure(MissingPerFrameEntry(i))
  }

  /** `entry.<sequence>[0].<attribute>` for frame `i`. */
  function NestedAttribute(entry: Elements, sequence: Tag, attribute: Tag, i: nat): Result<Value, SplitError>
  {
    if sequence in entry && entry[sequence].Items? && |entry[sequence].items| > 0
       && attribute in entry[sequence].items[0]
    then Success(entry[sequence].items[0][attribute])
    else Failure(MissingGeometry(i, sequence, attribute))
  }

  /** The four geometry reads of frame `i`, in the source's order. */
  function FrameGeometry(perFrame: Value, i: nat): Result<Geometry, SplitError>
  {
    var entry :- PerFrameEntry(perFrame, i);
    var spacing :- NestedAttribute(entry, PixelMeasuresSequence, PixelSpacing, i);
    var thickness :- NestedAttribute(entry, PixelMeasuresSequence, SliceThickness, i);
    var position :- NestedAttribute(entry, PlanePositionSequence, ImagePositionPatient, i);
    var orientation :- NestedAttribute(entry, PlaneOrientationSequence, ImageOrientationPatient, i);
    Success(Geometry(spacing, thickness, position, orientation))
  }

  /** Reference reading of the nested value `per_frame_seq[i].<sequence>[0].<attribute>`. */
  function Nested(perFrame: Value, i: nat, sequence: Tag, attribute: Tag): Option<Value>
  {
    if !perFrame.Items? || i >= |perFrame.items| then None
    else
      var entry := perFrame.items[i];
      if sequence !in entry || !entry[sequence].Items? || entry[sequence].items == [] then None
      else Get(entry[sequence].items[0], attribute)
  }

  // The edits applied to the copied elements, one function per block of the
  // loop body.

  function WithFrame(e: Elements, pixels: PixelArray, i: nat): Elements
    requires |pixels.shape| == 3 && i < pixels.shape[0]
  {
    e[PixelData := Bytes(FrameBytes(pixels, i))][Rows := Number(pixels.shape[1])][Columns := Number(pixels.shape[2])]
  }

  function WithGeometry(e: Elements, g: Geometry): Elements
  {
    e[PixelSpacing := g.spacing][SliceThickness := g.thickness]
     [ImagePositionPatient := g.position][ImageOrientationPatient := g.orientation]
  }

  function NormalisedMR(e: Elements, isMR: bool): Elements
  {
    if isMR then e[ScanningSequence := Text("SE")][SequenceVariant := Text("SK")] else e
  }

  function WithoutMultiFrameTags(e: Elements): Elements
  {
    e - {NumberOfFrames, PerFrameFunctionalGroupsSequence, SharedFunctionalGroupsSequence}
  }

  function WithIdentity(e: Elements, writeClass: Uid, uid: Uid, i: nat): Elements
  {
    e[SOPInstanceUID := Text(uid)][SOPClassUID := Text(writeClass)][InstanceNumber := Number(i + 1)]
  }

  function MetaWithIdentity(m: Elements, writeClass: Uid, uid: Uid): Elements
  {
    m[MediaStorageSOPClassUID := Text(writeClass)][MediaStorageSOPInstanceUID := Text(uid)]
  }

  /** The elements of slice `i`: the source's elements after the loop body's edits. */
  function SliceElements(e: Elements, pixels: PixelArray, i: nat, g: Geometry, writeClass: Uid, isMR: bool, uid: Uid): Elements
    requires |pixels.shape| == 3 && i < pixels.shape[0]
  {
    WithIdentity(WithoutMultiFrameTags(NormalisedMR(WithGeometry(WithFrame(e, pixels, i), g), isMR)), writeClass, uid, i)
  }

  function SliceState(src: DatasetState, pixels: PixelArray, i: nat, g: Geometry, writeClass: Uid, isMR: bool, uid: Uid): DatasetState
    requires |pixels.shape| == 3 && i < pixels.shape[0]
  {
    src.(elements := SliceElements(src.elements, pixels, i, g, writeClass, isMR, uid),
         fileMeta := MetaWithIdentity(src.fileMeta, writeClass, uid))
  }

  /** Slice `i`, once its geometry `g` has been read. */
  function SliceFor(src: DatasetState, pixels: PixelArray, i: nat, g: Geometry, writeClass: Uid, isMR: bool, uid: Uid, stem: string): SliceFile
    requires |pixels.shape| == 3 && i < pixels.shape[0]
  {
    SliceFile(SliceFileName(stem, i + 1), SliceState(src, pixels, i, g, writeClass, isMR, uid))
  }

  /** One pass of the loop body: it raises exactly when a geometry read does. */
  function SliceAt(src: DatasetState, pixels: PixelArray, perFrame: Value, i: nat, writeClass: Uid, isMR: bool, uid: Uid, stem: string): Result<SliceFile, SplitError>
    requires |pixels.shape| == 3 && i < pixels.shape[0]
  {
    var g :- FrameGeometry(perFrame, i);
    Success(SliceFor(src, pixels, i, g, writeClass, isMR, uid, stem))
  }

  /** The geometry of frames `0 .. n-1`, or the error of the first frame
      whose geometry cannot be read. */
  function Geometries(perFrame: Value, n: nat): (r: Result<seq<Geometry>, SplitError>)
    ensures r.Success? ==> |r.value| == n
  {
    if n == 0 then Success([])
    else
      var earlier :- Geometries(perFrame, n - 1);
      var g :- FrameGeometry(perFrame, n - 1);
      Success(earlier + [g])
  }

  /** The slices for the first `|gs|` frames, given their geometry. */
  function Slices(src: DatasetState, pixels: PixelArray, gs: seq<Geometry>, writeClass: Uid, isMR: bool, mint: nat -> Uid, stem: string): seq<SliceFile>
    requires |pixels.shape| == 3 && |gs| <= pixels.shape[0]
  {
    seq(|gs|, j requires 0 <= j < |gs| => SliceFor(src, pixels, j, gs[j], writeClass, isMR, mint(j), stem))
  }

  /** The whole tool. `mint(i)` is the UID the `i`-th call of `generate_uid`
      returns. A frame whose geometry cannot be read stops the loop with an
      exception, so either every frame is read and every slice written, or
      the first failing frame is reported. */
  function Split(src: DatasetState, pixels: PixelArray, mint: nat -> Uid, stem: string): Result<seq<SliceFile>, SplitError>
  {
    if |pixels.shape| != 3 then Failure(NotVolumetric(|pixels.shape|))
    else
      var modality := ModalityOf(src.elements);
      match SopClassFor(modality)
      case None => Failure(UnsupportedModality(modality))
      case Some(writeClass) =>
        if PerFrameFunctionalGroupsSequence !in src.elements then Failure(MissingPerFrameSequence)
        else
          var gs :- Geometries(src.elements[PerFrameFunctionalGroupsSequence], pixels.shape[0]);
          Success(Slices(src, pixels, gs, writeClass, modality == Text("MR"), mint, stem))
  }

  lemma {:induction false} GeometriesFailureSticks(perFrame: Value, k: nat, n: nat)
    requires k <= n
    requires Geometries(perFrame, k).Failure?
    ensures Geometries(perFrame, n) == Geometries(perFrame, k)
    decreases n - k
  {
    if k < n {
      GeometriesFailureSticks(perFrame, k, n - 1);
    }
  }

  lemma SlicesSnoc(src: DatasetState, pixels: PixelArray, gs: seq<Geometry>, g: Geometry, writeClass: Uid, isMR: bool, mint: nat -> Uid, stem: string)
    requires |pixels.shape| == 3 && |gs| < pixels.shape[0]
    ensures Slices(src, pixels, gs + [g], writeClass, isMR, mint, stem)
         == Slices(src, pixels, gs, writeClass, isMR, mint, stem) + [SliceFor(src, pixels, |gs|, g, writeClass, isMR, mint(|gs|), stem)]
  {
    var long := Slices(src, pixels, gs + [g], writeClass, isMR, mint, stem);
    var short := Slices(src, pixels, gs, writeClass, isMR, mint, stem);
    forall j | 0 <= j < |gs|
      ensures long[j] == short[j]
    {
      assert (gs + [g])[j] == gs[j];
    }
  }

  // ---------------------------------------------------------------------
  // The tool as the source runs it: copy the dataset, then edit the copy in
  // place, block by block.

  /** `new_ds.PixelData = frame_pixels.tobytes()` and `new_ds.Rows, new_ds.Columns = frame_pixels.shape`. */
  method PlaceFrame(ds: Dataset, pixels: PixelArray, i: nat)
    requires |pixels.shape| == 3 && i < pixels.shape[0]
    modifies ds
    ensures ds.State() == old(ds.State()).(elements := WithFrame(old(ds.elements), pixels, i))
  {
    ds.elements := ds.elements[PixelData := Bytes(FrameBytes(pixels, i))];
    ds.elements := ds.elements[Rows := Number(pixels.shape[1])][Columns := Number(pixels.shape[2])];
  }

  /** The four geometry reads and assignments; a failed read raises. */
  method CopyGeometry(ds: Dataset, perFrame: Value, i: nat) returns (result: Result<Geometry, SplitError>)
    modifies ds
    ensures result == FrameGeometry(perFrame, i)
    ensures result.Success? ==> ds.State() == old(ds.State()).(elements := WithGeometry(old(ds.elements), result.value))
  {
    var entry :- PerFrameEntry(perFrame, i);
    var spacing :- NestedAttribute(entry, PixelMeasuresSequence, PixelSpacing, i);
    ds.elements := ds.elements[PixelSpacing := spacing];
    var thickness :- NestedAttribute(entry, PixelMeasuresSequence, SliceThickness, i);
    ds.elements := ds.elements[SliceThickness := thickness];
    var position :- NestedAttribute(entry, PlanePositionSequence, ImagePositionPatient, i);
    ds.elements := ds.elements[ImagePositionPatient := position];
    var orientation :- NestedAttribute(entry, PlaneOrientationSequence, ImageOrientationPatient, i);
    ds.elements := ds.elements[ImageOrientationPatient := orientation];
    return Success(Geometry(spacing, thickness, position, orientation));
  }

  /** The MR-only assignments of ScanningSequence and SequenceVariant. */
  method NormaliseMR(ds: Dataset, isMR: bool)
    modifies ds
    ensures ds.State() == old(ds.State()).(elements := NormalisedMR(old(ds.elements), isMR))
  {
    if isMR {
      ds.elements := ds.elements[ScanningSequence := Text("SE")];
      ds.elements := ds.elements[SequenceVariant := Text("SK")];
    }
  }

  /** The loop that deletes each multi-frame tag the copy holds. */
  method RemoveMultiFrameTags(ds: Dataset)
    modifies ds
    ensures ds.State() == old(ds.State()).(elements := WithoutMultiFrameTags(old(ds.elements)))
  {
    for k := 0 to |MultiFrameTags|
      invariant ds.State() == old(ds.State()).(elements := old(ds.elements) - (set j | 0 <= j < k :: MultiFrameTags[j]))
    {
      var tag := MultiFrameTags[k];
      if tag in ds.elements {
        ds.elements := ds.elements - {tag};
      }
      assert (set j | 0 <= j < k + 1 :: MultiFrameTags[j]) == (set j | 0 <= j < k :: MultiFrameTags[j]) + {tag};
    }
    assert (set j | 0 <= j < 3 :: MultiFrameTags[j])
        == {NumberOfFrames, PerFrameFunctionalGroupsSequence, SharedFunctionalGroupsSequence} by {
      assert MultiFrameTags[0] == NumberOfFrames;
      assert MultiFrameTags[1] == PerFrameFunctionalGroupsSequence;
      assert MultiFrameTags[2] == SharedFunctionalGroupsSequence;
    }
  }

  /** The new SOP Instance and Class UIDs, in the dataset and in its file meta, then InstanceNumber. */
  method AssignIdentity(ds: Dataset, writeClass: Uid, uid: Uid, i: nat)
    modifies ds
    ensures ds.State() == old(ds.State()).(elements := WithIdentity(old(ds.elements), writeClass, uid, i),
                                           fileMeta := MetaWithIdentity(old(ds.fileMeta), writeClass, uid))
  {
    ds.elements := ds.elements[SOPInstanceUID := Text(uid)];
    ds.elements := ds.elements[SOPClassUID := Text(writeClass)];
    ds.fileMeta := ds.fileMeta[MediaStorageSOPClassUID := Text(writeClass)];
    ds.fileMeta := ds.fileMeta[MediaStorageSOPInstanceUID := ds.elements[SOPInstanceUID]];
    ds.elements := ds.elements[InstanceNumber := Number(i + 1)];
  }

  /** One pass of the loop body: copy, edit, name and save slice `i`. */
  method AssembleSlice(src: Dataset, pixels: PixelArray, perFrame: Value, i: nat, writeClass: Uid, isMR: bool, uid: Uid, stem: string)
    returns (result: Result<SliceFile, SplitError>)
    requires |pixels.shape| == 3 && i < pixels.shape[0]
    ensures result == SliceAt(src.State(), pixels, perFrame, i, writeClass, isMR, uid, stem)
  {
    var newDs := src.Copy();
    PlaceFrame(newDs, pixels, i);
    var g :- CopyGeometry(newDs, perFrame, i);
    NormaliseMR(newDs, isMR);
    RemoveMultiFrameTags(newDs);
    AssignIdentity(newDs, writeClass, uid, i);
    var name := SliceFileName(stem, i + 1);
    return Success(SliceFile(name, newDs.State()));
  }

  /** The split loop over `range(num_frames)`. */
  method SplitVolume(src: Dataset, pixels: PixelArray, mint: nat -> Uid, stem: string)
    returns (result: Result<seq<SliceFile>, SplitError>)
    ensures result == Split(src.State(), pixels, mint, stem)
  {
    if |pixels.shape| != 3 {
      return Failure(NotVolumetric(|pixels.shape|));
    }
    var numFrames := pixels.shape[0];
    var modality := ModalityOf(src.elements);
    var writeClass: Uid;
    match SopClassFor(modality) {
      case None =>
        return Failure(UnsupportedModality(modality));
      case Some(c) =>
        writeClass := c;
    }
    if PerFrameFunctionalGroupsSequence !in src.elements {
      return Failure(MissingPerFrameSequence);
    }
    var perFrame := src.elements[PerFrameFunctionalGroupsSequence];
    var isMR := modality == Text("MR");

    var slices: seq<SliceFile> := [];
    ghost var gs: seq<Geometry> := [];
    for i := 0 to numFrames
      invariant Geometries(perFrame, i) == Success(gs)
      invariant slices == Slices(src.State(), pixels, gs, writeClass, isMR, mint, stem)
    {
      var slice := AssembleSlice(src, pixels, perFrame, i, writeClass, isMR, mint(i), stem);
      if slice.Failure? {
        GeometriesFailureSticks(perFrame, i + 1, numFrames);
        return Failure(slice.error);
      }
      SlicesSnoc(src.State(), pixels, gs, FrameGeometry(perFrame, i).value, writeClass, isMR, mint, stem);
      gs := gs + [FrameGeometry(perFrame, i).value];
      slices := slices + [slice.value];
    }
    return Success(slices);
  }
}
