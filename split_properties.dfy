/** What the 3D splitting tool guarantees about the slices it writes. */
module SplitProperties {

  import opened Wrappers
  import opened Dicom
  import opened Uids
  import opened FileNames
  import opened Splitting

  /** The tags whose value a slice does not simply inherit from the source. */
  function EditedTags(isMR: bool): set<Tag>
  {
    {PixelData, Rows, Columns, PixelSpacing, SliceThickness, ImagePositionPatient, ImageOrientationPatient,
     NumberOfFrames, PerFrameFunctionalGroupsSequence, SharedFunctionalGroupsSequence,
     SOPInstanceUID, SOPClassUID, InstanceNumber}
    + (if isMR then {ScanningSequence, SequenceVariant} else {})
  }

  // ---------------------------------------------------------------------
  // Reading the geometry of every frame.

  lemma {:induction false} GeometriesSucceed(perFrame: Value, n: nat)
    ensures Geometries(perFrame, n).Success? <==> forall i :: 0 <= i < n ==> FrameGeometry(perFrame, i).Success?
  {
    if n > 0 {
      GeometriesSucceed(perFrame, n - 1);
    }
  }

  lemma {:induction false} GeometriesAt(perFrame: Value, n: nat, i: nat)
    requires Geometries(perFrame, n).Success? && i < n
    ensures FrameGeometry(perFrame, i) == Success(Geometries(perFrame, n).value[i])
  {
    if i < n - 1 {
      GeometriesAt(perFrame, n - 1, i);
    }
  }

  lemma {:induction false} GeometriesFirstFailure(perFrame: Value, n: nat, j: nat)
    requires j < n
    requires FrameGeometry(perFrame, j).Failure?
    requires forall i :: 0 <= i < j ==> FrameGeometry(perFrame, i).Success?
    ensures Geometries(perFrame, n) == Failure(FrameGeometry(perFrame, j).error)
  {
    if n - 1 > j {
      GeometriesFirstFailure(perFrame, n - 1, j);
    } else {
      GeometriesSucceed(perFrame, j);
    }
  }

  // ---------------------------------------------------------------------
  // When the tool writes anything, and what it reports otherwise.

  /** Splitting succeeds exactly when the pixel array is 3-dimensional, the
      modality is supported, the per-frame sequence is present and every
      frame's geometry can be read; it then writes one slice per frame. The
      checks run in this order, so an unsupported modality is reported before
      any frame is looked at. */
  lemma SplitOutcome(src: DatasetState, pixels: PixelArray, mint: nat -> Uid, stem: string)
    ensures var r := Split(src, pixels, mint, stem);
      var modality := ModalityOf(src.elements);
      && (|pixels.shape| != 3 ==> r == Failure(NotVolumetric(|pixels.shape|)))
      && (|pixels.shape| == 3 && SopClassFor(modality).None? ==> r == Failure(UnsupportedModality(modality)))
      && (|pixels.shape| == 3 && SopClassFor(modality).Some? && PerFrameFunctionalGroupsSequence !in src.elements ==>
            r == Failure(MissingPerFrameSequence))
      && (r.Success? <==>
            && |pixels.shape| == 3
            && SopClassFor(modality).Some?
            && PerFrameFunctionalGroupsSequence in src.elements
            && forall i :: 0 <= i < pixels.shape[0] ==>
                 FrameGeometry(src.elements[PerFrameFunctionalGroupsSequence], i).Success?)
      && (r.Success? ==> |r.value| == pixels.shape[0])
  {
    if |pixels.shape| == 3 && PerFrameFunctionalGroupsSequence in src.elements {
      GeometriesSucceed(src.elements[PerFrameFunctionalGroupsSequence], pixels.shape[0]);
    }
  }

  /** All or nothing: the error reported is that of the first frame whose
      geometry cannot be read, and no slice is returned. */
  lemma SplitFirstFailure(src: DatasetState, pixels: PixelArray, mint: nat -> Uid, stem: string, j: nat)
    requires |pixels.shape| == 3 && j < pixels.shape[0]
    requires SopClassFor(ModalityOf(src.elements)).Some?
    requires PerFrameFunctionalGroupsSequence in src.elements
    requires FrameGeometry(src.elements[PerFrameFunctionalGroupsSequence], j).Failure?
    requires forall i :: 0 <= i < j ==> FrameGeometry(src.elements[PerFrameFunctionalGroupsSequence], i).Success?
    ensures Split(src, pixels, mint, stem) == Failure(FrameGeometry(src.elements[PerFrameFunctionalGroupsSequence], j).error)
  {
    GeometriesFirstFailure(src.elements[PerFrameFunctionalGroupsSequence], pixels.shape[0], j);
  }

  /** A frame's geometry can be read exactly when the per-frame sequence has
      an entry for it that holds all four nested values, and the values read
      are those nested values. */
  lemma FrameGeometryReads(perFrame: Value, i: nat)
    ensures var g := FrameGeometry(perFrame, i);
      && (g.Success? <==>
            && Nested(perFrame, i, PixelMeasuresSequence, PixelSpacing).Some?
            && Nested(perFrame, i, PixelMeasuresSequence, SliceThickness).Some?
            && Nested(perFrame, i, PlanePositionSequence, ImagePositionPatient).Some?
            && Nested(perFrame, i, PlaneOrientationSequence, ImageOrientationPatient).Some?)
      && (g.Success? ==>
            && perFrame.Items? && i < |perFrame.items|
            && Some(g.value.spacing) == Nested(perFrame, i, PixelMeasuresSequence, PixelSpacing)
            && Some(g.value.thickness) == Nested(perFrame, i, PixelMeasuresSequence, SliceThickness)
            && Some(g.value.position) == Nested(perFrame, i, PlanePositionSequence, ImagePositionPatient)
            && Some(g.value.orientation) == Nested(perFrame, i, PlaneOrientationSequence, ImageOrientationPatient))
      && (g.Failure? ==> g.error == MissingPerFrameEntry(i) || g.error.MissingGeometry?)
      && (g == Failure(MissingPerFrameEntry(i)) <==> !perFrame.Items? || i >= |perFrame.items|)
      && (g.Failure? && g.error.MissingGeometry? ==>
            g.error.frame == i && Nested(perFrame, i, g.error.sequence, g.error.attribute).None?)
  {
  }

  // ---------------------------------------------------------------------
  // What each slice holds.

  /** Slice `i` is iteration `i` of the loop applied to the source dataset. */
  lemma SplitSliceAt(src: DatasetState, pixels: PixelArray, mint: nat -> Uid, stem: string, i: nat)
    requires Split(src, pixels, mint, stem).Success?
    requires i < |Split(src, pixels, mint, stem).value|
    ensures var r := Split(src, pixels, mint, stem).value;
      var modality := ModalityOf(src.elements);
      && |pixels.shape| == 3 && |r| == pixels.shape[0]
      && SopClassFor(modality).Some?
      && PerFrameFunctionalGroupsSequence in src.elements
      && var perFrame := src.elements[PerFrameFunctionalGroupsSequence];
      && FrameGeometry(perFrame, i).Success?
      && r[i] == SliceFor(src, pixels, i, FrameGeometry(perFrame, i).value,
                          SopClassFor(modality).value, modality == Text("MR"), mint(i), stem)
  {
    GeometriesAt(src.elements[PerFrameFunctionalGroupsSequence], pixels.shape[0], i);
  }

  /** The loop body writes frame `i`'s bytes and shape and the geometry `g`,
      whatever the source dataset held. */
  lemma SliceElementsFrame(e: Elements, pixels: PixelArray, i: nat, g: Geometry, writeClass: Uid, isMR: bool, uid: Uid)
    requires |pixels.shape| == 3 && i < pixels.shape[0]
    ensures var out := SliceElements(e, pixels, i, g, writeClass, isMR, uid);
      && Get(out, PixelData) == Some(Bytes(FrameBytes(pixels, i)))
      && Get(out, Rows) == Some(Number(pixels.shape[1]))
      && Get(out, Columns) == Some(Number(pixels.shape[2]))
      && Get(out, PixelSpacing) == Some(g.spacing)
      && Get(out, SliceThickness) == Some(g.thickness)
      && Get(out, ImagePositionPatient) == Some(g.position)
      && Get(out, ImageOrientationPatient) == Some(g.orientation)
  {
  }

  /** Slice `i` holds frame `i`'s bytes and shape and the geometry that
      per-frame entry `i` records. */
  lemma SplitPixelsAndGeometry(src: DatasetState, pixels: PixelArray, mint: nat -> Uid, stem: string, i: nat)
    requires Split(src, pixels, mint, stem).Success?
    requires i < |Split(src, pixels, mint, stem).value|
    ensures var out := Split(src, pixels, mint, stem).value[i].dataset.elements;
      var perFrame := src.elements[PerFrameFunctionalGroupsSequence];
      && |pixels.shape| == 3 && i < pixels.shape[0]
      && Get(out, PixelData) == Some(Bytes(FrameBytes(pixels, i)))
      && Get(out, Rows) == Some(Number(pixels.shape[1]))
      && Get(out, Columns) == Some(Number(pixels.shape[2]))
      && Nested(perFrame, i, PixelMeasuresSequence, PixelSpacing).Some?
      && Get(out, PixelSpacing) == Nested(perFrame, i, PixelMeasuresSequence, PixelSpacing)
      && Nested(perFrame, i, PixelMeasuresSequence, SliceThickness).Some?
      && Get(out, SliceThickness) == Nested(perFrame, i, PixelMeasuresSequence, SliceThickness)
      && Nested(perFrame, i, PlanePositionSequence, ImagePositionPatient).Some?
      && Get(out, ImagePositionPatient) == Nested(perFrame, i, PlanePositionSequence, ImagePositionPatient)
      && Nested(perFrame, i, PlaneOrientationSequence, ImageOrientationPatient).Some?
      && Get(out, ImageOrientationPatient) == Nested(perFrame, i, PlaneOrientationSequence, ImageOrientationPatient)
  {
    SplitSliceAt(src, pixels, mint, stem, i);
    var modality := ModalityOf(src.elements);
    var perFrame := src.elements[PerFrameFunctionalGroupsSequence];
    var g := FrameGeometry(perFrame, i).value;
    FrameGeometryReads(perFrame, i);
    SliceElementsFrame(src.elements, pixels, i, g, SopClassFor(modality).value, modality == Text("MR"), mint(i));
  }

  /** No slice carries NumberOfFrames or either functional groups sequence,
      whether or not the source had them. */
  lemma SplitRemovesMultiFrameTags(src: DatasetState, pixels: PixelArray, mint: nat -> Uid, stem: string, i: nat)
    requires Split(src, pixels, mint, stem).Success?
    requires i < |Split(src, pixels, mint, stem).value|
    ensures var out := Split(src, pixels, mint, stem).value[i].dataset.elements;
      && NumberOfFrames !in out
      && PerFrameFunctionalGroupsSequence !in out
      && SharedFunctionalGroupsSequence !in out
  {
    SplitSliceAt(src, pixels, mint, stem, i);
  }

  /** Slice `i` is an instance of the selected storage class, with the same
      class and instance UIDs in its dataset and in its file meta, UID
      `mint(i)`, instance number `i + 1` and file name ordinal `i + 1`. */
  lemma SplitIdentity(src: DatasetState, pixels: PixelArray, mint: nat -> Uid, stem: string, i: nat)
    requires Split(src, pixels, mint, stem).Success?
    requires i < |Split(src, pixels, mint, stem).value|
    ensures var slice := Split(src, pixels, mint, stem).value[i];
      var out := slice.dataset;
      var writeClass := SopClassFor(ModalityOf(src.elements));
      && writeClass.Some? && IsSingleFrameStorageClass(writeClass.value)
      && Get(out.elements, SOPClassUID) == Some(Text(writeClass.value))
      && Get(out.fileMeta, MediaStorageSOPClassUID) == Some(Text(writeClass.value))
      && Get(out.elements, SOPInstanceUID) == Some(Text(mint(i)))
      && Get(out.fileMeta, MediaStorageSOPInstanceUID) == Some(Text(mint(i)))
      && Get(out.elements, InstanceNumber) == Some(Number(i + 1))
      && slice.name == SliceFileName(stem, i + 1)
  {
    SplitSliceAt(src, pixels, mint, stem, i);
    SopClassForSupported(ModalityOf(src.elements));
  }

  /** MR slices are marked as spin echo, skipped: ScanningSequence "SE" and
      SequenceVariant "SK". */
  lemma SplitNormalisesMR(src: DatasetState, pixels: PixelArray, mint: nat -> Uid, stem: string, i: nat)
    requires Split(src, pixels, mint, stem).Success?
    requires i < |Split(src, pixels, mint, stem).value|
    requires ModalityOf(src.elements) == Text("MR")
    ensures var out := Split(src, pixels, mint, stem).value[i].dataset.elements;
      && Get(out, ScanningSequence) == Some(Text("SE"))
      && Get(out, SequenceVariant) == Some(Text("SK"))
  {
    SplitSliceAt(src, pixels, mint, stem, i);
  }

  /** Everything the loop body does not assign or delete is inherited: the
      other elements (ScanningSequence and SequenceVariant too, for CT and
      PET), the other file meta elements (the transfer syntax among them)
      and the encoding flags. */
  lemma SplitKeepsEverythingElse(src: DatasetState, pixels: PixelArray, mint: nat -> Uid, stem: string, i: nat)
    requires Split(src, pixels, mint, stem).Success?
    requires i < |Split(src, pixels, mint, stem).value|
    ensures var out := Split(src, pixels, mint, stem).value[i].dataset;
      var isMR := ModalityOf(src.elements) == Text("MR");
      && (forall t :: t !in EditedTags(isMR) ==> Get(out.elements, t) == Get(src.elements, t))
      && (forall t :: t != MediaStorageSOPClassUID && t != MediaStorageSOPInstanceUID ==>
            Get(out.fileMeta, t) == Get(src.fileMeta, t))
      && out.isImplicitVR == src.isImplicitVR
      && out.isLittleEndian == src.isLittleEndian
  {
    SplitSliceAt(src, pixels, mint, stem, i);
  }

  /** Given a UID supply that never repeats itself, no two slices share an
      instance UID, and no two slices share a file name. */
  lemma SplitSlicesDistinct(src: DatasetState, pixels: PixelArray, mint: nat -> Uid, stem: string, i: nat, j: nat)
    requires Split(src, pixels, mint, stem).Success?
    requires forall a: nat, b: nat :: a < b < |Split(src, pixels, mint, stem).value| ==> mint(a) != mint(b)
    requires i < j < |Split(src, pixels, mint, stem).value|
    ensures var r := Split(src, pixels, mint, stem).value;
      && Get(r[i].dataset.elements, SOPInstanceUID) != Get(r[j].dataset.elements, SOPInstanceUID)
      && Get(r[i].dataset.fileMeta, MediaStorageSOPInstanceUID) != Get(r[j].dataset.fileMeta, MediaStorageSOPInstanceUID)
      && r[i].name != r[j].name
  {
    SplitIdentity(src, pixels, mint, stem, i);
    SplitIdentity(src, pixels, mint, stem, j);
    SliceFileNamesDistinct(stem, i + 1, j + 1);
  }

  // ---------------------------------------------------------------------
  // No pixel is lost or reordered.

  function SlicePixelBytes(f: SliceFile): seq<Byte>
  {
    match Get(f.dataset.elements, PixelData)
    case Some(Bytes(b)) => b
    case _ => []
  }

  /** The slices' pixel data, one after another. */
  function ConcatPixelData(files: seq<SliceFile>): seq<Byte>
  {
    if files == [] then [] else ConcatPixelData(files[..|files| - 1]) + SlicePixelBytes(files[|files| - 1])
  }

  lemma {:induction false} ConcatFrames(files: seq<SliceFile>, pixels: PixelArray, n: nat)
    requires |pixels.shape| == 3 && |files| == pixels.shape[0] && n <= |files|
    requires forall k :: 0 <= k < |files| ==> SlicePixelBytes(files[k]) == FrameBytes(pixels, k)
    ensures Mul(n, FrameSize(pixels)) <= |pixels.data|
    ensures ConcatPixelData(files[..n]) == pixels.data[..Mul(n, FrameSize(pixels))]
  {
    var f := FrameSize(pixels);
    if n == 0 {
      assert files[..0] == [];
    } else {
      ConcatFrames(files, pixels, n - 1);
      FrameWithinVolume(pixels, n - 1);
      assert files[..n][..n - 1] == files[..n - 1];
      assert Mul(n, f) == f + Mul(n - 1, f);
      assert pixels.data[..Mul(n, f)] == pixels.data[..Mul(n - 1, f)] + pixels.data[Mul(n - 1, f)..Mul(n, f)];
    }
  }

  /** Laid end to end in instance-number order, the slices' pixel data is
      exactly the source volume's pixel bytes. */
  lemma SplitPreservesPixelData(src: DatasetState, pixels: PixelArray, mint: nat -> Uid, stem: string)
    requires Split(src, pixels, mint, stem).Success?
    ensures ConcatPixelData(Split(src, pixels, mint, stem).value) == pixels.data
  {
    var r := Split(src, pixels, mint, stem).value;
    SplitOutcome(src, pixels, mint, stem);
    forall k | 0 <= k < |r|
      ensures SlicePixelBytes(r[k]) == FrameBytes(pixels, k)
    {
      SplitPixelsAndGeometry(src, pixels, mint, stem, k);
    }
    ConcatFrames(r, pixels, |r|);
    VolumeSize(pixels);
    assert r[..|r|] == r;
  }
}
