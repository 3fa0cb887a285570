/** The batch decompression tool: every uploaded file is decoded and written
    back with its pixel data uncompressed and its transfer syntax set to
    Explicit VR Little Endian (DICOM PS3.5 section A.2). A file that cannot
    be read, decoded or saved is reported, and the batch goes on. */
module Decompression {

  import opened Wrappers
  import opened Dicom
  import opened Uids
  import opened FileNames

  /** One uploaded file. `stem` and `ext` are what `os.path.splitext` returns
      for `name`; `read` is the dataset `pydicom.dcmread` makes of the bytes
      written to the temporary directory, or the reason the write or the read
      raised. */
  datatype Upload = Upload(name: string, stem: string, ext: string, read: Result<DatasetState, string>)

  /** The step of the `try` block that raised, with the exception's text. */
  datatype DecompError =
    | Unreadable(reason: string)
    | Undecodable(reason: string)
    | Unsaved(reason: string)

  /** The message the tool shows for one file: the decompressed file it wrote,
      or the upload's own name and the failure. */
  datatype FileOutcome =
    | Saved(name: string, dataset: DatasetState)
    | Failed(name: string, error: DecompError)

  /** The dataset after its pixel data is replaced by the decoded bytes and
      its header switched to explicit VR little endian. */
  function Decompressed(s: DatasetState, pixels: PixelArray): DatasetState
  {
    DatasetState(
      s.elements[PixelData := Bytes(pixels.data)],
      s.fileMeta[TransferSyntaxUID := Text(ExplicitVRLittleEndian)],
      false,
      true)
  }

  /** The body of the `try` block for one upload. `decode` stands for
      `ds.pixel_array`, which raises when no decoder handles the transfer
      syntax; `save(path, ds)` stands for `ds.save_as`, returning the reason
      it raised, if it did. */
  function ProcessUpload(u: Upload, decode: DatasetState -> Result<PixelArray, string>,
                         save: (string, DatasetState) -> Option<string>): FileOutcome
  {
    match u.read
    case Failure(e) => Failed(u.name, Unreadable(e))
    case Success(s) =>
      match decode(s)
      case Failure(e) => Failed(u.name, Undecodable(e))
      case Success(pixels) =>
        var out := Decompressed(s, pixels);
        var newName := DecompFileName(u.stem, u.ext);
        match save(newName, out)
        case Some(e) => Failed(u.name, Unsaved(e))
        case None => Saved(newName, out)
  }

  /** The outcomes of a batch, one per upload, in upload order. */
  function DecompressAll(uploads: seq<Upload>, decode: DatasetState -> Result<PixelArray, string>,
                         save: (string, DatasetState) -> Option<string>): (r: seq<FileOutcome>)
    ensures |r| == |uploads|
  {
    if uploads == [] then []
    else DecompressAll(uploads[..|uploads| - 1], decode, save) + [ProcessUpload(uploads[|uploads| - 1], decode, save)]
  }

  // ---------------------------------------------------------------------
  // The tool as the source runs it.

  /** Lines 223 to 228: edit the dataset that was read, in place. */
  method DecompressInPlace(ds: Dataset, pixels: PixelArray)
    modifies ds
    ensures ds.State() == Decompressed(old(ds.State()), pixels)
  {
    ds.elements := ds.elements[PixelData := Bytes(pixels.data)];
    ds.fileMeta := ds.fileMeta[TransferSyntaxUID := Text(ExplicitVRLittleEndian)];
    ds.isImplicitVR := false;
    ds.isLittleEndian := true;
  }

  /** One iteration of the batch loop. */
  method DecompressFile(u: Upload, decode: DatasetState -> Result<PixelArray, string>,
                        save: (string, DatasetState) -> Option<string>)
    returns (outcome: FileOutcome)
    ensures outcome == ProcessUpload(u, decode, save)
  {
    if u.read.Failure? {
      return Failed(u.name, Unreadable(u.read.error));
    }
    var ds := new Dataset(u.read.value);
    var decoded := decode(ds.State());
    if decoded.Failure? {
      return Failed(u.name, Undecodable(decoded.error));
    }
    DecompressInPlace(ds, decoded.value);
    var newName := DecompFileName(u.stem, u.ext);
    var saveError := save(newName, ds.State());
    if saveError.Some? {
      return Failed(u.name, Unsaved(saveError.value));
    }
    return Saved(newName, ds.State());
  }

  /** The loop over `uploaded_files`; an exception ends only its own iteration. */
  method DecompressBatch(uploads: seq<Upload>, decode: DatasetState -> Result<PixelArray, string>,
                         save: (string, DatasetState) -> Option<string>)
    returns (outcomes: seq<FileOutcome>)
    ensures outcomes == DecompressAll(uploads, decode, save)
  {
    outcomes := [];
    for i := 0 to |uploads|
      invariant outcomes == DecompressAll(uploads[..i], decode, save)
    {
      var outcome := DecompressFile(uploads[i], decode, save);
      assert uploads[..i + 1][..i] == uploads[..i];
      outcomes := outcomes + [outcome];
    }
    assert uploads[..|uploads|] == uploads;
  }

  // ---------------------------------------------------------------------
  // Properties.

  /** The written header declares explicit VR little endian, the flags agree
      with it, the pixel data is the decoded bytes, and nothing else in the
      dataset or its file meta changes. */
  lemma DecompressedHeader(s: DatasetState, pixels: PixelArray)
    ensures var out := Decompressed(s, pixels);
      && Get(out.fileMeta, TransferSyntaxUID) == Some(Text(ExplicitVRLittleEndian))
      && !out.isImplicitVR && out.isLittleEndian
      && EncodingConsistent(out)
      && Get(out.elements, PixelData) == Some(Bytes(pixels.data))
      && (forall t :: t != PixelData ==> Get(out.elements, t) == Get(s.elements, t))
      && (forall t :: t != TransferSyntaxUID ==> Get(out.fileMeta, t) == Get(s.fileMeta, t))
  {
    assert ExplicitVRLittleEndian != ImplicitVRLittleEndian by {
      assert |ExplicitVRLittleEndian| != |ImplicitVRLittleEndian|;
    }
    assert ExplicitVRLittleEndian != ExplicitVRBigEndian by {
      assert ExplicitVRLittleEndian[18] != ExplicitVRBigEndian[18];
    }
  }

  /** Decompressing twice is decompressing once with the second decoding:
      the header edits are idempotent. */
  lemma DecompressedTwice(s: DatasetState, first: PixelArray, second: PixelArray)
    ensures Decompressed(Decompressed(s, first), second) == Decompressed(s, second)
  {
    assert Decompressed(s, first).elements[PixelData := Bytes(second.data)] == s.elements[PixelData := Bytes(second.data)];
    assert Decompressed(s, first).fileMeta[TransferSyntaxUID := Text(ExplicitVRLittleEndian)]
        == s.fileMeta[TransferSyntaxUID := Text(ExplicitVRLittleEndian)];
  }

  /** A file the tool wrote is left as it is when decompressed again, provided
      decoding its raw pixel data gives back the same bytes. */
  lemma DecompressedFixedPoint(s: DatasetState, pixels: PixelArray, again: PixelArray)
    requires again.data == pixels.data
    ensures Decompressed(Decompressed(s, pixels), again) == Decompressed(s, pixels)
  {
    DecompressedTwice(s, pixels, again);
  }

  /** A file is saved exactly when it can be read, decoded and saved; a saved
      file is named `<stem>-decomp<ext>` (`.dcm` when there is no extension)
      and holds the decompressed dataset; a failure is reported under the
      upload's own name, with the first step that raised. */
  lemma ProcessUploadOutcome(u: Upload, decode: DatasetState -> Result<PixelArray, string>,
                             save: (string, DatasetState) -> Option<string>)
    ensures var o := ProcessUpload(u, decode, save);
      && (o.Saved? <==>
            && u.read.Success?
            && decode(u.read.value).Success?
            && save(DecompFileName(u.stem, u.ext), Decompressed(u.read.value, decode(u.read.value).value)).None?)
      && (o.Saved? ==>
            && o.name == DecompFileName(u.stem, u.ext)
            && o.dataset == Decompressed(u.read.value, decode(u.read.value).value)
            && EncodingConsistent(o.dataset))
      && (o.Failed? ==> o.name == u.name)
      && (u.read.Failure? ==> o == Failed(u.name, Unreadable(u.read.error)))
      && (u.read.Success? && decode(u.read.value).Failure? ==>
            o == Failed(u.name, Undecodable(decode(u.read.value).error)))
      && (u.read.Success? && decode(u.read.value).Success? &&
          save(DecompFileName(u.stem, u.ext), Decompressed(u.read.value, decode(u.read.value).value)).Some? ==>
            o == Failed(u.name, Unsaved(save(DecompFileName(u.stem, u.ext), Decompressed(u.read.value, decode(u.read.value).value)).value)))
  {
    if u.read.Success? && decode(u.read.value).Success? {
      DecompressedHeader(u.read.value, decode(u.read.value).value);
    }
  }

  /** Each upload's outcome depends on that upload alone: one that fails does
      not stop or change the others. */
  lemma {:induction false} DecompressAllAt(uploads: seq<Upload>, decode: DatasetState -> Result<PixelArray, string>,
                                           save: (string, DatasetState) -> Option<string>, i: nat)
    requires i < |uploads|
    ensures DecompressAll(uploads, decode, save)[i] == ProcessUpload(uploads[i], decode, save)
  {
    var n := |uploads|;
    if i < n - 1 {
      DecompressAllAt(uploads[..n - 1], decode, save, i);
    }
  }

  /** Processing a batch is processing its parts one after the other. */
  lemma {:induction false} DecompressAllAppend(first: seq<Upload>, rest: seq<Upload>,
                                               decode: DatasetState -> Result<PixelArray, string>,
                                               save: (string, DatasetState) -> Option<string>)
    ensures DecompressAll(first + rest, decode, save) == DecompressAll(first, decode, save) + DecompressAll(rest, decode, save)
    decreases |rest|
  {
    if rest != [] {
      var n := |rest|;
      var all := first + rest;
      assert all[..|all| - 1] == first + rest[..n - 1];
      assert all[|all| - 1] == rest[n - 1];
      DecompressAllAppend(first, rest[..n - 1], decode, save);
      assert DecompressAll(all, decode, save)
          == DecompressAll(first + rest[..n - 1], decode, save) + [ProcessUpload(rest[n - 1], decode, save)];
      assert DecompressAll(rest, decode, save)
          == DecompressAll(rest[..n - 1], decode, save) + [ProcessUpload(rest[n - 1], decode, save)];
    } else {
      assert first + rest == first;
    }
  }
}
