# DICOM-Check: splitting and decompression, modelled in Dafny

DICOM-Check is a Streamlit application with a set of DICOM utilities. This
project models two of them.

**3D splitting** (`DICOM-Check.py`, lines 103-171). It takes one multi-frame (enhanced) image
and writes one single-frame image per frame. Each slice is a copy of the source dataset with:

- the frame's pixel bytes, Rows and Columns;
- PixelSpacing, SliceThickness, ImagePositionPatient and ImageOrientationPatient copied
  from the frame's entry of the Per-frame Functional Groups Sequence;
- for MR, ScanningSequence `SE` and SequenceVariant `SK`;
- NumberOfFrames and both functional groups sequences removed;
- a fresh SOP Instance UID, and the single-frame storage class chosen by
  modality (MR, CT or PET), in the dataset and in the file meta;
- InstanceNumber `i + 1`;
- the file name `<stem>-slice<NNN>.dcm`.

**Batch decompression** (`DICOM-Check.py`, lines 202-238). Each uploaded file is read and its pixel
data decoded. The decoded bytes replace the pixel data. The transfer syntax
becomes Explicit VR Little Endian, with the encoding flags to match. The file
is saved as `<stem>-decomp<ext>`, or `<stem>-decomp.dcm` when there is no
extension. A failure is reported for that file alone, and the batch goes on.

Modules:

- `Wrappers`: `Option` and `Result`.
- `Dicom`: tags, values, the dataset as a value (`DatasetState`) and as a
  mutable object (`Dataset`), and the decoded pixel array as C-ordered bytes with a shape.
- `Uids`: the output storage classes and transfer syntaxes, and the encoding each syntax declares.
- `FileNames`: the `{n:03}` formatting and the two output name patterns.
- `Splitting`:
  - the splitter's specification, `Split`: every frame's geometry is read first, then one slice is built per frame;
  - the splitter itself: `SplitVolume` and the in-place edit methods of its loop body.
- `SplitProperties`: what every slice holds, and when the split fails.
- `Decompression`: the per-file step, the batch loop, and their properties.

How the code's dependencies are modelled:

- `generate_uid()` is an oracle `mint: nat -> Uid`: `mint(i)` is the UID returned by the `i`-th call.
  Distinct UIDs are proved under the hypothesis that `mint` does not repeat.
- `ds.pixel_array` comes in as a parameter in the split and as an oracle `decode` in the batch.
- `save_as` is an oracle `save` in the batch.
- `dcmread` of an upload is each upload's `read` result.

Behaviour of the code that the model keeps as written:

- A slice keeps the source's TransferSyntaxUID and encoding flags (`SplitKeepsEverythingElse`),
  while its pixel data is raw frame bytes. So, for a compressed volume, the
  dataset passed to `save_as` declares a compressed syntax over uncompressed data.
- An exception in the split loop escapes the `with TemporaryDirectory()` block,
  so the slices written before it are never zipped or offered. `Split`
  therefore returns either every slice or the error of the first failing frame.
- The `if not uploaded_files` warning (lines 205-206) cannot be reached:
  line 202 already requires a non-empty upload list.
- The per-frame sequence is looked up only after the button is pressed, so a
  missing sequence is reported after the modality check (`SplitOutcome`).
- Decompressed names can collide: uploads named `scan` and `scan.dcm` both
  become `scan-decomp.dcm` (`DecompFileNameCollides`), as do two uploads with the same name.
  The batch then reports two `Saved` outcomes, while the second `save_as`
  overwrites the first file.

## Model

| member | source | states |
|---|---|---|
| Uids.SopClassFor | DICOM-Check.py:117-125 | No contract of its own; characterised by `Uids.SopClassForSupported` and `Uids.SopClassForInjective` |
| Uids.SopClassForSupported | DICOM-Check.py:117-125 | The modality chooses an output class exactly when it is MR, CT or PT: MR Image Storage, CT Image Storage, and the locally defined PET UID `1.2.840.10008.5.1.4.1.1.128`, always a single-frame storage class |
| Uids.SopClassForInjective | DICOM-Check.py:117-125 | Different supported modalities never get the same output class |
| FileNames.DecimalRoundTrip | DICOM-Check.py:169 | The decimal rendering of an ordinal reads back as that ordinal |
| FileNames.Ordinal3Parses | DICOM-Check.py:169 | `{n:03}` has exactly 3 characters below 1000, is never truncated, is all digits and reads back as `n` |
| FileNames.SliceFileNameOrdinal | DICOM-Check.py:168-169 | A slice name is the stem, `-slice`, the padded ordinal and `.dcm`; the ordinal can be recovered from it |
| FileNames.SliceFileNamesDistinct | DICOM-Check.py:168-169 | Different ordinals give different slice names |
| FileNames.Ordinal3 | DICOM-Check.py:169 | No contract of its own; characterised by `FileNames.Ordinal3Parses` |
| FileNames.SliceFileName | DICOM-Check.py:168-169 | No contract of its own; characterised by `FileNames.SliceFileNameOrdinal` and `FileNames.SliceFileNamesDistinct` |
| FileNames.DecompFileName | DICOM-Check.py:231-232 | No contract of its own; characterised by `FileNames.DecompFileNameShape` and `FileNames.DecompFileNameCollides` |
| FileNames.DecompFileNameCollides | DICOM-Check.py:231-232 | An upload without an extension and one with `.dcm` on the same stem get the same decompressed name |
| FileNames.DecompFileNameShape | DICOM-Check.py:231-232 | A decompressed name is the stem, `-decomp`, then the extension, or `.dcm` when it is empty |
| Dicom.Dataset.constructor | DICOM-Check.py:221 | A dataset read from a file holds that file's content |
| Dicom.Dataset.Copy | DICOM-Check.py:137 | The copy is a new object with the same content |
| Dicom.FrameBytes | DICOM-Check.py:140-141 | `pixel_array[i].tobytes()` has exactly the size of one frame |
| Dicom.VolumeSize | DICOM-Check.py:111-113 | A 3-dimensional array holds exactly `shape[0]` frames' worth of bytes |
| Splitting.ModalityOf | DICOM-Check.py:112 | No contract of its own: `ds.get("Modality", "Unknown")`; its result feeds `Uids.SopClassFor` in `SplitProperties.SplitOutcome` |
| Splitting.FrameGeometry | DICOM-Check.py:145-148 | No contract of its own; characterised by `SplitProperties.FrameGeometryReads` against the independent reading `Splitting.Nested` |
| Splitting.Split | DICOM-Check.py:108-171 | No contract of its own; characterised by `SplitProperties.SplitOutcome`, `SplitFirstFailure`, `SplitSliceAt` and the per-slice lemmas, and implemented by `Splitting.SplitVolume` |
| Splitting.Geometries | DICOM-Check.py:136-148 | Reading the geometry of `n` frames yields `n` geometries when it succeeds |
| Splitting.GeometriesFailureSticks | DICOM-Check.py:136-148 | Once a frame fails, every longer run of the loop fails with that frame's error |
| Splitting.PlaceFrame | DICOM-Check.py:140-142 | PixelData becomes frame `i`'s bytes, Rows and Columns the frame's shape; nothing else changes |
| Splitting.CopyGeometry | DICOM-Check.py:145-148 | The four geometry attributes are read from entry `i` in the source's order and assigned; the first missing one raises |
| Splitting.NormaliseMR | DICOM-Check.py:149-151 | For MR only, ScanningSequence becomes `SE` and SequenceVariant `SK` |
| Splitting.RemoveMultiFrameTags | DICOM-Check.py:153-156 | The loop over the three tags deletes exactly those present; nothing else changes |
| Splitting.AssignIdentity | DICOM-Check.py:158-165 | SOP Instance UID, SOP Class UID, both media storage UIDs and InstanceNumber `i + 1` are assigned; the media storage instance UID is read back from the dataset |
| Splitting.AssembleSlice | DICOM-Check.py:137-171 | One iteration of the loop (copy, edit, name) produces the slice the specification describes, or the error of its geometry read |
| Splitting.SplitVolume | DICOM-Check.py:108-171 | The whole splitter, with its checks and its loop, returns exactly what `Split` specifies |
| SplitProperties.GeometriesSucceed | DICOM-Check.py:145-148 | Reading the geometry of all frames succeeds exactly when each frame's read succeeds |
| SplitProperties.GeometriesAt | DICOM-Check.py:136-148 | The `i`-th geometry read in the loop is frame `i`'s |
| SplitProperties.GeometriesFirstFailure | DICOM-Check.py:136-148 | The loop fails with the error of the first frame whose geometry cannot be read |
| SplitProperties.SplitOutcome | DICOM-Check.py:108-148 | In order: not 3-dimensional, unsupported modality, missing per-frame sequence. The split succeeds exactly when none of these holds and every frame's geometry can be read, and then yields `shape[0]` slices |
| SplitProperties.SplitFirstFailure | DICOM-Check.py:136-148 | When frame `j` is the first unreadable frame, the split reports its error and yields no slice |
| SplitProperties.FrameGeometryReads | DICOM-Check.py:145-148 | A frame's geometry can be read exactly when all four nested attributes exist, and then it is those attributes; otherwise the error is `MissingPerFrameEntry(i)` exactly when entry `i` does not exist, or names frame `i` and a sequence and attribute that are actually missing |
| SplitProperties.SplitSliceAt | DICOM-Check.py:136-171 | Slice `i` is iteration `i` of the loop body applied to the source, with UID `mint(i)` |
| SplitProperties.SliceElementsFrame | DICOM-Check.py:140-148 | The edited elements hold frame `i`'s bytes, its Rows and Columns, and the given geometry |
| SplitProperties.SplitPixelsAndGeometry | DICOM-Check.py:140-148 | Slice `i` holds frame `i`'s pixel bytes, Rows and Columns, and the four geometry values that per-frame entry `i` records |
| SplitProperties.SplitRemovesMultiFrameTags | DICOM-Check.py:153-156 | No slice has NumberOfFrames or either functional groups sequence |
| SplitProperties.SplitIdentity | DICOM-Check.py:158-169 | Slice `i` carries the chosen class in its dataset and file meta, UID `mint(i)` in both, InstanceNumber `i + 1`, and the name with ordinal `i + 1` |
| SplitProperties.SplitNormalisesMR | DICOM-Check.py:149-151 | MR slices have ScanningSequence `SE` and SequenceVariant `SK` |
| SplitProperties.SplitKeepsEverythingElse | DICOM-Check.py:137-165 | Every element the loop body does not assign or delete, every other file meta element (the transfer syntax included) and both encoding flags are inherited from the source |
| SplitProperties.SplitSlicesDistinct | DICOM-Check.py:159-169 | With a non-repeating UID supply, no two slices share an instance UID (dataset or file meta) or a file name |
| SplitProperties.SplitPreservesPixelData | DICOM-Check.py:136-142 | The slices' pixel data, concatenated in order, is exactly the source volume's bytes |
| Decompression.Decompressed | DICOM-Check.py:223-228 | No contract of its own; characterised by `Decompression.DecompressedHeader`, `DecompressedTwice` and `DecompressedFixedPoint` |
| Decompression.ProcessUpload | DICOM-Check.py:214-238 | No contract of its own; characterised by `Decompression.ProcessUploadOutcome` and implemented by `Decompression.DecompressFile` |
| Decompression.DecompressAll | DICOM-Check.py:213-238 | A batch yields exactly one outcome per upload |
| Decompression.DecompressInPlace | DICOM-Check.py:223-228 | PixelData becomes the decoded bytes, the transfer syntax Explicit VR Little Endian, and the flags explicit-VR and little-endian; nothing else changes |
| Decompression.DecompressFile | DICOM-Check.py:214-238 | One iteration of the `try` block produces the outcome `ProcessUpload` specifies |
| Decompression.DecompressBatch | DICOM-Check.py:213-238 | The batch loop produces the outcomes `DecompressAll` specifies |
| Decompression.DecompressedHeader | DICOM-Check.py:223-228 | The written header declares Explicit VR Little Endian, the flags agree with it, PixelData is the decoded bytes, and every other element and file meta element is unchanged |
| Decompression.DecompressedTwice | DICOM-Check.py:223-228 | Decompressing twice equals decompressing once with the second decoding |
| Decompression.DecompressedFixedPoint | DICOM-Check.py:222-228 | A decompressed dataset is unchanged by a second decompression that decodes to the same bytes |
| Decompression.ProcessUploadOutcome | DICOM-Check.py:214-238 | A file is saved exactly when reading, decoding and saving all succeed. It is then named `<stem>-decomp<ext or .dcm>` with a consistent header; otherwise the failure is reported under the upload's name, with the step that raised (read, decode or save) and its reason |
| Decompression.DecompressAllAt | DICOM-Check.py:213-238 | Outcome `i` is that of upload `i` alone: a failing file does not affect the others |
| Decompression.DecompressAllAppend | DICOM-Check.py:213-238 | Processing a batch equals processing its two parts one after the other |

## Left out

- The Streamlit user interface, the header-check tool with its UID-to-name table, and the preview: they only display values.
- Pixel decoding (`ds.pixel_array`) is a parameter. Its failure on line 108, before the dimension check, is not modelled.
- `generate_uid` is an oracle. Randomness and global uniqueness are not modelled; distinctness is a hypothesis.
- File I/O, the temporary directories and the ZIP archives are not modelled. In the batch, the temporary write and `dcmread` are folded into each upload's `read` result, and `save_as` is the `save` oracle.
- `save_as` inside the split loop is not modelled as failing: the model returns the datasets the loop would write.
- `os.path.splitext` is not modelled. Each upload carries the stem and extension it returns, and the split takes the stem as a parameter.
- Dicom.Dataset.Copy: how deep `ds.copy()` copies is not visible, and it may share storage with `ds_3D`. The model treats each slice as an independent copy. This still gives the datasets the source saves, because every iteration assigns or deletes the same set of tags before `save_as`, and `per_frame_seq` is bound at line 134, before the loop. What the model does not capture is the source dataset being changed along the way.
- Value representations, element lengths and the byte encoding written by `save_as` are not modelled. A dataset is a map from tags to abstract values.
