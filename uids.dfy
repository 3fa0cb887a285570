/** The UIDs the tools write: the single-frame storage SOP classes chosen by
    modality (DICOM PS3.4 Annex B.5, PS3.6 Annex A) and the uncompressed
    transfer syntaxes (DICOM PS3.5 section 10 and Annex A). */
module Uids {

  import opened Wrappers
  import opened Dicom

  const CTImageStorage: Uid := "1.2.840.10008.5.1.4.1.1.2"
  const MRImageStorage: Uid := "1.2.840.10008.5.1.4.1.1.4"
  /** Defined locally by the tool rather than taken from pydicom. */
  const PETImageStorage: Uid := "1.2.840.10008.5.1.4.1.1.128"

  const ImplicitVRLittleEndian: Uid := "1.2.840.10008.1.2"
  const ExplicitVRLittleEndian: Uid := "1.2.840.10008.1.2.1"
  const ExplicitVRBigEndian: Uid := "1.2.840.10008.1.2.2"

  /** The output SOP class for a modality value, in the order of the tool's
      if/elif chain; `None` is the unsupported-modality branch. */
  function SopClassFor(modality: Value): Option<Uid>
  {
    if modality == Text("MR") then Some(MRImageStorage)
    else if modality == Text("CT") then Some(CTImageStorage)
    else if modality == Text("PT") then Some(PETImageStorage)
    else None
  }

  /** The three single-frame storage classes the splitter can write. */
  predicate IsSingleFrameStorageClass(c: Uid)
  {
    c == MRImageStorage || c == CTImageStorage || c == PETImageStorage
  }

  lemma SopClassForSupported(modality: Value)
    ensures SopClassFor(modality).Some? <==>
              modality == Text("MR") || modality == Text("CT") || modality == Text("PT")
    ensures SopClassFor(Text("MR")) == Some(MRImageStorage)
    ensures SopClassFor(Text("CT")) == Some(CTImageStorage)
    ensures SopClassFor(Text("PT")) == Some("1.2.840.10008.5.1.4.1.1.128")
    ensures SopClassFor(modality).Some? ==> IsSingleFrameStorageClass(SopClassFor(modality).value)
  {
  }

  /** Different supported modalities never share an output class. */
  lemma SopClassForInjective(m1: Value, m2: Value)
    requires SopClassFor(m1).Some? && SopClassFor(m1) == SopClassFor(m2)
    ensures m1 == m2
  {
    assert MRImageStorage != CTImageStorage by { assert MRImageStorage[24] != CTImageStorage[24]; }
    assert MRImageStorage != PETImageStorage by { assert |MRImageStorage| != |PETImageStorage|; }
    assert CTImageStorage != PETImageStorage by { assert |CTImageStorage| != |PETImageStorage|; }
  }

  /** The (implicit VR, little endian) encoding a transfer syntax declares.
      Every syntax other than the two listed, the encapsulated (compressed)
      ones included, uses explicit VR little endian. */
  function EncodingOf(ts: Uid): (bool, bool)
  {
    if ts == ImplicitVRLittleEndian then (true, true)
    else if ts == ExplicitVRBigEndian then (false, false)
    else (false, true)
  }

  /** The dataset's flags agree with the transfer syntax its file meta declares. */
  predicate EncodingConsistent(s: DatasetState)
  {
    && TransferSyntaxUID in s.fileMeta
    && s.fileMeta[TransferSyntaxUID].Text?
    && EncodingOf(s.fileMeta[TransferSyntaxUID].text) == (s.isImplicitVR, s.isLittleEndian)
  }
}
