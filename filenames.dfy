/** Output file names: `{base}-slice{n:03}.dcm` for split slices and
    `{name}-decomp{ext or '.dcm'}` for decompressed files. The stem and the
    extension are what `os.path.splitext` returned. */
module FileNames {

  predicate IsDigit(c: char)
  {
    '0' <= c <= '9'
  }

  function DigitChar(d: nat): (c: char)
    requires d < 10
    ensures IsDigit(c) && DigitValue(c) == d
  {
    ('0' as int + d) as char
  }

  function DigitValue(c: char): nat
  {
    if IsDigit(c) then c as int - '0' as int else 0
  }

  /** Python's decimal rendering of a non-negative integer, without padding. */
  function Decimal(n: nat): (s: string)
    ensures |s| >= 1
  {
    if n < 10 then [DigitChar(n)] else Decimal(n / 10) + [DigitChar(n % 10)]
  }

  /** Reads a string of decimal digits back as a number. */
  function ParseDecimal(s: string): nat
  {
    if s == [] then 0 else ParseDecimal(s[..|s| - 1]) * 10 + DigitValue(s[|s| - 1])
  }

  function Zeros(k: nat): (z: string)
  {
    seq(k, _ => '0')
  }

  /** The `0w` format spec: left-pad with zeros to at least `width` characters. */
  function ZeroPad(s: string, width: nat): string
  {
    if |s| >= width then s else Zeros(width - |s|) + s
  }

  /** `{n:03}`. */
  function Ordinal3(n: nat): string
  {
    ZeroPad(Decimal(n), 3)
  }

  function SliceFileName(stem: string, ordinal: nat): string
  {
    stem + "-slice" + Ordinal3(ordinal) + ".dcm"
  }

  function DecompFileName(stem: string, ext: string): string
  {
    stem + "-decomp" + (if ext == "" then ".dcm" else ext)
  }

  lemma {:induction false} DecimalDigits(n: nat)
    ensures forall k :: 0 <= k < |Decimal(n)| ==> IsDigit(Decimal(n)[k])
  {
    if n >= 10 {
      DecimalDigits(n / 10);
      assert Decimal(n) == Decimal(n / 10) + [DigitChar(n % 10)];
    }
  }

  lemma {:induction false} DecimalRoundTrip(n: nat)
    ensures ParseDecimal(Decimal(n)) == n
  {
    if n >= 10 {
      var s := Decimal(n);
      assert s[..|s| - 1] == Decimal(n / 10);
      DecimalRoundTrip(n / 10);
    }
  }

  lemma {:induction false} ParseIgnoresLeadingZeros(k: nat, s: string)
    ensures ParseDecimal(Zeros(k) + s) == ParseDecimal(s)
  {
    if s == [] {
      assert Zeros(k) + s == Zeros(k);
      ZerosParseToZero(k);
    } else {
      var t := Zeros(k) + s;
      assert t[..|t| - 1] == Zeros(k) + s[..|s| - 1];
      ParseIgnoresLeadingZeros(k, s[..|s| - 1]);
    }
  }

  lemma {:induction false} ZerosParseToZero(k: nat)
    ensures ParseDecimal(Zeros(k)) == 0
  {
    if k > 0 {
      assert Zeros(k)[..k - 1] == Zeros(k - 1);
      ZerosParseToZero(k - 1);
    }
  }

  /** `Decimal(n)` has at most three digits exactly when `n` is below 1000. */
  lemma DecimalLengthAtMostThree(n: nat)
    ensures |Decimal(n)| <= 3 <==> n < 1000
  {
    if n >= 10 {
      assert |Decimal(n)| == |Decimal(n / 10)| + 1;
      if n / 10 >= 10 {
        assert |Decimal(n / 10)| == |Decimal(n / 100)| + 1;
        if n / 100 >= 10 {
          assert |Decimal(n / 100)| == |Decimal(n / 1000)| + 1;
        }
      }
    }
  }

  /** The padded ordinal is three characters for ordinals below 1000, is
      never truncated, consists of digits, and reads back as the ordinal. */
  lemma Ordinal3Parses(n: nat)
    ensures |Ordinal3(n)| == if n < 1000 then 3 else |Decimal(n)|
    ensures forall k :: 0 <= k < |Ordinal3(n)| ==> IsDigit(Ordinal3(n)[k])
    ensures ParseDecimal(Ordinal3(n)) == n
  {
    DecimalLengthAtMostThree(n);
    DecimalRoundTrip(n);
    DecimalDigits(n);
    var d := Decimal(n);
    if |d| < 3 {
      ParseIgnoresLeadingZeros(3 - |d|, d);
    }
  }

  /** The ordinal can be recovered from a slice file name. */
  lemma SliceFileNameOrdinal(stem: string, ordinal: nat)
    ensures var name := SliceFileName(stem, ordinal);
      && |name| == |stem| + 6 + |Ordinal3(ordinal)| + 4
      && name[..|stem|] == stem
      && name[|stem|..|stem| + 6] == "-slice"
      && name[|name| - 4..] == ".dcm"
      && ParseDecimal(name[|stem| + 6..|name| - 4]) == ordinal
      && (ordinal < 1000 ==> |name| == |stem| + 13)
  {
    var name := SliceFileName(stem, ordinal);
    var p := Ordinal3(ordinal);
    assert name[|stem| + 6..|name| - 4] == p;
    Ordinal3Parses(ordinal);
  }

  /** Different slices never share a file name. */
  lemma SliceFileNamesDistinct(stem: string, a: nat, b: nat)
    requires a != b
    ensures SliceFileName(stem, a) != SliceFileName(stem, b)
  {
    SliceFileNameOrdinal(stem, a);
    SliceFileNameOrdinal(stem, b);
  }

  /** A decompressed file keeps its stem and extension, `.dcm` when there was none. */
  lemma DecompFileNameShape(stem: string, ext: string)
    ensures var name := DecompFileName(stem, ext);
      && name[..|stem|] == stem
      && name[|stem|..|stem| + 7] == "-decomp"
      && name[|stem| + 7..] == (if ext == "" then ".dcm" else ext)
  {
  }

  /** An upload without an extension and one with `.dcm` get the same
      decompressed name, so the later `save_as` overwrites the earlier file. */
  lemma DecompFileNameCollides(stem: string)
    ensures DecompFileName(stem, "") == DecompFileName(stem, ".dcm")
  {
  }
}
