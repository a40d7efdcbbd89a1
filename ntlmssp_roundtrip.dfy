/** Properties of msrpc_parse and of the pair msrpc_gen / msrpc_parse. */
module NtlmsspRoundTrip {
  import opened Common
  import opened Ucs2
  import opened NtlmsspLayout
  import opened NtlmsspParse

  // ---------------------------------------------------------------------
  // Properties of the pair
  // ---------------------------------------------------------------------

  /** The parser never reads past the blob: a header read needs 8 bytes at
      head_ofs, and a non-empty descriptor is accepted exactly when its
      lengths are equal, ptr + len1 neither wraps at 2^32 nor runs past the
      blob, and a unicode string has an even length. */
  lemma DescriptorChecks(blob: seq<byte>, f: FieldSpec, ofs: nat)
    requires ofs <= |blob|
    requires f.PU? || f.PA? || f.PB?
    ensures ofs + 8 > |blob| ==> ParseStep(blob, f, ofs) == None
    ensures ofs + 8 <= |blob| ==>
      var len1 := FromLE16(blob[ofs..ofs + 2]);
      var len2 := FromLE16(blob[ofs + 2..ofs + 4]);
      var ptr := FromLE32(blob[ofs + 4..ofs + 8]);
      && (len1 == 0 && len2 == 0 ==> ParseStep(blob, f, ofs) == Some((EmptyOf(f), ofs + 8)))
      && (!(len1 == 0 && len2 == 0) && (len1 != len2 || ptr + len1 > |blob|) ==> ParseStep(blob, f, ofs) == None)
      && (f.PU? && len1 % 2 == 1 ==> ParseStep(blob, f, ofs) == None)
      && ((!(len1 == 0 && len2 == 0) && len1 == len2 && ptr + len1 <= |blob| && ptr + len1 < TWO32
           && !(f.PU? && len1 % 2 == 1)) ==> ParseStep(blob, f, ofs).Some?)
      && (ParseStep(blob, f, ofs).Some? && !(len1 == 0 && len2 == 0) ==>
            len1 == len2 && ptr + len1 <= |blob| &&
            ParseStep(blob, f, ofs).value.0 == Pulled(f, blob[ptr..ptr + len1]))
  {
    if ofs + 8 <= |blob| {
      var len1 := FromLE16(blob[ofs..ofs + 2]);
      var len2 := FromLE16(blob[ofs + 2..ofs + 4]);
      var ptr := FromLE32(blob[ofs + 4..ofs + 8]);
      if DescriptorOk(len1, len2, ptr, |blob|) {
        DescriptorInside(len1, len2, ptr, |blob|);
      }
    }
  }

  /** A descriptor whose end wraps past 2^32 is rejected even though its
      wrapped end would lie inside the blob. */
  lemma WrappedDescriptorRejected(blob: seq<byte>, f: FieldSpec, ofs: nat)
    requires f.PU? || f.PA? || f.PB?
    requires ofs + 8 <= |blob|
    requires FromLE16(blob[ofs..ofs + 2]) > 0
    requires FromLE32(blob[ofs + 4..ofs + 8]) + FromLE16(blob[ofs..ofs + 2]) >= TWO32
    ensures ParseStep(blob, f, ofs) == None
  {
  }

  /** Formats the parser accepts back: no 'a' field (msrpc_parse has no
      'a'), converted data short enough for the 16-bit Len field, and the
      whole blob addressable by 32-bit offsets. */
  predicate Parsable(fs: seq<GenField>)
  {
    && (forall k :: 0 <= k < |fs| ==> !fs[k].Addr?)
    && (forall k {:trigger PieceOf(fs[k])} :: 0 <= k < |fs| && !fs[k].D? ==> |PieceOf(fs[k]).data| < TWO16)
    && |GenBlob(fs)| < TWO32
  }

  /** The parse format letter matching a generated field. */
  function FormatOf(f: GenField): FieldSpec
    requires !f.Addr?
  {
    match f
    case U(_) => PU
    case A(_) => PA
    case B(_) => PB
    case HeadBlob(blob) => PHeadBlob(|blob|)
    case D(_) => PD
    case C(str) => PC(str)
  }

  /** What parsing a generated field gives back. */
  function ExpectedOf(f: GenField): Parsed
    requires !f.Addr?
  {
    match f
    case U(units) => Str16(CStr16(units))
    case A(chars) => Str8(CStr(chars))
    case B(blob) => Blob(blob)
    case HeadBlob(blob) => Blob(blob)
    case D(word) => Word(word % TWO32)
    case C(_) => Matched
  }

  function Formats(fs: seq<GenField>): (r: seq<FieldSpec>)
    requires forall k :: 0 <= k < |fs| ==> !fs[k].Addr?
    ensures |r| == |fs|
    ensures forall k {:trigger r[k]} :: 0 <= k < |fs| ==> r[k] == FormatOf(fs[k])
  {
    if fs == [] then [] else [FormatOf(fs[0])] + Formats(fs[1..])
  }

  function Expected(fs: seq<GenField>): (r: seq<Parsed>)
    requires forall k :: 0 <= k < |fs| ==> !fs[k].Addr?
    ensures |r| == |fs|
    ensures forall k {:trigger r[k]} :: 0 <= k < |fs| ==> r[k] == ExpectedOf(fs[k])
  {
    if fs == [] then [] else [ExpectedOf(fs[0])] + Expected(fs[1..])
  }

  /** The Len, MaxLen and offset a descriptor was written with are read
      back, as long as they fit their 16 and 32 bits. */
  lemma DescriptorFields(blob: seq<byte>, ofs: nat, n: nat, dataOfs: nat)
    requires ofs + 8 <= |blob| && n < TWO16 && dataOfs < TWO32
    requires blob[ofs..ofs + 8] == Descriptor(n, dataOfs)
    ensures FromLE16(blob[ofs..ofs + 2]) == n
    ensures FromLE16(blob[ofs + 2..ofs + 4]) == n
    ensures FromLE32(blob[ofs + 4..ofs + 8]) == dataOfs
  {
    var len, off := LE16(n), LE32(dataOfs);
    DescriptorParts(blob[ofs..ofs + 8], len, off);
    SliceOfSlice(blob, ofs, ofs + 8, 0, 2);
    SliceOfSlice(blob, ofs, ofs + 8, 2, 4);
    SliceOfSlice(blob, ofs, ofs + 8, 4, 8);
  }

  lemma SliceOfSlice(s: seq<byte>, a: nat, b: nat, c: nat, e: nat)
    requires a <= b <= |s| && c <= e <= b - a
    ensures s[a..b][c..e] == s[a + c..a + e]
  {
    assert forall k :: 0 <= k < e - c ==> s[a..b][c..e][k] == s[a + c + k];
  }

  /** The three fields of an 8-byte descriptor. */
  lemma DescriptorParts(d: seq<byte>, len: seq<byte>, off: seq<byte>)
    requires |len| == 2 && |off| == 4 && d == len + len + off
    ensures d[0..2] == len && d[2..4] == len && d[4..8] == off
  {
  }

  /** A descriptor Len, Len, offset written by msrpc_gen over a payload
      inside a blob shorter than 2^32 is read back as that payload. */
  lemma DescribedRoundTrip(blob: seq<byte>, f: FieldSpec, ofs: nat, p: seq<byte>, dataOfs: nat)
    requires f.PU? || f.PA? || f.PB?
    requires ofs + 8 <= |blob| < TWO32 && |p| < TWO16
    requires dataOfs + |p| <= |blob|
    requires blob[ofs..ofs + 8] == Descriptor(|p|, dataOfs)
    requires blob[dataOfs..dataOfs + |p|] == p
    requires f.PU? ==> |p| % 2 == 0
    ensures DescribedStep(blob, f, ofs) == Some((Pulled(f, p), ofs + 8))
  {
    DescriptorFields(blob, ofs, |p|, dataOfs);
    DescribedPayload(blob, f, ofs, p, dataOfs);
  }

  /** A descriptor whose fields name the payload p reads back p. */
  lemma DescribedPayload(blob: seq<byte>, f: FieldSpec, ofs: nat, p: seq<byte>, ptr: nat)
    requires f.PU? || f.PA? || f.PB?
    requires ofs + 8 <= |blob| && ptr + |p| <= |blob| < TWO32
    requires f.PU? ==> |p| % 2 == 0
    requires FromLE16(blob[ofs..ofs + 2]) == |p| && FromLE16(blob[ofs + 2..ofs + 4]) == |p|
    requires FromLE32(blob[ofs + 4..ofs + 8]) == ptr
    requires blob[ptr..ptr + |p|] == p
    ensures DescribedStep(blob, f, ofs) == Some((Pulled(f, p), ofs + 8))
  {
    if |p| == 0 {
      DescribedStepOf(blob, f, ofs, 0, ptr);
      PulledEmpty(f);
      assert p == [];
    } else {
      DescribedStepOf(blob, f, ofs, |p|, ptr);
    }
  }

  /** DescribedStep once its three descriptor fields are known. */
  lemma DescribedStepOf(blob: seq<byte>, f: FieldSpec, ofs: nat, len: nat, ptr: nat)
    requires f.PU? || f.PA? || f.PB?
    requires ofs + 8 <= |blob| && ptr + len <= |blob| < TWO32
    requires f.PU? ==> len % 2 == 0
    requires FromLE16(blob[ofs..ofs + 2]) == len && FromLE16(blob[ofs + 2..ofs + 4]) == len
    requires FromLE32(blob[ofs + 4..ofs + 8]) == ptr
    ensures len == 0 ==> DescribedStep(blob, f, ofs) == Some((EmptyOf(f), ofs + 8))
    ensures len > 0 ==> DescribedStep(blob, f, ofs) == Some((Pulled(f, blob[ptr..ptr + len]), ofs + 8))
  {
    if len > 0 {
      assert (ptr + len) % TWO32 == ptr + len;
      assert DescriptorOk(len, len, ptr, |blob|);
    }
  }

  /** An empty payload is pulled as the empty value of its kind. */
  lemma PulledEmpty(f: FieldSpec)
    requires f.PU? || f.PA? || f.PB?
    ensures Pulled(f, []) == EmptyOf(f)
  {
    match f {
      case PU => assert CStr16(FromUtf16Le([])) == [];
      case PA => assert CStr([]) == [];
      case PB =>
    }
  }

  /** A 'b' blob written inline is read back by a 'b' field of its length. */
  lemma HeadBlobRoundTrip(blob: seq<byte>, ofs: nat, b: seq<byte>)
    requires ofs + |b| <= |blob| && |b| < TWO16
    requires blob[ofs..ofs + |b|] == b
    ensures ParseStep(blob, PHeadBlob(|b|), ofs) == Some((Blob(b), ofs + |b|))
  {
  }

  /** A 'd' word written by SIVAL is read back truncated to 32 bits. */
  lemma WordRoundTrip(blob: seq<byte>, ofs: nat, word: int)
    requires ofs + 4 <= |blob|
    requires blob[ofs..ofs + 4] == LE32(word)
    ensures ParseStep(blob, PD, ofs) == Some((Word(word % TWO32), ofs + 4))
  {
  }

  /** A constant written inline with its NUL is matched by a 'C' field. */
  lemma ConstantRoundTrip(blob: seq<byte>, ofs: nat, str: seq<byte>)
    requires ofs + |CStr(str)| + 1 <= |blob|
    requires blob[ofs..ofs + |CStr(str)| + 1] == CStr(str) + [0]
    ensures ParseStep(blob, PC(str), ofs) == Some((Matched, ofs + |CStr(str)| + 1))
  {
    var s := CStr(str);
    var rest := blob[ofs..];
    var tail := blob[ofs + |s| + 1..];
    assert rest == s + [0] + tail;
    StrLenOfTerminated(s, tail);
    assert rest[..|s|] == s;
  }

  /** A generated U/A/B field is read back as its converted payload. */
  lemma DescribedAt(ps: seq<Piece>, i: nat, f: FieldSpec, p: seq<byte>)
    requires i < |ps| && |Layout(ps)| < TWO32 && |p| < TWO16
    requires ps[i] == Described(p)
    requires f.PU? || f.PA? || f.PB?
    requires f.PU? ==> |p| % 2 == 0
    ensures HeadOfs(ps, i + 1) <= |Layout(ps)|
    ensures ParseStep(Layout(ps), f, HeadOfs(ps, i)) == Some((Pulled(f, p), HeadOfs(ps, i + 1)))
  {
    var blob, ofs, d := Layout(ps), HeadOfs(ps, i), HeadSize(ps) + DataOfs(ps, i);
    HeadSlice(ps, i);
    DataSlice(ps, i);
    assert HeadOfs(ps, i + 1) == ofs + 8;
    assert blob[ofs..ofs + 8] == Descriptor(|p|, d);
    assert blob[d..d + |p|] == p;
    DescribedRoundTrip(blob, f, ofs, p, d);
  }

  /** A generated 'b' or 'C' field lies inline at its header offset. */
  lemma InlineAt(ps: seq<Piece>, i: nat, data: seq<byte>)
    requires i < |ps|
    requires ps[i] == Inline(data)
    ensures HeadOfs(ps, i) + |data| == HeadOfs(ps, i + 1) <= |Layout(ps)|
    ensures Layout(ps)[HeadOfs(ps, i) .. HeadOfs(ps, i + 1)] == data
  {
    HeadSlice(ps, i);
    DataSlice(ps, i);
  }

  /** A generated 'd' field lies at its header offset as SIVAL wrote it. */
  lemma WordAt(ps: seq<Piece>, i: nat, word: int)
    requires i < |ps|
    requires ps[i] == Word32(word)
    ensures HeadOfs(ps, i) + 4 == HeadOfs(ps, i + 1) <= |Layout(ps)|
    ensures Layout(ps)[HeadOfs(ps, i) .. HeadOfs(ps, i + 1)] == LE32(word)
  {
    HeadSlice(ps, i);
    DataSlice(ps, i);
  }

  /** Parsing one generated field at its header offset gives back its value
      and moves to the next field's header offset. */
  lemma FieldRoundTrip(fs: seq<GenField>, i: nat)
    requires Parsable(fs) && i < |fs|
    ensures HeadOfs(Pieces(fs), i + 1) <= |GenBlob(fs)|
    ensures ParseStep(GenBlob(fs), FormatOf(fs[i]), HeadOfs(Pieces(fs), i))
         == Some((ExpectedOf(fs[i]), HeadOfs(Pieces(fs), i + 1)))
  {
    PieceAt(fs, i);
    var ps := Pieces(fs);
    var blob, ofs := GenBlob(fs), HeadOfs(ps, i);
    assert blob == Layout(ps);
    match fs[i] {
      case U(units) =>
        DescribedAt(ps, i, PU, Utf16Le(CStr16(units)));
        Utf16LeRoundTrip(CStr16(units));
        CStr16Idempotent(units);
      case A(chars) =>
        DescribedAt(ps, i, PA, CStr(chars));
        CStrIdempotent(chars);
      case B(b) =>
        DescribedAt(ps, i, PB, b);
      case HeadBlob(b) =>
        InlineAt(ps, i, b);
        HeadBlobRoundTrip(blob, ofs, b);
      case D(word) =>
        WordAt(ps, i, word);
        WordRoundTrip(blob, ofs, word);
      case C(str) =>
        InlineAt(ps, i, CStr(str) + [0]);
        ConstantRoundTrip(blob, ofs, str);
    }
  }

  /** Round trip: parsing what msrpc_gen wrote, with the matching format,
      succeeds and gives back every field (strings cut at their NUL, words
      truncated to 32 bits). */
  lemma GenParseRoundTrip(fs: seq<GenField>)
    requires Parsable(fs)
    ensures ParseAll(GenBlob(fs), Formats(fs)) == Some(Expected(fs))
  {
    RoundTripFrom(fs, 0);
    assert Expected(fs)[0..] == Expected(fs);
  }

  lemma {:induction false} RoundTripFrom(fs: seq<GenField>, i: nat)
    requires Parsable(fs) && i <= |fs|
    ensures HeadOfs(Pieces(fs), i) <= |GenBlob(fs)|
    ensures ParseFrom(GenBlob(fs), Formats(fs), i, HeadOfs(Pieces(fs), i)) == Some(Expected(fs)[i..])
    decreases |fs| - i
  {
    if i < |fs| {
      var blob, fmt, ps := GenBlob(fs), Formats(fs), Pieces(fs);
      FieldRoundTrip(fs, i);
      RoundTripFrom(fs, i + 1);
      ParseFromStep(blob, fmt, i, HeadOfs(ps, i), ExpectedOf(fs[i]), HeadOfs(ps, i + 1), Expected(fs)[i + 1..]);
      assert Expected(fs)[i..] == [ExpectedOf(fs[i])] + Expected(fs)[i + 1..];
    } else {
      GenBlobLength(fs);
      assert Expected(fs)[i..] == [];
    }
  }

  /** A field that parses, followed by fields that parse, parse together. */
  lemma ParseFromStep(blob: seq<byte>, fmt: seq<FieldSpec>, i: nat, ofs: nat, v: Parsed, next: nat, rest: seq<Parsed>)
    requires i < |fmt| && ofs <= next <= |blob|
    requires ParseStep(blob, fmt[i], ofs) == Some((v, next))
    requires ParseFrom(blob, fmt, i + 1, next) == Some(rest)
    ensures ParseFrom(blob, fmt, i, ofs) == Some([v] + rest)
  {
  }

  /** An empty descriptor (Len and MaxLen both 0) yields the empty value
      whatever its offset field holds. */
  lemma EmptyDescriptorIgnoresOffset(blob: seq<byte>, f: FieldSpec, ofs: nat)
    requires f.PU? || f.PA? || f.PB?
    requires ofs + 8 <= |blob|
    requires blob[ofs..ofs + 4] == [0, 0, 0, 0]
    ensures ParseStep(blob, f, ofs) == Some((EmptyOf(f), ofs + 8))
  {
    assert blob[ofs..ofs + 2] == blob[ofs..ofs + 4][..2];
    assert blob[ofs + 2..ofs + 4] == blob[ofs..ofs + 4][2..];
  }

  /** A 'C' field succeeds only if the NUL-terminated string at the header
      offset is the expected constant. */
  lemma ConstantMatch(blob: seq<byte>, expected: seq<byte>, ofs: nat)
    requires ofs <= |blob|
    ensures ParseStep(blob, PC(expected), ofs).Some? <==> CStr(blob[ofs..]) == CStr(expected)
  {
  }
}
