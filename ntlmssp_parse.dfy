/** msrpc_parse: the strict reader of NTLMSSP messages. */
module NtlmsspParse {
  import opened Common
  import opened Ucs2

  // ---------------------------------------------------------------------
  // msrpc_parse
  // ---------------------------------------------------------------------

  /** One format letter of msrpc_parse; 'b' carries its expected length and
      'C' its expected constant.  The parser has no 'a'. */
  datatype FieldSpec = PU | PA | PB | PHeadBlob(len: nat) | PD | PC(expected: seq<byte>)

  /** What a parsed field yields. */
  datatype Parsed =
    | Str16(units: seq<u16>)
    | Str8(chars: seq<byte>)
    | Blob(bytes: seq<byte>)
    | Word(value: u32)
    | Matched

  /** The strict descriptor check: equal lengths, ptr + len1 wraps around
      neither way in 32-bit arithmetic, and ends inside the blob. */
  predicate DescriptorOk(len1: u16, len2: u16, ptr: u32, blobLen: nat)
  {
    var end := (ptr + len1) % TWO32;
    len1 == len2 && end >= ptr && end >= len1 && end <= blobLen
  }

  /** A descriptor that passes the check lies inside the blob. */
  lemma DescriptorInside(len1: u16, len2: u16, ptr: u32, blobLen: nat)
    requires DescriptorOk(len1, len2, ptr, blobLen)
    ensures ptr + len1 <= blobLen
  {
  }

  /** The value an accepted descriptor yields from its bytes: a unicode
      string up to its first NUL, an ascii string up to its NUL, or the
      blob itself. */
  function Pulled(f: FieldSpec, bytes: seq<byte>): Parsed
    requires f.PU? || f.PA? || f.PB?
    requires f.PU? ==> |bytes| % 2 == 0
  {
    match f
    case PU => Str16(CStr16(FromUtf16Le(bytes)))
    case PA => Str8(CStr(bytes))
    case PB => Blob(bytes)
  }

  function EmptyOf(f: FieldSpec): Parsed
    requires f.PU? || f.PA? || f.PB?
  {
    match f
    case PU => Str16([])
    case PA => Str8([])
    case PB => Blob([])
  }

  /** A 'U', 'A' or 'B' field: NEED_DATA(8), Len, MaxLen and offset, then
      the strict checks on a non-empty descriptor. */
  function DescribedStep(blob: seq<byte>, f: FieldSpec, ofs: nat): Option<(Parsed, nat)>
    requires ofs <= |blob|
    requires f.PU? || f.PA? || f.PB?
  {
    if ofs + 8 > |blob| then None
    else
      var len1 := FromLE16(blob[ofs..ofs + 2]);
      var len2 := FromLE16(blob[ofs + 2..ofs + 4]);
      var ptr := FromLE32(blob[ofs + 4..ofs + 8]);
      if len1 == 0 && len2 == 0 then Some((EmptyOf(f), ofs + 8))
      else if !DescriptorOk(len1, len2, ptr, |blob|) then None
      else if f.PU? && len1 % 2 == 1 then None
      else
        DescriptorInside(len1, len2, ptr, |blob|);
        Some((Pulled(f, blob[ptr..ptr + len1]), ofs + 8))
  }

  /** One field of msrpc_parse at header offset ofs: the value and the next
      header offset, or None where the C code returns false. */
  function ParseStep(blob: seq<byte>, f: FieldSpec, ofs: nat): (r: Option<(Parsed, nat)>)
    requires ofs <= |blob|
    ensures r.Some? ==> ofs <= r.value.1 <= |blob|
  {
    match f
    case PU => DescribedStep(blob, f, ofs)
    case PA => DescribedStep(blob, f, ofs)
    case PB => DescribedStep(blob, f, ofs)
    case PHeadBlob(len) =>
      var len1 := len % TWO16;
      if ofs + len1 > |blob| then None
      else Some((Blob(blob[ofs..ofs + len1]), ofs + len1))
    case PD =>
      if ofs + 4 > |blob| then None
      else Some((Word(FromLE32(blob[ofs..ofs + 4])), ofs + 4))
    case PC(expected) =>
      var rest := blob[ofs..];
      var k := StrLen(rest);
      var used := if k < |rest| then k + 1 else k;
      if CStr(expected) == rest[..k] then Some((Matched, ofs + used)) else None
  }

  /** msrpc_parse of fields i.. of a format, from header offset ofs. */
  function ParseFrom(blob: seq<byte>, fmt: seq<FieldSpec>, i: nat, ofs: nat): Option<seq<Parsed>>
    requires i <= |fmt| && ofs <= |blob|
    decreases |fmt| - i
  {
    if i == |fmt| then Some([])
    else
      match ParseStep(blob, fmt[i], ofs)
      case None => None
      case Some(step) =>
        match ParseFrom(blob, fmt, i + 1, step.1)
        case None => None
        case Some(vs) => Some([step.0] + vs)
  }

  /** msrpc_parse of a whole format. */
  function ParseAll(blob: seq<byte>, fmt: seq<FieldSpec>): Option<seq<Parsed>>
  {
    ParseFrom(blob, fmt, 0, 0)
  }

  function Prepend(vs: seq<Parsed>, r: Option<seq<Parsed>>): Option<seq<Parsed>>
  {
    match r
    case None => None
    case Some(ws) => Some(vs + ws)
  }

  /** msrpc_parse: walks the format, advancing head_ofs through the header
      and following descriptors into the payload; false on the first field
      that fails its bounds or format checks. */
  method Parse(blob: seq<byte>, fmt: seq<FieldSpec>) returns (ok: bool, values: seq<Parsed>)
    ensures ok <==> ParseAll(blob, fmt).Some?
    ensures ok ==> values == ParseAll(blob, fmt).value
  {
    var headOfs: nat := 0;
    values := [];
    var i := 0;
    assert Prepend(values, ParseFrom(blob, fmt, 0, 0)) == ParseFrom(blob, fmt, 0, 0) by {
      if ParseFrom(blob, fmt, 0, 0).Some? {
        assert [] + ParseFrom(blob, fmt, 0, 0).value == ParseFrom(blob, fmt, 0, 0).value;
      }
    }
    while i < |fmt|
      invariant 0 <= i <= |fmt| && headOfs <= |blob|
      invariant Prepend(values, ParseFrom(blob, fmt, i, headOfs)) == ParseAll(blob, fmt)
    {
      var step := ParseField(blob, fmt[i], headOfs);
      if step.None? {
        return false, values;
      }
      ghost var rest := ParseFrom(blob, fmt, i + 1, step.value.1);
      if rest.Some? {
        assert values + ([step.value.0] + rest.value) == (values + [step.value.0]) + rest.value;
      }
      values := values + [step.value.0];
      headOfs := step.value.1;
      i := i + 1;
    }
    assert values + [] == values;
    ok := true;
  }

  /** One field of msrpc_parse, in the order the C code reads and checks. */
  method ParseField(blob: seq<byte>, f: FieldSpec, headOfs: nat) returns (r: Option<(Parsed, nat)>)
    requires headOfs <= |blob|
    ensures r == ParseStep(blob, f, headOfs)
  {
    match f {
      case PU =>
        r := ParseDescribed(blob, f, headOfs);
      case PA =>
        r := ParseDescribed(blob, f, headOfs);
      case PB =>
        r := ParseDescribed(blob, f, headOfs);
      case PHeadBlob(len) =>
        var len1 := len % TWO16;
        if headOfs + len1 > |blob| {
          return None;
        }
        r := Some((Blob(blob[headOfs..headOfs + len1]), headOfs + len1));
      case PD =>
        if headOfs + 4 > |blob| {
          return None;
        }
        r := Some((Word(FromLE32(blob[headOfs..headOfs + 4])), headOfs + 4));
      case PC(expected) =>
        var rest := blob[headOfs..];
        var k := StrLen(rest);
        var used := if k < |rest| then k + 1 else k;
        if CStr(expected) != rest[..k] {
          return None;
        }
        r := Some((Matched, headOfs + used));
    }
  }

  /** The 'U', 'A' and 'B' cases of msrpc_parse. */
  method ParseDescribed(blob: seq<byte>, f: FieldSpec, headOfs: nat) returns (r: Option<(Parsed, nat)>)
    requires headOfs <= |blob|
    requires f.PU? || f.PA? || f.PB?
    ensures r == DescribedStep(blob, f, headOfs)
  {
    if headOfs + 8 > |blob| {
      return None;
    }
    var ofs := headOfs;
    var len1 := FromLE16(blob[ofs..ofs + 2]);
    ofs := ofs + 2;
    var len2 := FromLE16(blob[ofs..ofs + 2]);
    ofs := ofs + 2;
    var ptr := FromLE32(blob[ofs..ofs + 4]);
    ofs := ofs + 4;
    if len1 == 0 && len2 == 0 {
      return Some((EmptyOf(f), ofs));
    }
    if !DescriptorOk(len1, len2, ptr, |blob|) {
      return None;
    }
    if f.PU? && len1 % 2 == 1 {
      return None;
    }
    DescriptorInside(len1, len2, ptr, |blob|);
    r := Some((Pulled(f, blob[ptr..ptr + len1]), ofs));
  }

}
