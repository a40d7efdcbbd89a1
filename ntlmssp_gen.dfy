/** msrpc_gen: the two passes that build an NTLMSSP message into a freshly
    allocated buffer, proved to produce the layout of NtlmsspLayout. */
module NtlmsspGen {
  import opened Common
  import opened Ucs2
  import opened NtlmsspLayout

  /** memcpy(blob + at, src, |src|). */
  method Copy(blob: array<byte>, at: nat, src: seq<byte>)
    requires at + |src| <= blob.Length
    modifies blob
    ensures forall k :: 0 <= k < blob.Length ==>
      blob[k] == if at <= k < at + |src| then src[k - at] else old(blob[k])
  {
    var j := 0;
    while j < |src|
      invariant 0 <= j <= |src|
      invariant forall k :: 0 <= k < blob.Length ==>
        blob[k] == if at <= k < at + j then src[k - at] else old(blob[k])
    {
      blob[at + j] := src[j];
      j := j + 1;
    }
  }

  /** A copy into the header area: extends the header written so far and
      leaves the payload written so far alone. */
  method PutHead(blob: array<byte>, headOfs: nat, src: seq<byte>, headSize: nat, dataOfs: nat)
    requires headOfs + |src| <= headSize <= dataOfs <= blob.Length
    modifies blob
    ensures blob[..headOfs + |src|] == old(blob[..headOfs]) + src
    ensures blob[headSize..dataOfs] == old(blob[headSize..dataOfs])
  {
    Copy(blob, headOfs, src);
    assert blob[..headOfs + |src|] == old(blob[..headOfs]) + src;
  }

  /** A copy into the payload area: extends the payload written so far and
      leaves the header written so far alone. */
  method PutData(blob: array<byte>, dataOfs: nat, src: seq<byte>, headOfs: nat, headSize: nat)
    requires headOfs <= headSize <= dataOfs && dataOfs + |src| <= blob.Length
    modifies blob
    ensures blob[..headOfs] == old(blob[..headOfs])
    ensures blob[headSize..dataOfs + |src|] == old(blob[headSize..dataOfs]) + src
  {
    Copy(blob, dataOfs, src);
    assert blob[headSize..dataOfs + |src|] == old(blob[headSize..dataOfs]) + src;
  }

  /** Second pass for 'U', 'A' and 'B': Len, Len and the payload offset at
      head_ofs, then the payload (if any) at data_ofs. */
  method WriteDescribed(blob: array<byte>, p: seq<byte>, headOfs: nat, dataOfs: nat, headSize: nat)
      returns (newHeadOfs: nat, newDataOfs: nat)
    requires headOfs + 8 <= headSize <= dataOfs && dataOfs + |p| <= blob.Length
    modifies blob
    ensures newHeadOfs == headOfs + 8 && newDataOfs == dataOfs + |p|
    ensures blob[..newHeadOfs] == old(blob[..headOfs]) + Descriptor(|p|, dataOfs)
    ensures blob[headSize..newDataOfs] == old(blob[headSize..dataOfs]) + p
  {
    var n := |p|;
    newHeadOfs := headOfs;
    PutHead(blob, newHeadOfs, LE16(n), headSize, dataOfs);
    newHeadOfs := newHeadOfs + 2;
    PutHead(blob, newHeadOfs, LE16(n), headSize, dataOfs);
    newHeadOfs := newHeadOfs + 2;
    PutHead(blob, newHeadOfs, LE32(dataOfs), headSize, dataOfs);
    newHeadOfs := newHeadOfs + 4;
    if n > 0 {
      PutData(blob, dataOfs, p, newHeadOfs, headSize);
    } else {
      assert blob[headSize..dataOfs + n] == old(blob[headSize..dataOfs]) + p;
    }
    newDataOfs := dataOfs + n;
  }

  /** Second pass for 'a': the type word, the length and the string, all
      at data_ofs. */
  method WriteTyped(blob: array<byte>, kind: int, p: seq<byte>, headOfs: nat, dataOfs: nat, headSize: nat)
      returns (newDataOfs: nat)
    requires headOfs <= headSize <= dataOfs && dataOfs + 4 + |p| <= blob.Length
    modifies blob
    ensures newDataOfs == dataOfs + 4 + |p|
    ensures blob[..headOfs] == old(blob[..headOfs])
    ensures blob[headSize..newDataOfs] == old(blob[headSize..dataOfs]) + (LE16(kind) + LE16(|p|) + p)
  {
    var n := |p|;
    newDataOfs := dataOfs;
    PutData(blob, newDataOfs, LE16(kind), headOfs, headSize);
    newDataOfs := newDataOfs + 2;
    PutData(blob, newDataOfs, LE16(n), headOfs, headSize);
    newDataOfs := newDataOfs + 2;
    PutData(blob, newDataOfs, p, headOfs, headSize);
    newDataOfs := newDataOfs + n;
  }

  /** push_ucs2_talloc of a unix string, with the 2-byte terminator it
      counts dropped again. */
  method UnicodeArg(units: seq<u16>) returns (p: seq<byte>)
    ensures p == Utf16Le(CStr16(units))
  {
    var n := Utf16Le(CStr16(units) + [0]);
    Utf16LeAppend(CStr16(units), [0]);
    p := n[..|n| - 2];
  }

  /** The first pass for one field: convert and record what to copy. */
  method FirstPass(f: GenField) returns (p: Piece)
    ensures p == PieceOf(f)
  {
    match f {
      case U(units) =>
        var data := UnicodeArg(units);
        p := Described(data);
      case A(chars) =>
        var n := CStr(chars) + [0];
        p := Described(n[..|n| - 1]);
      case Addr(kind, units) =>
        var data := UnicodeArg(units);
        p := Typed(kind, data);
      case B(blob) =>
        p := Described(blob);
      case HeadBlob(blob) =>
        p := Inline(blob);
      case D(word) =>
        p := Word32(word);
      case C(s) =>
        p := Inline(CStr(s) + [0]);
    }
  }

  /** The second pass for one field: its header bytes at head_ofs and its
      payload bytes at data_ofs. */
  method WriteField(blob: array<byte>, p: Piece, headOfs: nat, dataOfs: nat, headSize: nat)
      returns (newHeadOfs: nat, newDataOfs: nat)
    requires headOfs + HeadLen(p) <= headSize <= dataOfs && dataOfs + DataLen(p) <= blob.Length
    modifies blob
    ensures newHeadOfs == headOfs + HeadLen(p) && newDataOfs == dataOfs + DataLen(p)
    ensures blob[..newHeadOfs] == old(blob[..headOfs]) + HeadBytes(p, dataOfs)
    ensures blob[headSize..newDataOfs] == old(blob[headSize..dataOfs]) + DataBytes(p)
  {
    match p {
      case Described(data) =>
        newHeadOfs, newDataOfs := WriteDescribed(blob, data, headOfs, dataOfs, headSize);
      case Typed(kind, data) =>
        newDataOfs := WriteTyped(blob, kind, data, headOfs, dataOfs, headSize);
        newHeadOfs := headOfs;
      case Word32(word) =>
        PutHead(blob, headOfs, LE32(word), headSize, dataOfs);
        newHeadOfs, newDataOfs := headOfs + 4, dataOfs;
        assert blob[headSize..newDataOfs] == old(blob[headSize..dataOfs]) + [];
      case Inline(data) =>
        PutHead(blob, headOfs, data, headSize, dataOfs);
        newHeadOfs, newDataOfs := headOfs + |data|, dataOfs;
        assert blob[headSize..newDataOfs] == old(blob[headSize..dataOfs]) + [];
    }
  }

  /** The first pass over the whole format: every field converted, and the
      header and payload sizes summed. */
  method FirstPasses(fields: seq<GenField>) returns (pieces: seq<Piece>, headSize: nat, dataSize: nat)
    ensures pieces == Pieces(fields)
    ensures headSize == HeadSize(pieces) && dataSize == DataSize(pieces)
  {
    pieces := [];
    headSize, dataSize := 0, 0;
    var i := 0;
    while i < |fields|
      invariant 0 <= i <= |fields|
      invariant pieces == Pieces(fields[..i])
      invariant headSize == HeadOfs(pieces, i)
      invariant dataSize == DataOfs(pieces, i)
    {
      var p := FirstPass(fields[i]);
      headSize := headSize + HeadLen(p);
      dataSize := dataSize + DataLen(p);
      ghost var before := pieces;
      pieces := pieces + [p];
      HeadOfsPrefix(before, pieces, i);
      assert fields[..i + 1][..i] == fields[..i];
      i := i + 1;
    }
    assert fields[..i] == fields;
  }

  /** One iteration of the second pass: field i's header bytes extend the
      header area written so far, its payload bytes the payload area. */
  method WriteNext(blob: array<byte>, pieces: seq<Piece>, i: nat, headSize: nat, headOfs: nat, dataOfs: nat)
      returns (newHeadOfs: nat, newDataOfs: nat)
    requires i < |pieces| && headSize == HeadSize(pieces) && blob.Length == headSize + DataSize(pieces)
    requires headOfs == HeadOfs(pieces, i) && dataOfs == headSize + DataOfs(pieces, i)
    requires headOfs <= headSize <= dataOfs <= blob.Length
    requires blob[..headOfs] == Concat(HeadParts(pieces, headSize, i))
    requires blob[headSize..dataOfs] == Concat(DataParts(pieces, i))
    modifies blob
    ensures newHeadOfs == HeadOfs(pieces, i + 1) && newDataOfs == headSize + DataOfs(pieces, i + 1)
    ensures newHeadOfs <= headSize <= newDataOfs <= blob.Length
    ensures blob[..newHeadOfs] == Concat(HeadParts(pieces, headSize, i + 1))
    ensures blob[headSize..newDataOfs] == Concat(DataParts(pieces, i + 1))
  {
    OffsetsMonotone(pieces, i + 1, |pieces|);
    HeadStep(pieces, headSize, i);
    DataStep(pieces, i);
    newHeadOfs, newDataOfs := WriteField(blob, pieces[i], headOfs, dataOfs, headSize);
  }

  /** The second pass over the whole format into a buffer of
      head_size + data_size bytes. */
  method SecondPass(blob: array<byte>, pieces: seq<Piece>, headSize: nat)
    requires headSize == HeadSize(pieces) && blob.Length == headSize + DataSize(pieces)
    modifies blob
    ensures blob[..] == Layout(pieces)
  {
    var headOfs, dataOfs := 0, headSize;
    var i := 0;
    while i < |pieces|
      invariant 0 <= i <= |pieces|
      invariant headOfs == HeadOfs(pieces, i)
      invariant dataOfs == headSize + DataOfs(pieces, i)
      invariant headOfs <= headSize <= dataOfs <= blob.Length
      invariant blob[..headOfs] == Concat(HeadParts(pieces, headSize, i))
      invariant blob[headSize..dataOfs] == Concat(DataParts(pieces, i))
    {
      headOfs, dataOfs := WriteNext(blob, pieces, i, headSize, headOfs, dataOfs);
      i := i + 1;
    }
    assert blob[..] == blob[..headSize] + blob[headSize..];
  }

  /** msrpc_gen: a first pass converts the arguments and sizes the header
      and payload areas, a second pass writes each field's header bytes at
      head_ofs and its payload at data_ofs, both running forward. */
  method Gen(fields: seq<GenField>) returns (blob: array<byte>)
    ensures fresh(blob)
    ensures blob[..] == GenBlob(fields)
  {
    var pieces, headSize, dataSize := FirstPasses(fields);
    blob := new byte[headSize + dataSize];
    SecondPass(blob, pieces, headSize);
  }

  /** Offsets of a prefix do not depend on what follows it. */
  lemma {:induction false} HeadOfsPrefix(a: seq<Piece>, b: seq<Piece>, n: nat)
    requires n <= |a| <= |b| && a == b[..|a|]
    ensures HeadOfs(a, n) == HeadOfs(b, n) && DataOfs(a, n) == DataOfs(b, n)
    decreases n
  {
    if n > 0 {
      HeadOfsPrefix(a, b, n - 1);
      assert a[n - 1] == b[n - 1];
    }
  }

}
