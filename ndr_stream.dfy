/** The NDR push/pull buffers and the compression routines that move
    through them: ndr_push_compression_*_chunk and ndr_pull_compression_*_chunk
    advance the offsets chunk by chunk, and the MSZIP/XPRESS pushes write a
    placeholder for the compressed size and backpatch it afterwards.  Each
    routine is proved to produce what the functions of NdrCompression
    describe. */
module NdrStream {
  import opened Common
  import opened NdrCompression

  /** `d` with `bs` written from `pos` on, growing it where `bs` runs past
      its end. */
  function Overwrite(d: seq<byte>, pos: nat, bs: seq<byte>): (r: seq<byte>)
    requires pos <= |d|
    ensures |r| == if pos + |bs| <= |d| then |d| else pos + |bs|
    ensures r[..pos] == d[..pos]
    ensures r[pos..pos + |bs|] == bs
    ensures pos + |bs| <= |d| ==> r[pos + |bs|..] == d[pos + |bs|..]
  {
    var r := d[..pos] + bs + (if pos + |bs| <= |d| then d[pos + |bs|..] else []);
    assert r[pos..pos + |bs|] == bs;
    r
  }

  /** struct ndr_pull: the data being read and the read offset. */
  class NdrPull {
    const data: seq<byte>
    var offset: nat

    predicate Valid()
      reads this
    {
      offset <= |data|
    }

    /** The bytes not read yet. */
    function Rest(): seq<byte>
      reads this
      requires Valid()
    {
      data[offset..]
    }

    constructor (data: seq<byte>)
      ensures this.data == data && offset == 0 && Valid()
    {
      this.data := data;
      offset := 0;
    }

    /** ndr_pull_uint32: four little-endian bytes, or NDR_ERR_BUFSIZE. */
    method PullUint32() returns (r: Result<u32, NdrErr>)
      requires Valid()
      modifies this
      ensures Valid()
      ensures |old(Rest())| < 4 ==> r == Err(BufSize)
      ensures |old(Rest())| >= 4 ==>
        r == Ok(FromLE32(old(Rest())[..4])) && offset == old(offset) + 4 && Rest() == old(Rest())[4..]
    {
      if |data| - offset < 4 {
        return Err(BufSize);
      }
      r := Ok(FromLE32(data[offset..offset + 4]));
      offset := offset + 4;
    }

    /** ndr_pull_advance: skip n bytes, or NDR_ERR_BUFSIZE when fewer are
        left. */
    method Advance(n: nat) returns (ok: bool)
      requires Valid()
      modifies this
      ensures Valid()
      ensures ok <==> n <= |old(Rest())|
      ensures ok ==> offset == old(offset) + n && Rest() == old(Rest())[n..]
      ensures !ok ==> offset == old(offset)
    {
      if |data| - offset < n {
        return false;
      }
      offset := offset + n;
      return true;
    }
  }

  /** struct ndr_push: the buffer and the write offset; the bytes pushed
      so far are the buffer up to the offset (ndr_push_blob). */
  class NdrPush {
    var data: seq<byte>
    var offset: nat

    predicate Valid()
      reads this
    {
      offset <= |data|
    }

    function Blob(): seq<byte>
      reads this
      requires Valid()
    {
      data[..offset]
    }

    /** ndr_push_init_ctx: an empty buffer. */
    constructor ()
      ensures data == [] && offset == 0 && Valid()
    {
      data := [];
      offset := 0;
    }

    /** Fills the buffer from `pos` on without moving the offset, as the
        compressors do when they write into the expanded buffer. */
    method WriteAt(pos: nat, bs: seq<byte>)
      requires Valid() && pos <= |data|
      modifies this
      ensures Valid() && offset == old(offset)
      ensures data == Overwrite(old(data), pos, bs)
    {
      data := Overwrite(data, pos, bs);
    }

    /** Writes bs over the last |bs| bytes pushed, as a decompressor does
        into the plain chunk that ndr_push_zero reserved. */
    method Fill(pos: nat, bs: seq<byte>)
      requires Valid() && pos + |bs| == offset
      modifies this
      ensures Valid() && offset == old(offset)
      ensures Blob() == old(Blob())[..pos] + bs
    {
      data := Overwrite(data, pos, bs);
      assert data[..offset] == data[..pos] + data[pos..offset];
    }

    /** ndr_push_uint32: four little-endian bytes at the offset. */
    method PushUint32(v: u32)
      requires Valid()
      modifies this
      ensures Valid()
      ensures data == Overwrite(old(data), old(offset), LE32(v))
      ensures offset == old(offset) + 4
      ensures Blob() == old(Blob()) + LE32(v)
    {
      data := Overwrite(data, offset, LE32(v));
      offset := offset + 4;
    }

    /** ndr_push_zero: n zero bytes at the offset. */
    method PushZero(n: nat)
      requires Valid()
      modifies this
      ensures Valid()
      ensures offset == old(offset) + n
      ensures Blob() == old(Blob()) + seq(n, _ => 0)
    {
      data := Overwrite(data, offset, seq(n, _ => 0));
      offset := offset + n;
    }
  }

  /** struct ndr_compression_state: the algorithm and, for MSZIP-CAB, the
      dictionary carried from one CFDATA block to the next. */
  class CompressionState {
    const alg: Alg
    var dict: seq<byte>

    constructor (alg: Alg)
      ensures this.alg == alg && dict == []
    {
      this.alg := alg;
      dict := [];
    }
  }

  /** Three consecutive slices make up the prefix that ends with the last. */
  lemma Slices3(s: seq<byte>, a: nat, b: nat, c: nat, x: seq<byte>, y: seq<byte>, z: seq<byte>)
    requires a <= b <= c <= |s|
    requires s[..a] == x && s[a..b] == y && s[b..c] == z
    ensures s[..c] == x + y + z
  {
    assert s[..c] == s[..a] + s[a..b] + s[b..c];
  }

  // ---------------------------------------------------------------------
  // The chunk header: plain size, then a placeholder backpatched with the
  // compressed size
  // ---------------------------------------------------------------------

  /** Pushes the plain size and SizePlaceholder; returns the offset of the
      placeholder (comp_chunk_size_offset). */
  method PushFrameHeader(push: NdrPush, plainSize: u32) returns (sizeOfs: nat)
    requires push.Valid()
    modifies push
    ensures push.Valid()
    ensures sizeOfs == old(push.offset) + 4 && push.offset == sizeOfs + 4
    ensures push.Blob() == old(push.Blob()) + LE32(plainSize) + LE32(SizePlaceholder)
  {
    push.PushUint32(plainSize);
    sizeOfs := push.offset;
    push.PushUint32(SizePlaceholder);
  }

  /** The buffer after the body is written behind a header and the size
      word is overwritten: the header's first word, the new size word and
      the body, in that order. */
  lemma BackpatchLayout(d0: seq<byte>, sizeOfs: nat, before: seq<byte>,
                        first: seq<byte>, placeholder: seq<byte>, size: seq<byte>, body: seq<byte>)
    requires |first| == 4 && |placeholder| == 4 && |size| == 4
    requires sizeOfs == |before| + 4 && sizeOfs + 4 <= |d0|
    requires d0[..sizeOfs + 4] == before + first + placeholder
    ensures var d2 := Overwrite(Overwrite(d0, sizeOfs + 4, body), sizeOfs, size);
      |d2| >= sizeOfs + 4 + |body| && d2[..sizeOfs + 4 + |body|] == before + first + size + body
  {
    var d1 := Overwrite(d0, sizeOfs + 4, body);
    var d2 := Overwrite(d1, sizeOfs, size);
    assert d1[..sizeOfs] == d0[..sizeOfs] == before + first by {
      assert d0[..sizeOfs] == d0[..sizeOfs + 4][..sizeOfs];
    }
    assert d2[sizeOfs + 4..sizeOfs + 4 + |body|] == body by {
      assert d2[sizeOfs + 4..] == d1[sizeOfs + 4..];
    }
    Slices3(d2, sizeOfs, sizeOfs + 4, sizeOfs + 4 + |body|, before + first, size, body);
  }

  /** Writes the compressed body after the header, moves the offset back
      to the placeholder to push the real size, restores it and steps over
      the body. */
  method PushFrameBody(push: NdrPush, sizeOfs: nat, plainSize: u32, body: seq<byte>, ghost before: seq<byte>)
    requires push.Valid() && |body| < TWO32
    requires sizeOfs == |before| + 4 && push.offset == sizeOfs + 4
    requires push.Blob() == before + LE32(plainSize) + LE32(SizePlaceholder)
    modifies push
    ensures push.Valid()
    ensures push.Blob() == before + Frame(plainSize, body)
  {
    ghost var d0 := push.data;
    push.WriteAt(push.offset, body);
    var tmpOffset := push.offset;
    push.offset := sizeOfs;
    push.PushUint32(|body|);
    push.offset := tmpOffset;
    BackpatchLayout(d0, sizeOfs, before, LE32(plainSize), LE32(SizePlaceholder), LE32(|body|), body);
    push.offset := push.offset + |body|;
  }

  // ---------------------------------------------------------------------
  // Push chunks
  // ---------------------------------------------------------------------

  /** ndr_push_compression_mszip_chunk. */
  method PushMszipChunk(push: NdrPush, pull: NdrPull,
                        deflate: (seq<byte>, seq<byte>) -> Option<seq<byte>>,
                        dict: seq<byte>) returns (r: Result<Step, NdrErr>)
    requires push.Valid() && pull.Valid()
    modifies push, pull
    ensures push.Valid() && pull.Valid()
    ensures r == MszipPushChunk(deflate, old(pull.Rest()), dict)
    ensures r.Ok? ==> pull.Rest() == old(pull.Rest())[r.value.used..]
    ensures r.Ok? ==> push.Blob() == old(push.Blob()) + r.value.out
  {
    ghost var rest := pull.Rest();
    var n := Min(MszipMaxPlain, |pull.data| - pull.offset);
    var plainOfs := pull.offset;
    var _ := pull.Advance(n);
    var plain := pull.data[plainOfs..plainOfs + n];
    assert plain == rest[..n];
    ghost var before := push.Blob();
    var sizeOfs := PushFrameHeader(push, n);
    var comp := deflate(dict, plain);
    if comp.None? {
      return Err(Compression);
    }
    var c := comp.value;
    if |c| > MszipMaxComp {
      return Err(Compression);
    }
    PushFrameBody(push, sizeOfs, n, CK + c, before);
    r := Ok(Step(Frame(n, CK + c), n, n < MszipMaxPlain));
  }

  /** ndr_push_compression_xpress_chunk. */
  method PushXpressChunk(push: NdrPush, pull: NdrPull,
                         compress: seq<byte> -> Option<seq<byte>>) returns (r: Result<Step, NdrErr>)
    requires push.Valid() && pull.Valid()
    modifies push, pull
    ensures push.Valid() && pull.Valid()
    ensures r == XpressPushChunk(compress, old(pull.Rest()))
    ensures r.Ok? ==> pull.Rest() == old(pull.Rest())[r.value.used..]
    ensures r.Ok? ==> push.Blob() == old(push.Blob()) + r.value.out
  {
    ghost var rest := pull.Rest();
    var n := Min(XpressMaxPlain, |pull.data| - pull.offset);
    var plainOfs := pull.offset;
    var _ := pull.Advance(n);
    var plain := pull.data[plainOfs..plainOfs + n];
    assert plain == rest[..n];
    ghost var before := push.Blob();
    var sizeOfs := PushFrameHeader(push, n);
    var comp := compress(plain);
    if comp.None? {
      return Err(Compression);
    }
    var c := comp.value;
    if |c| > XpressMaxComp {
      return Err(Compression);
    }
    PushFrameBody(push, sizeOfs, n, c, before);
    r := Ok(Step(Frame(n, c), n, n < XpressMaxPlain));
  }

  /** ndr_push_compression_mszip_cab_chunk: compresses with the state's
      dictionary and keeps a copy of the input as the next one. */
  method PushCabChunk(push: NdrPush, pull: NdrPull, state: CompressionState,
                      deflate: (seq<byte>, seq<byte>) -> Option<seq<byte>>) returns (r: Result<Step, NdrErr>)
    requires push.Valid() && pull.Valid()
    modifies push, pull, state
    ensures push.Valid() && pull.Valid()
    ensures r == CabPushChunk(deflate, old(pull.Rest()), old(state.dict))
    ensures r.Ok? ==> pull.Rest() == old(pull.Rest())[r.value.used..]
    ensures r.Ok? ==> push.Blob() == old(push.Blob()) + r.value.out
    ensures r.Ok? ==> state.dict == old(pull.Rest())[..r.value.used]
  {
    ghost var rest := pull.Rest();
    if |pull.data| <= pull.offset {
      return Err(Compression);
    }
    var n := Min(MszipMaxPlain, |pull.data| - pull.offset);
    var plainOfs := pull.offset;
    var _ := pull.Advance(n);
    var plain := pull.data[plainOfs..plainOfs + n];
    assert plain == rest[..n];
    var comp := deflate(state.dict, plain);
    if comp.None? {
      return Err(Compression);
    }
    var c := comp.value;
    if |c| > MszipMaxComp {
      return Err(Compression);
    }
    push.WriteAt(push.offset, CK + c);
    state.dict := plain;
    push.offset := push.offset + |CK + c|;
    r := Ok(Step(CK + c, n, true));
  }

  // ---------------------------------------------------------------------
  // Pull chunks
  // ---------------------------------------------------------------------

  /** Reads the two 32-bit sizes of an MSZIP/XPRESS chunk header and steps
      over the compressed body; gives the plain size and the body. */
  method PullFrame(pull: NdrPull, maxPlain: nat) returns (r: Result<(nat, seq<byte>), NdrErr>)
    requires pull.Valid()
    modifies pull
    ensures pull.Valid()
    ensures r == ReadFrame(old(pull.Rest()), maxPlain)
    ensures r.Ok? ==> pull.Rest() == old(pull.Rest())[8 + |r.value.1|..]
  {
    ghost var rest := pull.Rest();
    var plainSize := pull.PullUint32();
    if plainSize.Err? {
      return Err(plainSize.error);
    }
    if plainSize.value > maxPlain {
      return Err(Compression);
    }
    ghost var rest4 := pull.Rest();
    var compSize := pull.PullUint32();
    if compSize.Err? {
      return Err(compSize.error);
    }
    assert rest4[..4] == rest[4..8];
    var compOfs := pull.offset;
    var ok := pull.Advance(compSize.value);
    if !ok {
      return Err(BufSize);
    }
    var comp := pull.data[compOfs..compOfs + compSize.value];
    assert comp == rest[8..8 + compSize.value];
    assert pull.Rest() == rest[8 + compSize.value..];
    r := Ok((plainSize.value as nat, comp));
  }

  /** ndr_pull_compression_mszip_chunk: inflates one chunk into the push
      buffer. */
  method PullMszipChunk(pull: NdrPull, push: NdrPush,
                        inflate: (seq<byte>, seq<byte>) -> Option<seq<byte>>,
                        dict: seq<byte>) returns (r: Result<Step, NdrErr>)
    requires push.Valid() && pull.Valid()
    modifies push, pull
    ensures push.Valid() && pull.Valid()
    ensures r == MszipPullChunk(inflate, old(pull.Rest()), dict)
    ensures r.Ok? ==> pull.Rest() == old(pull.Rest())[r.value.used..]
    ensures r.Ok? ==> push.Blob() == old(push.Blob()) + r.value.out
  {
    var frame := PullFrame(pull, MszipMaxPlain);
    if frame.Err? {
      return Err(frame.error);
    }
    var (plainSize, comp) := frame.value;
    var plainOfs := push.offset;
    ghost var before := push.Blob();
    push.PushZero(plainSize);
    if |comp| < 2 {
      return Err(Compression);
    }
    if comp[..2] != CK {
      return Err(Compression);
    }
    var out := inflate(dict, comp[2..]);
    if out.None? || |out.value| != plainSize {
      return Err(Compression);
    }
    push.Fill(plainOfs, out.value);
    assert (before + seq(plainSize, _ => 0))[..plainOfs] == before;
    var last := plainSize < MszipMaxPlain || pull.offset + 4 >= |pull.data|;
    r := Ok(Step(out.value, 8 + |comp|, last));
  }

  /** ndr_pull_compression_xpress_chunk: decompresses one chunk into a
      zeroed buffer of the announced size. */
  method PullXpressChunk(pull: NdrPull, push: NdrPush,
                         decompress: (seq<byte>, nat) -> Option<seq<byte>>) returns (r: Result<Step, NdrErr>)
    requires push.Valid() && pull.Valid()
    modifies push, pull
    ensures push.Valid() && pull.Valid()
    ensures r == XpressPullChunk(decompress, old(pull.Rest()))
    ensures r.Ok? ==> pull.Rest() == old(pull.Rest())[r.value.used..]
    ensures r.Ok? ==> push.Blob() == old(push.Blob()) + r.value.out
  {
    var frame := PullFrame(pull, XpressMaxPlain);
    if frame.Err? {
      return Err(frame.error);
    }
    var (plainSize, comp) := frame.value;
    var plainOfs := push.offset;
    ghost var before := push.Blob();
    push.PushZero(plainSize);
    var out := decompress(comp, plainSize);
    if out.None? {
      return Err(Compression);
    }
    var written := Written(out.value, plainSize);
    push.Fill(plainOfs, written);
    assert (before + seq(plainSize, _ => 0))[..plainOfs] == before;
    var last := plainSize < XpressMaxPlain || pull.offset + 4 >= |pull.data|;
    r := Ok(Step(written, 8 + |comp|, last));
  }

  /** ndr_pull_compression_mszip_cab_chunk: inflates one CFDATA payload
      with the state's dictionary and keeps the output as the next one. */
  method PullCabChunk(pull: NdrPull, push: NdrPush, state: CompressionState,
                      inflate: (seq<byte>, seq<byte>) -> Option<seq<byte>>,
                      decompressedLen: int, compressedLen: int) returns (r: Result<Step, NdrErr>)
    requires push.Valid() && pull.Valid()
    modifies push, pull, state
    ensures push.Valid() && pull.Valid()
    ensures r == CabPullChunk(inflate, old(pull.Rest()), old(state.dict), decompressedLen, compressedLen)
    ensures r.Ok? ==> pull.Rest() == old(pull.Rest())[r.value.used..]
    ensures r.Ok? ==> push.Blob() == old(push.Blob()) + r.value.out
    ensures r.Ok? ==> state.dict == r.value.out
  {
    ghost var rest := pull.Rest();
    var plainSize := decompressedLen % TWO32;
    if plainSize > MszipMaxPlain {
      return Err(Compression);
    }
    var compSize := compressedLen % TWO32;
    var compOfs := pull.offset;
    var ok := pull.Advance(compSize);
    if !ok {
      return Err(BufSize);
    }
    var comp := pull.data[compOfs..compOfs + compSize];
    assert comp == rest[..compSize];
    var plainOfs := push.offset;
    ghost var before := push.Blob();
    push.PushZero(plainSize);
    if |comp| < 2 {
      return Err(Compression);
    }
    if comp[..2] != CK {
      return Err(Compression);
    }
    var out := inflate(state.dict, comp[2..]);
    if out.None? || |out.value| != plainSize {
      return Err(Compression);
    }
    push.Fill(plainOfs, out.value);
    assert (before + seq(plainSize, _ => 0))[..plainOfs] == before;
    state.dict := out.value;
    r := Ok(Step(out.value, compSize, true));
  }

  // ---------------------------------------------------------------------
  // The chunk loops and the subcontext start/end
  // ---------------------------------------------------------------------

  /** One chunk of the pull loop, by algorithm. */
  method PullChunkStep(pull: NdrPull, push: NdrPush, codec: Codec, alg: Alg, dict: seq<byte>,
                       ghost target: Result<seq<byte>, NdrErr>, ghost acc: seq<byte>)
    returns (r: Result<Step, NdrErr>)
    requires pull.Valid() && push.Valid() && Chunked(alg)
    requires target == Then(acc, PullChunks(codec, alg, pull.Rest(), dict))
    modifies pull, push
    ensures pull.Valid() && push.Valid()
    ensures r.Err? ==> target == Err(r.error)
    ensures r.Ok? ==> r.value.used <= |old(pull.Rest())| && (r.value.last || r.value.used > 0)
    ensures r.Ok? ==> pull.Rest() == old(pull.Rest())[r.value.used..]
    ensures r.Ok? ==> push.Blob() == old(push.Blob()) + r.value.out
    ensures r.Ok? ==> (target ==
      Then(acc + r.value.out, if r.value.last then Ok([]) else PullChunks(codec, alg, pull.Rest(), r.value.out)))
  {
    ghost var rest := pull.Rest();
    if alg.Mszip? {
      r := PullMszipChunk(pull, push, codec.inflate, dict);
    } else {
      r := PullXpressChunk(pull, push, codec.decompress);
    }
    assert r == PullChunk(codec, alg, rest, dict);
    if r.Ok? {
      PullLoopStep(codec, alg, target, acc, rest, dict, r.value);
    }
  }

  /** One chunk of the push loop, by algorithm. */
  method PushChunkStep(push: NdrPush, pull: NdrPull, codec: Codec, alg: Alg, dict: seq<byte>,
                       ghost target: Result<seq<byte>, NdrErr>, ghost acc: seq<byte>)
    returns (r: Result<Step, NdrErr>)
    requires pull.Valid() && push.Valid() && Chunked(alg)
    requires target == Then(acc, PushChunks(codec, alg, pull.Rest(), dict))
    modifies pull, push
    ensures pull.Valid() && push.Valid()
    ensures r.Err? ==> target == Err(r.error)
    ensures r.Ok? ==> r.value.used <= |old(pull.Rest())| && (r.value.last || r.value.used > 0)
    ensures r.Ok? ==> pull.Rest() == old(pull.Rest())[r.value.used..]
    ensures r.Ok? ==> push.Blob() == old(push.Blob()) + r.value.out
    ensures r.Ok? ==> (target ==
      Then(acc + r.value.out, if r.value.last then Ok([])
           else PushChunks(codec, alg, pull.Rest(), old(pull.Rest())[..r.value.used])))
  {
    ghost var rest := pull.Rest();
    if alg.Mszip? {
      r := PushMszipChunk(push, pull, codec.deflate, dict);
    } else {
      r := PushXpressChunk(push, pull, codec.compress);
    }
    assert r == PushChunk(codec, alg, rest, dict);
    if r.Ok? {
      PushLoopStep(codec, alg, target, acc, rest, dict, r.value);
    }
  }

  /** The `while (!last)` loop of ndr_pull_compression_start for MSZIP and
      XPRESS: chunks are read and decompressed until one is marked last. */
  method PullChunkLoop(pull: NdrPull, push: NdrPush, codec: Codec, alg: Alg) returns (r: Result<seq<byte>, NdrErr>)
    requires pull.Valid() && push.Valid() && Chunked(alg)
    modifies pull, push
    ensures pull.Valid() && push.Valid()
    ensures r == PullChunks(codec, alg, old(pull.Rest()), [])
    ensures r.Ok? ==> push.Blob() == old(push.Blob()) + r.value
  {
    ghost var target := PullChunks(codec, alg, pull.Rest(), []);
    ghost var start := push.Blob();
    var last := false;
    var dict: seq<byte> := [];
    var acc: seq<byte> := [];
    ThenNothing(target);
    while !last
      invariant pull.Valid() && push.Valid()
      invariant push.Blob() == start + acc
      invariant target ==
        Then(acc, if last then Ok([]) else PullChunks(codec, alg, pull.Rest(), dict))
      decreases |pull.data| - pull.offset + (if last then 0 else 1)
    {
      ghost var rest := pull.Rest();
      var step := PullChunkStep(pull, push, codec, alg, dict, target, acc);
      if step.Err? {
        return Err(step.error);
      }
      acc := acc + step.value.out;
      last := step.value.last;
      dict := step.value.out;
    }
    assert acc + [] == acc;
    r := Ok(acc);
  }

  /** The `while (!last)` loop of ndr_push_compression_end for MSZIP and
      XPRESS: chunks are compressed and pushed until one is marked last;
      MSZIP uses each chunk's input as the next chunk's dictionary. */
  method PushChunkLoop(push: NdrPush, pull: NdrPull, codec: Codec, alg: Alg) returns (r: Result<seq<byte>, NdrErr>)
    requires pull.Valid() && push.Valid() && Chunked(alg)
    modifies pull, push
    ensures pull.Valid() && push.Valid()
    ensures r == PushChunks(codec, alg, old(pull.Rest()), [])
    ensures r.Ok? ==> push.Blob() == old(push.Blob()) + r.value
  {
    ghost var target := PushChunks(codec, alg, pull.Rest(), []);
    ghost var start := push.Blob();
    var last := false;
    var dict: seq<byte> := [];
    var acc: seq<byte> := [];
    ThenNothing(target);
    while !last
      invariant pull.Valid() && push.Valid()
      invariant push.Blob() == start + acc
      invariant target ==
        Then(acc, if last then Ok([]) else PushChunks(codec, alg, pull.Rest(), dict))
      decreases |pull.data| - pull.offset + (if last then 0 else 1)
    {
      ghost var rest := pull.Rest();
      var plainOfs := pull.offset;
      var step := PushChunkStep(push, pull, codec, alg, dict, target, acc);
      if step.Err? {
        return Err(step.error);
      }
      var plain := pull.data[plainOfs..plainOfs + step.value.used];
      assert plain == rest[..step.value.used];
      acc := acc + step.value.out;
      last := step.value.last;
      dict := plain;
    }
    assert acc + [] == acc;
    r := Ok(acc);
  }

  /** ndr_pull_compression_start: decompresses the rest of `subndr` into a
      new pull buffer positioned at its start. */
  method PullCompressionStart(subndr: NdrPull, alg: Alg, state: CompressionState?, codec: Codec,
                              decompressedLen: int, compressedLen: int) returns (r: Result<NdrPull, NdrErr>)
    requires subndr.Valid()
    requires alg.MszipCab? ==> state != null
    modifies subndr, state
    ensures subndr.Valid()
    ensures var spec := PullStart(codec, alg, old(subndr.Rest()), if state == null then [] else old(state.dict),
                                  decompressedLen, compressedLen);
      && (r.Ok? <==> spec.Ok?)
      && (r.Err? ==> r.error == spec.error)
      && (r.Ok? ==> fresh(r.value) && r.value.data == spec.value.0 && r.value.offset == 0)
      && (r.Ok? && alg.MszipCab? ==> state.dict == spec.value.1)
  {
    var ndrpush := new NdrPush();
    match alg {
      case OtherAlg(_) =>
        return Err(Compression);
      case MszipCab =>
        var step := PullCabChunk(subndr, ndrpush, state, codec.inflate, decompressedLen, compressedLen);
        if step.Err? {
          return Err(step.error);
        }
      case _ =>
        var out := PullChunkLoop(subndr, ndrpush, codec, alg);
        if out.Err? {
          return Err(out.error);
        }
    }
    var uncompressed := ndrpush.Blob();
    if |uncompressed| != decompressedLen {
      return Err(Compression);
    }
    var comndr := new NdrPull(uncompressed);
    r := Ok(comndr);
  }

  /** ndr_push_compression_start: refuses an unknown algorithm, otherwise
      gives a new empty push buffer for the uncompressed data. */
  method PushCompressionStart(alg: Alg) returns (r: Result<NdrPush, NdrErr>)
    ensures r.Ok? <==> Known(alg)
    ensures r.Err? ==> r.error == Compression
    ensures r.Ok? ==> fresh(r.value) && r.value.Valid() && r.value.Blob() == []
  {
    if alg.OtherAlg? {
      return Err(Compression);
    }
    var uncomndr := new NdrPush();
    r := Ok(uncomndr);
  }

  /** ndr_push_compression_end: compresses what was pushed into `uncomndr`
      and appends it to `subndr`. */
  method PushCompressionEnd(subndr: NdrPush, uncomndr: NdrPush, alg: Alg, state: CompressionState?, codec: Codec)
    returns (r: Result<(), NdrErr>)
    requires subndr.Valid() && uncomndr.Valid() && subndr != uncomndr
    requires alg.MszipCab? ==> state != null
    modifies subndr, state
    ensures subndr.Valid()
    ensures var spec := PushEnd(codec, alg, old(uncomndr.Blob()), if state == null then [] else old(state.dict));
      && (r.Ok? <==> spec.Ok?)
      && (r.Err? ==> r.error == spec.error)
      && (r.Ok? ==> subndr.Blob() == old(subndr.Blob()) + spec.value.0)
      && (r.Ok? && alg.MszipCab? ==> state.dict == spec.value.1)
  {
    var ndrpull := new NdrPull(uncomndr.Blob());
    match alg {
      case OtherAlg(_) =>
        return Err(Compression);
      case MszipCab =>
        var step := PushCabChunk(subndr, ndrpull, state, codec.deflate);
        if step.Err? {
          return Err(step.error);
        }
      case _ =>
        var out := PushChunkLoop(subndr, ndrpull, codec, alg);
        if out.Err? {
          return Err(out.error);
        }
    }
    r := Ok(());
  }

  /** ndr_pull_compression_state_init and ndr_push_compression_state_init:
      a state for a known algorithm, with an empty MSZIP-CAB dictionary. */
  method StateInit(alg: Alg) returns (r: Result<CompressionState, NdrErr>)
    ensures r.Ok? <==> Known(alg)
    ensures r.Err? ==> r.error == Compression
    ensures r.Ok? ==> fresh(r.value) && r.value.alg == alg && r.value.dict == []
  {
    if alg.OtherAlg? {
      return Err(Compression);
    }
    var s := new CompressionState(alg);
    r := Ok(s);
  }
}
