/** NDR compressed subcontexts: the chunk framing that wraps MSZIP, XPRESS
    and MSZIP-CAB data inside an NDR stream.

    The deflate/inflate and LZ77+Xpress engines are not modelled; a `Codec`
    value carries them as functions, and the round-trip properties assume
    only that each decompressor undoes its compressor.

    The functions here describe one chunk and a whole chunk sequence as
    values; the push/pull objects in NdrCompressionState write and read
    the same bytes step by step. */
module NdrCompression {
  import opened Common

  /** enum ndr_compression_alg, with any other code the caller may pass. */
  datatype Alg = MszipCab | Mszip | Xpress | OtherAlg(code: int)

  /** The two error codes the framing raises. */
  datatype NdrErr =
    | BufSize       // NDR_ERR_BUFSIZE: a read or an advance past the data
    | Compression   // NDR_ERR_COMPRESSION: a bad size, prefix or codec result

  /** The compression engines.  deflate/inflate take the preset dictionary
      first ([] for none); lzxpress decompression takes the size of the
      output buffer and gives the bytes it writes there. */
  datatype Codec = Codec(
    deflate: (seq<byte>, seq<byte>) -> Option<seq<byte>>,
    inflate: (seq<byte>, seq<byte>) -> Option<seq<byte>>,
    compress: seq<byte> -> Option<seq<byte>>,
    decompress: (seq<byte>, nat) -> Option<seq<byte>>)

  /** Each decompressor undoes its compressor, under the same dictionary. */
  ghost predicate Inverse(codec: Codec)
  {
    && (forall d, p :: codec.deflate(d, p).Some? ==>
          codec.inflate(d, codec.deflate(d, p).value) == Some(p))
    && (forall p :: codec.compress(p).Some? ==>
          codec.decompress(codec.compress(p).value, |p|) == Some(p))
  }

  const MszipMaxPlain: nat := 0x8000
  /** 32k plus 12 bytes of deflate block overhead. */
  const MszipMaxComp: nat := 0x8000 + 12
  const XpressMaxPlain: nat := 0x10000
  const XpressMaxComp: nat := 0x20000 + 2
  /** Written where the compressed size goes, until it is known. */
  const SizePlaceholder: u32 := 0xFEFEFEFE
  /** "CK", the prefix of every MSZIP block (section 2 of [MS-MCI]). */
  const CK: seq<byte> := [0x43, 0x4B]

  function Min(a: nat, b: nat): nat
  {
    if a <= b then a else b
  }

  /** One chunk step.  Pushing: `out` is the bytes appended to the output,
      `used` the plain bytes taken.  Pulling: `out` is the plain bytes
      produced, `used` the compressed bytes consumed, header included. */
  datatype Step = Step(out: seq<byte>, used: nat, last: bool)

  /** Prefixes a result with bytes produced before it. */
  function Then(prefix: seq<byte>, r: Result<seq<byte>, NdrErr>): Result<seq<byte>, NdrErr>
  {
    match r
    case Ok(v) => Ok(prefix + v)
    case Err(e) => Err(e)
  }

  lemma ThenThen(a: seq<byte>, b: seq<byte>, r: Result<seq<byte>, NdrErr>)
    ensures Then(a, Then(b, r)) == Then(a + b, r)
  {
    if r.Ok? {
      assert a + (b + r.value) == (a + b) + r.value;
    }
  }

  lemma ThenNothing(r: Result<seq<byte>, NdrErr>)
    ensures Then([], r) == r
  {
    if r.Ok? {
      assert [] + r.value == r.value;
    }
  }

  // ---------------------------------------------------------------------
  // Push: one chunk
  // ---------------------------------------------------------------------

  /** The MSZIP/XPRESS chunk layout: the 32-bit plain size, the 32-bit
      size of the compressed body, then the body. */
  function Frame(plainSize: nat, body: seq<byte>): (r: seq<byte>)
    ensures |r| == 8 + |body|
  {
    LE32(plainSize) + LE32(|body|) + body
  }

  /** ndr_push_compression_mszip_chunk: up to 32k of input, the 32-bit
      plain size, the compressed size (backpatched over the placeholder),
      then "CK" and the deflate stream.  The chunk is the last one when
      it took fewer than 32k bytes. */
  function MszipPushChunk(deflate: (seq<byte>, seq<byte>) -> Option<seq<byte>>,
                          rest: seq<byte>, dict: seq<byte>): (r: Result<Step, NdrErr>)
    ensures r.Ok? ==> r.value.used == Min(MszipMaxPlain, |rest|)
    ensures r.Ok? ==> (r.value.last <==> |rest| < MszipMaxPlain)
    ensures r.Ok? ==> 10 <= |r.value.out| <= 10 + MszipMaxComp
  {
    var n := Min(MszipMaxPlain, |rest|);
    match deflate(dict, rest[..n])
    case None => Err(Compression)
    case Some(c) =>
      if |c| > MszipMaxComp then Err(Compression)
      else Ok(Step(Frame(n, CK + c), n, n < MszipMaxPlain))
  }

  /** ndr_push_compression_xpress_chunk: up to 64k of input, the plain
      size, the compressed size (backpatched), then the LZ77+Xpress data. */
  function XpressPushChunk(compress: seq<byte> -> Option<seq<byte>>,
                           rest: seq<byte>): (r: Result<Step, NdrErr>)
    ensures r.Ok? ==> r.value.used == Min(XpressMaxPlain, |rest|)
    ensures r.Ok? ==> (r.value.last <==> |rest| < XpressMaxPlain)
    ensures r.Ok? ==> 8 <= |r.value.out| <= 8 + XpressMaxComp
  {
    var n := Min(XpressMaxPlain, |rest|);
    match compress(rest[..n])
    case None => Err(Compression)
    case Some(c) =>
      if |c| > XpressMaxComp then Err(Compression)
      else Ok(Step(Frame(n, c), n, n < XpressMaxPlain))
  }

  /** ndr_push_compression_mszip_cab_chunk: a single CFDATA payload of up
      to 32k input bytes, "CK" and the deflate stream, with no header.
      There must be input left to compress. */
  function CabPushChunk(deflate: (seq<byte>, seq<byte>) -> Option<seq<byte>>,
                        rest: seq<byte>, dict: seq<byte>): (r: Result<Step, NdrErr>)
    ensures |rest| == 0 ==> r == Err(Compression)
    ensures r.Ok? ==> r.value.used == Min(MszipMaxPlain, |rest|) && r.value.used > 0
    ensures r.Ok? ==> 2 <= |r.value.out| <= 2 + MszipMaxComp && r.value.out[..2] == CK
  {
    if |rest| == 0 then Err(Compression)
    else
      var n := Min(MszipMaxPlain, |rest|);
      match deflate(dict, rest[..n])
      case None => Err(Compression)
      case Some(c) =>
        if |c| > MszipMaxComp then Err(Compression)
        else Ok(Step(CK + c, n, true))
  }

  // ---------------------------------------------------------------------
  // Pull: one chunk
  // ---------------------------------------------------------------------

  /** The bytes lzxpress_decompress leaves in an n-byte buffer that the
      push side zeroed first. */
  function Written(out: seq<byte>, n: nat): (r: seq<byte>)
    ensures |r| == n
    ensures |out| <= n ==> r[..|out|] == out
  {
    if |out| >= n then out[..n] else out + seq(n - |out|, _ => 0)
  }

  /** The header of an MSZIP/XPRESS chunk as the pull reads it: the plain
      size (at most maxPlain), the compressed size, and the compressed body
      that follows. */
  function ReadFrame(rest: seq<byte>, maxPlain: nat): (r: Result<(nat, seq<byte>), NdrErr>)
    ensures r.Ok? ==> r.value.0 <= maxPlain && 8 + |r.value.1| <= |rest|
  {
    if |rest| < 4 then Err(BufSize)
    else
      var plainSize := FromLE32(rest[..4]);
      if plainSize > maxPlain then Err(Compression)
      else if |rest| < 8 then Err(BufSize)
      else
        var compSize := FromLE32(rest[4..8]);
        if |rest| - 8 < compSize then Err(BufSize)
        else Ok((plainSize as nat, rest[8..8 + compSize]))
  }

  /** ndr_pull_compression_mszip_chunk over the unread bytes `rest`. */
  function MszipPullChunk(inflate: (seq<byte>, seq<byte>) -> Option<seq<byte>>,
                          rest: seq<byte>, dict: seq<byte>): (r: Result<Step, NdrErr>)
    ensures r.Ok? ==> 10 <= r.value.used <= |rest|
    ensures r.Ok? ==> |r.value.out| <= MszipMaxPlain
    ensures r.Ok? ==> (r.value.last <==>
      |r.value.out| < MszipMaxPlain || |rest| - r.value.used <= 4)
  {
    match ReadFrame(rest, MszipMaxPlain)
    case Err(e) => Err(e)
    case Ok((plainSize, comp)) =>
      if |comp| < 2 then Err(Compression)
      else if comp[..2] != CK then Err(Compression)
      else match inflate(dict, comp[2..])
        case None => Err(Compression)
        case Some(out) =>
          if |out| != plainSize then Err(Compression)
          else Ok(Step(out, 8 + |comp|,
                       plainSize < MszipMaxPlain || |rest| - (8 + |comp|) <= 4))
  }

  /** ndr_pull_compression_xpress_chunk over the unread bytes `rest`. */
  function XpressPullChunk(decompress: (seq<byte>, nat) -> Option<seq<byte>>,
                           rest: seq<byte>): (r: Result<Step, NdrErr>)
    ensures r.Ok? ==> 8 <= r.value.used <= |rest|
    ensures r.Ok? ==> |r.value.out| <= XpressMaxPlain
    ensures r.Ok? ==> (r.value.last <==>
      |r.value.out| < XpressMaxPlain || |rest| - r.value.used <= 4)
  {
    match ReadFrame(rest, XpressMaxPlain)
    case Err(e) => Err(e)
    case Ok((plainSize, comp)) =>
      match decompress(comp, plainSize)
      case None => Err(Compression)
      case Some(out) =>
        Ok(Step(Written(out, plainSize), 8 + |comp|,
                plainSize < XpressMaxPlain || |rest| - (8 + |comp|) <= 4))
  }

  /** ndr_pull_compression_mszip_cab_chunk: the sizes come from the CFDATA
      header the caller read; both are ssize_t values stored in uint32_t. */
  function CabPullChunk(inflate: (seq<byte>, seq<byte>) -> Option<seq<byte>>,
                        rest: seq<byte>, dict: seq<byte>,
                        decompressedLen: int, compressedLen: int): (r: Result<Step, NdrErr>)
    ensures decompressedLen % TWO32 > MszipMaxPlain ==> r == Err(Compression)
    ensures r.Ok? ==> |r.value.out| == decompressedLen % TWO32
    ensures r.Ok? ==> r.value.used == compressedLen % TWO32 <= |rest|
    ensures r.Ok? ==> 2 <= |rest| && rest[..2] == CK
  {
    var plainSize := decompressedLen % TWO32;
    var compSize := compressedLen % TWO32;
    if plainSize > MszipMaxPlain then Err(Compression)
    else if |rest| < compSize then Err(BufSize)
    else if compSize < 2 then Err(Compression)
    else if rest[..2] != CK then Err(Compression)
    else match inflate(dict, rest[2..compSize])
      case None => Err(Compression)
      case Some(out) =>
        if |out| != plainSize then Err(Compression)
        else Ok(Step(out, compSize, true))
  }

  // ---------------------------------------------------------------------
  // Whole chunk sequences (the `while (!last)` loops)
  // ---------------------------------------------------------------------

  /** The algorithms framed as a chunk sequence. */
  predicate Chunked(alg: Alg)
  {
    alg.Mszip? || alg.Xpress?
  }

  function PushChunk(codec: Codec, alg: Alg, rest: seq<byte>, dict: seq<byte>): (r: Result<Step, NdrErr>)
    requires Chunked(alg)
    ensures r.Ok? ==> r.value.used <= |rest| && (r.value.last || r.value.used > 0)
  {
    if alg.Mszip? then MszipPushChunk(codec.deflate, rest, dict)
    else XpressPushChunk(codec.compress, rest)
  }

  function PullChunk(codec: Codec, alg: Alg, rest: seq<byte>, dict: seq<byte>): (r: Result<Step, NdrErr>)
    requires Chunked(alg)
    ensures r.Ok? ==> 0 < r.value.used <= |rest|
  {
    if alg.Mszip? then MszipPullChunk(codec.inflate, rest, dict)
    else XpressPullChunk(codec.decompress, rest)
  }

  /** The bytes ndr_push_compression_end appends for a chunked algorithm:
      chunks until one is marked last.  MSZIP compresses each chunk with
      the previous chunk's input as dictionary; the first has none. */
  function PushChunks(codec: Codec, alg: Alg, rest: seq<byte>, dict: seq<byte>): Result<seq<byte>, NdrErr>
    requires Chunked(alg)
    decreases |rest|
  {
    match PushChunk(codec, alg, rest, dict)
    case Err(e) => Err(e)
    case Ok(s) =>
      if s.last then Ok(s.out)
      else Then(s.out, PushChunks(codec, alg, rest[s.used..], rest[..s.used]))
  }

  /** The plain bytes ndr_pull_compression_start collects for a chunked
      algorithm; MSZIP inflates each chunk with the previous chunk's output
      as dictionary. */
  function PullChunks(codec: Codec, alg: Alg, rest: seq<byte>, dict: seq<byte>): Result<seq<byte>, NdrErr>
    requires Chunked(alg)
    decreases |rest|
  {
    match PullChunk(codec, alg, rest, dict)
    case Err(e) => Err(e)
    case Ok(s) =>
      if s.last then Ok(s.out)
      else Then(s.out, PullChunks(codec, alg, rest[s.used..], s.out))
  }

  // ---------------------------------------------------------------------
  // Start and end of a compressed subcontext
  // ---------------------------------------------------------------------

  predicate Known(alg: Alg)
  {
    !alg.OtherAlg?
  }

  /** ndr_pull_compression_start: the decompressed bytes of the
      subcontext, and the dictionary a CAB state keeps for the next
      CFDATA.  The result must be exactly decompressed_len long. */
  function PullStart(codec: Codec, alg: Alg, rest: seq<byte>, cabDict: seq<byte>,
                     decompressedLen: int, compressedLen: int): (r: Result<(seq<byte>, seq<byte>), NdrErr>)
    ensures !Known(alg) ==> r == Err(Compression)
    ensures r.Ok? ==> |r.value.0| == decompressedLen
  {
    match alg
    case OtherAlg(_) => Err(Compression)
    case MszipCab =>
      (match CabPullChunk(codec.inflate, rest, cabDict, decompressedLen, compressedLen)
       case Err(e) => Err(e)
       case Ok(s) =>
         if |s.out| != decompressedLen then Err(Compression) else Ok((s.out, s.out)))
    case _ =>
      (match PullChunks(codec, alg, rest, [])
       case Err(e) => Err(e)
       case Ok(out) =>
         if |out| != decompressedLen then Err(Compression) else Ok((out, cabDict)))
  }

  /** ndr_push_compression_end: the bytes appended to the enclosing push
      for the uncompressed subcontext `plain`, and the CAB dictionary. */
  function PushEnd(codec: Codec, alg: Alg, plain: seq<byte>, cabDict: seq<byte>): (r: Result<(seq<byte>, seq<byte>), NdrErr>)
    ensures !Known(alg) ==> r == Err(Compression)
  {
    match alg
    case OtherAlg(_) => Err(Compression)
    case MszipCab =>
      (match CabPushChunk(codec.deflate, plain, cabDict)
       case Err(e) => Err(e)
       case Ok(s) => Ok((s.out, plain[..s.used])))
    case _ =>
      (match PushChunks(codec, alg, plain, [])
       case Err(e) => Err(e)
       case Ok(out) => Ok((out, cabDict)))
  }

  // ---------------------------------------------------------------------
  // Round trips
  // ---------------------------------------------------------------------

  /** A frame read from the front of a buffer gives back its plain size
      and its body, whatever follows it. */
  lemma ReadFrameOfFrame(plainSize: nat, body: seq<byte>, tail: seq<byte>, maxPlain: nat)
    requires plainSize <= maxPlain && plainSize < TWO32 && |body| < TWO32
    ensures ReadFrame(Frame(plainSize, body) + tail, maxPlain) == Ok((plainSize, body))
  {
    var d := Frame(plainSize, body) + tail;
    assert d[..4] == LE32(plainSize);
    assert d[4..8] == LE32(|body|);
    assert d[8..8 + |body|] == body;
  }

  /** Reading back one pushed MSZIP chunk, followed by any bytes, gives
      its input and consumes exactly the chunk. */
  lemma MszipChunkRoundTrip(codec: Codec, rest: seq<byte>, dict: seq<byte>, tail: seq<byte>)
    requires Inverse(codec)
    requires MszipPushChunk(codec.deflate, rest, dict).Ok?
    ensures var s := MszipPushChunk(codec.deflate, rest, dict).value;
      MszipPullChunk(codec.inflate, s.out + tail, dict)
        == Ok(Step(rest[..s.used], |s.out|, s.used < MszipMaxPlain || |tail| <= 4))
  {
    var s := MszipPushChunk(codec.deflate, rest, dict).value;
    var c := codec.deflate(dict, rest[..s.used]).value;
    ReadFrameOfFrame(s.used, CK + c, tail, MszipMaxPlain);
    assert (CK + c)[..2] == CK && (CK + c)[2..] == c;
  }

  lemma XpressChunkRoundTrip(codec: Codec, rest: seq<byte>, tail: seq<byte>)
    requires Inverse(codec)
    requires XpressPushChunk(codec.compress, rest).Ok?
    ensures var s := XpressPushChunk(codec.compress, rest).value;
      XpressPullChunk(codec.decompress, s.out + tail)
        == Ok(Step(rest[..s.used], |s.out|, s.used < XpressMaxPlain || |tail| <= 4))
  {
    var s := XpressPushChunk(codec.compress, rest).value;
    var plain := rest[..s.used];
    var c := codec.compress(plain).value;
    ReadFrameOfFrame(s.used, c, tail, XpressMaxPlain);
    assert codec.decompress(c, |plain|) == Some(plain);
    assert Written(plain, |plain|) == plain;
  }

  /** A pushed chunk is read back as the input it took, and the pull
      continues exactly when the push did. */
  lemma ChunkRoundTrip(codec: Codec, alg: Alg, rest: seq<byte>, dict: seq<byte>, tail: seq<byte>)
    requires Inverse(codec) && Chunked(alg)
    requires PushChunk(codec, alg, rest, dict).Ok?
    requires !PushChunk(codec, alg, rest, dict).value.last ==> |tail| > 4
    ensures var s := PushChunk(codec, alg, rest, dict).value;
      PullChunk(codec, alg, s.out + tail, dict) == Ok(Step(rest[..s.used], |s.out|, s.last))
  {
    if alg.Mszip? {
      MszipChunkRoundTrip(codec, rest, dict, tail);
    } else {
      XpressChunkRoundTrip(codec, rest, tail);
    }
  }

  /** Every successful chunk sequence is longer than 4 bytes. */
  lemma PushChunksLong(codec: Codec, alg: Alg, rest: seq<byte>, dict: seq<byte>)
    requires Chunked(alg) && PushChunks(codec, alg, rest, dict).Ok?
    ensures |PushChunks(codec, alg, rest, dict).value| > 4
  {
    var s := PushChunk(codec, alg, rest, dict).value;
    assert |s.out| >= 8;
  }

  /** One unfolding of PullChunks on data whose first chunk is known. */
  lemma PullChunksFirst(codec: Codec, alg: Alg, data: seq<byte>, dict: seq<byte>, s: Step)
    requires Chunked(alg) && PullChunk(codec, alg, data, dict) == Ok(s)
    ensures s.last ==> PullChunks(codec, alg, data, dict) == Ok(s.out)
    ensures !s.last ==>
      PullChunks(codec, alg, data, dict) == Then(s.out, PullChunks(codec, alg, data[s.used..], s.out))
  {
  }

  /** One unfolding of PushChunks once its first chunk is known. */
  lemma PushChunksFirst(codec: Codec, alg: Alg, rest: seq<byte>, dict: seq<byte>, s: Step)
    requires Chunked(alg) && PushChunk(codec, alg, rest, dict) == Ok(s)
    ensures s.last ==> PushChunks(codec, alg, rest, dict) == Ok(s.out)
    ensures !s.last ==>
      PushChunks(codec, alg, rest, dict) == Then(s.out, PushChunks(codec, alg, rest[s.used..], rest[..s.used]))
  {
  }

  /** One turn of the push loop: the output still owed shrinks by the
      chunk just pushed. */
  lemma PushLoopStep(codec: Codec, alg: Alg, target: Result<seq<byte>, NdrErr>, acc: seq<byte>, rest: seq<byte>,
                     dict: seq<byte>, s: Step)
    requires Chunked(alg) && PushChunk(codec, alg, rest, dict) == Ok(s)
    requires target == Then(acc, PushChunks(codec, alg, rest, dict))
    ensures s.used <= |rest|
    ensures target ==
      Then(acc + s.out, if s.last then Ok([]) else PushChunks(codec, alg, rest[s.used..], rest[..s.used]))
  {
    PushChunksFirst(codec, alg, rest, dict, s);
    if s.last {
      assert s.out + [] == s.out;
    }
    ThenThen(acc, s.out, if s.last then Ok([]) else PushChunks(codec, alg, rest[s.used..], rest[..s.used]));
  }

  /** One turn of the pull loop, as PushLoopStep. */
  lemma PullLoopStep(codec: Codec, alg: Alg, target: Result<seq<byte>, NdrErr>, acc: seq<byte>, rest: seq<byte>,
                     dict: seq<byte>, s: Step)
    requires Chunked(alg) && PullChunk(codec, alg, rest, dict) == Ok(s)
    requires target == Then(acc, PullChunks(codec, alg, rest, dict))
    ensures s.used <= |rest|
    ensures target ==
      Then(acc + s.out, if s.last then Ok([]) else PullChunks(codec, alg, rest[s.used..], s.out))
  {
    PullChunksFirst(codec, alg, rest, dict, s);
    if s.last {
      assert s.out + [] == s.out;
    }
    ThenThen(acc, s.out, if s.last then Ok([]) else PullChunks(codec, alg, rest[s.used..], s.out));
  }

  /** The round trip of a push that ends with its first chunk. */
  lemma LastChunkRoundTrip(codec: Codec, alg: Alg, rest: seq<byte>, dict: seq<byte>, s: Step)
    requires Inverse(codec) && Chunked(alg)
    requires PushChunk(codec, alg, rest, dict) == Ok(s) && s.last
    ensures PullChunks(codec, alg, s.out, dict) == Ok(rest)
  {
    ChunkRoundTrip(codec, alg, rest, dict, []);
    assert s.out + [] == s.out;
    PullChunksFirst(codec, alg, s.out, dict, Step(rest[..s.used], |s.out|, true));
    assert rest[..s.used] == rest;
  }

  /** Pulling a pushed chunk followed by more chunks reads the chunk and
      goes on with the rest, using the chunk's input as dictionary. */
  lemma NextChunkRoundTrip(codec: Codec, alg: Alg, rest: seq<byte>, dict: seq<byte>, s: Step, more: seq<byte>)
    requires Inverse(codec) && Chunked(alg)
    requires PushChunk(codec, alg, rest, dict) == Ok(s) && !s.last && |more| > 4
    ensures PullChunks(codec, alg, s.out + more, dict)
      == Then(rest[..s.used], PullChunks(codec, alg, more, rest[..s.used]))
  {
    ChunkRoundTrip(codec, alg, rest, dict, more);
    PullChunksFirst(codec, alg, s.out + more, dict, Step(rest[..s.used], |s.out|, false));
    assert (s.out + more)[|s.out|..] == more;
  }

  /** Pulling what a chunked push produced gives the input back. */
  lemma {:induction false} ChunksRoundTrip(codec: Codec, alg: Alg, rest: seq<byte>, dict: seq<byte>)
    requires Inverse(codec) && Chunked(alg)
    requires PushChunks(codec, alg, rest, dict).Ok?
    ensures PullChunks(codec, alg, PushChunks(codec, alg, rest, dict).value, dict) == Ok(rest)
    decreases |rest|
  {
    var s := PushChunk(codec, alg, rest, dict).value;
    if s.last {
      LastChunkRoundTrip(codec, alg, rest, dict, s);
    } else {
      ChunksRoundTrip(codec, alg, rest[s.used..], rest[..s.used]);
      MoreChunksRoundTrip(codec, alg, rest, dict, s);
    }
  }

  /** The inductive step of ChunksRoundTrip: a push that goes on past its
      first chunk round-trips when the rest of it does. */
  lemma MoreChunksRoundTrip(codec: Codec, alg: Alg, rest: seq<byte>, dict: seq<byte>, s: Step)
    requires Inverse(codec) && Chunked(alg)
    requires PushChunk(codec, alg, rest, dict) == Ok(s) && !s.last
    requires PushChunks(codec, alg, rest[s.used..], rest[..s.used]).Ok?
    requires PullChunks(codec, alg, PushChunks(codec, alg, rest[s.used..], rest[..s.used]).value, rest[..s.used])
             == Ok(rest[s.used..])
    ensures PushChunks(codec, alg, rest, dict).Ok?
    ensures PullChunks(codec, alg, PushChunks(codec, alg, rest, dict).value, dict) == Ok(rest)
  {
    var plain := rest[..s.used];
    var tail := rest[s.used..];
    var more := PushChunks(codec, alg, tail, plain).value;
    PushChunksSplit(codec, alg, rest, dict, s);
    NextChunkRoundTrip(codec, alg, rest, dict, s, more);
    ThenJoins(PullChunks(codec, alg, s.out + more, dict), PullChunks(codec, alg, more, plain), plain, tail, rest);
  }

  /** Prefixing the pulled rest of a split input with its first part gives
      the whole input back. */
  lemma ThenJoins(whole: Result<seq<byte>, NdrErr>, part: Result<seq<byte>, NdrErr>,
                  plain: seq<byte>, tail: seq<byte>, rest: seq<byte>)
    requires whole == Then(plain, part) && part == Ok(tail)
    requires |plain| <= |rest| && plain == rest[..|plain|] && tail == rest[|plain|..]
    ensures whole == Ok(rest)
  {
    assert plain + tail == rest;
  }

  /** A push that goes on past its first chunk is that chunk followed by
      a push of the rest, which is more than a chunk header long. */
  lemma PushChunksSplit(codec: Codec, alg: Alg, rest: seq<byte>, dict: seq<byte>, s: Step)
    requires Chunked(alg)
    requires PushChunk(codec, alg, rest, dict) == Ok(s) && !s.last
    requires PushChunks(codec, alg, rest[s.used..], rest[..s.used]).Ok?
    ensures PushChunks(codec, alg, rest, dict)
      == Ok(s.out + PushChunks(codec, alg, rest[s.used..], rest[..s.used]).value)
    ensures |PushChunks(codec, alg, rest[s.used..], rest[..s.used]).value| > 4
  {
    PushChunksFirst(codec, alg, rest, dict, s);
    PushChunksLong(codec, alg, rest[s.used..], rest[..s.used]);
  }

  /** Pulling one pushed CFDATA payload, with the sizes of the CFDATA
      header, gives back the input the push took and leaves both sides
      with the same dictionary. */
  lemma CabRoundTrip(codec: Codec, plain: seq<byte>, dict: seq<byte>)
    requires Inverse(codec)
    requires CabPushChunk(codec.deflate, plain, dict).Ok?
    ensures var s := CabPushChunk(codec.deflate, plain, dict).value;
      CabPullChunk(codec.inflate, s.out, dict, s.used, |s.out|) == Ok(Step(plain[..s.used], |s.out|, true))
  {
    var s := CabPushChunk(codec.deflate, plain, dict).value;
    var c := codec.deflate(dict, plain[..s.used]).value;
    assert s.out[2..|s.out|] == c;
  }

  /** Start of pull after end of push, the whole subcontext: the plain
      data comes back, for every known algorithm (for MSZIP-CAB when it
      fits one CFDATA), and a CAB state ends with the same dictionary on
      both sides. */
  lemma SubcontextRoundTrip(codec: Codec, alg: Alg, plain: seq<byte>, cabDict: seq<byte>)
    requires Inverse(codec)
    requires PushEnd(codec, alg, plain, cabDict).Ok?
    requires alg.MszipCab? ==> |plain| <= MszipMaxPlain
    ensures var pushed := PushEnd(codec, alg, plain, cabDict).value;
      PullStart(codec, alg, pushed.0, cabDict, |plain|, |pushed.0|) == Ok((plain, pushed.1))
  {
    if alg.MszipCab? {
      CabRoundTrip(codec, plain, cabDict);
      assert plain[..|plain|] == plain;
    } else {
      ChunksRoundTrip(codec, alg, plain, []);
    }
  }

  /** A pull that finds a bad header fails with NDR_ERR_COMPRESSION:
      an MSZIP plain size over 32k, a compressed size under 2, or a block
      not starting with "CK". */
  lemma MszipPullRejects(inflate: (seq<byte>, seq<byte>) -> Option<seq<byte>>, rest: seq<byte>, dict: seq<byte>)
    requires |rest| >= 8
    requires || FromLE32(rest[..4]) > MszipMaxPlain
             || (FromLE32(rest[4..8]) <= |rest| - 8 &&
                 (FromLE32(rest[4..8]) < 2 || rest[8..10] != CK))
    ensures MszipPullChunk(inflate, rest, dict) == Err(Compression)
  {
  }

  /** XPRESS refuses a plain size over 64k. */
  lemma XpressPullRejects(decompress: (seq<byte>, nat) -> Option<seq<byte>>, rest: seq<byte>)
    requires |rest| >= 4 && FromLE32(rest[..4]) > XpressMaxPlain
    ensures XpressPullChunk(decompress, rest) == Err(Compression)
  {
  }
}
