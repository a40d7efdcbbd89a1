/** The tiny NTLMSSP message serialiser and parser (msrpc_gen / msrpc_parse).

    A message is a fixed header followed by a payload area.  Variable-length
    fields are referenced from the header by the 8-byte Len / MaxLen /
    BufferOffset descriptor of section 2.2 of [MS-NLMP]; the payloads are
    packed after the header in the order of the format string.

    The C functions take a format string and a va_list; here a format is a
    sequence of typed fields, one per format letter. */
module NtlmsspLayout {
  import opened Common
  import opened Ucs2

  // ---------------------------------------------------------------------
  // msrpc_gen
  // ---------------------------------------------------------------------

  /** One format letter of msrpc_gen with its arguments. */
  datatype GenField =
    | U(units: seq<u16>)              // 'U': unicode string, descriptor in header
    | A(chars: seq<byte>)             // 'A': ascii string, descriptor in header
    | Addr(kind: int, units: seq<u16>) // 'a': type word + unicode string, all in the payload
    | B(blob: seq<byte>)              // 'B': data blob, descriptor in header
    | HeadBlob(blob: seq<byte>)       // 'b': data blob inline in the header
    | D(word: int)                    // 'd': 32-bit word inline in the header
    | C(str: seq<byte>)               // 'C': constant NUL-terminated string inline

  /** What the first pass records for one field (its converted blob and
      its integer argument): the bytes it will copy, already converted, and how they
      are placed.  A unicode string has its 2-byte terminator dropped, an
      ascii string its NUL; a constant keeps its NUL. */
  datatype Piece =
    | Described(data: seq<byte>)          // 'U', 'A', 'B': descriptor in header, data in payload
    | Typed(kind: int, data: seq<byte>)   // 'a': type, length and data, all in payload
    | Inline(data: seq<byte>)             // 'b', 'C': copied into the header
    | Word32(word: int)                   // 'd': SIVAL into the header

  function PieceOf(f: GenField): Piece
  {
    match f
    case U(units) => Described(Utf16Le(CStr16(units)))
    case A(chars) => Described(CStr(chars))
    case Addr(kind, units) => Typed(kind, Utf16Le(CStr16(units)))
    case B(blob) => Described(blob)
    case HeadBlob(blob) => Inline(blob)
    case D(word) => Word32(word)
    case C(str) => Inline(CStr(str) + [0])
  }

  /** What the first pass records for every field. */
  function Pieces(fs: seq<GenField>): (ps: seq<Piece>)
    ensures |ps| == |fs|
  {
    if fs == [] then [] else Pieces(fs[..|fs| - 1]) + [PieceOf(fs[|fs| - 1])]
  }

  lemma {:induction false} PieceAt(fs: seq<GenField>, k: nat)
    requires k < |fs|
    ensures Pieces(fs)[k] == PieceOf(fs[k])
    decreases |fs|
  {
    if k < |fs| - 1 {
      PieceAt(fs[..|fs| - 1], k);
    }
  }

  /** The header bytes the first pass counts for one field: 8 for a
      descriptor, 4 for a word, the inline length for 'b' and 'C'. */
  function HeadLen(p: Piece): nat
  {
    match p
    case Described(_) => 8
    case Typed(_, _) => 0
    case Inline(data) => |data|
    case Word32(_) => 4
  }

  /** The payload bytes the first pass counts for one field; 'a' adds 4. */
  function DataLen(p: Piece): nat
  {
    match p
    case Described(data) => |data|
    case Typed(_, data) => |data| + 4
    case _ => 0
  }

  /** Header bytes of the first n fields (head_ofs before field n). */
  function HeadOfs(ps: seq<Piece>, n: nat): nat
    requires n <= |ps|
  {
    if n == 0 then 0 else HeadOfs(ps, n - 1) + HeadLen(ps[n - 1])
  }

  /** Payload bytes of the first n fields (data_ofs - head_size before field n). */
  function DataOfs(ps: seq<Piece>, n: nat): nat
    requires n <= |ps|
  {
    if n == 0 then 0 else DataOfs(ps, n - 1) + DataLen(ps[n - 1])
  }

  function HeadSize(ps: seq<Piece>): nat
  {
    HeadOfs(ps, |ps|)
  }

  function DataSize(ps: seq<Piece>): nat
  {
    DataOfs(ps, |ps|)
  }

  /** Len, MaxLen (= Len) and BufferOffset, as SSVAL, SSVAL, SIVAL store them. */
  function Descriptor(n: int, dataOfs: int): (r: seq<byte>)
    ensures |r| == 8
  {
    LE16(n) + LE16(n) + LE32(dataOfs)
  }

  /** The bytes a field puts in the header when its payload starts at dataOfs. */
  function HeadBytes(p: Piece, dataOfs: int): (r: seq<byte>)
    ensures |r| == HeadLen(p)
  {
    match p
    case Described(data) => Descriptor(|data|, dataOfs)
    case Typed(_, _) => []
    case Inline(data) => data
    case Word32(word) => LE32(word)
  }

  /** The bytes a field puts in the payload area. */
  function DataBytes(p: Piece): (r: seq<byte>)
    ensures |r| == DataLen(p)
  {
    match p
    case Described(data) => data
    case Typed(kind, data) => LE16(kind) + LE16(|data|) + data
    case _ => []
  }

  /** The header bytes of the first n fields, each descriptor pointing at
      its payload from headSize on. */
  function HeadParts(ps: seq<Piece>, headSize: int, n: nat): (r: seq<seq<byte>>)
    requires n <= |ps|
    ensures |r| == n
  {
    if n == 0 then []
    else HeadParts(ps, headSize, n - 1) + [HeadBytes(ps[n - 1], headSize + DataOfs(ps, n - 1))]
  }

  /** The payload bytes of the first n fields. */
  function DataParts(ps: seq<Piece>, n: nat): (r: seq<seq<byte>>)
    requires n <= |ps|
    ensures |r| == n
  {
    if n == 0 then [] else DataParts(ps, n - 1) + [DataBytes(ps[n - 1])]
  }

  /** The header area followed by the payload area. */
  function Layout(ps: seq<Piece>): seq<byte>
  {
    Concat(HeadParts(ps, HeadSize(ps), |ps|)) + Concat(DataParts(ps, |ps|))
  }

  /** The blob msrpc_gen produces. */
  function GenBlob(fs: seq<GenField>): seq<byte>
  {
    Layout(Pieces(fs))
  }

  /** The header parts of the first n fields fill head_ofs bytes. */
  lemma {:induction false} HeadPartsLength(ps: seq<Piece>, headSize: int, n: nat)
    requires n <= |ps|
    ensures |Concat(HeadParts(ps, headSize, n))| == HeadOfs(ps, n)
  {
    if n > 0 {
      HeadStep(ps, headSize, n - 1);
      HeadPartsLength(ps, headSize, n - 1);
    }
  }

  /** The payload parts of the first n fields fill data_ofs - head_size bytes. */
  lemma {:induction false} DataPartsLength(ps: seq<Piece>, n: nat)
    requires n <= |ps|
    ensures |Concat(DataParts(ps, n))| == DataOfs(ps, n)
  {
    if n > 0 {
      DataStep(ps, n - 1);
      DataPartsLength(ps, n - 1);
    }
  }

  /** The header parts of the first j fields are a prefix of those of the first n. */
  lemma {:induction false} HeadPartsPrefix(ps: seq<Piece>, headSize: int, j: nat, n: nat)
    requires j <= n <= |ps|
    ensures HeadParts(ps, headSize, n)[..j] == HeadParts(ps, headSize, j)
    decreases n
  {
    if j < n {
      HeadPartsPrefix(ps, headSize, j, n - 1);
      PrefixOfPush(HeadParts(ps, headSize, n - 1), HeadBytes(ps[n - 1], headSize + DataOfs(ps, n - 1)), j);
    } else {
      assert HeadParts(ps, headSize, n)[..j] == HeadParts(ps, headSize, n);
    }
  }

  /** The payload parts of the first j fields are a prefix of those of the first n. */
  lemma {:induction false} DataPartsPrefix(ps: seq<Piece>, j: nat, n: nat)
    requires j <= n <= |ps|
    ensures DataParts(ps, n)[..j] == DataParts(ps, j)
    decreases n
  {
    if j < n {
      DataPartsPrefix(ps, j, n - 1);
      PrefixOfPush(DataParts(ps, n - 1), DataBytes(ps[n - 1]), j);
    } else {
      assert DataParts(ps, n)[..j] == DataParts(ps, n);
    }
  }

  /** Header part k of the first n fields is field k's header bytes. */
  lemma HeadPartAt(ps: seq<Piece>, headSize: int, k: nat, n: nat)
    requires k < n <= |ps|
    ensures HeadParts(ps, headSize, n)[k] == HeadBytes(ps[k], headSize + DataOfs(ps, k))
  {
    HeadPartsPrefix(ps, headSize, k + 1, n);
    assert HeadParts(ps, headSize, n)[k] == HeadParts(ps, headSize, n)[..k + 1][k];
  }

  /** Payload part k of the first n fields is field k's payload bytes. */
  lemma DataPartAt(ps: seq<Piece>, k: nat, n: nat)
    requires k < n <= |ps|
    ensures DataParts(ps, n)[k] == DataBytes(ps[k])
  {
    DataPartsPrefix(ps, k + 1, n);
    assert DataParts(ps, n)[k] == DataParts(ps, n)[..k + 1][k];
  }

  /** Writing field n extends the header area by its header bytes. */
  lemma HeadStep(ps: seq<Piece>, headSize: int, n: nat)
    requires n < |ps|
    ensures Concat(HeadParts(ps, headSize, n + 1))
         == Concat(HeadParts(ps, headSize, n)) + HeadBytes(ps[n], headSize + DataOfs(ps, n))
  {
    ConcatPush(HeadParts(ps, headSize, n), HeadBytes(ps[n], headSize + DataOfs(ps, n)));
  }

  /** Writing field n extends the payload area by its payload bytes. */
  lemma DataStep(ps: seq<Piece>, n: nat)
    requires n < |ps|
    ensures Concat(DataParts(ps, n + 1)) == Concat(DataParts(ps, n)) + DataBytes(ps[n])
  {
    ConcatPush(DataParts(ps, n), DataBytes(ps[n]));
  }

  /** The generated blob is head_size + data_size long: U/A/B add 8 header
      bytes, d adds 4, b and C their inline length, and data_size sums the
      payload lengths, 4 more for each 'a'. */
  lemma GenBlobLength(fs: seq<GenField>)
    ensures |GenBlob(fs)| == HeadSize(Pieces(fs)) + DataSize(Pieces(fs))
  {
    var ps := Pieces(fs);
    HeadPartsLength(ps, HeadSize(ps), |ps|);
    DataPartsLength(ps, |ps|);
  }

  lemma {:induction false} OffsetsMonotone(ps: seq<Piece>, j: nat, n: nat)
    requires j <= n <= |ps|
    ensures HeadOfs(ps, j) <= HeadOfs(ps, n)
    ensures DataOfs(ps, j) <= DataOfs(ps, n)
    decreases n
  {
    if j < n {
      OffsetsMonotone(ps, j, n - 1);
    }
  }

  /** The header bytes of field i sit at the running header offset; a
      U/A/B descriptor holds Len, Len and the offset of the field's payload,
      which runs on from head_size past the payloads before it. */
  lemma HeadSlice(ps: seq<Piece>, i: nat)
    requires i < |ps|
    ensures HeadOfs(ps, i + 1) <= HeadSize(ps) <= |Layout(ps)|
    ensures Layout(ps)[HeadOfs(ps, i) .. HeadOfs(ps, i + 1)]
         == HeadBytes(ps[i], HeadSize(ps) + DataOfs(ps, i))
  {
    var hs := HeadSize(ps);
    var h, d := HeadParts(ps, hs, |ps|), DataParts(ps, |ps|);
    OffsetsMonotone(ps, i + 1, |ps|);
    HeadPartsLength(ps, hs, i);
    HeadPartsLength(ps, hs, |ps|);
    HeadPartsPrefix(ps, hs, i, |ps|);
    HeadPartAt(ps, hs, i, |ps|);
    var a, b := HeadOfs(ps, i), HeadOfs(ps, i + 1);
    ConcatSlice(h, i);
    assert Concat(h)[a..b] == h[i];
    AppendSlices(Concat(h), Concat(d), a, b, 0, 0);
  }

  /** The payload bytes of field i sit in the payload area right after the
      payloads of the fields before it; 'a' is all payload, 'b', 'd' and
      'C' have none. */
  lemma DataSlice(ps: seq<Piece>, i: nat)
    requires i < |ps|
    ensures DataOfs(ps, i + 1) <= DataSize(ps)
    ensures |Layout(ps)| == HeadSize(ps) + DataSize(ps)
    ensures Layout(ps)[HeadSize(ps) + DataOfs(ps, i) .. HeadSize(ps) + DataOfs(ps, i + 1)]
         == DataBytes(ps[i])
  {
    var hs := HeadSize(ps);
    var h, d := HeadParts(ps, hs, |ps|), DataParts(ps, |ps|);
    OffsetsMonotone(ps, i + 1, |ps|);
    HeadPartsLength(ps, hs, |ps|);
    DataPartsLength(ps, i);
    DataPartsLength(ps, |ps|);
    DataPartsPrefix(ps, i, |ps|);
    DataPartAt(ps, i, |ps|);
    var c, e := DataOfs(ps, i), DataOfs(ps, i + 1);
    ConcatSlice(d, i);
    assert Concat(d)[c..e] == d[i];
    AppendSlices(Concat(h), Concat(d), 0, 0, c, e);
  }
}
