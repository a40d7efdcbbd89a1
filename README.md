# Verified model of selected Samba client and library logic

This project models, in Dafny, the self-contained decision and encoding
logic of several Samba components, and proves the properties their code
promises:

- **NTLMSSP blob generation and parsing** (`msrpc_gen`, `msrpc_parse` in
  `source4/auth/ntlmssp/ntlmssp_parse.c`). A format string drives a
  two-pass serialiser. The first pass converts each argument and sizes
  the fixed header and the payload area. The second pass writes the header
  in place and packs the payloads after it, using the 8-byte
  Len/MaxLen/BufferOffset descriptors of section 2.2 of [MS-NLMP]. The
  bounds-checked parser reads the blob back. The generator is a method
  over an `array` proved equal to a layout function. The parser is a loop
  proved equal to a parse function. Round trips are proved for every
  field kind the parser knows.
- **smbpasswd hex hash codec** (`smbpasswd_gethexpwd`,
  `smbpasswd_sethexpwd`). The loops are proved against decode/encode
  functions. The model proves the round trip, case-insensitive decoding,
  rejection of non-hex digits, and that both placeholders fail to decode.
- **NDR compression framing** (`librpc/ndr/ndr_compression.c`). This
  covers MSZIP chunks (the "CK" block of section 2 of [MS-MCI]), XPRESS
  chunks and the MSZIP-CAB subcontext. It models the 8-byte chunk header,
  whose compressed-size placeholder is backpatched by moving the push
  offset back and forth, the chunk sizing and last-chunk rules, the
  decompressed-length check, and the push/pull chunk loops over
  `NdrPush`/`NdrPull` buffer objects. zlib and lzxpress are a `Codec`
  parameter. The push-then-pull round trip is proved for any codec whose
  decompression undoes its compression.
- **Security tokens** (`security_token.c`): SID membership queries and
  the session user-level ladder.
- **Linked attributes** (`linked_attributes.c`, an ldb module). It models
  the linkID parity rules and the pending-operation queue: deletes go to
  the head and adds to the tail, and the queue is drained one head at a
  time. The planning of add, modify, delete and rename is modelled, and
  so is the order the queue keeps.
- **DRS replication pull** (`drepl_out_helpers.c`). It models bind-info
  normalisation, up-to-date-vector conversion, the RODC and GC partial
  attribute sets, and the replica flags of a GetNCChanges request (section
  4.1.10.4.1 of [MS-DRSR]). It also models the request level and sizes,
  the choice of reply container, and the retry state: the one retry with
  GET_ANC, the one schema retry, and when the highwatermark moves.
- **`net rpc` helpers** (`source/utils/net_rpc.c`). This covers user
  tokens (building a token, adding a SID idempotently, one-level alias
  expansion), the user/SID token file, the account-flag edit command and
  trust account names.
- **rpcclient spoolss helpers** (`source3/rpcclient/cmd_spoolss.c`). It
  models the architecture table lookups, the strtok_r-based driver-info
  argument parser with its "NULL" placeholder and its comma-separated
  dependent files, de-duplication of enumdrivers architectures,
  deletedriverex row selection and result, registry type keywords, and
  form flag names.
- **LDAP simple-bind test helpers** (`auth/credentials/tests/bind.py`).
  The unicodePwd value is base64 (section 4 of RFC 4648) of the UTF-16
  (section 2.1 of RFC 2781) little-endian bytes of the quoted password; the
  model proves it carries exactly that password. It also covers the UPN,
  domain-qualified, DN and bare bind identities, the credential objects
  and their sealed gensec features, and the write-once rootDSE cache.

One Dafny module per source file, plus `Common` (Option/Result,
little-endian integers, C strings, ASCII upper-casing), `Ucs2` (UTF-16
units and their little-endian bytes) and the split NTLMSSP modules
`NtlmsspLayout`, `NtlmsspGen`, `NtlmsspParse` and `NtlmsspRoundTrip`.
State the source updates in place is a `class` (the NDR buffers, the
linked-attribute context, the replication pull state, the `net rpc`
token, the spoolss driver description, the test's credentials and
rootDSE cache). Loops are methods with invariants, each proved against a
specification function whose properties are lemmas.

Several constants are not defined in the files modelled here. They come
from the Samba headers that define them, which are not part of this
model: the DRSUAPI replica-flag, extension and extended-operation values;
the ACB_* account bits; the LDB error codes; the REG_* types;
GENSEC_FEATURE_SEAL (0x4); and the WERROR/NTSTATUS codes.

## Model

| member | source | states |
|---|---|---|
| Common.LE16 | source4/auth/ntlmssp/ntlmssp_parse.c:144-145 | SSVAL writes two bytes that read back as the value modulo 2^16 |
| Common.LE32 | source4/auth/ntlmssp/ntlmssp_parse.c:146 | SIVAL writes four bytes that read back as the value modulo 2^32 |
| Common.StrLen | source4/auth/ntlmssp/ntlmssp_parse.c:124 | strlen, over bytes or UTF-16 units, stops at the first NUL: no NUL before it, a NUL at it when it is inside the buffer |
| Common.CStr | source4/auth/ntlmssp/ntlmssp_parse.c:124 | the C string is a NUL-free prefix of the buffer that ends at its first NUL, or at its end when it holds none |
| Common.UpperChar | source4/lib/samba3/smbpasswd.c:73-74 | toupper maps a lower-case ASCII letter to its capital and leaves every other character alone |
| Common.Upper | source/utils/net_rpc.c:5373 | strupper_m keeps the length and upper-cases each character |
| Ucs2.Utf16LeRoundTrip | source4/auth/ntlmssp/ntlmssp_parse.c:252-253 | reading back the little-endian bytes of UTF-16 units gives those units again |
| Ucs2.Utf16LeAppend | source4/auth/ntlmssp/ntlmssp_parse.c:69-70 | the UTF-16LE encoding of two concatenated strings is the concatenation of their encodings |
| Common.StrLenNoNul | source4/auth/ntlmssp/ntlmssp_parse.c:69-70 | a byte or UTF-16 string with no NUL is its own C string, so push_ucs2 converts all of it |
| Ucs2.CStr16Idempotent | source4/auth/ntlmssp/ntlmssp_parse.c:69-70 | cutting a string at its first NUL a second time changes nothing |
| NtlmsspLayout.PieceAt | source4/auth/ntlmssp/ntlmssp_parse.c:64-127 | the first pass records, for the k-th format letter, what that letter's argument becomes: the string as UTF-16LE without its terminator for 'U', without its NUL for 'A', both 'B' and 'b' blobs unchanged, a 32-bit word for 'd', the constant with its NUL for 'C', and the type, the UTF-16 string and its length for 'a' |
| NtlmsspLayout.GenBlobLength | source4/auth/ntlmssp/ntlmssp_parse.c:62-132 | the generated blob is head_size + data_size bytes, summed over the fields as the first pass counts them |
| NtlmsspLayout.OffsetsMonotone | source4/auth/ntlmssp/ntlmssp_parse.c:137-179 | head_ofs and data_ofs never move backwards while the fields are written |
| NtlmsspLayout.HeadSlice | source4/auth/ntlmssp/ntlmssp_parse.c:137-179 | the bytes written at field i's head offset are its 8-byte length/length/offset descriptor (U, A, B), its inline bytes ('b', 'C') or its little-endian word ('d'), and stay inside the head |
| NtlmsspLayout.DataSlice | source4/auth/ntlmssp/ntlmssp_parse.c:137-161 | the payload of field i sits at head_size plus the payloads of the fields before it; 'a' writes its type, its length and then its string there |
| NtlmsspGen.FirstPass | source4/auth/ntlmssp/ntlmssp_parse.c:64-127 | the conversion the first pass performs for one format letter is the one the layout describes |
| NtlmsspGen.UnicodeArg | source4/auth/ntlmssp/ntlmssp_parse.c:66-77 | push_ucs2 with its 2-byte terminator dropped yields the UTF-16LE bytes of the string up to its first NUL |
| NtlmsspGen.FirstPasses | source4/auth/ntlmssp/ntlmssp_parse.c:62-129 | the first pass over the format yields every converted argument together with head_size and data_size |
| NtlmsspGen.WriteDescribed | source4/auth/ntlmssp/ntlmssp_parse.c:140-150 | a U, A or B field appends its descriptor (length twice, then data_ofs) to the head and its bytes to the payload, moving head_ofs by 8 and data_ofs by the length, and changes nothing else written so far |
| NtlmsspGen.WriteTyped | source4/auth/ntlmssp/ntlmssp_parse.c:151-161 | an 'a' field appends its 16-bit type, its 16-bit length and its bytes to the payload and leaves the head alone |
| NtlmsspGen.WriteField | source4/auth/ntlmssp/ntlmssp_parse.c:139-176 | one step of the second pass extends the head by the field's head bytes and the payload by its data bytes |
| NtlmsspGen.SecondPass | source4/auth/ntlmssp/ntlmssp_parse.c:131-179 | the second pass fills the whole blob with the layout of the converted fields |
| NtlmsspGen.Gen | source4/auth/ntlmssp/ntlmssp_parse.c:43-184 | msrpc_gen returns a new blob equal to the head of descriptors and inline fields followed by the payloads, in format order |
| NtlmsspParse.DescriptorInside | source4/auth/ntlmssp/ntlmssp_parse.c:236-239 | a descriptor that passes the overflow and bounds check points at bytes inside the blob |
| NtlmsspParse.ParseStep | source4/auth/ntlmssp/ntlmssp_parse.c:223-361 | a field that parses moves the head offset forward and leaves it inside the blob |
| NtlmsspParse.ParseDescribed | source4/auth/ntlmssp/ntlmssp_parse.c:225-323 | reading one U, A or B descriptor and the bytes it points at behaves as the step specification says, including every rejection |
| NtlmsspParse.ParseField | source4/auth/ntlmssp/ntlmssp_parse.c:223-361 | reading one field of any kind behaves as the step specification says |
| NtlmsspParse.Parse | source4/auth/ntlmssp/ntlmssp_parse.c:206-368 | msrpc_parse succeeds exactly when every field of the format parses in turn, and then returns their values in order |
| NtlmsspRoundTrip.DescriptorChecks | source4/auth/ntlmssp/ntlmssp_parse.c:225-323 | a U, A or B field fails when fewer than 8 head bytes remain; an empty descriptor gives the empty value; a non-empty one fails when its lengths differ, it runs past the blob, or for U its length is odd, and is accepted when its lengths agree, ptr + len neither wraps at 2^32 nor runs past the blob, and a U length is even; an accepted one pulls the bytes at ptr |
| NtlmsspRoundTrip.WrappedDescriptorRejected | source4/auth/ntlmssp/ntlmssp_parse.c:236-239 | a descriptor whose offset plus length wraps past 2^32 is refused, which is the integer-wrap check the parser carries |
| NtlmsspRoundTrip.EmptyDescriptorIgnoresOffset | source4/auth/ntlmssp/ntlmssp_parse.c:232-234 | a descriptor with both lengths zero yields the empty value whatever offset it holds |
| NtlmsspRoundTrip.ConstantMatch | source4/auth/ntlmssp/ntlmssp_parse.c:343-360 | a 'C' field succeeds exactly when the C string at the head offset equals the expected constant |
| NtlmsspRoundTrip.DescriptorFields | source4/auth/ntlmssp/ntlmssp_parse.c:143-146 | the descriptor written by the generator reads back as its length, its length again and its offset |
| NtlmsspRoundTrip.DescribedRoundTrip | source4/auth/ntlmssp/ntlmssp_parse.c:225-323 | a descriptor written by the generator, with its payload in place, parses back to the payload's value |
| NtlmsspRoundTrip.HeadBlobRoundTrip | source4/auth/ntlmssp/ntlmssp_parse.c:324-337 | an inline blob parses back to itself and moves the offset by its length |
| NtlmsspRoundTrip.WordRoundTrip | source4/auth/ntlmssp/ntlmssp_parse.c:338-342 | a word written with SIVAL reads back with IVAL as the word modulo 2^32 |
| NtlmsspRoundTrip.ConstantRoundTrip | source4/auth/ntlmssp/ntlmssp_parse.c:343-360 | a constant written with its NUL is matched by the parser |
| NtlmsspRoundTrip.DescribedAt | source4/auth/ntlmssp/ntlmssp_parse.c:140-150 | field i of a generated blob that has a descriptor parses back to its converted value at field i's head offset |
| NtlmsspRoundTrip.InlineAt | source4/auth/ntlmssp/ntlmssp_parse.c:167-176 | the bytes of an inline field sit at its head offset in the generated blob |
| NtlmsspRoundTrip.WordAt | source4/auth/ntlmssp/ntlmssp_parse.c:162-166 | the word of a 'd' field sits at its head offset in the generated blob |
| NtlmsspRoundTrip.FieldRoundTrip | source4/auth/ntlmssp/ntlmssp_parse.c:223-361 | each field of a generated blob parses back, at the offset the generator used, to the value the generator was given |
| NtlmsspRoundTrip.RoundTripFrom | source4/auth/ntlmssp/ntlmssp_parse.c:221-362 | parsing a generated blob from field i on returns the expected values of the remaining fields |
| NtlmsspRoundTrip.GenParseRoundTrip | source4/auth/ntlmssp/ntlmssp_parse.c:43-368 | msrpc_parse with the matching format undoes msrpc_gen for every list of fields it can read (no 'a', lengths below 2^16, blob below 2^32) |
| Ucs2.Utf16Le | source4/auth/ntlmssp/ntlmssp_parse.c:252-253 | UTF-16 units laid out little-endian take two bytes each |
| Ucs2.FromUtf16Le | source4/auth/ntlmssp/ntlmssp_parse.c:252-253 | reading UTF-16LE bytes gives one unit per two bytes |
| NtlmsspGen.Copy | source4/auth/ntlmssp/ntlmssp_parse.c:144-173 | the bytes land at the position given and every other byte of the blob stays |
| NtlmsspGen.PutHead | source4/auth/ntlmssp/ntlmssp_parse.c:144-166 | the head grows by the bytes written and the data area is untouched |
| NtlmsspGen.PutData | source4/auth/ntlmssp/ntlmssp_parse.c:147-160 | the data area grows by the bytes written and the head is untouched |
| NtlmsspGen.WriteNext | source4/auth/ntlmssp/ntlmssp_parse.c:137-179 | writing field i moves both offsets to where the layout puts field i+1, and the head and data written so far are those of the first i+1 fields |
| SmbPasswd.HexValueIsTableIndex | source4/lib/samba3/smbpasswd.c:73-84 | a character decodes exactly when its upper case is in "0123456789ABCDEF", and then to its index there |
| SmbPasswd.HexValueOfDigit | source4/lib/samba3/smbpasswd.c:65-84 | each digit of the table decodes to its own index |
| SmbPasswd.GetHexPwdImpl | source4/lib/samba3/smbpasswd.c:61-89 | the decoding loop returns NULL for a NULL string or a non-hex character among the first 32, and otherwise a new 16-byte hash, byte k built from characters 2k and 2k+1 |
| SmbPasswd.SetHexPwdImpl | source4/lib/samba3/smbpasswd.c:92-111 | the encoding loop prints each byte as two upper-case hex digits, or gives the "NO PASSWORD" placeholder when ACB_PWNOTREQ is set and the all-X placeholder otherwise |
| SmbPasswd.HexStringIsHex | source4/lib/samba3/smbpasswd.c:102-103 | every character the encoder prints is in the digit table |
| SmbPasswd.EncodedNibbles | source4/lib/samba3/smbpasswd.c:102-103 | the two characters printed for a byte decode to its high and its low nibble |
| SmbPasswd.Nibbles | source4/lib/samba3/smbpasswd.c:86 | (hi << 4) \| lo splits back into hi and lo |
| SmbPasswd.RoundTrip | source4/lib/samba3/smbpasswd.c:61-111 | the hex text of any 16-byte hash decodes to that hash |
| SmbPasswd.PrintedDigits | source4/lib/samba3/smbpasswd.c:73-86 | a byte assembled from two accepted characters prints as those characters in upper case |
| SmbPasswd.DecodeEncodeAt | source4/lib/samba3/smbpasswd.c:71-87 | byte j of a decoded text, printed again, is the upper case of characters 2j and 2j+1 |
| SmbPasswd.DecodeEncode | source4/lib/samba3/smbpasswd.c:61-111 | a text that decodes is re-encoded as the upper case of its first 32 characters |
| SmbPasswd.CaseInsensitive | source4/lib/samba3/smbpasswd.c:73-74 | decoding gives the same result for a text and its upper case |
| SmbPasswd.NonHexRejected | source4/lib/samba3/smbpasswd.c:79-81 | a character outside the table among the first 32 makes the decoder return NULL |
| SmbPasswd.PlaceholdersDoNotDecode | source4/lib/samba3/smbpasswd.c:104-109 | neither placeholder written for a missing hash decodes as a hash |
| NdrCompression.MszipPushChunk | librpc/ndr/ndr_compression.c:421-539 | an MSZIP chunk takes min(0x8000, remaining) input bytes, is the last one exactly when it took fewer than 0x8000, and is framed as plain size, compressed size and a body of "CK" plus the deflate output (10 to 10 + 32k + 12 bytes) |
| NdrCompression.XpressPushChunk | librpc/ndr/ndr_compression.c:594-647 | an XPRESS chunk takes min(0x10000, remaining) input bytes, is the last one exactly when it took fewer, and carries the plain size, the compressed size and the LZ77+Xpress data |
| NdrCompression.CabPushChunk | librpc/ndr/ndr_compression.c:180-302 | a CAB push with no input left fails with NDR_ERR_COMPRESSION; otherwise it takes up to 32k bytes and writes "CK" and the deflate output with no header |
| NdrCompression.Frame | librpc/ndr/ndr_compression.c:452-538 | a chunk frame is 8 header bytes longer than its body |
| NdrCompression.ReadFrame | librpc/ndr/ndr_compression.c:318-332 | a chunk header that reads successfully has a plain size within the limit and a compressed body inside the data |
| NdrCompression.Written | librpc/ndr/ndr_compression.c:566-583 | the decompressed XPRESS chunk is exactly plain-size bytes, starting with what the decompressor produced |
| NdrCompression.MszipPullChunk | librpc/ndr/ndr_compression.c:305-419 | a pulled MSZIP chunk consumes at least its 10-byte header and stays inside the data, yields at most 32k bytes, and is last exactly when it yields fewer than 32k or at most 4 bytes remain after it |
| NdrCompression.XpressPullChunk | librpc/ndr/ndr_compression.c:541-592 | a pulled XPRESS chunk consumes its header and body, yields at most 64k bytes, and is last exactly when it yields fewer than 64k or at most 4 bytes remain |
| NdrCompression.CabPullChunk | librpc/ndr/ndr_compression.c:50-178 | a CAB pull refuses a plain size over 32k, and on success yields exactly the CFDATA plain size, consumes exactly the compressed size and needs the "CK" prefix |
| NdrCompression.PushChunk | librpc/ndr/ndr_compression.c:755-796 | each push chunk either ends the sequence or consumes some input, which bounds the loop |
| NdrCompression.PullChunk | librpc/ndr/ndr_compression.c:653-713 | each pull chunk consumes some of the data, which bounds the loop |
| NdrCompression.PullStart | librpc/ndr/ndr_compression.c:653-713 | an unknown algorithm fails with NDR_ERR_COMPRESSION, and a successful pull yields exactly decompressed_len bytes |
| NdrCompression.PushEnd | librpc/ndr/ndr_compression.c:755-796 | an unknown algorithm fails with NDR_ERR_COMPRESSION |
| NdrCompression.ReadFrameOfFrame | librpc/ndr/ndr_compression.c:318-332 | the header the push writes reads back as its plain size and body |
| NdrCompression.MszipChunkRoundTrip | librpc/ndr/ndr_compression.c:305-539 | a pulled MSZIP chunk gives back the input its push took, consuming exactly the pushed bytes, when the inflater undoes the deflater |
| NdrCompression.XpressChunkRoundTrip | librpc/ndr/ndr_compression.c:541-647 | a pulled XPRESS chunk gives back the input its push took, consuming exactly the pushed bytes |
| NdrCompression.ChunkRoundTrip | librpc/ndr/ndr_compression.c:305-647 | a pushed chunk pulls back as the input it took, and the pull marks it last exactly when the push did |
| NdrCompression.PushChunksLong | librpc/ndr/ndr_compression.c:755-796 | a successful chunk sequence is longer than 4 bytes, so a pull never mistakes a non-final chunk for the last |
| NdrCompression.PullChunksFirst | librpc/ndr/ndr_compression.c:675-686 | the pull loop stops after a last chunk and otherwise continues with the rest, using the chunk's output as the next dictionary |
| NdrCompression.PushChunksFirst | librpc/ndr/ndr_compression.c:776-787 | the push loop stops after a last chunk and otherwise continues with the rest, using the chunk's input as the next dictionary |
| NdrCompression.PushLoopStep | librpc/ndr/ndr_compression.c:776-787 | one turn of the push loop keeps "what was written plus what remains to write" equal to the whole output |
| NdrCompression.PullLoopStep | librpc/ndr/ndr_compression.c:675-686 | one turn of the pull loop keeps "what was read plus what remains to read" equal to the whole output |
| NdrCompression.LastChunkRoundTrip | librpc/ndr/ndr_compression.c:675-686 | a push that ends with its first chunk pulls back to its input |
| NdrCompression.NextChunkRoundTrip | librpc/ndr/ndr_compression.c:675-686 | pulling a non-final pushed chunk followed by further chunks yields the chunk's input and continues after it with that input as dictionary |
| NdrCompression.ChunksRoundTrip | librpc/ndr/ndr_compression.c:653-796 | pulling what the MSZIP or XPRESS push loop produced gives its input back |
| NdrCompression.MoreChunksRoundTrip | librpc/ndr/ndr_compression.c:653-796 | a push that goes on past its first chunk round-trips whenever the push of the rest does |
| NdrCompression.CabRoundTrip | librpc/ndr/ndr_compression.c:50-302 | a CFDATA payload pulled with its own sizes gives back the input the push took |
| NdrCompression.SubcontextRoundTrip | librpc/ndr/ndr_compression.c:653-796 | ndr_pull_compression_start undoes ndr_push_compression_end for every known algorithm (MSZIP-CAB within one CFDATA), and both ends finish with the same CAB dictionary |
| NdrCompression.MszipPullRejects | librpc/ndr/ndr_compression.c:318-350 | an MSZIP plain size over 32k, a compressed size under 2 or a missing "CK" prefix fails with NDR_ERR_COMPRESSION |
| NdrCompression.XpressPullRejects | librpc/ndr/ndr_compression.c:553-557 | an XPRESS plain size over 64k fails with NDR_ERR_COMPRESSION |
| NdrStream.NdrPull.PullUint32 | librpc/ndr/ndr_compression.c:318-324 | four bytes are read little-endian and consumed, or NDR_ERR_BUFSIZE when fewer remain |
| NdrStream.NdrPull.Advance | librpc/ndr/ndr_compression.c:329-332 | the read offset moves by n exactly when n bytes remain, and otherwise stays |
| NdrStream.NdrPush.PushUint32 | librpc/ndr/ndr_compression.c:452-454 | four little-endian bytes are appended at the offset |
| NdrStream.NdrPush.PushZero | librpc/ndr/ndr_compression.c:566-569 | n zero bytes are appended at the offset |
| NdrStream.PushFrameHeader | librpc/ndr/ndr_compression.c:452-454 | the plain size and the 0xFEFEFEFE placeholder are appended, and the placeholder's offset is returned |
| NdrStream.PushFrameBody | librpc/ndr/ndr_compression.c:511-538 | after the body is written and the placeholder backpatched, the buffer ends with the frame of plain size and body |
| NdrStream.PushMszipChunk | librpc/ndr/ndr_compression.c:421-539 | the push of one MSZIP chunk appends exactly the chunk the specification gives and consumes the input it took |
| NdrStream.PushXpressChunk | librpc/ndr/ndr_compression.c:594-647 | the push of one XPRESS chunk appends exactly the specified chunk and consumes the input it took |
| NdrStream.PushCabChunk | librpc/ndr/ndr_compression.c:180-302 | the CAB push appends the specified payload and keeps the input it compressed as the next dictionary |
| NdrStream.PullFrame | librpc/ndr/ndr_compression.c:318-332 | reading the two header words and skipping the body behaves as the header specification says |
| NdrStream.PullMszipChunk | librpc/ndr/ndr_compression.c:305-419 | the pull of one MSZIP chunk appends the inflated bytes and consumes the chunk, as specified |
| NdrStream.PullXpressChunk | librpc/ndr/ndr_compression.c:541-592 | the pull of one XPRESS chunk appends exactly plain-size bytes and consumes the chunk, as specified |
| NdrStream.PullCabChunk | librpc/ndr/ndr_compression.c:50-178 | the CAB pull appends the inflated bytes and keeps them as the next dictionary |
| NdrStream.PullChunkLoop | librpc/ndr/ndr_compression.c:675-686 | the `while (!last)` pull loop collects exactly the bytes the chunk-sequence specification gives, or its error |
| NdrStream.PushChunkLoop | librpc/ndr/ndr_compression.c:776-787 | the `while (!last)` push loop appends exactly the bytes the chunk-sequence specification gives, or its error |
| NdrStream.PullCompressionStart | librpc/ndr/ndr_compression.c:653-713 | the decompressed subcontext equals the pull specification's result, including the length check and the unknown-algorithm error |
| NdrStream.PushCompressionStart | librpc/ndr/ndr_compression.c:726-750 | an unknown algorithm is refused with NDR_ERR_COMPRESSION; a known one gets a fresh empty buffer |
| NdrStream.PushCompressionEnd | librpc/ndr/ndr_compression.c:755-796 | the bytes appended to the enclosing push equal the push specification's result for what was pushed into the subcontext |
| NdrStream.StateInit | librpc/ndr/ndr_compression.c:828-862 | a state is created exactly for a known algorithm, with an empty dictionary; an unknown one fails with NDR_ERR_COMPRESSION |
| NdrStream.NdrPush.WriteAt | librpc/ndr/ndr_compression.c:456-469 | bytes written at a position overwrite the buffer there and extend it as needed; the offset stays |
| NdrStream.NdrPush.Fill | librpc/ndr/ndr_compression.c:335-356 | the zeroed plain-chunk area at the end of the buffer is replaced by the decompressed bytes; the offset stays |
| NdrStream.PullChunkStep | librpc/ndr/ndr_compression.c:675-686 | one pull iteration fails exactly as the whole specified loop does, and otherwise consumes input and appends its output, keeping the loop's specification |
| NdrStream.PushChunkStep | librpc/ndr/ndr_compression.c:776-787 | one push iteration fails exactly as the whole specified loop does, and otherwise consumes input and appends its output, keeping the loop's specification |
| SecurityToken.Initialise | source4/libcli/security/security_token.c:30-46 | a new token has no user SID, no group SID, no SIDs and an empty privilege mask |
| SecurityToken.HasSidIn | source4/libcli/security/security_token.c:112-121 | the scan of sids[0..num_sids) answers true exactly when some entry equals the SID |
| SecurityToken.IsSidString | source4/libcli/security/security_token.c:90-100 | true exactly when the string parses and the parsed SID is the user SID; an unparsable string gives false |
| SecurityToken.HasSidString | source4/libcli/security/security_token.c:123-133 | true exactly when the string parses and the parsed SID is in the token's list; an unparsable string gives false |
| SecurityToken.InitialiseHoldsNothing | source4/libcli/security/security_token.c:39-43 | no SID query succeeds on a blank token, and a session holding one is anonymous |
| SecurityToken.IsSidIgnoresGroups | source4/libcli/security/security_token.c:82-88 | security_token_is_sid depends on the user SID alone |
| SecurityToken.HasSidBySet | source4/libcli/security/security_token.c:112-121 | security_token_has_sid depends only on which SIDs the list holds, not on their order or repetition |
| SecurityToken.UnparsableIsAnonymous | source4/libcli/security/security_token.c:145-168 | when no SID string parses every session is anonymous |
| SecurityToken.UserLevelLadder | source4/libcli/security/security_token.c:145-168 | SYSTEM exactly for the SYSTEM user SID; otherwise ANONYMOUS for the anonymous user SID; otherwise ADMINISTRATOR with BUILTIN\Administrators in the list; otherwise USER with Authenticated Users; otherwise ANONYMOUS, each level stated in both directions |
| SecurityToken.AnonymousUserIgnoresGroups | source4/libcli/security/security_token.c:155-157 | an anonymous user SID is anonymous whatever groups the token lists |
| SecurityToken.IsSid | source4/libcli/security/security_token.c:82-88 | true exactly when the token's user SID is the SID; its properties are stated by IsSidIgnoresGroups and InitialiseHoldsNothing |
| SecurityToken.HasSid | source4/libcli/security/security_token.c:112-121 | true exactly when the token's SID list holds the SID (HasSidIn, HasSidBySet) |
| SecurityToken.IsSystem | source4/libcli/security/security_token.c:102-105 | the user SID is the one SID_NT_SYSTEM parses to (IsSidString) |
| SecurityToken.IsAnonymous | source4/libcli/security/security_token.c:107-110 | the user SID is the one SID_NT_ANONYMOUS parses to (IsSidString) |
| SecurityToken.HasBuiltinAdministrators | source4/libcli/security/security_token.c:135-138 | the SID list holds the SID SID_BUILTIN_ADMINISTRATORS parses to (HasSidString) |
| SecurityToken.HasAuthenticatedUsers | source4/libcli/security/security_token.c:140-143 | the SID list holds the SID SID_NT_AUTHENTICATED_USERS parses to (HasSidString) |
| SecurityToken.SessionUserLevel | source4/libcli/security/security_token.c:145-168 | a missing session is anonymous; otherwise the first rung reached of SYSTEM, ANONYMOUS, ADMINISTRATOR, USER, else ANONYMOUS, as UserLevelLadder, AnonymousUserIgnoresGroups and UnparsableIsAnonymous state |
| LinkedAttributes.Store | source4/dsdb/samdb/ldb_modules/linked_attributes.c:86-129 | la_store_op fails with LDB_ERR_INVALID_DN_SYNTAX exactly when the value is not a DN; otherwise an ADD is appended at the tail and a DEL pushed at the head |
| LinkedAttributes.ForwardTarget | source4/dsdb/samdb/ldb_modules/linked_attributes.c:170-201 | an attribute missing from the schema is an object-class violation; an odd linkID is refused as unwilling to perform; linkID 0 and an even linkID whose partner linkID+1 is missing are skipped; otherwise the back-link is the attribute of linkID+1 |
| LinkedAttributes.FindElement | source4/dsdb/samdb/ldb_modules/linked_attributes.c:283-291 | the element found carries the name asked for, and none is found only when no element has that name |
| LinkedAttributes.Names | source4/dsdb/samdb/ldb_modules/linked_attributes.c:495-503 | the search's attribute list names the remembered elements in order |
| LinkedAttributes.HeadRequest | source4/dsdb/samdb/ldb_modules/linked_attributes.c:770-837 | an empty queue completes the request; otherwise the head op becomes a one-value modify of its attribute on its entry, MOD_ADD with add_dn for an ADD and MOD_DELETE with del_dn for a DEL |
| LinkedAttributes.LaContext.StoreOp | source4/dsdb/samdb/ldb_modules/linked_attributes.c:86-129 | the queue becomes what la_store_op's specification gives, and stays as it was on error |
| LinkedAttributes.LaContext.StoreValues | source4/dsdb/samdb/ldb_modules/linked_attributes.c:203-210 | the loop over an element's values stores them one by one, stopping at the first error |
| LinkedAttributes.LaContext.Add | source4/dsdb/samdb/ldb_modules/linked_attributes.c:141-224 | a special DN or a missing schema passes the request on; otherwise the queue is one ADD per value of every forward link, a schema error fails, and an empty queue passes the request on unchanged |
| LinkedAttributes.LaContext.Modify | source4/dsdb/samdb/ldb_modules/linked_attributes.c:353-533 | REPLACE queues an ADD per value and remembers the element, ADD queues an ADD per value, DELETE with values a DEL per value and without values only remembers the element; any queued op or remembered element starts a base search for those attributes |
| LinkedAttributes.LaContext.ModSearchEntry | source4/dsdb/samdb/ldb_modules/linked_attributes.c:257-319 | an entry whose DN is not the modified DN, compared ignoring case, is an operations error; otherwise add_dn and del_dn become its DN and a DEL is queued for every value the entry holds of each remembered element |
| LinkedAttributes.LaContext.OpSearchEntry | source4/dsdb/samdb/ldb_modules/linked_attributes.c:642-724 | an entry whose DN is not the search base, compared ignoring case, is an operations error, and so is an entry for an operation other than delete or rename; an entry with no attributes changes nothing; a delete sets del_dn and a rename sets add_dn to the new DN and del_dn to the old one; every linked value found queues a DEL of the partner attribute, and for a rename also an ADD |
| LinkedAttributes.LaContext.DoModRequest | source4/dsdb/samdb/ldb_modules/linked_attributes.c:770-837 | the request sent for the queue is the one its specification gives |
| LinkedAttributes.LaContext.ModCallback | source4/dsdb/samdb/ldb_modules/linked_attributes.c:839-875 | an error reply ends the request with that error and any reply but DONE with an operations error; DONE removes exactly the head op and sends the next |
| LinkedAttributes.StoreAllFails | source4/dsdb/samdb/ldb_modules/linked_attributes.c:96-100 | the value loop fails exactly when some value is not a DN, and then with LDB_ERR_INVALID_DN_SYNTAX |
| LinkedAttributes.StoreAllAdds | source4/dsdb/samdb/ldb_modules/linked_attributes.c:119-121 | ADDs land at the tail in value order |
| LinkedAttributes.StoreAllDels | source4/dsdb/samdb/ldb_modules/linked_attributes.c:122-126 | DELs land at the head, the last value first |
| LinkedAttributes.StoreKeepsOrder | source4/dsdb/samdb/ldb_modules/linked_attributes.c:119-126 | storing one op never puts an ADD ahead of a DEL |
| LinkedAttributes.StoreAllKeepsOrder | source4/dsdb/samdb/ldb_modules/linked_attributes.c:203-210 | storing all values of an element never puts an ADD ahead of a DEL |
| LinkedAttributes.ModifyPlanKeepsOrder | source4/dsdb/samdb/ldb_modules/linked_attributes.c:391-489 | the queue a modify builds runs its deletes before its adds |
| LinkedAttributes.ModSearchPlanOnlyDels | source4/dsdb/samdb/ldb_modules/linked_attributes.c:271-317 | the search callback of a modify only pushes DELs in front of the queue it was given, so a queue with its DELs before its ADDs stays so |
| LinkedAttributes.OpSearchPlanKeepsOrder | source4/dsdb/samdb/ldb_modules/linked_attributes.c:672-722 | the queue a delete or rename builds runs its deletes before its adds |
| LinkedAttributes.CountAppend | source4/dsdb/samdb/ldb_modules/linked_attributes.c:119-126 | counting queued ops of one kind adds up over concatenation |
| LinkedAttributes.RenameBalanced | source4/dsdb/samdb/ldb_modules/linked_attributes.c:705-721 | a rename queues exactly one ADD and one DEL per value it finds |
| LinkedAttributes.AddWithoutLinks | source4/dsdb/samdb/ldb_modules/linked_attributes.c:178-180 | an add whose attributes all have linkID 0 queues nothing |
| LinkedAttributes.AddPlanOnlyAdds | source4/dsdb/samdb/ldb_modules/linked_attributes.c:203-210 | adding an entry queues only ADDs |
| LinkedAttributes.AddOpsAreAdds | source4/dsdb/samdb/ldb_modules/linked_attributes.c:203-210 | the ADD side of a value loop is one ADD per value |
| LinkedAttributes.LaContext.constructor | source4/dsdb/samdb/ldb_modules/linked_attributes.c:63-83 | a fresh context holds the schema and the operation with no pending operations and no remembered DNs |
| LinkedAttributes.SameDn | source4/dsdb/samdb/ldb_modules/linked_attributes.c:259 | ldb_dn_compare(a, b) == 0: the two DNs are equal once ASCII letters are case-folded |
| LinkedAttributes.SameDnEquivalence | source4/dsdb/samdb/ldb_modules/linked_attributes.c:643 | DN comparison is reflexive, symmetric and transitive |
| LinkedAttributes.SameDnIgnoresCase | source4/dsdb/samdb/ldb_modules/linked_attributes.c:259 | a DN and its upper-cased form name the same entry |
| LinkedAttributes.AddPlan | source4/dsdb/samdb/ldb_modules/linked_attributes.c:169-213 | the queue linked_attributes_add builds, element by element; its properties are stated by AddPlanOnlyAdds, AddWithoutLinks and the Add method |
| LinkedAttributes.ModifyPlan | source4/dsdb/samdb/ldb_modules/linked_attributes.c:391-489 | the queue and remembered elements linked_attributes_modify builds; its order is stated by ModifyPlanKeepsOrder |
| LinkedAttributes.ModSearchPlan | source4/dsdb/samdb/ldb_modules/linked_attributes.c:271-317 | a remembered element missing from the schema is an object-class violation; one the entry does not hold or with no back-link is skipped; otherwise a DEL of each value it holds now (ModSearchEntry) |
| LinkedAttributes.OpSearchPlan | source4/dsdb/samdb/ldb_modules/linked_attributes.c:673-723 | an attribute missing from the schema is an object-class violation; one with linkID 0 or no partner is skipped; otherwise a DEL per value on the partner, and for a rename an ADD too (OpSearchPlanKeepsOrder, RenameBalanced) |
| DreplOut.NormaliseBindInfo | source4/dsdb/repl/drepl_out_helpers.c:166-220 | the kept bind info is all zero without bind info or for an unknown length; the 24-byte arm keeps extensions, site GUID and pid with a zero repl_epoch; the 28/32/48/52-byte arms also keep repl_epoch |
| DreplOut.NormaliseIdempotent | source4/dsdb/repl/drepl_out_helpers.c:166-220 | a kept bind info offered again as a 28-byte bind info is kept unchanged |
| DreplOut.RequestLevel | source4/dsdb/repl/drepl_out_helpers.c:561-589 | the request level is 8 exactly when the server supports GETCHGREQ_V8, and 5 otherwise |
| DreplOut.RodcAttidsExact | source4/dsdb/repl/drepl_out_helpers.c:305-353 | the RODC partial attribute set holds the attid of every attribute that is neither not-replicated, constructed nor RODC-filtered, holds nothing else, and is no longer than the schema |
| DreplOut.GcAttidsExact | source4/dsdb/repl/drepl_out_helpers.c:359-402 | the GC partial attribute set holds the attid of every member of the partial attribute set and nothing else, and is no longer than the schema |
| DreplOut.ReplicaFlagsBits | source4/dsdb/repl/drepl_out_helpers.c:483-555 | bit by bit: WRIT_REP dropped for a partial, RODC or REPL_SECRET request and kept otherwise; GET_ALL_GROUP_MEMBERSHIP set unless partial; SPECIAL_SECRET_PROCESSING cleared for REPL_SECRET and set for RODC; ADD_REF never with an extended operation and kept without one; GET_ANC asked for is sent; FULL_SYNC_NOW marks NEVER_SYNCED |
| DreplOut.ReplicaFlagsFrame | source4/dsdb/repl/drepl_out_helpers.c:483-555 | only ADD_REF, WRIT_REP, GET_ANC, NEVER_SYNCED, SPECIAL_SECRET_PROCESSING, SYNC_FORCED and GET_ALL_GROUP_MEMBERSHIP can differ from the stored repsFrom flags; every other bit is sent as stored |
| DreplOut.ReplicaFlagsSyncForced | source4/dsdb/repl/drepl_out_helpers.c:490-492 | SYNC_FORCED in the operation's options is set in the replica flags sent |
| DreplOut.FullSyncOnce | source4/dsdb/repl/drepl_out_helpers.c:548-558 | after a request FULL_SYNC_NOW is gone, FULL_SYNC_IN_PROGRESS is set exactly when either was, and a second request changes the options no more |
| DreplOut.SelectCtr | source4/dsdb/repl/drepl_out_helpers.c:639-671 | a container is chosen exactly for level 1, level 6, a decompressed level 2, or a decompressed level 7 of inner level 6 with MSZIP or XPRESS; every other reply is WERR_BAD_NET_RESP |
| DreplOut.CompressedSelectLikePlain | source4/dsdb/repl/drepl_out_helpers.c:639-665 | a decompressed level-2 or level-7 reply is chosen exactly as the level-1 or level-6 reply it carries |
| DreplOut.MissingParentRetriedOnce | source4/dsdb/repl/drepl_out_helpers.c:936-961 | a failed commit is retried with ancestors exactly when a parent was missing and GET_ANC was clear, and never once GET_ANC is set |
| DreplOut.ReplicaFlags | source4/dsdb/repl/drepl_out_helpers.c:483-555 | the replica flags of a request, built from the repsFrom flags, the options and the partition kind; stated bit by bit by ReplicaFlagsBits |
| DreplOut.OptionsAfterTrigger | source4/dsdb/repl/drepl_out_helpers.c:548-558 | FULL_SYNC_NOW is traded for FULL_SYNC_IN_PROGRESS; stated by FullSyncOnce |
| DreplOut.ExtendedRet | source4/dsdb/repl/drepl_out_helpers.c:673-684 | a level-6 drs_error fails first; otherwise extended_ret of the chosen container (DoneAccepts) |
| DreplOut.CommitFailure | source4/dsdb/repl/drepl_out_helpers.c:936-961 | a missing parent with GET_ANC clear is retried with ancestors, a missing parent with GET_ANC set fails with INVALID_NETWORK_RESPONSE, any other failure with BAD_NET_RESP; stated by MissingParentRetriedOnce |
| DreplPull.UdvConvert | source4/dsdb/repl/drepl_out_helpers.c:407-426 | the request vector has version 2, zero reserved fields, the stored vector's count, and for each stored cursor its invocation id and highest USN |
| DreplPull.ConversionKeepsUsns | source4/dsdb/repl/drepl_out_helpers.c:407-426 | the converted vector records the same highest USN for every invocation id as the stored vector |
| DreplPull.CursorsKeepUsns | source4/dsdb/repl/drepl_out_helpers.c:413-423 | cursors copied one by one answer every invocation-id lookup as the originals do |
| DreplPull.RodcPartialAttributeSet | source4/dsdb/repl/drepl_out_helpers.c:305-353 | the array loop yields version 1 and exactly the RODC attid list in schema order |
| DreplPull.GcPartialAttributeSet | source4/dsdb/repl/drepl_out_helpers.c:359-402 | the array loop yields version 1 and exactly the GC attid list in schema order |
| DreplPull.BuildReplicaFlags | source4/dsdb/repl/drepl_out_helpers.c:483-555 | the flags built step by step are the replica flags whose bits ReplicaFlagsBits states |
| DreplPull.CopyOptionFlags | source4/dsdb/repl/drepl_out_helpers.c:483-491 | GET_ANC and SYNC_FORCED are added when the options carry them |
| DreplPull.ApplyPartitionKind | source4/dsdb/repl/drepl_out_helpers.c:493-537 | the partial, RODC/REPL_SECRET and plain branches change the flags as the partition kind requires |
| DreplPull.BuildPartialSet | source4/dsdb/repl/drepl_out_helpers.c:493-534 | a partial replica gets the GC set, an RODC replica or REPL_SECRET operation the RODC set, any other request none |
| DreplPull.Partition.constructor | source4/dsdb/repl/drepl_out_helpers.c:465-481 | a partition starts with its kind, its stored vector and an empty request vector |
| DreplPull.PrepareUptodatenessVector | source4/dsdb/repl/drepl_out_helpers.c:465-475 | the request vector is converted from the stored one when one is stored and the request form is empty, and left alone otherwise |
| DreplPull.SourceDsa.constructor | source4/dsdb/repl/drepl_out_helpers.c:433-435 | a source DSA belongs to its partition and holds its repsFrom record |
| DreplPull.PullSource.constructor | source4/dsdb/repl/drepl_out_helpers.c:243-274 | a fresh pull has no retry started and nothing to come back to |
| DreplPull.PullSource.StartFullSync | source4/dsdb/repl/drepl_out_helpers.c:548-555 | a full sync starts exactly when FULL_SYNC_NOW was set, and the options become those after the trigger; nothing else changes |
| DreplPull.PullSource.GetChangesTrigger | source4/dsdb/repl/drepl_out_helpers.c:429-604 | the request carries the replica flags of the repsFrom flags, options and partition kind; a zero highwatermark on a full sync; no vector during a full sync or when none is stored; level 8 with 133 objects and 1336811 bytes and the partial set, or level 5 with 1336770 bytes and none; the options lose FULL_SYNC_NOW |
| DreplPull.PullSource.GetChangesDone | source4/dsdb/repl/drepl_out_helpers.c:612-697 | the result is the transport error, BAD_NET_RESP for an unknown container, the level-6 drs_error, UNSUCCESSFUL for a failed extended operation, or the chosen container; only extended_ret changes |
| DreplPull.PullSource.RetryForSchema | source4/dsdb/repl/drepl_out_helpers.c:829-920 | the state and outcome follow the schema-mismatch decision |
| DreplPull.PullSource.RetryForCommit | source4/dsdb/repl/drepl_out_helpers.c:936-961 | the state and outcome follow the failed-commit decision |
| DreplPull.PullSource.AfterCommit | source4/dsdb/repl/drepl_out_helpers.c:964-1005 | the state and outcome follow the committed-reply decision, and the repsFrom values move only without an extended operation |
| DreplPull.PullSource.ApplyChanges | source4/dsdb/repl/drepl_out_helpers.c:701-1006 | the state and outcome are those of the apply step, whose properties the lemmas below state, and the source DSA's repsFrom values are replaced exactly when the step stores them |
| DreplPull.DoneAccepts | source4/dsdb/repl/drepl_out_helpers.c:612-697 | a reply is accepted exactly when it arrived, its container is known, the level-6 drs_error is clear and an extended operation returned SUCCESS; then the chosen container is the result |
| DreplPull.SchemaRetryAtMostOnce | source4/dsdb/repl/drepl_out_helpers.c:829-920 | no step clears the retry mark; with it set a schema mismatch fails; the mark is set only by a schema mismatch that retriggers |
| DreplPull.SchemaRetryTarget | source4/dsdb/repl/drepl_out_helpers.c:839-918 | the retry pulls from the schema source DSA with no extended operation and comes back to the original source DSA, keeping only a REPL_SECRET operation |
| DreplPull.MissingParentRetryOnce | source4/dsdb/repl/drepl_out_helpers.c:936-961 | no step clears GET_ANC; with it set a missing parent fails; with it clear a missing parent retriggers with GET_ANC added and nothing else changed |
| DreplPull.CommitFailedOptions | source4/dsdb/repl/drepl_out_helpers.c:936-961 | the failed-commit step keeps GET_ANC, fails a missing parent when GET_ANC is set, and otherwise retries with GET_ANC added |
| DreplPull.HighwatermarkOnlyWithoutExop | source4/dsdb/repl/drepl_out_helpers.c:964-970 | the repsFrom values move exactly when the reply was converted and committed without an extended operation |
| DreplPull.UpdateRefsWhen | source4/dsdb/repl/drepl_out_helpers.c:972-1005 | UpdateRefs follows exactly the last reply of a committed plain pull by a writable DC with no pending retry |
| DreplPull.SchemaRetry | source4/dsdb/repl/drepl_out_helpers.c:829-920 | the schema-mismatch branch; its properties are stated by SchemaRetryAtMostOnce and SchemaRetryTarget |
| DreplPull.Committed | source4/dsdb/repl/drepl_out_helpers.c:964-1005 | the committed-reply branch; stated by HighwatermarkOnlyWithoutExop and UpdateRefsWhen |
| DreplPull.ApplyStep | source4/dsdb/repl/drepl_out_helpers.c:761-1005 | no schema, a failed working schema or a missing NC root fail with INTERNAL_ERROR; a schema mismatch retries; another conversion failure is BAD_NET_RESP; then the commit branches (SchemaRetryAtMostOnce, MissingParentRetryOnce, UpdateRefsWhen) |
| DreplPull.CommitFailed | source4/dsdb/repl/drepl_out_helpers.c:936-961 | the failed-commit branch; stated by CommitFailedOptions and MissingParentRetryOnce |
| DreplPull.DoneResult | source4/dsdb/repl/drepl_out_helpers.c:627-694 | the reply a pull accepts; stated by DoneAccepts |
| DreplPull.DoneExtendedRet | source4/dsdb/repl/drepl_out_helpers.c:686-688 | extended_ret is recorded only for an extended operation whose reply reached the check |
| NetRpc.WithSid | source/utils/net_rpc.c:4201-4214 | adding a SID keeps the old SIDs in order, makes the SID present, adds nothing else, grows the list by one exactly when the SID was missing, and keeps the list free of duplicates |
| NetRpc.WithSidIdempotent | source/utils/net_rpc.c:4201-4214 | adding the same SID twice is the same as adding it once |
| NetRpc.AddAliasesOf | source/utils/net_rpc.c:4238-4246 | the token keeps what it had and gains exactly the SIDs of the aliases that list the SID as a member, without duplicates |
| NetRpc.Collect | source/utils/net_rpc.c:4261-4268 | the token keeps what it had and gains exactly the SIDs of the aliases that list one of the given SIDs, without duplicates |
| NetRpc.CollectOneLevel | source/utils/net_rpc.c:4261-4268 | alias memberships are expanded one level: an alias whose only member is another alias joins the token only when that member was already in it |
| NetRpc.UserToken.constructor | source/utils/net_rpc.c:4169-4183 | a token starts with no SIDs |
| NetRpc.UserToken.Init | source/utils/net_rpc.c:4169-4183 | a token holds the user SID, World, Network and Authenticated Users in that order, or nothing when the allocation fails; the four are distinct when the user SID is none of the three well-known ones |
| NetRpc.UserToken.Contains | source/utils/net_rpc.c:4190-4199 | the scan finds the SID exactly when the token holds it |
| NetRpc.UserToken.Add | source/utils/net_rpc.c:4201-4214 | the token becomes the SID list with the SID added once |
| NetRpc.UserToken.CollectSidMemberships | source/utils/net_rpc.c:4238-4246 | the token becomes its old SIDs with the aliases of the SID added |
| NetRpc.UserToken.CollectAliasMemberships | source/utils/net_rpc.c:4261-4268 | the token becomes its old SIDs with the aliases of the SIDs it held on entry added; SIDs added on the way are not expanded |
| NetRpc.IsAliasMember | source/utils/net_rpc.c:4226-4236 | the scan answers true exactly when the SID is one of the alias's members |
| NetRpc.StripNewline | source/utils/net_rpc.c:4435-4436 | a trailing newline is cut off and nothing else changes |
| NetRpc.UserNames | source/utils/net_rpc.c:4438-4467 | the user lines of the file, in order, are no more than its lines |
| NetRpc.ParseFailsIffLeadingSid | source/utils/net_rpc.c:4438-4448 | the token file is refused exactly when its first line is a SID line |
| NetRpc.UserNamesEmpty | source/utils/net_rpc.c:4438-4467 | a file whose first line is a user line names at least one user |
| NetRpc.ParseNames | source/utils/net_rpc.c:4453-4467 | every user line starts one token, in file order, and no token comes from anything else |
| NetRpc.ParseDistinct | source/utils/net_rpc.c:4438-4450 | no token read from the file lists a SID twice |
| NetRpc.ReadLine | source/utils/net_rpc.c:4435-4467 | one loop iteration does what one line of the file means |
| NetRpc.NoneExtends | source/utils/net_rpc.c:4443-4446 | once a prefix of the file is refused the whole file is refused |
| NetRpc.ReadTokens | source/utils/net_rpc.c:4423-4467 | the loop's answer is the parse of the whole file |
| NetRpc.SetBit | source/utils/net_rpc.c:1399-1406 | the bit is on and every other bit is kept |
| NetRpc.ClearBit | source/utils/net_rpc.c:1399-1406 | the bit is off and every other bit is kept |
| NetRpc.FlagEdit | source/utils/net_rpc.c:1415-1470 | more than one argument or one other than yes/no is a usage error; otherwise a failed query passes its status on; with no argument the old value is reported; with one the new flags are written |
| NetRpc.HandleFlagsFor | source/utils/net_rpc.c:1449-1452 | a command naming one flag gets exactly that flag's HANDLEFLG effect |
| NetRpc.FlagNameMatches | source/utils/net_rpc.c:1449-1452 | a command matches at most one of the four flag names, even ignoring case |
| NetRpc.FlagEditBit | source/utils/net_rpc.c:1430-1470 | "yes" sets the command's bit, "no" clears it, every other bit is written back unchanged, and with no argument the old bit is reported as yes or no |
| NetRpc.FlagEditUnknownCommand | source/utils/net_rpc.c:1425-1470 | a command naming none of the four flags reports "unknown" and writes the flags back as read |
| NetRpc.TrustAccountName | source/utils/net_rpc.c:5365-5373 | the account name is the domain name upper-cased with '$' appended: one longer, equal to name plus '$' ignoring case, with no lower-case letter |
| NetRpc.UpperIdempotent | source/utils/net_rpc.c:5373 | upper-casing twice is upper-casing once |
| NetRpc.TrustdomAddAccount | source/utils/net_rpc.c:5362-5373 | exactly two arguments give the trust account name of the first; anything else is INVALID_PARAMETER |
| NetRpc.TrustdomDelAccount | source/utils/net_rpc.c:5528-5542 | exactly one argument gives the trust account name; anything else is INVALID_PARAMETER |
| NetRpc.ParseLine | source/utils/net_rpc.c:4438-4467 | fails exactly when a SID line comes before any user line; a SID line keeps the earlier tokens and the last token's name and SIDs and adds exactly the parsed SID to it; any other line appends a new token with no SIDs |
| NetRpc.ParseTokens | source/utils/net_rpc.c:4428-4467 | get_user_tokens_from_file over the file's lines; stated by ParseFailsIffLeadingSid, ParseNames, ParseDistinct and NoneExtends |
| NetRpc.HandleFlag | source/utils/net_rpc.c:1399-1406 | a command other than the flag name leaves the change so far alone; a matching command reports the old bit as yes or no, and HandleFlagsFor states the new flags |
| NetRpc.HandleFlags | source/utils/net_rpc.c:1452-1455 | the four expansions in source order; a command gets exactly its own flag's effect, or none (HandleFlagsFor, FlagEditUnknownCommand) |
| Spoolss.FirstLong | source3/rpcclient/cmd_spoolss.c:75-98 | the row found is the first whose long name equals the name ignoring case, and none is found exactly when no row matches |
| Spoolss.FirstShort | source3/rpcclient/cmd_spoolss.c:1225-1233 | the row found is the first whose short name equals the name exactly, and none is found exactly when no row matches |
| Spoolss.GetShortArchi | source3/rpcclient/cmd_spoolss.c:75-98 | the scan returns the short name of the first row matching the long name ignoring case, and NULL exactly when none matches |
| Spoolss.FirstLongIgnoresCase | source3/rpcclient/cmd_spoolss.c:80-83 | names equal up to case find the same row |
| Spoolss.ShortArchiExamples | source3/rpcclient/cmd_spoolss.c:48-59 | in archi_table "Windows NT x86" maps to W32X86 through its first row, and "Windows 2000" is unknown |
| Spoolss.ArchiSignatures | source3/rpcclient/cmd_spoolss.c:48-59 | only the two "Windows NT x86" rows of archi_table share a name up to case |
| Spoolss.AddDriverInfo3.constructor | source3/rpcclient/cmd_spoolss.c:1218-1241 | a zeroed driver description has version 0 and no field set |
| Spoolss.AddDriverInfo3.SetEnv | source3/rpcclient/cmd_spoolss.c:1218-1241 | the first row whose short name is the argument gives the version and the long architecture name; an unknown short name changes nothing; the other fields are untouched |
| Spoolss.AddDriverInfo3.InitMembers | source3/rpcclient/cmd_spoolss.c:1281-1335 | the fields become what the argument string describes; version and architecture are untouched |
| Spoolss.ReadDriverArgs | source3/rpcclient/cmd_spoolss.c:1281-1335 | the seven parameter calls and the dependent-file loop yield the fields the argument string describes |
| Spoolss.StrTok | source3/rpcclient/cmd_spoolss.c:1256 | strtok_r yields nothing exactly when the input is all delimiters; a token is non-empty, free of the delimiter, and consumes input |
| Spoolss.LeadingDelims | source3/rpcclient/cmd_spoolss.c:1256 | the run of delimiters strtok_r skips: every character before it is the delimiter and the one after it is not |
| Spoolss.StrTokToken | source3/rpcclient/cmd_spoolss.c:1256 | the token is the text that follows the leading delimiters up to the next delimiter or the end, and what remains is the text after that delimiter, or nothing at the end |
| Spoolss.TokenAfterDelim | source3/rpcclient/cmd_spoolss.c:1256 | a token found after one more leading delimiter sits one place further on in the longer input |
| Spoolss.TokenLength | source3/rpcclient/cmd_spoolss.c:1256 | the token runs up to the first delimiter or the end of the text |
| Spoolss.Tokens | source3/rpcclient/cmd_spoolss.c:1318-1321 | every token the repeated strtok_r yields is non-empty and free of the delimiter |
| Spoolss.TokenLengthOfJoin | source3/rpcclient/cmd_spoolss.c:1256 | a token that is a plain field is read whole |
| Spoolss.StrTokJoin | source3/rpcclient/cmd_spoolss.c:1256 | strtok_r on joined plain fields returns the first field and leaves the rest joined |
| Spoolss.TokensJoin | source3/rpcclient/cmd_spoolss.c:1318-1321 | splitting joined plain fields gives them back |
| Spoolss.NullParam | source3/rpcclient/cmd_spoolss.c:1262-1264 | a parameter is NULL exactly when there is no token or it reads NULL in any case; otherwise it is the token |
| Spoolss.GetDriver3Param | source3/rpcclient/cmd_spoolss.c:1249-1271 | the method returns the next parameter and the text still to scan |
| Spoolss.CollectFiles | source3/rpcclient/cmd_spoolss.c:1318-1321 | the loop collects every ','-separated token of the dependent-file text in order |
| Spoolss.ParamJoin | source3/rpcclient/cmd_spoolss.c:1249-1271 | a parameter read from joined plain fields is the next field, and the rest is the remaining fields joined |
| Spoolss.ParseChain | source3/rpcclient/cmd_spoolss.c:1291-1303 | seven parameters read one after another fill the seven name fields, and the text after them gives the dependent files |
| Spoolss.ParseJoined | source3/rpcclient/cmd_spoolss.c:1291-1303 | seven joined fields none of which reads NULL come back as the seven name fields |
| Spoolss.DriverArgsRoundTrip | source3/rpcclient/cmd_spoolss.c:1281-1335 | a description written out from seven fields and a non-empty file list reads back as those fields and those files |
| Spoolss.NoDependentFiles | source3/rpcclient/cmd_spoolss.c:1310-1313 | a description with no dependent-file part leaves the dependent files unset |
| Spoolss.EnumDriverArchs | source3/rpcclient/cmd_spoolss.c:1088-1094 | the loop asks for the architectures the table names, skipping a row equal to the one before it |
| Spoolss.QueriedFrom | source3/rpcclient/cmd_spoolss.c:1088-1094 | every architecture asked for is the long name of some row |
| Spoolss.QueriedCovers | source3/rpcclient/cmd_spoolss.c:1088-1094 | the architecture of every row is asked for |
| Spoolss.QueriedDistinct | source3/rpcclient/cmd_spoolss.c:1091-1093 | in a table whose rows of one architecture are adjacent no architecture is asked for twice |
| Spoolss.QueriedOnce | source3/rpcclient/cmd_spoolss.c:41-45 | in such a table every architecture is asked for exactly once |
| Spoolss.ArchiTableGrouped | source3/rpcclient/cmd_spoolss.c:48-59 | archi_table keeps the rows of each architecture together |
| Spoolss.SelectRows | source3/rpcclient/cmd_spoolss.c:1580-1587 | no more rows are acted on than the table holds |
| Spoolss.SelectRowsMembers | source3/rpcclient/cmd_spoolss.c:1580-1587 | the rows acted on are exactly the table rows matching the architecture, when one is given, and the version, when one is given |
| Spoolss.DeleteCalls | source3/rpcclient/cmd_spoolss.c:1589-1596 | one request per selected row |
| Spoolss.DeleteCallsAt | source3/rpcclient/cmd_spoolss.c:1589-1596 | the request for each selected row names its long architecture, the driver, the flags and its version |
| Spoolss.DeleteDriverEx | source3/rpcclient/cmd_spoolss.c:1551-1612 | a wrong argument count returns WERR_OK with no request; otherwise the version flag is set exactly for a non-negative version, one request goes out per selected row, and the result is WERR_OK exactly when one of them succeeded |
| Spoolss.DeleteResult | source3/rpcclient/cmd_spoolss.c:1598-1611 | the result is always WERR_OK or WERR_UNKNOWN_PRINTER_DRIVER |
| Spoolss.DeleteResultOk | source3/rpcclient/cmd_spoolss.c:1598-1611 | the result is WERR_OK exactly when some request succeeded |
| Spoolss.DeleteRows | source3/rpcclient/cmd_spoolss.c:1579-1611 | the loop sends the requests for the selected rows in table order and ends with their combined result |
| Spoolss.RegTypeOf | source3/rpcclient/cmd_spoolss.c:2143-2159 | each type keyword, in any case, names its registry type, and any other word names none |
| Spoolss.SetPrinterDataType | source3/rpcclient/cmd_spoolss.c:2132-2164 | fewer than five arguments or an unknown type keyword is WERR_INVALID_PARAM; otherwise the keyword's registry type |
| Spoolss.FormFlagName | source3/rpcclient/cmd_spoolss.c:1868-1880 | a flag is named "unknown" exactly when it is none of the three form kinds |
| Spoolss.FormFlagNamesDistinct | source3/rpcclient/cmd_spoolss.c:1868-1880 | the three form kinds have different names |
| BindTest.SextetOf | auth/credentials/tests/bind.py:106 | a base64 letter stands for a value below 64 |
| BindTest.SextetRoundTrip | auth/credentials/tests/bind.py:106 | every 6-bit value's letter reads back as that value |
| BindTest.RegroupBits | auth/credentials/tests/bind.py:106 | the 6-bit fields of three bytes put back together give the three bytes |
| BindTest.EncodeGroupDecodes | auth/credentials/tests/bind.py:106 | four letters written for three bytes decode to those bytes |
| BindTest.PadTwoDecodes | auth/credentials/tests/bind.py:106 | a last group of one byte, padded with two '=', decodes to that byte |
| BindTest.PadOneDecodes | auth/credentials/tests/bind.py:106 | a last group of two bytes, padded with one '=', decodes to those bytes |
| BindTest.LastQuad | auth/credentials/tests/bind.py:106 | four letters decode as one last group |
| BindTest.Base64RoundTrip | auth/credentials/tests/bind.py:106 | decoding what b64encode writes gives the bytes back |
| BindTest.Base64EncodeLength | auth/credentials/tests/bind.py:106 | b64encode writes four letters for every three bytes or fewer at the end |
| BindTest.Base64EncodeText | auth/credentials/tests/bind.py:106 | b64encode writes only alphabet letters and '=' |
| BindTest.Base64Injective | auth/credentials/tests/bind.py:106 | different byte strings never get the same encoding |
| BindTest.CharUnits | auth/credentials/tests/bind.py:106 | a character below 0x10000 that is not a surrogate is one code unit, any other a high and a low surrogate |
| BindTest.Utf16 | auth/credentials/tests/bind.py:106 | a string has at least as many UTF-16 code units as characters |
| BindTest.CharUnitsDecode | auth/credentials/tests/bind.py:106 | the code units of one character read back as that character ahead of the rest |
| BindTest.Utf16RoundTrip | auth/credentials/tests/bind.py:106 | reading the UTF-16 code units of a string gives the string back |
| BindTest.Utf16Append | auth/credentials/tests/bind.py:106 | the code units of two strings joined are their code units joined |
| BindTest.UnicodePwd | auth/credentials/tests/bind.py:106 | the unicodePwd value is non-empty base64 text of whole four-letter groups |
| BindTest.Unquote | auth/credentials/tests/bind.py:106 | what is taken out of the quotes, quoted again, is the text it came from |
| BindTest.UnicodePwdRoundTrip | auth/credentials/tests/bind.py:106 | the unicodePwd value written for a password carries exactly that password |
| BindTest.DecodesToUnquoted | auth/credentials/tests/bind.py:106 | base64 of the UTF-16LE bytes of a quoted password carries the password |
| BindTest.Utf16Layers | auth/credentials/tests/bind.py:106 | the UTF-16LE bytes of a string are of even length and read back as the string |
| BindTest.Base64Layer | auth/credentials/tests/bind.py:106 | base64 of bytes that read back as a quoted password carries the password |
| BindTest.UnquoteQuoted | auth/credentials/tests/bind.py:106 | a quoted password unquotes to itself |
| BindTest.UnicodePwdInjective | auth/credentials/tests/bind.py:106 | different passwords give different unicodePwd values |
| BindTest.MachinePasswordMatches | auth/credentials/tests/bind.py:75-111 | the unicodePwd written for the computer account carries the password it later binds with |
| BindTest.SplitFirst | auth/credentials/tests/bind.py:128-136 | no split exactly when the separator is missing; otherwise the text before its first occurrence and the text after |
| BindTest.SplitFirstOf | auth/credentials/tests/bind.py:128-136 | text joined at a separator it does not contain splits back into its parts |
| BindTest.UpnSplits | auth/credentials/tests/bind.py:128 | the user@realm bind name gives back the user name and the realm |
| BindTest.DomainQualifiedSplits | auth/credentials/tests/bind.py:136 | the domain\user bind name gives back the domain and the user name |
| BindTest.SingleDn | auth/credentials/tests/bind.py:120-124 | the DN is known exactly when the search finds one entry, and is that entry's |
| BindTest.ComputerDn | auth/credentials/tests/bind.py:74 | the computer account's DN lies under the domain DN |
| BindTest.WithSeal | auth/credentials/tests/bind.py:48 | sealing is asked for and every other feature bit is kept |
| BindTest.Credentials.Guess | auth/credentials/tests/bind.py:25-26 | guessed credentials hold the smb.conf user, password, domain, realm, workstation and features, with no bind DN |
| BindTest.Credentials.SetGensecFeatures | auth/credentials/tests/bind.py:27 | only the features change |
| BindTest.Credentials.SetBindDn | auth/credentials/tests/bind.py:110 | only the bind DN changes |
| BindTest.Credentials.SetPassword | auth/credentials/tests/bind.py:111 | only the password changes |
| BindTest.Credentials.SetUsername | auth/credentials/tests/bind.py:161 | only the user name changes |
| BindTest.Credentials.SetDomain | auth/credentials/tests/bind.py:163 | only the domain changes |
| BindTest.Credentials.SetWorkstation | auth/credentials/tests/bind.py:164 | only the workstation changes |
| BindTest.CreateCredential | auth/credentials/tests/bind.py:24-28 | new guessed credentials that take over the other credentials' features |
| BindTest.DeriveCredentials | auth/credentials/tests/bind.py:48-54 | the command-line credentials gain sealing, and five new credentials are guessed with those sealed features |
| BindTest.BindAsComputer | auth/credentials/tests/bind.py:110-111 | the machine credentials bind as the computer DN with the test password |
| BindTest.BindAsUpn | auth/credentials/tests/bind.py:128-129 | the first user credentials bind as user@realm with the test password |
| BindTest.BindAsDomainUser | auth/credentials/tests/bind.py:136-137 | the second user credentials bind as domain\user with the test password |
| BindTest.BindAsDn | auth/credentials/tests/bind.py:120-145 | the DN bind happens exactly when the user search found one entry, with that DN and the test password; otherwise nothing changes |
| BindTest.BindWithoutDomain | auth/credentials/tests/bind.py:161-164 | the fourth user credentials carry the bare user name, the test password and empty domain and workstation |
| BindTest.FirstValue | auth/credentials/tests/bind.py:71-73 | an attribute's first value is found exactly when the entry holds the attribute with a value |
| BindTest.NamingOf | auth/credentials/tests/bind.py:71-74 | the schema, domain and configuration naming contexts are the first values of their attributes, and the computer DN lies under the domain; a missing one is an error |
| BindTest.SetUpStep | auth/credentials/tests/bind.py:66-74 | the rootDSE is searched exactly while nothing is cached; a cached entry stays; a search finding one entry is cached; a success reads the cached entry |
| BindTest.FirstSingle | auth/credentials/tests/bind.py:66-69 | the first search finding exactly one entry |
| BindTest.CachedNeverSearches | auth/credentials/tests/bind.py:58-69 | once an entry is cached no setUp searches again |
| BindTest.SearchesUntilFirstSingle | auth/credentials/tests/bind.py:58-69 | from an empty cache setUps search up to and including the first search that finds exactly one entry |
| BindTest.RootDseCache.constructor | auth/credentials/tests/bind.py:58 | the shared cache starts empty |
| BindTest.RootDseCache.SetUp | auth/credentials/tests/bind.py:60-74 | one setUp does what SetUpStep says on the shared cache |

## Left out

- I/O, printing and logging (`DEBUG`, `d_printf`, `printf`, `print`, the subunit runner) are not modelled.
- Memory allocation (talloc, malloc, realloc) is not modelled, and neither is any failure path it opens (`NT_STATUS_NO_MEMORY`, `tevent_req_nomem`). The one exception is `init_user_token`, whose allocation failure is the `allocFails` parameter.
- Calls into code outside the modelled files are parameters. Their results are inputs, and the model proves what the modelled code does with each possible result. These are: string_to_sid and the security SID string parser, the SAMR QueryUserInfo status and flags, atoi, the DeletePrinterDriverEx replies, zlib and lzxpress, dsdb_replicated_objects_convert/commit and the DN lookups of the replication client, the LDAP searches of the bind test, and Credentials.guess.
- NtlmsspGen.Gen: charset conversion (push_ucs2_talloc, push_string) is modelled on UTF-16 code units. A string is cut at its first NUL. Code pages and surrogate validation are not modelled.
- NtlmsspParse.Parse: pull_string's output-buffer bound (p_len, 1024 bytes) is not modelled. A longer string is returned whole rather than truncated. The parser has no 'a' case, as in the source, so 'a' fields have no round trip.
- NtlmsspRoundTrip.GenParseRoundTrip: the round trip assumes every payload is shorter than 65536 bytes and the blob shorter than 2^32 bytes. Past those limits SSVAL/SIVAL truncate the descriptors and the parse reads something else.
- Address-overflow checks in the parser (`blob->data + ptr < blob->data`) cannot fail on unbounded integers and are not modelled.
- SmbPasswd.GetHexPwdImpl: inputs are at least 32 characters. What strchr_m does with a NUL character in a shorter string is not modelled.
- NdrCompression: zlib deflate/inflate and lzxpress are abstract functions in a `Codec`. The round trips assume `Inverse`, that decompression undoes compression. Whether the real libraries satisfy this is not shown.
- NdrCompression.CabRoundTrip: the CAB round trip covers one CFDATA payload per subcontext, pushed and pulled with the same dictionary.
- NDR buffer growth (ndr_push_expand) and the NDR flags word are not modelled. The push buffer is a sequence that grows as written.
- Security tokens: debug dumps and privilege handling beyond the zeroed mask are not modelled.
- Linked attributes: building the ldb requests (ldb_build_mod_req, ldb_build_search_req), ldb_next_request, la_down_req, controls and talloc ownership are plumbing. A callback's effect on the queue and the reply it passes on are modelled; the request objects are not.
- LinkedAttributes.SameDn: ldb_dn_compare is modelled as equality after ASCII case folding of the linearized DN. Its other canonicalisation (spacing around separators, escaped characters, per-attribute syntax) is not modelled, so two DNs that ldb would treat as equal for those reasons compare unequal here.
- DRS replication: the tevent/dcerpc connection setup, gensec session keys and the dsdb_repl_flags passed to the object conversion are not modelled. The UpdateRefs request and its reply are modelled only as the decision to send it. The FSMO info, destination DSA GUID and the naming context in the request are not modelled.
- `net rpc`: every SAMR/LSA/SRVSVC/winreg call, share and file migration, shutdown, winbind lookups, printing, and `get_user_tokens` (winbind; it also has a stray `i+=1` that skips users) are left out. So is `print_trusted_domain`'s padding, which misbehaves for names of 20 or more characters.
- NetRpc.ReadTokens: the lines are the strings fgets returns, each non-empty. The reader's own return value after the loop (False once feof is reached, True when fgets returns NULL) is not modelled. The 255-character fgets split and fstring truncation are not modelled either. A file that parses is `Some`; one whose first line is a SID line is `None`.
- NetRpc.TrustAccountName: strupper_m upper-cases ASCII letters only. Multibyte case mapping is not modelled.
- NetRpc.FlagEdit: the QueryUserInfo and SetUserInfo calls are left out. The model gives the flags to write, not SetUserInfo's status.
- Spoolss: every rpccli_* call, the display_* printing, enumdrivers' level printing and REG_BINARY hex wrapping are left out, and so is the RPCCLIENT_PRINTERNAME macro. Spoolss.SetPrinterDataType stops where the printer would be opened.
- Spoolss.AddDriverInfo3.InitMembers: an eighth field reading "NULL" is modelled as the code behaves. The ',' scan then resumes on the text after that field. No property is claimed for that case beyond the function that describes it.
- Spoolss.DeleteDriverEx: the NTSTATUS of each RPC is not modelled, only its WERROR result.
- BindTest: the network and test plumbing (connect_samdb, add_ldif, modify_ldif, newuser, delete_force, assertEquals beyond the rootDSE count) is left out, and so is whether a bind succeeds. Attribute names in entries are matched exactly, not case-insensitively as LDAP does.
- BindTest.MachinePasswordMatches: the base64 text of the literal machine password is not computed letter by letter. The lemma states that the value written carries the password used to bind.
