/** The smbpasswd hash codec: a 16-byte LM or NT hash stored in the
    smbpasswd file as 32 hexadecimal characters, or as a placeholder when
    the account has no hash. */
module SmbPasswd {
  import opened Common

  /** sizeof(pwd->hash): a samr_Password holds 16 bytes. */
  const HashLen: nat := 16

  /** The digit alphabet the decoder searches and the encoder prints (%02X). */
  const HexChars: string := "0123456789ABCDEF"

  /** acct_ctrl bit: no password required. */
  const ACB_PWNOTREQ: bv16 := 0x0004

  const NoPasswordPlaceholder: string := "NO PASSWORDXXXXXXXXXXXXXXXXXXXXX"
  const UnsetPlaceholder: string := "XXXXXXXXXXXXXXXXXXXXXXXXXXXXXXXX"

  /** The position of a character in HexChars after toupper, which is what
      PTR_DIFF(strchr_m(hexchars, toupper(c)), hexchars) computes; None where
      strchr_m finds nothing.  HexValueIsTableIndex ties it to the table. */
  function HexValue(c: char): (r: Option<nat>)
    ensures r.Some? ==> r.value < 16
  {
    var u := UpperChar(c);
    if '0' <= u <= '9' then Some(u as int - '0' as int)
    else if 'A' <= u <= 'F' then Some(u as int - 'A' as int + 10)
    else None
  }

  /** A character the decoder accepts. */
  predicate IsHex(c: char)
  {
    HexValue(c).Some?
  }

  /** Byte k of the decoded hash: high nibble from character 2k, low nibble
      from character 2k+1. */
  function HashByte(p: string, k: nat): byte
    requires 2 * k + 1 < |p| && IsHex(p[2 * k]) && IsHex(p[2 * k + 1])
  {
    16 * HexValue(p[2 * k]).value + HexValue(p[2 * k + 1]).value
  }

  /** The C string the decoder reads: at least 32 characters before its
      terminator.  Shorter strings make strchr_m meet the terminator. */
  predicate HexInput(p: string)
  {
    |p| >= 2 * HashLen && forall k :: 0 <= k < 2 * HashLen ==> p[k] != '\0'
  }

  /** Each of the 32 characters the decoder reads is a hex digit. */
  predicate AllHex(p: string)
    requires |p| >= 2 * HashLen
  {
    forall k :: 0 <= k < 2 * HashLen ==> IsHex(p[k])
  }

  /** smbpasswd_gethexpwd: NULL for a NULL string or for any of the first
      32 characters that is not a hex digit; otherwise the 16 bytes. */
  function GetHexPwd(p: Option<string>): (r: Option<seq<byte>>)
    requires p.Some? ==> HexInput(p.value)
  {
    match p
    case None => None
    case Some(s) =>
      if AllHex(s) then
        Some(seq(HashLen, k requires 0 <= k < HashLen => HashByte(s, k)))
      else None
  }

  /** The two upper-case digits "%02X" prints for a byte. */
  function HexPair(b: byte): (r: string)
    ensures |r| == 2
  {
    [HexChars[b / 16], HexChars[b % 16]]
  }

  function HexString(h: seq<byte>): (r: string)
    ensures |r| == 2 * |h|
    ensures forall k {:trigger h[k]} :: 0 <= k < |h| ==>
      r[2 * k] == HexChars[h[k] / 16] && r[2 * k + 1] == HexChars[h[k] % 16]
  {
    if h == [] then [] else HexPair(h[0]) + HexString(h[1..])
  }

  /** smbpasswd_sethexpwd: the hash in hex, or for a NULL hash the
      "NO PASSWORD" placeholder when ACB_PWNOTREQ is set and the all-X
      placeholder otherwise. */
  function SetHexPwd(pwd: Option<seq<byte>>, acbInfo: bv16): string
  {
    match pwd
    case Some(h) => HexString(h)
    case None =>
      if acbInfo & ACB_PWNOTREQ != 0 then NoPasswordPlaceholder else UnsetPlaceholder
  }

  /** The decoding loop: two characters per byte, stopping at the first
      character that is not a hex digit. */
  method GetHexPwdImpl(p: Option<string>) returns (r: Option<array<byte>>)
    requires p.Some? ==> HexInput(p.value)
    ensures r.None? <==> GetHexPwd(p).None?
    ensures r.Some? ==> fresh(r.value) && r.value[..] == GetHexPwd(p).value
  {
    if p.None? {
      return None;
    }
    var s := p.value;
    var hash := new byte[HashLen];
    var i := 0;
    while i < 2 * HashLen
      invariant 0 <= i <= 2 * HashLen && i % 2 == 0
      invariant forall k :: 0 <= k < i ==> IsHex(s[k])
      invariant forall k :: 0 <= k < i / 2 ==> hash[k] == HashByte(s, k)
    {
      var hi := HexValue(s[i]);
      var lo := HexValue(s[i + 1]);
      if hi.None? || lo.None? {
        assert !IsHex(s[i]) || !IsHex(s[i + 1]);
        return None;
      }
      hash[i / 2] := 16 * hi.value + lo.value;
      i := i + 2;
    }
    assert hash[..] == GetHexPwd(p).value;
    r := Some(hash);
  }

  /** The encoding loop: "%02X" for each byte into a 32-character buffer. */
  method SetHexPwdImpl(pwd: Option<array<byte>>, acbInfo: bv16) returns (r: string)
    requires pwd.Some? ==> pwd.value.Length == HashLen
    ensures r == SetHexPwd(if pwd.Some? then Some(pwd.value[..]) else None, acbInfo)
  {
    if pwd.None? {
      if acbInfo & ACB_PWNOTREQ != 0 {
        return NoPasswordPlaceholder;
      }
      return UnsetPlaceholder;
    }
    var h := pwd.value;
    var out := new char[2 * HashLen];
    var i := 0;
    while i < HashLen
      invariant 0 <= i <= HashLen
      invariant forall k :: 0 <= k < i ==>
        out[2 * k] == HexChars[h[k] / 16] && out[2 * k + 1] == HexChars[h[k] % 16]
    {
      var pair := HexPair(h[i]);
      out[2 * i] := pair[0];
      out[2 * i + 1] := pair[1];
      i := i + 1;
    }
    r := out[..];
    assert r == HexString(h[..]) by {
      forall k | 0 <= k < |r|
        ensures r[k] == HexString(h[..])[k]
      {
        assert h[..][k / 2] == h[k / 2];
      }
    }
  }

  // ---------------------------------------------------------------------
  // Properties
  // ---------------------------------------------------------------------

  /** HexValue is the strchr_m lookup: defined exactly on the characters
      whose upper case is in the table, and then their index in it. */
  lemma HexValueIsTableIndex(c: char)
    ensures HexValue(c).Some? <==> UpperChar(c) in HexChars
    ensures HexValue(c).Some? ==> HexChars[HexValue(c).value] == UpperChar(c)
  {
    var u := UpperChar(c);
    if u in HexChars {
      var i :| 0 <= i < |HexChars| && HexChars[i] == u;
      HexValueOfDigit(i);
    }
  }

  /** Looking up the digit printed for d gives d back. */
  lemma HexValueOfDigit(d: nat)
    requires d < 16
    ensures HexValue(HexChars[d]) == Some(d)
  {
    if d < 10 {
      assert HexChars[d] as int == '0' as int + d;
    } else {
      assert HexChars[d] as int == 'A' as int + d - 10;
    }
  }

  /** Every character the encoder prints is an upper-case hex digit. */
  lemma HexStringIsHex(h: seq<byte>)
    ensures forall k :: 0 <= k < |HexString(h)| ==> HexString(h)[k] in HexChars
  {
    var r := HexString(h);
    forall k | 0 <= k < |r|
      ensures r[k] in HexChars
    {
      assert h[k / 2] == h[k / 2];
      if k % 2 == 0 {
        assert r[2 * (k / 2)] == HexChars[h[k / 2] / 16];
      } else {
        assert r[2 * (k / 2) + 1] == HexChars[h[k / 2] % 16];
      }
    }
  }

  /** The two characters printed for byte j of h read back as its nibbles. */
  lemma EncodedNibbles(h: seq<byte>, j: nat)
    requires j < |h|
    ensures HexValue(HexString(h)[2 * j]) == Some(h[j] / 16)
    ensures HexValue(HexString(h)[2 * j + 1]) == Some(h[j] % 16)
  {
    HexValueOfDigit(h[j] / 16);
    HexValueOfDigit(h[j] % 16);
  }

  /** The nibbles of a byte assembled as 16 * hi + lo. */
  lemma Nibbles(hi: nat, lo: nat)
    requires hi < 16 && lo < 16
    ensures (16 * hi + lo) / 16 == hi && (16 * hi + lo) % 16 == lo
  {
  }

  /** Round trip: decoding the hex form of a 16-byte hash gives it back. */
  lemma RoundTrip(h: seq<byte>, acbInfo: bv16)
    requires |h| == HashLen
    ensures HexInput(SetHexPwd(Some(h), acbInfo))
    ensures GetHexPwd(Some(SetHexPwd(Some(h), acbInfo))) == Some(h)
  {
    var s := HexString(h);
    forall k | 0 <= k < 2 * HashLen
      ensures IsHex(s[k]) && s[k] != '\0'
    {
      EncodedNibbles(h, k / 2);
      assert k == 2 * (k / 2) || k == 2 * (k / 2) + 1;
    }
    assert AllHex(s);
    var d := GetHexPwd(Some(s)).value;
    forall j | 0 <= j < HashLen
      ensures d[j] == h[j]
    {
      EncodedNibbles(h, j);
    }
    assert d == h;
  }

  /** A byte assembled from the lookups of two digits prints as those
      digits in upper case. */
  lemma PrintedDigits(h: seq<byte>, j: nat, c1: char, c2: char)
    requires j < |h| && IsHex(c1) && IsHex(c2)
    requires h[j] == 16 * HexValue(c1).value + HexValue(c2).value
    ensures HexString(h)[2 * j] == UpperChar(c1)
    ensures HexString(h)[2 * j + 1] == UpperChar(c2)
  {
    var hi := HexValue(c1).value;
    var lo := HexValue(c2).value;
    Nibbles(hi, lo);
    assert h[j] / 16 == hi && h[j] % 16 == lo;
    var s := HexString(h);
    assert s[2 * j] == HexChars[hi] && s[2 * j + 1] == HexChars[lo];
    HexValueIsTableIndex(c1);
    HexValueIsTableIndex(c2);
  }

  /** Byte j of a decoded string, printed again, is the upper case of the
      two characters it came from. */
  lemma DecodeEncodeAt(p: string, j: nat)
    requires HexInput(p) && AllHex(p) && j < HashLen
    ensures HexString(GetHexPwd(Some(p)).value)[2 * j] == UpperChar(p[2 * j])
    ensures HexString(GetHexPwd(Some(p)).value)[2 * j + 1] == UpperChar(p[2 * j + 1])
  {
    var h := GetHexPwd(Some(p)).value;
    assert h[j] == HashByte(p, j);
    PrintedDigits(h, j, p[2 * j], p[2 * j + 1]);
  }

  /** The other direction: a string that decodes is the hex form of its
      decoding up to letter case in its first 32 characters. */
  lemma DecodeEncode(p: string, acbInfo: bv16)
    requires HexInput(p) && GetHexPwd(Some(p)).Some?
    ensures SetHexPwd(GetHexPwd(Some(p)), acbInfo) == Upper(p[..2 * HashLen])
  {
    var s := HexString(GetHexPwd(Some(p)).value);
    var u := Upper(p[..2 * HashLen]);
    forall k | 0 <= k < 2 * HashLen
      ensures s[k] == u[k]
    {
      DecodeEncodeAt(p, k / 2);
      assert k == 2 * (k / 2) || k == 2 * (k / 2) + 1;
      assert u[k] == UpperChar(p[k]);
    }
    assert s == u;
  }

  /** Decoding ignores letter case: upper-casing the input changes nothing. */
  lemma CaseInsensitive(p: string)
    requires HexInput(p)
    ensures HexInput(Upper(p))
    ensures GetHexPwd(Some(Upper(p))) == GetHexPwd(Some(p))
  {
    var u := Upper(p);
    forall k | 0 <= k < |p|
      ensures HexValue(u[k]) == HexValue(p[k]) && u[k] != '\0' <== p[k] != '\0'
    {
      assert u[k] == UpperChar(p[k]);
    }
    assert AllHex(u) <==> AllHex(p);
    if AllHex(p) {
      var a, b := GetHexPwd(Some(u)).value, GetHexPwd(Some(p)).value;
      forall j | 0 <= j < HashLen
        ensures a[j] == b[j]
      {
        assert HashByte(u, j) == HashByte(p, j);
      }
      assert a == b;
    }
  }

  /** A character outside 0-9, A-F (after upper-casing) among the first 32
      makes the decoder fail. */
  lemma NonHexRejected(p: string, k: nat)
    requires HexInput(p) && k < 2 * HashLen && !(UpperChar(p[k]) in HexChars)
    ensures GetHexPwd(Some(p)) == None
  {
    HexValueIsTableIndex(p[k]);
    assert !IsHex(p[k]);
  }

  /** Neither placeholder decodes: 'N' and 'X' are not hex digits. */
  lemma PlaceholdersDoNotDecode(acbInfo: bv16)
    ensures HexInput(SetHexPwd(None, acbInfo))
    ensures GetHexPwd(Some(SetHexPwd(None, acbInfo))) == None
  {
    var s := SetHexPwd(None, acbInfo);
    assert !IsHex(s[0]);
  }
}
