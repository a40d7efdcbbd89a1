/** UTF-16 strings as the NTLMSSP code handles them: the UCS-2 buffers of
    push_ucs2_talloc and pull_string, serialised little-endian (section 2.1
    of RFC 2781). */
module Ucs2 {
  import opened Common

  /** The string a UTF-16 buffer holds up to its first NUL unit. */
  function CStr16(s: seq<u16>): seq<u16>
  {
    s[..StrLen(s)]
  }

  /** UTF-16 code units serialised little-endian, two bytes each. */
  function Utf16Le(units: seq<u16>): (r: seq<byte>)
    ensures |r| == 2 * |units|
  {
    if units == [] then [] else LE16(units[0]) + Utf16Le(units[1..])
  }

  function FromUtf16Le(b: seq<byte>): (r: seq<u16>)
    requires |b| % 2 == 0
    ensures 2 * |r| == |b|
  {
    if b == [] then [] else [FromLE16(b[..2])] + FromUtf16Le(b[2..])
  }

  lemma {:induction false} Utf16LeRoundTrip(units: seq<u16>)
    ensures FromUtf16Le(Utf16Le(units)) == units
  {
    if units != [] {
      var b := Utf16Le(units);
      assert b[..2] == LE16(units[0]);
      assert b[2..] == Utf16Le(units[1..]);
      Utf16LeRoundTrip(units[1..]);
    }
  }

  /** A unicode string read back from a unicode string is the same string. */
  lemma CStr16Idempotent(s: seq<u16>)
    ensures CStr16(CStr16(s)) == CStr16(s)
  {
    StrLenNoNul(CStr16(s));
  }

  lemma {:induction false} Utf16LeAppend(a: seq<u16>, b: seq<u16>)
    ensures Utf16Le(a + b) == Utf16Le(a) + Utf16Le(b)
  {
    if a != [] {
      assert (a + b)[1..] == a[1..] + b;
      Utf16LeAppend(a[1..], b);
    } else {
      assert a + b == b;
    }
  }
}
