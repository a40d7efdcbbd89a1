/** Shared vocabulary of the model: optional values and results, bytes and
    fixed-width integers, the little-endian SSVAL/SIVAL byte layouts, C
    strings and the ASCII case folding that strequal/StrCaseCmp perform. */
module Common {

  datatype Option<+T> = None | Some(value: T)

  datatype Result<+T, +E> = Ok(value: T) | Err(error: E)

  type byte = x: int | 0 <= x < 0x100
  type u16 = x: int | 0 <= x < 0x1_0000
  type u32 = x: int | 0 <= x < 0x1_0000_0000

  const TWO16: int := 0x1_0000
  const TWO32: int := 0x1_0000_0000

  /** The two bytes SSVAL stores: the low 16 bits of v, least significant first. */
  function LE16(v: int): (r: seq<byte>)
    ensures |r| == 2
    ensures FromLE16(r) == v % TWO16
  {
    var w := v % TWO16;
    [w % 0x100, w / 0x100]
  }

  /** SVAL: the 16-bit value stored little-endian in two bytes. */
  function FromLE16(b: seq<byte>): u16
    requires |b| == 2
  {
    b[0] as int + 0x100 * b[1] as int
  }

  /** The four bytes SIVAL stores: the low 32 bits of v, least significant first. */
  function LE32(v: int): (r: seq<byte>)
    ensures |r| == 4
    ensures FromLE32(r) == v % TWO32
  {
    var w := v % TWO32;
    LE16(w % TWO16) + LE16(w / TWO16)
  }

  /** IVAL: the 32-bit value stored little-endian in four bytes. */
  function FromLE32(b: seq<byte>): u32
    requires |b| == 4
  {
    FromLE16(b[..2]) as int + TWO16 * FromLE16(b[2..]) as int
  }

  /** strlen over a buffer of bytes or of UTF-16 units: the index of the
      first NUL, or the whole length. */
  function StrLen(s: seq<int>): (n: nat)
    ensures n <= |s|
    ensures forall k :: 0 <= k < n ==> s[k] != 0
    ensures n < |s| ==> s[n] == 0
  {
    if s == [] then 0
    else if s[0] == 0 then 0
    else 1 + StrLen(s[1..])
  }

  predicate NoNul(s: seq<int>)
  {
    forall k :: 0 <= k < |s| ==> s[k] != 0
  }

  /** The C string a NUL-terminated buffer holds: a NUL-free prefix of the
      buffer that ends at its first NUL, or at its end when it has none. */
  function CStr(s: seq<byte>): (r: seq<byte>)
    ensures r <= s && NoNul(r)
    ensures |r| < |s| ==> s[|r|] == 0
  {
    s[..StrLen(s)]
  }

  /** A string with no NUL followed by a NUL is read back whole by strlen. */
  lemma {:induction false} StrLenOfTerminated(s: seq<int>, rest: seq<int>)
    requires NoNul(s)
    ensures StrLen(s + [0] + rest) == |s|
  {
    if s != [] {
      assert (s + [0] + rest)[1..] == s[1..] + [0] + rest;
      StrLenOfTerminated(s[1..], rest);
    }
  }

  /** strlen of a buffer with no NUL is its whole length. */
  lemma {:induction false} StrLenNoNul(s: seq<int>)
    requires NoNul(s)
    ensures StrLen(s) == |s|
  {
    if s != [] {
      StrLenNoNul(s[1..]);
    }
  }

  /** A C string read back from a C string is the same string. */
  lemma CStrIdempotent(s: seq<byte>)
    ensures CStr(CStr(s)) == CStr(s)
  {
    StrLenNoNul(CStr(s));
  }

  /** ASCII toupper, the case folding of toupper() in the C locale. */
  function UpperChar(c: char): (r: char)
    ensures 'a' <= c <= 'z' ==> r as int == c as int - 32
    ensures !('a' <= c <= 'z') ==> r == c
  {
    if 'a' <= c <= 'z' then (c as int - 32) as char else c
  }

  function Upper(s: string): (r: string)
    ensures |r| == |s|
    ensures forall k :: 0 <= k < |s| ==> r[k] == UpperChar(s[k])
  {
    seq(|s|, k requires 0 <= k < |s| => UpperChar(s[k]))
  }

  /** strequal / StrCaseCmp(..) == 0: equal up to ASCII case. */
  predicate EqualsIgnoreCase(a: string, b: string)
  {
    Upper(a) == Upper(b)
  }

  /** The parts of a sequence of buffers laid end to end. */
  function Concat<T>(xs: seq<seq<T>>): (r: seq<T>)
  {
    if xs == [] then [] else xs[0] + Concat(xs[1..])
  }

  lemma {:induction false} ConcatAppend<T>(xs: seq<seq<T>>, ys: seq<seq<T>>)
    ensures Concat(xs + ys) == Concat(xs) + Concat(ys)
  {
    if xs != [] {
      assert (xs + ys)[1..] == xs[1..] + ys;
      ConcatAppend(xs[1..], ys);
    } else {
      assert xs + ys == ys;
    }
  }

  /** Laying out one more buffer appends it. */
  lemma ConcatPush<T>(xs: seq<seq<T>>, x: seq<T>)
    ensures Concat(xs + [x]) == Concat(xs) + x
  {
    ConcatAppend(xs, [x]);
    assert Concat([x]) == x + Concat([]);
  }

  lemma PrefixOfPush<T>(xs: seq<T>, x: T, j: nat)
    requires j <= |xs|
    ensures (xs + [x])[..j] == xs[..j]
  {
  }

  /** Buffer i of a layout sits right after the buffers before it. */
  lemma ConcatSlice<T>(xs: seq<seq<T>>, i: nat)
    requires i < |xs|
    ensures |Concat(xs[..i])| + |xs[i]| <= |Concat(xs)|
    ensures Concat(xs)[|Concat(xs[..i])| .. |Concat(xs[..i])| + |xs[i]|] == xs[i]
  {
    assert xs == (xs[..i] + [xs[i]]) + xs[i + 1..];
    ConcatAppend(xs[..i] + [xs[i]], xs[i + 1..]);
    ConcatPush(xs[..i], xs[i]);
  }

  /** Slices of the two halves of a concatenation. */
  lemma AppendSlices<T>(h: seq<T>, p: seq<T>, a: nat, b: nat, c: nat, d: nat)
    requires a <= b <= |h| && c <= d <= |p|
    ensures (h + p)[a..b] == h[a..b]
    ensures (h + p)[|h| + c .. |h| + d] == p[c..d]
  {
    assert (h + p)[..|h|] == h;
    assert (h + p)[|h|..] == p;
  }
}
