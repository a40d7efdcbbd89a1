/** The parts of the LDAP simple-bind test that the test itself computes
    rather than asks the server: the unicodePwd attribute value it writes
    for the machine account, the bind identities it builds (UPN, domain
    qualified, DN and bare user name), the credentials it derives from the
    command-line ones, and the rootDSE entry it caches across tests. */
module BindTest {
  import opened Common
  import opened Ucs2

  // ---------------------------------------------------------------------
  // base64 (section 4 of RFC 4648)

  /** The base64 alphabet letter for a 6-bit value. */
  function Base64Char(v: nat): (c: char)
    requires v < 64
  {
    if v < 26 then ('A' as int + v) as char
    else if v < 52 then ('a' as int + v - 26) as char
    else if v < 62 then ('0' as int + v - 52) as char
    else if v == 62 then '+'
    else '/'
  }

  /** The 6-bit value a base64 letter stands for; None for '=' and for
      anything outside the alphabet. */
  function SextetOf(c: char): (r: Option<nat>)
    ensures r.Some? ==> r.value < 64
  {
    if 'A' <= c <= 'Z' then Some(c as int - 'A' as int)
    else if 'a' <= c <= 'z' then Some(c as int - 'a' as int + 26)
    else if '0' <= c <= '9' then Some(c as int - '0' as int + 52)
    else if c == '+' then Some(62)
    else if c == '/' then Some(63)
    else None
  }

  lemma SextetRoundTrip(v: nat)
    requires v < 64
    ensures SextetOf(Base64Char(v)) == Some(v)
  {
  }

  predicate Base64Text(s: string)
  {
    forall k :: 0 <= k < |s| ==> s[k] == '=' || SextetOf(s[k]).Some?
  }

  /** Three bytes as four letters. */
  function EncodeGroup(b0: byte, b1: byte, b2: byte): string
  {
    [Base64Char(b0 / 4), Base64Char((b0 % 4) * 16 + b1 / 16), Base64Char((b1 % 16) * 4 + b2 / 64), Base64Char(b2 % 64)]
  }

  /** base64.b64encode: each group of three bytes becomes four letters;
      a final group of one or two bytes is padded with "==" or "=". */
  function Base64Encode(b: seq<byte>): string
  {
    if |b| == 0 then ""
    else if |b| == 1 then [Base64Char(b[0] / 4), Base64Char((b[0] % 4) * 16), '=', '=']
    else if |b| == 2 then [Base64Char(b[0] / 4), Base64Char((b[0] % 4) * 16 + b[1] / 16), Base64Char((b[1] % 16) * 4), '=']
    else EncodeGroup(b[0], b[1], b[2]) + Base64Encode(b[3..])
  }

  /** Four letters back to the bytes they carry; padding is accepted only
      in the last group. */
  function DecodeQuad(q: string, last: bool): Option<seq<byte>>
    requires |q| == 4
  {
    var c0, c1, c2, c3 := SextetOf(q[0]), SextetOf(q[1]), SextetOf(q[2]), SextetOf(q[3]);
    if c0.None? || c1.None? then None
    else if last && q[2] == '=' && q[3] == '=' then Some([c0.value * 4 + c1.value / 16])
    else if c2.None? then None
    else if last && q[3] == '=' then Some([c0.value * 4 + c1.value / 16, (c1.value % 16) * 16 + c2.value / 4])
    else if c3.None? then None
    else Some([c0.value * 4 + c1.value / 16, (c1.value % 16) * 16 + c2.value / 4, (c2.value % 4) * 64 + c3.value])
  }

  /** base64 decoding, the inverse the encoder is checked against. */
  function Base64Decode(s: string): (r: Option<seq<byte>>)
    decreases |s|
  {
    if |s| == 0 then Some([])
    else if |s| < 4 then None
    else
      match DecodeQuad(s[..4], |s| == 4)
      case None => None
      case Some(g) =>
        match Base64Decode(s[4..])
        case None => None
        case Some(rest) => Some(g + rest)
  }

  /** The bit fields of three bytes, cut at 6-bit boundaries, put the
      bytes back together. */
  lemma RegroupBits(b0: byte, b1: byte, b2: byte)
    ensures (b0 / 4) * 4 + ((b0 % 4) * 16 + b1 / 16) / 16 == b0
    ensures (((b0 % 4) * 16 + b1 / 16) % 16) * 16 + ((b1 % 16) * 4 + b2 / 64) / 4 == b1
    ensures (((b1 % 16) * 4 + b2 / 64) % 4) * 64 + b2 % 64 == b2
  {
  }

  lemma EncodeGroupDecodes(b0: byte, b1: byte, b2: byte, last: bool)
    ensures DecodeQuad(EncodeGroup(b0, b1, b2), last) == Some([b0, b1, b2])
  {
    var v0, v1, v2, v3 := b0 / 4, (b0 % 4) * 16 + b1 / 16, (b1 % 16) * 4 + b2 / 64, b2 % 64;
    var q := EncodeGroup(b0, b1, b2);
    SextetRoundTrip(v0);
    SextetRoundTrip(v1);
    SextetRoundTrip(v2);
    SextetRoundTrip(v3);
    assert SextetOf(q[0]) == Some(v0) && SextetOf(q[1]) == Some(v1);
    assert SextetOf(q[2]) == Some(v2) && SextetOf(q[3]) == Some(v3);
    RegroupBits(b0, b1, b2);
  }

  lemma PadTwoDecodes(b0: byte)
    ensures DecodeQuad([Base64Char(b0 / 4), Base64Char((b0 % 4) * 16), '=', '='], true) == Some([b0])
  {
    SextetRoundTrip(b0 / 4);
    SextetRoundTrip((b0 % 4) * 16);
    RegroupBits(b0, 0, 0);
  }

  lemma PadOneDecodes(b0: byte, b1: byte)
    ensures DecodeQuad([Base64Char(b0 / 4), Base64Char((b0 % 4) * 16 + b1 / 16), Base64Char((b1 % 16) * 4), '='], true)
      == Some([b0, b1])
  {
    var v0, v1, v2 := b0 / 4, (b0 % 4) * 16 + b1 / 16, (b1 % 16) * 4;
    var q := [Base64Char(v0), Base64Char(v1), Base64Char(v2), '='];
    SextetRoundTrip(v0);
    SextetRoundTrip(v1);
    SextetRoundTrip(v2);
    assert SextetOf(q[0]) == Some(v0) && SextetOf(q[1]) == Some(v1) && SextetOf(q[2]) == Some(v2);
    RegroupBits(b0, b1, 0);
  }

  /** Four letters decode as a last group. */
  lemma LastQuad(s: string)
    requires |s| == 4
    ensures Base64Decode(s) == DecodeQuad(s, true)
  {
    assert s[..4] == s;
    assert s[4..] == "";
    match DecodeQuad(s, true)
    case None =>
    case Some(g) => assert g + [] == g;
  }

  /** Decoding what the encoder wrote gives the bytes back. */
  lemma {:induction false} Base64RoundTrip(b: seq<byte>)
    ensures Base64Decode(Base64Encode(b)) == Some(b)
    decreases |b|
  {
    if 1 <= |b| <= 2 {
      ShortRoundTrip(b);
    } else if |b| > 2 {
      Base64RoundTrip(b[3..]);
      EncodeGroupDecodes(b[0], b[1], b[2], |Base64Encode(b[3..])| == 0);
      DecodeGroupThen(EncodeGroup(b[0], b[1], b[2]), Base64Encode(b[3..]), [b[0], b[1], b[2]], b[3..]);
      assert [b[0], b[1], b[2]] + b[3..] == b;
    }
  }

  /** One or two bytes come back from their padded group. */
  lemma ShortRoundTrip(b: seq<byte>)
    requires 1 <= |b| <= 2
    ensures Base64Decode(Base64Encode(b)) == Some(b)
  {
    if |b| == 1 {
      OneByteRoundTrip(b);
    } else {
      TwoBytesRoundTrip(b);
    }
  }

  lemma OneByteRoundTrip(b: seq<byte>)
    requires |b| == 1
    ensures Base64Decode(Base64Encode(b)) == Some(b)
  {
    var b0 := b[0];
    var q := [Base64Char(b0 / 4), Base64Char((b0 % 4) * 16), '=', '='];
    assert Base64Encode(b) == q;
    PadTwoDecodes(b0);
    LastQuad(q);
    assert [b0] == b;
  }

  lemma TwoBytesRoundTrip(b: seq<byte>)
    requires |b| == 2
    ensures Base64Decode(Base64Encode(b)) == Some(b)
  {
    var b0, b1 := b[0], b[1];
    var q := [Base64Char(b0 / 4), Base64Char((b0 % 4) * 16 + b1 / 16), Base64Char((b1 % 16) * 4), '='];
    assert Base64Encode(b) == q;
    PadOneDecodes(b0, b1);
    LastQuad(q);
    assert [b0, b1] == b;
  }

  /** A group that decodes, followed by letters that decode, decodes to
      the group's bytes followed by theirs. */
  lemma DecodeGroupThen(g: string, t: string, x: seq<byte>, y: seq<byte>)
    requires |g| == 4 && DecodeQuad(g, |t| == 0) == Some(x) && Base64Decode(t) == Some(y)
    ensures Base64Decode(g + t) == Some(x + y)
  {
    assert (g + t)[..4] == g;
    assert (g + t)[4..] == t;
  }

  /** Every three bytes, and a last group of one or two, take four letters. */
  lemma {:induction false} Base64EncodeLength(b: seq<byte>)
    ensures |Base64Encode(b)| == 4 * ((|b| + 2) / 3)
    decreases |b|
  {
    if |b| > 2 {
      Base64EncodeLength(b[3..]);
      assert |EncodeGroup(b[0], b[1], b[2])| == 4;
    }
  }

  /** The encoder writes only alphabet letters and '='. */
  lemma {:induction false} Base64EncodeText(b: seq<byte>)
    ensures Base64Text(Base64Encode(b))
    decreases |b|
  {
    if |b| == 1 {
      SextetRoundTrip(b[0] / 4);
      SextetRoundTrip((b[0] % 4) * 16);
    } else if |b| == 2 {
      SextetRoundTrip(b[0] / 4);
      SextetRoundTrip((b[0] % 4) * 16 + b[1] / 16);
      SextetRoundTrip((b[1] % 16) * 4);
    } else if |b| > 2 {
      EncodeGroupDecodes(b[0], b[1], b[2], false);
      Base64EncodeText(b[3..]);
    }
  }

  /** Different byte strings never get the same encoding. */
  lemma Base64Injective(a: seq<byte>, b: seq<byte>)
    requires Base64Encode(a) == Base64Encode(b)
    ensures a == b
  {
    Base64RoundTrip(a);
    Base64RoundTrip(b);
  }

  // ---------------------------------------------------------------------
  // UTF-16 (section 2.1 of RFC 2781)

  predicate HighSurrogate(u: u16) { 0xD800 <= u < 0xDC00 }
  predicate LowSurrogate(u: u16) { 0xDC00 <= u < 0xE000 }

  /** The UTF-16 code units of one character: itself below 0x10000, a
      surrogate pair above. */
  function CharUnits(c: char): (r: seq<u16>)
    ensures 1 <= |r| <= 2
    ensures |r| == 1 <==> c as int < 0x1_0000
    ensures |r| == 1 ==> r[0] == c as int && !HighSurrogate(r[0]) && !LowSurrogate(r[0])
    ensures |r| == 2 ==> HighSurrogate(r[0]) && LowSurrogate(r[1])
  {
    if c as int < 0x1_0000 then [c as int]
    else
      var v := c as int - 0x1_0000;
      [0xD800 + v / 0x400, 0xDC00 + v % 0x400]
  }

  /** str.encode('utf-16-le') before the bytes are laid out: the code
      units of each character in turn. */
  function Utf16(s: string): (r: seq<u16>)
    ensures |r| >= |s|
  {
    if |s| == 0 then [] else CharUnits(s[0]) + Utf16(s[1..])
  }

  /** The characters a sequence of UTF-16 code units spells; None at an
      unpaired surrogate. */
  function FromUtf16(u: seq<u16>): (r: Option<string>)
    decreases |u|
  {
    if |u| == 0 then Some("")
    else if HighSurrogate(u[0]) then
      if |u| < 2 || !LowSurrogate(u[1]) then None
      else
        var c := (0x1_0000 + (u[0] as int - 0xD800) * 0x400 + (u[1] as int - 0xDC00)) as char;
        match FromUtf16(u[2..])
        case None => None
        case Some(rest) => Some([c] + rest)
    else if LowSurrogate(u[0]) then None
    else
      match FromUtf16(u[1..])
      case None => None
      case Some(rest) => Some([u[0] as char] + rest)
  }

  lemma CharUnitsDecode(c: char, tail: seq<u16>, rest: string)
    requires FromUtf16(tail) == Some(rest)
    ensures FromUtf16(CharUnits(c) + tail) == Some([c] + rest)
  {
    var u := CharUnits(c) + tail;
    if |CharUnits(c)| == 1 {
      assert u[1..] == tail;
    } else {
      assert u[2..] == tail;
    }
  }

  /** Reading the code units of a string gives the string back. */
  lemma {:induction false} Utf16RoundTrip(s: string)
    ensures FromUtf16(Utf16(s)) == Some(s)
  {
    if |s| > 0 {
      Utf16RoundTrip(s[1..]);
      CharUnitsDecode(s[0], Utf16(s[1..]), s[1..]);
      assert [s[0]] + s[1..] == s;
    }
  }

  lemma {:induction false} Utf16Append(a: string, b: string)
    ensures Utf16(a + b) == Utf16(a) + Utf16(b)
  {
    if |a| > 0 {
      assert (a + b)[1..] == a[1..] + b;
      Utf16Append(a[1..], b);
    } else {
      assert a + b == b;
    }
  }

  // ---------------------------------------------------------------------
  // The unicodePwd value

  /** The password in the double quotes unicodePwd wants. */
  function Quoted(password: string): string
  {
    "\"" + password + "\""
  }

  /** base64(UTF-16LE('"' + password + '"')), as written to unicodePwd. */
  function UnicodePwd(password: string): (value: string)
    ensures |value| > 0 && |value| % 4 == 0
  {
    var bytes := Utf16Le(Utf16(Quoted(password)));
    Base64EncodeLength(bytes);
    Base64Encode(bytes)
  }

  /** The password a unicodePwd value carries, if it is one. */
  function PasswordOf(value: string): Option<string>
  {
    match Base64Decode(value)
    case None => None
    case Some(bytes) =>
      if |bytes| % 2 != 0 then None
      else
        match FromUtf16(FromUtf16Le(bytes))
        case None => None
        case Some(s) => Unquote(s)
  }

  /** The text between a leading and a trailing double quote. */
  function Unquote(s: string): (r: Option<string>)
    ensures r.Some? ==> Quoted(r.value) == s
  {
    if |s| >= 2 && s[0] == '"' && s[|s| - 1] == '"' then Some(s[1..|s| - 1]) else None
  }

  /** The value written for a password carries that password. */
  lemma UnicodePwdRoundTrip(password: string)
    ensures PasswordOf(UnicodePwd(password)) == Some(password)
  {
    UnquoteQuoted(password);
    DecodesToUnquoted(Quoted(password), password);
  }

  lemma DecodesToUnquoted(q: string, password: string)
    requires Unquote(q) == Some(password)
    ensures PasswordOf(Base64Encode(Utf16Le(Utf16(q)))) == Some(password)
  {
    Utf16Layers(q);
    Base64Layer(Utf16Le(Utf16(q)), q, password);
  }

  lemma Utf16Layers(q: string)
    ensures |Utf16Le(Utf16(q))| % 2 == 0
    ensures FromUtf16(FromUtf16Le(Utf16Le(Utf16(q)))) == Some(q)
  {
    var u := Utf16(q);
    var b := Utf16Le(u);
    assert |b| == 2 * |u|;
    assert |b| % 2 == 0;
    Utf16LeRoundTrip(u);
    Utf16RoundTrip(q);
  }

  lemma Base64Layer(bytes: seq<byte>, q: string, password: string)
    requires |bytes| % 2 == 0 && FromUtf16(FromUtf16Le(bytes)) == Some(q) && Unquote(q) == Some(password)
    ensures PasswordOf(Base64Encode(bytes)) == Some(password)
  {
    Base64RoundTrip(bytes);
  }

  lemma UnquoteQuoted(password: string)
    ensures Unquote(Quoted(password)) == Some(password)
  {
    var q := Quoted(password);
    assert q[1..|q| - 1] == password;
  }

  /** Different passwords give different values. */
  lemma UnicodePwdInjective(p: string, q: string)
    requires UnicodePwd(p) == UnicodePwd(q)
    ensures p == q
  {
    UnicodePwdRoundTrip(p);
    UnicodePwdRoundTrip(q);
  }

  /** The password setUp gives every test account. */
  const Password: string := "P@ssw0rd"

  /** The user account the user tests create. */
  const Username: string := "BindTestUser"

  /** The machine account's unicodePwd value carries the password the
      machine credentials then bind with. */
  lemma MachinePasswordMatches()
    ensures PasswordOf(UnicodePwd("P@ssw0rd")) == Some(Password)
  {
    UnicodePwdRoundTrip(Password);
  }

  // ---------------------------------------------------------------------
  // Bind identities

  /** The first occurrence of `sep` splits `s` in two. */
  function SplitFirst(s: string, sep: char): (r: Option<(string, string)>)
    ensures r.None? <==> sep !in s
    ensures r.Some? ==> sep !in r.value.0 && s == r.value.0 + [sep] + r.value.1
  {
    if |s| == 0 then None
    else if s[0] == sep then Some(([], s[1..]))
    else
      match SplitFirst(s[1..], sep)
      case None => None
      case Some((a, b)) => Some(([s[0]] + a, b))
  }

  /** The bind DN in user@realm form. */
  function Upn(username: string, realm: string): string
  {
    username + "@" + realm
  }

  /** The bind DN in domain\user form. */
  function DomainQualified(domain: string, username: string): string
  {
    domain + "\\" + username
  }

  lemma {:induction false} SplitFirstOf(a: string, sep: char, b: string)
    requires sep !in a
    ensures SplitFirst(a + [sep] + b, sep) == Some((a, b))
  {
    if |a| > 0 {
      assert (a + [sep] + b)[1..] == a[1..] + [sep] + b;
      SplitFirstOf(a[1..], sep, b);
      assert [a[0]] + a[1..] == a;
    } else {
      assert (a + [sep] + b)[1..] == b;
    }
  }

  /** A user name without '@' is recovered, with the realm, from the UPN. */
  lemma UpnSplits(username: string, realm: string)
    requires '@' !in username
    ensures SplitFirst(Upn(username, realm), '@') == Some((username, realm))
  {
    SplitFirstOf(username, '@', realm);
  }

  /** A domain name without '\' is recovered, with the user name, from
      the domain-qualified form. */
  lemma DomainQualifiedSplits(domain: string, username: string)
    requires '\\' !in domain
    ensures SplitFirst(DomainQualified(domain, username), '\\') == Some((domain, username))
  {
    SplitFirstOf(domain, '\\', username);
  }

  /** The DN of the one entry the sAMAccountName search must find; the
      test fails on any other number of entries. */
  function SingleDn(found: seq<string>): (r: Option<string>)
    ensures r.Some? <==> |found| == 1
    ensures r.Some? ==> r.value == found[0]
  {
    if |found| == 1 then Some(found[0]) else None
  }

  /** The machine account the computer test creates under the domain. */
  function ComputerDn(domainDn: string): (r: string)
    ensures |r| > |domainDn| && r[|r| - |domainDn|..] == domainDn
  {
    "CN=centos53,CN=Computers," + domainDn
  }

  // ---------------------------------------------------------------------
  // Credentials

  /** The gensec feature bit that asks for sealing (GENSEC_FEATURE_SEAL). */
  const FEATURE_SEAL: bv32 := 0x0000_0004

  /** Features with sealing asked for, every other bit as it was. */
  function WithSeal(features: bv32): (r: bv32)
    ensures r & FEATURE_SEAL == FEATURE_SEAL
    ensures r & !FEATURE_SEAL == features & !FEATURE_SEAL
  {
    features | FEATURE_SEAL
  }

  /** What Credentials.guess takes from the smb.conf settings. */
  datatype Guessed = Guessed(username: string, password: string, domain: string, realm: string,
                             workstation: string, features: bv32)

  /** The fields of a credentials object the test reads or sets. */
  datatype CredState = CredState(username: string, password: string, domain: string, realm: string,
                                 workstation: string, bindDn: string, features: bv32)

  class Credentials {
    var username: string
    var password: string
    var domain: string
    var realm: string
    var workstation: string
    var bindDn: string
    var features: bv32

    function State(): CredState
      reads this
    {
      CredState(username, password, domain, realm, workstation, bindDn, features)
    }

    /** Credentials() followed by guess(lp). */
    constructor Guess(g: Guessed)
      ensures State() == CredState(g.username, g.password, g.domain, g.realm, g.workstation, "", g.features)
    {
      username, password, domain, realm := g.username, g.password, g.domain, g.realm;
      workstation, bindDn, features := g.workstation, "", g.features;
    }

    method SetGensecFeatures(f: bv32)
      modifies this
      ensures State() == old(State()).(features := f)
    {
      features := f;
    }

    method SetBindDn(dn: string)
      modifies this
      ensures State() == old(State()).(bindDn := dn)
    {
      bindDn := dn;
    }

    method SetPassword(p: string)
      modifies this
      ensures State() == old(State()).(password := p)
    {
      password := p;
    }

    method SetUsername(u: string)
      modifies this
      ensures State() == old(State()).(username := u)
    {
      username := u;
    }

    method SetDomain(d: string)
      modifies this
      ensures State() == old(State()).(domain := d)
    {
      domain := d;
    }

    method SetWorkstation(w: string)
      modifies this
      ensures State() == old(State()).(workstation := w)
    {
      workstation := w;
    }
  }

  /** create_credential: fresh guessed credentials that take over the
      gensec features of `other`. */
  method CreateCredential(g: Guessed, other: Credentials) returns (c: Credentials)
    ensures fresh(c)
    ensures c.State() == CredState(g.username, g.password, g.domain, g.realm, g.workstation, "", other.features)
  {
    c := new Credentials.Guess(g);
    c.SetGensecFeatures(other.features);
  }

  /** The module set-up: sealing is added to the command-line credentials
      and five credentials are derived from them. */
  method DeriveCredentials(g: Guessed, creds: Credentials)
    returns (machine: Credentials, user1: Credentials, user2: Credentials, user3: Credentials, user4: Credentials)
    modifies creds
    ensures creds.State() == old(creds.State()).(features := WithSeal(old(creds.features)))
    ensures fresh(machine) && fresh(user1) && fresh(user2) && fresh(user3) && fresh(user4)
    ensures forall c :: c in [machine, user1, user2, user3, user4] ==>
      c.State() == CredState(g.username, g.password, g.domain, g.realm, g.workstation, "", WithSeal(old(creds.features)))
  {
    creds.SetGensecFeatures(WithSeal(creds.features));
    machine := CreateCredential(g, creds);
    user1 := CreateCredential(g, creds);
    user2 := CreateCredential(g, creds);
    user3 := CreateCredential(g, creds);
    user4 := CreateCredential(g, creds);
  }

  /** test_computer_account_bind: bind as the machine account's DN. */
  method BindAsComputer(c: Credentials, domainDn: string)
    modifies c
    ensures c.State() == old(c.State()).(bindDn := ComputerDn(domainDn), password := Password)
  {
    c.SetBindDn(ComputerDn(domainDn));
    c.SetPassword(Password);
  }

  /** The user@realm bind of test_user_account_bind, with the realm of the
      command-line credentials. */
  method BindAsUpn(c: Credentials, creds: Credentials)
    requires c != creds
    modifies c
    ensures c.State() == old(c.State()).(bindDn := Upn(Username, creds.realm), password := Password)
  {
    c.SetBindDn(Upn(Username, creds.realm));
    c.SetPassword(Password);
  }

  /** The domain\user bind of test_user_account_bind. */
  method BindAsDomainUser(c: Credentials, creds: Credentials)
    requires c != creds
    modifies c
    ensures c.State() == old(c.State()).(bindDn := DomainQualified(creds.domain, Username), password := Password)
  {
    c.SetBindDn(DomainQualified(creds.domain, Username));
    c.SetPassword(Password);
  }

  /** The DN bind of test_user_account_bind: the search for the user must
      find one entry, whose DN becomes the bind DN; otherwise the test
      fails before any credential is touched. */
  method BindAsDn(c: Credentials, found: seq<string>) returns (ok: bool)
    modifies c
    ensures ok <==> |found| == 1
    ensures ok ==> c.State() == old(c.State()).(bindDn := found[0], password := Password)
    ensures !ok ==> c.State() == old(c.State())
  {
    var dn := SingleDn(found);
    if dn.None? {
      return false;
    }
    c.SetBindDn(dn.value);
    c.SetPassword(Password);
    ok := true;
  }

  /** test_user_account_bind_no_domain: the bare user name with empty
      domain and workstation. */
  method BindWithoutDomain(c: Credentials)
    modifies c
    ensures c.State() == old(c.State()).(username := Username, password := Password, domain := "", workstation := "")
  {
    c.SetUsername(Username);
    c.SetPassword(Password);
    c.SetDomain("");
    c.SetWorkstation("");
  }

  // ---------------------------------------------------------------------
  // The cached rootDSE

  /** An LDAP entry: attribute name to values. */
  type Entry = map<string, seq<string>>

  /** The naming contexts setUp reads from the rootDSE. */
  datatype Naming = Naming(schemaDn: string, domainDn: string, configDn: string, computerDn: string)

  datatype SetUpError = WrongEntryCount(count: nat) | MissingAttribute(name: string)

  /** entry[attr][0], when the attribute is there with a value. */
  function FirstValue(e: Entry, attr: string): (r: Option<string>)
    ensures r.Some? <==> attr in e && |e[attr]| > 0
    ensures r.Some? ==> r.value == e[attr][0]
  {
    if attr in e && |e[attr]| > 0 then Some(e[attr][0]) else None
  }

  /** The naming contexts setUp reads, in the order it reads them. */
  function NamingOf(e: Entry): (r: Result<Naming, SetUpError>)
    ensures r.Ok? <==> FirstValue(e, "schemaNamingContext").Some? && FirstValue(e, "defaultNamingContext").Some?
                       && FirstValue(e, "configurationNamingContext").Some?
    ensures r.Ok? ==> r.value.schemaDn == e["schemaNamingContext"][0] && r.value.domainDn == e["defaultNamingContext"][0]
                      && r.value.configDn == e["configurationNamingContext"][0]
                      && r.value.computerDn == ComputerDn(r.value.domainDn)
    ensures FirstValue(e, "schemaNamingContext").None? ==> r == Err(MissingAttribute("schemaNamingContext"))
  {
    match FirstValue(e, "schemaNamingContext")
    case None => Err(MissingAttribute("schemaNamingContext"))
    case Some(schema) =>
      match FirstValue(e, "defaultNamingContext")
      case None => Err(MissingAttribute("defaultNamingContext"))
      case Some(domain) =>
        match FirstValue(e, "configurationNamingContext")
        case None => Err(MissingAttribute("configurationNamingContext"))
        case Some(config) => Ok(Naming(schema, domain, config, ComputerDn(domain)))
  }

  /** One setUp on the cache: the rootDSE search runs only while nothing
      is cached, must return one entry, and that entry is cached. */
  datatype Step = Step(cache: Option<Entry>, searched: bool, result: Result<Naming, SetUpError>)

  function SetUpStep(cache: Option<Entry>, search: seq<Entry>): (r: Step)
    ensures r.searched <==> cache.None?
    ensures cache.Some? ==> r.cache == cache
    ensures r.cache.Some? <==> cache.Some? || |search| == 1
    ensures r.result.Ok? ==> r.cache.Some? && r.result == NamingOf(r.cache.value)
  {
    if cache.Some? then Step(cache, false, NamingOf(cache.value))
    else if |search| != 1 then Step(None, true, Err(WrongEntryCount(|search|)))
    else Step(Some(search[0]), true, NamingOf(search[0]))
  }

  /** How many of a run of setUps search for the rootDSE; `searches[i]` is
      what the i-th search would return. */
  function Searches(cache: Option<Entry>, searches: seq<seq<Entry>>): nat
    decreases |searches|
  {
    if |searches| == 0 then 0
    else
      var s := SetUpStep(cache, searches[0]);
      (if s.searched then 1 else 0) + Searches(s.cache, searches[1..])
  }

  /** The index of the first search that finds exactly one entry, or the
      number of searches when none does. */
  function FirstSingle(searches: seq<seq<Entry>>): (n: nat)
    ensures n <= |searches|
    ensures forall i :: 0 <= i < n ==> |searches[i]| != 1
    ensures n < |searches| ==> |searches[n]| == 1
  {
    if |searches| == 0 then 0
    else if |searches[0]| == 1 then 0
    else 1 + FirstSingle(searches[1..])
  }

  /** Once an entry is cached no setUp searches again. */
  lemma {:induction false} CachedNeverSearches(e: Entry, searches: seq<seq<Entry>>)
    ensures Searches(Some(e), searches) == 0
  {
    if |searches| > 0 {
      CachedNeverSearches(e, searches[1..]);
    }
  }

  /** Starting from an empty cache, setUps search up to and including the
      first search that finds one entry, and never after it. */
  lemma {:induction false} SearchesUntilFirstSingle(searches: seq<seq<Entry>>)
    ensures Searches(None, searches) == if FirstSingle(searches) < |searches| then FirstSingle(searches) + 1 else |searches|
  {
    if |searches| > 0 {
      if |searches[0]| == 1 {
        CachedNeverSearches(searches[0][0], searches[1..]);
      } else {
        SearchesUntilFirstSingle(searches[1..]);
      }
    }
  }

  /** BindTests.info_dc, shared by every test. */
  class RootDseCache {
    var infoDc: Option<Entry>

    constructor()
      ensures infoDc == None
    {
      infoDc := None;
    }

    /** The rootDSE part of setUp; `search` is what the rootDSE search
        returns, looked at only when nothing is cached. */
    method SetUp(search: seq<Entry>) returns (searched: bool, r: Result<Naming, SetUpError>)
      modifies this
      ensures Step(infoDc, searched, r) == SetUpStep(old(infoDc), search)
    {
      searched := false;
      if infoDc.None? {
        searched := true;
        if |search| != 1 {
          return searched, Err(WrongEntryCount(|search|));
        }
        infoDc := Some(search[0]);
      }
      var schema := FirstValue(infoDc.value, "schemaNamingContext");
      if schema.None? {
        return searched, Err(MissingAttribute("schemaNamingContext"));
      }
      var domain := FirstValue(infoDc.value, "defaultNamingContext");
      if domain.None? {
        return searched, Err(MissingAttribute("defaultNamingContext"));
      }
      var config := FirstValue(infoDc.value, "configurationNamingContext");
      if config.None? {
        return searched, Err(MissingAttribute("configurationNamingContext"));
      }
      r := Ok(Naming(schema.value, domain.value, config.value, ComputerDn(domain.value)));
    }
  }
}
