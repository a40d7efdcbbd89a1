/** The `net rpc` client helpers that build user tokens (the SID sets
    whose share access `net rpc share allowedusers` reports), read them
    from a token file, edit a user's account-control flags and name a
    trust account. */
module NetRpc {
  import opened Common
  import opened SecurityToken

  /** No SID occurs twice. */
  predicate Distinct(sids: seq<Sid>)
  {
    forall i, j :: 0 <= i < j < |sids| ==> sids[i] != sids[j]
  }

  /** add_sid_to_token on the SID list: append the SID unless it is
      already there. */
  function WithSid(sids: seq<Sid>, sid: Sid): (r: seq<Sid>)
    ensures sids <= r && sid in r
    ensures forall x :: x in r <==> x in sids || x == sid
    ensures |r| == if sid in sids then |sids| else |sids| + 1
    ensures Distinct(sids) ==> Distinct(r)
  {
    if sid in sids then sids else sids + [sid]
  }

  lemma WithSidIdempotent(sids: seq<Sid>, sid: Sid)
    ensures WithSid(WithSid(sids, sid), sid) == WithSid(sids, sid)
  {
    assert sid in WithSid(sids, sid);
  }

  /** struct full_alias: an alias SID and the SIDs that are its members. */
  datatype FullAlias = FullAlias(sid: Sid, members: seq<Sid>)

  /** `x` is the SID of an alias in the table that lists `sid` as a
      member. */
  predicate AliasOf(x: Sid, sid: Sid, aliases: seq<FullAlias>)
  {
    exists a :: a in aliases && sid in a.members && a.sid == x
  }

  /** collect_sid_memberships on the SID list: for each alias in table
      order that lists `sid` as a member, add the alias SID. */
  function AddAliasesOf(acc: seq<Sid>, sid: Sid, aliases: seq<FullAlias>): (r: seq<Sid>)
    ensures acc <= r
    ensures Distinct(acc) ==> Distinct(r)
    ensures forall x :: x in r <==> x in acc || AliasOf(x, sid, aliases)
  {
    if |aliases| == 0 then acc
    else
      var init := aliases[..|aliases| - 1];
      var prev := AddAliasesOf(acc, sid, init);
      var a := aliases[|aliases| - 1];
      assert aliases == init + [a];
      assert forall x :: AliasOf(x, sid, aliases) <==>
        AliasOf(x, sid, init) || (sid in a.members && a.sid == x) by {
        forall x | AliasOf(x, sid, aliases)
          ensures AliasOf(x, sid, init) || (sid in a.members && a.sid == x)
        {
          var b :| b in aliases && sid in b.members && b.sid == x;
          if b != a {
            assert b in init;
          }
        }
      }
      if sid in a.members then WithSid(prev, a.sid) else prev
  }

  /** `x` is the SID of an alias that lists some SID of `members`. */
  predicate ExpandedFrom(x: Sid, members: seq<Sid>, aliases: seq<FullAlias>)
  {
    exists s :: s in members && AliasOf(x, s, aliases)
  }

  /** collect_alias_memberships on the SID list: expand each SID of
      `members`, in order, against the whole alias table. */
  function Collect(acc: seq<Sid>, members: seq<Sid>, aliases: seq<FullAlias>): (r: seq<Sid>)
    ensures acc <= r
    ensures Distinct(acc) ==> Distinct(r)
    ensures forall x :: x in r <==> x in acc || ExpandedFrom(x, members, aliases)
  {
    if |members| == 0 then acc
    else
      var init := members[..|members| - 1];
      var prev := Collect(acc, init, aliases);
      var s := members[|members| - 1];
      assert members == init + [s];
      assert forall x :: ExpandedFrom(x, members, aliases) <==>
        ExpandedFrom(x, init, aliases) || AliasOf(x, s, aliases) by {
        forall x | ExpandedFrom(x, members, aliases)
          ensures ExpandedFrom(x, init, aliases) || AliasOf(x, s, aliases)
        {
          var t :| t in members && AliasOf(x, t, aliases);
          if t != s {
            assert t in init;
          }
        }
      }
      AddAliasesOf(prev, s, aliases)
  }

  /** Alias memberships are expanded one level only: an alias whose sole
      member is another alias's SID joins the token only if that SID was
      already in the token on entry. */
  lemma CollectOneLevel(sids: seq<Sid>, aliases: seq<FullAlias>, inner: FullAlias, outer: FullAlias)
    requires inner in aliases && outer in aliases
    requires outer.members == [inner.sid]
    requires inner.sid !in sids && outer.sid !in sids
    requires forall a :: a in aliases && a.sid == outer.sid ==> a == outer
    ensures inner.sid in Collect(sids, sids, aliases) <==> ExpandedFrom(inner.sid, sids, aliases)
    ensures outer.sid !in Collect(sids, sids, aliases)
  {
  }

  /** NT_USER_TOKEN: the user_sids array together with num_sids. */
  class UserToken {
    var sids: seq<Sid>

    constructor ()
      ensures sids == []
    {
      sids := [];
    }

    /** init_user_token: the user SID followed by World, Network and
        Authenticated Users; `allocFails` stands for SMB_MALLOC_ARRAY
        returning NULL, which leaves an empty token. */
    method Init(user: Sid, allocFails: bool)
      modifies this
      ensures allocFails ==> sids == []
      ensures !allocFails ==> sids == [user, WorldSid, NetworkSid, AuthenticatedUsersSid]
      ensures !allocFails && user !in [WorldSid, NetworkSid, AuthenticatedUsersSid] ==> Distinct(sids)
    {
      if allocFails {
        sids := [];
      } else {
        sids := [user, WorldSid, NetworkSid, AuthenticatedUsersSid];
      }
    }

    /** is_sid_in_token: a scan over user_sids[0..num_sids). */
    method Contains(sid: Sid) returns (found: bool)
      ensures found <==> sid in sids
    {
      var i := 0;
      while i < |sids|
        invariant 0 <= i <= |sids|
        invariant sid !in sids[..i]
      {
        if sids[i] == sid {
          return true;
        }
        assert sids[..i + 1] == sids[..i] + [sids[i]];
        i := i + 1;
      }
      assert sids[..i] == sids;
      return false;
    }

    /** add_sid_to_token. */
    method Add(sid: Sid)
      modifies this
      ensures sids == WithSid(old(sids), sid)
    {
      var present := Contains(sid);
      if present {
        return;
      }
      sids := sids + [sid];
    }

    /** collect_sid_memberships over the server alias table. */
    method CollectSidMemberships(sid: Sid, aliases: seq<FullAlias>)
      modifies this
      ensures sids == AddAliasesOf(old(sids), sid, aliases)
    {
      var i := 0;
      while i < |aliases|
        invariant 0 <= i <= |aliases|
        invariant sids == AddAliasesOf(old(sids), sid, aliases[..i])
      {
        assert aliases[..i + 1][..i] == aliases[..i];
        var member := IsAliasMember(sid, aliases[i]);
        if member {
          Add(aliases[i].sid);
        }
        i := i + 1;
      }
      assert aliases[..i] == aliases;
    }

    /** collect_alias_memberships: expands the SIDs present on entry,
        counted once before the loop, so SIDs it adds are not expanded. */
    method CollectAliasMemberships(aliases: seq<FullAlias>)
      modifies this
      ensures sids == Collect(old(sids), old(sids), aliases)
    {
      ghost var orig := sids;
      var numGlobalSids := |sids|;
      var i := 0;
      while i < numGlobalSids
        invariant 0 <= i <= numGlobalSids == |orig|
        invariant sids == Collect(orig, orig[..i], aliases)
      {
        assert orig[..i + 1][..i] == orig[..i];
        assert sids[i] == orig[i];
        CollectSidMemberships(sids[i], aliases);
        i := i + 1;
      }
      assert orig[..i] == orig;
    }
  }

  /** is_alias_member: a scan over the alias's members. */
  method IsAliasMember(sid: Sid, alias: FullAlias) returns (member: bool)
    ensures member <==> sid in alias.members
  {
    var i := 0;
    while i < |alias.members|
      invariant 0 <= i <= |alias.members|
      invariant sid !in alias.members[..i]
    {
      if alias.members[i] == sid {
        return true;
      }
      assert alias.members[..i + 1] == alias.members[..i] + [alias.members[i]];
      i := i + 1;
    }
    assert alias.members[..i] == alias.members;
    return false;
  }

  // ---------------------------------------------------------------------
  // The token file: a user name on a line of its own, followed by that
  // user's SIDs, one per line, each indented by a single space.

  /** struct user_token: a name and its SID list. */
  datatype NamedToken = NamedToken(name: string, sids: seq<Sid>)

  /** A trailing newline, as fgets keeps it, is cut off. */
  function StripNewline(line: string): (r: string)
    ensures |line| > 0 && line[|line| - 1] == '\n' ==> r + ['\n'] == line
    ensures !(|line| > 0 && line[|line| - 1] == '\n') ==> r == line
  {
    if |line| > 0 && line[|line| - 1] == '\n' then line[..|line| - 1] else line
  }

  predicate IsSidLine(line: string)
  {
    |line| > 0 && line[0] == ' '
  }

  /** sids holds the SIDs of before and sid, and no others. */
  ghost predicate SidsWith(sids: seq<Sid>, before: seq<Sid>, sid: Sid)
  {
    forall x :: x in sids <==> x in before || x == sid
  }

  /** One line of get_user_tokens_from_file, newline already cut: a SID
      line adds `parse` of the rest of the line to the current (last)
      token and fails when there is none; any other line starts a new
      token with no SIDs.  `parse` stands for string_to_sid. */
  function ParseLine(ts: seq<NamedToken>, line: string, parse: string -> Sid): (r: Option<seq<NamedToken>>)
    ensures r.None? <==> IsSidLine(line) && |ts| == 0
    ensures r.Some? && IsSidLine(line) ==>
      && |r.value| == |ts| && r.value[..|ts| - 1] == ts[..|ts| - 1]
      && r.value[|ts| - 1].name == ts[|ts| - 1].name && ts[|ts| - 1].sids <= r.value[|ts| - 1].sids
      && SidsWith(r.value[|ts| - 1].sids, ts[|ts| - 1].sids, parse(line[1..]))
    ensures r.Some? && !IsSidLine(line) ==> r.value == ts + [NamedToken(line, [])]
  {
    if IsSidLine(line) then
      if |ts| == 0 then None
      else
        var last := ts[|ts| - 1];
        Some(ts[..|ts| - 1] + [NamedToken(last.name, WithSid(last.sids, parse(line[1..])))])
    else Some(ts + [NamedToken(line, [])])
  }

  /** get_user_tokens_from_file over the lines fgets returns.  None is
      the False return for a SID line with no user before it. */
  function ParseTokens(lines: seq<string>, parse: string -> Sid): Option<seq<NamedToken>>
  {
    if |lines| == 0 then Some([])
    else
      match ParseTokens(lines[..|lines| - 1], parse)
      case None => None
      case Some(ts) => ParseLine(ts, StripNewline(lines[|lines| - 1]), parse)
  }

  /** The user lines of the file, stripped, in order. */
  function UserNames(lines: seq<string>): (r: seq<string>)
    ensures |r| <= |lines|
  {
    if |lines| == 0 then []
    else
      var line := StripNewline(lines[|lines| - 1]);
      UserNames(lines[..|lines| - 1]) + (if IsSidLine(line) then [] else [line])
  }

  function Names(ts: seq<NamedToken>): seq<string>
  {
    if |ts| == 0 then [] else Names(ts[..|ts| - 1]) + [ts[|ts| - 1].name]
  }

  lemma {:induction false} NamesOfUpdate(ts: seq<NamedToken>, t: NamedToken)
    requires |ts| > 0 && t.name == ts[|ts| - 1].name
    ensures Names(ts[..|ts| - 1] + [t]) == Names(ts)
  {
    assert (ts[..|ts| - 1] + [t])[..|ts| - 1] == ts[..|ts| - 1];
  }

  lemma {:induction false} NamesOfPush(ts: seq<NamedToken>, t: NamedToken)
    ensures Names(ts + [t]) == Names(ts) + [t.name]
  {
    assert (ts + [t])[..|ts|] == ts;
  }

  /** The parse fails exactly when the first line is a SID line. */
  lemma {:induction false} ParseFailsIffLeadingSid(lines: seq<string>, parse: string -> Sid)
    ensures ParseTokens(lines, parse).None? <==>
      |lines| > 0 && IsSidLine(StripNewline(lines[0]))
  {
    if |lines| > 1 {
      var init := lines[..|lines| - 1];
      ParseFailsIffLeadingSid(init, parse);
      assert init[0] == lines[0];
      match ParseTokens(init, parse)
      case None =>
      case Some(ts) =>
        if |ts| == 0 {
          ParseNames(init, parse);
          UserNamesEmpty(init);
        }
    }
  }

  /** A non-empty prefix whose first line is a user line has at least
      one user name. */
  lemma {:induction false} UserNamesEmpty(lines: seq<string>)
    requires |lines| > 0 && !IsSidLine(StripNewline(lines[0]))
    ensures |UserNames(lines)| > 0
  {
    if |lines| > 1 {
      var init := lines[..|lines| - 1];
      assert init[0] == lines[0];
      UserNamesEmpty(init);
    }
  }

  /** Every user line starts one token, in file order. */
  lemma {:induction false} ParseNames(lines: seq<string>, parse: string -> Sid)
    requires ParseTokens(lines, parse).Some?
    ensures Names(ParseTokens(lines, parse).value) == UserNames(lines)
  {
    if |lines| > 0 {
      var init := lines[..|lines| - 1];
      ParseNames(init, parse);
      var ts := ParseTokens(init, parse).value;
      var line := StripNewline(lines[|lines| - 1]);
      if IsSidLine(line) {
        var last := ts[|ts| - 1];
        NamesOfUpdate(ts, NamedToken(last.name, WithSid(last.sids, parse(line[1..]))));
      } else {
        NamesOfPush(ts, NamedToken(line, []));
      }
    }
  }

  /** No token read from the file lists a SID twice. */
  lemma {:induction false} ParseDistinct(lines: seq<string>, parse: string -> Sid)
    requires ParseTokens(lines, parse).Some?
    ensures forall t :: t in ParseTokens(lines, parse).value ==> Distinct(t.sids)
  {
    if |lines| > 0 {
      var init := lines[..|lines| - 1];
      ParseDistinct(init, parse);
      var ts := ParseTokens(init, parse).value;
      var line := StripNewline(lines[|lines| - 1]);
      if IsSidLine(line) {
        var last := ts[|ts| - 1];
        var t := NamedToken(last.name, WithSid(last.sids, parse(line[1..])));
        assert last in ts;
        assert forall u :: u in ts[..|ts| - 1] + [t] ==> u == t || u in ts;
      }
    }
  }

  /** The body of the reader's loop for one line. */
  method ReadLine(tokens: seq<NamedToken>, line: string, parse: string -> Sid) returns (r: Option<seq<NamedToken>>)
    ensures r == ParseLine(tokens, line, parse)
  {
    if |line| > 0 && line[0] == ' ' {
      var sid := parse(line[1..]);
      if |tokens| == 0 {
        return None;
      }
      var last := tokens[|tokens| - 1];
      return Some(tokens[..|tokens| - 1] + [NamedToken(last.name, WithSid(last.sids, sid))]);
    }
    return Some(tokens + [NamedToken(line, [])]);
  }

  /** Once a prefix of the file fails to parse, the whole file does. */
  lemma {:induction false} NoneExtends(lines: seq<string>, i: nat, parse: string -> Sid)
    requires i <= |lines| && ParseTokens(lines[..i], parse).None?
    ensures ParseTokens(lines, parse).None?
  {
    if i < |lines| {
      assert lines[..|lines| - 1][..i] == lines[..i];
      NoneExtends(lines[..|lines| - 1], i, parse);
    } else {
      assert lines[..i] == lines;
    }
  }

  /** One more line of the file is one more ParseLine. */
  lemma ParseTokensStep(lines: seq<string>, i: nat, tokens: seq<NamedToken>, parse: string -> Sid)
    requires i < |lines| && ParseTokens(lines[..i], parse) == Some(tokens)
    ensures ParseTokens(lines[..i + 1], parse) == ParseLine(tokens, StripNewline(lines[i]), parse)
  {
    assert lines[..i + 1][..i] == lines[..i];
  }

  /** The file reader: grows the token list line by line. */
  method ReadTokens(lines: seq<string>, parse: string -> Sid) returns (r: Option<seq<NamedToken>>)
    requires forall k :: 0 <= k < |lines| ==> |lines[k]| > 0
    ensures r == ParseTokens(lines, parse)
  {
    var tokens: seq<NamedToken> := [];
    var i := 0;
    while i < |lines|
      invariant 0 <= i <= |lines|
      invariant ParseTokens(lines[..i], parse) == Some(tokens)
    {
      ParseTokensStep(lines, i, tokens, parse);
      var line := lines[i];
      if line[|line| - 1] == '\n' {
        line := line[..|line| - 1];
      }
      assert line == StripNewline(lines[i]);
      var next := ReadLine(tokens, line, parse);
      if next.None? {
        NoneExtends(lines, i + 1, parse);
        return None;
      }
      tokens := next.value;
      i := i + 1;
    }
    assert lines[..i] == lines;
    return Some(tokens);
  }

  // ---------------------------------------------------------------------
  // `net rpc shell` user flag editing.

  /** The account-control bits the four flag commands edit. */
  const ACB_DISABLED: bv32 := 0x0000_0001
  const ACB_PWNOTREQ: bv32 := 0x0000_0004
  const ACB_PWNOEXP: bv32 := 0x0000_0200
  const ACB_AUTOLOCK: bv32 := 0x0000_0400

  /** NTSTATUS values the flag edit and trust commands produce.
      RpcStatus carries the status of a SAMR call that is not part of
      this model. */
  datatype NtStatus = NtStatusOk | NtStatusInvalidParameter | RpcStatus(code: nat)

  /** The old value reported for the flag and the flags to write. */
  datatype FlagChange = FlagChange(oldval: string, newflags: bv32)

  /** flags | bit: the bit is on and every other bit is kept. */
  function SetBit(flags: bv32, bit: bv32): (r: bv32)
    ensures r & bit == bit
    ensures r & !bit == flags & !bit
  {
    flags | bit
  }

  /** flags & ~bit: the bit is off and every other bit is kept. */
  function ClearBit(flags: bv32, bit: bv32): (r: bv32)
    ensures r & bit == 0
    ensures r & !bit == flags & !bit
  {
    flags & !bit
  }

  predicate HasBit(flags: bv32, bit: bv32) { flags & bit != 0 }

  /** One HANDLEFLG expansion: if the command is `name`, report the old
      bit and compute the new flags from the old ones. */
  function HandleFlag(cmd: string, name: string, bit: bv32, newval: bool, oldflags: bv32, acc: FlagChange): (r: FlagChange)
    ensures !EqualsIgnoreCase(cmd, name) ==> r == acc
    ensures EqualsIgnoreCase(cmd, name) ==> r.oldval == (if HasBit(oldflags, bit) then "yes" else "no")
  {
    if EqualsIgnoreCase(cmd, name) then
      FlagChange(if HasBit(oldflags, bit) then "yes" else "no",
                 if newval then SetBit(oldflags, bit) else ClearBit(oldflags, bit))
    else acc
  }

  /** The four HANDLEFLG expansions in their source order. */
  function HandleFlags(cmd: string, newval: bool, oldflags: bv32): FlagChange
  {
    var c0 := FlagChange("unknown", oldflags);
    var c1 := HandleFlag(cmd, "disabled", ACB_DISABLED, newval, oldflags, c0);
    var c2 := HandleFlag(cmd, "pwnotreq", ACB_PWNOTREQ, newval, oldflags, c1);
    var c3 := HandleFlag(cmd, "autolock", ACB_AUTOLOCK, newval, oldflags, c2);
    HandleFlag(cmd, "pwnoexp", ACB_PWNOEXP, newval, oldflags, c3)
  }

  /** What rpc_sh_user_flag_edit_internals does: reject the arguments,
      pass on a failed QueryUserInfo, print the flag, or write new flags
      with SetUserInfo. */
  datatype FlagEditOutcome = Usage | QueryFailed(status: NtStatus) | Report(oldval: string) | Write(newflags: bv32)

  /** The argument check: at most one argument, and it must be yes or no. */
  predicate BadFlagArgs(args: seq<string>)
  {
    |args| > 1 || (|args| == 1 && !EqualsIgnoreCase(args[0], "yes") && !EqualsIgnoreCase(args[0], "no"))
  }

  /** `query` is the result of QueryUserInfo level 21: the account flags
      or a failing status. */
  function FlagEdit(cmd: string, args: seq<string>, query: Result<bv32, NtStatus>): (r: FlagEditOutcome)
    ensures r.Usage? <==> BadFlagArgs(args)
    ensures r.QueryFailed? <==> !BadFlagArgs(args) && query.Err?
    ensures r.Report? <==> !BadFlagArgs(args) && query.Ok? && |args| == 0
  {
    if BadFlagArgs(args) then Usage
    else
      var newval := |args| == 1 && EqualsIgnoreCase(args[0], "yes");
      match query
      case Err(status) => QueryFailed(status)
      case Ok(oldflags) =>
        var change := HandleFlags(cmd, newval, oldflags);
        if |args| == 0 then Report(change.oldval) else Write(change.newflags)
  }

  /** The four flag names HANDLEFLG is expanded for, each with its ACB bit. */
  predicate FlagBit(name: string, bit: bv32)
  {
    || (name == "disabled" && bit == ACB_DISABLED)
    || (name == "pwnotreq" && bit == ACB_PWNOTREQ)
    || (name == "autolock" && bit == ACB_AUTOLOCK)
    || (name == "pwnoexp" && bit == ACB_PWNOEXP)
  }

  /** A command matching one flag name matches none of the others, so
      exactly one HANDLEFLG expansion applies to it. */
  lemma HandleFlagsFor(cmd: string, name: string, bit: bv32, newval: bool, oldflags: bv32)
    requires FlagBit(name, bit) && EqualsIgnoreCase(cmd, name)
    ensures HandleFlags(cmd, newval, oldflags) ==
      FlagChange(if HasBit(oldflags, bit) then "yes" else "no",
                 if newval then SetBit(oldflags, bit) else ClearBit(oldflags, bit))
  {
    FlagNameMatches(cmd, name, bit);
    var c0 := FlagChange("unknown", oldflags);
    var change := FlagChange(if HasBit(oldflags, bit) then "yes" else "no",
                             if newval then SetBit(oldflags, bit) else ClearBit(oldflags, bit));
    if name == "disabled" {
      assert HandleFlag(cmd, "disabled", ACB_DISABLED, newval, oldflags, c0) == change;
    } else if name == "pwnotreq" {
      assert HandleFlag(cmd, "pwnotreq", ACB_PWNOTREQ, newval, oldflags, c0) == change;
    } else if name == "autolock" {
      assert HandleFlag(cmd, "autolock", ACB_AUTOLOCK, newval, oldflags, c0) == change;
    }
  }

  /** The four flag names differ even up to case, so a command matches
      at most one of them. */
  lemma FlagNameMatches(cmd: string, name: string, bit: bv32)
    requires FlagBit(name, bit) && EqualsIgnoreCase(cmd, name)
    ensures EqualsIgnoreCase(cmd, "disabled") <==> name == "disabled"
    ensures EqualsIgnoreCase(cmd, "pwnotreq") <==> name == "pwnotreq"
    ensures EqualsIgnoreCase(cmd, "autolock") <==> name == "autolock"
    ensures EqualsIgnoreCase(cmd, "pwnoexp") <==> name == "pwnoexp"
  {
    var d, p, a, e := Upper("disabled"), Upper("pwnotreq"), Upper("autolock"), Upper("pwnoexp");
    assert d[0] == 'D' && p[0] == 'P' && a[0] == 'A' && |e| == 7 && |p| == 8;
  }

  /** "yes" sets the command's bit and "no" clears it; every other bit
      is written back unchanged, and with no argument the old bit is
      reported as yes or no. */
  lemma FlagEditBit(cmd: string, name: string, bit: bv32, args: seq<string>, oldflags: bv32)
    requires FlagBit(name, bit) && EqualsIgnoreCase(cmd, name)
    requires !BadFlagArgs(args)
    ensures |args| == 0 ==>
      FlagEdit(cmd, args, Ok(oldflags)) == Report(if HasBit(oldflags, bit) then "yes" else "no")
    ensures |args| == 1 && EqualsIgnoreCase(args[0], "yes") ==>
      FlagEdit(cmd, args, Ok(oldflags)) == Write(SetBit(oldflags, bit))
    ensures |args| == 1 && !EqualsIgnoreCase(args[0], "yes") ==>
      FlagEdit(cmd, args, Ok(oldflags)) == Write(ClearBit(oldflags, bit))
  {
    HandleFlagsFor(cmd, name, bit, |args| == 1 && EqualsIgnoreCase(args[0], "yes"), oldflags);
  }

  /** A command that names none of the four flags reports "unknown" and
      writes the flags back as read. */
  lemma FlagEditUnknownCommand(cmd: string, args: seq<string>, oldflags: bv32)
    requires !BadFlagArgs(args)
    requires forall name, bit :: FlagBit(name, bit) ==> !EqualsIgnoreCase(cmd, name)
    ensures |args| == 0 ==> FlagEdit(cmd, args, Ok(oldflags)) == Report("unknown")
    ensures |args| == 1 ==> FlagEdit(cmd, args, Ok(oldflags)) == Write(oldflags)
  {
    assert FlagBit("disabled", ACB_DISABLED);
    assert FlagBit("pwnotreq", ACB_PWNOTREQ);
    assert FlagBit("autolock", ACB_AUTOLOCK);
    assert FlagBit("pwnoexp", ACB_PWNOEXP);
  }

  // ---------------------------------------------------------------------
  // Trust accounts.

  /** The trusting domain's account name: the domain name with '$'
      appended, upper-cased. */
  function TrustAccountName(domain: string): (r: string)
    ensures |r| == |domain| + 1 && r[|domain|] == '$'
    ensures r[..|domain|] == Upper(domain)
    ensures EqualsIgnoreCase(r, domain + "$")
    ensures forall k :: 0 <= k < |r| ==> !('a' <= r[k] <= 'z')
  {
    UpperIdempotent(domain + "$");
    Upper(domain + "$")
  }

  lemma UpperIdempotent(s: string)
    ensures Upper(Upper(s)) == Upper(s)
  {
    assert forall k :: 0 <= k < |s| ==> UpperChar(UpperChar(s[k])) == UpperChar(s[k]);
  }

  /** rpc_trustdom_add_internals' usage check: a domain name and a
      password. */
  function TrustdomAddAccount(args: seq<string>): (r: Result<string, NtStatus>)
    ensures r.Ok? <==> |args| == 2
    ensures r.Ok? ==> r.value == TrustAccountName(args[0])
    ensures r.Err? ==> r.error == NtStatusInvalidParameter
  {
    if |args| != 2 then Err(NtStatusInvalidParameter) else Ok(TrustAccountName(args[0]))
  }

  /** rpc_trustdom_del_internals' usage check: a domain name alone. */
  function TrustdomDelAccount(args: seq<string>): (r: Result<string, NtStatus>)
    ensures r.Ok? <==> |args| == 1
    ensures r.Ok? ==> r.value == TrustAccountName(args[0])
    ensures r.Err? ==> r.error == NtStatusInvalidParameter
  {
    if |args| != 1 then Err(NtStatusInvalidParameter) else Ok(TrustAccountName(args[0]))
  }
}
