/** Security tokens: the SIDs a session carries, the membership queries on
    them and the user level a session is granted. */
module SecurityToken {
  import opened Common

  /** A security identifier S-r-a-s1-s2-...: revision, identifier
      authority and sub-authorities.  dom_sid_equal compares all three. */
  datatype Sid = Sid(revision: nat, authority: nat, subAuths: seq<nat>)

  /** Well-known SIDs (the SID_NT_* and SID_BUILTIN_* constants). */
  const SystemSid := Sid(1, 5, [18])
  const AnonymousSid := Sid(1, 5, [7])
  const BuiltinAdministratorsSid := Sid(1, 5, [32, 544])
  const AuthenticatedUsersSid := Sid(1, 5, [11])
  const WorldSid := Sid(1, 1, [0])
  const NetworkSid := Sid(1, 5, [2])

  /** Their string forms, as the queries below receive them. */
  const SID_NT_SYSTEM: string := "S-1-5-18"
  const SID_NT_ANONYMOUS: string := "S-1-5-7"
  const SID_BUILTIN_ADMINISTRATORS: string := "S-1-5-32-544"
  const SID_NT_AUTHENTICATED_USERS: string := "S-1-5-11"

  /** struct security_token.  A NULL user or group SID is None; the SID
      array with its num_sids count is a sequence. */
  datatype Token = Token(userSid: Option<Sid>, groupSid: Option<Sid>, sids: seq<Sid>, privilegeMask: bv64)

  /** struct auth_session_info, reduced to the token it carries. */
  datatype SessionInfo = SessionInfo(token: Token)

  /** enum security_user_level, in the order of its values. */
  datatype UserLevel = SecurityAnonymous | SecurityUser | SecurityAdministrator | SecuritySystem

  /** The SID string parser dom_sid_parse_talloc is not part of this model:
      the string queries take it as a parameter.  A parser that reads the
      four well-known strings as their SIDs. */
  predicate WellKnown(parse: string -> Option<Sid>)
  {
    && parse(SID_NT_SYSTEM) == Some(SystemSid)
    && parse(SID_NT_ANONYMOUS) == Some(AnonymousSid)
    && parse(SID_BUILTIN_ADMINISTRATORS) == Some(BuiltinAdministratorsSid)
    && parse(SID_NT_AUTHENTICATED_USERS) == Some(AuthenticatedUsersSid)
  }

  /** security_token_initialise: a blank token. */
  function Initialise(): (t: Token)
    ensures t.userSid.None? && t.groupSid.None?
    ensures |t.sids| == 0 && t.privilegeMask == 0
  {
    Token(None, None, [], 0)
  }

  /** security_token_is_sid: compares the SID with the user SID only. */
  predicate IsSid(t: Token, sid: Sid)
  {
    t.userSid == Some(sid)
  }

  /** The loop of security_token_has_sid over sids[0..num_sids), as a
      recursion from the front. */
  function HasSidIn(sids: seq<Sid>, sid: Sid): (r: bool)
    ensures r <==> exists i :: 0 <= i < |sids| && sids[i] == sid
  {
    if |sids| == 0 then false
    else if sids[0] == sid then true
    else
      assert forall i :: 0 < i < |sids| ==> sids[i] == sids[1..][i - 1];
      HasSidIn(sids[1..], sid)
  }

  /** security_token_has_sid. */
  predicate HasSid(t: Token, sid: Sid)
  {
    HasSidIn(t.sids, sid)
  }

  /** security_token_is_sid_string: false when the string does not parse. */
  function IsSidString(t: Token, s: string, parse: string -> Option<Sid>): (r: bool)
    ensures r <==> parse(s).Some? && t.userSid == parse(s)
  {
    match parse(s)
    case None => false
    case Some(sid) => IsSid(t, sid)
  }

  /** security_token_has_sid_string: false when the string does not parse. */
  function HasSidString(t: Token, s: string, parse: string -> Option<Sid>): (r: bool)
    ensures r <==> parse(s).Some? && parse(s).value in t.sids
  {
    match parse(s)
    case None => false
    case Some(sid) =>
      assert HasSidIn(t.sids, sid) <==> sid in t.sids;
      HasSid(t, sid)
  }

  predicate IsSystem(t: Token, parse: string -> Option<Sid>)
  {
    IsSidString(t, SID_NT_SYSTEM, parse)
  }

  predicate IsAnonymous(t: Token, parse: string -> Option<Sid>)
  {
    IsSidString(t, SID_NT_ANONYMOUS, parse)
  }

  predicate HasBuiltinAdministrators(t: Token, parse: string -> Option<Sid>)
  {
    HasSidString(t, SID_BUILTIN_ADMINISTRATORS, parse)
  }

  predicate HasAuthenticatedUsers(t: Token, parse: string -> Option<Sid>)
  {
    HasSidString(t, SID_NT_AUTHENTICATED_USERS, parse)
  }

  /** security_session_user_level: the first rung of the ladder the
      session's token reaches; a missing session is anonymous. */
  function SessionUserLevel(session: Option<SessionInfo>, parse: string -> Option<Sid>): UserLevel
  {
    match session
    case None => SecurityAnonymous
    case Some(info) =>
      var t := info.token;
      if IsSystem(t, parse) then SecuritySystem
      else if IsAnonymous(t, parse) then SecurityAnonymous
      else if HasBuiltinAdministrators(t, parse) then SecurityAdministrator
      else if HasAuthenticatedUsers(t, parse) then SecurityUser
      else SecurityAnonymous
  }

  // ---------------------------------------------------------------------
  // Properties
  // ---------------------------------------------------------------------

  /** A blank token holds no SID: no query on it succeeds, and a session
      holding it is anonymous. */
  lemma InitialiseHoldsNothing(sid: Sid, parse: string -> Option<Sid>)
    ensures !IsSid(Initialise(), sid) && !HasSid(Initialise(), sid)
    ensures SessionUserLevel(Some(SessionInfo(Initialise())), parse) == SecurityAnonymous
  {
  }

  /** security_token_is_sid looks at the user SID alone: the group SID and
      the SID list do not change its answer. */
  lemma IsSidIgnoresGroups(t: Token, u: Token, sid: Sid)
    requires t.userSid == u.userSid
    ensures IsSid(t, sid) == IsSid(u, sid)
  {
  }

  /** The SID list as a set decides security_token_has_sid: order and
      repetition do not matter. */
  lemma HasSidBySet(t: Token, u: Token, sid: Sid)
    requires forall x :: x in t.sids <==> x in u.sids
    ensures HasSid(t, sid) == HasSid(u, sid)
  {
    assert HasSid(t, sid) <==> sid in t.sids;
    assert HasSid(u, sid) <==> sid in u.sids;
  }

  /** With a parser that fails on every string no string query succeeds,
      and every session is anonymous. */
  lemma UnparsableIsAnonymous(session: Option<SessionInfo>, parse: string -> Option<Sid>)
    requires forall s :: parse(s).None?
    ensures SessionUserLevel(session, parse) == SecurityAnonymous
  {
  }

  /** The user-level ladder in terms of the token's SIDs: each level holds
      exactly when its rung is reached and no higher rung is. */
  lemma UserLevelLadder(t: Token, parse: string -> Option<Sid>)
    requires WellKnown(parse)
    ensures var level := SessionUserLevel(Some(SessionInfo(t)), parse);
      && (level == SecuritySystem <==> t.userSid == Some(SystemSid))
      && (level == SecurityAdministrator <==>
            t.userSid != Some(SystemSid) && t.userSid != Some(AnonymousSid)
            && BuiltinAdministratorsSid in t.sids)
      && (level == SecurityUser <==>
            t.userSid != Some(SystemSid) && t.userSid != Some(AnonymousSid)
            && BuiltinAdministratorsSid !in t.sids && AuthenticatedUsersSid in t.sids)
      && (level == SecurityAnonymous <==>
            t.userSid != Some(SystemSid)
            && (t.userSid == Some(AnonymousSid)
                || (BuiltinAdministratorsSid !in t.sids && AuthenticatedUsersSid !in t.sids)))
  {
  }

  /** An anonymous user SID wins over any group membership. */
  lemma AnonymousUserIgnoresGroups(t: Token, parse: string -> Option<Sid>)
    requires WellKnown(parse) && t.userSid == Some(AnonymousSid)
    ensures SessionUserLevel(Some(SessionInfo(t)), parse) == SecurityAnonymous
  {
  }
}
