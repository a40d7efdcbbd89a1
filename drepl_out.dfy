/** Decisions the DRS replication client makes when it pulls changes from
    a source DSA: the bind info it keeps, the replica flags and partial
    attribute set it sends, and which reply containers it accepts.  The
    option bits and extended operations are those of the drsuapi
    interface (DRS_OPTIONS and EXOP codes in section 5 of [MS-DRSR]). */
module DreplOut {
  import opened Common

  // ---------------------------------------------------------------------
  // drsuapi constants
  // ---------------------------------------------------------------------

  const DRS_ADD_REF: bv32 := 0x0000_0004
  const DRS_WRIT_REP: bv32 := 0x0000_0010
  const DRS_GET_ANC: bv32 := 0x0000_0800
  const DRS_FULL_SYNC_NOW: bv32 := 0x0000_8000
  const DRS_FULL_SYNC_IN_PROGRESS: bv32 := 0x0001_0000
  const DRS_NEVER_SYNCED: bv32 := 0x0020_0000
  const DRS_SPECIAL_SECRET_PROCESSING: bv32 := 0x0040_0000
  const DRS_SYNC_FORCED: bv32 := 0x0200_0000
  const DRS_GET_ALL_GROUP_MEMBERSHIP: bv32 := 0x8000_0000

  const SUPPORTED_EXTENSION_GETCHGREQ_V8: bv32 := 0x0100_0000

  const EXOP_NONE: nat := 0
  const EXOP_REPL_SECRET: nat := 7
  const EXOP_ERR_SUCCESS: nat := 1

  const COMPRESSION_TYPE_MSZIP: nat := 2
  const COMPRESSION_TYPE_XPRESS: nat := 3

  /** systemFlags and searchFlags bits the RODC set looks at. */
  const FLAG_ATTR_NOT_REPLICATED: bv32 := 0x0000_0001
  const FLAG_ATTR_IS_CONSTRUCTED: bv32 := 0x0000_0004
  const SEARCH_FLAG_RODC_ATTRIBUTE: bv32 := 0x0000_0200

  /** The request sizes of the two request levels. */
  const MAX_OBJECT_COUNT: nat := 133
  const MAX_NDR_SIZE_V8: nat := 1336811
  const MAX_NDR_SIZE_V5: nat := 1336770

  type Guid = nat

  /** flags |= mask */
  function SetFlag(flags: bv32, mask: bv32): bv32
  {
    flags | mask
  }

  /** flags &= ~mask */
  function ClearFlag(flags: bv32, mask: bv32): bv32
  {
    flags & !mask
  }

  // ---------------------------------------------------------------------
  // Bind info
  // ---------------------------------------------------------------------

  /** struct drsuapi_DsBindInfo28, the form the connection keeps. */
  datatype BindInfo28 = BindInfo28(supportedExtensions: bv32, siteGuid: Guid, pid: bv32, replEpoch: bv32)

  const ZeroInfo28 := BindInfo28(0, 0, 0, 0)

  /** The bind info the server returned: its length selects the union
      arm; the 24-byte arm has no repl_epoch, the longer ones carry the
      same four leading fields (their further fields are not kept). */
  datatype BindInfoCtr = BindInfoCtr(length: nat, supportedExtensions: bv32, siteGuid: Guid, pid: bv32, replEpoch: bv32)

  /** The remote_info28 dreplsrv_out_drsuapi_bind_done keeps: zeroed
      first, then filled from the arm the length names; an unknown length
      or no bind info at all leaves it zero. */
  function NormaliseBindInfo(b: Option<BindInfoCtr>): (r: BindInfo28)
    ensures b.None? ==> r == ZeroInfo28
    ensures b.Some? && b.value.length !in {24, 28, 32, 48, 52} ==> r == ZeroInfo28
    ensures b.Some? && b.value.length == 24 ==>
      r == BindInfo28(b.value.supportedExtensions, b.value.siteGuid, b.value.pid, 0)
    ensures b.Some? && b.value.length in {28, 32, 48, 52} ==>
      r == BindInfo28(b.value.supportedExtensions, b.value.siteGuid, b.value.pid, b.value.replEpoch)
  {
    match b
    case None => ZeroInfo28
    case Some(info) =>
      if info.length == 24 then BindInfo28(info.supportedExtensions, info.siteGuid, info.pid, 0)
      else if info.length in {28, 32, 48, 52} then
        BindInfo28(info.supportedExtensions, info.siteGuid, info.pid, info.replEpoch)
      else ZeroInfo28
  }

  /** Normalising is a projection: a kept bind info, offered again as a
      28-byte bind info, is kept unchanged. */
  lemma NormaliseIdempotent(b: Option<BindInfoCtr>)
    ensures var k := NormaliseBindInfo(b);
      NormaliseBindInfo(Some(BindInfoCtr(28, k.supportedExtensions, k.siteGuid, k.pid, k.replEpoch))) == k
  {
  }

  /** The request level the client uses: 8 when the server supports the
      GetNCChanges V8 request, else 5. */
  function RequestLevel(info: BindInfo28): (level: nat)
    ensures level == 8 <==> info.supportedExtensions & SUPPORTED_EXTENSION_GETCHGREQ_V8 != 0
    ensures level == 5 || level == 8
  {
    if info.supportedExtensions & SUPPORTED_EXTENSION_GETCHGREQ_V8 != 0 then 8 else 5
  }

  // ---------------------------------------------------------------------
  // Partial attribute sets
  // ---------------------------------------------------------------------

  /** The schema attribute fields the partial attribute sets read. */
  datatype Attribute = Attribute(attributeId: bv32, msDsIntId: Option<bv32>, systemFlags: bv32,
                                 searchFlags: bv32, isMemberOfPartialAttributeSet: bool)

  /** dsdb_attribute_get_attid: the msDS-IntId when the attribute has one
      and the request is not for the schema partition. */
  function Attid(a: Attribute, forSchema: bool): bv32
  {
    if !forSchema && a.msDsIntId.Some? then a.msDsIntId.value else a.attributeId
  }

  /** An attribute an RODC replicates: neither not-replicated nor
      constructed, and not in the RODC filtered attribute set. */
  predicate RodcKeeps(a: Attribute)
  {
    a.systemFlags & (FLAG_ATTR_NOT_REPLICATED | FLAG_ATTR_IS_CONSTRUCTED) == 0
    && a.searchFlags & SEARCH_FLAG_RODC_ATTRIBUTE == 0
  }

  /** An attribute a global catalog replica holds. */
  predicate GcKeeps(a: Attribute)
  {
    a.isMemberOfPartialAttributeSet
  }

  /** The attids of the RODC set, in schema order. */
  function RodcAttids(attrs: seq<Attribute>, forSchema: bool): seq<bv32>
  {
    if |attrs| == 0 then []
    else RodcAttids(attrs[..|attrs| - 1], forSchema)
         + (if RodcKeeps(attrs[|attrs| - 1]) then [Attid(attrs[|attrs| - 1], forSchema)] else [])
  }

  /** The attids of the GC set, in schema order; the GC set never uses
      the schema-partition form. */
  function GcAttids(attrs: seq<Attribute>): seq<bv32>
  {
    if |attrs| == 0 then []
    else GcAttids(attrs[..|attrs| - 1])
         + (if GcKeeps(attrs[|attrs| - 1]) then [Attid(attrs[|attrs| - 1], false)] else [])
  }

  /** struct drsuapi_DsPartialAttributeSet. */
  datatype PartialAttributeSet = PartialAttributeSet(version: nat, attids: seq<bv32>)

  /** The RODC set holds exactly the attids of the attributes it keeps,
      no more than the schema has. */
  lemma {:induction false} RodcAttidsExact(attrs: seq<Attribute>, forSchema: bool)
    ensures |RodcAttids(attrs, forSchema)| <= |attrs|
    ensures forall i :: 0 <= i < |attrs| && RodcKeeps(attrs[i]) ==> Attid(attrs[i], forSchema) in RodcAttids(attrs, forSchema)
    ensures forall x :: x in RodcAttids(attrs, forSchema) ==>
      exists i :: 0 <= i < |attrs| && RodcKeeps(attrs[i]) && x == Attid(attrs[i], forSchema)
    decreases |attrs|
  {
    if |attrs| > 0 {
      var init := attrs[..|attrs| - 1];
      RodcAttidsExact(init, forSchema);
      assert forall i :: 0 <= i < |init| ==> init[i] == attrs[i];
    }
  }

  /** The GC set holds exactly the attids of the partial-attribute-set
      members, no more than the schema has. */
  lemma {:induction false} GcAttidsExact(attrs: seq<Attribute>)
    ensures |GcAttids(attrs)| <= |attrs|
    ensures forall i :: 0 <= i < |attrs| && GcKeeps(attrs[i]) ==> Attid(attrs[i], false) in GcAttids(attrs)
    ensures forall x :: x in GcAttids(attrs) ==>
      exists i :: 0 <= i < |attrs| && GcKeeps(attrs[i]) && x == Attid(attrs[i], false)
    decreases |attrs|
  {
    if |attrs| > 0 {
      var init := attrs[..|attrs| - 1];
      GcAttidsExact(init);
      assert forall i :: 0 <= i < |init| ==> init[i] == attrs[i];
    }
  }

  // ---------------------------------------------------------------------
  // Replica flags
  // ---------------------------------------------------------------------

  /** The replica_flags of a GetNCChanges request: the repsFrom flags,
      plus GET_ANC and SYNC_FORCED when the operation asks for them; a
      partial (GC) replica drops WRIT_REP; an RODC replica or a
      REPL_SECRET operation drops WRIT_REP, drops SPECIAL_SECRET_PROCESSING
      for REPL_SECRET and sets it otherwise, and asks for all group
      memberships (section 4.1.10.4.1 of [MS-DRSR]); any other replica asks
      for all group memberships; an extended operation never sets ADD_REF;
      a full sync marks the replica never synced. */
  function ReplicaFlags(base: bv32, options: bv32, partial: bool, rodc: bool, exop: nat): bv32
  {
    FullSyncFlags(ExopFlags(KindFlags(OptionFlags(base, options), partial, rodc, exop), exop), options)
  }

  /** The bits the replica-flag computation may change: ADD_REF, WRIT_REP,
      GET_ANC, NEVER_SYNCED, SPECIAL_SECRET_PROCESSING, SYNC_FORCED and
      GET_ALL_GROUP_MEMBERSHIP.  Every other bit of the repsFrom flags is
      sent as stored. */
  const REPLICA_FLAGS_DECIDED: bv32 := 0x8260_0814

  /** GET_ANC and SYNC_FORCED are copied from the operation's options. */
  function OptionFlags(base: bv32, options: bv32): bv32
  {
    var fa := if options & DRS_GET_ANC != 0 then SetFlag(base, DRS_GET_ANC) else base;
    if options & DRS_SYNC_FORCED != 0 then SetFlag(fa, DRS_SYNC_FORCED) else fa
  }

  /** The flags the partition's kind and a REPL_SECRET operation decide. */
  function KindFlags(f: bv32, partial: bool, rodc: bool, exop: nat): bv32
  {
    if partial then ClearFlag(f, DRS_WRIT_REP)
    else if rodc || exop == EXOP_REPL_SECRET then
      var g := ClearFlag(f, DRS_WRIT_REP);
      SetFlag(if exop == EXOP_REPL_SECRET then ClearFlag(g, DRS_SPECIAL_SECRET_PROCESSING)
              else SetFlag(g, DRS_SPECIAL_SECRET_PROCESSING),
              DRS_GET_ALL_GROUP_MEMBERSHIP)
    else SetFlag(f, DRS_GET_ALL_GROUP_MEMBERSHIP)
  }

  /** An extended operation never asks for a reference. */
  function ExopFlags(f: bv32, exop: nat): bv32
  {
    if exop != EXOP_NONE then ClearFlag(f, DRS_ADD_REF) else f
  }

  /** A full sync marks the replica never synced. */
  function FullSyncFlags(f: bv32, options: bv32): bv32
  {
    if options & DRS_FULL_SYNC_NOW != 0 then SetFlag(f, DRS_NEVER_SYNCED) else f
  }

  /** What the replica flags promise, bit by bit. */
  lemma ReplicaFlagsBits(base: bv32, options: bv32, partial: bool, rodc: bool, exop: nat)
    ensures var f := ReplicaFlags(base, options, partial, rodc, exop);
      && (partial || rodc || exop == EXOP_REPL_SECRET ==> f & DRS_WRIT_REP == 0)
      && (!partial && !rodc && exop != EXOP_REPL_SECRET ==> f & DRS_WRIT_REP == base & DRS_WRIT_REP)
      && (!partial ==> f & DRS_GET_ALL_GROUP_MEMBERSHIP != 0)
      && (!partial && exop == EXOP_REPL_SECRET ==> f & DRS_SPECIAL_SECRET_PROCESSING == 0)
      && (!partial && rodc && exop != EXOP_REPL_SECRET ==> f & DRS_SPECIAL_SECRET_PROCESSING != 0)
      && (exop != EXOP_NONE ==> f & DRS_ADD_REF == 0)
      && (exop == EXOP_NONE ==> f & DRS_ADD_REF == base & DRS_ADD_REF)
      && (options & DRS_GET_ANC != 0 ==> f & DRS_GET_ANC != 0)
      && (options & DRS_FULL_SYNC_NOW != 0 ==> f & DRS_NEVER_SYNCED != 0)
  {
  }

  /** Only the decided bits of the repsFrom flags change. */
  lemma ReplicaFlagsFrame(base: bv32, options: bv32, partial: bool, rodc: bool, exop: nat)
    ensures ReplicaFlags(base, options, partial, rodc, exop) & !REPLICA_FLAGS_DECIDED
      == base & !REPLICA_FLAGS_DECIDED
  {
    var o := OptionFlags(base, options);
    var k := KindFlags(o, partial, rodc, exop);
    var e := ExopFlags(k, exop);
    OptionFlagsKeep(base, options);
    KindFlagsKeep(o, partial, rodc, exop);
    ExopFlagsKeep(k, exop);
    FullSyncFlagsKeep(e, options);
  }

  /** SYNC_FORCED asked for in the options is sent: no later step touches it. */
  lemma ReplicaFlagsSyncForced(base: bv32, options: bv32, partial: bool, rodc: bool, exop: nat)
    requires options & DRS_SYNC_FORCED != 0
    ensures ReplicaFlags(base, options, partial, rodc, exop) & DRS_SYNC_FORCED != 0
  {
    var o := OptionFlags(base, options);
    var k := KindFlags(o, partial, rodc, exop);
    var e := ExopFlags(k, exop);
    OptionFlagsKeep(base, options);
    KindFlagsKeep(o, partial, rodc, exop);
    ExopFlagsKeep(k, exop);
    FullSyncFlagsKeep(e, options);
  }

  /** Copying the option bits changes only decided bits and keeps SYNC_FORCED once set. */
  lemma OptionFlagsKeep(f: bv32, options: bv32)
    ensures OptionFlags(f, options) & !REPLICA_FLAGS_DECIDED == f & !REPLICA_FLAGS_DECIDED
    ensures options & DRS_SYNC_FORCED != 0 ==> OptionFlags(f, options) & DRS_SYNC_FORCED != 0
  {
  }

  /** The partition-kind step changes only decided bits, and never SYNC_FORCED. */
  lemma KindFlagsKeep(f: bv32, partial: bool, rodc: bool, exop: nat)
    ensures KindFlags(f, partial, rodc, exop) & !REPLICA_FLAGS_DECIDED == f & !REPLICA_FLAGS_DECIDED
    ensures KindFlags(f, partial, rodc, exop) & DRS_SYNC_FORCED == f & DRS_SYNC_FORCED
  {
    KindFlagsFrame(f, partial, rodc, exop);
  }

  lemma KindFlagsFrame(f: bv32, partial: bool, rodc: bool, exop: nat)
    ensures KindFlags(f, partial, rodc, exop) & !REPLICA_FLAGS_DECIDED == f & !REPLICA_FLAGS_DECIDED
  {
  }


  /** Dropping ADD_REF changes only a decided bit, and never SYNC_FORCED. */
  lemma ExopFlagsKeep(f: bv32, exop: nat)
    ensures ExopFlags(f, exop) & !REPLICA_FLAGS_DECIDED == f & !REPLICA_FLAGS_DECIDED
    ensures ExopFlags(f, exop) & DRS_SYNC_FORCED == f & DRS_SYNC_FORCED
  {
  }

  /** Marking a full sync changes only a decided bit, and never SYNC_FORCED. */
  lemma FullSyncFlagsKeep(f: bv32, options: bv32)
    ensures FullSyncFlags(f, options) & !REPLICA_FLAGS_DECIDED == f & !REPLICA_FLAGS_DECIDED
    ensures FullSyncFlags(f, options) & DRS_SYNC_FORCED == f & DRS_SYNC_FORCED
  {
  }

  /** The operation options once a full sync starts: FULL_SYNC_NOW is
      replaced by FULL_SYNC_IN_PROGRESS for the rest of the cycle. */
  function OptionsAfterTrigger(options: bv32): bv32
  {
    if options & DRS_FULL_SYNC_NOW != 0 then SetFlag(ClearFlag(options, DRS_FULL_SYNC_NOW), DRS_FULL_SYNC_IN_PROGRESS)
    else options
  }

  /** A full sync is requested once: after the first request of the
      cycle FULL_SYNC_NOW is gone, IN_PROGRESS stays, and a second
      request changes nothing more. */
  lemma FullSyncOnce(options: bv32)
    ensures OptionsAfterTrigger(options) & DRS_FULL_SYNC_NOW == 0
    ensures options & (DRS_FULL_SYNC_NOW | DRS_FULL_SYNC_IN_PROGRESS) != 0 <==>
      OptionsAfterTrigger(options) & DRS_FULL_SYNC_IN_PROGRESS != 0
    ensures OptionsAfterTrigger(OptionsAfterTrigger(options)) == OptionsAfterTrigger(options)
  {
  }

  // ---------------------------------------------------------------------
  // Reply containers
  // ---------------------------------------------------------------------

  datatype HighWaterMark = HighWaterMark(tmpHighestUsn: nat, reservedUsn: nat, highestUsn: nat)

  const ZeroHighWaterMark := HighWaterMark(0, 0, 0)

  /** The fields of the level-1 and level-6 containers the client uses. */
  datatype Ctr1 = Ctr1(sourceDsaGuid: Guid, invocationId: Guid, newHighwatermark: HighWaterMark,
                       extendedRet: nat, moreData: bool)
  datatype Ctr6 = Ctr6(sourceDsaGuid: Guid, invocationId: Guid, newHighwatermark: HighWaterMark,
                       extendedRet: nat, moreData: bool, drsError: nat)

  /** union drsuapi_DsGetNCChangesCtr by level_out.  Level 2 carries a
      decompressed level-1 container when decompression worked (ts); level
      7 names the inner level and compression type of the same. */
  datatype GetNCChangesCtr =
    | CtrLevel1(ctr1: Ctr1)
    | CtrLevel2(ts1: Option<Ctr1>)
    | CtrLevel6(ctr6: Ctr6)
    | CtrLevel7(level: nat, ctype: nat, ts6: Option<Ctr6>)
    | CtrOtherLevel(levelOut: nat)

  /** The container the client goes on with. */
  datatype Selected = Selected1(c1: Ctr1) | Selected6(c6: Ctr6)

  datatype Status =
    | BadNetResp               // WERR_BAD_NET_RESP
    | Unsuccessful             // NT_STATUS_UNSUCCESSFUL
    | InvalidNetworkResponse   // NT_STATUS_INVALID_NETWORK_RESPONSE
    | InternalError            // NT_STATUS_INTERNAL_ERROR
    | WerrorStatus(code: nat)  // a WERROR from the server or a lookup

  /** The container choice of dreplsrv_op_pull_source_get_changes_done. */
  function SelectCtr(ctr: GetNCChangesCtr): (r: Result<Selected, Status>)
    ensures r.Err? ==> r.error == BadNetResp
    ensures r.Ok? <==>
      || ctr.CtrLevel1? || ctr.CtrLevel6?
      || (ctr.CtrLevel2? && ctr.ts1.Some?)
      || (ctr.CtrLevel7? && ctr.level == 6 && ctr.ctype in {COMPRESSION_TYPE_MSZIP, COMPRESSION_TYPE_XPRESS}
          && ctr.ts6.Some?)
  {
    match ctr
    case CtrLevel1(c1) => Ok(Selected1(c1))
    case CtrLevel2(ts1) => if ts1.Some? then Ok(Selected1(ts1.value)) else Err(BadNetResp)
    case CtrLevel6(c6) => Ok(Selected6(c6))
    case CtrLevel7(level, ctype, ts6) =>
      if level == 6 && ctype == COMPRESSION_TYPE_MSZIP && ts6.Some? then Ok(Selected6(ts6.value))
      else if level == 6 && ctype == COMPRESSION_TYPE_XPRESS && ts6.Some? then Ok(Selected6(ts6.value))
      else Err(BadNetResp)
    case CtrOtherLevel(_) => Err(BadNetResp)
  }

  /** The compressed containers stand for what they decompress to. */
  lemma CompressedSelectLikePlain(c1: Ctr1, c6: Ctr6, ctype: nat)
    requires ctype in {COMPRESSION_TYPE_MSZIP, COMPRESSION_TYPE_XPRESS}
    ensures SelectCtr(CtrLevel2(Some(c1))) == SelectCtr(CtrLevel1(c1))
    ensures SelectCtr(CtrLevel7(6, ctype, Some(c6))) == SelectCtr(CtrLevel6(c6))
  {
  }

  /** extended_ret of the chosen container; a level-6 drs_error fails
      first. */
  function ExtendedRet(sel: Selected): Result<nat, Status>
  {
    match sel
    case Selected1(c1) => Ok(c1.extendedRet)
    case Selected6(c6) => if c6.drsError != 0 then Err(WerrorStatus(c6.drsError)) else Ok(c6.extendedRet)
  }

  // ---------------------------------------------------------------------
  // What a failed commit leads to
  // ---------------------------------------------------------------------

  /** The outcomes of dsdb_replicated_objects_convert and _commit, which
      are not part of this model. */
  datatype ApplyErr = SchemaMismatch | MissingParent | OtherApplyErr

  datatype CommitAnswer = RetryWithAncestors | CommitFails(status: Status)

  /** A commit that fails for a missing parent is retried with GET_ANC
      when GET_ANC was not asked for; otherwise it fails. */
  function CommitFailure(options: bv32, err: ApplyErr): CommitAnswer
  {
    if options & DRS_GET_ANC == 0 && err == MissingParent then RetryWithAncestors
    else if err == MissingParent then CommitFails(InvalidNetworkResponse)
    else CommitFails(BadNetResp)
  }

  /** The retry with ancestors happens at most once: the retry sets
      GET_ANC, and with GET_ANC set a missing parent fails. */
  lemma MissingParentRetriedOnce(options: bv32, err: ApplyErr)
    ensures CommitFailure(options, err) == RetryWithAncestors <==>
      options & DRS_GET_ANC == 0 && err == MissingParent
    ensures CommitFailure(SetFlag(options, DRS_GET_ANC), err) != RetryWithAncestors
  {
  }
}
