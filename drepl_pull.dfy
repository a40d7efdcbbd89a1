/** The pull-source operation of the DRS replication client: converting
    the up-to-date vector, building the partial attribute sets, building a
    GetNCChanges request, choosing the reply container, and applying a
    reply with its retries.  The state the operation updates in place is
    a class; the retry decisions are a step function the method follows. */
module DreplPull {
  import opened Common
  import opened DreplOut

  // ---------------------------------------------------------------------
  // Up-to-date vectors
  // ---------------------------------------------------------------------

  /** struct drsuapi_DsReplicaCursor2, as replUpToDateVectorCtr2 holds it. */
  datatype Cursor2 = Cursor2(invocationId: Guid, highestUsn: nat, lastSyncSuccess: nat)

  /** struct drsuapi_DsReplicaCursor. */
  datatype Cursor = Cursor(invocationId: Guid, highestUsn: nat)

  /** struct drsuapi_DsReplicaCursorCtrEx. */
  datatype CursorCtrEx = CursorCtrEx(version: nat, reserved1: nat, reserved2: nat, count: nat, cursors: seq<Cursor>)

  /** ex is the request form of the stored vector udv. */
  predicate ConvertedFrom(ex: CursorCtrEx, udv: seq<Cursor2>)
  {
    && ex.version == 2 && ex.reserved1 == 0 && ex.reserved2 == 0
    && ex.count == |udv| && |ex.cursors| == |udv|
    && forall i :: 0 <= i < |udv| ==> ex.cursors[i] == Cursor(udv[i].invocationId, udv[i].highestUsn)
  }

  /** udv_convert: version 2, zero reserved fields, the same count, and
      each cursor's invocation id and highest USN. */
  method UdvConvert(udv: seq<Cursor2>) returns (ex: CursorCtrEx)
    ensures ConvertedFrom(ex, udv)
  {
    var cursors := new Cursor[|udv|](_ => Cursor(0, 0));
    var i := 0;
    while i < |udv|
      invariant 0 <= i <= |udv|
      invariant forall k :: 0 <= k < i ==> cursors[k] == Cursor(udv[k].invocationId, udv[k].highestUsn)
    {
      cursors[i] := Cursor(udv[i].invocationId, udv[i].highestUsn);
      i := i + 1;
    }
    ex := CursorCtrEx(2, 0, 0, |udv|, cursors[..]);
  }

  /** The highest USN a stored vector records for an invocation id (the
      first cursor naming it). */
  function StoredUsn(udv: seq<Cursor2>, id: Guid): Option<nat>
  {
    if |udv| == 0 then None
    else if udv[0].invocationId == id then Some(udv[0].highestUsn)
    else StoredUsn(udv[1..], id)
  }

  /** The highest USN a request vector records for an invocation id. */
  function RequestUsn(cursors: seq<Cursor>, id: Guid): Option<nat>
  {
    if |cursors| == 0 then None
    else if cursors[0].invocationId == id then Some(cursors[0].highestUsn)
    else RequestUsn(cursors[1..], id)
  }

  /** The conversion keeps what the vector says about every invocation id. */
  lemma ConversionKeepsUsns(ex: CursorCtrEx, udv: seq<Cursor2>, id: Guid)
    requires ConvertedFrom(ex, udv)
    ensures RequestUsn(ex.cursors, id) == StoredUsn(udv, id)
  {
    CursorsKeepUsns(ex.cursors, udv, id);
  }

  lemma {:induction false} CursorsKeepUsns(cursors: seq<Cursor>, udv: seq<Cursor2>, id: Guid)
    requires |cursors| == |udv|
    requires forall i :: 0 <= i < |udv| ==> cursors[i] == Cursor(udv[i].invocationId, udv[i].highestUsn)
    ensures RequestUsn(cursors, id) == StoredUsn(udv, id)
    decreases |udv|
  {
    if |udv| > 0 && udv[0].invocationId != id {
      CursorsKeepUsns(cursors[1..], udv[1..], id);
    }
  }

  // ---------------------------------------------------------------------
  // Partial attribute sets
  // ---------------------------------------------------------------------

  /** dreplsrv_get_rodc_partial_attribute_set: an array as long as the
      schema, filled in schema order with the attids the RODC keeps. */
  method RodcPartialAttributeSet(attrs: seq<Attribute>, forSchema: bool) returns (pas: PartialAttributeSet)
    ensures pas == PartialAttributeSet(1, RodcAttids(attrs, forSchema))
  {
    var attids := new bv32[|attrs|];
    var n := 0;
    var i := 0;
    while i < |attrs|
      invariant 0 <= n <= i <= |attrs|
      invariant attids[..n] == RodcAttids(attrs[..i], forSchema)
    {
      var a := attrs[i];
      assert attrs[..i + 1][..i] == attrs[..i];
      if a.systemFlags & (FLAG_ATTR_NOT_REPLICATED | FLAG_ATTR_IS_CONSTRUCTED) != 0 {
      } else if a.searchFlags & SEARCH_FLAG_RODC_ATTRIBUTE != 0 {
      } else {
        attids[n] := Attid(a, forSchema);
        n := n + 1;
      }
      i := i + 1;
    }
    assert attrs[..|attrs|] == attrs;
    pas := PartialAttributeSet(1, attids[..n]);
  }

  /** dreplsrv_get_gc_partial_attribute_set: the same over the members of
      the partial attribute set. */
  method GcPartialAttributeSet(attrs: seq<Attribute>) returns (pas: PartialAttributeSet)
    ensures pas == PartialAttributeSet(1, GcAttids(attrs))
  {
    var attids := new bv32[|attrs|];
    var n := 0;
    var i := 0;
    while i < |attrs|
      invariant 0 <= n <= i <= |attrs|
      invariant attids[..n] == GcAttids(attrs[..i])
    {
      var a := attrs[i];
      assert attrs[..i + 1][..i] == attrs[..i];
      if a.isMemberOfPartialAttributeSet {
        attids[n] := Attid(a, false);
        n := n + 1;
      }
      i := i + 1;
    }
    assert attrs[..|attrs|] == attrs;
    pas := PartialAttributeSet(1, attids[..n]);
  }

  /** The replica flags of a GetNCChanges request, as
      dreplsrv_op_pull_source_get_changes_trigger builds them from the
      repsFrom flags, the operation's options, the partition's kind and the
      extended operation. */
  method BuildReplicaFlags(base: bv32, options: bv32, partial: bool, rodc: bool, exop: nat)
    returns (replicaFlags: bv32)
    ensures replicaFlags == ReplicaFlags(base, options, partial, rodc, exop)
  {
    replicaFlags := CopyOptionFlags(base, options);
    replicaFlags := ApplyPartitionKind(replicaFlags, partial, rodc, exop);
    if exop != EXOP_NONE {
      replicaFlags := ClearFlag(replicaFlags, DRS_ADD_REF);
    }
    if options & DRS_FULL_SYNC_NOW != 0 {
      replicaFlags := SetFlag(replicaFlags, DRS_NEVER_SYNCED);
    }
  }

  /** GET_ANC and SYNC_FORCED from the operation's options. */
  method CopyOptionFlags(base: bv32, options: bv32) returns (replicaFlags: bv32)
    ensures replicaFlags == OptionFlags(base, options)
  {
    replicaFlags := base;
    if options & DRS_GET_ANC != 0 {
      replicaFlags := SetFlag(replicaFlags, DRS_GET_ANC);
    }
    if options & DRS_SYNC_FORCED != 0 {
      replicaFlags := SetFlag(replicaFlags, DRS_SYNC_FORCED);
    }
  }

  /** The flags a partial replica, an RODC replica or a REPL_SECRET
      operation change. */
  method ApplyPartitionKind(flags: bv32, partial: bool, rodc: bool, exop: nat) returns (replicaFlags: bv32)
    ensures replicaFlags == KindFlags(flags, partial, rodc, exop)
  {
    replicaFlags := flags;
    if partial {
      replicaFlags := ClearFlag(replicaFlags, DRS_WRIT_REP);
    } else if rodc || exop == EXOP_REPL_SECRET {
      replicaFlags := ClearFlag(replicaFlags, DRS_WRIT_REP);
      if exop == EXOP_REPL_SECRET {
        replicaFlags := ClearFlag(replicaFlags, DRS_SPECIAL_SECRET_PROCESSING);
      } else {
        replicaFlags := SetFlag(replicaFlags, DRS_SPECIAL_SECRET_PROCESSING);
      }
      replicaFlags := SetFlag(replicaFlags, DRS_GET_ALL_GROUP_MEMBERSHIP);
    } else {
      replicaFlags := SetFlag(replicaFlags, DRS_GET_ALL_GROUP_MEMBERSHIP);
    }
  }

  /** The partial attribute set the trigger builds: the GC set for a
      partial replica, the RODC set for an RODC replica or a REPL_SECRET
      operation, none otherwise. */
  method BuildPartialSet(partial: bool, rodc: bool, forSchema: bool, exop: nat, attrs: seq<Attribute>)
    returns (pas: Option<PartialAttributeSet>)
    ensures pas == if partial then Some(PartialAttributeSet(1, GcAttids(attrs)))
                   else if rodc || exop == EXOP_REPL_SECRET then Some(PartialAttributeSet(1, RodcAttids(attrs, forSchema)))
                   else None
  {
    pas := None;
    if partial {
      var gc := GcPartialAttributeSet(attrs);
      pas := Some(gc);
    } else if rodc || exop == EXOP_REPL_SECRET {
      var rodcSet := RodcPartialAttributeSet(attrs, forSchema);
      pas := Some(rodcSet);
    }
  }

  // ---------------------------------------------------------------------
  // The operation's state
  // ---------------------------------------------------------------------

  /** struct repsFromTo1, reduced to the fields a pull reads and writes. */
  datatype RepsFrom1 = RepsFrom1(replicaFlags: bv32, highwatermark: HighWaterMark,
                                 sourceDsaObjGuid: Guid, sourceDsaInvocationId: Guid)

  /** struct dreplsrv_partition: its kind and its up-to-date vector in the
      stored and in the request form. */
  class Partition {
    const partialReplica: bool
    const rodcReplica: bool
    /** The partition lies under the schema naming context. */
    const underSchema: bool
    var uptodatevector: seq<Cursor2>
    var uptodatevectorEx: CursorCtrEx

    constructor (partialReplica: bool, rodcReplica: bool, underSchema: bool, udv: seq<Cursor2>)
      ensures this.partialReplica == partialReplica && this.rodcReplica == rodcReplica
      ensures this.underSchema == underSchema
      ensures uptodatevector == udv && uptodatevectorEx == CursorCtrEx(0, 0, 0, 0, [])
    {
      this.partialReplica := partialReplica;
      this.rodcReplica := rodcReplica;
      this.underSchema := underSchema;
      uptodatevector := udv;
      uptodatevectorEx := CursorCtrEx(0, 0, 0, 0, []);
    }
  }

  /** The request form of the up-to-date vector is built from the stored
      form when there is a stored vector and no request form yet. */
  method PrepareUptodatenessVector(partition: Partition)
    modifies partition
    ensures partition.uptodatevector == old(partition.uptodatevector)
    ensures if |old(partition.uptodatevector)| != 0 && old(partition.uptodatevectorEx.count) == 0
            then ConvertedFrom(partition.uptodatevectorEx, partition.uptodatevector)
            else partition.uptodatevectorEx == old(partition.uptodatevectorEx)
  {
    if |partition.uptodatevector| != 0 && partition.uptodatevectorEx.count == 0 {
      var ex := UdvConvert(partition.uptodatevector);
      partition.uptodatevectorEx := ex;
    }
  }

  /** struct dreplsrv_partition_source_dsa. */
  class SourceDsa {
    const partition: Partition
    var repsFrom1: RepsFrom1

    constructor (partition: Partition, repsFrom1: RepsFrom1)
      ensures this.partition == partition && this.repsFrom1 == repsFrom1
    {
      this.partition := partition;
      this.repsFrom1 := repsFrom1;
    }
  }

  /** The GetNCChanges request, levels 5 and 8 in one record; a level-5
      request carries no partial attribute set. */
  datatype Request = Request(level: nat, highwatermark: HighWaterMark, uptodatenessVector: Option<CursorCtrEx>,
                             replicaFlags: bv32, maxObjectCount: nat, maxNdrSize: nat, extendedOp: nat,
                             partialAttributeSet: Option<PartialAttributeSet>)

  /** The fields of the operation and of dreplsrv_op_pull_source_state
      that the retry decisions read and write. */
  datatype PullState = PullState(options: bv32, extendedOp: nat, retryStarted: bool, sourceDsa: SourceDsa,
                                 sourceDsaRetry: SourceDsa?, extendedOpRetry: nat)

  /** How applying a reply ends: an error, another GetNCChanges round, an
      UpdateRefs call, or done. */
  datatype Outcome = Failed(status: Status) | Retrigger | UpdateRefs | Finished

  /** The outcome of one apply step, the state after it, and whether the
      reply's repsFrom values replace those of the source DSA. */
  datatype Step = Step(state: PullState, outcome: Outcome, store: bool)

  /** What the helpers an apply step calls answered; they are not part of
      this model.  convert and commit are None on success.  ncRootFound and
      ncRootIsPartition are the naming-context lookup an extended operation
      makes; ncSourceDsa and schemaSourceDsa are the source DSA lookups a
      schema-mismatch retry makes. */
  datatype ApplyEnv = ApplyEnv(schemaLoaded: bool, workingSchemaFails: bool,
                               ncRootFound: bool, ncRootIsPartition: bool,
                               convert: Option<ApplyErr>,
                               ncSourceDsa: Result<SourceDsa, Status>,
                               schemaSourceDsa: Result<SourceDsa, Status>,
                               commit: Option<ApplyErr>, amRodc: bool)

  /** The repsFrom values a reply carries. */
  function NewRepsFrom(rf: RepsFrom1, sel: Selected): RepsFrom1
  {
    match sel
    case Selected1(c) =>
      rf.(sourceDsaObjGuid := c.sourceDsaGuid, sourceDsaInvocationId := c.invocationId,
          highwatermark := c.newHighwatermark)
    case Selected6(c) =>
      rf.(sourceDsaObjGuid := c.sourceDsaGuid, sourceDsaInvocationId := c.invocationId,
          highwatermark := c.newHighwatermark)
  }

  function MoreData(sel: Selected): bool
  {
    match sel
    case Selected1(c) => c.moreData
    case Selected6(c) => c.moreData
  }

  /** The schema-mismatch branch: fail when a retry already started;
      otherwise remember where to come back to (keeping only a REPL_SECRET
      extended operation), drop the extended operation, and pull the schema
      partition from the same source DSA first. */
  function SchemaRetry(s: PullState, env: ApplyEnv): Step
  {
    if s.retryStarted then Step(s, Failed(BadNetResp), false)
    else
      var s1 := s.(extendedOpRetry := if s.extendedOp == EXOP_REPL_SECRET then s.extendedOp else EXOP_NONE,
                   extendedOp := EXOP_NONE);
      var sameNc := s.extendedOp == EXOP_NONE || env.ncRootIsPartition;
      if !sameNc && env.ncSourceDsa.Err? then Step(s1, Failed(env.ncSourceDsa.error), false)
      else
        var s2 := s1.(sourceDsaRetry := if sameNc then s.sourceDsa else env.ncSourceDsa.value);
        if env.schemaSourceDsa.Err? then Step(s2, Failed(env.schemaSourceDsa.error), false)
        else Step(s2.(sourceDsa := env.schemaSourceDsa.value, retryStarted := true), Retrigger, false)
  }

  /** A reply converted and committed: more data asks for another round;
      a pending schema-mismatch retry goes back to the source DSA and
      operation it saved; an extended operation or an RODC is then done,
      and anything else refreshes the repsTo record with UpdateRefs.  The
      repsFrom values are stored only without an extended operation. */
  function Committed(s: PullState, sel: Selected, amRodc: bool): Step
  {
    var store := s.extendedOp == EXOP_NONE;
    if MoreData(sel) then Step(s, Retrigger, store)
    else if s.sourceDsaRetry != null then
      Step(s.(sourceDsa := s.sourceDsaRetry, extendedOp := s.extendedOpRetry, sourceDsaRetry := null),
           Retrigger, store)
    else if s.extendedOp != EXOP_NONE || amRodc then Step(s, Finished, store)
    else Step(s, UpdateRefs, store)
  }

  /** dreplsrv_op_pull_source_apply_changes_trigger after the reply's
      container is chosen. */
  function ApplyStep(s: PullState, sel: Selected, env: ApplyEnv): Step
  {
    if !env.schemaLoaded || env.workingSchemaFails then Step(s, Failed(InternalError), false)
    else if s.extendedOp != EXOP_NONE && !env.ncRootFound then Step(s, Failed(InternalError), false)
    else if env.convert == Some(SchemaMismatch) then SchemaRetry(s, env)
    else if env.convert.Some? then Step(s, Failed(BadNetResp), false)
    else if env.commit.Some? then CommitFailed(s, env.commit.value)
    else Committed(s, sel, env.amRodc)
  }

  /** A failed commit: the retry with ancestors sets GET_ANC. */
  function CommitFailed(s: PullState, err: ApplyErr): Step
  {
    match CommitFailure(s.options, err)
    case RetryWithAncestors => Step(s.(options := SetFlag(s.options, DRS_GET_ANC)), Retrigger, false)
    case CommitFails(status) => Step(s, Failed(status), false)
  }

  /** The result of dreplsrv_op_pull_source_get_changes_done: a transport
      or server error, the container choice, the level-6 drs_error, and for
      an extended operation an extended_ret other than SUCCESS. */
  function DoneResult(extendedOp: nat, reply: Result<GetNCChangesCtr, Status>): Result<Selected, Status>
  {
    if reply.Err? then Err(reply.error)
    else
      var sel := SelectCtr(reply.value);
      if sel.Err? then Err(sel.error)
      else
        var ret := ExtendedRet(sel.value);
        if ret.Err? then Err(ret.error)
        else if extendedOp != EXOP_NONE && ret.value != EXOP_ERR_SUCCESS then Err(Unsuccessful)
        else Ok(sel.value)
  }

  /** extended_ret as the operation keeps it: set from the reply only for
      an extended operation whose reply got that far. */
  function DoneExtendedRet(extendedOp: nat, reply: Result<GetNCChangesCtr, Status>, before: nat): nat
  {
    if reply.Err? || extendedOp == EXOP_NONE then before
    else
      var sel := SelectCtr(reply.value);
      if sel.Err? then before
      else
        var ret := ExtendedRet(sel.value);
        if ret.Err? then before else ret.value
  }

  /** struct dreplsrv_op_pull_source_state together with the fields of
      the operation it updates. */
  class PullSource {
    var options: bv32
    var extendedOp: nat
    var extendedRet: nat
    var sourceDsa: SourceDsa
    var retryStarted: bool
    var sourceDsaRetry: SourceDsa?
    var extendedOpRetry: nat

    /** A fresh operation: no retry started, nothing to come back to. */
    constructor (options: bv32, extendedOp: nat, sourceDsa: SourceDsa)
      ensures this.options == options && this.extendedOp == extendedOp && this.sourceDsa == sourceDsa
      ensures extendedRet == 0 && !retryStarted && sourceDsaRetry == null && extendedOpRetry == EXOP_NONE
    {
      this.options := options;
      this.extendedOp := extendedOp;
      this.sourceDsa := sourceDsa;
      extendedRet := 0;
      retryStarted := false;
      sourceDsaRetry := null;
      extendedOpRetry := EXOP_NONE;
    }

    function State(): PullState
      reads this
    {
      PullState(options, extendedOp, retryStarted, sourceDsa, sourceDsaRetry, extendedOpRetry)
    }

    /** A FULL_SYNC_NOW request starts the full sync: the option gives way
        to FULL_SYNC_IN_PROGRESS for the rest of the cycle. */
    method StartFullSync() returns (started: bool)
      modifies this
      ensures started <==> old(options) & DRS_FULL_SYNC_NOW != 0
      ensures options == OptionsAfterTrigger(old(options))
      ensures sourceDsa == old(sourceDsa) && extendedOp == old(extendedOp) && extendedRet == old(extendedRet)
      ensures retryStarted == old(retryStarted) && sourceDsaRetry == old(sourceDsaRetry)
      ensures extendedOpRetry == old(extendedOpRetry)
    {
      started := options & DRS_FULL_SYNC_NOW != 0;
      if started {
        options := ClearFlag(options, DRS_FULL_SYNC_NOW);
        options := SetFlag(options, DRS_FULL_SYNC_IN_PROGRESS);
      }
    }

    /** dreplsrv_op_pull_source_get_changes_trigger: converts the stored
        up-to-date vector when the request form is still empty, and builds
        the request from the repsFrom flags and highwatermark, the options
        and the partition's kind; a full sync starts here. */
    method GetChangesTrigger(attrs: seq<Attribute>, info: BindInfo28) returns (r: Request)
      modifies this, sourceDsa.partition
      ensures sourceDsa == old(sourceDsa) && extendedOp == old(extendedOp) && extendedRet == old(extendedRet)
      ensures retryStarted == old(retryStarted) && sourceDsaRetry == old(sourceDsaRetry)
      ensures extendedOpRetry == old(extendedOpRetry)
      ensures options == OptionsAfterTrigger(old(options))
      ensures sourceDsa.partition.uptodatevector == old(sourceDsa.partition.uptodatevector)
      ensures if |old(sourceDsa.partition.uptodatevector)| != 0 && old(sourceDsa.partition.uptodatevectorEx.count) == 0
              then ConvertedFrom(sourceDsa.partition.uptodatevectorEx, sourceDsa.partition.uptodatevector)
              else sourceDsa.partition.uptodatevectorEx == old(sourceDsa.partition.uptodatevectorEx)
      ensures r.replicaFlags == ReplicaFlags(sourceDsa.repsFrom1.replicaFlags, old(options),
                                             sourceDsa.partition.partialReplica, sourceDsa.partition.rodcReplica,
                                             extendedOp)
      ensures r.highwatermark == if old(options) & DRS_FULL_SYNC_NOW != 0 then ZeroHighWaterMark
                                 else sourceDsa.repsFrom1.highwatermark
      ensures r.uptodatenessVector ==
        if options & DRS_FULL_SYNC_IN_PROGRESS != 0 || sourceDsa.partition.uptodatevectorEx.count == 0 then None
        else Some(sourceDsa.partition.uptodatevectorEx)
      ensures r.level == RequestLevel(info) && r.maxObjectCount == MAX_OBJECT_COUNT
      ensures r.maxNdrSize == if r.level == 8 then MAX_NDR_SIZE_V8 else MAX_NDR_SIZE_V5
      ensures r.extendedOp == extendedOp
      ensures r.partialAttributeSet ==
        if r.level != 8 then None
        else if sourceDsa.partition.partialReplica then Some(PartialAttributeSet(1, GcAttids(attrs)))
        else if sourceDsa.partition.rodcReplica || extendedOp == EXOP_REPL_SECRET
        then Some(PartialAttributeSet(1, RodcAttids(attrs, sourceDsa.partition.underSchema)))
        else None
    {
      var partition := sourceDsa.partition;
      var rf1 := sourceDsa.repsFrom1;
      PrepareUptodatenessVector(partition);
      var udv := if partition.uptodatevectorEx.count == 0 then None else Some(partition.uptodatevectorEx);

      var highwatermark := rf1.highwatermark;
      var replicaFlags := BuildReplicaFlags(rf1.replicaFlags, options, partition.partialReplica,
                                            partition.rodcReplica, extendedOp);
      var pas := BuildPartialSet(partition.partialReplica, partition.rodcReplica, partition.underSchema,
                                 extendedOp, attrs);
      var fullSync := StartFullSync();
      if fullSync {
        highwatermark := ZeroHighWaterMark;
      }
      if options & DRS_FULL_SYNC_IN_PROGRESS != 0 {
        udv := None;
      }
      if info.supportedExtensions & SUPPORTED_EXTENSION_GETCHGREQ_V8 != 0 {
        r := Request(8, highwatermark, udv, replicaFlags, MAX_OBJECT_COUNT, MAX_NDR_SIZE_V8, extendedOp, pas);
      } else {
        r := Request(5, highwatermark, udv, replicaFlags, MAX_OBJECT_COUNT, MAX_NDR_SIZE_V5, extendedOp, None);
      }
    }

    /** dreplsrv_op_pull_source_get_changes_done: the reply (or the
        transport or server error) decides the container the apply step
        uses; an extended operation records extended_ret. */
    method GetChangesDone(reply: Result<GetNCChangesCtr, Status>) returns (r: Result<Selected, Status>)
      modifies this
      ensures r == DoneResult(old(extendedOp), reply)
      ensures extendedRet == DoneExtendedRet(old(extendedOp), reply, old(extendedRet))
      ensures State() == old(State())
    {
      if reply.Err? {
        return Err(reply.error);
      }
      var sel := SelectCtr(reply.value);
      if sel.Err? {
        return Err(sel.error);
      }
      var ret := ExtendedRet(sel.value);
      if ret.Err? {
        return Err(ret.error);
      }
      if extendedOp != EXOP_NONE {
        extendedRet := ret.value;
        if ret.value != EXOP_ERR_SUCCESS {
          return Err(Unsuccessful);
        }
      }
      r := Ok(sel.value);
    }

    /** The schema-mismatch branch of the apply step. */
    method RetryForSchema(env: ApplyEnv) returns (out: Outcome)
      modifies this
      ensures State() == SchemaRetry(old(State()), env).state
      ensures out == SchemaRetry(old(State()), env).outcome
      ensures extendedRet == old(extendedRet)
    {
      if retryStarted {
        return Failed(BadNetResp);
      }
      var sameNc := extendedOp == EXOP_NONE || env.ncRootIsPartition;
      extendedOpRetry := if extendedOp == EXOP_REPL_SECRET then extendedOp else EXOP_NONE;
      extendedOp := EXOP_NONE;
      if sameNc {
        sourceDsaRetry := sourceDsa;
      } else if env.ncSourceDsa.Err? {
        return Failed(env.ncSourceDsa.error);
      } else {
        sourceDsaRetry := env.ncSourceDsa.value;
      }
      if env.schemaSourceDsa.Err? {
        return Failed(env.schemaSourceDsa.error);
      }
      sourceDsa := env.schemaSourceDsa.value;
      retryStarted := true;
      return Retrigger;
    }

    /** The failed-commit branch of the apply step. */
    method RetryForCommit(err: ApplyErr) returns (out: Outcome)
      modifies this
      ensures State() == CommitFailed(old(State()), err).state
      ensures out == CommitFailed(old(State()), err).outcome
      ensures extendedRet == old(extendedRet)
    {
      if options & DRS_GET_ANC == 0 && err == MissingParent {
        options := SetFlag(options, DRS_GET_ANC);
        return Retrigger;
      } else if err == MissingParent {
        return Failed(InvalidNetworkResponse);
      } else {
        return Failed(BadNetResp);
      }
    }

    /** The part of the apply step after a successful commit. */
    method AfterCommit(sel: Selected, amRodc: bool) returns (out: Outcome)
      modifies this, sourceDsa
      ensures State() == Committed(old(State()), sel, amRodc).state
      ensures out == Committed(old(State()), sel, amRodc).outcome
      ensures extendedRet == old(extendedRet)
      ensures old(sourceDsa).repsFrom1 ==
        if Committed(old(State()), sel, amRodc).store then NewRepsFrom(old(sourceDsa.repsFrom1), sel)
        else old(sourceDsa.repsFrom1)
    {
      if extendedOp == EXOP_NONE {
        sourceDsa.repsFrom1 := NewRepsFrom(sourceDsa.repsFrom1, sel);
      }
      if MoreData(sel) {
        return Retrigger;
      }
      if sourceDsaRetry != null {
        sourceDsa := sourceDsaRetry;
        extendedOp := extendedOpRetry;
        sourceDsaRetry := null;
        return Retrigger;
      }
      if extendedOp != EXOP_NONE || amRodc {
        return Finished;
      }
      return UpdateRefs;
    }

    /** dreplsrv_op_pull_source_apply_changes_trigger: follows ApplyStep,
        and a reply applied without an extended operation replaces the
        source DSA's repsFrom values. */
    method ApplyChanges(sel: Selected, env: ApplyEnv) returns (out: Outcome)
      modifies this, sourceDsa
      ensures State() == ApplyStep(old(State()), sel, env).state
      ensures out == ApplyStep(old(State()), sel, env).outcome
      ensures extendedRet == old(extendedRet)
      ensures old(sourceDsa).repsFrom1 ==
        if ApplyStep(old(State()), sel, env).store then NewRepsFrom(old(sourceDsa.repsFrom1), sel)
        else old(sourceDsa.repsFrom1)
    {
      if !env.schemaLoaded || env.workingSchemaFails {
        return Failed(InternalError);
      }
      if extendedOp != EXOP_NONE && !env.ncRootFound {
        return Failed(InternalError);
      }
      if env.convert == Some(SchemaMismatch) {
        out := RetryForSchema(env);
        return;
      } else if env.convert.Some? {
        return Failed(BadNetResp);
      }
      if env.commit.Some? {
        out := RetryForCommit(env.commit.value);
        return;
      }
      out := AfterCommit(sel, env.amRodc);
    }
  }

  // ---------------------------------------------------------------------
  // Properties of the retry decisions
  // ---------------------------------------------------------------------

  /** The reply is accepted exactly when the container is one the client
      knows, the level-6 drs_error is clear, and an extended operation
      succeeded. */
  lemma DoneAccepts(extendedOp: nat, reply: Result<GetNCChangesCtr, Status>)
    ensures DoneResult(extendedOp, reply).Ok? <==>
      && reply.Ok? && SelectCtr(reply.value).Ok?
      && ExtendedRet(SelectCtr(reply.value).value).Ok?
      && (extendedOp == EXOP_NONE || ExtendedRet(SelectCtr(reply.value).value).value == EXOP_ERR_SUCCESS)
    ensures DoneResult(extendedOp, reply).Ok? ==> DoneResult(extendedOp, reply) == SelectCtr(reply.value)
  {
  }

  /** A schema mismatch is retried at most once: the retry is only taken
      when none started, it marks one as started, no step clears the mark,
      and with the mark set a mismatch fails. */
  lemma SchemaRetryAtMostOnce(s: PullState, sel: Selected, env: ApplyEnv)
    ensures s.retryStarted ==> ApplyStep(s, sel, env).state.retryStarted
    ensures s.retryStarted && env.convert == Some(SchemaMismatch) ==>
      ApplyStep(s, sel, env).outcome.Failed?
    ensures !s.retryStarted && ApplyStep(s, sel, env).state.retryStarted ==>
      env.convert == Some(SchemaMismatch) && ApplyStep(s, sel, env).outcome == Retrigger
  {
  }

  /** A schema-mismatch retry pulls the schema partition with no extended
      operation, and comes back to the original source DSA (or that of the
      naming context) with only a REPL_SECRET operation kept. */
  lemma SchemaRetryTarget(s: PullState, sel: Selected, env: ApplyEnv)
    requires env.schemaLoaded && !env.workingSchemaFails && (s.extendedOp == EXOP_NONE || env.ncRootFound)
    requires env.convert == Some(SchemaMismatch) && !s.retryStarted
    requires env.schemaSourceDsa.Ok? && (s.extendedOp == EXOP_NONE || env.ncRootIsPartition)
    ensures var t := ApplyStep(s, sel, env);
      && t.outcome == Retrigger && !t.store
      && t.state.sourceDsa == env.schemaSourceDsa.value && t.state.extendedOp == EXOP_NONE
      && t.state.sourceDsaRetry == s.sourceDsa
      && (t.state.extendedOpRetry == EXOP_REPL_SECRET <==> s.extendedOp == EXOP_REPL_SECRET)
      && (t.state.extendedOpRetry == EXOP_NONE <==> s.extendedOp != EXOP_REPL_SECRET)
  {
  }

  /** A missing parent is retried with GET_ANC exactly once: the retry
      sets GET_ANC, no step clears it, and with GET_ANC set a missing
      parent fails. */
  lemma MissingParentRetryOnce(s: PullState, sel: Selected, env: ApplyEnv)
    ensures s.options & DRS_GET_ANC != 0 ==> ApplyStep(s, sel, env).state.options & DRS_GET_ANC != 0
    ensures s.options & DRS_GET_ANC != 0 && env.convert.None? && env.commit == Some(MissingParent) ==>
      ApplyStep(s, sel, env).outcome.Failed?
    ensures s.options & DRS_GET_ANC == 0 && env.schemaLoaded && !env.workingSchemaFails
            && (s.extendedOp == EXOP_NONE || env.ncRootFound)
            && env.convert.None? && env.commit == Some(MissingParent) ==>
      ApplyStep(s, sel, env).outcome == Retrigger
      && ApplyStep(s, sel, env).state == s.(options := SetFlag(s.options, DRS_GET_ANC))
  {
    var t := ApplyStep(s, sel, env);
    var early := !env.schemaLoaded || env.workingSchemaFails || (s.extendedOp != EXOP_NONE && !env.ncRootFound);
    if !early && env.convert.None? && env.commit.Some? {
      assert t == CommitFailed(s, env.commit.value);
      CommitFailedOptions(s, env.commit.value);
    } else {
      assert t.state.options == s.options || (!early && env.convert == Some(SchemaMismatch));
      assert t.state.options == s.options by {
        if !early && env.convert == Some(SchemaMismatch) {
          assert t == SchemaRetry(s, env);
        }
      }
    }
  }

  /** A failed commit retries with GET_ANC exactly when GET_ANC was clear
      and a parent was missing, and keeps GET_ANC once set. */
  lemma CommitFailedOptions(s: PullState, err: ApplyErr)
    ensures s.options & DRS_GET_ANC != 0 ==> CommitFailed(s, err).state.options & DRS_GET_ANC != 0
    ensures s.options & DRS_GET_ANC != 0 && err == MissingParent ==> CommitFailed(s, err).outcome.Failed?
    ensures s.options & DRS_GET_ANC == 0 && err == MissingParent ==>
      CommitFailed(s, err).outcome == Retrigger && CommitFailed(s, err).state == s.(options := SetFlag(s.options, DRS_GET_ANC))
  {
    MissingParentRetriedOnce(s.options, err);
    if CommitFailure(s.options, err) == RetryWithAncestors {
      GetAncSticks(s.options);
    }
  }

  lemma GetAncSticks(o: bv32)
    ensures SetFlag(o, DRS_GET_ANC) & DRS_GET_ANC != 0
  {
  }

  /** The highwatermark moves only when a reply was converted and
      committed and no extended operation runs. */
  lemma HighwatermarkOnlyWithoutExop(s: PullState, sel: Selected, env: ApplyEnv)
    ensures ApplyStep(s, sel, env).store <==>
      && env.schemaLoaded && !env.workingSchemaFails
      && env.convert.None? && env.commit.None? && s.extendedOp == EXOP_NONE
  {
  }

  /** UpdateRefs follows only the last reply of a plain pull by a writable
      DC with nothing to come back to. */
  lemma UpdateRefsWhen(s: PullState, sel: Selected, env: ApplyEnv)
    ensures ApplyStep(s, sel, env).outcome == UpdateRefs <==>
      && env.schemaLoaded && !env.workingSchemaFails && env.convert.None? && env.commit.None?
      && !MoreData(sel) && s.sourceDsaRetry == null && s.extendedOp == EXOP_NONE && !env.amRodc
  {
  }
}
