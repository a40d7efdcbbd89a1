/** The linked_attributes ldb module: when an entry's forward-link
    attribute changes, the matching back-link on each linked entry is
    updated by queueing one modify per linked value.  The schema is a map
    from attribute name to linkID and from linkID to attribute name; a DN
    is its linearized string, and the DN parser is a parameter. */
module LinkedAttributes {
  import opened Common

  datatype Dn = Dn(linearized: string)

  /** ldb_dn_compare(a, b) == 0: ldb compares the case-folded forms of
      two DNs, so DNs whose linearized forms differ only in the case of
      their letters name the same entry. */
  predicate SameDn(a: Dn, b: Dn)
  {
    EqualsIgnoreCase(a.linearized, b.linearized)
  }

  /** Comparing DNs is an equivalence. */
  lemma SameDnEquivalence(a: Dn, b: Dn, c: Dn)
    ensures SameDn(a, a)
    ensures SameDn(a, b) ==> SameDn(b, a)
    ensures SameDn(a, b) && SameDn(b, c) ==> SameDn(a, c)
  {
  }

  /** A DN and its upper-cased spelling name the same entry. */
  lemma SameDnIgnoresCase(s: string)
    ensures SameDn(Dn(s), Dn(Upper(s)))
  {
    var u := Upper(s);
    assert forall k :: 0 <= k < |s| ==> UpperChar(u[k]) == UpperChar(s[k]);
    assert Upper(u) == Upper(s);
  }

  /** ldb_dn_is_special: control entries such as @ATTRIBUTES. */
  predicate IsSpecial(dn: Dn)
  {
    |dn.linearized| > 0 && dn.linearized[0] == '@'
  }

  /** The LDB error codes this module returns; ReplyError carries the code
      of a reply from the modules below. */
  datatype LdbErr =
    | OperationsError       // LDB_ERR_OPERATIONS_ERROR (1)
    | InvalidDnSyntax       // LDB_ERR_INVALID_DN_SYNTAX (34)
    | UnwillingToPerform    // LDB_ERR_UNWILLING_TO_PERFORM (53)
    | ObjectClassViolation  // LDB_ERR_OBJECT_CLASS_VIOLATION (65)
    | ReplyError(code: int)

  /** el->flags & LDB_FLAG_MOD_MASK. */
  datatype ModFlag = ModNone | ModAdd | ModReplace | ModDelete

  datatype Element = Element(name: string, flags: ModFlag, values: seq<string>)

  datatype Message = Message(dn: Dn, elements: seq<Element>)

  /** The parts of the dsdb schema the module consults:
      dsdb_attribute_by_lDAPDisplayName(..)->linkID and
      dsdb_attribute_by_linkID(..)->lDAPDisplayName. */
  datatype Schema = Schema(linkIdOf: map<string, int>, nameOfLinkId: map<int, string>)

  datatype OpKind = LaOpAdd | LaOpDel

  /** struct la_op_store: add or delete `name: <own DN>` on entry `dn`. */
  datatype LaOp = LaOp(kind: OpKind, dn: Dn, name: string)

  /** What a handler does next. */
  datatype Next =
    | PassOn                                   // ldb_next_request(module, req)
    | DownRequest                              // la_down_req: the original request, then the queue
    | SearchFor(base: Dn, attrs: seq<string>)  // a base search with la_mod_search_callback
    | ModRequest(target: Dn, attr: string, flag: ModFlag, value: Option<Dn>)
    | Fail(err: LdbErr)                        // an error returned to the caller
    | Done(status: Option<LdbErr>)             // ldb_module_done: the request completes
    | AwaitMore                                // LDB_SUCCESS: wait for further replies

  /** The reply a callback receives. */
  datatype Reply = ReplyErr(code: int) | ReplyEntry(msg: Message) | ReplyReferral | ReplyDone

  // ---------------------------------------------------------------------
  // The queue
  // ---------------------------------------------------------------------

  /** No ADD is queued ahead of a DEL: deletes run before adds. */
  predicate DelsBeforeAdds(ops: seq<LaOp>)
  {
    forall i, j :: 0 <= i < j < |ops| && ops[i].kind == LaOpAdd ==> ops[j].kind == LaOpAdd
  }

  /** la_store_op: the value must parse as a DN; an ADD goes to the tail
      of the queue (DLIST_ADD_END), a DEL to its head (DLIST_ADD). */
  function Store(ops: seq<LaOp>, kind: OpKind, value: string, name: string,
                 parseDn: string -> Option<Dn>): (r: Result<seq<LaOp>, LdbErr>)
    ensures parseDn(value).None? <==> r.Err?
    ensures r.Err? ==> r.error == InvalidDnSyntax
    ensures r.Ok? && kind == LaOpAdd ==> r.value == ops + [LaOp(kind, parseDn(value).value, name)]
    ensures r.Ok? && kind == LaOpDel ==> r.value == [LaOp(kind, parseDn(value).value, name)] + ops
  {
    match parseDn(value)
    case None => Err(InvalidDnSyntax)
    case Some(dn) =>
      var op := LaOp(kind, dn, name);
      if kind == LaOpAdd then Ok(ops + [op]) else Ok([op] + ops)
  }

  /** The queue after storing one value of an element; a rename stores
      an ADD of the same value after its DEL. */
  function StoreValue(ops: seq<LaOp>, kind: OpKind, value: string, name: string, readd: bool,
                      parseDn: string -> Option<Dn>): Result<seq<LaOp>, LdbErr>
  {
    match Store(ops, kind, value, name, parseDn)
    case Err(e) => Err(e)
    case Ok(o) => if readd then Store(o, LaOpAdd, value, name, parseDn) else Ok(o)
  }

  /** The inner `for (j = 0; j < el->num_values; j++)` loops: every value
      in order, stopping at the first that fails. */
  function StoreAll(ops: seq<LaOp>, kind: OpKind, values: seq<string>, name: string, readd: bool,
                    parseDn: string -> Option<Dn>): Result<seq<LaOp>, LdbErr>
    decreases |values|
  {
    if |values| == 0 then Ok(ops)
    else
      match StoreValue(ops, kind, values[0], name, readd, parseDn)
      case Err(e) => Err(e)
      case Ok(o) => StoreAll(o, kind, values[1..], name, readd, parseDn)
  }

  // ---------------------------------------------------------------------
  // linkID rules
  // ---------------------------------------------------------------------

  /** The back-link an add or modify of attribute `name` must maintain:
      an attribute missing from the schema is an object class violation,
      linkID 0 is not linked, an odd linkID is a back-link and must not be
      written directly, and an even linkID's partner is linkID + 1, which
      a broken schema may lack. */
  function ForwardTarget(schema: Schema, name: string): (r: Result<Option<string>, LdbErr>)
    ensures name !in schema.linkIdOf <==> r == Err(ObjectClassViolation)
    ensures r == Err(UnwillingToPerform) <==> name in schema.linkIdOf && schema.linkIdOf[name] % 2 == 1
    ensures r.Ok? && r.value.Some? <==>
      name in schema.linkIdOf && schema.linkIdOf[name] != 0 && schema.linkIdOf[name] % 2 == 0
      && schema.linkIdOf[name] + 1 in schema.nameOfLinkId
    ensures r.Ok? && r.value.Some? ==> r.value.value == schema.nameOfLinkId[schema.linkIdOf[name] + 1]
  {
    if name !in schema.linkIdOf then Err(ObjectClassViolation)
    else
      var id := schema.linkIdOf[name];
      if id == 0 then Ok(None)
      else if id % 2 == 1 then Err(UnwillingToPerform)
      else if id + 1 !in schema.nameOfLinkId then Ok(None)
      else Ok(Some(schema.nameOfLinkId[id + 1]))
  }

  /** The linkID of the other half of a link pair, as the delete and
      rename search uses it: forward (even) to back (+1), back (odd) to
      forward (-1). */
  function LinkPartner(id: int): int
  {
    if id % 2 == 0 then id + 1 else id - 1
  }

  // ---------------------------------------------------------------------
  // The plans each handler follows
  // ---------------------------------------------------------------------

  /** The queue linked_attributes_add builds: one ADD per value of every
      forward link that has a back-link. */
  function AddPlan(schema: Schema, els: seq<Element>, ops: seq<LaOp>,
                   parseDn: string -> Option<Dn>): Result<seq<LaOp>, LdbErr>
    decreases |els|
  {
    if |els| == 0 then Ok(ops)
    else
      match ForwardTarget(schema, els[0].name)
      case Err(e) => Err(e)
      case Ok(None) => AddPlan(schema, els[1..], ops, parseDn)
      case Ok(Some(target)) =>
        match StoreAll(ops, LaOpAdd, els[0].values, target, false, parseDn)
        case Err(e) => Err(e)
        case Ok(o) => AddPlan(schema, els[1..], o, parseDn)
  }

  /** One forward-link element of a modify: REPLACE queues an ADD per
      value and is remembered (its old values are deleted after the
      search), ADD queues an ADD per value, DELETE with values a DEL per
      value, and DELETE without values is only remembered.  The boolean
      is store_el. */
  function ModifyElement(el: Element, target: string, ops: seq<LaOp>,
                         parseDn: string -> Option<Dn>): Result<(seq<LaOp>, bool), LdbErr>
  {
    match el.flags
    case ModReplace =>
      (match StoreAll(ops, LaOpAdd, el.values, target, false, parseDn)
       case Err(e) => Err(e)
       case Ok(o) => Ok((o, true)))
    case ModAdd =>
      (match StoreAll(ops, LaOpAdd, el.values, target, false, parseDn)
       case Err(e) => Err(e)
       case Ok(o) => Ok((o, false)))
    case ModDelete =>
      if |el.values| > 0 then
        (match StoreAll(ops, LaOpDel, el.values, target, false, parseDn)
         case Err(e) => Err(e)
         case Ok(o) => Ok((o, false)))
      else Ok((ops, true))
    case ModNone => Ok((ops, false))
  }

  /** The queue and remembered elements linked_attributes_modify builds. */
  function ModifyPlan(schema: Schema, els: seq<Element>, ops: seq<LaOp>, rc: seq<Element>,
                      parseDn: string -> Option<Dn>): Result<(seq<LaOp>, seq<Element>), LdbErr>
    decreases |els|
  {
    if |els| == 0 then Ok((ops, rc))
    else
      match ForwardTarget(schema, els[0].name)
      case Err(e) => Err(e)
      case Ok(None) => ModifyPlan(schema, els[1..], ops, rc, parseDn)
      case Ok(Some(target)) =>
        match ModifyElement(els[0], target, ops, parseDn)
        case Err(e) => Err(e)
        case Ok(res) =>
          ModifyPlan(schema, els[1..], res.0, if res.1 then rc + [els[0]] else rc, parseDn)
  }

  /** ldb_msg_find_element: the first element of that name. */
  function FindElement(els: seq<Element>, name: string): (r: Option<Element>)
    ensures r.Some? ==> r.value in els && r.value.name == name
    ensures r.None? ==> forall e :: e in els ==> e.name != name
  {
    if |els| == 0 then None
    else if els[0].name == name then Some(els[0])
    else FindElement(els[1..], name)
  }

  /** la_mod_search_callback on the entry found: for each remembered
      element the entry holds, a DEL of each value it holds now. */
  function ModSearchPlan(schema: Schema, rc: seq<Element>, found: Message, ops: seq<LaOp>,
                         parseDn: string -> Option<Dn>): Result<seq<LaOp>, LdbErr>
    decreases |rc|
  {
    if |rc| == 0 then Ok(ops)
    else if rc[0].name !in schema.linkIdOf then Err(ObjectClassViolation)
    else
      match FindElement(found.elements, rc[0].name)
      case None => ModSearchPlan(schema, rc[1..], found, ops, parseDn)
      case Some(searchEl) =>
        var id := schema.linkIdOf[rc[0].name] + 1;
        if id !in schema.nameOfLinkId then ModSearchPlan(schema, rc[1..], found, ops, parseDn)
        else
          match StoreAll(ops, LaOpDel, searchEl.values, schema.nameOfLinkId[id], false, parseDn)
          case Err(e) => Err(e)
          case Ok(o) => ModSearchPlan(schema, rc[1..], found, o, parseDn)
  }

  /** la_op_search_callback on the entry found: for every linked
      attribute it holds, a DEL of each value on the partner attribute,
      followed for a rename by an ADD of the same value. */
  function OpSearchPlan(schema: Schema, els: seq<Element>, rename: bool, ops: seq<LaOp>,
                        parseDn: string -> Option<Dn>): Result<seq<LaOp>, LdbErr>
    decreases |els|
  {
    if |els| == 0 then Ok(ops)
    else if els[0].name !in schema.linkIdOf then Err(ObjectClassViolation)
    else
      var id := schema.linkIdOf[els[0].name];
      if id == 0 || LinkPartner(id) !in schema.nameOfLinkId then OpSearchPlan(schema, els[1..], rename, ops, parseDn)
      else
        match StoreAll(ops, LaOpDel, els[0].values, schema.nameOfLinkId[LinkPartner(id)], rename, parseDn)
        case Err(e) => Err(e)
        case Ok(o) => OpSearchPlan(schema, els[1..], rename, o, parseDn)
  }

  /** The names of the remembered elements, the search's attribute list. */
  function Names(rc: seq<Element>): (r: seq<string>)
    ensures |r| == |rc| && forall i :: 0 <= i < |rc| ==> r[i] == rc[i].name
  {
    if |rc| == 0 then [] else [rc[0].name] + Names(rc[1..])
  }

  /** la_do_mod_request: the one-value modify for the head of the queue,
      or completion with the saved reply when the queue is empty. */
  function HeadRequest(ops: seq<LaOp>, addDn: Option<Dn>, delDn: Option<Dn>): (r: Next)
    ensures |ops| == 0 <==> r == Done(None)
    ensures |ops| > 0 ==> r.ModRequest? && r.target == ops[0].dn && r.attr == ops[0].name
    ensures |ops| > 0 && ops[0].kind == LaOpAdd ==> r.flag == ModAdd && r.value == addDn
    ensures |ops| > 0 && ops[0].kind == LaOpDel ==> r.flag == ModDelete && r.value == delDn
  {
    if |ops| == 0 then Done(None)
    else if ops[0].kind == LaOpAdd then ModRequest(ops[0].dn, ops[0].name, ModAdd, addDn)
    else ModRequest(ops[0].dn, ops[0].name, ModDelete, delDn)
  }

  // ---------------------------------------------------------------------
  // The module's state
  // ---------------------------------------------------------------------

  datatype Operation = OpAdd | OpModify | OpDelete | OpRename(oldDn: Dn, newDn: Dn)

  /** struct la_context with its replace_context: the op queue, the
      elements remembered for the search, and the DNs the back-links will
      name. */
  class LaContext {
    const schema: Option<Schema>
    const operation: Operation
    var ops: seq<LaOp>
    var rcEl: seq<Element>
    var addDn: Option<Dn>
    var delDn: Option<Dn>

    /** linked_attributes_init: talloc_zero'd, so nothing is queued. */
    constructor (schema: Option<Schema>, operation: Operation)
      ensures this.schema == schema && this.operation == operation
      ensures ops == [] && rcEl == [] && addDn.None? && delDn.None?
    {
      this.schema := schema;
      this.operation := operation;
      ops := [];
      rcEl := [];
      addDn := None;
      delDn := None;
    }

    /** la_store_op. */
    method StoreOp(kind: OpKind, value: string, name: string, parseDn: string -> Option<Dn>)
      returns (r: Result<(), LdbErr>)
      modifies this
      ensures Store(old(ops), kind, value, name, parseDn) == (if r.Ok? then Ok(ops) else Err(r.error))
      ensures r.Err? ==> ops == old(ops)
      ensures rcEl == old(rcEl) && addDn == old(addDn) && delDn == old(delDn)
    {
      var dn := parseDn(value);
      if dn.None? {
        return Err(InvalidDnSyntax);
      }
      var op := LaOp(kind, dn.value, name);
      if kind == LaOpAdd {
        ops := ops + [op];
      } else {
        ops := [op] + ops;
      }
      r := Ok(());
    }

    /** The loop over one element's values. */
    method StoreValues(kind: OpKind, values: seq<string>, name: string, readd: bool,
                       parseDn: string -> Option<Dn>) returns (r: Result<(), LdbErr>)
      modifies this
      ensures StoreAll(old(ops), kind, values, name, readd, parseDn) == (if r.Ok? then Ok(ops) else Err(r.error))
      ensures rcEl == old(rcEl) && addDn == old(addDn) && delDn == old(delDn)
    {
      ghost var target := StoreAll(ops, kind, values, name, readd, parseDn);
      var j := 0;
      while j < |values|
        invariant 0 <= j <= |values|
        invariant target == StoreAll(ops, kind, values[j..], name, readd, parseDn)
        invariant rcEl == old(rcEl) && addDn == old(addDn) && delDn == old(delDn)
      {
        assert values[j..][1..] == values[j + 1..];
        var res := StoreOp(kind, values[j], name, parseDn);
        if res.Ok? && readd {
          res := StoreOp(LaOpAdd, values[j], name, parseDn);
        }
        if res.Err? {
          return res;
        }
        j := j + 1;
      }
      r := Ok(());
    }

    /** linked_attributes_add. */
    method Add(msg: Message, parseDn: string -> Option<Dn>) returns (r: Next)
      requires ops == []
      modifies this
      ensures IsSpecial(msg.dn) || schema.None? ==> r == PassOn
      ensures !IsSpecial(msg.dn) && schema.Some? ==>
        match AddPlan(schema.value, msg.elements, [], parseDn)
        case Err(e) => r == Fail(e)
        case Ok(o) => ops == o && r == (if o == [] then PassOn else DownRequest)
    {
      if IsSpecial(msg.dn) || schema.None? {
        return PassOn;
      }
      var sch := schema.value;
      ghost var target := AddPlan(sch, msg.elements, [], parseDn);
      var i := 0;
      while i < |msg.elements|
        invariant 0 <= i <= |msg.elements|
        invariant target == AddPlan(sch, msg.elements[i..], ops, parseDn)
      {
        var el := msg.elements[i];
        assert msg.elements[i..][1..] == msg.elements[i + 1..];
        var t := ForwardTarget(sch, el.name);
        if t.Err? {
          return Fail(t.error);
        }
        if t.value.Some? {
          var res := StoreValues(LaOpAdd, el.values, t.value.value, false, parseDn);
          if res.Err? {
            return Fail(res.error);
          }
        }
        i := i + 1;
      }
      r := if ops == [] then PassOn else DownRequest;
    }

    /** linked_attributes_modify. */
    method Modify(msg: Message, parseDn: string -> Option<Dn>) returns (r: Next)
      requires ops == [] && rcEl == []
      modifies this
      ensures IsSpecial(msg.dn) || schema.None? ==> r == PassOn
      ensures !IsSpecial(msg.dn) && schema.Some? ==>
        match ModifyPlan(schema.value, msg.elements, [], [], parseDn)
        case Err(e) => r == Fail(e)
        case Ok(res) =>
          ops == res.0 && rcEl == res.1
          && r == (if ops != [] || rcEl != [] then SearchFor(msg.dn, Names(rcEl)) else PassOn)
    {
      if IsSpecial(msg.dn) || schema.None? {
        return PassOn;
      }
      var sch := schema.value;
      ghost var target := ModifyPlan(sch, msg.elements, [], [], parseDn);
      var i := 0;
      while i < |msg.elements|
        invariant 0 <= i <= |msg.elements|
        invariant target == ModifyPlan(sch, msg.elements[i..], ops, rcEl, parseDn)
      {
        var el := msg.elements[i];
        assert msg.elements[i..][1..] == msg.elements[i + 1..];
        var t := ForwardTarget(sch, el.name);
        if t.Err? {
          return Fail(t.error);
        }
        if t.value.Some? {
          var storeEl := false;
          var res: Result<(), LdbErr> := Ok(());
          match el.flags {
            case ModReplace =>
              storeEl := true;
              res := StoreValues(LaOpAdd, el.values, t.value.value, false, parseDn);
            case ModAdd =>
              res := StoreValues(LaOpAdd, el.values, t.value.value, false, parseDn);
            case ModDelete =>
              if |el.values| > 0 {
                res := StoreValues(LaOpDel, el.values, t.value.value, false, parseDn);
              } else {
                storeEl := true;
              }
            case ModNone =>
          }
          if res.Err? {
            return Fail(res.error);
          }
          if storeEl {
            rcEl := rcEl + [el];
          }
        }
        i := i + 1;
      }
      if ops != [] || rcEl != [] {
        r := SearchFor(msg.dn, Names(rcEl));
      } else {
        r := PassOn;
      }
    }

    /** la_mod_search_callback for the entry found by the search of a
        modify, or after an add (which remembers no elements). */
    method ModSearchEntry(found: Message, requested: Dn, parseDn: string -> Option<Dn>) returns (r: Next)
      requires schema.Some?
      modifies this
      ensures !SameDn(found.dn, requested) ==> r == Done(Some(OperationsError))
      ensures SameDn(found.dn, requested) ==>
        addDn == Some(found.dn) && delDn == Some(found.dn)
        && match ModSearchPlan(schema.value, rcEl, found, old(ops), parseDn)
           case Err(e) => r == Done(Some(e))
           case Ok(o) => ops == o && r == AwaitMore
    {
      if !SameDn(found.dn, requested) {
        return Done(Some(OperationsError));
      }
      addDn := Some(found.dn);
      delDn := Some(found.dn);
      var sch := schema.value;
      ghost var target := ModSearchPlan(sch, rcEl, found, ops, parseDn);
      var i := 0;
      while i < |rcEl|
        invariant 0 <= i <= |rcEl| && rcEl == old(rcEl)
        invariant addDn == Some(found.dn) && delDn == Some(found.dn)
        invariant target == ModSearchPlan(sch, rcEl[i..], found, ops, parseDn)
      {
        var el := rcEl[i];
        assert rcEl[i..][1..] == rcEl[i + 1..];
        if el.name !in sch.linkIdOf {
          return Done(Some(ObjectClassViolation));
        }
        var searchEl := FindElement(found.elements, el.name);
        if searchEl.Some? {
          var id := sch.linkIdOf[el.name] + 1;
          if id in sch.nameOfLinkId {
            var res := StoreValues(LaOpDel, searchEl.value.values, sch.nameOfLinkId[id], false, parseDn);
            if res.Err? {
              return Done(Some(res.error));
            }
          }
        }
        i := i + 1;
      }
      r := AwaitMore;
    }

    /** la_op_search_callback for the entry found by the search of a
        delete, or of a rename once the rename is done. */
    method OpSearchEntry(found: Message, searchBase: Dn, parseDn: string -> Option<Dn>) returns (r: Next)
      requires schema.Some?
      modifies this
      ensures !SameDn(found.dn, searchBase) ==> r == Done(Some(OperationsError)) && ops == old(ops)
      ensures SameDn(found.dn, searchBase) && |found.elements| == 0 ==> r == AwaitMore && ops == old(ops)
      ensures SameDn(found.dn, searchBase) && |found.elements| > 0 && !(operation.OpDelete? || operation.OpRename?) ==>
        r == Done(Some(OperationsError)) && ops == old(ops)
      ensures SameDn(found.dn, searchBase) && |found.elements| > 0 && operation.OpDelete? ==> delDn == Some(found.dn)
      ensures SameDn(found.dn, searchBase) && |found.elements| > 0 && operation.OpRename? ==>
        addDn == Some(found.dn) && delDn == Some(operation.oldDn)
      ensures SameDn(found.dn, searchBase) && |found.elements| > 0 && (operation.OpDelete? || operation.OpRename?) ==>
        match OpSearchPlan(schema.value, found.elements, operation.OpRename?, old(ops), parseDn)
        case Err(e) => r == Done(Some(e))
        case Ok(o) => ops == o && r == AwaitMore
    {
      if !SameDn(found.dn, searchBase) {
        return Done(Some(OperationsError));
      }
      if |found.elements| == 0 {
        return AwaitMore;
      }
      match operation {
        case OpDelete =>
          delDn := Some(found.dn);
        case OpRename(oldDn, _) =>
          addDn := Some(found.dn);
          delDn := Some(oldDn);
        case _ =>
          return Done(Some(OperationsError));
      }
      var sch := schema.value;
      var rename := operation.OpRename?;
      ghost var target := OpSearchPlan(sch, found.elements, rename, ops, parseDn);
      ghost var dns := (addDn, delDn);
      var i := 0;
      while i < |found.elements|
        invariant 0 <= i <= |found.elements|
        invariant (addDn, delDn) == dns
        invariant target == OpSearchPlan(sch, found.elements[i..], rename, ops, parseDn)
      {
        var el := found.elements[i];
        assert found.elements[i..][1..] == found.elements[i + 1..];
        if el.name !in sch.linkIdOf {
          return Done(Some(ObjectClassViolation));
        }
        var id := sch.linkIdOf[el.name];
        if id != 0 && LinkPartner(id) in sch.nameOfLinkId {
          var res := StoreValues(LaOpDel, el.values, sch.nameOfLinkId[LinkPartner(id)], rename, parseDn);
          if res.Err? {
            return Done(Some(res.error));
          }
        }
        i := i + 1;
      }
      r := AwaitMore;
    }

    /** la_do_mod_request. */
    method DoModRequest() returns (r: Next)
      ensures r == HeadRequest(ops, addDn, delDn)
    {
      if ops == [] {
        return Done(None);
      }
      var flag := if ops[0].kind == LaOpAdd then ModAdd else ModDelete;
      var value := if ops[0].kind == LaOpAdd then addDn else delDn;
      r := ModRequest(ops[0].dn, ops[0].name, flag, value);
    }

    /** la_mod_callback: once the modify for the head op is done, that op
        leaves the queue and the next one is sent. */
    method ModCallback(reply: Reply) returns (r: Next)
      requires ops != []
      modifies this
      ensures reply.ReplyErr? ==> r == Done(Some(ReplyError(reply.code))) && ops == old(ops)
      ensures reply.ReplyEntry? || reply.ReplyReferral? ==> r == Done(Some(OperationsError)) && ops == old(ops)
      ensures reply.ReplyDone? ==> ops == old(ops)[1..] && r == HeadRequest(ops, addDn, delDn)
      ensures rcEl == old(rcEl) && addDn == old(addDn) && delDn == old(delDn)
    {
      match reply {
        case ReplyErr(code) =>
          return Done(Some(ReplyError(code)));
        case ReplyDone =>
          ops := ops[1..];
          r := DoModRequest();
        case _ =>
          return Done(Some(OperationsError));
      }
    }
  }

  // ---------------------------------------------------------------------
  // Properties
  // ---------------------------------------------------------------------

  /** The values an element's loop turns into back-link DNs, for the ADD
      side (in value order) ... */
  function AddOps(values: seq<string>, name: string, parseDn: string -> Option<Dn>): seq<LaOp>
    requires forall v :: v in values ==> parseDn(v).Some?
  {
    if |values| == 0 then [] else [LaOp(LaOpAdd, parseDn(values[0]).value, name)] + AddOps(values[1..], name, parseDn)
  }

  /** ... and the DEL side (each pushed at the head, so in reverse order). */
  function DelOps(values: seq<string>, name: string, parseDn: string -> Option<Dn>): seq<LaOp>
    requires forall v :: v in values ==> parseDn(v).Some?
  {
    if |values| == 0 then [] else DelOps(values[1..], name, parseDn) + [LaOp(LaOpDel, parseDn(values[0]).value, name)]
  }

  /** A value loop fails exactly when some value is not a DN, and then
      with LDB_ERR_INVALID_DN_SYNTAX. */
  lemma {:induction false} StoreAllFails(ops: seq<LaOp>, kind: OpKind, values: seq<string>, name: string,
                                         readd: bool, parseDn: string -> Option<Dn>)
    ensures StoreAll(ops, kind, values, name, readd, parseDn).Err? <==> exists v :: v in values && parseDn(v).None?
    ensures StoreAll(ops, kind, values, name, readd, parseDn).Err? ==>
      StoreAll(ops, kind, values, name, readd, parseDn).error == InvalidDnSyntax
    decreases |values|
  {
    if |values| > 0 {
      match StoreValue(ops, kind, values[0], name, readd, parseDn)
      case Err(_) =>
      case Ok(o) =>
        StoreAllFails(o, kind, values[1..], name, readd, parseDn);
        assert forall v :: v in values <==> v == values[0] || v in values[1..];
    }
  }

  /** Adds land at the tail in value order. */
  lemma {:induction false} StoreAllAdds(ops: seq<LaOp>, values: seq<string>, name: string,
                                        parseDn: string -> Option<Dn>)
    requires forall v :: v in values ==> parseDn(v).Some?
    ensures StoreAll(ops, LaOpAdd, values, name, false, parseDn) == Ok(ops + AddOps(values, name, parseDn))
    decreases |values|
  {
    if |values| > 0 {
      var op := LaOp(LaOpAdd, parseDn(values[0]).value, name);
      assert values[0] in values;
      assert StoreValue(ops, LaOpAdd, values[0], name, false, parseDn) == Ok(ops + [op]);
      assert forall v :: v in values[1..] ==> v in values;
      StoreAllAdds(ops + [op], values[1..], name, parseDn);
      assert AddOps(values, name, parseDn) == [op] + AddOps(values[1..], name, parseDn);
      assert (ops + [op]) + AddOps(values[1..], name, parseDn) == ops + AddOps(values, name, parseDn);
    } else {
      assert ops + [] == ops;
    }
  }

  /** Deletes land at the head, the last value first. */
  lemma {:induction false} StoreAllDels(ops: seq<LaOp>, values: seq<string>, name: string,
                                        parseDn: string -> Option<Dn>)
    requires forall v :: v in values ==> parseDn(v).Some?
    ensures StoreAll(ops, LaOpDel, values, name, false, parseDn) == Ok(DelOps(values, name, parseDn) + ops)
    decreases |values|
  {
    if |values| > 0 {
      var op := LaOp(LaOpDel, parseDn(values[0]).value, name);
      assert values[0] in values;
      assert StoreValue(ops, LaOpDel, values[0], name, false, parseDn) == Ok([op] + ops);
      assert forall v :: v in values[1..] ==> v in values;
      StoreAllDels([op] + ops, values[1..], name, parseDn);
      assert DelOps(values, name, parseDn) == DelOps(values[1..], name, parseDn) + [op];
      assert DelOps(values[1..], name, parseDn) + ([op] + ops) == DelOps(values, name, parseDn) + ops;
    } else {
      assert [] + ops == ops;
    }
  }

  /** la_store_op keeps every DEL ahead of every ADD. */
  lemma StoreKeepsOrder(ops: seq<LaOp>, kind: OpKind, value: string, name: string, parseDn: string -> Option<Dn>)
    requires DelsBeforeAdds(ops)
    ensures var r := Store(ops, kind, value, name, parseDn); r.Ok? ==> DelsBeforeAdds(r.value)
  {
    var r := Store(ops, kind, value, name, parseDn);
    if r.Ok? && kind == LaOpDel {
      var o := r.value;
      forall i, j | 0 <= i < j < |o| && o[i].kind == LaOpAdd
        ensures o[j].kind == LaOpAdd
      {
        assert o[i] == ops[i - 1] && o[j] == ops[j - 1];
      }
    }
  }

  lemma {:induction false} StoreAllKeepsOrder(ops: seq<LaOp>, kind: OpKind, values: seq<string>, name: string,
                                              readd: bool, parseDn: string -> Option<Dn>)
    requires DelsBeforeAdds(ops)
    ensures var r := StoreAll(ops, kind, values, name, readd, parseDn); r.Ok? ==> DelsBeforeAdds(r.value)
    decreases |values|
  {
    if |values| > 0 {
      StoreKeepsOrder(ops, kind, values[0], name, parseDn);
      match Store(ops, kind, values[0], name, parseDn)
      case Err(_) =>
      case Ok(o) =>
        if readd {
          StoreKeepsOrder(o, LaOpAdd, values[0], name, parseDn);
        }
        match StoreValue(ops, kind, values[0], name, readd, parseDn)
        case Err(_) =>
        case Ok(o2) => StoreAllKeepsOrder(o2, kind, values[1..], name, readd, parseDn);
    }
  }

  /** Whatever the operation, the queue the module drains has its deletes
      before its adds: for add and modify plans ... */
  lemma {:induction false} ModifyPlanKeepsOrder(schema: Schema, els: seq<Element>, ops: seq<LaOp>, rc: seq<Element>,
                                                parseDn: string -> Option<Dn>)
    requires DelsBeforeAdds(ops)
    ensures var r := ModifyPlan(schema, els, ops, rc, parseDn); r.Ok? ==> DelsBeforeAdds(r.value.0)
    decreases |els|
  {
    if |els| > 0 {
      match ForwardTarget(schema, els[0].name)
      case Err(_) =>
      case Ok(None) => ModifyPlanKeepsOrder(schema, els[1..], ops, rc, parseDn);
      case Ok(Some(target)) =>
        var kind := if els[0].flags == ModDelete then LaOpDel else LaOpAdd;
        StoreAllKeepsOrder(ops, kind, els[0].values, target, false, parseDn);
        match ModifyElement(els[0], target, ops, parseDn)
        case Err(_) =>
        case Ok(res) =>
          ModifyPlanKeepsOrder(schema, els[1..], res.0, if res.1 then rc + [els[0]] else rc, parseDn);
    }
  }

  /** ... and for the delete and rename plans. */
  lemma {:induction false} OpSearchPlanKeepsOrder(schema: Schema, els: seq<Element>, rename: bool, ops: seq<LaOp>,
                                                  parseDn: string -> Option<Dn>)
    requires DelsBeforeAdds(ops)
    ensures var r := OpSearchPlan(schema, els, rename, ops, parseDn); r.Ok? ==> DelsBeforeAdds(r.value)
    decreases |els|
  {
    if |els| > 0 && els[0].name in schema.linkIdOf {
      var id := schema.linkIdOf[els[0].name];
      if id == 0 || LinkPartner(id) !in schema.nameOfLinkId {
        OpSearchPlanKeepsOrder(schema, els[1..], rename, ops, parseDn);
      } else {
        var name := schema.nameOfLinkId[LinkPartner(id)];
        StoreAllKeepsOrder(ops, LaOpDel, els[0].values, name, rename, parseDn);
        match StoreAll(ops, LaOpDel, els[0].values, name, rename, parseDn)
        case Err(_) =>
        case Ok(o) => OpSearchPlanKeepsOrder(schema, els[1..], rename, o, parseDn);
      }
    }
  }

  /** r is ops with DELs pushed in front of it and nothing else. */
  predicate DelsOnto(r: seq<LaOp>, ops: seq<LaOp>)
  {
    && |ops| <= |r| && r[|r| - |ops|..] == ops
    && forall i :: 0 <= i < |r| - |ops| ==> r[i].kind == LaOpDel
  }

  /** The DEL side of a value loop holds only DELs. */
  lemma {:induction false} DelOpsAreDels(values: seq<string>, name: string, parseDn: string -> Option<Dn>)
    requires forall v :: v in values ==> parseDn(v).Some?
    ensures forall i :: 0 <= i < |DelOps(values, name, parseDn)| ==> DelOps(values, name, parseDn)[i].kind == LaOpDel
    decreases |values|
  {
    if |values| > 0 {
      assert forall v :: v in values[1..] ==> v in values;
      DelOpsAreDels(values[1..], name, parseDn);
    }
  }

  /** Pushing DELs in front twice is pushing DELs in front once. */
  lemma DelsOntoTrans(r: seq<LaOp>, m: seq<LaOp>, ops: seq<LaOp>)
    requires DelsOnto(r, m) && DelsOnto(m, ops)
    ensures DelsOnto(r, ops)
  {
    assert r[|r| - |ops|..] == r[|r| - |m|..][|m| - |ops|..];
    forall i | 0 <= i < |r| - |ops|
      ensures r[i].kind == LaOpDel
    {
      if i >= |r| - |m| {
        assert r[i] == r[|r| - |m|..][i - (|r| - |m|)];
      }
    }
  }

  /** A queue that had its DELs before its ADDs keeps them so when DELs
      are pushed in front. */
  lemma DelsOntoKeepsOrder(r: seq<LaOp>, ops: seq<LaOp>)
    requires DelsOnto(r, ops) && DelsBeforeAdds(ops)
    ensures DelsBeforeAdds(r)
  {
    forall i, j | 0 <= i < j < |r| && r[i].kind == LaOpAdd
      ensures r[j].kind == LaOpAdd
    {
      var k := |r| - |ops|;
      assert r[i] == ops[i - k] && r[j] == ops[j - k];
    }
  }

  /** The search after a REPLACE or value-less DELETE queues only DELs,
      each pushed at the head, so the modify path keeps its DELs before
      its ADDs. */
  lemma {:induction false} ModSearchPlanOnlyDels(schema: Schema, rc: seq<Element>, found: Message, ops: seq<LaOp>,
                                                 parseDn: string -> Option<Dn>)
    ensures var r := ModSearchPlan(schema, rc, found, ops, parseDn);
      r.Ok? ==> DelsOnto(r.value, ops) && (DelsBeforeAdds(ops) ==> DelsBeforeAdds(r.value))
    decreases |rc|
  {
    var r := ModSearchPlan(schema, rc, found, ops, parseDn);
    if |rc| == 0 {
      assert ops[|ops| - |ops|..] == ops;
    } else if rc[0].name in schema.linkIdOf {
      match FindElement(found.elements, rc[0].name)
      case None => ModSearchPlanOnlyDels(schema, rc[1..], found, ops, parseDn);
      case Some(searchEl) =>
        var id := schema.linkIdOf[rc[0].name] + 1;
        if id !in schema.nameOfLinkId {
          ModSearchPlanOnlyDels(schema, rc[1..], found, ops, parseDn);
        } else {
          var name := schema.nameOfLinkId[id];
          StoreAllFails(ops, LaOpDel, searchEl.values, name, false, parseDn);
          match StoreAll(ops, LaOpDel, searchEl.values, name, false, parseDn)
          case Err(_) =>
          case Ok(o) =>
            StoreAllDels(ops, searchEl.values, name, parseDn);
            DelOpsAreDels(searchEl.values, name, parseDn);
            assert o[|o| - |ops|..] == ops;
            assert DelsOnto(o, ops);
            ModSearchPlanOnlyDels(schema, rc[1..], found, o, parseDn);
            if r.Ok? {
              DelsOntoTrans(r.value, o, ops);
            }
        }
    }
    if r.Ok? && DelsBeforeAdds(ops) {
      DelsOntoKeepsOrder(r.value, ops);
    }
  }

  /** The number of queued ops of one kind. */
  function Count(ops: seq<LaOp>, kind: OpKind): nat
  {
    if |ops| == 0 then 0 else (if ops[0].kind == kind then 1 else 0) + Count(ops[1..], kind)
  }

  lemma {:induction false} CountAppend(a: seq<LaOp>, b: seq<LaOp>, kind: OpKind)
    ensures Count(a + b, kind) == Count(a, kind) + Count(b, kind)
    decreases |a|
  {
    if |a| > 0 {
      assert (a + b)[0] == a[0];
      assert (a + b)[1..] == a[1..] + b;
      CountAppend(a[1..], b, kind);
    } else {
      assert a + b == b;
    }
  }

  /** A rename re-adds every back-link it deletes: the values loop queues
      as many ADDs as DELs, one of each per value. */
  lemma {:induction false} RenameBalanced(ops: seq<LaOp>, values: seq<string>, name: string,
                                          parseDn: string -> Option<Dn>)
    requires StoreAll(ops, LaOpDel, values, name, true, parseDn).Ok?
    ensures var o := StoreAll(ops, LaOpDel, values, name, true, parseDn).value;
      && Count(o, LaOpAdd) == Count(ops, LaOpAdd) + |values|
      && Count(o, LaOpDel) == Count(ops, LaOpDel) + |values|
    decreases |values|
  {
    if |values| > 0 {
      var dn := parseDn(values[0]).value;
      var del := LaOp(LaOpDel, dn, name);
      var add := LaOp(LaOpAdd, dn, name);
      var o := ([del] + ops) + [add];
      CountAppend([del], ops, LaOpAdd);
      CountAppend([del], ops, LaOpDel);
      CountAppend([del] + ops, [add], LaOpAdd);
      CountAppend([del] + ops, [add], LaOpDel);
      assert [del][1..] == [] && [add][1..] == [];
      RenameBalanced(o, values[1..], name, parseDn);
    }
  }

  /** An add request with no forward link that has a back-link queues
      nothing, and is passed on unchanged. */
  lemma {:induction false} AddWithoutLinks(schema: Schema, els: seq<Element>, ops: seq<LaOp>,
                                           parseDn: string -> Option<Dn>)
    requires forall e :: e in els ==> e.name in schema.linkIdOf && schema.linkIdOf[e.name] == 0
    ensures AddPlan(schema, els, ops, parseDn) == Ok(ops)
    decreases |els|
  {
    if |els| > 0 {
      assert els[0] in els;
      assert forall e :: e in els[1..] ==> e in els;
      AddWithoutLinks(schema, els[1..], ops, parseDn);
    }
  }

  /** Adding an entry queues only ADDs. */
  lemma {:induction false} AddPlanOnlyAdds(schema: Schema, els: seq<Element>, ops: seq<LaOp>,
                                           parseDn: string -> Option<Dn>)
    requires forall i :: 0 <= i < |ops| ==> ops[i].kind == LaOpAdd
    ensures var r := AddPlan(schema, els, ops, parseDn);
      r.Ok? ==> forall i :: 0 <= i < |r.value| ==> r.value[i].kind == LaOpAdd
    decreases |els|
  {
    if |els| > 0 {
      match ForwardTarget(schema, els[0].name)
      case Err(_) =>
      case Ok(None) => AddPlanOnlyAdds(schema, els[1..], ops, parseDn);
      case Ok(Some(target)) =>
        StoreAllFails(ops, LaOpAdd, els[0].values, target, false, parseDn);
        if forall v :: v in els[0].values ==> parseDn(v).Some? {
          StoreAllAdds(ops, els[0].values, target, parseDn);
          var o := ops + AddOps(els[0].values, target, parseDn);
          AddOpsAreAdds(els[0].values, target, parseDn);
          assert forall i :: 0 <= i < |o| ==> o[i].kind == LaOpAdd by {
            forall i | 0 <= i < |o|
              ensures o[i].kind == LaOpAdd
            {
              if i >= |ops| {
                assert o[i] == AddOps(els[0].values, target, parseDn)[i - |ops|];
              }
            }
          }
          AddPlanOnlyAdds(schema, els[1..], o, parseDn);
          var r := AddPlan(schema, els[1..], o, parseDn);
          assert r.Ok? ==> forall i :: 0 <= i < |r.value| ==> r.value[i].kind == LaOpAdd;
          assert AddPlan(schema, els, ops, parseDn) == r;
        } else {
          assert StoreAll(ops, LaOpAdd, els[0].values, target, false, parseDn).Err?;
          assert AddPlan(schema, els, ops, parseDn).Err?;
        }
    }
  }

  lemma {:induction false} AddOpsAreAdds(values: seq<string>, name: string, parseDn: string -> Option<Dn>)
    requires forall v :: v in values ==> parseDn(v).Some?
    ensures forall i :: 0 <= i < |AddOps(values, name, parseDn)| ==> AddOps(values, name, parseDn)[i].kind == LaOpAdd
    ensures |AddOps(values, name, parseDn)| == |values|
    decreases |values|
  {
    if |values| > 0 {
      assert forall v :: v in values[1..] ==> v in values;
      AddOpsAreAdds(values[1..], name, parseDn);
    }
  }
}
