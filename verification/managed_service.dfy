/** The outbound and routing services: each change in a transaction of its own. */
module ManagedService {
  import opened ManagedRows
  import opened ManagedTables

  /** A change that passed its checks is made if and only if the transaction goes through; any other changes nothing. */
  predicate Done(c: Checked<Tables>, env: Env, before: Tables, after: Tables, r: Result) {
    if c.Invalid? then r == Failed(c.code) && after == before
    else r == Outcome(env) && after == if Commits(env) then c.row else before
  }

  function AfterAdd(isObject: string -> bool, t: Tables, ob: OutboundRow): Checked<Tables> {
    var c := CheckAdd(isObject, t, ob);
    if c.Invalid? then Invalid(c.code) else Valid(WithOutbound(t, c.row))
  }

  function AfterUpdate(isObject: string -> bool, t: Tables, ob: OutboundRow): Checked<Tables> {
    var c := CheckUpdate(isObject, t, ob);
    if c.Invalid? then Invalid(c.code) else Valid(WithOutbound(t, c.row))
  }

  function AfterDelete(t: Tables, id: int): Checked<Tables> {
    if id !in t.outbounds then Invalid("OUTBOUND_NOT_FOUND")
    else if t.outbounds[id].isSystem || Reserved(t.outbounds[id].tag) then Invalid("OUTBOUND_SYSTEM_DELETE_FORBIDDEN")
    else if Referenced(t, t.outbounds[id].tag) then Invalid("OUTBOUND_IN_USE")
    else Valid(t.(outbounds := t.outbounds - {id}))
  }

  function AfterToggle(t: Tables, id: int, enabled: bool): Checked<Tables> {
    if id !in t.outbounds then Invalid("OUTBOUND_NOT_FOUND")
    else if !enabled && (t.outbounds[id].isSystem || Reserved(t.outbounds[id].tag)) then
      Invalid("OUTBOUND_SYSTEM_DISABLE_FORBIDDEN")
    else Valid(WithOutbound(t, t.outbounds[id].(enabled := enabled)))
  }

  function AfterAddRule(isArray: string -> bool, t: Tables, rule: RuleRow): Checked<Tables> {
    var c := CheckAddRule(isArray, t, rule);
    if c.Invalid? then Invalid(c.code) else Valid(WithRule(t, c.row))
  }

  function AfterUpdateRule(isArray: string -> bool, t: Tables, rule: RuleRow): Checked<Tables> {
    var c := CheckUpdateRule(isArray, t, rule);
    if c.Invalid? then Invalid(c.code) else Valid(WithRule(t, c.row))
  }

  function AfterDeleteRule(t: Tables, id: int): Checked<Tables> {
    if id !in t.rules then Invalid("ROUTING_RULE_NOT_FOUND")
    else if t.rules[id].isSystem then Invalid("ROUTING_RULE_SYSTEM_DELETE_FORBIDDEN")
    else Valid(t.(rules := t.rules - {id}))
  }

  function AfterToggleRule(t: Tables, id: int, enabled: bool): Checked<Tables> {
    if id !in t.rules then Invalid("ROUTING_RULE_NOT_FOUND")
    else if !enabled && t.rules[id].isSystem then Invalid("ROUTING_RULE_SYSTEM_DISABLE_FORBIDDEN")
    else Valid(WithRule(t, t.rules[id].(enabled := enabled)))
  }

  function AfterTemplate(t: Tables, outboundTag: string, sortBase: int, prefix: string,
                         specs: seq<Spec>): Checked<Tables> {
    if Trim(outboundTag) == "" then Invalid("ROUTING_RULE_OUTBOUND_TAG_REQUIRED")
    else if !HasTag(t, Trim(outboundTag)) then Invalid("ROUTING_RULE_OUTBOUND_TAG_NOT_FOUND")
    else
      Valid(Fill(t, Candidates(specs, Trim(outboundTag), if sortBase == 0 then 100 else sortBase,
                               if Trim(prefix) == "" then "AI" else Trim(prefix))))
  }

  class Store {
    var tables: Tables
    const isObject: string -> bool
    const isArray: string -> bool
    /** The ids of the system rows. */
    ghost const direct: int
    ghost const blocked: int

    ghost predicate Valid()
      reads this
    {
      TablesOk(tables, direct, blocked)
    }

    /** `initOutbound`, on whatever tables there are. */
    constructor (t: Tables, isObject: string -> bool, isArray: string -> bool)
      requires TagsDistinct(t) && IdsOk(t)
      ensures Valid() && this.isObject == isObject && this.isArray == isArray
      ensures tables.rules == t.rules && (RefsOk(t) ==> RefsOk(tables))
      ensures forall i :: i in t.outbounds ==> i in tables.outbounds
      ensures forall i :: i in t.outbounds ==>
        tables.outbounds[i] == t.outbounds[i].(isSystem := t.outbounds[i].isSystem || i == direct || i == blocked)
      ensures tables.outbounds.Keys == t.outbounds.Keys + {direct, blocked}
      ensures direct !in t.outbounds ==>
        tables.outbounds[direct]
        == OutboundRow(direct, "direct", "freedom", "{}", "", "", true, "System Direct", 1000, true)
      ensures blocked !in t.outbounds ==>
        tables.outbounds[blocked]
        == OutboundRow(blocked, "blocked", "blackhole", "{}", "", "", true, "System Block", 10, true)
      ensures SystemOn(tables, direct, blocked) <==>
                (direct in t.outbounds ==> t.outbounds[direct].enabled)
                    && (blocked in t.outbounds ==> t.outbounds[blocked].enabled)
    {
      var d, tx := EnsureSystem(t,
                                OutboundRow(0, "direct", "freedom", "{}", "", "", true, "System Direct", 1000, true));
      var b;
      b, tx := EnsureSystem(tx, OutboundRow(0, "blocked", "blackhole", "{}", "", "", true, "System Block", 10, true));
      tables := tx;
      direct, blocked := d, b;
      this.isObject, this.isArray := isObject, isArray;
    }

    /**
     * One system outbound: created if its tag is not there, and marked if it is. The column default has replaced the
     * sort 0 of `direct`.
     */
    static method EnsureSystem(t: Tables, ob: OutboundRow) returns (id: int, u: Tables)
      requires TagsDistinct(t) && IdsOk(t) && ob.id == 0 && ob.isSystem && ob.enabled
      ensures TagsDistinct(u) && IdsOk(u) && SystemRow(u, id, ob.tag) && u.rules == t.rules && (RefsOk(t) ==> RefsOk(u))
      ensures id in t.outbounds <==> HasTag(t, ob.tag)
      ensures u.outbounds[id] == if id in t.outbounds then t.outbounds[id].(isSystem := true) else ob.(id := id)
      ensures u.outbounds.Keys == t.outbounds.Keys + {id}
      ensures forall i :: i in t.outbounds && i != id ==> u.outbounds[i] == t.outbounds[i]
    {
      if HasTag(t, ob.tag) {
        id :| id in t.outbounds && t.outbounds[id].tag == ob.tag;
        u := t.(outbounds := t.outbounds[id := t.outbounds[id].(isSystem := true)]);
      } else {
        id := t.nextOutbound;
        u := WithOutbound(t, ob.(id := id));
      }
      SameTags(t, u);
    }

    /** `commitManagedChange`: an error of the last step comes after the commit. */
    method Commit(tx: Tables, env: Env) returns (r: Result)
      modifies this`tables
      ensures r == Outcome(env) && tables == if Commits(env) then tx else old(tables)
      ensures env.managed && !env.testOk ==> r.Failed? && tables == old(tables)
      ensures env.managed && env.testOk ==>
        tables == tx && (r == Applied(true) <==> env.applyOk) && (r.Failed? <==> !env.applyOk)
      ensures !env.managed ==> r == Applied(false) && tables == tx
    {
      if env.managed && !env.testOk {
        return Failed("TEST");
      }
      tables := tx;
      if !env.managed {
        return Applied(false);
      }
      if !env.applyOk {
        return Failed("APPLY");
      }
      r := Applied(true);
    }

    /** An outbound always starts enabled, and no reference can break. */
    method AddOutbound(ob: OutboundRow, env: Env) returns (r: Result)
      requires Valid()
      modifies this`tables
      ensures Valid() && (old(RefsOk(tables)) ==> RefsOk(tables))
      ensures Done(AfterAdd(isObject, old(tables), ob), env, old(tables), tables, r)
    {
      var v := ValidateOutbound(isObject, ob);
      if v.Invalid? {
        return Failed(v.code);
      }
      if Reserved(v.row.tag) {
        return Failed("OUTBOUND_TAG_RESERVED");
      }
      if v.row.isSystem {
        return Failed("OUTBOUND_IS_SYSTEM_FORBIDDEN");
      }
      var tx := tables;
      if TakenByOther(tx, v.row.tag, 0) {
        return Failed("OUTBOUND_TAG_DUPLICATE");
      }
      if v.row.id in tx.outbounds {
        return Failed("ID_TAKEN");
      }
      var row := Stored(tx, v.row);
      AddKeeps(tx, row, direct, blocked);
      tx := WithOutbound(tx, row);
      r := Commit(tx, env);
    }

    /** References break exactly if a referenced tag is changed, which is not checked. */
    method UpdateOutbound(ob: OutboundRow, env: Env) returns (r: Result)
      requires Valid()
      modifies this`tables
      ensures Valid()
      ensures Done(AfterUpdate(isObject, old(tables), ob), env, old(tables), tables, r)
      ensures old(RefsOk(tables)) && tables != old(tables) ==>
        && ob.id in old(tables.outbounds) && ob.id in tables.outbounds
        && (RefsOk(tables) <==>
              || tables.outbounds[ob.id].tag == old(tables.outbounds[ob.id].tag)
              || !Referenced(old(tables), old(tables.outbounds[ob.id].tag)))
    {
      if ob.id <= 0 {
        return Failed("OUTBOUND_NOT_FOUND");
      }
      var tx := tables;
      if ob.id !in tx.outbounds {
        return Failed("OUTBOUND_NOT_FOUND");
      }
      var current := tx.outbounds[ob.id];
      if current.isSystem {
        if AsksTooMuch(current, ob) {
          return Failed("OUTBOUND_SYSTEM_UPDATE_RESTRICTED");
        }
        current := current.(remark := Trim(ob.remark));
        if |current.remark| > 255 {
          return Failed("OUTBOUND_REMARK_TOO_LONG");
        }
        if ob.sort != 0 || current.sort == 0 {
          current := current.(sort := ob.sort);
        }
        RewriteKeeps(tx, current, direct, blocked);
        r := Commit(WithOutbound(tx, current), env);
        return;
      }
      if ob.isSystem {
        return Failed("OUTBOUND_IS_SYSTEM_FORBIDDEN");
      }
      var v := ValidateOutbound(isObject, ob);
      if v.Invalid? {
        return Failed(v.code);
      }
      if Reserved(v.row.tag) {
        return Failed("OUTBOUND_TAG_RESERVED");
      }
      if TakenByOther(tx, v.row.tag, ob.id) {
        return Failed("OUTBOUND_TAG_DUPLICATE");
      }
      RewriteKeeps(tx, v.row, direct, blocked);
      r := Commit(WithOutbound(tx, v.row), env);
    }

    method DeleteOutbound(id: int, env: Env) returns (r: Result)
      requires Valid()
      modifies this`tables
      ensures Valid() && (old(RefsOk(tables)) ==> RefsOk(tables))
      ensures Done(AfterDelete(old(tables), id), env, old(tables), tables, r)
    {
      var tx := tables;
      if id !in tx.outbounds {
        return Failed("OUTBOUND_NOT_FOUND");
      }
      var row := tx.outbounds[id];
      if row.isSystem || Reserved(row.tag) {
        return Failed("OUTBOUND_SYSTEM_DELETE_FORBIDDEN");
      }
      if Referenced(tx, row.tag) {
        return Failed("OUTBOUND_IN_USE");
      }
      DeleteKeeps(tx, id, direct, blocked);
      tx := tx.(outbounds := tx.outbounds - {id});
      r := Commit(tx, env);
    }

    method ToggleOutbound(id: int, enabled: bool, env: Env) returns (r: Result)
      requires Valid()
      modifies this`tables
      ensures Valid() && (old(RefsOk(tables)) ==> RefsOk(tables))
      ensures Done(AfterToggle(old(tables), id, enabled), env, old(tables), tables, r)
    {
      var tx := tables;
      if id !in tx.outbounds {
        return Failed("OUTBOUND_NOT_FOUND");
      }
      var row := tx.outbounds[id];
      if !enabled && (row.isSystem || Reserved(row.tag)) {
        return Failed("OUTBOUND_SYSTEM_DISABLE_FORBIDDEN");
      }
      RewriteKeeps(tx, row.(enabled := enabled), direct, blocked);
      r := Commit(WithOutbound(tx, row.(enabled := enabled)), env);
    }

    method AddRule(rule: RuleRow, env: Env) returns (r: Result)
      requires Valid()
      modifies this`tables
      ensures Valid() && (old(RefsOk(tables)) ==> RefsOk(tables))
      ensures Done(AfterAddRule(isArray, old(tables), rule), env, old(tables), tables, r)
    {
      if rule.isSystem {
        return Failed("ROUTING_RULE_IS_SYSTEM_FORBIDDEN");
      }
      var v := ValidateRule(isArray, tables, rule);
      if v.Invalid? {
        return Failed(v.code);
      }
      var tx := tables;
      if v.row.id in tx.rules {
        return Failed("ID_TAKEN");
      }
      var row := StoredRule(tx, v.row);
      RuleKeeps(tx, row, direct, blocked);
      tx := WithRule(tx, row);
      r := Commit(tx, env);
    }

    method UpdateRule(rule: RuleRow, env: Env) returns (r: Result)
      requires Valid()
      modifies this`tables
      ensures Valid() && (old(RefsOk(tables)) ==> RefsOk(tables))
      ensures Done(AfterUpdateRule(isArray, old(tables), rule), env, old(tables), tables, r)
    {
      if rule.id <= 0 {
        return Failed("ROUTING_RULE_NOT_FOUND");
      }
      var tx := tables;
      if rule.id !in tx.rules {
        return Failed("ROUTING_RULE_NOT_FOUND");
      }
      var current := tx.rules[rule.id];
      if current.isSystem {
        if RuleAsksTooMuch(current, rule) {
          return Failed("ROUTING_RULE_SYSTEM_UPDATE_RESTRICTED");
        }
        current := current.(remark := Trim(rule.remark));
        if |current.remark| > 255 {
          return Failed("ROUTING_RULE_REMARK_TOO_LONG");
        }
        if rule.sort != 0 || current.sort == 0 {
          current := current.(sort := rule.sort);
        }
        RuleKeeps(tx, current, direct, blocked);
        r := Commit(WithRule(tx, current), env);
        return;
      }
      if rule.isSystem {
        return Failed("ROUTING_RULE_IS_SYSTEM_FORBIDDEN");
      }
      var v := ValidateRule(isArray, tables, rule);
      if v.Invalid? {
        return Failed(v.code);
      }
      RuleKeeps(tx, v.row, direct, blocked);
      r := Commit(WithRule(tx, v.row), env);
    }

    method DeleteRule(id: int, env: Env) returns (r: Result)
      requires Valid()
      modifies this`tables
      ensures Valid() && (old(RefsOk(tables)) ==> RefsOk(tables))
      ensures Done(AfterDeleteRule(old(tables), id), env, old(tables), tables, r)
    {
      var tx := tables;
      if id !in tx.rules {
        return Failed("ROUTING_RULE_NOT_FOUND");
      }
      if tx.rules[id].isSystem {
        return Failed("ROUTING_RULE_SYSTEM_DELETE_FORBIDDEN");
      }
      RuleDeleteKeeps(tx, id, direct, blocked);
      tx := tx.(rules := tx.rules - {id});
      r := Commit(tx, env);
    }

    method ToggleRule(id: int, enabled: bool, env: Env) returns (r: Result)
      requires Valid()
      modifies this`tables
      ensures Valid() && (old(RefsOk(tables)) ==> RefsOk(tables))
      ensures Done(AfterToggleRule(old(tables), id, enabled), env, old(tables), tables, r)
    {
      var tx := tables;
      if id !in tx.rules {
        return Failed("ROUTING_RULE_NOT_FOUND");
      }
      var rule := tx.rules[id];
      if !enabled && rule.isSystem {
        return Failed("ROUTING_RULE_SYSTEM_DISABLE_FORBIDDEN");
      }
      RuleKeeps(tx, rule.(enabled := enabled), direct, blocked);
      r := Commit(WithRule(tx, rule.(enabled := enabled)), env);
    }

    /** All the moves or none; without moves nothing is applied either. */
    method ReorderRules(moves: seq<Move>, env: Env) returns (r: Result)
      requires Valid()
      modifies this`tables
      ensures Valid() && (old(RefsOk(tables)) ==> RefsOk(tables))
      ensures moves == [] ==> r == Applied(false) && tables == old(tables)
      ensures moves != [] ==> Done(Reorder(old(tables), moves), env, old(tables), tables, r)
    {
      if moves == [] {
        return Applied(false);
      }
      var tx := tables;
      var k := 0;
      assert moves[0..] == moves;
      while k < |moves|
        invariant 0 <= k <= |moves| && tables == old(tables)
        invariant TablesOk(tx, direct, blocked) && (RefsOk(tables) ==> RefsOk(tx))
        invariant Reorder(tx, moves[k..]) == Reorder(tables, moves)
      {
        assert moves[k..][1..] == moves[k + 1..];
        if moves[k].id !in tx.rules {
          return Failed("ROUTING_RULE_NOT_FOUND");
        }
        var rule := tx.rules[moves[k].id];
        rule := rule.(sort := if moves[k].sort == 0 then 1000 else moves[k].sort);
        RuleKeeps(tx, rule, direct, blocked);
        tx := tx.(rules := tx.rules[moves[k].id := rule]);
        k := k + 1;
      }
      r := Commit(tx, env);
    }

    /** The loop of `ApplyAITemplate`. */
    static method FillRules(t: Tables, candidates: seq<RuleRow>) returns (created: nat, skipped: nat, tx: Tables)
      requires IdsOk(t) && forall j :: 0 <= j < |candidates| ==> candidates[j].id == 0
      ensures tx == Fill(t, candidates) && created + skipped == |candidates| && |tx.rules| == |t.rules| + created
    {
      created, skipped, tx := 0, 0, t;
      var fingerprints := set i | i in t.rules :: Fingerprint(t.rules[i]);
      var k := 0;
      while k < |candidates|
        invariant 0 <= k <= |candidates| && tx == Fill(t, candidates[..k]) && IdsOk(tx)
        invariant forall f :: f in fingerprints <==> Known(tx, f)
        invariant created + skipped == k && |tx.rules| == |t.rules| + created
      {
        var candidate := candidates[k];
        assert candidates[..k + 1][..k] == candidates[..k];
        var fp := Fingerprint(candidate);
        if fp in fingerprints {
          skipped := skipped + 1;
        } else {
          CreateRule(tx, candidate);
          tx := WithRule(tx, StoredRule(tx, candidate));
          fingerprints := fingerprints + {fp};
          created := created + 1;
        }
        k := k + 1;
      }
      assert candidates[..k] == candidates;
    }

    /** Every candidate is either created or skipped because a rule like it is there. */
    method ApplyAITemplate(outboundTag: string, sortBase: int, prefix: string, specs: seq<Spec>, env: Env)
      returns (created: nat, skipped: nat, r: Result)
      requires Valid()
      modifies this`tables
      ensures Valid() && (old(RefsOk(tables)) ==> RefsOk(tables))
      ensures Done(AfterTemplate(old(tables), outboundTag, sortBase, prefix, specs), env, old(tables), tables, r)
      ensures r.Applied? ==> created + skipped == |specs| && |tables.rules| == |old(tables).rules| + created
      ensures r.Failed? ==> created == skipped == 0
    {
      created, skipped := 0, 0;
      var tag := Trim(outboundTag);
      if tag == "" {
        return 0, 0, Failed("ROUTING_RULE_OUTBOUND_TAG_REQUIRED");
      }
      var tx := tables;
      if !HasTag(tx, tag) {
        return 0, 0, Failed("ROUTING_RULE_OUTBOUND_TAG_NOT_FOUND");
      }
      var candidates := Candidates(specs, tag, if sortBase == 0 then 100 else sortBase,
                                   if Trim(prefix) == "" then "AI" else Trim(prefix));
      FillKeeps(tx, candidates, direct, blocked);
      created, skipped, tx := FillRules(tx, candidates);
      r := Commit(tx, env);
      if r.Failed? {
        created, skipped := 0, 0;
      }
    }
  }

  lemma CreateRule(t: Tables, c: RuleRow)
    requires IdsOk(t) && c.id == 0
    ensures var u := WithRule(t, StoredRule(t, c));
      && IdsOk(u) && |u.rules| == |t.rules| + 1 && forall f :: Known(u, f) <==> Known(t, f) || f == Fingerprint(c)
  {
    var row := StoredRule(t, c);
    var u := WithRule(t, row);
    assert Fingerprint(row) == Fingerprint(c);
    forall f
      ensures Known(u, f) <==> Known(t, f) || f == Fingerprint(c)
    {
      if Known(t, f) {
        var i :| i in t.rules && Fingerprint(t.rules[i]) == f;
        assert i in u.rules && u.rules[i] == t.rules[i];
      }
      if f == Fingerprint(c) {
        assert row.id in u.rules && Fingerprint(u.rules[row.id]) == f;
      }
    }
  }
}
