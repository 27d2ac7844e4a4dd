/** Whole runs of changes. */
module ManagedRuns {
  import opened ManagedRows
  import opened ManagedTables
  import opened ManagedService

  datatype Call =
    | AddOutbound(ob: OutboundRow)
    | UpdateOutbound(ob: OutboundRow)
    | DeleteOutbound(id: int)
    | ToggleOutbound(id: int, enabled: bool)
    | AddRule(rule: RuleRow)
    | UpdateRule(rule: RuleRow)
    | DeleteRule(id: int)
    | ToggleRule(id: int, enabled: bool)
    | ReorderRules(moves: seq<Move>)
    | ApplyAITemplate(outboundTag: string, sortBase: int, prefix: string, specs: seq<Spec>)

  // ----- runs on values -----

  /** What a call makes of the tables, if its checks pass. */
  function Attempt(isObject: string -> bool, isArray: string -> bool, t: Tables, c: Call): Checked<Tables> {
    match c
    case AddOutbound(ob) => AfterAdd(isObject, t, ob)
    case UpdateOutbound(ob) => AfterUpdate(isObject, t, ob)
    case DeleteOutbound(id) => AfterDelete(t, id)
    case ToggleOutbound(id, enabled) => AfterToggle(t, id, enabled)
    case AddRule(rule) => AfterAddRule(isArray, t, rule)
    case UpdateRule(rule) => AfterUpdateRule(isArray, t, rule)
    case DeleteRule(id) => AfterDeleteRule(t, id)
    case ToggleRule(id, enabled) => AfterToggleRule(t, id, enabled)
    case ReorderRules(moves) => Reorder(t, moves)
    case ApplyAITemplate(outboundTag, sortBase, prefix, specs) => AfterTemplate(t, outboundTag, sortBase, prefix, specs)
  }

  function AfterCall(isObject: string -> bool, isArray: string -> bool, t: Tables, c: Call, env: Env): Tables {
    var r := Attempt(isObject, isArray, t, c);
    if r.Valid? && Commits(env) then r.row else t
  }

  function AfterCalls(isObject: string -> bool, isArray: string -> bool, t: Tables, calls: seq<(Call, Env)>): Tables {
    if calls == [] then t
    else
      var last := |calls| - 1;
      AfterCall(isObject, isArray, AfterCalls(isObject, isArray, t, calls[..last]), calls[last].0, calls[last].1)
  }

  /** An update that goes through and changes the tag of an outbound that rules name. */
  predicate BreaksRefs(isObject: string -> bool, t: Tables, c: Call, env: Env) {
    && c.UpdateOutbound? && Commits(env) && CheckUpdate(isObject, t, c.ob).Valid?
    && CheckUpdate(isObject, t, c.ob).row.tag != t.outbounds[c.ob.id].tag
    && Referenced(t, t.outbounds[c.ob.id].tag)
  }

  /** From `t` to `u`: the tables stay in order and the system rows enabled; references break as said. */
  predicate Keeps(t: Tables, u: Tables, breaks: bool, direct: int, blocked: int)
    requires TablesOk(t, direct, blocked)
  {
    && TablesOk(u, direct, blocked) && (SystemOn(t, direct, blocked) ==> SystemOn(u, direct, blocked))
    && (RefsOk(t) ==> (RefsOk(u) <==> !breaks))
  }

  lemma OutboundCallKeeps(isObject: string -> bool, isArray: string -> bool, t: Tables, c: Call, env: Env,
                          direct: int, blocked: int)
    requires TablesOk(t, direct, blocked) && Attempt(isObject, isArray, t, c).Valid? && Commits(env)
    requires c.AddOutbound? || c.UpdateOutbound? || c.DeleteOutbound? || c.ToggleOutbound?
    ensures Keeps(t, Attempt(isObject, isArray, t, c).row, BreaksRefs(isObject, t, c, env), direct, blocked)
  {
    match c
    case AddOutbound(ob) => AddKeeps(t, CheckAdd(isObject, t, ob).row, direct, blocked);
    case UpdateOutbound(ob) => UpdateKeeps(isObject, t, ob, direct, blocked);
    case DeleteOutbound(id) => DeleteKeeps(t, id, direct, blocked);
    case ToggleOutbound(id, enabled) => RewriteKeeps(t, t.outbounds[id].(enabled := enabled), direct, blocked);
  }

  lemma RuleCallKeeps(isObject: string -> bool, isArray: string -> bool, t: Tables, c: Call, direct: int, blocked: int)
    requires TablesOk(t, direct, blocked) && Attempt(isObject, isArray, t, c).Valid?
    requires !(c.AddOutbound? || c.UpdateOutbound? || c.DeleteOutbound? || c.ToggleOutbound?)
    ensures Keeps(t, Attempt(isObject, isArray, t, c).row, false, direct, blocked)
  {
    match c
    case AddRule(rule) => RuleKeeps(t, CheckAddRule(isArray, t, rule).row, direct, blocked);
    case UpdateRule(rule) => RuleKeeps(t, CheckUpdateRule(isArray, t, rule).row, direct, blocked);
    case DeleteRule(id) => RuleDeleteKeeps(t, id, direct, blocked);
    case ToggleRule(id, enabled) => RuleKeeps(t, t.rules[id].(enabled := enabled), direct, blocked);
    case ReorderRules(moves) => ReorderKeeps(t, moves, direct, blocked);
    case ApplyAITemplate(_, _, _, _) => TemplateCallKeeps(isObject, isArray, t, c, direct, blocked);
  }

  lemma TemplateCallKeeps(isObject: string -> bool, isArray: string -> bool, t: Tables, c: Call, direct: int,
                          blocked: int)
    requires TablesOk(t, direct, blocked) && Attempt(isObject, isArray, t, c).Valid? && c.ApplyAITemplate?
    ensures Keeps(t, Attempt(isObject, isArray, t, c).row, false, direct, blocked)
  {
    FillKeeps(t, Candidates(c.specs, Trim(c.outboundTag), if c.sortBase == 0 then 100 else c.sortBase,
                            if Trim(c.prefix) == "" then "AI" else Trim(c.prefix)), direct, blocked);
  }

  /** Every call keeps the tables in order and the system rows enabled, and breaks references exactly as said. */
  lemma CallKeeps(isObject: string -> bool, isArray: string -> bool, t: Tables, c: Call, env: Env, direct: int,
                  blocked: int)
    requires TablesOk(t, direct, blocked)
    ensures Keeps(t, AfterCall(isObject, isArray, t, c, env), BreaksRefs(isObject, t, c, env), direct, blocked)
  {
    if Attempt(isObject, isArray, t, c).Valid? && Commits(env) {
      if c.AddOutbound? || c.UpdateOutbound? || c.DeleteOutbound? || c.ToggleOutbound? {
        OutboundCallKeeps(isObject, isArray, t, c, env, direct, blocked);
      } else {
        RuleCallKeeps(isObject, isArray, t, c, direct, blocked);
      }
    }
  }

  lemma UpdateKeeps(isObject: string -> bool, t: Tables, ob: OutboundRow, direct: int, blocked: int)
    requires TablesOk(t, direct, blocked) && CheckUpdate(isObject, t, ob).Valid?
    ensures var row := CheckUpdate(isObject, t, ob).row;
      var u := WithOutbound(t, row);
      && row.id == ob.id && TablesOk(u, direct, blocked)
      && (SystemOn(t, direct, blocked) ==> SystemOn(u, direct, blocked))
      && (RefsOk(t) ==> (RefsOk(u) <==> row.tag == t.outbounds[ob.id].tag || !Referenced(t, t.outbounds[ob.id].tag)))
  {
    RewriteKeeps(t, CheckUpdate(isObject, t, ob).row, direct, blocked);
  }

  /** The tables that a run passes through, from its start to its end. */
  predicate RefsAlways(isObject: string -> bool, isArray: string -> bool, t: Tables, calls: seq<(Call, Env)>) {
    forall k :: 0 <= k <= |calls| ==> RefsOk(AfterCalls(isObject, isArray, t, calls[..k]))
  }

  predicate NeverBreaks(isObject: string -> bool, isArray: string -> bool, t: Tables, calls: seq<(Call, Env)>) {
    forall k :: 0 <= k < |calls| ==>
      !BreaksRefs(isObject, AfterCalls(isObject, isArray, t, calls[..k]), calls[k].0, calls[k].1)
  }

  lemma {:induction false} RunKeeps(isObject: string -> bool, isArray: string -> bool, t: Tables,
                                    calls: seq<(Call, Env)>, direct: int, blocked: int)
    requires TablesOk(t, direct, blocked)
    ensures var u := AfterCalls(isObject, isArray, t, calls);
      TablesOk(u, direct, blocked) && (SystemOn(t, direct, blocked) ==> SystemOn(u, direct, blocked))
  {
    if calls != [] {
      var last := |calls| - 1;
      RunKeeps(isObject, isArray, t, calls[..last], direct, blocked);
      CallKeeps(isObject, isArray, AfterCalls(isObject, isArray, t, calls[..last]), calls[last].0, calls[last].1,
                direct, blocked);
    }
  }

  lemma RunStep(isObject: string -> bool, isArray: string -> bool, t: Tables, calls: seq<(Call, Env)>, k: nat,
                direct: int, blocked: int)
    requires TablesOk(t, direct, blocked) && k < |calls|
    ensures var u, v := AfterCalls(isObject, isArray, t, calls[..k]), AfterCalls(isObject, isArray, t, calls[..k + 1]);
      RefsOk(u) ==> (RefsOk(v) <==> !BreaksRefs(isObject, u, calls[k].0, calls[k].1))
  {
    RunKeeps(isObject, isArray, t, calls[..k], direct, blocked);
    assert calls[..k + 1][..k] == calls[..k];
    CallKeeps(isObject, isArray, AfterCalls(isObject, isArray, t, calls[..k]), calls[k].0, calls[k].1, direct, blocked);
  }

  lemma {:induction false} RefsUpTo(isObject: string -> bool, isArray: string -> bool, t: Tables,
                                    calls: seq<(Call, Env)>, k: nat, direct: int, blocked: int)
    requires TablesOk(t, direct, blocked) && RefsOk(t) && k <= |calls| && NeverBreaks(isObject, isArray, t, calls)
    ensures RefsOk(AfterCalls(isObject, isArray, t, calls[..k]))
  {
    if k > 0 {
      RefsUpTo(isObject, isArray, t, calls, k - 1, direct, blocked);
      RunStep(isObject, isArray, t, calls, k - 1, direct, blocked);
    }
  }

  /** Throughout a run every rule names an outbound if and only if no update changes a tag that rules name. */
  lemma {:induction false} RefsExact(isObject: string -> bool, isArray: string -> bool, t: Tables,
                                     calls: seq<(Call, Env)>, direct: int, blocked: int)
    requires TablesOk(t, direct, blocked) && RefsOk(t)
    ensures RefsAlways(isObject, isArray, t, calls) <==> NeverBreaks(isObject, isArray, t, calls)
  {
    if NeverBreaks(isObject, isArray, t, calls) {
      forall k | 0 <= k <= |calls|
        ensures RefsOk(AfterCalls(isObject, isArray, t, calls[..k]))
      {
        RefsUpTo(isObject, isArray, t, calls, k, direct, blocked);
      }
    }
    if RefsAlways(isObject, isArray, t, calls) {
      forall k | 0 <= k < |calls|
        ensures !BreaksRefs(isObject, AfterCalls(isObject, isArray, t, calls[..k]), calls[k].0, calls[k].1)
      {
        RunStep(isObject, isArray, t, calls, k, direct, blocked);
        assert RefsOk(AfterCalls(isObject, isArray, t, calls[..k + 1]));
      }
    }
  }

  // ----- runs of the services -----

  method Perform(s: Store, c: Call, env: Env)
    requires s.Valid()
    modifies s`tables
    ensures s.Valid() && s.tables == AfterCall(s.isObject, s.isArray, old(s.tables), c, env)
  {
    match c
    case AddOutbound(ob) => var _ := s.AddOutbound(ob, env);
    case UpdateOutbound(ob) => var _ := s.UpdateOutbound(ob, env);
    case DeleteOutbound(id) => var _ := s.DeleteOutbound(id, env);
    case ToggleOutbound(id, enabled) => var _ := s.ToggleOutbound(id, enabled, env);
    case _ => PerformOnRules(s, c, env);
  }

  method PerformOnRules(s: Store, c: Call, env: Env)
    requires s.Valid() && !(c.AddOutbound? || c.UpdateOutbound? || c.DeleteOutbound? || c.ToggleOutbound?)
    modifies s`tables
    ensures s.Valid() && s.tables == AfterCall(s.isObject, s.isArray, old(s.tables), c, env)
  {
    match c
    case AddRule(rule) => var _ := s.AddRule(rule, env);
    case UpdateRule(rule) => var _ := s.UpdateRule(rule, env);
    case DeleteRule(id) => var _ := s.DeleteRule(id, env);
    case ToggleRule(id, enabled) => var _ := s.ToggleRule(id, enabled, env);
    case ReorderRules(moves) => var _ := s.ReorderRules(moves, env);
    case ApplyAITemplate(outboundTag, sortBase, prefix, specs) =>
      var _, _, _ := s.ApplyAITemplate(outboundTag, sortBase, prefix, specs, env);
  }

  /**
   * Any run of changes leaves the tables that the calls say. Tags stay distinct, the same two system rows stay in place
   * and, if they were, enabled; and every rule names an outbound all along if and only if no update changes a tag that
   * rules name.
   */
  method Run(s: Store, calls: seq<(Call, Env)>)
    requires s.Valid()
    modifies s`tables
    ensures s.tables == AfterCalls(s.isObject, s.isArray, old(s.tables), calls)
    ensures TablesOk(s.tables, s.direct, s.blocked)
    ensures old(SystemOn(s.tables, s.direct, s.blocked)) ==> SystemOn(s.tables, s.direct, s.blocked)
    ensures old(RefsOk(s.tables)) ==>
              (RefsAlways(s.isObject, s.isArray, old(s.tables), calls)
               <==> NeverBreaks(s.isObject, s.isArray, old(s.tables), calls))
    ensures old(RefsOk(s.tables)) && NeverBreaks(s.isObject, s.isArray, old(s.tables), calls) ==> RefsOk(s.tables)
  {
    ghost var t := s.tables;
    for k := 0 to |calls|
      invariant s.Valid() && s.tables == AfterCalls(s.isObject, s.isArray, t, calls[..k])
    {
      Perform(s, calls[k].0, calls[k].1);
      assert calls[..k + 1][..k] == calls[..k];
    }
    assert calls[..|calls|] == calls;
    RunKeeps(s.isObject, s.isArray, t, calls, s.direct, s.blocked);
    if RefsOk(t) {
      RefsExact(s.isObject, s.isArray, t, calls, s.direct, s.blocked);
    }
  }
}
