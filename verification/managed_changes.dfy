/** What an accepted change comes to: its conditions, and its effect on decisions and outbounds, by the columns. */
module ManagedChanges {
  import opened Common
  import opened ManagedRows
  import opened ManagedConfig
  import opened ManagedOutbounds
  import opened ManagedTables
  import opened ManagedService

  // ----- columns that have been trimmed -----

  lemma TrimTwice(s: string)
    ensures Trim(Trim(s)) == Trim(s) && (Blank(Trim(s)) <==> Blank(s))
  {
    var front, back := TrimExact(s);
    var u := Trim(s);
    BlankIsEmpty(s);
    BlankIsEmpty(u);
    if u != "" {
      assert [u[0]][0] == u[0] && [u[|u| - 1]][0] == u[|u| - 1];
      assert !IsSpace(u[0]) && !IsSpace(u[|u| - 1]);
    }
  }

  /** What a row takes when it is enabled. */
  predicate Takes(decode: string -> Option<seq<string>>, row: RuleRow, c: Connection) {
    RowApplies(decode, row.(enabled := true), c)
  }

  /** The columns of `row` that decide are those of `asked`, up to blank ends. */
  predicate AsksAs(row: RuleRow, asked: RuleRow) {
    && row.domain == Trim(asked.domain) && row.ip == Trim(asked.ip) && row.port == Trim(asked.port)
    && row.protocol == Trim(asked.protocol) && row.network == Trim(asked.network) && row.source == Trim(asked.source)
    && row.inboundTag == Trim(asked.inboundTag)
  }

  lemma TakesAsAsked(decode: string -> Option<seq<string>>, row: RuleRow, asked: RuleRow, c: Connection)
    requires AsksAs(row, asked)
    ensures Takes(decode, row, c) <==> Takes(decode, asked, c)
  {
    hide Trim, Blank;
    TrimTwice(asked.domain);
    TrimTwice(asked.ip);
    TrimTwice(asked.port);
    TrimTwice(asked.protocol);
    TrimTwice(asked.network);
    TrimTwice(asked.source);
    TrimTwice(asked.inboundTag);
  }

  // ----- rules -----

  /** From `t` to `u` only the row `id` of the rules may have changed. */
  ghost predicate OnlyRule(t: Tables, u: Tables, id: int) {
    && u.outbounds == t.outbounds
    && (forall i :: i != id ==> (i in u.rules <==> i in t.rules))
    && forall i :: i in t.rules && i != id ==> u.rules[i] == t.rules[i]
  }

  /** The rows that decide, when only row `id` has changed, to one that takes the connection or not. */
  lemma DecidingRow(decode: string -> Option<seq<string>>, t: Tables, u: Tables, id: int, c: Connection, takes: bool)
    requires OnlyRule(t, u, id) && (takes <==> id in u.rules && RowApplies(decode, u.rules[id], c))
    ensures Deciding(decode, u, c) == Deciding(decode, t, c) - {id} + if takes then {id} else {}
  {
    hide RowApplies;
    forall i
      ensures i in Deciding(decode, u, c) <==> i in Deciding(decode, t, c) - {id} + if takes then {id} else {}
    {
    }
  }

  /** Turning a rule on or off does that and nothing else. */
  lemma RuleToggled(decode: string -> Option<seq<string>>, t: Tables, id: int, enabled: bool, c: Connection)
    requires IdsOk(t)
    ensures var r := AfterToggleRule(t, id, enabled);
      && (r.Valid? <==> id in t.rules && (enabled || !t.rules[id].isSystem))
      && (r.Valid? ==>
            && OnlyRule(t, r.row, id) && r.row.rules[id].outboundTag == t.rules[id].outboundTag
            && r.row.rules[id].sort == t.rules[id].sort && r.row.rules[id].isSystem == t.rules[id].isSystem
            && Deciding(decode, r.row, c)
               == Deciding(decode, t, c) - {id} + if enabled && Takes(decode, t.rules[id], c) then {id} else {})
  {
    hide ColumnTakes, TextTakes;
    var r := AfterToggleRule(t, id, enabled);
    if r.Valid? {
      assert r.row.rules[id] == t.rules[id].(enabled := enabled);
      DecidingRow(decode, t, r.row, id, c, enabled && Takes(decode, t.rules[id], c));
    }
  }

  lemma RuleDeleted(decode: string -> Option<seq<string>>, t: Tables, id: int, c: Connection)
    ensures var r := AfterDeleteRule(t, id);
      && (r.Valid? <==> id in t.rules && !t.rules[id].isSystem)
      && (r.Valid? ==>
            && OnlyRule(t, r.row, id) && id !in r.row.rules
            && Deciding(decode, r.row, c) == Deciding(decode, t, c) - {id})
  {
    var r := AfterDeleteRule(t, id);
    if r.Valid? {
      DecidingRow(decode, t, r.row, id, c, false);
    }
  }

  /** What a rule must be like, whether it is new or rewritten. */
  predicate RuleFine(isArray: string -> bool, t: Tables, r: RuleRow) {
    && (Blank(r.kind) || Trim(r.kind) == "field")
    && !Blank(r.outboundTag) && HasTag(t, Trim(r.outboundTag))
    && !(Blank(r.domain) && Blank(r.ip) && Blank(r.port) && Blank(r.protocol) && Blank(r.network) && Blank(r.source)
         && Blank(r.inboundTag))
    && ListFine(isArray, r.domain) && ListFine(isArray, r.ip) && ListFine(isArray, r.protocol)
    && ListFine(isArray, r.source) && ListFine(isArray, r.inboundTag)
    && |Trim(r.remark)| <= 255
  }

  predicate ListFine(isArray: string -> bool, column: string) {
    Blank(column) || isArray(Trim(column))
  }

  /** The row that is kept of a rule. */
  predicate RuleKept(row: RuleRow, r: RuleRow) {
    && AsksAs(row, r) && row.kind == "field" && row.outboundTag == Trim(r.outboundTag) && row.enabled == r.enabled
    && row.remark == Trim(r.remark) && row.sort == (if r.sort == 0 then 1000 else r.sort) && row.isSystem == r.isSystem
  }

  lemma ValidatesExactly(isArray: string -> bool, t: Tables, r: RuleRow)
    ensures var v := ValidateRule(isArray, t, r);
      && (v.Valid? <==> RuleFine(isArray, t, r))
      && (v.Valid? ==> RuleKept(v.row, r) && v.row.id == r.id)
  {
    hide Trim, Blank, HasTag;
    BlankIsEmpty(r.kind);
    BlankIsEmpty(r.outboundTag);
    ListColumn(isArray, r.domain);
    ListColumn(isArray, r.ip);
    ListColumn(isArray, r.protocol);
    ListColumn(isArray, r.source);
    ListColumn(isArray, r.inboundTag);
    BlankIsEmpty(r.port);
    BlankIsEmpty(r.network);
  }

  lemma ListColumn(isArray: string -> bool, column: string)
    ensures IsArray(isArray, Trim(column)) <==> ListFine(isArray, column)
    ensures Blank(column) <==> Trim(column) == ""
  {
    BlankIsEmpty(column);
    TrimTwice(column);
  }

  /** A new rule takes what it asks for, under a new id. */
  lemma RuleAdded(decode: string -> Option<seq<string>>, isArray: string -> bool, t: Tables, r: RuleRow, c: Connection)
    requires IdsOk(t)
    ensures var a, id := AfterAddRule(isArray, t, r), if r.id == 0 then t.nextRule else r.id;
      && (a.Valid? <==> RuleFine(isArray, t, r) && !r.isSystem && r.id !in t.rules)
      && (a.Valid? ==>
            && id !in t.rules && OnlyRule(t, a.row, id) && id in a.row.rules && RuleKept(a.row.rules[id], r)
            && Deciding(decode, a.row, c)
               == Deciding(decode, t, c) + if r.enabled && Takes(decode, r, c) then {id} else {})
  {
    hide RuleFine, ValidateRule, Trim, ColumnTakes, TextTakes;
    var a, id := AfterAddRule(isArray, t, r), if r.id == 0 then t.nextRule else r.id;
    ValidatesExactly(isArray, t, r);
    if a.Valid? {
      TakesAsAsked(decode, a.row.rules[id], r, c);
      DecidingRow(decode, t, a.row, id, c, r.enabled && Takes(decode, r, c));
      assert id !in Deciding(decode, t, c);
    }
  }

  /** No column of a system rule may be asked to change. */
  predicate RuleLeftAlone(row: RuleRow, r: RuleRow) {
    && Leaves(row.kind, r.kind) && Leaves(row.domain, r.domain) && Leaves(row.ip, r.ip) && Leaves(row.port, r.port)
    && Leaves(row.protocol, r.protocol) && Leaves(row.network, r.network) && Leaves(row.source, r.source)
    && Leaves(row.inboundTag, r.inboundTag) && Leaves(row.outboundTag, r.outboundTag)
  }

  predicate Leaves(column: string, asked: string) {
    Blank(asked) || Trim(asked) == column
  }

  lemma LeavesMeans(column: string, asked: string)
    ensures Leaves(column, asked) <==> !Asks(column, asked)
  {
    BlankIsEmpty(asked);
  }

  /** A rewritten rule takes what it asks for; a system rule takes what it took. */
  lemma RuleUpdated(decode: string -> Option<seq<string>>, isArray: string -> bool, t: Tables, r: RuleRow,
                    c: Connection)
    requires IdsOk(t)
    ensures var a := AfterUpdateRule(isArray, t, r);
      && (a.Valid? <==>
            && r.id > 0 && r.id in t.rules
            && (if t.rules[r.id].isSystem then RuleLeftAlone(t.rules[r.id], r) && |Trim(r.remark)| <= 255
                else !r.isSystem && RuleFine(isArray, t, r)))
      && (a.Valid? ==> OnlyRule(t, a.row, r.id) && r.id in a.row.rules)
      && (a.Valid? && !t.rules[r.id].isSystem ==>
            && RuleKept(a.row.rules[r.id], r)
            && Deciding(decode, a.row, c)
               == Deciding(decode, t, c) - {r.id} + if r.enabled && Takes(decode, r, c) then {r.id} else {})
      && (a.Valid? && t.rules[r.id].isSystem ==>
            && a.row.rules[r.id] == t.rules[r.id].(remark := Trim(r.remark),
                                                   sort := if r.sort == 0 then t.rules[r.id].sort else r.sort)
            && Deciding(decode, a.row, c) == Deciding(decode, t, c))
  {
    hide RuleFine, ValidateRule, Trim, ColumnTakes, TextTakes, Leaves, Asks;
    var a := AfterUpdateRule(isArray, t, r);
    ValidatesExactly(isArray, t, r);
    if r.id in t.rules && t.rules[r.id].isSystem {
      LeftAloneMeans(t.rules[r.id], r);
    }
    if a.Valid? && t.rules[r.id].isSystem {
      DecidingRow(decode, t, a.row, r.id, c, RowApplies(decode, t.rules[r.id], c));
    } else if a.Valid? {
      TakesAsAsked(decode, a.row.rules[r.id], r, c);
      DecidingRow(decode, t, a.row, r.id, c, r.enabled && Takes(decode, r, c));
    }
  }

  lemma LeftAloneMeans(row: RuleRow, r: RuleRow)
    ensures RuleLeftAlone(row, r) <==> !RuleAsksTooMuch(row, r)
  {
    hide Leaves, Asks;
    LeavesMeans(row.kind, r.kind);
    LeavesMeans(row.domain, r.domain);
    LeavesMeans(row.ip, r.ip);
    LeavesMeans(row.port, r.port);
    LeavesMeans(row.protocol, r.protocol);
    LeavesMeans(row.network, r.network);
    LeavesMeans(row.source, r.source);
    LeavesMeans(row.inboundTag, r.inboundTag);
    LeavesMeans(row.outboundTag, r.outboundTag);
  }

  // ----- reordering and the template -----

  /** The last of the moves for this rule. */
  predicate LastMove(moves: seq<Move>, k: int, id: int) {
    0 <= k < |moves| && moves[k].id == id && forall j :: k < j < |moves| ==> moves[j].id != id
  }

  lemma {:induction false} LastSortIs(moves: seq<Move>, id: int, otherwise: int)
    ensures forall k :: LastMove(moves, k, id) ==>
      LastSort(moves, id, otherwise) == if moves[k].sort == 0 then 1000 else moves[k].sort
    ensures (forall k :: 0 <= k < |moves| ==> moves[k].id != id) ==> LastSort(moves, id, otherwise) == otherwise
  {
    if moves != [] && moves[|moves| - 1].id != id {
      var front := moves[..|moves| - 1];
      LastSortIs(front, id, otherwise);
      forall k | LastMove(moves, k, id)
        ensures LastSort(moves, id, otherwise) == if moves[k].sort == 0 then 1000 else moves[k].sort
      {
        assert front[k] == moves[k] && LastMove(front, k, id);
      }
    }
  }

  /** A moved rule has the sort of its last move, a sort of 0 standing for 1000; and no rule takes anything else. */
  lemma RulesReordered(decode: string -> Option<seq<string>>, t: Tables, moves: seq<Move>, c: Connection)
    requires Reorder(t, moves).Valid?
    ensures var u := Reorder(t, moves).row;
      && u.outbounds == t.outbounds && u.rules.Keys == t.rules.Keys
      && (forall i :: i in t.rules ==> u.rules[i] == t.rules[i].(sort := u.rules[i].sort))
      && (forall i, k :: i in t.rules && LastMove(moves, k, i) ==>
            u.rules[i].sort == if moves[k].sort == 0 then 1000 else moves[k].sort)
      && (forall i :: i in t.rules && (forall k :: 0 <= k < |moves| ==> moves[k].id != i) ==>
            u.rules[i].sort == t.rules[i].sort)
      && Deciding(decode, u, c) == Deciding(decode, t, c)
  {
    hide Reorder, LastSort, ColumnTakes, TextTakes;
    var u := Reorder(t, moves).row;
    ReorderOnlySorts(t, moves, 0);
    forall i | i in t.rules
      ensures u.rules[i] == t.rules[i].(sort := LastSort(moves, i, t.rules[i].sort))
      ensures RowApplies(decode, u.rules[i], c) <==> RowApplies(decode, t.rules[i], c)
    {
      ReorderOnlySorts(t, moves, i);
    }
    forall i | i in t.rules
      ensures (forall k :: LastMove(moves, k, i) ==>
        u.rules[i].sort == if moves[k].sort == 0 then 1000 else moves[k].sort)
      ensures (forall k :: 0 <= k < |moves| ==> moves[k].id != i) ==> u.rules[i].sort == t.rules[i].sort
    {
      LastSortIs(moves, i, t.rules[i].sort);
    }
  }

  /** The rule that a service of the template asks for. */
  predicate FromSpec(row: RuleRow, spec: Spec, outboundTag: string, sortBase: int, prefix: string) {
    && row.kind == "field" && row.domain == spec.domain && row.outboundTag == outboundTag && row.enabled
    && row.ip == row.port == row.protocol == row.network == row.source == row.inboundTag == ""
    && row.remark == prefix + " " + spec.name && !row.isSystem
    && row.sort == if sortBase + spec.sort == 0 then 1000 else sortBase + spec.sort
  }

  /** The rows have the same eight columns, up to blank ends. */
  predicate SameRule(r: RuleRow, q: RuleRow) {
    && Trim(r.domain) == Trim(q.domain) && Trim(r.ip) == Trim(q.ip) && Trim(r.port) == Trim(q.port)
    && Trim(r.protocol) == Trim(q.protocol) && Trim(r.network) == Trim(q.network) && Trim(r.source) == Trim(q.source)
    && Trim(r.inboundTag) == Trim(q.inboundTag) && Trim(r.outboundTag) == Trim(q.outboundTag)
  }

  lemma SameFingerprint(r: RuleRow, q: RuleRow)
    requires SameRule(r, q)
    ensures Fingerprint(r) == Fingerprint(q)
  {
  }

  /** All the rules that were there stay, and any other is one that some service asks for and was not there. */
  ghost predicate FilledIn(t: Tables, u: Tables, specs: seq<Spec>, outboundTag: string, sortBase: int, prefix: string) {
    && u.outbounds == t.outbounds
    && (forall i :: i in t.rules ==> i in u.rules && u.rules[i] == t.rules[i])
    && (forall i :: i in u.rules && i !in t.rules ==> Asked(u.rules[i], specs, outboundTag, sortBase, prefix))
    && forall i, j :: i in u.rules && i !in t.rules && j in t.rules ==> !SameRule(t.rules[j], u.rules[i])
  }

  predicate Asked(row: RuleRow, specs: seq<Spec>, outboundTag: string, sortBase: int, prefix: string) {
    exists k :: 0 <= k < |specs| && FromSpec(row, specs[k], outboundTag, sortBase, prefix)
  }

  lemma {:induction false} FillFills(t: Tables, specs: seq<Spec>, outboundTag: string, sortBase: int, prefix: string,
                                     n: nat)
    requires IdsOk(t) && n <= |specs|
    ensures var u := Fill(t, Candidates(specs, outboundTag, sortBase, prefix)[..n]);
      IdsOk(u) && FilledIn(t, u, specs, outboundTag, sortBase, prefix)
  {
    if n > 0 {
      var cs := Candidates(specs, outboundTag, sortBase, prefix);
      FillFills(t, specs, outboundTag, sortBase, prefix, n - 1);
      assert cs[..n][..n - 1] == cs[..n - 1];
      FillStep(t, Fill(t, cs[..n - 1]), specs, outboundTag, sortBase, prefix, n - 1);
    } else {
      assert Candidates(specs, outboundTag, sortBase, prefix)[..0] == [];
    }
  }

  lemma FillStep(t: Tables, u: Tables, specs: seq<Spec>, outboundTag: string, sortBase: int, prefix: string, k: nat)
    requires IdsOk(u) && k < |specs| && FilledIn(t, u, specs, outboundTag, sortBase, prefix)
    ensures var v := FillOne(u, Candidate(specs[k], outboundTag, sortBase, prefix));
      IdsOk(v) && FilledIn(t, v, specs, outboundTag, sortBase, prefix)
  {
    hide Fingerprint, SameRule;
    var c := Candidate(specs[k], outboundTag, sortBase, prefix);
    var v, row := FillOne(u, c), StoredRule(u, c);
    if !Known(u, Fingerprint(c)) {
      assert FromSpec(row, specs[k], outboundTag, sortBase, prefix);
      StoredPrints(u, c);
      forall j | j in t.rules
        ensures !SameRule(t.rules[j], row)
      {
        assert j in u.rules && u.rules[j] == t.rules[j];
        assert Fingerprint(u.rules[j]) != Fingerprint(c);
        if SameRule(t.rules[j], row) {
          SameFingerprint(t.rules[j], row);
        }
      }
    }
  }

  lemma StoredPrints(t: Tables, c: RuleRow)
    ensures Fingerprint(StoredRule(t, c)) == Fingerprint(c)
  {
  }

  /** The template adds what is missing for its services, with the defaults for base and prefix, and nothing else. */
  lemma TemplateApplied(t: Tables, outboundTag: string, sortBase: int, prefix: string, specs: seq<Spec>)
    requires IdsOk(t)
    ensures var r := AfterTemplate(t, outboundTag, sortBase, prefix, specs);
      && (r.Valid? <==> !Blank(outboundTag) && HasTag(t, Trim(outboundTag)))
      && (r.Valid? ==> FilledIn(t, r.row, specs, Trim(outboundTag), if sortBase == 0 then 100 else sortBase,
                                if Blank(prefix) then "AI" else Trim(prefix)))
  {
    hide Trim, Blank, FilledIn;
    BlankIsEmpty(outboundTag);
    BlankIsEmpty(prefix);
    var base, front := if sortBase == 0 then 100 else sortBase, if Blank(prefix) then "AI" else Trim(prefix);
    var cs := Candidates(specs, Trim(outboundTag), base, front);
    FillFills(t, specs, Trim(outboundTag), base, front, |specs|);
    assert cs[..|specs|] == cs;
  }

  // ----- outbounds -----

  /** From `t` to `u` only the row `id` of the outbounds may have changed. */
  ghost predicate OnlyOutbound(t: Tables, u: Tables, id: int) {
    && u.rules == t.rules
    && (forall i :: i != id ==> (i in u.outbounds <==> i in t.outbounds))
    && forall i :: i in t.outbounds && i != id ==> u.outbounds[i] == t.outbounds[i]
  }

  predicate InAnyCase(s: string, lower: string) {
    && |s| == |lower|
    && forall i :: 0 <= i < |s| ==> s[i] == lower[i] || ('A' <= s[i] <= 'Z' && 'a' + (s[i] - 'A') == lower[i])
  }

  predicate NoCapitals(s: string) {
    forall i :: 0 <= i < |s| ==> !('A' <= s[i] <= 'Z')
  }

  lemma AnyCaseMeans(s: string, lower: string)
    requires NoCapitals(lower)
    ensures EqualFold(s, lower) <==> InAnyCase(s, lower)
  {
    assert Lower(lower) == lower;
    if InAnyCase(s, lower) {
      assert forall i :: 0 <= i < |s| ==> Lower(s)[i] == lower[i];
    }
  }

  /** What an outbound must be like, whether it is new or rewritten. */
  predicate OutboundFine(isObject: string -> bool, ob: OutboundRow) {
    && TagFine(Trim(ob.tag)) && Supported(Trim(Lower(ob.protocol))) && isObject(Trim(ob.settings))
    && (Blank(ob.streamSettings) || isObject(Trim(ob.streamSettings))) && (Blank(ob.mux) || isObject(Trim(ob.mux)))
    && |Trim(ob.remark)| <= 255
  }

  predicate TagFine(tag: string) {
    && 0 < |tag| <= 64
    && (forall k :: 0 <= k < |tag| ==>
          || 'A' <= tag[k] <= 'Z' || 'a' <= tag[k] <= 'z' || '0' <= tag[k] <= '9'
          || tag[k] == '_' || tag[k] == '.' || tag[k] == '-')
    && !InAnyCase(tag, "api") && !InAnyCase(tag, "direct") && !InAnyCase(tag, "blocked")
  }

  predicate Supported(p: string) {
    p in {"freedom", "blackhole", "socks", "vmess", "vless", "trojan", "shadowsocks"}
  }

  /** The row that is kept of an outbound, but for its state. */
  predicate OutboundKept(row: OutboundRow, ob: OutboundRow) {
    && row.tag == Trim(ob.tag) && row.protocol == Trim(Lower(ob.protocol)) && row.settings == Trim(ob.settings)
    && row.streamSettings == Trim(ob.streamSettings) && row.mux == Trim(ob.mux) && row.remark == Trim(ob.remark)
    && row.sort == (if ob.sort == 0 then 1000 else ob.sort) && row.isSystem == ob.isSystem
  }

  lemma TagFineMeans(tag: string)
    ensures TagFine(tag) <==> tag != "" && TagFormat(tag) && !EqualFold(tag, "api") && !Reserved(tag)
  {
    AnyCaseMeans(tag, "api");
    AnyCaseMeans(tag, "direct");
    AnyCaseMeans(tag, "blocked");
  }

  lemma OutboundValidates(isObject: string -> bool, ob: OutboundRow)
    ensures var v := ValidateOutbound(isObject, ob);
      && (v.Valid? && !Reserved(v.row.tag) <==> OutboundFine(isObject, ob))
      && (v.Valid? ==> OutboundKept(v.row, ob) && v.row.id == ob.id && v.row.enabled == ob.enabled)
  {
    hide Trim, Blank, TagFine, Reserved, TagFormat;
    TagFineMeans(Trim(ob.tag));
    BlankIsEmpty(ob.streamSettings);
    BlankIsEmpty(ob.mux);
  }

  predicate TagFree(t: Tables, tag: string, except: int) {
    forall i :: i in t.outbounds && i != except ==> t.outbounds[i].tag != tag
  }

  /** A new outbound has the columns asked for and is enabled, whatever was asked. */
  lemma OutboundAdded(isObject: string -> bool, t: Tables, ob: OutboundRow)
    requires IdsOk(t)
    ensures var a, id := AfterAdd(isObject, t, ob), if ob.id == 0 then t.nextOutbound else ob.id;
      && (a.Valid? <==>
            OutboundFine(isObject, ob) && !ob.isSystem && TagFree(t, Trim(ob.tag), id) && ob.id !in t.outbounds)
      && (a.Valid? ==>
            && id !in t.outbounds && OnlyOutbound(t, a.row, id) && id in a.row.outbounds
            && OutboundKept(a.row.outbounds[id], ob) && a.row.outbounds[id].enabled)
  {
    hide OutboundFine, ValidateOutbound, Trim, Reserved;
    OutboundValidates(isObject, ob);
  }

  /** No column of a system outbound may be asked to change. */
  predicate OutboundLeftAlone(row: OutboundRow, ob: OutboundRow) {
    && (ob.tag == "" || ob.tag == row.tag) && (Blank(ob.protocol) || Lower(Trim(ob.protocol)) == row.protocol)
    && Leaves(row.settings, ob.settings) && Leaves(row.streamSettings, ob.streamSettings) && Leaves(row.mux, ob.mux)
  }

  lemma OutboundUpdated(isObject: string -> bool, t: Tables, ob: OutboundRow)
    requires IdsOk(t)
    ensures var a := AfterUpdate(isObject, t, ob);
      && (a.Valid? <==>
            && ob.id > 0 && ob.id in t.outbounds
            && (if t.outbounds[ob.id].isSystem
                then OutboundLeftAlone(t.outbounds[ob.id], ob) && |Trim(ob.remark)| <= 255
                else !ob.isSystem && OutboundFine(isObject, ob) && TagFree(t, Trim(ob.tag), ob.id)))
      && (a.Valid? ==> OnlyOutbound(t, a.row, ob.id) && ob.id in a.row.outbounds)
      && (a.Valid? && !t.outbounds[ob.id].isSystem ==>
            OutboundKept(a.row.outbounds[ob.id], ob) && a.row.outbounds[ob.id].enabled == ob.enabled)
      && (a.Valid? && t.outbounds[ob.id].isSystem ==>
            a.row.outbounds[ob.id]
            == t.outbounds[ob.id].(remark := Trim(ob.remark),
                                   sort := if ob.sort == 0 then t.outbounds[ob.id].sort else ob.sort))
  {
    hide OutboundFine, ValidateOutbound, Trim, Reserved, Blank;
    OutboundValidates(isObject, ob);
    BlankIsEmpty(ob.protocol);
    BlankIsEmpty(ob.settings);
    BlankIsEmpty(ob.streamSettings);
    BlankIsEmpty(ob.mux);
  }

  /** An outbound that is turned on or off is in the list exactly if it is on, unless it is a system one. */
  lemma OutboundToggled(t: Tables, id: int, enabled: bool)
    requires IdsOk(t)
    ensures var a := AfterToggle(t, id, enabled);
      && (a.Valid? <==>
            && id in t.outbounds
            && (enabled || !(t.outbounds[id].isSystem || InAnyCase(t.outbounds[id].tag, "direct")
                             || InAnyCase(t.outbounds[id].tag, "blocked"))))
      && (a.Valid? ==>
            && OnlyOutbound(t, a.row, id) && id in a.row.outbounds
            && (forall cfg :: ConfigOf(a.row.outbounds[id], cfg) <==> ConfigOf(t.outbounds[id], cfg))
            && a.row.outbounds[id].enabled == enabled && a.row.outbounds[id].sort == t.outbounds[id].sort
            && a.row.outbounds[id].remark == t.outbounds[id].remark
            && a.row.outbounds[id].isSystem == t.outbounds[id].isSystem)
  {
    hide Trim, Blank, EqualFold, InAnyCase;
    if id in t.outbounds {
      AnyCaseMeans(t.outbounds[id].tag, "direct");
      AnyCaseMeans(t.outbounds[id].tag, "blocked");
    }
  }

  lemma OutboundDeleted(t: Tables, id: int)
    ensures var a := AfterDelete(t, id);
      && (a.Valid? <==>
            && id in t.outbounds && !t.outbounds[id].isSystem
            && !InAnyCase(t.outbounds[id].tag, "direct") && !InAnyCase(t.outbounds[id].tag, "blocked")
            && forall i :: i in t.rules ==> t.rules[i].outboundTag != t.outbounds[id].tag)
      && (a.Valid? ==> OnlyOutbound(t, a.row, id) && id !in a.row.outbounds)
  {
    hide EqualFold, InAnyCase;
    if id in t.outbounds {
      AnyCaseMeans(t.outbounds[id].tag, "direct");
      AnyCaseMeans(t.outbounds[id].tag, "blocked");
    }
  }
}
