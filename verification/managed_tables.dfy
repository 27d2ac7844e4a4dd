/** The tables behind the managed configuration, and what every change of them keeps. */
module ManagedTables {
  import opened Common
  import opened ManagedRows

  /** Whether the change is in effect, or the code of the error. */
  datatype Result = Applied(applied: bool) | Failed(code: string)

  datatype Checked<T> = Valid(row: T) | Invalid(code: string)

  /**
   * What lies outside the tables while one change is made: whether the managed configuration is on, whether the
   * changed tables make a configuration that passes the test, and whether applying it works.
   */
  datatype Env = Env(managed: bool, testOk: bool, applyOk: bool)

  /** The transaction goes through. */
  predicate Commits(env: Env) {
    !env.managed || env.testOk
  }

  function Outcome(env: Env): Result {
    if !env.managed then Applied(false)
    else if !env.testOk then Failed("TEST")
    else if !env.applyOk then Failed("APPLY")
    else Applied(true)
  }

  // ----- what every change keeps -----

  predicate TagsDistinct(t: Tables) {
    forall i, j :: i in t.outbounds && j in t.outbounds && i != j ==> t.outbounds[i].tag != t.outbounds[j].tag
  }

  predicate HasTag(t: Tables, tag: string) {
    exists i :: i in t.outbounds && t.outbounds[i].tag == tag
  }

  /** The system row of a tag is there, and marked. */
  predicate SystemRow(t: Tables, i: int, tag: string) {
    i in t.outbounds && t.outbounds[i].tag == tag && t.outbounds[i].isSystem
  }

  /** Both are enabled. */
  predicate SystemOn(t: Tables, direct: int, blocked: int)
    requires direct in t.outbounds && blocked in t.outbounds
  {
    t.outbounds[direct].enabled && t.outbounds[blocked].enabled
  }

  /** Rows know their ids, which have all been given out. */
  predicate IdsOk(t: Tables) {
    && 0 < t.nextOutbound && 0 < t.nextRule
    && (forall i :: i in t.outbounds ==> t.outbounds[i].id == i && i < t.nextOutbound)
    && (forall i :: i in t.rules ==> t.rules[i].id == i && i < t.nextRule)
  }

  /** The system rows are those with the ids `direct` and `blocked`. */
  predicate TablesOk(t: Tables, direct: int, blocked: int) {
    TagsDistinct(t) && IdsOk(t) && SystemRow(t, direct, "direct") && SystemRow(t, blocked, "blocked")
  }

  /** Every rule names an outbound. */
  predicate RefsOk(t: Tables) {
    forall i :: i in t.rules ==> HasTag(t, t.rules[i].outboundTag)
  }

  predicate Referenced(t: Tables, tag: string) {
    exists i :: i in t.rules && t.rules[i].outboundTag == tag
  }

  // ----- checking an outbound -----

  /** `isReservedSystemTag`. */
  predicate Reserved(tag: string) {
    EqualFold(tag, "direct") || EqualFold(tag, "blocked")
  }

  predicate TagChar(c: char) {
    'A' <= c <= 'Z' || 'a' <= c <= 'z' || '0' <= c <= '9' || c == '_' || c == '.' || c == '-'
  }

  predicate TagFormat(tag: string) {
    |tag| <= 64 && forall k :: 0 <= k < |tag| ==> TagChar(tag[k])
  }

  predicate Protocol(p: string) {
    p == "freedom" || p == "blackhole" || p == "socks" || p == "vmess" || p == "vless" || p == "trojan"
        || p == "shadowsocks"
  }

  function CleanOutbound(ob: OutboundRow): OutboundRow {
    ob.(tag := Trim(ob.tag), protocol := Trim(Lower(ob.protocol)), settings := Trim(ob.settings),
        streamSettings := Trim(ob.streamSettings), mux := Trim(ob.mux), remark := Trim(ob.remark))
  }

  /** `ValidateOutbound`: the row as it rewrites it, or the error. */
  function ValidateOutbound(isObject: string -> bool, ob: OutboundRow): Checked<OutboundRow> {
    var c := CleanOutbound(ob);
    if c.tag == "" then Invalid("OUTBOUND_TAG_REQUIRED")
    else if !TagFormat(c.tag) then Invalid("OUTBOUND_TAG_INVALID")
    else if EqualFold(c.tag, "api") then Invalid("OUTBOUND_TAG_FORBIDDEN")
    else if !Protocol(c.protocol) then Invalid("OUTBOUND_PROTOCOL_INVALID")
    else if !isObject(c.settings) then Invalid("OUTBOUND_SETTINGS_INVALID")
    else if c.streamSettings != "" && !isObject(c.streamSettings) then Invalid("OUTBOUND_STREAM_SETTINGS_INVALID")
    else if c.mux != "" && !isObject(c.mux) then Invalid("OUTBOUND_MUX_INVALID")
    else if |c.remark| > 255 then Invalid("OUTBOUND_REMARK_TOO_LONG")
    else Valid(if c.sort == 0 then c.(sort := 1000) else c)
  }

  /** `isOutboundTagExistsByDB`. */
  predicate TakenByOther(t: Tables, tag: string, except: int) {
    exists i :: i in t.outbounds && t.outbounds[i].tag == tag && (except > 0 ==> i != except)
  }

  /**
   * The row that an insertion stores: the id is given out unless one was asked for, and the column default replaces
   * `false`.
   */
  function Stored(t: Tables, ob: OutboundRow): OutboundRow {
    ob.(id := if ob.id == 0 then t.nextOutbound else ob.id, enabled := true)
  }

  function Max(a: int, b: int): int {
    if a < b then b else a
  }

  function WithOutbound(t: Tables, row: OutboundRow): Tables {
    t.(outbounds := t.outbounds[row.id := row], nextOutbound := Max(t.nextOutbound, row.id + 1))
  }

  function WithRule(t: Tables, row: RuleRow): Tables {
    t.(rules := t.rules[row.id := row], nextRule := Max(t.nextRule, row.id + 1))
  }

  /** Whether `ob` asks a system row for more than a remark and a sort. */
  predicate AsksTooMuch(current: OutboundRow, ob: OutboundRow) {
    || (ob.tag != "" && ob.tag != current.tag)
    || (Trim(ob.protocol) != "" && Lower(Trim(ob.protocol)) != current.protocol)
    || (Trim(ob.settings) != "" && Trim(ob.settings) != current.settings)
    || (Trim(ob.streamSettings) != "" && Trim(ob.streamSettings) != current.streamSettings)
    || (Trim(ob.mux) != "" && Trim(ob.mux) != current.mux)
  }

  /** The row that `AddOutbound` inserts, or its error. */
  function CheckAdd(isObject: string -> bool, t: Tables, ob: OutboundRow): Checked<OutboundRow> {
    var v := ValidateOutbound(isObject, ob);
    if v.Invalid? then v
    else if Reserved(v.row.tag) then Invalid("OUTBOUND_TAG_RESERVED")
    else if v.row.isSystem then Invalid("OUTBOUND_IS_SYSTEM_FORBIDDEN")
    else if TakenByOther(t, v.row.tag, 0) then Invalid("OUTBOUND_TAG_DUPLICATE")
    else if v.row.id in t.outbounds then Invalid("ID_TAKEN")
    else Valid(Stored(t, v.row))
  }

  /** The row that `UpdateOutbound` saves, or its error. */
  function CheckUpdate(isObject: string -> bool, t: Tables, ob: OutboundRow): Checked<OutboundRow> {
    if ob.id <= 0 || ob.id !in t.outbounds then Invalid("OUTBOUND_NOT_FOUND")
    else
      var current := t.outbounds[ob.id];
      if current.isSystem then CheckSystemUpdate(current, ob)
      else if ob.isSystem then Invalid("OUTBOUND_IS_SYSTEM_FORBIDDEN")
      else
        var v := ValidateOutbound(isObject, ob);
        if v.Invalid? then v
        else if Reserved(v.row.tag) then Invalid("OUTBOUND_TAG_RESERVED")
        else if TakenByOther(t, v.row.tag, ob.id) then Invalid("OUTBOUND_TAG_DUPLICATE")
        else Valid(v.row)
  }

  /** A system row takes a new remark, and a new sort unless that is 0. */
  function CheckSystemUpdate(current: OutboundRow, ob: OutboundRow): Checked<OutboundRow> {
    if AsksTooMuch(current, ob) then Invalid("OUTBOUND_SYSTEM_UPDATE_RESTRICTED")
    else if |Trim(ob.remark)| > 255 then Invalid("OUTBOUND_REMARK_TOO_LONG")
    else Valid(current.(remark := Trim(ob.remark), sort := if ob.sort != 0 then ob.sort else current.sort))
  }

  // ----- checking a rule -----

  function CleanRule(r: RuleRow): RuleRow {
    r.(kind := if Trim(r.kind) == "" then "field" else Trim(r.kind), domain := Trim(r.domain), ip := Trim(r.ip),
       port := Trim(r.port), protocol := Trim(r.protocol), network := Trim(r.network), source := Trim(r.source),
       inboundTag := Trim(r.inboundTag), outboundTag := Trim(r.outboundTag), remark := Trim(r.remark))
  }

  predicate IsArray(isArray: string -> bool, raw: string) {
    Trim(raw) == "" || isArray(raw)
  }

  /** `ValidateRule`: the row as it rewrites it, or the error. */
  function ValidateRule(isArray: string -> bool, t: Tables, r: RuleRow): Checked<RuleRow> {
    var c := CleanRule(r);
    if c.kind != "field" then Invalid("ROUTING_RULE_TYPE_INVALID")
    else if c.outboundTag == "" then Invalid("ROUTING_RULE_OUTBOUND_TAG_REQUIRED")
    else if !HasTag(t, c.outboundTag) then Invalid("ROUTING_RULE_OUTBOUND_TAG_NOT_FOUND")
    else if c.domain == c.ip == c.port == c.protocol == c.network == c.source == c.inboundTag == "" then
      Invalid("ROUTING_RULE_MATCH_REQUIRED")
    else if !IsArray(isArray, c.domain) then Invalid("ROUTING_RULE_DOMAIN_INVALID")
    else if !IsArray(isArray, c.ip) then Invalid("ROUTING_RULE_IP_INVALID")
    else if !IsArray(isArray, c.protocol) then Invalid("ROUTING_RULE_PROTOCOL_INVALID")
    else if !IsArray(isArray, c.source) then Invalid("ROUTING_RULE_SOURCE_INVALID")
    else if !IsArray(isArray, c.inboundTag) then Invalid("ROUTING_RULE_INBOUND_TAG_INVALID")
    else if |c.remark| > 255 then Invalid("ROUTING_RULE_REMARK_TOO_LONG")
    else Valid(if c.sort == 0 then c.(sort := 1000) else c)
  }

  function CheckAddRule(isArray: string -> bool, t: Tables, r: RuleRow): Checked<RuleRow> {
    if r.isSystem then Invalid("ROUTING_RULE_IS_SYSTEM_FORBIDDEN")
    else
      var v := ValidateRule(isArray, t, r);
      if v.Invalid? then v
      else if v.row.id in t.rules then Invalid("ID_TAKEN")
      else Valid(StoredRule(t, v.row))
  }

  /** A rule is stored with all its columns, but the column default replaces a sort of 0. */
  function StoredRule(t: Tables, r: RuleRow): RuleRow {
    r.(id := if r.id == 0 then t.nextRule else r.id, sort := if r.sort == 0 then 1000 else r.sort)
  }

  predicate Asks(current: string, asked: string) {
    Trim(asked) != "" && Trim(asked) != current
  }

  predicate RuleAsksTooMuch(c: RuleRow, r: RuleRow) {
    || Asks(c.kind, r.kind) || Asks(c.domain, r.domain) || Asks(c.ip, r.ip) || Asks(c.port, r.port)
    || Asks(c.protocol, r.protocol) || Asks(c.network, r.network) || Asks(c.source, r.source)
    || Asks(c.inboundTag, r.inboundTag) || Asks(c.outboundTag, r.outboundTag)
  }

  /** The row that `UpdateRule` stores, or its error. */
  function CheckUpdateRule(isArray: string -> bool, t: Tables, r: RuleRow): Checked<RuleRow> {
    if r.id <= 0 || r.id !in t.rules then Invalid("ROUTING_RULE_NOT_FOUND")
    else
      var current := t.rules[r.id];
      if current.isSystem then
        if RuleAsksTooMuch(current, r) then Invalid("ROUTING_RULE_SYSTEM_UPDATE_RESTRICTED")
        else if |Trim(r.remark)| > 255 then Invalid("ROUTING_RULE_REMARK_TOO_LONG")
        else Valid(current.(remark := Trim(r.remark), sort := if r.sort != 0 then r.sort else current.sort))
      else if r.isSystem then Invalid("ROUTING_RULE_IS_SYSTEM_FORBIDDEN")
      else ValidateRule(isArray, t, r)
  }

  // ----- single changes -----

  lemma AddKeeps(t: Tables, row: OutboundRow, direct: int, blocked: int)
    requires TablesOk(t, direct, blocked) && row.id !in t.outbounds && !HasTag(t, row.tag)
    ensures TablesOk(WithOutbound(t, row), direct, blocked)
    ensures RefsOk(t) ==> RefsOk(WithOutbound(t, row))
  {
    var u := WithOutbound(t, row);
    assert forall tag :: HasTag(t, tag) ==> HasTag(u, tag) by {
      forall tag | HasTag(t, tag)
        ensures HasTag(u, tag)
      {
        var i :| i in t.outbounds && t.outbounds[i].tag == tag;
        assert i in u.outbounds && u.outbounds[i].tag == tag;
      }
    }
  }

  /** Rewriting a row breaks the references exactly if its tag changes while rules name the old one. */
  lemma RewriteKeeps(t: Tables, row: OutboundRow, direct: int, blocked: int)
    requires TablesOk(t, direct, blocked) && row.id in t.outbounds
    requires forall i :: i in t.outbounds && i != row.id ==> t.outbounds[i].tag != row.tag
    requires row.id == direct || row.id == blocked ==>
      row.tag == t.outbounds[row.id].tag && row.isSystem
    ensures TablesOk(WithOutbound(t, row), direct, blocked)
    ensures RefsOk(t) ==>
      (RefsOk(WithOutbound(t, row)) <==> row.tag == t.outbounds[row.id].tag || !Referenced(t, t.outbounds[row.id].tag))
  {
    var u, was := WithOutbound(t, row), t.outbounds[row.id].tag;
    assert u.rules == t.rules;
    forall tag | HasTag(t, tag) && (tag != was || row.tag == was)
      ensures HasTag(u, tag)
    {
      var i :| i in t.outbounds && t.outbounds[i].tag == tag;
      assert i in u.outbounds && u.outbounds[i].tag == tag;
    }
    if row.tag != was {
      assert !HasTag(u, was);
    }
  }

  lemma DeleteKeeps(t: Tables, id: int, direct: int, blocked: int)
    requires TablesOk(t, direct, blocked) && id in t.outbounds && id != direct && id != blocked
    requires !Referenced(t, t.outbounds[id].tag)
    ensures var u := t.(outbounds := t.outbounds - {id}); TablesOk(u, direct, blocked) && (RefsOk(t) ==> RefsOk(u))
  {
    var u := t.(outbounds := t.outbounds - {id});
    forall tag | HasTag(t, tag) && tag != t.outbounds[id].tag
      ensures HasTag(u, tag)
    {
      var i :| i in t.outbounds && t.outbounds[i].tag == tag;
      assert i in u.outbounds && u.outbounds[i].tag == tag;
    }
  }

  /** A rule may come or change as long as it names an outbound. */
  lemma RuleKeeps(t: Tables, row: RuleRow, direct: int, blocked: int)
    requires TablesOk(t, direct, blocked)
    ensures TablesOk(WithRule(t, row), direct, blocked)
    ensures RefsOk(t) && HasTag(t, row.outboundTag) ==> RefsOk(WithRule(t, row))
  {
    SameTags(t, WithRule(t, row));
  }

  /** Rows that keep their tags keep the tags that rules can name. */
  lemma SameTags(t: Tables, u: Tables)
    requires forall i :: i in t.outbounds ==> i in u.outbounds && u.outbounds[i].tag == t.outbounds[i].tag
    ensures forall tag :: HasTag(t, tag) ==> HasTag(u, tag)
  {
    forall tag | HasTag(t, tag)
      ensures HasTag(u, tag)
    {
      var i :| i in t.outbounds && t.outbounds[i].tag == tag;
      assert i in u.outbounds && u.outbounds[i].tag == tag;
    }
  }

  lemma RuleDeleteKeeps(t: Tables, id: int, direct: int, blocked: int)
    requires TablesOk(t, direct, blocked)
    ensures var u := t.(rules := t.rules - {id}); TablesOk(u, direct, blocked) && (RefsOk(t) ==> RefsOk(u))
  {
    SameTags(t, t.(rules := t.rules - {id}));
  }

  // ----- reordering -----

  datatype Move = Move(id: int, sort: int)

  function NewSort(m: Move): int {
    if m.sort == 0 then 1000 else m.sort
  }

  /** The rows of `moves`, one after the other. */
  function Reorder(t: Tables, moves: seq<Move>): Checked<Tables>
    decreases moves
  {
    if moves == [] then Valid(t)
    else if moves[0].id !in t.rules then Invalid("ROUTING_RULE_NOT_FOUND")
    else Reorder(t.(rules := t.rules[moves[0].id := t.rules[moves[0].id].(sort := NewSort(moves[0]))]), moves[1..])
  }

  /** The sort that the last move of a rule gives it. */
  function LastSort(moves: seq<Move>, id: int, otherwise: int): int {
    if moves == [] then otherwise
    else if moves[|moves| - 1].id == id then NewSort(moves[|moves| - 1])
    else LastSort(moves[..|moves| - 1], id, otherwise)
  }

  lemma {:induction false} LastSortCons(moves: seq<Move>, id: int, otherwise: int)
    requires moves != []
    ensures LastSort(moves, id, otherwise)
         == LastSort(moves[1..], id, if moves[0].id == id then NewSort(moves[0]) else otherwise)
    decreases |moves|
  {
    var last := |moves| - 1;
    if last > 0 && moves[last].id != id {
      LastSortCons(moves[..last], id, otherwise);
      assert moves[..last][1..] == moves[1..][..last - 1];
    }
  }

  /** Reordering fails exactly on an unknown id, and otherwise changes nothing but sorts. */
  lemma {:induction false} ReorderOnlySorts(t: Tables, moves: seq<Move>, id: int)
    ensures Reorder(t, moves).Invalid? <==> exists k :: 0 <= k < |moves| && moves[k].id !in t.rules
    ensures Reorder(t, moves).Valid? ==>
      && Reorder(t, moves).row.(rules := t.rules) == t && Reorder(t, moves).row.rules.Keys == t.rules.Keys
      && (id in t.rules ==>
            Reorder(t, moves).row.rules[id] == t.rules[id].(sort := LastSort(moves, id, t.rules[id].sort)))
    decreases moves
  {
    if moves != [] && moves[0].id in t.rules {
      var u := t.(rules := t.rules[moves[0].id := t.rules[moves[0].id].(sort := NewSort(moves[0]))]);
      ReorderOnlySorts(u, moves[1..], id);
      assert u.rules.Keys == t.rules.Keys;
      assert forall k :: 0 <= k < |moves[1..]| ==> moves[1..][k] == moves[k + 1];
      if exists k :: 0 <= k < |moves| && moves[k].id !in t.rules {
        var k :| 0 <= k < |moves| && moves[k].id !in t.rules;
        assert moves[1..][k - 1].id !in u.rules;
      }
      if id in t.rules {
        LastSortCons(moves, id, t.rules[id].sort);
      }
    }
  }

  lemma ReorderKeeps(t: Tables, moves: seq<Move>, direct: int, blocked: int)
    requires TablesOk(t, direct, blocked) && Reorder(t, moves).Valid?
    ensures TablesOk(Reorder(t, moves).row, direct, blocked) && Reorder(t, moves).row.outbounds == t.outbounds
    ensures RefsOk(t) ==> RefsOk(Reorder(t, moves).row)
  {
    var u := Reorder(t, moves).row;
    ReorderOnlySorts(t, moves, 0);
    forall i | i in t.rules
      ensures i in u.rules && u.rules[i].id == t.rules[i].id && u.rules[i].outboundTag == t.rules[i].outboundTag
    {
      ReorderOnlySorts(t, moves, i);
    }
    SameTags(t, u);
  }

  // ----- the template of rules for AI services -----

  /** `routingRuleFingerprint`. */
  function Fingerprint(r: RuleRow): string {
    Trim(r.domain) + "||" + Trim(r.ip) + "||" + Trim(r.port) + "||" + Trim(r.protocol) + "||"
    + Trim(r.network) + "||" + Trim(r.source) + "||" + Trim(r.inboundTag) + "||" + Trim(r.outboundTag)
  }

  predicate Known(t: Tables, fingerprint: string) {
    exists i :: i in t.rules && Fingerprint(t.rules[i]) == fingerprint
  }

  /** A service of the template, with its sort relative to the base and the JSON text of its domains. */
  datatype Spec = Spec(name: string, sort: int, domain: string)

  /** `buildAITemplateCandidates`. */
  function Candidate(spec: Spec, outboundTag: string, sortBase: int, prefix: string): RuleRow {
    RuleRow(0, "field", spec.domain, "", "", "", "", "", "", outboundTag, true, prefix + " " + spec.name,
            sortBase + spec.sort, false)
  }

  function FillOne(t: Tables, c: RuleRow): Tables {
    if Known(t, Fingerprint(c)) then t else WithRule(t, StoredRule(t, c))
  }

  /** What the candidates leave: each is added unless a rule like it is there. */
  function Fill(t: Tables, cs: seq<RuleRow>): Tables {
    if cs == [] then t else FillOne(Fill(t, cs[..|cs| - 1]), cs[|cs| - 1])
  }

  lemma FillOneAdds(t: Tables, c: RuleRow)
    requires IdsOk(t) && c.id == 0
    ensures Known(FillOne(t, c), Fingerprint(c))
  {
    var u, row := FillOne(t, c), StoredRule(t, c);
    if !Known(t, Fingerprint(c)) {
      assert u.rules[row.id] == row && Fingerprint(row) == Fingerprint(c);
    }
  }

  lemma FillOneStays(t: Tables, c: RuleRow, f: string)
    requires IdsOk(t) && c.id == 0 && Known(t, f)
    ensures Known(FillOne(t, c), f)
  {
    var u := FillOne(t, c);
    var i :| i in t.rules && Fingerprint(t.rules[i]) == f;
    assert i in u.rules && u.rules[i] == t.rules[i];
  }

  lemma FillOneKnows(t: Tables, c: RuleRow, f: string)
    requires IdsOk(t) && c.id == 0 && (Known(t, f) || f == Fingerprint(c))
    ensures Known(FillOne(t, c), f)
  {
    if f == Fingerprint(c) {
      FillOneAdds(t, c);
    } else {
      FillOneStays(t, c, f);
    }
  }

  lemma {:induction false} FillIds(t: Tables, cs: seq<RuleRow>)
    requires IdsOk(t) && forall j :: 0 <= j < |cs| ==> cs[j].id == 0
    ensures IdsOk(Fill(t, cs))
  {
    if cs != [] {
      FillIds(t, cs[..|cs| - 1]);
    }
  }

  lemma {:induction false} FillKnows(t: Tables, cs: seq<RuleRow>, k: nat, f: string)
    requires IdsOk(t) && forall j :: 0 <= j < |cs| ==> cs[j].id == 0
    requires k < |cs| && f == Fingerprint(cs[k])
    ensures Known(Fill(t, cs), f)
  {
    var last := |cs| - 1;
    var front, c := cs[..last], cs[last];
    FillIds(t, front);
    if k < last {
      assert front[k] == cs[k];
      FillKnows(t, front, k, f);
    }
    FillOneKnows(Fill(t, front), c, f);
  }

  lemma {:induction false} FillNothing(t: Tables, cs: seq<RuleRow>)
    requires forall k :: 0 <= k < |cs| ==> Known(t, Fingerprint(cs[k]))
    ensures Fill(t, cs) == t
  {
    if cs != [] {
      FillNothing(t, cs[..|cs| - 1]);
    }
  }

  function Candidates(specs: seq<Spec>, outboundTag: string, sortBase: int, prefix: string): seq<RuleRow> {
    seq(|specs|, k requires 0 <= k < |specs| => Candidate(specs[k], outboundTag, sortBase, prefix))
  }

  /** Applying the template a second time adds nothing, whatever the sorts and remarks. */
  lemma FillTwice(t: Tables, specs: seq<Spec>, outboundTag: string, sortBase: int, prefix: string, sortBase1: int,
                  prefix1: string)
    requires IdsOk(t)
    ensures var u := Fill(t, Candidates(specs, outboundTag, sortBase, prefix));
      Fill(u, Candidates(specs, outboundTag, sortBase1, prefix1)) == u
  {
    var cs, ds := Candidates(specs, outboundTag, sortBase, prefix), Candidates(specs, outboundTag, sortBase1, prefix1);
    var u := Fill(t, cs);
    forall k | 0 <= k < |ds|
      ensures Known(u, Fingerprint(ds[k]))
    {
      FillKnows(t, cs, k, Fingerprint(cs[k]));
      assert Fingerprint(ds[k]) == Fingerprint(cs[k]);
    }
    FillNothing(u, ds);
  }

  lemma {:induction false} FillKeeps(t: Tables, cs: seq<RuleRow>, direct: int, blocked: int)
    requires TablesOk(t, direct, blocked) && forall k :: 0 <= k < |cs| ==> cs[k].id == 0 && HasTag(t, cs[k].outboundTag)
    ensures TablesOk(Fill(t, cs), direct, blocked) && Fill(t, cs).outbounds == t.outbounds
    ensures RefsOk(t) ==> RefsOk(Fill(t, cs))
  {
    if cs != [] {
      var last := |cs| - 1;
      FillKeeps(t, cs[..last], direct, blocked);
      var u := Fill(t, cs[..last]);
      SameTags(t, u);
      RuleKeeps(u, StoredRule(u, cs[last]), direct, blocked);
    }
  }
}
