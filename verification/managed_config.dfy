/** The compiler of the managed configuration: rows to an outbound list and a first-match routing table. */
module ManagedConfig {
  import opened Common
  import opened ManagedRows

  const FREEDOM_TAG := "dokodemo-freedom"

  datatype Inbound = Inbound(tag: string, protocol: string, enable: bool)

  /** What a rule asks for apart from the inbound. */
  datatype Match = Match(domain: seq<string>, ip: seq<string>, protocol: seq<string>, source: seq<string>,
                         port: string, network: string)

  const ANY := Match([], [], [], [], "", "")

  datatype Rule = Rule(inboundTag: seq<string>, asks: Match, outboundTag: string)

  // ----- what a routing table does -----

  /** A connection: its inbound, and what it meets of the values that a rule can ask for. */
  datatype Connection = Connection(inboundTag: string, domain: seq<string> -> bool, ip: seq<string> -> bool,
                                   protocol: seq<string> -> bool, source: seq<string> -> bool,
                                   port: string -> bool, network: string -> bool)

  /** Every condition that is there must hold. */
  predicate Meets(m: Match, c: Connection) {
    && (m.domain == [] || c.domain(m.domain)) && (m.ip == [] || c.ip(m.ip))
    && (m.protocol == [] || c.protocol(m.protocol)) && (m.source == [] || c.source(m.source))
    && (m.port == "" || c.port(m.port)) && (m.network == "" || c.network(m.network))
  }

  /** The inbound matcher never matches an empty tag. */
  predicate Applies(r: Rule, c: Connection) {
    && (r.inboundTag == [] || (c.inboundTag != "" && c.inboundTag in r.inboundTag))
    && Meets(r.asks, c)
  }

  /** The outbound of the first rule that applies. */
  function Pick(rules: seq<Rule>, c: Connection): Option<string> {
    if rules == [] then None else if Applies(rules[0], c) then Some(rules[0].outboundTag) else Pick(rules[1..], c)
  }

  // ----- compiling rows -----

  /** `decodeJSONArrayStrings`; `decode` reads a JSON array of strings. */
  function DecodeArray(decode: string -> Option<seq<string>>, raw: string): Option<seq<string>> {
    var text := Trim(raw);
    if text == "" then Some([]) else decode(text)
  }

  /** `buildRoutingRuleConfig`. */
  function CompileRule(decode: string -> Option<seq<string>>, row: RuleRow): Option<Rule> {
    var domain, ip := DecodeArray(decode, row.domain), DecodeArray(decode, row.ip);
    var protocol, source := DecodeArray(decode, row.protocol), DecodeArray(decode, row.source);
    var inboundTag := DecodeArray(decode, row.inboundTag);
    if domain.None? || ip.None? || protocol.None? || source.None? || inboundTag.None? then None
    else
      var asks := Match(domain.value, ip.value, protocol.value, source.value, Trim(row.port), Trim(row.network));
      Some(Rule(inboundTag.value, asks, row.outboundTag))
  }

  /** The rules of the enabled rows; one row that cannot be read spoils the configuration. */
  function CompileRules(decode: string -> Option<seq<string>>, rows: seq<RuleRow>): Option<seq<Rule>> {
    if rows == [] then Some([])
    else
      var rest := CompileRules(decode, rows[1..]);
      if !rows[0].enabled then rest
      else
        var rule := CompileRule(decode, rows[0]);
        if rule.None? || rest.None? then None else Some([rule.value] + rest.value)
  }

  const API_RULE := Rule(["api"], ANY, "api")

  /** `buildManagedRoutingForDB`. */
  method BuildManagedRouting(decode: string -> Option<seq<string>>, rows: seq<RuleRow>) returns (r: Option<seq<Rule>>)
    ensures r.None? <==> CompileRules(decode, rows).None?
    ensures r.Some? ==> r.value == [API_RULE] + CompileRules(decode, rows).value
  {
    var rules := [API_RULE];
    ghost var all := CompileRules(decode, rows);
    var k := 0;
    assert rows[0..] == rows;
    while k < |rows|
      invariant 0 <= k <= |rows|
      invariant all.None? <==> CompileRules(decode, rows[k..]).None?
      invariant all.Some? ==> [API_RULE] + all.value == rules + CompileRules(decode, rows[k..]).value
    {
      assert rows[k..][1..] == rows[k + 1..];
      if rows[k].enabled {
        var rule := CompileRule(decode, rows[k]);
        if rule.None? {
          return None;
        }
        if all.Some? {
          assert rules + ([rule.value] + CompileRules(decode, rows[k + 1..]).value)
              == (rules + [rule.value]) + CompileRules(decode, rows[k + 1..]).value;
        }
        rules := rules + [rule.value];
      }
      k := k + 1;
    }
    r := Some(rules);
  }

  /** A list column can be read. */
  predicate ColumnReads(decode: string -> Option<seq<string>>, column: string) {
    Blank(column) || decode(Trim(column)).Some?
  }

  predicate RowReads(decode: string -> Option<seq<string>>, row: RuleRow) {
    && ColumnReads(decode, row.domain) && ColumnReads(decode, row.ip) && ColumnReads(decode, row.protocol)
    && ColumnReads(decode, row.source) && ColumnReads(decode, row.inboundTag)
  }

  lemma CompilesExactly(decode: string -> Option<seq<string>>, row: RuleRow)
    ensures CompileRule(decode, row).Some? <==> RowReads(decode, row)
  {
    BlankIsEmpty(row.domain);
    BlankIsEmpty(row.ip);
    BlankIsEmpty(row.protocol);
    BlankIsEmpty(row.source);
    BlankIsEmpty(row.inboundTag);
  }

  /** The rules compile exactly if every enabled row can be read. */
  lemma {:induction false} RulesCompile(decode: string -> Option<seq<string>>, rows: seq<RuleRow>)
    ensures CompileRules(decode, rows).Some?
       <==> forall k :: 0 <= k < |rows| && rows[k].enabled ==> RowReads(decode, rows[k])
  {
    if rows != [] {
      RulesCompile(decode, rows[1..]);
      CompilesExactly(decode, rows[0]);
      assert forall k :: 0 < k < |rows| ==> rows[k] == rows[1..][k - 1];
      assert forall k :: 0 <= k < |rows[1..]| ==> rows[1..][k] == rows[k + 1];
    }
  }

  // ----- connections of dokodemo and tunnel inbounds -----

  predicate NeedsFreedom(i: Inbound) {
    i.enable && (i.protocol == "dokodemo-door" || i.protocol == "tunnel")
  }

  function FreedomTags(inbounds: seq<Inbound>): seq<string> {
    if inbounds == [] then []
    else
      var last := |inbounds| - 1;
      FreedomTags(inbounds[..last]) + (if NeedsFreedom(inbounds[last]) then [inbounds[last].tag] else [])
  }

  /** An enabled dokodemo or tunnel inbound has this tag. */
  predicate FromTunnel(inbounds: seq<Inbound>, tag: string) {
    exists i :: 0 <= i < |inbounds| && inbounds[i].enable && inbounds[i].tag == tag
      && (inbounds[i].protocol == "dokodemo-door" || inbounds[i].protocol == "tunnel")
  }

  lemma {:induction false} FreedomTagsMean(inbounds: seq<Inbound>, tag: string)
    ensures tag in FreedomTags(inbounds) <==> FromTunnel(inbounds, tag)
  {
    if inbounds != [] {
      var last := |inbounds| - 1;
      FreedomTagsMean(inbounds[..last], tag);
      if FromTunnel(inbounds[..last], tag) {
        var i :| 0 <= i < last && inbounds[..last][i].enable && inbounds[..last][i].tag == tag
          && (inbounds[..last][i].protocol == "dokodemo-door" || inbounds[..last][i].protocol == "tunnel");
        assert inbounds[i].tag == tag;
      }
      if FromTunnel(inbounds, tag) && !(NeedsFreedom(inbounds[last]) && inbounds[last].tag == tag) {
        var i :| 0 <= i < |inbounds| && inbounds[i].enable && inbounds[i].tag == tag
          && (inbounds[i].protocol == "dokodemo-door" || inbounds[i].protocol == "tunnel");
        assert inbounds[..last][i].tag == tag;
      }
    }
  }

  /** A rule behind the first. */
  function Splice(rules: seq<Rule>, r: Rule): seq<Rule> {
    if rules == [] then [r] else [rules[0], r] + rules[1..]
  }

  /** It takes what applies to it and not to the first rule, and changes no other decision. */
  lemma SpliceKeeps(rules: seq<Rule>, r: Rule, c: Connection)
    ensures Pick(Splice(rules, r), c) ==
      if rules != [] && Applies(rules[0], c) then Pick(rules, c)
      else if Applies(r, c) then Some(r.outboundTag)
      else Pick(rules, c)
  {
    var s := Splice(rules, r);
    if rules != [] {
      assert s[1..] == [r] + rules[1..] && s[1..][1..] == rules[1..];
    } else {
      assert s[1..] == [];
    }
  }

  /** The routing table of a managed configuration. */
  function ManagedRules(decode: string -> Option<seq<string>>, rows: seq<RuleRow>,
                        inbounds: seq<Inbound>): Option<seq<Rule>> {
    var compiled := CompileRules(decode, rows);
    if compiled.None? then None
    else
      var rules := [API_RULE] + compiled.value;
      Some(if FreedomTags(inbounds) == [] then rules else Splice(rules, Rule(FreedomTags(inbounds), ANY, FREEDOM_TAG)))
  }

  // ----- which rows decide -----

  /** A column that is blank, or holds the empty list, asks for nothing; any other asks for what it holds. */
  predicate ColumnTakes(decode: string -> Option<seq<string>>, column: string, meets: seq<string> -> bool) {
    || Blank(column) || decode(Trim(column)) == Some([])
    || (decode(Trim(column)).Some? && meets(decode(Trim(column)).value))
  }

  predicate TextTakes(column: string, meets: string -> bool) {
    Blank(column) || meets(Trim(column))
  }

  /** A row takes a connection: it is enabled, and each of its seven columns is met. */
  predicate RowApplies(decode: string -> Option<seq<string>>, row: RuleRow, c: Connection) {
    && row.enabled
    && ColumnTakes(decode, row.inboundTag, tags => c.inboundTag != "" && c.inboundTag in tags)
    && ColumnTakes(decode, row.domain, c.domain) && ColumnTakes(decode, row.ip, c.ip)
    && ColumnTakes(decode, row.protocol, c.protocol) && ColumnTakes(decode, row.source, c.source)
    && TextTakes(row.port, c.port) && TextTakes(row.network, c.network)
  }

  lemma ColumnMeans(decode: string -> Option<seq<string>>, column: string, meets: seq<string> -> bool)
    requires DecodeArray(decode, column).Some?
    ensures var values := DecodeArray(decode, column).value;
      ColumnTakes(decode, column, meets) <==> values == [] || meets(values)
  {
    BlankIsEmpty(column);
  }

  /** What a rule is compiled to takes what its row takes. */
  lemma CompiledTakes(decode: string -> Option<seq<string>>, row: RuleRow, c: Connection)
    requires row.enabled && CompileRule(decode, row).Some?
    ensures Applies(CompileRule(decode, row).value, c) <==> RowApplies(decode, row, c)
  {
    ColumnMeans(decode, row.inboundTag, tags => c.inboundTag != "" && c.inboundTag in tags);
    ColumnMeans(decode, row.domain, c.domain);
    ColumnMeans(decode, row.ip, c.ip);
    ColumnMeans(decode, row.protocol, c.protocol);
    ColumnMeans(decode, row.source, c.source);
    BlankIsEmpty(row.port);
    BlankIsEmpty(row.network);
  }

  function Deciding(decode: string -> Option<seq<string>>, t: Tables, c: Connection): set<int> {
    set i | i in t.rules && RowApplies(decode, t.rules[i], c)
  }

  function RowsOf(t: Tables, ids: seq<int>): seq<RuleRow>
    requires forall k :: 0 <= k < |ids| ==> ids[k] in t.rules
  {
    seq(|ids|, k requires 0 <= k < |ids| => t.rules[ids[k]])
  }

  lemma {:induction false} PickCompiled(decode: string -> Option<seq<string>>, t: Tables, ids: seq<int>, c: Connection)
    requires forall k :: 0 <= k < |ids| ==> ids[k] in t.rules
    requires CompileRules(decode, RowsOf(t, ids)).Some?
    ensures var first := FirstIn(ids, Deciding(decode, t, c));
      Pick(CompileRules(decode, RowsOf(t, ids)).value, c) ==
      if first.None? then None else Some(t.rules[first.value].outboundTag)
    decreases ids
  {
    if ids != [] {
      assert RowsOf(t, ids)[1..] == RowsOf(t, ids[1..]);
      PickCompiled(decode, t, ids[1..], c);
      var row, rules := RowsOf(t, ids)[0], CompileRules(decode, RowsOf(t, ids)).value;
      assert row == t.rules[ids[0]];
      assert ids[0] in Deciding(decode, t, c) <==> RowApplies(decode, row, c);
      if row.enabled {
        CompiledTakes(decode, row, c);
        assert rules[1..] == CompileRules(decode, RowsOf(t, ids[1..])).value;
      }
    }
  }

  function Restrict(keys: map<int, int>, good: set<int>): map<int, int> {
    map i | i in keys && i in good :: keys[i]
  }

  /**
   * Where a connection belongs: from the api inbound to the api, from an enabled dokodemo or tunnel inbound to the
   * freedom outbound added for those, and else to the outbound named by the least row, by sort and id, that is
   * enabled and matches; or nowhere in particular if there is none.
   */
  ghost function Decision(decode: string -> Option<seq<string>>, t: Tables, inbounds: seq<Inbound>,
                          c: Connection): Option<string> {
    var good := Deciding(decode, t, c);
    if c.inboundTag == "api" then Some("api")
    else if c.inboundTag != "" && FromTunnel(inbounds, c.inboundTag) then Some("dokodemo-freedom")
    else if good == {} then None
    else Some(t.rules[LeastOf(t, good)].outboundTag)
  }

  /** A managed table sends every connection where it belongs. */
  lemma Decides(decode: string -> Option<seq<string>>, t: Tables, inbounds: seq<Inbound>, c: Connection)
    requires ManagedRules(decode, RulesInOrder(t), inbounds).Some?
    ensures Pick(ManagedRules(decode, RulesInOrder(t), inbounds).value, c) == Decision(decode, t, inbounds, c)
  {
    var keys, good := RuleKeys(t), Deciding(decode, t, c);
    OrderedMembers(keys);
    var ids := Ordered(keys);
    forall k | 0 <= k < |ids|
      ensures ids[k] in t.rules
    {
      assert ids[k] in ids;
    }
    assert RowsOf(t, ids) == RulesInOrder(t);
    PickCompiled(decode, t, ids, c);
    FirstInOrdered(keys, good);
    var compiled := CompileRules(decode, RulesInOrder(t)).value;
    var rules := [API_RULE] + compiled;
    assert rules[1..] == compiled;
    SpliceKeeps(rules, Rule(FreedomTags(inbounds), ANY, FREEDOM_TAG), c);
    FreedomTagsMean(inbounds, c.inboundTag);
    if good != {} {
      LeastIsFirst(t, good, FirstIn(ids, good).value);
    }
  }

  /** The least row, by sort and id. */
  ghost function LeastOf(t: Tables, good: set<int>): (i: int)
    requires good != {} && good <= t.rules.Keys
    ensures i in good && forall j :: j in good && j != i ==> Before(RuleKeys(t), i, j)
    ensures forall j :: j in good && j != i ==>
      t.rules[i].sort < t.rules[j].sort || (t.rules[i].sort == t.rules[j].sort && i < j)
  {
    var keys := Restrict(RuleKeys(t), good);
    assert keys.Keys == good;
    First(keys)
  }

  lemma LeastIsFirst(t: Tables, good: set<int>, f: int)
    requires good != {} && good <= t.rules.Keys && f in good
    requires forall j :: j in good && j != f ==> Before(RuleKeys(t), f, j)
    ensures LeastOf(t, good) == f
  {
  }
}
