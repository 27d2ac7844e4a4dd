/** The configuration compiled from the tables of a store, and what a change can do to it. */
module ManagedCompiled {
  import opened Common
  import opened ManagedRows
  import opened ManagedConfig
  import opened ManagedOutbounds
  import opened ManagedTables
  import opened ManagedService

  // ----- from tables to configuration -----

  lemma RowsDistinct(t: Tables)
    requires TagsDistinct(t)
    ensures DistinctTags(OutboundsInOrder(t))
    ensures forall i :: i in t.outbounds ==> t.outbounds[i] in OutboundsInOrder(t)
    ensures forall r :: r in OutboundsInOrder(t) ==> exists i :: i in t.outbounds && t.outbounds[i] == r
  {
    var ids, rows := Ordered(OutboundKeys(t)), OutboundsInOrder(t);
    OrderedMembers(OutboundKeys(t));
    forall k | 0 <= k < |ids|
      ensures ids[k] in t.outbounds && rows[k] == t.outbounds[ids[k]]
    {
      assert ids[k] in ids;
    }
    forall i | i in t.outbounds
      ensures t.outbounds[i] in rows
    {
      assert i in ids;
      var k :| 0 <= k < |ids| && ids[k] == i;
      assert rows[k] == t.outbounds[i];
    }
  }

  /**
   * In the configuration compiled from tables in order, tags are distinct and `direct` comes first; and a rule
   * that names an outbound of the tables finds it there exactly if that is a system one, or enabled and not
   * named like the freedom outbound, for which the dokodemo and tunnel inbounds decide.
   */
  lemma Compiled(isObject: string -> bool, t: Tables, direct: int, blocked: int, inbounds: seq<Inbound>, o: int)
    requires TablesOk(t, direct, blocked) && BuildAll(isObject, Listed(OutboundsInOrder(t))).Some? && o in t.outbounds
    ensures var cs := WithFreedom(BuildAll(isObject, Listed(OutboundsInOrder(t))).value, inbounds);
      && DistinctOutbounds(cs) && |cs| >= 2 && cs[0].tag == "direct" && cs[1].tag == "blocked"
      && (Names(cs, FREEDOM_TAG) <==> FreedomTags(inbounds) != [])
      && (Names(cs, t.outbounds[o].tag) <==>
            || o == direct || o == blocked
            || (if t.outbounds[o].tag == FREEDOM_TAG then FreedomTags(inbounds) != []
                else t.outbounds[o].enabled && t.outbounds[o].tag != ""))
  {
    var rows, tag := OutboundsInOrder(t), t.outbounds[o].tag;
    RowsDistinct(t);
    OutboundList(isObject, rows, inbounds, FREEDOM_TAG);
    OutboundList(isObject, rows, inbounds, tag);
    var k :| 0 <= k < |rows| && rows[k] == t.outbounds[o];
    assert HasUser(rows, tag) <==> IsUser(rows[k]);
  }

  /** All that the configuration needs of the tables can be read. */
  predicate TablesRead(isObject: string -> bool, decode: string -> Option<seq<string>>, t: Tables) {
    && (forall i :: i in t.outbounds && Wanted(t.outbounds[i]) ==> OutboundReads(isObject, t.outbounds[i]))
    && (forall i :: i in t.rules && t.rules[i].enabled ==> RowReads(decode, t.rules[i]))
  }

  lemma RuleRowsAre(t: Tables)
    ensures forall i :: i in t.rules ==> t.rules[i] in RulesInOrder(t)
    ensures forall r :: r in RulesInOrder(t) ==> exists i :: i in t.rules && t.rules[i] == r
  {
    var ids, rows := Ordered(RuleKeys(t)), RulesInOrder(t);
    OrderedMembers(RuleKeys(t));
    forall k | 0 <= k < |ids|
      ensures ids[k] in t.rules && rows[k] == t.rules[ids[k]]
    {
      assert ids[k] in ids;
    }
    forall i | i in t.rules
      ensures t.rules[i] in rows
    {
      assert i in ids;
      var k :| 0 <= k < |ids| && ids[k] == i;
      assert rows[k] == t.rules[i];
    }
  }

  lemma OutboundsRead(isObject: string -> bool, t: Tables, direct: int, blocked: int)
    requires TablesOk(t, direct, blocked)
    ensures BuildAll(isObject, Listed(OutboundsInOrder(t))).Some?
       <==> forall i :: i in t.outbounds && Wanted(t.outbounds[i]) ==> OutboundReads(isObject, t.outbounds[i])
  {
    hide OutboundReads, Wanted;
    var rows := OutboundsInOrder(t);
    var listed := Listed(rows);
    RowsDistinct(t);
    BuildsAllExactly(isObject, listed);
    assert t.outbounds[direct] in rows && t.outbounds[blocked] in rows;
    forall r
      ensures r in listed <==> exists i :: i in t.outbounds && t.outbounds[i] == r && Wanted(r)
    {
      ListedOne(rows, r);
    }
    if forall k :: 0 <= k < |listed| ==> OutboundReads(isObject, listed[k]) {
      forall i | i in t.outbounds && Wanted(t.outbounds[i])
        ensures OutboundReads(isObject, t.outbounds[i])
      {
        assert t.outbounds[i] in listed;
      }
    }
    if forall i :: i in t.outbounds && Wanted(t.outbounds[i]) ==> OutboundReads(isObject, t.outbounds[i]) {
      forall k | 0 <= k < |listed|
        ensures OutboundReads(isObject, listed[k])
      {
        assert listed[k] in listed;
      }
    }
  }

  lemma RulesRead(decode: string -> Option<seq<string>>, t: Tables, inbounds: seq<Inbound>)
    ensures ManagedRules(decode, RulesInOrder(t), inbounds).Some?
       <==> forall i :: i in t.rules && t.rules[i].enabled ==> RowReads(decode, t.rules[i])
  {
    var rows := RulesInOrder(t);
    RuleRowsAre(t);
    RulesCompile(decode, rows);
    if forall k :: 0 <= k < |rows| && rows[k].enabled ==> RowReads(decode, rows[k]) {
      forall i | i in t.rules && t.rules[i].enabled
        ensures RowReads(decode, t.rules[i])
      {
        var k :| 0 <= k < |rows| && rows[k] == t.rules[i];
      }
    }
    if forall i :: i in t.rules && t.rules[i].enabled ==> RowReads(decode, t.rules[i]) {
      forall k | 0 <= k < |rows| && rows[k].enabled
        ensures RowReads(decode, rows[k])
      {
        assert rows[k] in rows;
      }
    }
  }

  /** The freedom outbound for dokodemo and tunnel inbounds. */
  ghost predicate ForTunnels(cfg: OutboundConfig, inbounds: seq<Inbound>) {
    cfg == OutboundConfig("dokodemo-freedom", "freedom", "{}", None, None) && HasTunnels(inbounds)
  }

  ghost predicate HasTunnels(inbounds: seq<Inbound>) {
    exists tag :: FromTunnel(inbounds, tag)
  }

  predicate OfTables(t: Tables, cfg: OutboundConfig) {
    exists i :: i in t.outbounds && Wanted(t.outbounds[i]) && ConfigOf(t.outbounds[i], cfg)
  }

  /** The outbounds are those of the wanted rows, with their columns, and the one for tunnels if there are any. */
  ghost predicate ListsTables(t: Tables, inbounds: seq<Inbound>, cs: seq<OutboundConfig>) {
    && (forall i :: i in t.outbounds && Wanted(t.outbounds[i]) ==> HasConfig(cs, t.outbounds[i]))
    && (forall k :: 0 <= k < |cs| ==> ForTunnels(cs[k], inbounds) || OfTables(t, cs[k]))
    && (HasTunnels(inbounds) ==> exists k :: 0 <= k < |cs| && ForTunnels(cs[k], inbounds))
  }

  lemma TunnelsMean(inbounds: seq<Inbound>)
    ensures FreedomTags(inbounds) != [] <==> HasTunnels(inbounds)
  {
    var tags := FreedomTags(inbounds);
    if tags != [] {
      assert tags[0] in tags;
      FreedomTagsMean(inbounds, tags[0]);
    }
    if HasTunnels(inbounds) {
      var tag :| FromTunnel(inbounds, tag);
      FreedomTagsMean(inbounds, tag);
    }
  }

  lemma CompiledList(isObject: string -> bool, t: Tables, direct: int, blocked: int, inbounds: seq<Inbound>)
    requires TablesOk(t, direct, blocked) && BuildAll(isObject, Listed(OutboundsInOrder(t))).Some?
    ensures var built := BuildAll(isObject, Listed(OutboundsInOrder(t))).value;
      ListsTables(t, inbounds, WithFreedom(built, inbounds))
  {
    hide ConfigOf, FromTunnel, Wanted, OfSome, OfTables, HasConfig, BuiltIn, HasTunnels;
    var rows, built := OutboundsInOrder(t), BuildAll(isObject, Listed(OutboundsInOrder(t))).value;
    var cs := WithFreedom(built, inbounds);
    RowsDistinct(t);
    ListedRows(isObject, rows);
    TunnelsMean(inbounds);
    BuiltHasNoFreedom(t, direct, blocked, built);
    assert forall k :: 0 <= k < |built| ==> cs[k] == built[k];
    forall i | i in t.outbounds && Wanted(t.outbounds[i])
      ensures HasConfig(cs, t.outbounds[i])
    {
      assert t.outbounds[i] in rows;
      HasInFront(built, cs, t.outbounds[i]);
    }
    forall k | 0 <= k < |built|
      ensures OfTables(t, built[k])
    {
      BuiltFromTables(t, direct, blocked, built, k);
    }
    if FreedomTags(inbounds) != [] {
      assert ForTunnels(cs[|built|], inbounds);
    }
  }

  lemma HasInFront(built: seq<OutboundConfig>, cs: seq<OutboundConfig>, row: OutboundRow)
    requires HasConfig(built, row) && built <= cs
    ensures HasConfig(cs, row)
  {
    var k :| 0 <= k < |built| && ConfigOf(row, built[k]);
    assert ConfigOf(row, cs[k]);
  }

  /** With both system rows there, nothing is built in. */
  lemma BuiltFromTables(t: Tables, direct: int, blocked: int, built: seq<OutboundConfig>, k: nat)
    requires TablesOk(t, direct, blocked) && ListsRows(OutboundsInOrder(t), built) && k < |built|
    ensures OfTables(t, built[k])
  {
    hide ConfigOf, Wanted;
    var rows := OutboundsInOrder(t);
    RowsDistinct(t);
    assert t.outbounds[direct] in rows && t.outbounds[blocked] in rows;
    assert OfSome(rows, built[k]);
    var r :| r in rows && Wanted(r) && ConfigOf(r, built[k]);
    var i :| i in t.outbounds && t.outbounds[i] == r;
  }

  lemma BuiltHasNoFreedom(t: Tables, direct: int, blocked: int, built: seq<OutboundConfig>)
    requires TablesOk(t, direct, blocked) && ListsRows(OutboundsInOrder(t), built)
    ensures !Names(built, FREEDOM_TAG)
  {
    forall k | 0 <= k < |built|
      ensures built[k].tag != FREEDOM_TAG
    {
      BuiltFromTables(t, direct, blocked, built, k);
    }
  }

  /** The configuration of the tables as they are decides every connection as they say. */
  method CompileTables(s: Store, decode: string -> Option<seq<string>>, inbounds: seq<Inbound>,
                       outbounds: seq<OutboundRow>, rules: seq<RuleRow>) returns (cfg: XrayConfig, ok: bool)
    requires s.Valid() && outbounds == OutboundsInOrder(s.tables) && rules == RulesInOrder(s.tables)
    ensures fresh(cfg)
    ensures ok <==> BuildAll(s.isObject, Listed(outbounds)).Some? && ManagedRules(decode, rules, inbounds).Some?
    ensures ok <==> TablesRead(s.isObject, decode, s.tables)
    ensures forall i :: i in cfg.inboundConfigs <==> i in inbounds && i.enable
    ensures ok ==> ListsTables(s.tables, inbounds, cfg.outboundConfigs)
    ensures ok ==> DistinctOutbounds(cfg.outboundConfigs) && |cfg.outboundConfigs| >= 2
    ensures ok ==> cfg.outboundConfigs[0].tag == "direct" && cfg.outboundConfigs[1].tag == "blocked"
    ensures ok ==> (Names(cfg.outboundConfigs, FREEDOM_TAG) <==> FreedomTags(inbounds) != [])
    ensures ok ==> forall c: Connection :: Pick(cfg.routerConfig, c) == Decision(decode, s.tables, inbounds, c)
  {
    hide Decision, RowReads, OutboundReads;
    cfg := new XrayConfig([]);
    OutboundsRead(s.isObject, s.tables, s.direct, s.blocked);
    RulesRead(decode, s.tables, inbounds);
    EnabledOnesAre(inbounds);
    ok := cfg.BuildManaged(s.isObject, decode, outbounds, rules, inbounds);
    if ok {
      Compiled(s.isObject, s.tables, s.direct, s.blocked, inbounds, s.direct);
      CompiledList(s.isObject, s.tables, s.direct, s.blocked, inbounds);
      forall c: Connection
        ensures Pick(cfg.routerConfig, c) == Decision(decode, s.tables, inbounds, c)
      {
        Decides(decode, s.tables, inbounds, c);
      }
    }
  }

  function ExampleTables(tag: string): Tables {
    var d := OutboundRow(1, "direct", "freedom", "{}", "", "", true, "", 1000, true);
    var b := OutboundRow(2, "blocked", "blackhole", "{}", "", "", true, "", 10, true);
    var o := OutboundRow(3, tag, "socks", "{}", "", "", true, "", 1000, false);
    var r := RuleRow(1, "field", "", "", "443", "", "", "", "", "a", true, "", 1000, false);
    Tables(map[1 := d, 2 := b, 3 := o], map[1 := r], 4, 2)
  }

  const RENAMED := OutboundRow(3, "b", "socks", "{}", "", "", true, "", 1000, false)

  lemma RenamedIsValid()
    ensures ValidateOutbound(_ => true, RENAMED) == Valid(RENAMED) && !Reserved("b")
  {
    assert Lower("b") == "b" && Lower("api") == "api" && |Lower("direct")| == 6 && |Lower("blocked")| == 7;
    assert Lower("socks") == "socks";
  }

  lemma ExampleRefs()
    ensures TablesOk(ExampleTables("a"), 1, 2) && RefsOk(ExampleTables("a")) && !RefsOk(ExampleTables("b"))
  {
    var t, u := ExampleTables("a"), ExampleTables("b");
    assert t.outbounds[3].tag == "a" && u.rules[1].outboundTag == "a";
  }

  /** Renaming outbound `a` to `b` is accepted, and leaves the rule that names `a` behind. */
  lemma RenameExample()
    ensures TablesOk(ExampleTables("a"), 1, 2) && RefsOk(ExampleTables("a")) && !RefsOk(ExampleTables("b"))
    ensures AfterUpdate(_ => true, ExampleTables("a"), RENAMED) == Valid(ExampleTables("b"))
  {
    ExampleRefs();
    RenamedIsValid();
    assert WithOutbound(ExampleTables("a"), RENAMED) == ExampleTables("b");
  }

  lemma {:induction false} AllBuild(rows: seq<OutboundRow>)
    ensures BuildAll(_ => true, rows).Some?
  {
    if rows != [] {
      AllBuild(rows[..|rows| - 1]);
    }
  }

  /**
   * Disabling an outbound that an enabled rule names is accepted, and leaves the rule without it in the configuration.
   */
  lemma DisabledExample(inbounds: seq<Inbound>)
    ensures var t := ExampleTables("a");
      var u := t.(outbounds := t.outbounds[3 := t.outbounds[3].(enabled := false)]);
      && TablesOk(t, 1, 2) && RefsOk(t) && AfterToggle(t, 3, false) == Valid(u)
      && TablesOk(u, 1, 2) && RefsOk(u) && u.rules[1].enabled && u.rules[1].outboundTag == "a"
      && BuildAll(_ => true, Listed(OutboundsInOrder(u))).Some?
      && !Names(WithFreedom(BuildAll(_ => true, Listed(OutboundsInOrder(u))).value, inbounds), "a")
  {
    var t := ExampleTables("a");
    ExampleRefs();
    assert |Lower("a")| == 1 && |Lower("direct")| == 6 && |Lower("blocked")| == 7;
    RewriteKeeps(t, t.outbounds[3].(enabled := false), 1, 2);
    var u := WithOutbound(t, t.outbounds[3].(enabled := false));
    AllBuild(Listed(OutboundsInOrder(u)));
    Compiled(_ => true, u, 1, 2, inbounds, 3);
  }
}
