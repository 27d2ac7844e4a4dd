/** The outbound list of a managed configuration, and the configuration as a whole. */
module ManagedOutbounds {
  import opened Common
  import opened ManagedRows
  import opened ManagedConfig

  /** `settings`, `streamSettings` and `mux` hold the text of a JSON object. */
  datatype OutboundConfig = OutboundConfig(tag: string, protocol: string, settings: string,
                                           streamSettings: Option<string>, mux: Option<string>)

  /** `decodeJSONObject`; `isObject` tells JSON objects. */
  function DecodeObject(isObject: string -> bool, raw: string): Option<string> {
    var text := if Trim(raw) == "" then "{}" else Trim(raw);
    if isObject(text) then Some(text) else None
  }

  /** `buildOutboundConfig`. */
  function BuildOutbound(isObject: string -> bool, row: OutboundRow): (r: Option<OutboundConfig>)
    ensures r.Some? ==> r.value.tag == row.tag
  {
    var settings := DecodeObject(isObject, row.settings);
    var streamSettings, mux := DecodeObject(isObject, row.streamSettings), DecodeObject(isObject, row.mux);
    if settings.None? || (Trim(row.streamSettings) != "" && streamSettings.None?)
        || (Trim(row.mux) != "" && mux.None?) then
      None
    else
      Some(OutboundConfig(row.tag, row.protocol, settings.value,
                          if Trim(row.streamSettings) != "" then streamSettings else None,
                          if Trim(row.mux) != "" then mux else None))
  }

  /** The text of an object in a column; a blank one stands for the empty object. */
  function ObjectText(column: string): string {
    if Blank(column) then "{}" else Trim(column)
  }

  function OptionalText(column: string): Option<string> {
    if Blank(column) then None else Some(Trim(column))
  }

  /** The columns of a row can be read. */
  predicate OutboundReads(isObject: string -> bool, row: OutboundRow) {
    && isObject(ObjectText(row.settings))
    && (Blank(row.streamSettings) || isObject(Trim(row.streamSettings)))
    && (Blank(row.mux) || isObject(Trim(row.mux)))
  }

  /** The outbound of a row has its columns. */
  predicate ConfigOf(row: OutboundRow, cfg: OutboundConfig) {
    && cfg.tag == row.tag && cfg.protocol == row.protocol && cfg.settings == ObjectText(row.settings)
    && cfg.streamSettings == OptionalText(row.streamSettings) && cfg.mux == OptionalText(row.mux)
  }

  lemma BuildsExactly(isObject: string -> bool, row: OutboundRow)
    ensures var r := BuildOutbound(isObject, row);
      (r.Some? <==> OutboundReads(isObject, row)) && (r.Some? ==> ConfigOf(row, r.value))
  {
    BlankIsEmpty(row.settings);
    BlankIsEmpty(row.streamSettings);
    BlankIsEmpty(row.mux);
  }

  predicate IsUser(row: OutboundRow) {
    row.tag != "direct" && row.tag != "blocked" && row.enabled && row.tag != "" && row.tag != FREEDOM_TAG
  }

  /** The row of a tag, or what stands in for it. */
  function RowOf(rows: seq<OutboundRow>, otherwise: OutboundRow): (r: OutboundRow)
    ensures r.tag == otherwise.tag
  {
    if rows == [] then otherwise
    else if rows[|rows| - 1].tag == otherwise.tag then rows[|rows| - 1]
    else RowOf(rows[..|rows| - 1], otherwise)
  }

  const DIRECT := OutboundRow(0, "direct", "freedom", "{}", "", "", false, "", 0, false)
  const BLOCKED := OutboundRow(0, "blocked", "blackhole", "{}", "", "", false, "", 0, false)
  const FREEDOM := OutboundConfig(FREEDOM_TAG, "freedom", "{}", None, None)

  function UserRows(rows: seq<OutboundRow>): seq<OutboundRow> {
    if rows == [] then []
    else
      var last := |rows| - 1;
      UserRows(rows[..last]) + (if IsUser(rows[last]) then [rows[last]] else [])
  }

  function BuildAll(isObject: string -> bool, rows: seq<OutboundRow>): Option<seq<OutboundConfig>> {
    if rows == [] then Some([])
    else
      var last := |rows| - 1;
      var front, cfg := BuildAll(isObject, rows[..last]), BuildOutbound(isObject, rows[last]);
      if front.None? || cfg.None? then None else Some(front.value + [cfg.value])
  }

  /** The rows behind the outbound list, in its order. */
  function Listed(rows: seq<OutboundRow>): seq<OutboundRow> {
    [RowOf(rows, DIRECT), RowOf(rows, BLOCKED)] + UserRows(rows)
  }

  /** `buildManagedOutboundsForDB`. */
  method BuildManagedOutbounds(isObject: string -> bool, rows: seq<OutboundRow>)
    returns (r: Option<seq<OutboundConfig>>)
    ensures r == BuildAll(isObject, Listed(rows))
  {
    var direct, blocked, users := DIRECT, BLOCKED, [];
    var k := 0;
    while k < |rows|
      invariant 0 <= k <= |rows|
      invariant direct == RowOf(rows[..k], DIRECT) && blocked == RowOf(rows[..k], BLOCKED)
          && users == UserRows(rows[..k])
    {
      var row := rows[k];
      assert rows[..k + 1][..k] == rows[..k];
      if row.tag == "direct" {
        direct := row;
      } else if row.tag == "blocked" {
        blocked := row;
      } else if row.enabled && row.tag != "" && row.tag != FREEDOM_TAG {
        users := users + [row];
      }
      k := k + 1;
    }
    assert rows[..k] == rows;
    r := BuildEach(isObject, [direct, blocked] + users);
  }

  method BuildEach(isObject: string -> bool, rows: seq<OutboundRow>) returns (r: Option<seq<OutboundConfig>>)
    ensures r == BuildAll(isObject, rows)
  {
    var configs := [];
    var k := 0;
    while k < |rows|
      invariant 0 <= k <= |rows| && BuildAll(isObject, rows[..k]) == Some(configs)
    {
      assert rows[..k + 1][..k] == rows[..k];
      var cfg := BuildOutbound(isObject, rows[k]);
      if cfg.None? {
        BuildFails(isObject, rows, k + 1);
        return None;
      }
      configs := configs + [cfg.value];
      k := k + 1;
    }
    assert rows[..k] == rows;
    r := Some(configs);
  }

  lemma {:induction false} BuildFails(isObject: string -> bool, rows: seq<OutboundRow>, k: nat)
    requires k <= |rows| && BuildAll(isObject, rows[..k]).None?
    ensures BuildAll(isObject, rows).None?
    decreases |rows|
  {
    if k < |rows| {
      assert rows[..|rows| - 1][..k] == rows[..k];
      BuildFails(isObject, rows[..|rows| - 1], k);
    } else {
      assert rows[..k] == rows;
    }
  }

  // ----- what is in the list -----

  predicate DistinctTags(rows: seq<OutboundRow>) {
    forall i, j :: 0 <= i < j < |rows| ==> rows[i].tag != rows[j].tag
  }

  predicate DistinctOutbounds(cs: seq<OutboundConfig>) {
    forall i, j :: 0 <= i < j < |cs| ==> cs[i].tag != cs[j].tag
  }

  predicate Names(cs: seq<OutboundConfig>, tag: string) {
    exists i :: 0 <= i < |cs| && cs[i].tag == tag
  }

  predicate HasUser(rows: seq<OutboundRow>, tag: string) {
    exists i :: 0 <= i < |rows| && rows[i].tag == tag && IsUser(rows[i])
  }

  lemma {:induction false} BuildKeepsTags(isObject: string -> bool, rows: seq<OutboundRow>)
    requires BuildAll(isObject, rows).Some?
    ensures var cs := BuildAll(isObject, rows).value;
      |cs| == |rows| && forall i :: 0 <= i < |cs| ==> cs[i].tag == rows[i].tag
  {
    if rows != [] {
      BuildKeepsTags(isObject, rows[..|rows| - 1]);
    }
  }

  lemma {:induction false} BuildsAllExactly(isObject: string -> bool, rows: seq<OutboundRow>)
    ensures BuildAll(isObject, rows).Some? <==> forall k :: 0 <= k < |rows| ==> OutboundReads(isObject, rows[k])
    ensures BuildAll(isObject, rows).Some? ==>
      var cs := BuildAll(isObject, rows).value;
      |cs| == |rows| && forall k :: 0 <= k < |rows| ==> ConfigOf(rows[k], cs[k])
  {
    hide ConfigOf, OutboundReads, BuildOutbound;
    if rows != [] {
      var last := |rows| - 1;
      BuildsAllExactly(isObject, rows[..last]);
      BuildsExactly(isObject, rows[last]);
      assert forall k :: 0 <= k < last ==> rows[..last][k] == rows[k];
    }
  }

  lemma {:induction false} RowOfIs(rows: seq<OutboundRow>, otherwise: OutboundRow)
    ensures RowOf(rows, otherwise) in rows || RowOf(rows, otherwise) == otherwise
    ensures (forall i :: 0 <= i < |rows| ==> rows[i].tag != otherwise.tag) <==> !(RowOf(rows, otherwise) in rows)
    ensures DistinctTags(rows) ==> forall r :: r in rows && r.tag == otherwise.tag ==> RowOf(rows, otherwise) == r
  {
    if rows != [] {
      var last := |rows| - 1;
      assert rows == rows[..last] + [rows[last]];
      RowOfIs(rows[..last], otherwise);
    }
  }

  /** What an outbound list must hold: `direct`, `blocked`, and the enabled others but for one name. */
  predicate Wanted(row: OutboundRow) {
    row.tag == "direct" || row.tag == "blocked" || (row.enabled && row.tag != "" && row.tag != "dokodemo-freedom")
  }

  /** One that no row asks for: the two that are always there. */
  predicate BuiltIn(rows: seq<OutboundRow>, cfg: OutboundConfig) {
    && (cfg == OutboundConfig("direct", "freedom", "{}", None, None)
        || cfg == OutboundConfig("blocked", "blackhole", "{}", None, None))
    && forall r :: r in rows ==> r.tag != cfg.tag
  }

  predicate HasConfig(cs: seq<OutboundConfig>, row: OutboundRow) {
    exists k :: 0 <= k < |cs| && ConfigOf(row, cs[k])
  }

  predicate OfSome(rows: seq<OutboundRow>, cfg: OutboundConfig) {
    exists r :: r in rows && Wanted(r) && ConfigOf(r, cfg)
  }

  /** Every wanted row is in the list with its columns, and the list holds nothing else but what is built in. */
  predicate ListsRows(rows: seq<OutboundRow>, cs: seq<OutboundConfig>) {
    && (forall r :: r in rows && Wanted(r) ==> HasConfig(cs, r))
    && forall k :: 0 <= k < |cs| ==> BuiltIn(rows, cs[k]) || OfSome(rows, cs[k])
  }

  lemma BuiltInRows()
    ensures forall cfg :: ConfigOf(DIRECT, cfg) ==> cfg == OutboundConfig("direct", "freedom", "{}", None, None)
    ensures forall cfg :: ConfigOf(BLOCKED, cfg) ==> cfg == OutboundConfig("blocked", "blackhole", "{}", None, None)
  {
    assert !Blank("{}") by {
      assert "{}"[0] == '{';
    }
    assert Trim("{}") == "{}";
  }

  lemma ListedOne(rows: seq<OutboundRow>, r: OutboundRow)
    requires DistinctTags(rows)
    ensures r in Listed(rows) <==>
      || (r in rows && Wanted(r))
      || (r == DIRECT && forall x :: x in rows ==> x.tag != "direct")
      || (r == BLOCKED && forall x :: x in rows ==> x.tag != "blocked")
  {
    RowOfIs(rows, DIRECT);
    RowOfIs(rows, BLOCKED);
    UserRowsAre(rows);
    assert forall x :: x in rows ==> exists i :: 0 <= i < |rows| && rows[i] == x;
  }

  lemma ListedRows(isObject: string -> bool, rows: seq<OutboundRow>)
    requires DistinctTags(rows) && BuildAll(isObject, Listed(rows)).Some?
    ensures ListsRows(rows, BuildAll(isObject, Listed(rows)).value)
  {
    hide ConfigOf, Wanted;
    var listed, cs := Listed(rows), BuildAll(isObject, Listed(rows)).value;
    BuildsAllExactly(isObject, listed);
    BuiltInRows();
    forall r | r in rows && Wanted(r)
      ensures HasConfig(cs, r)
    {
      ListedOne(rows, r);
      var k :| 0 <= k < |listed| && listed[k] == r;
      assert ConfigOf(r, cs[k]);
    }
    forall k | 0 <= k < |cs|
      ensures BuiltIn(rows, cs[k]) || OfSome(rows, cs[k])
    {
      ListedOne(rows, listed[k]);
      assert ConfigOf(listed[k], cs[k]);
    }
  }

  lemma {:induction false} UserRowsAre(rows: seq<OutboundRow>)
    ensures forall r :: r in UserRows(rows) <==> r in rows && IsUser(r)
  {
    if rows != [] {
      var last := |rows| - 1;
      UserRowsAre(rows[..last]);
      assert rows == rows[..last] + [rows[last]];
    }
  }

  lemma {:induction false} UserRowsDistinct(rows: seq<OutboundRow>)
    requires DistinctTags(rows)
    ensures DistinctTags(UserRows(rows))
  {
    if rows != [] {
      var last := |rows| - 1;
      UserRowsDistinct(rows[..last]);
      UserRowsAre(rows[..last]);
      forall r | r in UserRows(rows[..last])
        ensures r.tag != rows[last].tag
      {
        var i :| 0 <= i < last && rows[i] == r;
      }
    }
  }

  lemma ListedDistinct(rows: seq<OutboundRow>)
    requires DistinctTags(rows)
    ensures DistinctTags(Listed(rows))
  {
    UserRowsDistinct(rows);
    UserRowsAre(rows);
    var users := UserRows(rows);
    assert forall i :: 0 <= i < |users| ==> users[i] in users;
  }

  /** `ensureTaggedFreedomOutbound`, when a dokodemo or tunnel inbound is enabled. */
  function WithFreedom(cs: seq<OutboundConfig>, inbounds: seq<Inbound>): seq<OutboundConfig> {
    if FreedomTags(inbounds) == [] || Names(cs, FREEDOM_TAG) then cs else cs + [FREEDOM]
  }

  /**
   * From rows with distinct tags comes a list with distinct tags: `direct`, then `blocked`, whatever their rows say,
   * then what is enabled; the freedom outbound is in it exactly if a dokodemo or tunnel inbound is enabled.
   */
  lemma OutboundList(isObject: string -> bool, rows: seq<OutboundRow>, inbounds: seq<Inbound>, tag: string)
    requires DistinctTags(rows) && BuildAll(isObject, Listed(rows)).Some?
    ensures var cs := WithFreedom(BuildAll(isObject, Listed(rows)).value, inbounds);
      && DistinctOutbounds(cs) && |cs| >= 2 && cs[0].tag == "direct" && cs[1].tag == "blocked"
      && (Names(cs, tag) <==>
            tag == "direct" || tag == "blocked" || (tag == FREEDOM_TAG && FreedomTags(inbounds) != [])
                || HasUser(rows, tag))
  {
    var listed, built := Listed(rows), BuildAll(isObject, Listed(rows)).value;
    BuildKeepsTags(isObject, listed);
    ListedDistinct(rows);
    UserRowsAre(rows);
    NamesListed(rows, built, tag);
    NamesListed(rows, built, FREEDOM_TAG);
    var cs := WithFreedom(built, inbounds);
    if cs != built {
      assert forall i :: 0 <= i < |built| ==> cs[i] == built[i];
      assert cs[|built|] == FREEDOM;
    }
  }

  lemma NamesListed(rows: seq<OutboundRow>, cs: seq<OutboundConfig>, tag: string)
    requires |cs| == |Listed(rows)| && forall i :: 0 <= i < |cs| ==> cs[i].tag == Listed(rows)[i].tag
    ensures Names(cs, tag) <==> tag == "direct" || tag == "blocked" || HasUser(rows, tag)
  {
    var listed, users := Listed(rows), UserRows(rows);
    UserRowsAre(rows);
    if Names(cs, tag) {
      var i :| 0 <= i < |cs| && cs[i].tag == tag;
      if i >= 2 {
        assert listed[i] == users[i - 2] && users[i - 2] in users;
        var j :| 0 <= j < |rows| && rows[j] == listed[i];
        assert rows[j].tag == tag && IsUser(rows[j]);
      }
    }
    if HasUser(rows, tag) {
      var j :| 0 <= j < |rows| && rows[j].tag == tag && IsUser(rows[j]);
      assert rows[j] in users;
      var i :| 0 <= i < |users| && users[i] == rows[j];
      assert cs[i + 2].tag == listed[i + 2].tag == tag;
    }
    assert cs[0].tag == "direct" && cs[1].tag == "blocked";
  }

  // ----- the configuration -----

  function EnabledOnes(inbounds: seq<Inbound>): seq<Inbound> {
    if inbounds == [] then []
    else
      var last := |inbounds| - 1;
      EnabledOnes(inbounds[..last]) + (if inbounds[last].enable then [inbounds[last]] else [])
  }

  lemma {:induction false} EnabledOnesAre(inbounds: seq<Inbound>)
    ensures forall i :: i in EnabledOnes(inbounds) <==> i in inbounds && i.enable
  {
    if inbounds != [] {
      var last := |inbounds| - 1;
      EnabledOnesAre(inbounds[..last]);
      assert inbounds == inbounds[..last] + [inbounds[last]];
    }
  }

  class XrayConfig {
    var inboundConfigs: seq<Inbound>
    var outboundConfigs: seq<OutboundConfig>
    var routerConfig: seq<Rule>

    /** The configuration of the template, as far as a managed one keeps it. */
    constructor (inboundConfigs: seq<Inbound>)
      ensures this.inboundConfigs == inboundConfigs && outboundConfigs == [] && routerConfig == []
    {
      this.inboundConfigs, outboundConfigs, routerConfig := inboundConfigs, [], [];
    }

    method EnsureTaggedFreedomOutbound()
      modifies this`outboundConfigs
      ensures outboundConfigs ==
        if Names(old(outboundConfigs), FREEDOM_TAG) then old(outboundConfigs) else old(outboundConfigs) + [FREEDOM]
    {
      for k := 0 to |outboundConfigs|
        invariant forall i :: 0 <= i < k ==> outboundConfigs[i].tag != FREEDOM_TAG
        invariant outboundConfigs == old(outboundConfigs)
      {
        if outboundConfigs[k].tag == FREEDOM_TAG {
          return;
        }
      }
      outboundConfigs := outboundConfigs + [FREEDOM];
    }

    /** `ensureManagedDokodemoTunnelRouting`. */
    method EnsureManagedDokodemoTunnelRouting(inbounds: seq<Inbound>)
      modifies this`outboundConfigs, this`routerConfig
      ensures outboundConfigs == WithFreedom(old(outboundConfigs), inbounds)
      ensures routerConfig == if FreedomTags(inbounds) == [] then old(routerConfig)
                              else Splice(old(routerConfig), Rule(FreedomTags(inbounds), ANY, FREEDOM_TAG))
    {
      var tags := [];
      for k := 0 to |inbounds|
        invariant tags == FreedomTags(inbounds[..k])
      {
        assert inbounds[..k + 1][..k] == inbounds[..k];
        if NeedsFreedom(inbounds[k]) {
          tags := tags + [inbounds[k].tag];
        }
      }
      assert inbounds[..|inbounds|] == inbounds;
      if |tags| == 0 {
        return;
      }
      EnsureTaggedFreedomOutbound();
      var rule := Rule(tags, ANY, FREEDOM_TAG);
      if |routerConfig| > 0 {
        routerConfig := [routerConfig[0]] + [rule] + routerConfig[1..];
      } else {
        routerConfig := [rule];
      }
    }

    /** `getManagedXrayConfigForDB`; `ok` unless a row cannot be read. */
    method BuildManaged(isObject: string -> bool, decode: string -> Option<seq<string>>,
                        outbounds: seq<OutboundRow>, rules: seq<RuleRow>, inbounds: seq<Inbound>) returns (ok: bool)
      modifies this
      ensures inboundConfigs == old(inboundConfigs) + EnabledOnes(inbounds)
      ensures ok <==> BuildAll(isObject, Listed(outbounds)).Some? && ManagedRules(decode, rules, inbounds).Some?
      ensures ok ==> outboundConfigs == WithFreedom(BuildAll(isObject, Listed(outbounds)).value, inbounds)
      ensures ok ==> routerConfig == ManagedRules(decode, rules, inbounds).value
    {
      var allowPrivateOutboundNeeded := false;
      for k := 0 to |inbounds|
        invariant allowPrivateOutboundNeeded <==> FreedomTags(inbounds[..k]) != []
        invariant inboundConfigs == old(inboundConfigs) + EnabledOnes(inbounds[..k])
      {
        assert inbounds[..k + 1][..k] == inbounds[..k];
        if inbounds[k].enable {
          inboundConfigs := inboundConfigs + [inbounds[k]];
          if inbounds[k].protocol == "dokodemo-door" || inbounds[k].protocol == "tunnel" {
            allowPrivateOutboundNeeded := true;
          }
        }
      }
      assert inbounds[..|inbounds|] == inbounds;
      var built := BuildManagedOutbounds(isObject, outbounds);
      if built.None? {
        return false;
      }
      outboundConfigs := built.value;
      var routing := BuildManagedRouting(decode, rules);
      if routing.None? {
        return false;
      }
      routerConfig := routing.value;
      if allowPrivateOutboundNeeded {
        EnsureManagedDokodemoTunnelRouting(inbounds);
      }
      ok := true;
    }
  }
}
