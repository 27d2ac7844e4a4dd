/** The rows that the managed configuration is kept in, and the order in which they are read. */
module ManagedRows {
  import opened Common

  datatype OutboundRow = OutboundRow(id: int, tag: string, protocol: string, settings: string, streamSettings: string,
                                     mux: string, enabled: bool, remark: string, sort: int, isSystem: bool)

  datatype RuleRow = RuleRow(id: int, kind: string, domain: string, ip: string, port: string, protocol: string,
                             network: string, source: string, inboundTag: string, outboundTag: string,
                             enabled: bool, remark: string, sort: int, isSystem: bool)

  /** Both tables, by id, with the ids that come next. */
  datatype Tables = Tables(outbounds: map<int, OutboundRow>, rules: map<int, RuleRow>, nextOutbound: int, nextRule: int)

  // ----- text -----

  predicate IsSpace(c: char) {
    c == ' ' || c == '\t' || c == '\n' || c == '\r'
  }

  /** `strings.TrimSpace`, for ASCII. */
  function Trim(s: string): string
    decreases |s|
  {
    if s == "" then s
    else if IsSpace(s[0]) then Trim(s[1..])
    else if IsSpace(s[|s| - 1]) then Trim(s[..|s| - 1])
    else s
  }

  /** Spaces, tabs and line ends only. */
  predicate Blank(s: string) {
    forall i :: 0 <= i < |s| ==> s[i] == ' ' || s[i] == '\t' || s[i] == '\n' || s[i] == '\r'
  }

  /** Trimming takes off the blank ends and nothing else. */
  lemma {:induction false} TrimExact(s: string) returns (front: string, back: string)
    ensures s == front + Trim(s) + back && Blank(front) && Blank(back)
    ensures Trim(s) != "" ==> !Blank([Trim(s)[0]]) && !Blank([Trim(s)[|Trim(s)| - 1]])
    decreases |s|
  {
    front, back := "", "";
    if s == "" {
    } else if IsSpace(s[0]) {
      front, back := TrimExact(s[1..]);
      front := [s[0]] + front;
    } else if IsSpace(s[|s| - 1]) {
      front, back := TrimExact(s[..|s| - 1]);
      back := back + [s[|s| - 1]];
    } else {
      assert [s[0]][0] == s[0] && [s[|s| - 1]][0] == s[|s| - 1];
    }
  }

  lemma BlankIsEmpty(s: string)
    ensures Blank(s) <==> Trim(s) == ""
  {
    var front, back := TrimExact(s);
    if Trim(s) != "" {
      assert s[|front|] == Trim(s)[0] == [Trim(s)[0]][0];
    }
  }

  /** `strings.EqualFold`, for ASCII. */
  predicate EqualFold(s: string, t: string) {
    Lower(s) == Lower(t)
  }

  // ----- order -----

  /** By sort, then by id; `keys` gives the sort of every id. */
  predicate Before(keys: map<int, int>, i: int, j: int)
    requires i in keys && j in keys
  {
    keys[i] < keys[j] || (keys[i] == keys[j] && i < j)
  }

  predicate IsFirst(keys: map<int, int>, i: int) {
    i in keys && forall j :: j in keys && j != i ==> Before(keys, i, j)
  }

  ghost function Member<T>(ids: set<T>): (i: T)
    requires ids != {}
    ensures i in ids
  {
    var i :| i in ids;
    i
  }

  lemma {:induction false} FirstExists(keys: map<int, int>, i: int)
    requires i in keys
    ensures exists f :: IsFirst(keys, f)
    decreases |keys|
  {
    var rest := keys - {i};
    assert rest.Keys == keys.Keys - {i};
    if rest.Keys == {} {
      assert forall j :: j in keys ==> j == i || j in rest.Keys;
      assert IsFirst(keys, i);
    } else {
      var j := Member(rest.Keys);
      FirstExists(rest, j);
      var f :| IsFirst(rest, f);
      assert forall k :: k in keys ==> k == i || k in rest.Keys;
      assert IsFirst(keys, i) || IsFirst(keys, f);
    }
  }

  /** The row that is read first. */
  ghost function First(keys: map<int, int>): (f: int)
    requires keys != map[]
    ensures IsFirst(keys, f)
  {
    FirstExists(keys, Member(keys.Keys));
    var f :| IsFirst(keys, f);
    f
  }

  /** All ids, in the order in which they are read. */
  ghost function Ordered(keys: map<int, int>): seq<int>
    decreases |keys|
  {
    if keys == map[] then []
    else
      assert |keys - {First(keys)}| < |keys|;
      [First(keys)] + Ordered(keys - {First(keys)})
  }

  /** The first of `ids` that is in `good`, if any. */
  function FirstIn(ids: seq<int>, good: set<int>): (r: Option<int>)
    ensures r.Some? ==> r.value in good && r.value in ids
  {
    if ids == [] then None else if ids[0] in good then Some(ids[0]) else FirstIn(ids[1..], good)
  }

  /** Reading in order finds the least of the good ones. */
  lemma {:induction false} FirstInOrdered(keys: map<int, int>, good: set<int>)
    requires good <= keys.Keys
    ensures good == {} ==> FirstIn(Ordered(keys), good) == None
    ensures good != {} ==> FirstIn(Ordered(keys), good).Some? && FirstIn(Ordered(keys), good).value in good
    ensures good != {} ==> forall j :: j in good && j != FirstIn(Ordered(keys), good).value ==>
      Before(keys, FirstIn(Ordered(keys), good).value, j)
    decreases |keys|
  {
    if keys != map[] {
      var f := First(keys);
      if f !in good {
        FirstInOrdered(keys - {f}, good);
      }
    } else {
      assert good == {};
    }
  }

  lemma {:induction false} OrderedMembers(keys: map<int, int>)
    ensures forall i :: i in Ordered(keys) <==> i in keys
    ensures forall a, b :: 0 <= a < b < |Ordered(keys)| ==> Ordered(keys)[a] != Ordered(keys)[b]
    decreases |keys|
  {
    if keys != map[] {
      var f := First(keys);
      OrderedMembers(keys - {f});
      var rest := Ordered(keys - {f});
      assert Ordered(keys) == [f] + rest;
      forall a, b | 0 <= a < b < |Ordered(keys)|
        ensures Ordered(keys)[a] != Ordered(keys)[b]
      {
        var c := b - 1;
        assert Ordered(keys)[b] == rest[c] && rest[c] in rest;
      }
    }
  }

  function OutboundKeys(t: Tables): map<int, int> {
    map i | i in t.outbounds :: t.outbounds[i].sort
  }

  function RuleKeys(t: Tables): map<int, int> {
    map i | i in t.rules :: t.rules[i].sort
  }

  /** `getOutboundsByDB` and `getRulesByDB`. */
  ghost function OutboundsInOrder(t: Tables): seq<OutboundRow> {
    OrderedMembers(OutboundKeys(t));
    var ids := Ordered(OutboundKeys(t));
    seq(|ids|, k requires 0 <= k < |ids| => assert ids[k] in ids; t.outbounds[ids[k]])
  }

  ghost function RulesInOrder(t: Tables): seq<RuleRow> {
    OrderedMembers(RuleKeys(t));
    var ids := Ordered(RuleKeys(t));
    seq(|ids|, k requires 0 <= k < |ids| => assert ids[k] in ids; t.rules[ids[k]])
  }
}
