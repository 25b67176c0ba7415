/**
 The route section, inbounds and outbounds written for sing-box.

 sing-box takes the first rule whose condition list has an element that matches, else `final`.  Of the
 inbound and outbound objects only the tags and the detours between them are kept.
 */
module SingBox {
  import opened Text
  import opened Config
  import opened Sorting
  import opened Routing
  import opened Mihomo

  // A rule object: the condition `field`, its list (ports are numbers, everything else is text) and the outbound.
  datatype RouteRule = RouteRule(field: MatchType, items: seq<string>, ports: seq<int>, outbound: string)

  /* ----- the generator ----- */

  predicate Written(rule: Rule) {
    SupportedMatchType(RuleMatchType(rule)) && !IsGeo(rule)
  }

  function RuleObject(rule: Rule): RouteRule {
    if RuleMatchType(rule).PortMatch? then RouteRule(PortMatch, [], SplitInts(RuleValue(rule)), rule.outbound)
    else RouteRule(RuleMatchType(rule), SplitCSV(RuleValue(rule)), [], rule.outbound)
  }

  function RouteRules(routing: RoutingConfig): seq<RouteRule> {
    if RoutingMode(routing.mode) != RuleMode then []
    else Map(RuleObject, Filter(Filter(Sort(routing.rules), Enabled), Written))
  }

  lemma NothingWritten()
    ensures Filter(Filter([], Enabled), Written) == []
  {}

  /** `singBoxRules`. */
  method SingBoxRules(routing: RoutingConfig) returns (items: seq<RouteRule>)
    ensures items == RouteRules(routing)
  {
    hide Written, RuleObject, RoutingMode, Filter;
    assert Filter(Filter([], Enabled), Written) == [] by { NothingWritten(); }
    if RoutingMode(routing.mode) != RuleMode {
      return [];
    }
    var sorted := SortedRoutingRules(routing.rules);
    var rules := sorted[..];
    items := [];
    for i := 0 to |rules|
      invariant items == Map(RuleObject, Filter(Filter(rules[..i], Enabled), Written))
    {
      assert rules[..i + 1] == rules[..i] + [rules[i]];
      FilterSnoc(rules[..i], rules[i], Enabled);
      FilterSnoc(Filter(rules[..i], Enabled), rules[i], Written);
      if rules[i].disabled || !Written(rules[i]) {
        continue;
      }
      items := items + [RuleObject(rules[i])];
    }
    assert rules[..|rules|] == rules;
  }

  /* ----- meaning is preserved, up to the geo rules ----- */

  predicate RouteMatches(atoms: Atoms, rule: RouteRule, req: Request) {
    if rule.field.PortMatch? then req.port in rule.ports else AnyMatches(atoms, rule.field, rule.items, req)
  }

  function Route(atoms: Atoms, rules: seq<RouteRule>, final: string, req: Request): string {
    if rules == [] then final
    else if RouteMatches(atoms, rules[0], req) then rules[0].outbound
    else Route(atoms, rules[1..], final, req)
  }

  lemma RuleObjectPreserves(atoms: Atoms, rule: Rule, req: Request)
    ensures RouteMatches(atoms, RuleObject(rule), req) <==> RuleMatches(atoms, rule, req)
  {
    hide RuleMatchType, RuleValue, SplitCSV, PortItem;
    PortsMembers(SplitCSV(RuleValue(rule)), req.port);
  }

  lemma ObjectOutbound(rule: Rule)
    ensures RuleObject(rule).outbound == rule.outbound
  {}

  lemma {:induction false} RoutePreserves(atoms: Atoms, rules: seq<Rule>, final: string, req: Request)
    ensures Route(atoms, Map(RuleObject, rules), final, req) == RuleDecision(atoms, rules, final, req)
  {
    hide RuleMatchType, RuleValue, RuleMatches, RouteMatches, RuleObject;
    if rules != [] {
      assert RuleObject(rules[0]).outbound == rules[0].outbound by { ObjectOutbound(rules[0]); }
      assert Map(RuleObject, rules)[1..] == Map(RuleObject, rules[1..]);
      RuleObjectPreserves(atoms, rules[0], req);
      RoutePreserves(atoms, rules[1..], final, req);
      assert rules == rules[..1] + rules[1..] && rules[..1][..0] == [];
      FirstMatchAppend(atoms, rules[..1], rules[1..], req);
    }
  }

  predicate NotGeo(rule: Rule) { !IsGeo(rule) }

  function WithoutGeo(routing: RoutingConfig): RoutingConfig {
    routing.(rules := Filter(routing.rules, NotGeo))
  }

  /** sing-box routes every request as the configuration with its geo rules removed does, in all three modes. */
  lemma SingBoxPreservesMeaning(atoms: Atoms, routing: RoutingConfig, req: Request)
    requires RoutingMode(routing.mode) != NoMode
    ensures Route(atoms, RouteRules(routing), RouteFinal(routing), req) == Decision(atoms, WithoutGeo(routing), req)
  {
    if RoutingMode(routing.mode) == RuleMode {
      var enabled := Filter(Sort(routing.rules), Enabled);
      RoutePreserves(atoms, Filter(enabled, Written), DefaultOf(routing), req);
      SortFilter(routing.rules, NotGeo);
      FilterFilter(Sort(routing.rules), NotGeo, Enabled);
      WrittenRules(atoms, enabled, req);
    }
  }

  // A rule of an unknown type is not written, and matches nothing.
  lemma {:induction false} WrittenRules(atoms: Atoms, rules: seq<Rule>, req: Request)
    ensures FirstMatch(atoms, Filter(rules, Written), req) == FirstMatch(atoms, Filter(rules, NotGeo), req)
  {
    hide SplitCSV, RuleMatches;
    if rules != [] {
      var front, last := rules[..|rules| - 1], rules[|rules| - 1];
      WrittenRules(atoms, front, req);
      UnsupportedMatchesNothing(atoms, last, req);
      FirstMatchAppend(atoms, Filter(front, Written), [last], req);
      FirstMatchAppend(atoms, Filter(front, NotGeo), [last], req);
      assert [last][..0] == [];
    }
  }

  lemma UnsupportedMatchesNothing(atoms: Atoms, rule: Rule, req: Request)
    ensures RuleMatches(atoms, rule, req) ==> SupportedMatchType(RuleMatchType(rule))
  {
    hide RuleValue, RuleMatchType, SplitCSV;
  }

  // Dropping the geo rules that are enabled is dropping all of them, as far as decisions go.
  lemma WithoutGeoRules(routing: RoutingConfig)
    ensures Filter(Sort(Filter(routing.rules, NotGeo)), Enabled) == Filter(Filter(Sort(routing.rules), Enabled), NotGeo)
  {
    hide IsGeo;
    SortFilter(routing.rules, NotGeo);
    FilterFilter(Sort(routing.rules), NotGeo, Enabled);
  }

  /**
   In rule mode sing-box decides a request as the configuration does, unless the rule that decides it is a geo rule;
   then the first of the other rules that matches does.
   */
  lemma SingBoxDecides(atoms: Atoms, routing: RoutingConfig, req: Request)
    requires RoutingMode(routing.mode) == RuleMode
    ensures var enabled := Filter(Sort(routing.rules), Enabled);
      var m := FirstMatch(atoms, enabled, req);
      Route(atoms, RouteRules(routing), RouteFinal(routing), req) ==
      if m.Some? && IsGeo(m.value) then RuleDecision(atoms, Filter(enabled, NotGeo), DefaultOf(routing), req)
      else Decision(atoms, routing, req)
  {
    hide IsGeo, Sort, Filter, FirstMatch, Route, RouteRules, RouteFinal;
    var enabled := Filter(Sort(routing.rules), Enabled);
    var m := FirstMatch(atoms, enabled, req);
    SingBoxPreservesMeaning(atoms, routing, req);
    WithoutGeoRules(routing);
    if m.None? || !IsGeo(m.value) {
      FirstMatchFilter(atoms, enabled, req, NotGeo);
    }
  }

  /**
   Where the preview for sing-box gives no warning of geo rules, with nothing disabled, sing-box does what the preview
   says.  Disabled geo rules, and any in the other modes, do no harm.
   */
  lemma SingBoxDoesWhatThePreviewSays(atoms: Atoms, c: Config, req: Request)
    requires ConfigOk(c) && NothingDisabled(c)
    requires !GeoInForce(c.routing)
    ensures var r := RuntimeOf(c);
      Route(atoms, RouteRules(r.routing), RouteFinal(r.routing), req) == Decision(atoms, c.routing, req)
  {
    hide NodesOk, RuleOk, IsGeo, Route, RouteRules;
    var r := RuntimeOf(c);
    SingBoxPreservesMeaning(atoms, r.routing, req);
    PreviewIsWhatRuns(atoms, c, req);
    if RoutingMode(c.routing.mode) == RuleMode {
      FilterMembers(c.routing.rules, Live(r.inbounds, r.outbounds));
      FilterAll(r.routing.rules, NotGeo);
    }
  }

  /* ----- tags ----- */

  // An inbound or outbound object: its tag, and the tag it hands its traffic to ("" for none).
  datatype Entry = Entry(tag: string, detour: string)

  predicate HasTag(entries: seq<Entry>, tag: string) {
    exists i :: 0 <= i < |entries| && entries[i].tag == tag
  }

  // A shadowsocks outbound over shadowtls is written as two objects, and so is a shadowtls inbound; the second tag is the
  // name with an ending.
  predicate Doubled(o: Outbound) {
    o.address != "" && (o.protocol.Shadowsocks? || o.protocol.Ss?) && o.transport == "shadowtls"
  }

  const SHADOWTLS := "-shadowtls"
  const SHADOWSOCKS := "-shadowsocks"

  function InboundEntry(i: Inbound): seq<Entry> {
    if i.protocol.Shadowtls?
    then [Entry(i.name, i.name + SHADOWSOCKS), Entry(i.name + SHADOWSOCKS, "")]
    else [Entry(i.name, "")]
  }

  function OutboundEntry(o: Outbound): seq<Entry> {
    if Doubled(o)
    then [Entry(o.name + SHADOWTLS, ""), Entry(o.name, o.name + SHADOWTLS)]
    else [Entry(o.name, "")]
  }

  function Entries<T>(nodes: seq<T>, entry: T -> seq<Entry>): seq<Entry> {
    if nodes == [] then [] else Entries(nodes[..|nodes| - 1], entry) + entry(nodes[|nodes| - 1])
  }

  /** `singBoxInbounds`. */
  method SingBoxInbounds(inbounds: seq<Inbound>) returns (items: seq<Entry>)
    ensures items == Entries(inbounds, InboundEntry)
  {
    items := [];
    for i := 0 to |inbounds|
      invariant items == Entries(inbounds[..i], InboundEntry)
    {
      assert inbounds[..i + 1][..i] == inbounds[..i];
      var inner := inbounds[i].name + "-shadowsocks";
      if inbounds[i].protocol.Shadowtls? {
        items := items + [Entry(inbounds[i].name, inner), Entry(inner, "")];
        continue;
      }
      items := items + [Entry(inbounds[i].name, "")];
    }
    assert inbounds[..|inbounds|] == inbounds;
  }

  /** `singBoxOutbounds`. */
  method SingBoxOutbounds(outbounds: seq<Outbound>) returns (items: seq<Entry>)
    ensures items == [Entry("direct", "")] + Entries(outbounds, OutboundEntry)
  {
    items := [Entry("direct", "")];
    for i := 0 to |outbounds|
      invariant items == [Entry("direct", "")] + Entries(outbounds[..i], OutboundEntry)
    {
      var outbound := outbounds[i];
      assert outbounds[..i + 1][..i] == outbounds[..i];
      if outbound.address == "" || outbound.protocol.Direct? {
        items := items + [Entry(outbound.name, "")];
        continue;
      }
      var detour := "";
      if (outbound.protocol.Shadowsocks? || outbound.protocol.Ss?) && outbound.transport == "shadowtls" {
        detour := outbound.name + "-shadowtls";
        items := items + [Entry(detour, "")];
      }
      items := items + [Entry(outbound.name, detour)];
    }
    assert outbounds[..|outbounds|] == outbounds;
  }

  predicate Closed(entries: seq<Entry>) {
    forall i :: 0 <= i < |entries| && entries[i].detour != "" ==> HasTag(entries, entries[i].detour)
  }

  lemma HasTagAppend(a: seq<Entry>, b: seq<Entry>, tag: string)
    ensures HasTag(a + b, tag) <==> HasTag(a, tag) || HasTag(b, tag)
  {
    if HasTag(a, tag) {
      var i :| 0 <= i < |a| && a[i].tag == tag;
      assert (a + b)[i].tag == tag;
    }
    if HasTag(b, tag) {
      var i :| 0 <= i < |b| && b[i].tag == tag;
      assert (a + b)[|a| + i].tag == tag;
    }
  }

  lemma ClosedAppend(a: seq<Entry>, b: seq<Entry>)
    requires Closed(a) && Closed(b)
    ensures Closed(a + b)
  {
    forall i | 0 <= i < |a + b| && (a + b)[i].detour != ""
      ensures HasTag(a + b, (a + b)[i].detour)
    {
      HasTagAppend(a, b, (a + b)[i].detour);
    }
  }

  lemma {:induction false} EntriesClosed<T>(nodes: seq<T>, entry: T -> seq<Entry>, name: T -> string)
    requires forall n :: Closed(entry(n)) && HasTag(entry(n), name(n))
    ensures Closed(Entries(nodes, entry))
    ensures forall tag :: Names(nodes, name, tag) ==> HasTag(Entries(nodes, entry), tag)
  {
    if nodes != [] {
      var front, last := nodes[..|nodes| - 1], nodes[|nodes| - 1];
      EntriesClosed(front, entry, name);
      ClosedAppend(Entries(front, entry), entry(last));
      assert nodes[..|nodes|] == nodes;
      NamesStep(nodes, name, |nodes| - 1);
      forall tag | Names(nodes, name, tag)
        ensures HasTag(Entries(nodes, entry), tag)
      {
        HasTagAppend(Entries(front, entry), entry(last), tag);
      }
    }
  }

  lemma InboundEntryClosed(i: Inbound)
    ensures Closed(InboundEntry(i)) && HasTag(InboundEntry(i), InboundName(i))
  {
    assert InboundEntry(i)[0].tag == i.name;
    if |InboundEntry(i)| == 2 {
      assert InboundEntry(i)[1].tag == InboundEntry(i)[0].detour;
    }
  }

  lemma OutboundEntryClosed(o: Outbound)
    ensures Closed(OutboundEntry(o)) && HasTag(OutboundEntry(o), OutboundName(o))
  {
    if |OutboundEntry(o)| == 2 {
      assert OutboundEntry(o)[0].tag == OutboundEntry(o)[1].detour;
      assert OutboundEntry(o)[1].tag == o.name;
    } else {
      assert OutboundEntry(o)[0].tag == o.name;
    }
  }

  /** Nothing dangles: every outbound, inbound, final and detour of the output names an emitted tag. */
  lemma NoDanglingTags(c: Config)
    requires ConfigOk(c) && CleanInbounds(c.inbounds)
    ensures var r := RuntimeOf(c);
      var ins := Entries(r.inbounds, InboundEntry);
      var outs := [Entry("direct", "")] + Entries(r.outbounds, OutboundEntry);
      && Closed(ins) && Closed(outs)
      && HasTag(outs, RouteFinal(r.routing))
      && forall rule :: rule in RouteRules(r.routing) ==>
           && HasTag(outs, rule.outbound)
           && (rule.field.InboundMatch? ==> forall name :: name in rule.items ==> HasTag(ins, name))
  {
    hide NodesOk, RuleOk, Written, RoutingMode, InboundEntry, OutboundEntry, Closed, RuleMatchType, RuleValue, SplitCSV;
    var r := RuntimeOf(c);
    var direct := [Entry("direct", "")];
    forall i
      ensures Closed(InboundEntry(i)) && HasTag(InboundEntry(i), InboundName(i))
    {
      InboundEntryClosed(i);
    }
    forall o
      ensures Closed(OutboundEntry(o)) && HasTag(OutboundEntry(o), OutboundName(o))
    {
      OutboundEntryClosed(o);
    }
    EntriesClosed(r.inbounds, InboundEntry, InboundName);
    EntriesClosed(r.outbounds, OutboundEntry, OutboundName);
    DirectClosed();
    ClosedAppend(direct, Entries(r.outbounds, OutboundEntry));
    ReachableHasTag(r.outbounds, RouteFinal(r.routing));
    forall rule | rule in RouteRules(r.routing)
      ensures HasTag(direct + Entries(r.outbounds, OutboundEntry), rule.outbound)
      ensures rule.field.InboundMatch? ==> forall name :: name in rule.items ==> Names(r.inbounds, InboundName, name)
    {
      RuleRefersToNodes(c, rule);
      ReachableHasTag(r.outbounds, rule.outbound);
    }
  }

  lemma RuleRefersToNodes(c: Config, rule: RouteRule)
    requires ConfigOk(c) && CleanInbounds(c.inbounds) && rule in RouteRules(RuntimeOf(c).routing)
    ensures Reachable(RuntimeOf(c).outbounds, rule.outbound)
    ensures rule.field.InboundMatch? ==> forall name :: name in rule.items ==> Names(RuntimeOf(c).inbounds, InboundName, name)
  {
    hide ConfigOk, CleanInbounds, Written, RuleMatchType, RuleValue, SplitCSV, RuntimeOf, Names, Reachable;
    var source := RuleBehind(RuntimeOf(c).routing, rule);
    RuntimeInboundRules(c);
    if rule.field.InboundMatch? {
      RuntimeNamesClean(c, RuleValue(source));
      SplitCSVClean(RuleValue(source));
    }
  }

  lemma DirectClosed()
    ensures Closed([Entry("direct", "")])
  {}

  lemma ReachableHasTag(outbounds: seq<Outbound>, name: string)
    requires forall tag :: Names(outbounds, OutboundName, tag) ==> HasTag(Entries(outbounds, OutboundEntry), tag)
    requires Reachable(outbounds, name)
    ensures HasTag([Entry("direct", "")] + Entries(outbounds, OutboundEntry), name)
  {
    hide OutboundEntry;
    var direct := [Entry("direct", "")];
    assert direct[0].tag == "direct";
    HasTagAppend(direct, Entries(outbounds, OutboundEntry), name);
  }

  lemma RuleBehind(routing: RoutingConfig, rule: RouteRule) returns (source: Rule)
    requires rule in RouteRules(routing)
    ensures source in Filter(Sort(routing.rules), Enabled) && RuleObject(source) == rule
  {
    var enabled := Filter(Sort(routing.rules), Enabled);
    var i :| 0 <= i < |RouteRules(routing)| && RouteRules(routing)[i] == rule;
    source := Filter(enabled, Written)[i];
    FilterMembers(enabled, Written);
  }

  lemma RuntimeNamesClean(c: Config, name: string)
    requires CleanInbounds(c.inbounds) && Names(RuntimeOf(c).inbounds, InboundName, name)
    ensures Clean(name)
  {
    var ins := RuntimeOf(c).inbounds;
    var i :| 0 <= i < |ins| && InboundName(ins[i]) == name;
    FilterMembers(c.inbounds, InboundEnabled);
    assert ins[i] in c.inbounds;
  }

  /**
   The object under the node's own name is the one that hands over: a shadowtls inbound to its inner shadowsocks, a
   shadowsocks outbound over shadowtls to its shadowtls; the other object hands over to none.
   */
  lemma DetourDirection(i: Inbound, o: Outbound)
    ensures forall e :: e in InboundEntry(i) && e.detour != "" ==>
      e.tag == i.name && i.protocol == Shadowtls && e.detour == i.name + "-shadowsocks"
    ensures forall e :: e in OutboundEntry(o) && e.detour != "" ==>
      e.tag == o.name && ProtocolText(o.protocol) in {"shadowsocks", "ss"} && o.transport == "shadowtls" && e.detour == o.name + "-shadowtls"
    ensures i.protocol == Shadowtls ==> exists e :: e in InboundEntry(i) && e.detour != ""
  {
    if i.protocol == Shadowtls {
      var e := InboundEntry(i)[0];
      assert e in InboundEntry(i) && |e.detour| > 0;
    }
  }

  /* ----- tags that occur twice ----- */

  predicate DistinctTags(entries: seq<Entry>) {
    forall i, j :: 0 <= i < j < |entries| ==> entries[i].tag != entries[j].tag
  }

  predicate Disjoint(a: seq<Entry>, b: seq<Entry>) {
    forall i, j :: 0 <= i < |a| && 0 <= j < |b| ==> a[i].tag != b[j].tag
  }

  lemma DistinctAppend(a: seq<Entry>, b: seq<Entry>)
    ensures DistinctTags(a + b) <==> DistinctTags(a) && DistinctTags(b) && Disjoint(a, b)
  {
    var all := a + b;
    if DistinctTags(all) {
      forall i, j | 0 <= i < j < |a|
        ensures a[i].tag != a[j].tag
      {
        assert all[i].tag != all[j].tag;
      }
      forall i, j | 0 <= i < j < |b|
        ensures b[i].tag != b[j].tag
      {
        assert all[|a| + i].tag != all[|a| + j].tag;
      }
      forall i, j | 0 <= i < |a| && 0 <= j < |b|
        ensures a[i].tag != b[j].tag
      {
        assert all[i].tag != all[|a| + j].tag;
      }
    }
  }

  lemma {:induction false} DisjointEntries<T>(nodes: seq<T>, entry: T -> seq<Entry>, b: seq<Entry>)
    ensures Disjoint(Entries(nodes, entry), b) <==> forall i :: 0 <= i < |nodes| ==> Disjoint(entry(nodes[i]), b)
  {
    if nodes != [] {
      var front, last := nodes[..|nodes| - 1], nodes[|nodes| - 1];
      DisjointEntries(front, entry, b);
      DisjointAppend(Entries(front, entry), entry(last), b);
      assert forall i :: 0 <= i < |front| ==> front[i] == nodes[i];
    }
  }

  lemma DisjointAppend(a: seq<Entry>, a': seq<Entry>, b: seq<Entry>)
    ensures Disjoint(a + a', b) <==> Disjoint(a, b) && Disjoint(a', b)
  {
    var all := a + a';
    if Disjoint(all, b) {
      forall i, j | 0 <= i < |a| && 0 <= j < |b|
        ensures a[i].tag != b[j].tag
      {
        assert all[i].tag != b[j].tag;
      }
      forall i, j | 0 <= i < |a'| && 0 <= j < |b|
        ensures a'[i].tag != b[j].tag
      {
        assert all[|a| + i].tag != b[j].tag;
      }
    }
  }

  lemma {:induction false} DistinctEntries<T>(nodes: seq<T>, entry: T -> seq<Entry>)
    ensures DistinctTags(Entries(nodes, entry)) <==>
      && (forall i :: 0 <= i < |nodes| ==> DistinctTags(entry(nodes[i])))
      && (forall i, j :: 0 <= i < j < |nodes| ==> Disjoint(entry(nodes[i]), entry(nodes[j])))
  {
    hide DistinctTags, Disjoint;
    if nodes == [] {
      assert DistinctTags([]) by { NoTags(); }
    } else {
      var n := |nodes| - 1;
      var front, last := nodes[..n], nodes[n];
      DistinctEntries(front, entry);
      DistinctAppend(Entries(front, entry), entry(last));
      DisjointEntries(front, entry, entry(last));
      assert forall i :: 0 <= i < n ==> front[i] == nodes[i];
    }
  }

  lemma NoTags()
    ensures DistinctTags([])
  {}

  lemma Ending(a: string, b: string, ending: string)
    ensures a + ending == b + ending ==> a == b
    ensures ending != "" ==> a + ending != a
  {
    if a + ending == b + ending {
      assert (a + ending)[..|a|] == a && (b + ending)[..|b|] == b;
    }
    assert ending != "" ==> |a + ending| > |a|;
  }

  // One of the two is called what the other's second object is called.
  predicate OutboundsClash(o: Outbound, p: Outbound) {
    (Doubled(o) && p.name == o.name + SHADOWTLS) || (Doubled(p) && o.name == p.name + SHADOWTLS)
  }

  predicate InboundsClash(i: Inbound, j: Inbound) {
    (i.protocol.Shadowtls? && j.name == i.name + SHADOWSOCKS) || (j.protocol.Shadowtls? && i.name == j.name + SHADOWSOCKS)
  }

  lemma OutboundEntryDistinct(o: Outbound)
    ensures DistinctTags(OutboundEntry(o))
  {
    Ending(o.name, o.name, SHADOWTLS);
  }

  lemma InboundEntryDistinct(i: Inbound)
    ensures DistinctTags(InboundEntry(i))
  {
    Ending(i.name, i.name, SHADOWSOCKS);
  }

  lemma OutboundEntriesDisjoint(o: Outbound, p: Outbound)
    requires o.name != p.name
    ensures Disjoint(OutboundEntry(o), OutboundEntry(p)) <==> !OutboundsClash(o, p)
  {
    Ending(o.name, p.name, SHADOWTLS);
    var a, b := OutboundEntry(o), OutboundEntry(p);
    assert a[|a| - 1].tag == o.name && b[|b| - 1].tag == p.name;
    assert Doubled(o) ==> a[0].tag == o.name + SHADOWTLS;
    assert Doubled(p) ==> b[0].tag == p.name + SHADOWTLS;
  }

  lemma InboundEntriesDisjoint(i: Inbound, j: Inbound)
    requires i.name != j.name
    ensures Disjoint(InboundEntry(i), InboundEntry(j)) <==> !InboundsClash(i, j)
  {
    Ending(i.name, j.name, SHADOWSOCKS);
    var a, b := InboundEntry(i), InboundEntry(j);
    assert a[0].tag == i.name && b[0].tag == j.name;
    assert i.protocol.Shadowtls? ==> a[1].tag == i.name + SHADOWSOCKS;
    assert j.protocol.Shadowtls? ==> b[1].tag == j.name + SHADOWSOCKS;
  }

  lemma DirectDisjoint(o: Outbound)
    ensures Disjoint([Entry("direct", "")], OutboundEntry(o)) <==> o.name != "direct"
  {
    var a, b := [Entry("direct", "")], OutboundEntry(o);
    assert a[0].tag == "direct" && b[|b| - 1].tag == o.name;
    assert |o.name + SHADOWTLS| > |"direct"|;
  }

  /**
   The tags of a valid configuration's inbounds are distinct exactly when no inbound is called what the second object
   of a shadowtls inbound is called.
   */
  lemma InboundTagsDistinctIff(inbounds: seq<Inbound>)
    requires Distinct(inbounds, InboundName)
    ensures DistinctTags(Entries(inbounds, InboundEntry)) <==>
            forall i, j :: 0 <= i < j < |inbounds| ==> !InboundsClash(inbounds[i], inbounds[j])
  {
    hide InboundEntry, DistinctTags, Disjoint, InboundsClash;
    DistinctEntries(inbounds, InboundEntry);
    forall i | 0 <= i < |inbounds|
      ensures DistinctTags(InboundEntry(inbounds[i]))
    {
      InboundEntryDistinct(inbounds[i]);
    }
    forall i, j | 0 <= i < j < |inbounds|
      ensures Disjoint(InboundEntry(inbounds[i]), InboundEntry(inbounds[j])) <==> !InboundsClash(inbounds[i], inbounds[j])
    {
      assert InboundName(inbounds[i]) != InboundName(inbounds[j]);
      InboundEntriesDisjoint(inbounds[i], inbounds[j]);
    }
  }

  /**
   The tags of its outbounds, with the direct one that is always written, are distinct exactly when no outbound is
   called "direct" or what the second object of a shadowsocks outbound over shadowtls is called.
   */
  lemma OutboundTagsDistinctIff(outbounds: seq<Outbound>)
    requires Distinct(outbounds, OutboundName)
    ensures DistinctTags([Entry("direct", "")] + Entries(outbounds, OutboundEntry)) <==>
      && (forall i :: 0 <= i < |outbounds| ==> outbounds[i].name != "direct")
      && (forall i, j :: 0 <= i < j < |outbounds| ==> !OutboundsClash(outbounds[i], outbounds[j]))
  {
    hide OutboundEntry, DistinctTags, Disjoint, OutboundsClash;
    var direct := [Entry("direct", "")];
    DistinctAppend(direct, Entries(outbounds, OutboundEntry));
    assert DistinctTags(direct) by { OneTag("direct"); }
    DistinctEntries(outbounds, OutboundEntry);
    DisjointEntries(outbounds, OutboundEntry, direct);
    DisjointBothWays(Entries(outbounds, OutboundEntry), direct);
    forall i | 0 <= i < |outbounds|
      ensures DistinctTags(OutboundEntry(outbounds[i]))
      ensures Disjoint(OutboundEntry(outbounds[i]), direct) <==> outbounds[i].name != "direct"
    {
      OutboundEntryDistinct(outbounds[i]);
      DirectDisjoint(outbounds[i]);
      DisjointBothWays(OutboundEntry(outbounds[i]), direct);
    }
    forall i, j | 0 <= i < j < |outbounds|
      ensures Disjoint(OutboundEntry(outbounds[i]), OutboundEntry(outbounds[j])) <==> !OutboundsClash(outbounds[i], outbounds[j])
    {
      assert OutboundName(outbounds[i]) != OutboundName(outbounds[j]);
      OutboundEntriesDisjoint(outbounds[i], outbounds[j]);
    }
  }

  lemma OneTag(tag: string)
    ensures DistinctTags([Entry(tag, "")])
  {}

  lemma DisjointBothWays(a: seq<Entry>, b: seq<Entry>)
    ensures Disjoint(a, b) <==> Disjoint(b, a)
  {}

  /** An outbound may be called "direct"; its tag is then written twice. */
  lemma DirectTwice()
    ensures var c := PlainConfig([], [PlainOutbound("direct", Http, 80, false)], RuleMode, "", []);
      ConfigOk(c) && !DistinctTags([Entry("direct", "")] + Entries(c.outbounds, OutboundEntry))
  {
    var outbounds := [PlainOutbound("direct", Http, 80, false)];
    OutboundTagsDistinctIff(outbounds);
    assert outbounds[0].name == "direct";
  }
}
