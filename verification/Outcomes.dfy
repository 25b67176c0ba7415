/**
 Which operations go through: for every operation but the import, what a caller can check beforehand is exactly what
 decides whether it is done, provided that nothing fails in the commit.
 */
module Outcomes {
  import opened Text
  import opened Config
  import opened Sorting
  import opened Routing
  import opened Store
  import opened Import
  import opened Runs
  import opened Operations
  import opened Effects

  predicate HasInbound(c: Config, name: string) { Names(c.inbounds, InboundName, name) }
  predicate HasOutbound(c: Config, name: string) { Names(c.outbounds, OutboundName, name) }

  predicate Has(c: Config, item: Item) {
    match item.kind
    case InboundNode => HasInbound(c, item.name)
    case OutboundNode => HasOutbound(c, item.name)
    case OtherNode => false
  }

  // The default outbound is not among the items, unless it is "direct", which needs no node.
  predicate SparesDefault(c: Config, items: seq<Item>) {
    c.routing.defaultOutbound == "direct" || Item(OutboundNode, c.routing.defaultOutbound) !in items
  }

  /** What an operation needs, read off the configuration as it is before. */
  predicate Feasible(s: State, op: Op, parse: Parser, f: Faults) {
    match op
    case DoApplyConfig(cfg) =>
      ConfigOk(cfg.(outbounds := Map(Enricher(parse), cfg.outbounds))) && (s.kernel == KernelName(cfg.kernel.kind) || !f.stopKernel)
    case DoUpdateKernel(kernel) => s.kernel == KernelName(kernel.kind) || !f.stopKernel
    case DoUpdateMihomo(_) => true
    case DoUpdateRouting(routing) => RoutingOk(routing, s.cfg.inbounds, s.cfg.outbounds)
    case DoCreateProxy(i) =>
      && i.name != "" && 1 <= i.port <= 65535 && !HasInbound(s.cfg, i.name) && !f.certificate
      && InboundOk(if i.protocol == OtherProtocol("") then i.(protocol := Socks) else i)
    case DoCreateForward(q) =>
      && q.name != "" && 1 <= q.listenPort <= 65535 && q.targetHost != "" && 1 <= q.targetPort <= 65535
      && q.protocol in {Tcp, Udp, OtherProtocol("")} && !HasInbound(s.cfg, q.name)
      && (RoutingMode(s.cfg.routing.mode) == RuleMode ==> forall r :: r in s.cfg.routing.rules ==> r.name != q.name + "-route")
    case DoUpsertInbound(i) => i.name != "" && 1 <= i.port <= 65535 && !f.certificate && InboundOk(i)
    case DoUpsertOutbound(originalName, o) =>
      && o.name != "" && o.address != "" && 1 <= o.port <= 65535 && OutboundOk(o)
      && (originalName != "" && originalName != o.name ==> HasOutbound(s.cfg, originalName) && !HasOutbound(s.cfg, o.name))
    case DoImport(_, _, _) => true
    case DoDeleteNode(item) => Has(s.cfg, item) && SparesDefault(s.cfg, [item])
    case DoDeleteNodes(items) => items != [] && (forall item :: item in items ==> Has(s.cfg, item)) && SparesDefault(s.cfg, items)
    case DoSetEnabled(item, _) => Has(s.cfg, item)
    case DoSetNodesEnabled(items, _) => items != [] && forall item :: item in items ==> Has(s.cfg, item)
  }

  /* ----- nodes and routing after an edit ----- */

  lemma NothingFails(failing: set<Step>)
    ensures FirstFailure(COMMIT_STEPS, failing).None? <==> failing == {}
  {
    if failing != {} {
      var step :| step in failing;
      var steps := [TLSAssets, Generate, ReadGenerated, WriteGenerated, RunKernel, SaveYaml, SaveHistory, SaveRuntime];
      assert COMMIT_STEPS == steps;
      assert steps[0].TLSAssets? && steps[1].Generate? && steps[2].ReadGenerated? && steps[3].WriteGenerated?
             && steps[4].RunKernel? && steps[5].SaveYaml? && steps[6].SaveHistory? && steps[7].SaveRuntime?;
      var k :| 0 <= k < 8 && steps[k] == step;
      SomeFailure(steps, failing, k);
    } else {
      NoFailure(COMMIT_STEPS);
    }
  }

  lemma {:induction false} NoFailure(steps: seq<Step>)
    ensures FirstFailure(steps, {}).None?
  {
    if steps != [] {
      NoFailure(steps[1..]);
    }
  }

  lemma {:induction false} SomeFailure(steps: seq<Step>, failing: set<Step>, k: nat)
    requires k < |steps| && steps[k] in failing
    ensures FirstFailure(steps, failing).Some?
  {
    if steps[0] !in failing {
      SomeFailure(steps[1..], failing, k - 1);
    }
  }

  lemma ExistsIff(s: State, item: Item)
    requires Consistent(s) && ConfigOk(s.cfg)
    ensures item.name != "" && Exists(s, item) <==> Has(s.cfg, item)
  {
    hide InboundOk, OutboundOk, RoutingOk;
  }

  lemma AllExistIff(s: State, items: seq<Item>)
    requires Consistent(s) && ConfigOk(s.cfg)
    ensures AllExist(s, items) <==> forall item :: item in items ==> Has(s.cfg, item)
  {
    hide Consistent, ConfigOk, Exists, Has;
    forall item: Item
      ensures item.name != "" && Exists(s, item) <==> Has(s.cfg, item)
    {
      ExistsIff(s, item);
    }
  }

  predicate Covers<T>(xs: seq<T>, ys: seq<T>, key: T -> string) {
    forall i :: 0 <= i < |xs| ==> Names(ys, key, key(xs[i]))
  }

  lemma RoutingStays(routing: RoutingConfig, ins: seq<Inbound>, outs: seq<Outbound>, ins': seq<Inbound>, outs': seq<Outbound>)
    requires RoutingOk(routing, ins, outs) && Covers(ins, ins', InboundName) && Covers(outs, outs', OutboundName)
    ensures RoutingOk(routing, ins', outs')
  {
    hide RuleMatchType, RuleValue;
  }

  predicate InboundFits(i: Inbound) { i.name != "" && ValidPort(i.port) && InboundOk(i) }
  predicate OutboundFits(o: Outbound) { o.name != "" && ValidPort(o.port) && OutboundOk(o) }

  lemma NodesByMembers(ins: seq<Inbound>, outs: seq<Outbound>)
    ensures NodesOk(ins, outs) <==>
      && (forall i :: i in ins ==> InboundFits(i)) && Distinct(ins, InboundName)
      && (forall o :: o in outs ==> OutboundFits(o)) && Distinct(outs, OutboundName)
  {
    hide InboundOk, OutboundOk;
    if forall i :: 0 <= i < |ins| ==> ins[i].name != "" && ValidPort(ins[i].port) && InboundOk(ins[i]) {
      assert forall i :: i in ins ==> InboundFits(i);
    }
    if forall i :: i in ins ==> InboundFits(i) {
      assert forall k :: 0 <= k < |ins| ==> InboundFits(ins[k]);
    }
    if forall o :: o in outs ==> OutboundFits(o) {
      assert forall k :: 0 <= k < |outs| ==> OutboundFits(outs[k]);
    }
    if forall o :: 0 <= o < |outs| ==> outs[o].name != "" && ValidPort(outs[o].port) && OutboundOk(outs[o]) {
      assert forall o :: o in outs ==> OutboundFits(o);
    }
  }

  lemma UpsertMembers<T>(xs: seq<T>, key: T -> string, x: T, m: map<string, T>)
    requires Distinct(xs, key) && Keyed(xs, key, m)
    ensures Distinct(Upsert(xs, key, x), key) && Covers(xs, Upsert(xs, key, x), key)
    ensures x in Upsert(xs, key, x) && forall y :: y in Upsert(xs, key, x) ==> y == x || y in xs
  {
    UpsertKeyed(xs, key, x, m);
    var ys := Upsert(xs, key, x);
    forall i | 0 <= i < |xs|
      ensures Names(ys, key, key(xs[i]))
    {
      assert key(ys[i]) == key(xs[i]);
    }
  }

  lemma SameCovers<T>(xs: seq<T>, key: T -> string)
    ensures Covers(xs, xs, key)
  {}

  lemma InboundPut(s: State, i: Inbound)
    requires Consistent(s) && ConfigOk(s.cfg) && InboundFits(i)
    ensures ConfigOk(s.cfg.(inbounds := Upsert(s.cfg.inbounds, InboundName, i)))
  {
    hide Upsert, InboundFits, OutboundFits, Distinct, Keyed, NodesOk, RoutingOk, Covers;
    var ins := Upsert(s.cfg.inbounds, InboundName, i);
    NodesByMembers(s.cfg.inbounds, s.cfg.outbounds);
    NodesByMembers(ins, s.cfg.outbounds);
    UpsertMembers(s.cfg.inbounds, InboundName, i, s.inbounds);
    SameCovers(s.cfg.outbounds, OutboundName);
    RoutingStays(s.cfg.routing, s.cfg.inbounds, s.cfg.outbounds, ins, s.cfg.outbounds);
  }

  // An outbound that is put back under the name of a node that is there.
  lemma OutboundPut(s: State, o: Outbound)
    requires Consistent(s) && ConfigOk(s.cfg) && o.name != "" && ValidPort(o.port)
    ensures ConfigOk(s.cfg.(outbounds := Upsert(s.cfg.outbounds, OutboundName, o))) <==> OutboundOk(o)
  {
    hide Upsert, InboundFits, OutboundOk, Distinct, Keyed, NodesOk, RoutingOk, Covers;
    var outs := Upsert(s.cfg.outbounds, OutboundName, o);
    NodesByMembers(s.cfg.inbounds, s.cfg.outbounds);
    NodesByMembers(s.cfg.inbounds, outs);
    UpsertMembers(s.cfg.outbounds, OutboundName, o, s.outbounds);
    SameCovers(s.cfg.inbounds, InboundName);
    RoutingStays(s.cfg.routing, s.cfg.inbounds, s.cfg.outbounds, s.cfg.inbounds, outs);
  }

  lemma InboundAppended(c: Config, i: Inbound, rules: seq<Rule>)
    requires ConfigOk(c) && InboundFits(i) && !HasInbound(c, i.name)
    requires RoutingOk(c.routing.(rules := rules), c.inbounds + [i], c.outbounds)
    ensures ConfigOk(c.(inbounds := c.inbounds + [i], routing := c.routing.(rules := rules)))
  {
    hide InboundFits, OutboundFits, NodesOk, RoutingOk, OutboundOk;
    NodesByMembers(c.inbounds, c.outbounds);
    NodesByMembers(c.inbounds + [i], c.outbounds);
    assert InboundName(i) == i.name;
  }

  lemma RoutingWithInbound(c: Config, i: Inbound)
    requires ConfigOk(c)
    ensures RoutingOk(c.routing, c.inbounds + [i], c.outbounds)
  {
    hide NodesOk, RoutingOk;
    var ins := c.inbounds + [i];
    forall k | 0 <= k < |c.inbounds|
      ensures Names(ins, InboundName, InboundName(c.inbounds[k]))
    {
      assert ins[k] == c.inbounds[k];
    }
    SameCovers(c.outbounds, OutboundName);
    RoutingStays(c.routing, c.inbounds, c.outbounds, ins, c.outbounds);
  }

  /* ----- creating ----- */

  lemma CreateProxyDone(s: State, proxy: Inbound, parse: Parser, f: Faults)
    requires Consistent(s) && ConfigOk(s.cfg)
    ensures Feasible(s, DoCreateProxy(proxy), parse, f) <==> CreateProxy(s, proxy, f).Proceed?
    ensures CreateProxy(s, proxy, f).Proceed? ==> ConfigOk(CreateProxy(s, proxy, f).next.cfg)
  {
    hide ConfigOk, Consistent, InboundOk, Watched, Names;
    var i := WithDefaultProtocol(proxy);
    InboundsKnown(s, i.name);
    if CreateProxy(s, proxy, f).Proceed? {
      RoutingWithInbound(s.cfg, i);
      InboundAppended(s.cfg, i, s.cfg.routing.rules);
      WatchedSame(WithInbounds(s, s.cfg.inbounds + [i]).(inbounds := s.inbounds[i.name := i]), i.name, i.disabled);
    }
  }

  lemma InboundsKnown(s: State, name: string)
    requires Consistent(s)
    ensures HasInbound(s.cfg, name) <==> name in s.inbounds
    ensures HasOutbound(s.cfg, name) <==> name in s.outbounds
  {}

  // The rule of a forward is acceptable unless a rule of its name is there.
  lemma RoutingWithForward(c: Config, i: Inbound, priority: int)
    requires ConfigOk(c) && i.name != ""
    ensures RoutingOk(c.routing.(rules := c.routing.rules + [ForwardRule(i.name, priority)]), c.inbounds + [i], c.outbounds) <==>
            (RoutingMode(c.routing.mode) == RuleMode ==> forall r :: r in c.routing.rules ==> r.name != i.name + "-route")
  {
    hide NodesOk, RuleOk;
    RoutingWithInbound(c, i);
    var last := ForwardRule(i.name, priority);
    ForwardRuleOk(c, i, priority);
    var front, rules := c.routing.rules, c.routing.rules + [last];
    if DistinctRuleNames(rules) {
      forall r | r in front
        ensures r.name != last.name
      {
        var k :| 0 <= k < |front| && front[k] == r;
        assert rules[k] == r && rules[|front|] == last && last.name != "";
      }
    }
    assert forall k :: 0 <= k < |rules| ==> rules[k] == if k < |front| then front[k] else last;
  }

  lemma ForwardRuleOk(c: Config, i: Inbound, priority: int)
    requires i.name != ""
    ensures RuleOk(ForwardRule(i.name, priority), c.inbounds + [i], c.outbounds)
  {
    assert InboundName((c.inbounds + [i])[|c.inbounds|]) == i.name;
  }

  lemma ForwardEdit(s: State, q: ForwardRequest)
    requires Consistent(s)
    ensures CreateForward(s, q).Proceed? <==> ForwardOk(q) && !HasInbound(s.cfg, q.name)
    ensures CreateForward(s, q).Proceed? ==>
      var i, rule := ForwardInbound(q), ForwardRule(q.name, NextPriority(s.rules));
      && i.name == q.name && InboundFits(i)
      && CreateForward(s, q).next.cfg ==
         s.cfg.(inbounds := s.cfg.inbounds + [i], routing := s.cfg.routing.(rules := s.cfg.routing.rules + [rule]))
  {
    hide Consistent, Watched, Names, NextPriority;
    InboundsKnown(s, q.name);
    if CreateForward(s, q).Proceed? {
      var i, rule := ForwardInbound(q), ForwardRule(q.name, NextPriority(s.rules));
      var t := WithInbounds(s, s.cfg.inbounds + [i]).(inbounds := s.inbounds[i.name := i], rules := s.rules + [rule]);
      WatchedSame(WithRules(t, s.cfg.routing.rules + [rule]), i.name, i.disabled);
    }
  }

  lemma CreateForwardDone(s: State, q: ForwardRequest, parse: Parser, f: Faults)
    requires Consistent(s) && ConfigOk(s.cfg)
    ensures Feasible(s, DoCreateForward(q), parse, f) <==> CreateForward(s, q).Proceed? && ConfigOk(CreateForward(s, q).next.cfg)
  {
    hide ConfigOk, Consistent, InboundFits, RoutingOk, CreateForward, ForwardRule, Names, NextPriority, HasInbound;
    ForwardEdit(s, q);
    if CreateForward(s, q).Proceed? {
      var i, rule := ForwardInbound(q), ForwardRule(q.name, NextPriority(s.rules));
      RoutingWithForward(s.cfg, i, NextPriority(s.rules));
      var rules := s.cfg.routing.rules + [rule];
      if RoutingOk(s.cfg.routing.(rules := rules), s.cfg.inbounds + [i], s.cfg.outbounds) {
        InboundAppended(s.cfg, i, rules);
      }
      ValidRouting(s.cfg.(inbounds := s.cfg.inbounds + [i], routing := s.cfg.routing.(rules := rules)));
    }
  }

  lemma ValidRouting(c: Config)
    ensures ConfigOk(c) ==> RoutingOk(c.routing, c.inbounds, c.outbounds)
  {}

  /* ----- storing ----- */

  lemma UpsertInboundDone(s: State, i: Inbound, parse: Parser, f: Faults)
    requires Consistent(s) && ConfigOk(s.cfg)
    ensures Feasible(s, DoUpsertInbound(i), parse, f) <==> UpsertInbound(s, i, f).Proceed?
    ensures UpsertInbound(s, i, f).Proceed? ==> ConfigOk(UpsertInbound(s, i, f).next.cfg)
  {
    hide ConfigOk, Consistent, InboundOk, Watched, Upsert;
    if UpsertInbound(s, i, f).Proceed? {
      InboundPut(s, i);
      WatchedSame(PutInbound(s, i), i.name, i.disabled);
    }
  }

  // The configuration before the renamed node is put under its new name.
  lemma RenamedRouting(c: Config, from: string, to: string, outs: seq<Outbound>)
    requires RoutingOk(c.routing, c.inbounds, c.outbounds) && from != "" && to != ""
    requires Names(outs, OutboundName, to)
    requires forall name :: name != from && Names(c.outbounds, OutboundName, name) ==> Names(outs, OutboundName, name)
    ensures RoutingOk(RenamedRoutingOf(c.routing, from, to), c.inbounds, outs)
  {
    hide Names;
    var rules := Map(RenameOutbound(from, to), c.routing.rules);
    assert |rules| == |c.routing.rules|;
    forall k | 0 <= k < |rules|
      ensures rules[k].name == c.routing.rules[k].name && rules[k].disabled == c.routing.rules[k].disabled
      ensures RuleOk(c.routing.rules[k], c.inbounds, c.outbounds) ==> RuleOk(rules[k], c.inbounds, outs)
    {}
  }

  function RenamedRoutingOf(routing: RoutingConfig, from: string, to: string): RoutingConfig {
    routing.(rules := Map(RenameOutbound(from, to), routing.rules),
             defaultOutbound := if routing.defaultOutbound == from then to else routing.defaultOutbound)
  }

  lemma RenamedNodes(s: State, from: string, o: Outbound)
    requires Consistent(s) && ConfigOk(s.cfg) && from != "" && from != o.name && o.name != "" && ValidPort(o.port)
    ensures ConfigOk(PutOutbound(Renamed(s, from, o.name), o).cfg) <==> OutboundOk(o)
  {
    hide Upsert, OutboundOk, InboundFits, Distinct, Keyed, NodesOk, RoutingOk, RenameOutbound, Covers, Names, Rename;
    var rest := Remove(s.cfg.outbounds, OutboundName, from);
    var outs := Upsert(rest, OutboundName, o);
    RemoveKeyed(s.cfg.outbounds, OutboundName, from, s.outbounds);
    FilterMembers(s.cfg.outbounds, NotNamed(OutboundName, from));
    UpsertMembers(rest, OutboundName, o, s.outbounds - {from});
    NodesByMembers(s.cfg.inbounds, s.cfg.outbounds);
    NodesByMembers(s.cfg.inbounds, outs);
    RenamedNames(s.cfg.outbounds, from, o, outs);
    RenamedRouting(s.cfg, from, o.name, outs);
    assert PutOutbound(Renamed(s, from, o.name), o).cfg == s.cfg.(outbounds := outs, routing := RenamedRoutingOf(s.cfg.routing, from, o.name));
  }

  lemma RenamedNames(xs: seq<Outbound>, from: string, o: Outbound, ys: seq<Outbound>)
    requires o in ys && Covers(Remove(xs, OutboundName, from), ys, OutboundName)
    ensures Names(ys, OutboundName, o.name)
    ensures forall name :: name != from && Names(xs, OutboundName, name) ==> Names(ys, OutboundName, name)
  {
    var k :| 0 <= k < |ys| && ys[k] == o;
    assert OutboundName(ys[k]) == o.name;
    FilterMembers(xs, NotNamed(OutboundName, from));
    forall name | name != from && Names(xs, OutboundName, name)
      ensures Names(ys, OutboundName, name)
    {
      var i :| 0 <= i < |xs| && OutboundName(xs[i]) == name;
      assert xs[i] in Remove(xs, OutboundName, from);
      var j :| 0 <= j < |Remove(xs, OutboundName, from)| && Remove(xs, OutboundName, from)[j] == xs[i];
    }
  }

  lemma UpsertOutboundDone(s: State, originalName: string, o: Outbound, parse: Parser, f: Faults)
    requires Consistent(s) && ConfigOk(s.cfg)
    ensures Feasible(s, DoUpsertOutbound(originalName, o), parse, f) <==>
            UpsertOutbound(s, originalName, o).Proceed? && ConfigOk(UpsertOutbound(s, originalName, o).next.cfg)
  {
    hide ConfigOk, Consistent, Watched, PutOutbound, Renamed, HasOutbound;
    InboundsKnown(s, originalName);
    InboundsKnown(s, o.name);
    if UpsertOutbound(s, originalName, o).Proceed? {
      if IsRename(originalName, o) {
        RenamedNodes(s, originalName, o);
        WatchedSame(PutOutbound(Renamed(s, originalName, o.name), o), o.name, o.disabled);
      } else {
        OutboundPut(s, o);
        PutIsUpsert(s, o);
        WatchedSame(PutOutbound(s, o), o.name, o.disabled);
      }
    }
  }

  lemma PutIsUpsert(s: State, o: Outbound)
    ensures PutOutbound(s, o).cfg == s.cfg.(outbounds := Upsert(s.cfg.outbounds, OutboundName, o))
  {}

  /* ----- deleting and switching ----- */

  lemma {:induction false} DistinctNamesFiltered(rules: seq<Rule>, keep: Rule -> bool)
    requires DistinctRuleNames(rules)
    ensures DistinctRuleNames(Filter(rules, keep))
  {
    if rules != [] {
      var front := rules[..|rules| - 1];
      DistinctNamesFiltered(front, keep);
      FilterMembers(front, keep);
      var kept := Filter(front, keep);
      assert forall i :: 0 <= i < |kept| ==> kept[i] in front;
    }
  }

  lemma SurvivingNames(c: Config, items: set<Item>)
    ensures forall name :: Names(c.inbounds, InboundName, name) && Item(InboundNode, name) !in items ==>
                             Names(Filter(c.inbounds, InboundSurvives(items)), InboundName, name)
    ensures forall name :: Names(Filter(c.outbounds, OutboundSurvives(items)), OutboundName, name) <==>
                           Names(c.outbounds, OutboundName, name) && Item(OutboundNode, name) !in items
  {
    FilterMembers(c.inbounds, InboundSurvives(items));
    FilterMembers(c.outbounds, OutboundSurvives(items));
    NamesByMembers(c.inbounds, InboundName);
    NamesByMembers(c.outbounds, OutboundName);
    NamesByMembers(Filter(c.inbounds, InboundSurvives(items)), InboundName);
    NamesByMembers(Filter(c.outbounds, OutboundSurvives(items)), OutboundName);
  }

  lemma NamesByMembers<T>(xs: seq<T>, key: T -> string)
    ensures forall name :: Names(xs, key, name) ==> exists x :: x in xs && key(x) == name
    ensures forall x :: x in xs ==> Names(xs, key, key(x))
  {}

  lemma WithoutValidIff(s: State, items: set<Item>)
    requires ConfigOk(s.cfg)
    ensures ConfigOk(Without(s, items).cfg) <==>
            s.cfg.routing.defaultOutbound == "" || s.cfg.routing.defaultOutbound == "direct"
            || Item(OutboundNode, s.cfg.routing.defaultOutbound) !in items
  {
    hide InboundFits, OutboundFits, NodesOk, RoutingOk, Distinct, InboundSurvives, OutboundSurvives, RuleSurvives, Filter;
    var c := s.cfg;
    var t := Without(s, items).cfg;
    NodesByMembers(c.inbounds, c.outbounds);
    NodesByMembers(t.inbounds, t.outbounds);
    FilterMembers(c.inbounds, InboundSurvives(items));
    FilterMembers(c.outbounds, OutboundSurvives(items));
    FilterDistinct(c.inbounds, InboundName, InboundSurvives(items));
    FilterDistinct(c.outbounds, OutboundName, OutboundSurvives(items));
    WithoutRoutingIff(c, items);
  }

  lemma WithoutRoutingIff(c: Config, items: set<Item>)
    requires RoutingOk(c.routing, c.inbounds, c.outbounds)
    ensures RoutingOk(c.routing.(rules := Filter(c.routing.rules, RuleSurvives(items))),
                      Filter(c.inbounds, InboundSurvives(items)), Filter(c.outbounds, OutboundSurvives(items))) <==>
            c.routing.defaultOutbound == "" || c.routing.defaultOutbound == "direct"
            || Item(OutboundNode, c.routing.defaultOutbound) !in items
  {
    hide Names, DistinctRuleNames, RuleOk, InboundSurvives, OutboundSurvives, RuleSurvives, Filter;
    SurvivingNames(c, items);
    if RoutingMode(c.routing.mode) == RuleMode {
      DistinctNamesFiltered(c.routing.rules, RuleSurvives(items));
      SurvivingRules(c, items);
    }
  }

  lemma SurvivingRules(c: Config, items: set<Item>)
    requires forall i :: 0 <= i < |c.routing.rules| && !c.routing.rules[i].disabled ==> RuleOk(c.routing.rules[i], c.inbounds, c.outbounds)
    ensures var rules := Filter(c.routing.rules, RuleSurvives(items));
      forall i :: 0 <= i < |rules| && !rules[i].disabled ==>
        RuleOk(rules[i], Filter(c.inbounds, InboundSurvives(items)), Filter(c.outbounds, OutboundSurvives(items)))
  {
    hide Names, RuleMatchType, RuleValue, InboundSurvives, OutboundSurvives;
    var rules := Filter(c.routing.rules, RuleSurvives(items));
    SurvivingNames(c, items);
    FilterMembers(c.routing.rules, RuleSurvives(items));
    forall i | 0 <= i < |rules| && !rules[i].disabled
      ensures RuleOk(rules[i], Filter(c.inbounds, InboundSurvives(items)), Filter(c.outbounds, OutboundSurvives(items)))
    {
      assert rules[i] in rules;
      var k :| 0 <= k < |c.routing.rules| && c.routing.rules[k] == rules[i];
    }
  }

  lemma DeleteDone(s: State, items: seq<Item>, parse: Parser, f: Faults)
    requires Consistent(s) && ConfigOk(s.cfg)
    ensures Feasible(s, DoDeleteNodes(items), parse, f) <==> DeleteNodes(s, items).Proceed? && ConfigOk(DeleteNodes(s, items).next.cfg)
  {
    hide ConfigOk, Consistent, Without, DroppedAll, AllExist, Has;
    AllExistIff(s, items);
    if AllExist(s, items) {
      KindsKnown(s, items);
      DroppedAllIsWithout(s, items);
      WithoutValidIff(s, ItemSet(items));
      NamelessIsMissing(s.cfg);
    }
  }

  lemma KindsKnown(s: State, items: seq<Item>)
    requires AllExist(s, items)
    ensures forall i :: 0 <= i < |items| ==> items[i].kind != OtherNode
  {}

  lemma NamelessIsMissing(c: Config)
    requires ConfigOk(c)
    ensures !Has(c, Item(OutboundNode, ""))
  {
    hide InboundOk, OutboundOk;
  }

  lemma SwitchedValid(s: State, item: Item, enabled: bool)
    requires Consistent(s) && ConfigOk(s.cfg) && Exists(s, item)
    ensures ConfigOk(Switched(s, item, enabled).cfg)
  {
    hide Upsert, ConfigOk, WithHealth, Distinct, Keyed;
    if item.kind.InboundNode? {
      var i := s.inbounds[item.name];
      StoredInboundFits(s, item.name);
      assert InboundFits(i.(disabled := !enabled));
      InboundPut(s, i.(disabled := !enabled));
    } else {
      var o := s.outbounds[item.name];
      StoredOutboundFits(s, item.name);
      assert OutboundOk(o.(disabled := !enabled));
      OutboundPut(s, o.(disabled := !enabled));
    }
  }

  lemma StoredInboundFits(s: State, name: string)
    requires Consistent(s) && ConfigOk(s.cfg) && name in s.inbounds
    ensures InboundFits(s.inbounds[name])
  {
    hide InboundOk, OutboundOk, RoutingOk;
  }

  lemma StoredOutboundFits(s: State, name: string)
    requires Consistent(s) && ConfigOk(s.cfg) && name in s.outbounds
    ensures OutboundFits(s.outbounds[name])
  {
    hide InboundOk, OutboundOk, RoutingOk;
  }

  lemma {:induction false} SwitchedAllValid(s: State, items: seq<Item>, enabled: bool)
    requires Consistent(s) && ConfigOk(s.cfg) && AllExist(s, items)
    ensures ConfigOk(SwitchedAll(s, items, enabled).cfg)
  {
    hide Consistent, ConfigOk, Switched, OutboundsWatched;
    if items != [] {
      var front, last := items[..|items| - 1], items[|items| - 1];
      SwitchedAllValid(s, front, enabled);
      SwitchedAllConsistent(s, front, enabled);
      SwitchedValid(SwitchedAll(s, front, enabled), last, enabled);
    }
  }

  /* ----- the outcome of an operation ----- */

  lemma NextIsValidIff(s: State, op: Op, parse: Parser, f: Faults)
    requires Consistent(s) && ConfigOk(s.cfg) && !op.DoImport?
    ensures Feasible(s, op, parse, f) <==> EditOf(s, op, parse, f).Proceed? && ConfigOk(EditOf(s, op, parse, f).next.cfg)
  {
    hide Feasible;
    match op {
      case DoApplyConfig(cfg) => ApplyDone(s, cfg, parse, f);
      case DoUpdateKernel(_) => SettingsDone(s, op, parse, f);
      case DoUpdateMihomo(_) => SettingsDone(s, op, parse, f);
      case DoUpdateRouting(_) => SettingsDone(s, op, parse, f);
      case DoCreateProxy(proxy) => CreateProxyDone(s, proxy, parse, f);
      case DoCreateForward(q) => CreateForwardDone(s, q, parse, f);
      case DoUpsertInbound(i) => UpsertInboundDone(s, i, parse, f);
      case DoUpsertOutbound(originalName, o) => UpsertOutboundDone(s, originalName, o, parse, f);
      case DoDeleteNode(item) => DeleteOneDone(s, item, parse, f);
      case DoDeleteNodes(items) => DeleteDone(s, items, parse, f);
      case DoSetEnabled(item, enabled) => SwitchDone(s, item, enabled, parse, f);
      case DoSetNodesEnabled(items, enabled) => SwitchAllDone(s, items, enabled, parse, f);
    }
  }

  lemma ApplyDone(s: State, cfg: Config, parse: Parser, f: Faults)
    ensures var edit := ApplyConfig(s, cfg, Enricher(parse), f);
      Feasible(s, DoApplyConfig(cfg), parse, f) <==> edit.Proceed? && ConfigOk(edit.next.cfg)
  {
    hide ConfigOk, Enricher, WatchedInbounds, WatchedOutbounds, MapOf;
    var c := cfg.(outbounds := Map(Enricher(parse), cfg.outbounds));
    IndexedConfig(s.(cfg := c, rules := c.routing.rules));
  }

  lemma SettingsDone(s: State, op: Op, parse: Parser, f: Faults)
    requires ConfigOk(s.cfg) && (op.DoUpdateKernel? || op.DoUpdateMihomo? || op.DoUpdateRouting?)
    ensures Feasible(s, op, parse, f) <==> EditOf(s, op, parse, f).Proceed? && ConfigOk(EditOf(s, op, parse, f).next.cfg)
  {
    hide NodesOk, RoutingOk;
  }

  lemma DeleteOneDone(s: State, item: Item, parse: Parser, f: Faults)
    requires Consistent(s) && ConfigOk(s.cfg)
    ensures Feasible(s, DoDeleteNode(item), parse, f) <==> DeleteNode(s, item).Proceed? && ConfigOk(DeleteNode(s, item).next.cfg)
  {
    hide ConfigOk, Consistent, Has, Exists;
    DeleteDone(s, [item], parse, f);
    DroppedOne(s, item);
    ExistsIff(s, item);
    AllExistIff(s, [item]);
  }

  lemma SwitchDone(s: State, item: Item, enabled: bool, parse: Parser, f: Faults)
    requires Consistent(s) && ConfigOk(s.cfg)
    ensures Feasible(s, DoSetEnabled(item, enabled), parse, f) <==> SetEnabled(s, item, enabled).Proceed? && ConfigOk(SetEnabled(s, item, enabled).next.cfg)
  {
    hide ConfigOk, Consistent, Has, Exists, Switched;
    ExistsIff(s, item);
    if Exists(s, item) {
      SwitchedValid(s, item, enabled);
    }
  }

  lemma SwitchAllDone(s: State, items: seq<Item>, enabled: bool, parse: Parser, f: Faults)
    requires Consistent(s) && ConfigOk(s.cfg)
    ensures Feasible(s, DoSetNodesEnabled(items, enabled), parse, f) <==>
            SetNodesEnabled(s, items, enabled).Proceed? && ConfigOk(SetNodesEnabled(s, items, enabled).next.cfg)
  {
    hide ConfigOk, Consistent, Has, SwitchedAll, AllExist;
    AllExistIff(s, items);
    if AllExist(s, items) {
      SwitchedAllValid(s, items, enabled);
    }
  }

  /**
   Every operation but the import is done if and only if it is feasible as things stand and no step of its commit fails;
   otherwise nothing has changed.
   */
  lemma DoneIff(s: State, op: Op, parse: Parser, f: Faults)
    requires Consistent(s) && ConfigOk(s.cfg) && !op.DoImport?
    ensures var (t, outcome) := Commit(s, EditOf(s, op, parse, f), f);
      && (outcome.Done? <==> Feasible(s, op, parse, f) && f.commit == {})
      && (outcome.Done? ==> ConfigOk(t.cfg)) && (!outcome.Done? ==> t == s)
  {
    hide ConfigOk, Consistent, Feasible, FirstFailure;
    NextIsValidIff(s, op, parse, f);
    NothingFails(f.commit);
    RefusedIsUnchanged(s, op, parse, f);
  }

  lemma RefusedIsUnchanged(s: State, op: Op, parse: Parser, f: Faults)
    requires !op.DoImport?
    ensures EditOf(s, op, parse, f).Refuse? ==> EditOf(s, op, parse, f).left == s
  {
    hide ConfigOk, InboundOk, ForwardOk, Watched, Switched, SwitchedAll, Dropped, DroppedAll, Indexed, PutInbound, PutOutbound, Renamed, AllExist, Exists;
  }
}
