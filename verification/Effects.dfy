/**
 What the operations do to what runs: which nodes the kernel is given after an operation that is done, and where
 requests then go.
 */
module Effects {
  import opened Text
  import opened Config
  import opened Sorting
  import opened Routing
  import opened Store
  import opened Runs
  import opened Import
  import opened ImportLaws
  import opened Operations

  // The node is among those that the kernel is given.
  predicate Running(c: Config, item: Item) {
    match item.kind
    case InboundNode => Names(RuntimeOf(c).inbounds, InboundName, item.name)
    case OutboundNode => Names(RuntimeOf(c).outbounds, OutboundName, item.name)
    case OtherNode => false
  }

  lemma FilterNames<T>(xs: seq<T>, key: T -> string, keep: T -> bool, m: map<string, T>, name: string)
    requires Distinct(xs, key) && Keyed(xs, key, m)
    ensures Names(Filter(xs, keep), key, name) <==> name in m && keep(m[name])
  {
    FilterMembers(xs, keep);
    var ys := Filter(xs, keep);
    if Names(ys, key, name) {
      var i :| 0 <= i < |ys| && key(ys[i]) == name;
      assert ys[i] in xs && keep(ys[i]);
      var k :| 0 <= k < |xs| && xs[k] == ys[i];
      assert m[key(xs[k])] == xs[k];
    }
    if name in m && keep(m[name]) {
      var k :| 0 <= k < |xs| && key(xs[k]) == name;
      assert xs[k] in xs && m[name] == xs[k] && xs[k] in ys;
      var i :| 0 <= i < |ys| && ys[i] == xs[k];
      assert key(ys[i]) == name;
    }
  }

  lemma RunningIff(s: State, item: Item)
    requires Consistent(s)
    ensures Running(s.cfg, item) <==> match item.kind
      case InboundNode => item.name in s.inbounds && !s.inbounds[item.name].disabled
      case OutboundNode => item.name in s.outbounds && !s.outbounds[item.name].disabled
      case OtherNode => false
  {
    hide Distinct, Keyed, Names, Filter;
    FilterNames(s.cfg.inbounds, InboundName, InboundEnabled, s.inbounds, item.name);
    FilterNames(s.cfg.outbounds, OutboundName, OutboundEnabled, s.outbounds, item.name);
  }

  // Both states at once.
  lemma RunningBoth(s: State, t: State, item: Item)
    requires Consistent(s) && Consistent(t)
    requires item.kind.InboundNode? ==>
      (item.name in s.inbounds <==> item.name in t.inbounds) && (item.name in s.inbounds ==> s.inbounds[item.name].disabled == t.inbounds[item.name].disabled)
    requires item.kind.OutboundNode? ==>
      (item.name in s.outbounds <==> item.name in t.outbounds) && (item.name in s.outbounds ==> s.outbounds[item.name].disabled == t.outbounds[item.name].disabled)
    ensures Running(s.cfg, item) <==> Running(t.cfg, item)
  {
    hide Consistent, Running;
    RunningIff(s, item);
    RunningIff(t, item);
  }

  /* ----- switching on and off ----- */

  lemma SwitchedRuns(s: State, item: Item, enabled: bool, x: Item)
    requires Consistent(s) && Exists(s, item)
    ensures Running(Switched(s, item, enabled).cfg, x) <==> if x == item then enabled else Running(s.cfg, x)
  {
    hide Consistent, Running, Upsert;
    var t := Switched(s, item, enabled);
    SwitchedConsistent(s, item, enabled);
    RunningIff(t, x);
    if x != item {
      RunningBoth(s, t, x);
    }
  }

  lemma {:induction false} SwitchedAllRuns(s: State, items: seq<Item>, enabled: bool, x: Item)
    requires Consistent(s) && AllExist(s, items)
    ensures Running(SwitchedAll(s, items, enabled).cfg, x) <==> if x in items then enabled else Running(s.cfg, x)
  {
    hide Consistent, Running, Switched, OutboundsWatched;
    if items != [] {
      var front, last := items[..|items| - 1], items[|items| - 1];
      SwitchedAllRuns(s, front, enabled, x);
      SwitchedAllConsistent(s, front, enabled);
      SwitchedRuns(SwitchedAll(s, front, enabled), last, enabled, x);
      assert items == front + [last];
    }
  }

  /** After a node is switched, it runs exactly when that was asked for, and every other node runs as before. */
  lemma SetNodeEnabledRuns(s: State, item: Item, enabled: bool, f: Faults, x: Item)
    requires Consistent(s) && Commit(s, SetEnabled(s, item, enabled), f).1.Done?
    ensures var t := Commit(s, SetEnabled(s, item, enabled), f).0;
      Running(t.cfg, x) <==> if x == item then enabled else Running(s.cfg, x)
  {
    hide Consistent, Running, Switched, CommitError;
    SwitchedRuns(s, item, enabled, x);
  }

  /** The same for every item of a batch. */
  lemma SetNodesEnabledRuns(s: State, items: seq<Item>, enabled: bool, f: Faults, x: Item)
    requires Consistent(s) && Commit(s, SetNodesEnabled(s, items, enabled), f).1.Done?
    ensures var t := Commit(s, SetNodesEnabled(s, items, enabled), f).0;
      Running(t.cfg, x) <==> if x in items then enabled else Running(s.cfg, x)
  {
    hide Consistent, Running, SwitchedAll, CommitError;
    SwitchedAllRuns(s, items, enabled, x);
  }

  /* ----- adding and changing nodes ----- */

  // A node that was not known before starts with empty counters, and its health says whether it is disabled.
  predicate FreshlyWatched(s: State, t: State, name: string, disabled: bool) {
    && (name !in s.traffic ==> name in t.traffic && t.traffic[name] == Traffic(0, 0))
    && (name !in s.health ==> name in t.health && (t.health[name].status == "disabled" <==> disabled))
  }

  lemma WatchedFreshly(s: State, name: string, disabled: bool)
    ensures FreshlyWatched(s, Watched(s, name, disabled), name, disabled)
  {}

  lemma WatchedChanges(s: State, s': State, name: string, disabled: bool)
    requires s'.traffic == s.traffic && s'.health == s.health
    ensures var t := Watched(s', name, disabled);
      FreshlyWatched(s, t, name, disabled) && t.cfg == s'.cfg && t.inbounds == s'.inbounds && t.outbounds == s'.outbounds && t.rules == s'.rules
  {}

  /** An inbound that is stored runs exactly when it is enabled, as it was given; every other node runs as before. */
  lemma UpsertInboundRuns(s: State, i: Inbound, f: Faults, x: Item)
    requires Consistent(s) && Commit(s, UpsertInbound(s, i, f), f).1.Done?
    ensures var t := Commit(s, UpsertInbound(s, i, f), f).0;
      && (Running(t.cfg, x) <==> if x == Item(InboundNode, i.name) then !i.disabled else Running(s.cfg, x))
      && t.inbounds == s.inbounds[i.name := i] && t.outbounds == s.outbounds
      && t.cfg.routing == s.cfg.routing && FreshlyWatched(s, t, i.name, i.disabled)
  {
    hide Consistent, Running, Upsert, CommitError, InboundOk, FreshlyWatched, Watched;
    var put := PutInbound(s, i);
    var t := Watched(put, i.name, i.disabled);
    PutInboundConsistent(s, i);
    WatchedChanges(s, put, i.name, i.disabled);
    RunningIff(t, x);
    if x != Item(InboundNode, i.name) {
      RunningBoth(s, t, x);
    }
  }

  lemma PutInboundConsistent(s: State, i: Inbound)
    requires Consistent(s)
    ensures Consistent(Watched(PutInbound(s, i), i.name, i.disabled))
    ensures i.name !in s.inbounds ==> Upsert(s.cfg.inbounds, InboundName, i) == s.cfg.inbounds + [i]
  {
    hide Upsert, Distinct, Keyed;
    UpsertKeyed(s.cfg.inbounds, InboundName, i, s.inbounds);
    assert InboundName(i) == i.name;
  }

  // What is put under the old name's new one.
  function RenamedFirst(s: State, originalName: string, o: Outbound): State {
    if IsRename(originalName, o) then Renamed(s, originalName, o.name) else s
  }

  lemma PutOutboundConsistent(s: State, originalName: string, o: Outbound)
    requires Consistent(s)
    ensures Consistent(Watched(PutOutbound(RenamedFirst(s, originalName, o), o), o.name, o.disabled))
  {
    hide Consistent, Renamed, PutOutbound, OutboundsWatched;
    RenamedConsistent(s, originalName, o.name);
    var t := RenamedFirst(s, originalName, o);
    PutOnlyConsistent(t, o);
    WatchedIsConsistent(PutOutbound(t, o), o.name, o.disabled);
  }

  lemma PutOnlyConsistent(s: State, o: Outbound)
    requires Consistent(s)
    ensures Consistent(PutOutbound(s, o))
  {
    hide Upsert, Distinct, Keyed;
    UpsertKeyed(s.cfg.outbounds, OutboundName, o, s.outbounds);
    assert OutboundName(o) == o.name;
  }

  lemma WatchedIsConsistent(s: State, name: string, disabled: bool)
    requires Consistent(s)
    ensures Consistent(Watched(s, name, disabled))
  {
    hide Distinct, Keyed;
  }

  /**
   An outbound that is stored runs exactly when it is enabled, as it was given; the one it was renamed from runs no
   more, and every other node runs as before.
   */
  lemma UpsertOutboundRuns(s: State, originalName: string, o: Outbound, f: Faults, x: Item)
    requires Consistent(s) && Commit(s, UpsertOutbound(s, originalName, o), f).1.Done?
    ensures var t := Commit(s, UpsertOutbound(s, originalName, o), f).0;
      && (Running(t.cfg, x) <==>
            if x == Item(OutboundNode, o.name) then !o.disabled
            else if IsRename(originalName, o) && x == Item(OutboundNode, originalName) then false
            else Running(s.cfg, x))
      && t.inbounds == s.inbounds
      && t.outbounds == (if IsRename(originalName, o) then s.outbounds - {originalName} else s.outbounds)[o.name := o]
      && (!IsRename(originalName, o) ==> t.cfg.routing == s.cfg.routing && FreshlyWatched(s, t, o.name, o.disabled))
  {
    hide Consistent, Running, Upsert, Remove, CommitError, FreshlyWatched, Watched, Addressed, CannotRename;
    var p := RenamedFirst(s, originalName, o);
    var t := Watched(PutOutbound(p, o), o.name, o.disabled);
    assert UpsertOutbound(s, originalName, o) == Proceed(t);
    PutOutboundConsistent(s, originalName, o);
    WatchedChanges(p, PutOutbound(p, o), o.name, o.disabled);
    RunningIff(t, x);
    if x != Item(OutboundNode, o.name) && !(IsRename(originalName, o) && x == Item(OutboundNode, originalName)) {
      RunningBoth(s, t, x);
    }
  }

  /* ----- a new inbound ----- */

  // The live rules of a state, in the order in which they are tried.
  function LiveOf(c: Config): seq<Rule> {
    Filter(Sort(c.routing.rules), Live(RuntimeOf(c).inbounds, RuntimeOf(c).outbounds))
  }

  lemma NamesSnoc(xs: seq<Inbound>, i: Inbound, name: string)
    ensures Names(xs + [i], InboundName, name) <==> Names(xs, InboundName, name) || i.name == name
  {
    var all := xs + [i];
    assert all[|xs|] == i && InboundName(i) == i.name;
    if Names(xs, InboundName, name) {
      var k :| 0 <= k < |xs| && InboundName(xs[k]) == name;
      assert InboundName(all[k]) == name;
    }
  }

  lemma EnabledSnoc(xs: seq<Inbound>, i: Inbound)
    ensures Filter(xs + [i], InboundEnabled) == Filter(xs, InboundEnabled) + if i.disabled then [] else [i]
  {
    FilterSnoc(xs, i, InboundEnabled);
    assert Filter(xs, InboundEnabled) + [] == Filter(xs, InboundEnabled);
  }

  // A new inbound leaves the rules that were there as live as they were.
  lemma OldRulesStay(c: Config, d: Config, i: Inbound, rule: Rule)
    requires ConfigOk(c) && RoutingMode(c.routing.mode) == RuleMode && !Names(c.inbounds, InboundName, i.name)
    requires d.inbounds == c.inbounds + [i] && d.outbounds == c.outbounds
    requires rule in c.routing.rules
    ensures Live(RuntimeOf(c).inbounds, RuntimeOf(c).outbounds)(rule) == Live(RuntimeOf(d).inbounds, RuntimeOf(d).outbounds)(rule)
  {
    hide InboundOk, OutboundOk, NodesOk, Filter, RuleMatchType, RuleValue, Reachable;
    EnabledSnoc(c.inbounds, i);
    NamesSnoc(RuntimeOf(c).inbounds, i, RuleValue(rule));
    assert RuntimeOf(c).inbounds + [] == RuntimeOf(c).inbounds;
    var k :| 0 <= k < |c.routing.rules| && c.routing.rules[k] == rule;
    assert !rule.disabled ==> RuleOk(rule, c.inbounds, c.outbounds);
  }

  lemma OldRulesLive(c: Config, d: Config, i: Inbound)
    requires ConfigOk(c) && RoutingMode(c.routing.mode) == RuleMode && !Names(c.inbounds, InboundName, i.name)
    requires d.inbounds == c.inbounds + [i] && d.outbounds == c.outbounds
    ensures Filter(Sort(c.routing.rules), Live(RuntimeOf(d).inbounds, RuntimeOf(d).outbounds)) == LiveOf(c)
  {
    hide ConfigOk, RuntimeOf, Live, Filter, Sort, Names;
    forall rule | rule in Sort(c.routing.rules)
      ensures Live(RuntimeOf(d).inbounds, RuntimeOf(d).outbounds)(rule) == Live(RuntimeOf(c).inbounds, RuntimeOf(c).outbounds)(rule)
    {
      SortMembers(c.routing.rules, rule);
      OldRulesStay(c, d, i, rule);
    }
    FilterSame(Sort(c.routing.rules), Live(RuntimeOf(d).inbounds, RuntimeOf(d).outbounds), Live(RuntimeOf(c).inbounds, RuntimeOf(c).outbounds));
  }

  lemma NewInboundKeepsDecisions(atoms: Atoms, c: Config, d: Config, i: Inbound, req: Request)
    requires ConfigOk(c) && !Names(c.inbounds, InboundName, i.name) && d == c.(inbounds := c.inbounds + [i])
    ensures Decision(atoms, RuntimeOf(d).routing, req) == Decision(atoms, RuntimeOf(c).routing, req)
  {
    hide ConfigOk, Live, Filter, Sort, Names, FirstMatch, LiveDefault;
    if RoutingMode(c.routing.mode) == RuleMode {
      OldRulesLive(c, d, i);
      RuntimeDecision(atoms, c, req);
      RuntimeDecision(atoms, d, req);
    } else {
      assert RoutingMode(c.routing.mode) != NoMode by { ValidMode(c); }
    }
  }

  lemma ValidMode(c: Config)
    requires ConfigOk(c)
    ensures RoutingMode(c.routing.mode) != NoMode
  {}

  lemma NamedInList(s: State, name: string)
    requires Consistent(s)
    ensures Names(s.cfg.inbounds, InboundName, name) <==> name in s.inbounds
  {}

  /**
   A new proxy is handed to the kernel behind all other inbounds, as it was asked for except that an empty protocol is
   socks, unless it is disabled; and every request is decided as before.
   */
  lemma CreateProxyRuns(atoms: Atoms, s: State, proxy: Inbound, f: Faults, req: Request)
    requires Consistent(s) && ConfigOk(s.cfg) && Commit(s, CreateProxy(s, proxy, f), f).1.Done?
    ensures var t := Commit(s, CreateProxy(s, proxy, f), f).0;
      var node := if proxy.protocol == OtherProtocol("") then proxy.(protocol := Socks) else proxy;
      && RuntimeOf(t.cfg).inbounds == RuntimeOf(s.cfg).inbounds + (if proxy.disabled then [] else [node])
      && RuntimeOf(t.cfg).outbounds == RuntimeOf(s.cfg).outbounds
      && Decision(atoms, RuntimeOf(t.cfg).routing, req) == Decision(atoms, RuntimeOf(s.cfg).routing, req)
      && t.inbounds == s.inbounds[node.name := node] && FreshlyWatched(s, t, node.name, node.disabled)
  {
    hide Consistent, ConfigOk, CommitError, InboundOk, FreshlyWatched, Watched, Decision, Filter, Live, Names;
    var node := WithDefaultProtocol(proxy);
    var added := WithInbounds(s, s.cfg.inbounds + [node]).(inbounds := s.inbounds[node.name := node]);
    assert CreateProxy(s, proxy, f) == Proceed(Watched(added, node.name, node.disabled));
    WatchedChanges(s, added, node.name, node.disabled);
    NamedInList(s, node.name);
    EnabledSnoc(s.cfg.inbounds, node);
    NewInboundKeepsDecisions(atoms, s.cfg, added.cfg, node, req);
  }

  /* ----- a new forward ----- */

  lemma SortAppend(rules: seq<Rule>, last: Rule)
    requires forall r :: r in rules ==> Before(r, last)
    ensures Sort(rules + [last]) == Sort(rules) + [last]
  {
    hide Sort, Insert, Before;
    SortSnoc(rules, last);
    var sorted := Sort(rules);
    if sorted != [] {
      SortMembers(rules, sorted[|sorted| - 1]);
      BeforeIsOneWay(sorted[|sorted| - 1], last);
    }
    InsertAt(sorted, last, |sorted|);
    assert sorted[..|sorted|] + [last] + sorted[|sorted|..] == sorted + [last];
  }

  lemma BeforeIsOneWay(a: Rule, b: Rule)
    requires Before(a, b)
    ensures !Before(b, a)
  {
    BeforeIsStrictWeakOrder(a, b, a);
  }

  // The rule of a forward is live, is tried last, and matches the traffic of its inbound.
  lemma ForwardRuleMatches(atoms: Atoms, name: string, priority: int, req: Request)
    requires Clean(name)
    ensures RuleMatches(atoms, ForwardRule(name, priority), req) <==> req.inbound == name
  {
    InboundRuleReadsItsName(atoms, ForwardRule(name, priority));
  }

  lemma FirstMatchLast(atoms: Atoms, rules: seq<Rule>, last: Rule, req: Request)
    ensures FirstMatch(atoms, rules + [last], req) ==
            if FirstMatch(atoms, rules, req).Some? then FirstMatch(atoms, rules, req)
            else if RuleMatches(atoms, last, req) then Some(last) else None
  {
    hide RuleMatches;
    assert (rules + [last])[..|rules|] == rules;
  }

  lemma ForwardIsLive(c: Config, i: Inbound, rule: Rule)
    requires !i.disabled && RuleMatchType(rule).InboundMatch? && RuleValue(rule) == i.name && !rule.disabled && rule.outbound == "direct"
    requires c.inbounds != [] && c.inbounds[|c.inbounds| - 1] == i
    ensures Live(RuntimeOf(c).inbounds, RuntimeOf(c).outbounds)(rule)
  {
    hide RuleMatchType, RuleValue;
    var front := c.inbounds[..|c.inbounds| - 1];
    assert c.inbounds == front + [i];
    EnabledSnoc(front, i);
    NamesSnoc(Filter(front, InboundEnabled), i, i.name);
  }

  lemma ForwardDecision(atoms: Atoms, c: Config, d: Config, i: Inbound, rule: Rule, req: Request)
    requires ConfigOk(c) && RoutingMode(c.routing.mode) == RuleMode && !Names(c.inbounds, InboundName, i.name)
    requires d == c.(inbounds := c.inbounds + [i], routing := c.routing.(rules := c.routing.rules + [rule]))
    requires Live(RuntimeOf(d).inbounds, RuntimeOf(d).outbounds)(rule)
    requires forall r :: r in c.routing.rules ==> Before(r, rule)
    ensures Decision(atoms, RuntimeOf(d).routing, req) ==
            if FirstMatch(atoms, LiveOf(c), req).None? && RuleMatches(atoms, rule, req) then rule.outbound
            else Decision(atoms, RuntimeOf(c).routing, req)
  {
    hide ConfigOk, Live, Filter, Sort, Names, FirstMatch, LiveDefault, RuleMatches, Before;
    OldRulesLive(c, d, i);
    SortAppend(c.routing.rules, rule);
    var live := Live(RuntimeOf(d).inbounds, RuntimeOf(d).outbounds);
    FilterSnoc(Sort(c.routing.rules), rule, live);
    assert LiveOf(d) == LiveOf(c) + [rule];
    RuntimeDecision(atoms, c, req);
    RuntimeDecision(atoms, d, req);
    FirstMatchLast(atoms, LiveOf(c), rule, req);
    assert LiveDefault(d.routing, RuntimeOf(d).outbounds) == LiveDefault(c.routing, RuntimeOf(c).outbounds) by { SameDefault(c, d); }
  }

  lemma SameDefault(c: Config, d: Config)
    requires d.outbounds == c.outbounds && d.routing.defaultOutbound == c.routing.defaultOutbound
    ensures LiveDefault(d.routing, RuntimeOf(d).outbounds) == LiveDefault(c.routing, RuntimeOf(c).outbounds)
  {}

  /**
   A new forward listens on its port for tcp, or for udp where that was asked for, and has its target.  In rule mode its
   traffic goes direct unless a rule that was there matches it, as long as the priorities leave room and the name is
   clean; all other requests are decided as before.
   */
  lemma CreateForwardRuns(atoms: Atoms, s: State, forward: ForwardRequest, f: Faults, req: Request)
    requires Consistent(s) && ConfigOk(s.cfg) && Commit(s, CreateForward(s, forward), f).1.Done?
    requires Clean(forward.name)
    requires MaxPriority(s.cfg.routing.rules) <= MAX_INT - 10
    ensures var t := Commit(s, CreateForward(s, forward), f).0;
      var ins, outs := RuntimeOf(t.cfg).inbounds, RuntimeOf(t.cfg).outbounds;
      && ins != [] && ins[..|ins| - 1] == RuntimeOf(s.cfg).inbounds && outs == RuntimeOf(s.cfg).outbounds
      && ins[|ins| - 1].name == forward.name && ins[|ins| - 1].port == forward.listenPort
      && ins[|ins| - 1].targetHost == forward.targetHost && ins[|ins| - 1].targetPort == forward.targetPort
      && ins[|ins| - 1].protocol == (if forward.protocol == Udp then ForwardUdp else ForwardTcp)
    ensures var t := Commit(s, CreateForward(s, forward), f).0;
      Decision(atoms, RuntimeOf(t.cfg).routing, req) ==
      if RoutingMode(s.cfg.routing.mode) == RuleMode && FirstMatch(atoms, LiveOf(s.cfg), req).None? && req.inbound == forward.name then "direct"
      else Decision(atoms, RuntimeOf(s.cfg).routing, req)
  {
    hide ConfigOk, CommitError, Watched, Decision, Filter, Live, Names, RuleMatches, FirstMatch, MaxPriority, Before, Clean, LiveOf, ForwardOk, Distinct, Keyed;
    var i, rule := ForwardInbound(forward), ForwardRule(forward.name, NextPriority(s.rules));
    var next := WithRules(WithInbounds(s, s.cfg.inbounds + [i]).(inbounds := s.inbounds[i.name := i], rules := s.rules + [rule]), s.cfg.routing.rules + [rule]);
    WatchedChanges(s, next, i.name, i.disabled);
    ForwardNames(s, forward);
    assert Commit(s, CreateForward(s, forward), f).0.cfg == next.cfg;
    NamedInList(s, i.name);
    EnabledSnoc(s.cfg.inbounds, i);
    var ins := RuntimeOf(next.cfg).inbounds;
    assert ins == RuntimeOf(s.cfg).inbounds + [i];
    if RoutingMode(s.cfg.routing.mode) == RuleMode {
      ForwardIsLive(next.cfg, i, rule);
      RoomForForward(s.cfg.routing.rules, forward.name);
      ForwardDecision(atoms, s.cfg, next.cfg, i, rule, req);
      ForwardRuleMatches(atoms, forward.name, NextPriority(s.rules), req);
    } else {
      ValidMode(s.cfg);
      ModeDecision(atoms, s.cfg, next.cfg, req);
    }
  }

  // In the other modes the rules do not matter.
  lemma ModeDecision(atoms: Atoms, c: Config, d: Config, req: Request)
    requires RoutingMode(c.routing.mode) == DirectMode || RoutingMode(c.routing.mode) == GlobalMode
    requires d.outbounds == c.outbounds && d.routing.mode == c.routing.mode && d.routing.defaultOutbound == c.routing.defaultOutbound
    ensures Decision(atoms, RuntimeOf(d).routing, req) == Decision(atoms, RuntimeOf(c).routing, req)
  {
    hide Filter, Reachable;
  }

  lemma ForwardNames(s: State, forward: ForwardRequest)
    requires CreateForward(s, forward).Proceed?
    ensures forward.name != "" && forward.name !in s.inbounds
    ensures var rule := ForwardRule(forward.name, NextPriority(s.rules));
      RuleMatchType(rule).InboundMatch? && RuleValue(rule) == forward.name
  {}

  lemma RoomForForward(rules: seq<Rule>, name: string)
    requires MaxPriority(rules) <= MAX_INT - 10
    ensures forall r :: r in rules ==> Before(r, ForwardRule(name, NextPriority(rules)))
  {
    MaxPriorityIsLargest(rules);
    hide Less;
  }

  /* ----- replacing settings ----- */

  /**
   A new routing decides every request from then on, among the nodes that ran before: in its own mode, by those of its
   rules that are live.
   */
  lemma UpdateRoutingRuns(atoms: Atoms, s: State, routing: RoutingConfig, f: Faults, req: Request)
    requires Commit(s, UpdateRouting(s, routing), f).1.Done?
    ensures var t := Commit(s, UpdateRouting(s, routing), f).0;
      var ins, outs := RuntimeOf(s.cfg).inbounds, RuntimeOf(s.cfg).outbounds;
      && RuntimeOf(t.cfg).inbounds == ins && RuntimeOf(t.cfg).outbounds == outs && t.rules == routing.rules
      && Decision(atoms, RuntimeOf(t.cfg).routing, req) ==
         match RoutingMode(routing.mode)
         case RuleMode => RuleDecision(atoms, Filter(Sort(routing.rules), Live(ins, outs)), LiveDefault(routing, outs), req)
         case DirectMode => "direct"
         case _ => LiveDefault(routing, outs)
  {
    hide ConfigOk, FirstFailure, Filter, Sort, Live, FirstMatch, Reachable;
    if RoutingMode(routing.mode) == RuleMode {
      RuntimeDecision(atoms, s.cfg.(routing := routing), req);
    } else {
      assert RoutingMode(routing.mode) != NoMode by { ValidMode(s.cfg.(routing := routing)); }
    }
  }

  /** New mihomo settings or kernel settings are taken over, and nothing else changes: neither nodes nor routing. */
  lemma OtherSettings(s: State, mihomo: Mihomo, kernel: KernelConfig, f: Faults)
    ensures var (t, outcome) := Commit(s, UpdateMihomo(s, mihomo), f);
      outcome.Done? ==> t.cfg.mihomo == mihomo && t.(cfg := t.cfg.(mihomo := s.cfg.mihomo)) == s
    ensures var (t, outcome) := Commit(s, UpdateKernel(s, kernel, f), f);
      outcome.Done? ==>
        && t.kernel == (if kernel.kind in {"sing-box", "mihomo"} then kernel.kind else "placeholder")
        && t.cfg.kernel.kind == (if kernel.kind == "" then "placeholder" else kernel.kind)
        && t.(kernel := s.kernel, cfg := t.cfg.(kernel := s.cfg.kernel)) == s
  {
    hide CommitError;
  }

  /* ----- deleting nodes ----- */

  /**
   After a batch delete none of its nodes runs and no rule refers to one; every other node runs as before, and every
   other rule is there.
   */
  lemma DeleteNodesRuns(s: State, items: seq<Item>, f: Faults, x: Item, rule: Rule)
    requires Consistent(s) && Commit(s, DeleteNodes(s, items), f).1.Done?
    ensures var t := Commit(s, DeleteNodes(s, items), f).0;
      && (Running(t.cfg, x) <==> x !in items && Running(s.cfg, x))
      && (rule in t.cfg.routing.rules <==>
          && rule in s.cfg.routing.rules
          && Item(OutboundNode, rule.outbound) !in items
          && (RuleMatchType(rule).InboundMatch? ==> Item(InboundNode, RuleValue(rule)) !in items))
      && t.cfg.routing.defaultOutbound == s.cfg.routing.defaultOutbound
  {
    hide Consistent, Running, CommitError, DroppedAll, RuleMatchType, RuleValue, Filter, OutboundsWatched;
    var t := DroppedAll(s, items);
    assert forall i :: 0 <= i < |items| ==> items[i].kind != OtherNode;
    DroppedAllIsWithout(s, items);
    DroppedAllConsistent(s, items);
    FilterMembers(s.cfg.routing.rules, RuleSurvives(ItemSet(items)));
    RunningIff(t, x);
    RunningIff(s, x);
    assert x in ItemSet(items) <==> x in items;
    WithoutMaps(s, ItemSet(items), x);
  }

  lemma WithoutMaps(s: State, items: set<Item>, x: Item)
    ensures var t := Without(s, items);
      && (x.kind.InboundNode? ==> (x.name in t.inbounds <==> x.name in s.inbounds && x !in items)
                                  && (x.name in t.inbounds ==> t.inbounds[x.name] == s.inbounds[x.name]))
      && (x.kind.OutboundNode? ==> (x.name in t.outbounds <==> x.name in s.outbounds && x !in items)
                                   && (x.name in t.outbounds ==> t.outbounds[x.name] == s.outbounds[x.name]))
  {
    hide Filter;
    assert x.kind.InboundNode? ==> x == Item(InboundNode, x.name);
    assert x.kind.OutboundNode? ==> x == Item(OutboundNode, x.name);
  }

  /* ----- a whole configuration ----- */

  lemma EnrichedNames(xs: seq<Outbound>, parse: Parser)
    ensures var ys := Map(Enricher(parse), xs);
      forall i :: 0 <= i < |xs| ==> ys[i].name == xs[i].name && ys[i].disabled == xs[i].disabled && ys[i].protocol == xs[i].protocol
                                     && ys[i].address == xs[i].address && ys[i].port == xs[i].port
  {
    hide Contains;
  }

  lemma {:induction false} SameNamesRun(xs: seq<Outbound>, ys: seq<Outbound>, name: string)
    requires |xs| == |ys| && forall i :: 0 <= i < |xs| ==> ys[i].name == xs[i].name && ys[i].disabled == xs[i].disabled
    ensures Names(Filter(xs, OutboundEnabled), OutboundName, name) <==> exists i :: 0 <= i < |xs| && xs[i].name == name && !xs[i].disabled
    ensures Names(Filter(ys, OutboundEnabled), OutboundName, name) <==> exists i :: 0 <= i < |xs| && xs[i].name == name && !xs[i].disabled
  {
    EnabledNames(xs, name);
    EnabledNames(ys, name);
  }

  lemma EnabledNames(xs: seq<Outbound>, name: string)
    ensures Names(Filter(xs, OutboundEnabled), OutboundName, name) <==> exists i :: 0 <= i < |xs| && xs[i].name == name && !xs[i].disabled
  {
    FilterMembers(xs, OutboundEnabled);
    var ys := Filter(xs, OutboundEnabled);
    if Names(ys, OutboundName, name) {
      var i :| 0 <= i < |ys| && OutboundName(ys[i]) == name;
      assert ys[i] in xs && !ys[i].disabled;
    }
    if i :| 0 <= i < |xs| && xs[i].name == name && !xs[i].disabled {
      assert xs[i] in ys;
      var k :| 0 <= k < |ys| && ys[k] == xs[i];
      assert OutboundName(ys[k]) == name;
    }
  }

  /** What runs after a configuration was applied are exactly its enabled nodes, under the kernel it names. */
  lemma ApplyConfigRuns(s: State, given: Config, parse: Parser, f: Faults, x: Item)
    requires Commit(s, ApplyConfig(s, given, Enricher(parse), f), f).1.Done?
    ensures var t := Commit(s, ApplyConfig(s, given, Enricher(parse), f), f).0;
      && (Running(t.cfg, x) <==> Running(given, x))
      && t.cfg.routing == given.routing && t.cfg.inbounds == given.inbounds && t.kernel == KernelName(given.kernel.kind)
  {
    hide CommitError, Filter, Enricher, ConfigOk;
    var cfg := given.(outbounds := Map(Enricher(parse), given.outbounds));
    IndexedConfig(s.(cfg := cfg, rules := cfg.routing.rules));
    EnrichedNames(given.outbounds, parse);
    SameNamesRun(given.outbounds, cfg.outbounds, x.name);
  }

  lemma IndexedConfig(s: State)
    ensures Indexed(s).cfg == s.cfg && Indexed(s).rules == s.rules
  {
    WatchedListsSame(s, s.cfg.inbounds, []);
    var t := WatchedInbounds(s, s.cfg.inbounds).(inbounds := MapOf(s.cfg.inbounds, InboundName));
    WatchedListsSame(t, [], s.cfg.outbounds);
  }

  /* ----- importing ----- */

  /**
   Where the options keep the user's switch, an import that is committed leaves every node that was there running or not
   as it was, whatever the batch says of it.
   */
  lemma ImportLeavesSwitches(s: State, batch: seq<Outbound>, opts: Options, parse: Parser, pick: Picker, f: Faults, name: string)
    requires Consistent(s) && Picks(pick) && name in s.outbounds && Keeps(opts, true, {"disabled", "enabled"})
    requires Commit(s, ImportOutbounds(s, batch, opts, parse, pick), f).1.Done?
    ensures var t := Commit(s, ImportOutbounds(s, batch, opts, parse, pick), f).0;
      Running(t.cfg, Item(OutboundNode, name)) <==> Running(s.cfg, Item(OutboundNode, name))
  {
    hide Consistent, Running, CommitError, ImportBatch, Keeps, OutboundsWatched;
    StoppedImportConsistent(s, batch, opts, parse, pick);
    ImportKeepsDisabled(s, batch, opts, parse, pick, name);
    RunningBoth(s, LeftBy(ImportBatch(s, batch, opts, parse, pick)), Item(OutboundNode, name));
  }

  /* ----- counters ----- */

  // Whatever is counted, or known of health, stays so, but for some names.
  predicate CountersKept(s: State, t: State, but: set<string>) {
    && (forall name :: name in s.traffic && name !in but ==> name in t.traffic && t.traffic[name] == s.traffic[name])
    && (forall name :: name in s.health && name !in but ==> name in t.health && t.health[name] == s.health[name])
  }

  // The names whose counters an event may touch: those of a rename, or the one probed.
  function Touched(e: Event): set<string> {
    match e
    case Operation(DoUpsertOutbound(originalName, o), _) => if IsRename(originalName, o) then {originalName, o.name} else {}
    case Probed(name, _) => {name}
    case _ => {}
  }

  lemma WatchedKeeps(s: State, name: string, disabled: bool)
    ensures CountersKept(s, Watched(s, name, disabled), {})
  {}

  lemma KeptTwice(s: State, t: State, u: State, but: set<string>)
    requires CountersKept(s, t, but) && CountersKept(t, u, {})
    ensures CountersKept(s, u, but)
  {}

  lemma {:induction false} IndexKeeps(s: State, inbounds: seq<Inbound>, outbounds: seq<Outbound>)
    ensures CountersKept(s, WatchedInbounds(s, inbounds), {}) && CountersKept(s, WatchedOutbounds(s, outbounds), {})
    decreases |inbounds| + |outbounds|
  {
    hide CountersKept, Watched;
    assert CountersKept(s, s, {}) by { SameKept(s, s); }
    if inbounds != [] {
      var front, last := inbounds[..|inbounds| - 1], inbounds[|inbounds| - 1];
      IndexKeeps(s, front, []);
      WatchedKeeps(WatchedInbounds(s, front), last.name, last.disabled);
      KeptTwice(s, WatchedInbounds(s, front), WatchedInbounds(s, inbounds), {});
    }
    if outbounds != [] {
      var front, last := outbounds[..|outbounds| - 1], outbounds[|outbounds| - 1];
      IndexKeeps(s, [], front);
      WatchedKeeps(WatchedOutbounds(s, front), last.name, last.disabled);
      KeptTwice(s, WatchedOutbounds(s, front), WatchedOutbounds(s, outbounds), {});
    }
  }

  lemma SameKept(s: State, t: State)
    requires t.traffic == s.traffic && t.health == s.health
    ensures CountersKept(s, t, {})
  {}

  lemma {:induction false} DroppedAllKeeps(s: State, items: seq<Item>)
    ensures DroppedAll(s, items).traffic == s.traffic && DroppedAll(s, items).health == s.health
  {
    if items != [] {
      DroppedAllKeeps(s, items[..|items| - 1]);
    }
  }

  lemma SwitchedKeeps(s: State, item: Item, enabled: bool)
    requires Exists(s, item)
    ensures CountersKept(s, Switched(s, item, enabled), {})
  {}

  lemma {:induction false} SwitchedAllKeeps(s: State, items: seq<Item>, enabled: bool)
    requires AllExist(s, items)
    ensures CountersKept(s, SwitchedAll(s, items, enabled), {})
  {
    hide CountersKept, Switched;
    if items == [] {
      SameKept(s, s);
    } else {
      var front, last := items[..|items| - 1], items[|items| - 1];
      SwitchedAllKeeps(s, front, enabled);
      SwitchedKeeps(SwitchedAll(s, front, enabled), last, enabled);
      KeptTwice(s, SwitchedAll(s, front, enabled), SwitchedAll(s, items, enabled), {});
    }
  }

  lemma {:induction false} ImportKeeps(s: State, batch: seq<Outbound>, opts: Options, parse: Parser, pick: Picker)
    requires Picks(pick)
    ensures CountersKept(s, LeftBy(ImportBatch(s, batch, opts, parse, pick)), {})
  {
    hide CountersKept, ImportItem, Watched;
    if batch == [] {
      SameKept(s, s);
    } else {
      var front, n := batch[..|batch| - 1], |batch| - 1;
      ImportKeeps(s, front, opts, parse, pick);
      match ImportBatch(s, front, opts, parse, pick) {
        case Stopped(_) =>
        case Finished(t, _) =>
          match ImportItem(t.outbounds, n, batch[n], opts, parse, pick) {
            case Bad =>
            case Good(o, _) =>
              AddedKeeps(t, o);
              KeptTwice(s, t, AddOutbound(t, o), {});
          }
      }
    }
  }

  lemma AddedKeeps(s: State, o: Outbound)
    ensures CountersKept(s, AddOutbound(s, o), {})
  {
    hide CountersKept, Watched;
    SameKept(s, PutOutbound(s, o));
    WatchedKeeps(PutOutbound(s, o), o.name, o.disabled);
    KeptTwice(s, PutOutbound(s, o), AddOutbound(s, o), {});
  }

  lemma RenamedKeeps(s: State, from: string, to: string)
    ensures CountersKept(s, Renamed(s, from, to), {from, to})
  {}

  lemma UpsertKeeps(s: State, originalName: string, o: Outbound)
    ensures CountersKept(s, Watched(PutOutbound(RenamedFirst(s, originalName, o), o), o.name, o.disabled),
                         if IsRename(originalName, o) then {originalName, o.name} else {})
  {
    hide CountersKept, Watched, Renamed, PutOutbound;
    var p := RenamedFirst(s, originalName, o);
    SameKept(s, s);
    RenamedKeeps(s, originalName, o.name);
    AddedKeeps(p, o);
    KeptTwice(s, p, AddOutbound(p, o), if IsRename(originalName, o) then {originalName, o.name} else {});
  }

  lemma AppliedKeeps(s: State, cfg: Config)
    ensures CountersKept(s, Indexed(s.(cfg := cfg, rules := cfg.routing.rules)), {})
  {
    hide CountersKept, WatchedInbounds, WatchedOutbounds, MapOf;
    var s0 := s.(cfg := cfg, rules := cfg.routing.rules);
    var s1 := WatchedInbounds(s0, cfg.inbounds);
    IndexKeeps(s0, cfg.inbounds, []);
    WatchedListsSame(s0, cfg.inbounds, []);
    var s2 := s1.(inbounds := MapOf(cfg.inbounds, InboundName));
    var s3 := WatchedOutbounds(s2, cfg.outbounds);
    IndexKeeps(s2, [], cfg.outbounds);
    SameKept(s, s0);
    SameKept(s1, s2);
    KeptTwice(s, s0, s1, {});
    KeptTwice(s, s1, s2, {});
    KeptTwice(s, s2, s3, {});
    SameKept(s3, Indexed(s0));
    KeptTwice(s, s3, Indexed(s0), {});
  }

  lemma WatchedPutKeeps(s: State, s': State, name: string, disabled: bool)
    requires s'.traffic == s.traffic && s'.health == s.health
    ensures CountersKept(s, Watched(s', name, disabled), {})
  {}

  // What an edit leaves, refused or not.
  function LeftOf(e: Edit): State {
    match e case Refuse(_, left) => left case Proceed(next) => next
  }

  lemma EditKeepsCounters(s: State, op: Op, parse: Parser, f: Faults)
    requires op.DoImport? ==> Picks(op.pick)
    ensures CountersKept(s, LeftOf(EditOf(s, op, parse, f)), Touched(Operation(op, f)))
  {
    hide CountersKept, Watched, Renamed, PutOutbound, PutInbound, Dropped, DroppedAll, Switched, SwitchedAll, ImportBatch, Indexed, ConfigOk, InboundOk,
         ForwardOk, Addressed, CannotRename, NormalizeKernel, Exists, AllExist;
    assert CountersKept(s, s, {}) by { SameKept(s, s); }
    match op {
      case DoApplyConfig(cfg) =>
        var c := cfg.(outbounds := Map(Enricher(parse), cfg.outbounds));
        AppliedKeeps(s, c);
        if EditOf(s, op, parse, f).Proceed? {
          SameKept(Indexed(s.(cfg := c, rules := c.routing.rules)), LeftOf(EditOf(s, op, parse, f)));
          KeptTwice(s, Indexed(s.(cfg := c, rules := c.routing.rules)), LeftOf(EditOf(s, op, parse, f)), {});
        }
      case DoUpdateKernel(_) => SameKept(s, LeftOf(EditOf(s, op, parse, f)));
      case DoUpdateMihomo(_) => SameKept(s, LeftOf(EditOf(s, op, parse, f)));
      case DoUpdateRouting(_) => SameKept(s, LeftOf(EditOf(s, op, parse, f)));
      case DoCreateProxy(proxy) =>
        var i := WithDefaultProtocol(proxy);
        WatchedPutKeeps(s, WithInbounds(s, s.cfg.inbounds + [i]).(inbounds := s.inbounds[i.name := i]), i.name, i.disabled);
      case DoCreateForward(forward) =>
        var i, rule := ForwardInbound(forward), ForwardRule(forward.name, NextPriority(s.rules));
        var t := WithInbounds(s, s.cfg.inbounds + [i]).(inbounds := s.inbounds[i.name := i], rules := s.rules + [rule]);
        WatchedPutKeeps(s, WithRules(t, s.cfg.routing.rules + [rule]), i.name, i.disabled);
      case DoUpsertInbound(i) =>
        assert PutInbound(s, i).traffic == s.traffic && PutInbound(s, i).health == s.health by { PutInboundSame(s, i); }
        WatchedPutKeeps(s, PutInbound(s, i), i.name, i.disabled);
      case DoUpsertOutbound(originalName, o) =>
        UpsertKeeps(s, originalName, o);
        KeptMore(s, s, Touched(Operation(op, f)));
      case DoImport(batch, opts, pick) => ImportKeeps(s, batch, opts, parse, pick);
      case DoDeleteNode(item) =>
        DroppedAllKeeps(s, [item]);
        DroppedOne(s, item);
        SameKept(s, Dropped(s, item));
      case DoDeleteNodes(items) =>
        DroppedAllKeeps(s, items);
        SameKept(s, DroppedAll(s, items));
      case DoSetEnabled(item, enabled) => if Exists(s, item) { SwitchedKeeps(s, item, enabled); }
      case DoSetNodesEnabled(items, enabled) => if AllExist(s, items) { SwitchedAllKeeps(s, items, enabled); }
    }
  }

  lemma PutInboundSame(s: State, i: Inbound)
    ensures PutInbound(s, i).traffic == s.traffic && PutInbound(s, i).health == s.health
  {}

  lemma KeptMore(s: State, t: State, but: set<string>)
    requires CountersKept(s, t, {})
    ensures CountersKept(s, t, but)
  {}

  lemma EventKeepsCounters(s: State, e: Event, parse: Parser)
    requires Possible(e)
    ensures CountersKept(s, After(s, e, parse), Touched(e))
  {
    if e.Operation? {
      hide CountersKept, EditOf, CommitError;
      EditKeepsCounters(s, e.op, parse, e.faults);
      SameKept(s, s);
      KeptMore(s, s, Touched(e));
    }
  }

  /**
   Over every run, the counters of a name outlive everything but a rename from or to that name: deleting, switching,
   importing, replacing the whole configuration and every failure leave them as they were.
   */
  lemma {:induction false} RunsKeepCounters(s: State, events: seq<Event>, parse: Parser, name: string)
    requires forall e :: e in events ==> Possible(e)
    requires name in s.traffic && forall e :: e in events ==> name !in Touched(e)
    ensures name in AfterAll(s, events, parse).traffic && AfterAll(s, events, parse).traffic[name] == s.traffic[name]
  {
    hide After, Possible, Touched;
    if events != [] {
      var front, last := events[..|events| - 1], events[|events| - 1];
      assert last in events;
      RunsKeepCounters(s, front, parse, name);
      EventKeepsCounters(AfterAll(s, front, parse), last, parse);
    }
  }
}
