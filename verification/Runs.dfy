/**
 Runs of the Manager: any sequence of operations, each of which may be refused, may commit, or may fail anywhere
 in its commit.
 */
module Runs {
  import opened Text
  import opened Config
  import opened Sorting
  import opened Routing
  import opened Store
  import opened Import
  import opened Links
  import opened Subscription

  datatype Op =
    | DoApplyConfig(cfg: Config)
    | DoUpdateKernel(kernel: KernelConfig)
    | DoUpdateMihomo(mihomo: Mihomo)
    | DoUpdateRouting(routing: RoutingConfig)
    | DoCreateProxy(proxy: Inbound)
    | DoCreateForward(forward: ForwardRequest)
    | DoUpsertInbound(inbound: Inbound)
    | DoUpsertOutbound(originalName: string, outbound: Outbound)
    | DoImport(batch: seq<Outbound>, opts: Options, pick: Picker)
    | DoDeleteNode(item: Item)
    | DoDeleteNodes(items: seq<Item>)
    | DoSetEnabled(item: Item, enabled: bool)
    | DoSetNodesEnabled(items: seq<Item>, enabled: bool)

  // What happens between operations: a probe records a node's health, a subscription is marked as updated.
  datatype Event = Operation(op: Op, faults: Faults) | Probed(name: string, health: Health) | Fetched(provider: string, at: int)

  ghost predicate Possible(e: Event) {
    e.Operation? && e.op.DoImport? ==> Picks(e.op.pick)
  }

  ghost function EditOf(s: State, op: Op, parse: Parser, f: Faults): Edit
    requires op.DoImport? ==> Picks(op.pick)
  {
    match op
    case DoApplyConfig(cfg) => ApplyConfig(s, cfg, Enricher(parse), f)
    case DoUpdateKernel(kernel) => UpdateKernel(s, kernel, f)
    case DoUpdateMihomo(mihomo) => UpdateMihomo(s, mihomo)
    case DoUpdateRouting(routing) => UpdateRouting(s, routing)
    case DoCreateProxy(proxy) => CreateProxy(s, proxy, f)
    case DoCreateForward(forward) => CreateForward(s, forward)
    case DoUpsertInbound(inbound) => UpsertInbound(s, inbound, f)
    case DoUpsertOutbound(originalName, outbound) => UpsertOutbound(s, originalName, outbound)
    case DoImport(batch, opts, pick) => ImportOutbounds(s, batch, opts, parse, pick)
    case DoDeleteNode(item) => DeleteNode(s, item)
    case DoDeleteNodes(items) => DeleteNodes(s, items)
    case DoSetEnabled(item, enabled) => SetEnabled(s, item, enabled)
    case DoSetNodesEnabled(items, enabled) => SetNodesEnabled(s, items, enabled)
  }

  ghost function After(s: State, e: Event, parse: Parser): State
    requires Possible(e)
  {
    match e
    case Operation(op, f) => Commit(s, EditOf(s, op, parse, f), f).0
    case Probed(name, health) => s.(health := s.health[name := health])
    case Fetched(provider, at) => if provider == "" then s else s.(subscriptions := s.subscriptions[provider := at])
  }

  ghost function AfterAll(s: State, events: seq<Event>, parse: Parser): State
    requires forall e :: e in events ==> Possible(e)
  {
    if events == [] then s
    else
      assert events[|events| - 1] in events;
      After(AfterAll(s, events[..|events| - 1], parse), events[|events| - 1], parse)
  }

  /* ----- the two copies agree, over every run ----- */

  lemma WatchedSame(s: State, name: string, disabled: bool)
    ensures var t := Watched(s, name, disabled);
      && t.cfg == s.cfg && t.inbounds == s.inbounds && t.outbounds == s.outbounds && t.rules == s.rules
      && s.traffic.Keys + {name} == t.traffic.Keys && s.health.Keys + {name} == t.health.Keys
  {}

  predicate SameNodes(s: State, t: State) {
    s.cfg == t.cfg && s.inbounds == t.inbounds && s.outbounds == t.outbounds && s.rules == t.rules
  }

  lemma {:induction false} WatchedListsSame(s: State, inbounds: seq<Inbound>, outbounds: seq<Outbound>)
    ensures SameNodes(WatchedInbounds(s, inbounds), s) && SameNodes(WatchedOutbounds(s, outbounds), s)
    ensures s.traffic.Keys <= WatchedInbounds(s, inbounds).traffic.Keys
    ensures s.health.Keys <= WatchedInbounds(s, inbounds).health.Keys
    ensures forall o :: o in outbounds ==> o.name in WatchedOutbounds(s, outbounds).traffic && o.name in WatchedOutbounds(s, outbounds).health
  {
    hide Watched;
    if inbounds != [] {
      WatchedListsSame(s, inbounds[..|inbounds| - 1], outbounds);
      var last := inbounds[|inbounds| - 1];
      WatchedSame(WatchedInbounds(s, inbounds[..|inbounds| - 1]), last.name, last.disabled);
    } else if outbounds != [] {
      var front, last := outbounds[..|outbounds| - 1], outbounds[|outbounds| - 1];
      WatchedListsSame(s, inbounds, front);
      WatchedSame(WatchedOutbounds(s, front), last.name, last.disabled);
      assert outbounds == front + [last];
    }
  }

  lemma PutConsistent(s: State, i: Inbound, o: Outbound)
    requires Consistent(s)
    ensures Consistent(PutInbound(s, i)) && Consistent(PutOutbound(s, o))
    ensures i.name !in s.inbounds ==> Upsert(s.cfg.inbounds, InboundName, i) == s.cfg.inbounds + [i]
  {
    hide Upsert, Distinct, Keyed;
    UpsertKeyed(s.cfg.inbounds, InboundName, i, s.inbounds);
    UpsertKeyed(s.cfg.outbounds, OutboundName, o, s.outbounds);
    assert InboundName(i) == i.name && OutboundName(o) == o.name;
  }

  lemma DroppedConsistent(s: State, item: Item)
    requires Consistent(s)
    ensures Consistent(Dropped(s, item))
    ensures Dropped(s, item).outbounds.Keys <= s.outbounds.Keys
    ensures Dropped(s, item).traffic == s.traffic && Dropped(s, item).health == s.health
  {
    hide Remove, Distinct, Keyed;
    RemoveKeyed(s.cfg.inbounds, InboundName, item.name, s.inbounds);
    RemoveKeyed(s.cfg.outbounds, OutboundName, item.name, s.outbounds);
  }

  lemma {:induction false} DroppedAllConsistent(s: State, items: seq<Item>)
    requires Consistent(s)
    ensures Consistent(DroppedAll(s, items))
    ensures OutboundsWatched(s) ==> OutboundsWatched(DroppedAll(s, items))
  {
    hide Dropped, Consistent;
    if items != [] {
      DroppedAllConsistent(s, items[..|items| - 1]);
      DroppedConsistent(DroppedAll(s, items[..|items| - 1]), items[|items| - 1]);
    }
  }

  lemma KeyOfValue<T>(xs: seq<T>, key: T -> string, m: map<string, T>, name: string)
    requires Keyed(xs, key, m) && name in m
    ensures key(m[name]) == name
  {
    var k :| 0 <= k < |xs| && key(xs[k]) == name;
  }

  lemma SwitchedConsistent(s: State, item: Item, enabled: bool)
    requires Consistent(s) && Exists(s, item)
    ensures Consistent(Switched(s, item, enabled))
    ensures OutboundsWatched(s) ==> OutboundsWatched(Switched(s, item, enabled))
  {
    hide Upsert, Distinct, Keyed;
    if item.kind.InboundNode? {
      var i := s.inbounds[item.name];
      KeyOfValue(s.cfg.inbounds, InboundName, s.inbounds, item.name);
      UpsertKeyed(s.cfg.inbounds, InboundName, i.(disabled := !enabled), s.inbounds);
    } else {
      var o := s.outbounds[item.name];
      KeyOfValue(s.cfg.outbounds, OutboundName, s.outbounds, item.name);
      UpsertKeyed(s.cfg.outbounds, OutboundName, o.(disabled := !enabled), s.outbounds);
    }
  }

  lemma {:induction false} SwitchedAllConsistent(s: State, items: seq<Item>, enabled: bool)
    requires Consistent(s) && AllExist(s, items)
    ensures Consistent(SwitchedAll(s, items, enabled))
    ensures OutboundsWatched(s) ==> OutboundsWatched(SwitchedAll(s, items, enabled))
  {
    hide Switched, Consistent, OutboundsWatched;
    if items != [] {
      var front := items[..|items| - 1];
      SwitchedAllConsistent(s, front, enabled);
      SwitchedConsistent(SwitchedAll(s, front, enabled), items[|items| - 1], enabled);
    }
  }

  lemma RenamedConsistent(s: State, from: string, to: string)
    requires Consistent(s)
    ensures Consistent(Renamed(s, from, to))
    ensures OutboundsWatched(s) ==> OutboundsWatched(Renamed(s, from, to))
  {
    hide Remove, Distinct, Keyed;
    RemoveKeyed(s.cfg.outbounds, OutboundName, from, s.outbounds);
  }

  lemma AppliedConsistent(s: State, cfg: Config, enrich: Outbound -> Outbound, f: Faults)
    requires ApplyConfig(s, cfg, enrich, f).Proceed?
    ensures Consistent(ApplyConfig(s, cfg, enrich, f).next)
    ensures OutboundsWatched(ApplyConfig(s, cfg, enrich, f).next)
  {
    hide RoutingOk, InboundOk, OutboundOk, Indexed, Map;
    var c := cfg.(outbounds := Map(enrich, cfg.outbounds));
    IndexedConsistent(s.(cfg := c, rules := c.routing.rules));
  }

  lemma IndexedConsistent(s: State)
    requires Distinct(s.cfg.inbounds, InboundName) && Distinct(s.cfg.outbounds, OutboundName) && s.rules == s.cfg.routing.rules
    ensures Indexed(s).cfg == s.cfg
    ensures Consistent(Indexed(s)) && OutboundsWatched(Indexed(s))
  {
    hide Keyed, MapOf, Distinct, WatchedInbounds, WatchedOutbounds;
    MapOfKeyed(s.cfg.inbounds, InboundName);
    MapOfKeyed(s.cfg.outbounds, OutboundName);
    WatchedListsSame(s, s.cfg.inbounds, []);
    var t := WatchedInbounds(s, s.cfg.inbounds).(inbounds := MapOf(s.cfg.inbounds, InboundName));
    WatchedListsSame(t, [], s.cfg.outbounds);
    KeyedNames(s.cfg.outbounds, MapOf(s.cfg.outbounds, OutboundName));
  }

  lemma KeyedNames(xs: seq<Outbound>, m: map<string, Outbound>)
    requires Keyed(xs, OutboundName, m)
    ensures forall name :: name in m ==> exists o :: o in xs && o.name == name
  {
    forall name | name in m
      ensures exists o :: o in xs && o.name == name
    {
      var k :| 0 <= k < |xs| && OutboundName(xs[k]) == name;
      assert xs[k] in xs;
    }
  }

  ghost predicate Good(s: State) {
    Consistent(s) && OutboundsWatched(s)
  }

  ghost predicate GoodEdit(e: Edit) {
    match e case Refuse(_, left) => Good(left) case Proceed(next) => Good(next)
  }

  lemma WatchedGood(s: State, name: string, disabled: bool)
    requires Consistent(s)
    requires forall n :: n in s.outbounds ==> n == name || (n in s.traffic && n in s.health)
    ensures Good(Watched(s, name, disabled))
  {
    hide Distinct, Keyed;
    WatchedSame(s, name, disabled);
  }

  lemma AddedInboundGood(s: State, i: Inbound)
    requires Good(s)
    ensures Good(Watched(PutInbound(s, i), i.name, i.disabled))
    ensures i.name !in s.inbounds ==> Upsert(s.cfg.inbounds, InboundName, i) == s.cfg.inbounds + [i]
  {
    hide Distinct, Keyed, Upsert, Watched;
    PutConsistent(s, i, Dummy());
    WatchedGood(PutInbound(s, i), i.name, i.disabled);
  }

  function Dummy(): Outbound {
    Outbound("", Direct, "", 0, false, "", "", "", "", "", "", "", false, "", false, "", "", "", "", "", "", "", "", "", "", 0, 0,
             "", "", "", "", "")
  }

  lemma AddedOutboundGood(s: State, o: Outbound)
    requires Good(s)
    ensures Good(Watched(PutOutbound(s, o), o.name, o.disabled))
  {
    hide Distinct, Keyed, Upsert, Watched;
    PutConsistent(s, PlainInbound("", 0), o);
    WatchedGood(PutOutbound(s, o), o.name, o.disabled);
  }

  lemma AddedRuleGood(s: State, rule: Rule)
    requires Good(s)
    ensures Good(WithRules(s, s.cfg.routing.rules + [rule]).(rules := s.rules + [rule]))
  {
    hide Distinct, Keyed;
  }

  /** Every edit, refused or not, leaves the copies in agreement and every outbound with its counters. */
  lemma EditGood(s: State, op: Op, parse: Parser, f: Faults)
    requires Good(s) && (op.DoImport? ==> Picks(op.pick))
    ensures GoodEdit(EditOf(s, op, parse, f))
  {
    hide Good, InboundOk, OutboundOk, ConfigOk, Watched, PutInbound, PutOutbound, Dropped, DroppedAll, Switched, SwitchedAll,
         Renamed, ImportBatch, ApplyConfig, Exists, AllExist, NormalizeKernel, ForwardOk, CreateForward, CreateProxy;
    match op {
      case DoApplyConfig(cfg) => ApplyGood(s, cfg, parse, f);
      case DoUpdateKernel(_) => SameNodesGood(s);
      case DoUpdateMihomo(_) => SameNodesGood(s);
      case DoUpdateRouting(_) => SameNodesGood(s);
      case DoCreateProxy(proxy) => CreateProxyGood(s, proxy, f);
      case DoCreateForward(forward) => CreateForwardGood(s, forward);
      case DoUpsertInbound(inbound) => AddedInboundGood(s, inbound);
      case DoUpsertOutbound(originalName, outbound) =>
        RenamedGood(s, originalName, outbound.name);
        AddedOutboundGood(s, outbound);
        AddedOutboundGood(Renamed(s, originalName, outbound.name), outbound);
      case DoImport(batch, opts, pick) => ImportGood(s, batch, opts, parse, pick);
      case DoDeleteNode(item) =>
        DroppedAllGood(s, [item]);
        assert [item][..0] == [];
        assert DroppedAll(s, [item]) == Dropped(s, item) by { DroppedOne(s, item); }
      case DoDeleteNodes(items) => DroppedAllGood(s, items);
      case DoSetEnabled(item, enabled) => if Exists(s, item) { SwitchedGood(s, item, enabled); }
      case DoSetNodesEnabled(items, enabled) => if AllExist(s, items) { SwitchedAllGood(s, items, enabled); }
    }
  }

  lemma DroppedOne(s: State, item: Item)
    ensures DroppedAll(s, [item]) == Dropped(s, item)
  {
    hide Dropped;
    assert [item][..0] == [];
  }

  lemma ApplyGood(s: State, cfg: Config, parse: Parser, f: Faults)
    requires Good(s)
    ensures GoodEdit(ApplyConfig(s, cfg, Enricher(parse), f))
  {
    hide Consistent, OutboundsWatched, ConfigOk, MapOf;
    if ApplyConfig(s, cfg, Enricher(parse), f).Proceed? {
      AppliedConsistent(s, cfg, Enricher(parse), f);
    }
  }

  // Nothing but the nodes and the rules matters.
  lemma SameNodesGood(s: State)
    requires Good(s)
    ensures forall k, kernel :: Good(s.(kernel := k, cfg := s.cfg.(kernel := kernel)))
    ensures forall mihomo :: Good(s.(cfg := s.cfg.(mihomo := mihomo)))
    ensures forall routing :: Good(WithRouting(s, routing).(rules := routing.rules))
  {
    hide Distinct, Keyed;
  }

  lemma CreateProxyGood(s: State, proxy: Inbound, f: Faults)
    requires Good(s)
    ensures GoodEdit(CreateProxy(s, proxy, f))
  {
    hide Good, Upsert, Watched, InboundOk;
    AddedInboundGood(s, WithDefaultProtocol(proxy));
  }

  lemma CreateForwardGood(s: State, forward: ForwardRequest)
    requires Good(s)
    ensures GoodEdit(CreateForward(s, forward))
  {
    hide Good, Upsert, ForwardOk;
    var i, rule := ForwardInbound(forward), ForwardRule(forward.name, NextPriority(s.rules));
    AddedInboundGood(s, i);
    AddedRuleGood(Watched(PutInbound(s, i), i.name, i.disabled), rule);
  }

  lemma RenamedGood(s: State, from: string, to: string)
    requires Good(s)
    ensures Good(Renamed(s, from, to))
  {
    hide Consistent, OutboundsWatched, Renamed;
    RenamedConsistent(s, from, to);
  }

  lemma ImportGood(s: State, batch: seq<Outbound>, opts: Options, parse: Parser, pick: Picker)
    requires Good(s) && Picks(pick)
    ensures GoodEdit(ImportOutbounds(s, batch, opts, parse, pick))
  {
    hide Consistent, OutboundsWatched, ImportBatch;
    StoppedImportConsistent(s, batch, opts, parse, pick);
  }

  lemma DroppedAllGood(s: State, items: seq<Item>)
    requires Good(s)
    ensures Good(DroppedAll(s, items))
  {
    hide Consistent, OutboundsWatched, DroppedAll;
    DroppedAllConsistent(s, items);
  }

  lemma SwitchedGood(s: State, item: Item, enabled: bool)
    requires Good(s) && Exists(s, item)
    ensures Good(Switched(s, item, enabled))
  {
    hide Consistent, OutboundsWatched, Switched;
    SwitchedConsistent(s, item, enabled);
  }

  lemma SwitchedAllGood(s: State, items: seq<Item>, enabled: bool)
    requires Good(s) && AllExist(s, items)
    ensures Good(SwitchedAll(s, items, enabled))
  {
    hide Consistent, OutboundsWatched, SwitchedAll;
    SwitchedAllConsistent(s, items, enabled);
  }

  lemma AfterGood(s: State, e: Event, parse: Parser)
    requires Good(s) && Possible(e)
    ensures Good(After(s, e, parse))
  {
    match e {
      case Operation(op, f) =>
        hide Good, EditOf, CommitError;
        EditGood(s, op, parse, f);
      case Probed(_, _) => hide Distinct, Keyed;
      case Fetched(_, _) => hide Distinct, Keyed;
    }
  }

  /** Over every run, successes and failures alike, the two copies agree and every outbound is watched. */
  lemma {:induction false} RunsStayGood(s: State, events: seq<Event>, parse: Parser)
    requires Good(s) && forall e :: e in events ==> Possible(e)
    ensures Good(AfterAll(s, events, parse))
  {
    hide Good, After, Possible;
    if events != [] {
      assert events[|events| - 1] in events;
      RunsStayGood(s, events[..|events| - 1], parse);
      AfterGood(AfterAll(s, events[..|events| - 1], parse), events[|events| - 1], parse);
    }
  }

  const EMPTY_CONFIG := Config(0, KernelConfig("", "", ""), [], [], RoutingConfig(NoMode, "", "", []), Mihomo([], [], []))

  /** `NewManager`. */
  const NEW_MANAGER := State("placeholder", EMPTY_CONFIG, map[], map[], [], map[], map[], map[])

  lemma NewManagerGood()
    ensures Good(NEW_MANAGER)
  {}

  /* ----- a valid configuration stays valid ----- */

  // The one way to leave half-done work behind.
  ghost predicate StopsMidway(s: State, e: Event, parse: Parser)
    requires Possible(e)
  {
    e.Operation? && e.op.DoImport? && e.op.batch != [] && ImportBatch(s, e.op.batch, e.op.opts, parse, e.op.pick).Stopped?
  }

  /** Every event but an import stopped midway either completes on a valid configuration or changes nothing of it. */
  lemma ValidOrUnchanged(s: State, e: Event, parse: Parser)
    requires Possible(e) && !StopsMidway(s, e, parse)
    ensures ConfigOk(After(s, e, parse).cfg) || After(s, e, parse).cfg == s.cfg
    ensures e.Operation? && Commit(s, EditOf(s, e.op, parse, e.faults), e.faults).1.Error? ==> After(s, e, parse) == s
  {
    hide InboundOk, OutboundOk, NodesOk, RoutingOk, FirstFailure, Watched, PutInbound, PutOutbound, Dropped, DroppedAll, Switched,
         SwitchedAll, Renamed, ImportBatch, NormalizeKernel, ForwardOk, WatchedInbounds, WatchedOutbounds;
  }

  lemma ImportKeepsValidIff(s: State, op: Op, parse: Parser, f: Faults)
    requires ConfigOk(s.cfg) && Consistent(s) && op.DoImport? && Picks(op.pick)
    ensures var e := Operation(op, f);
      ConfigOk(After(s, e, parse).cfg) <==> !(StopsMidway(s, e, parse) && SomeNameless(s, op.batch, op.opts, parse, op.pick))
  {
    hide ConfigOk, Consistent, SomeNameless, ImportBatch, FirstFailure;
    ImportLeavesValidIff(s, op.batch, op.opts, parse, op.pick);
  }

  /**
   After any event a valid configuration is valid, except after an import that stops midway and has by then taken in
   a new node with a blank name.
   */
  lemma EventKeepsValidIff(s: State, e: Event, parse: Parser)
    requires ConfigOk(s.cfg) && Consistent(s) && Possible(e)
    ensures ConfigOk(After(s, e, parse).cfg) <==>
            !(StopsMidway(s, e, parse) && SomeNameless(s, e.op.batch, e.op.opts, parse, e.op.pick))
  {
    hide ConfigOk, Consistent, After, SomeNameless, ImportBatch;
    if e.Operation? && e.op.DoImport? {
      ImportKeepsValidIff(s, e.op, parse, e.faults);
    } else {
      ValidOrUnchanged(s, e, parse);
    }
  }

  // An import is given a batch of named items.
  ghost predicate ImportsNamed(e: Event, parse: Parser) {
    e.Operation? && e.op.DoImport? ==> AllNamed(e.op.batch, e.op.opts, parse)
  }

  lemma NamedNotNameless(s: State, batch: seq<Outbound>, opts: Options, parse: Parser, pick: Picker)
    requires Picks(pick) && AllNamed(batch, opts, parse)
    ensures !SomeNameless(s, batch, opts, parse, pick)
  {
    hide ImportBatch, ImportItem, Named, Prepared, TrimSpace, Matching;
  }

  /** Over every run whose imports are of named items, stopped imports included, a valid configuration stays valid. */
  lemma {:induction false} RunsStayValid(s: State, events: seq<Event>, parse: Parser)
    requires ConfigOk(s.cfg) && Good(s) && forall e :: e in events ==> Possible(e) && ImportsNamed(e, parse)
    ensures ConfigOk(AfterAll(s, events, parse).cfg)
  {
    hide ConfigOk, After, StopsMidway, Possible, Consistent, OutboundsWatched, AllNamed, SomeNameless;
    if events != [] {
      var front, last := events[..|events| - 1], events[|events| - 1];
      assert last in events && forall e :: e in front ==> e in events;
      RunsStayValid(s, front, parse);
      RunsStayGood(s, front, parse);
      var t := AfterAll(s, front, parse);
      EventKeepsValidIff(t, last, parse);
      if e :| e == last && e.Operation? && e.op.DoImport? {
        assert Picks(e.op.pick) by { PossiblePicks(e); }
        NamedNotNameless(t, e.op.batch, e.op.opts, parse, e.op.pick);
      } else {
        OnlyImportsStop(t, last, parse);
      }
    }
  }

  lemma PossiblePicks(e: Event)
    requires Possible(e) && e.Operation? && e.op.DoImport?
    ensures Picks(e.op.pick)
  {}

  lemma OnlyImportsStop(s: State, e: Event, parse: Parser)
    requires Possible(e) && !(e.Operation? && e.op.DoImport?)
    ensures !StopsMidway(s, e, parse)
  {}

  // An import is given what was parsed from some text, as from the HTTP interface or a subscription.
  ghost predicate ImportsText(e: Event, d: Decoders, documents: Documents) {
    e.Operation? && e.op.DoImport? ==> exists text :: e.op.batch == ParseText(text, d, documents).outbounds
  }

  /** Over every run whose imports are of parsed texts, whatever the texts, a valid configuration stays valid. */
  lemma RunsOfTextsStayValid(s: State, events: seq<Event>, parse: Parser, d: Decoders, documents: Documents)
    requires ConfigOk(s.cfg) && Good(s) && forall e :: e in events ==> Possible(e) && ImportsText(e, d, documents)
    ensures ConfigOk(AfterAll(s, events, parse).cfg)
  {
    hide ConfigOk, Good, Possible, AfterAll, AllNamed, ParseText;
    forall e | e in events
      ensures Possible(e) && ImportsNamed(e, parse)
    {
      if e.Operation? && e.op.DoImport? {
        var text :| e.op.batch == ParseText(text, d, documents).outbounds;
        ParsedItemsAreNamed(text, d, documents, e.op.opts, parse);
      }
    }
    RunsStayValid(s, events, parse);
  }
}
