/**
 What renaming, deleting and adding nodes mean for routing and for the rest of the state.
 */
module Operations {
  import opened Text
  import opened Config
  import opened Sorting
  import opened Routing
  import opened Store
  import opened Import
  import opened Runs

  /* ----- renaming an outbound ----- */

  function Replaced(name: string, from: string, to: string): string {
    if name == from then to else name
  }

  lemma RenameKeepsMatching(atoms: Atoms, rule: Rule, from: string, to: string, req: Request)
    ensures RuleMatches(atoms, RenameOutbound(from, to)(rule), req) == RuleMatches(atoms, rule, req)
  {
    hide SplitCSV, AnyMatches;
  }

  lemma {:induction false} FirstMatchRenamed(atoms: Atoms, rules: seq<Rule>, from: string, to: string, req: Request)
    ensures var m := FirstMatch(atoms, rules, req);
      FirstMatch(atoms, Map(RenameOutbound(from, to), rules), req) ==
      if m.Some? then Some(RenameOutbound(from, to)(m.value)) else None
  {
    hide RuleMatches;
    if rules != [] {
      var front := rules[..|rules| - 1];
      FirstMatchRenamed(atoms, front, from, to, req);
      assert Map(RenameOutbound(from, to), rules)[..|front|] == Map(RenameOutbound(from, to), front);
      RenameKeepsMatching(atoms, rules[|rules| - 1], from, to, req);
    }
  }

  lemma {:induction false} FilterRenamed(rules: seq<Rule>, from: string, to: string)
    ensures Filter(Map(RenameOutbound(from, to), rules), Enabled) == Map(RenameOutbound(from, to), Filter(rules, Enabled))
  {
    if rules != [] {
      var front := rules[..|rules| - 1];
      FilterRenamed(front, from, to);
      assert Map(RenameOutbound(from, to), rules)[..|front|] == Map(RenameOutbound(from, to), front);
    }
  }

  // The request goes "direct" without the configuration saying so by name.
  predicate ImplicitlyDirect(atoms: Atoms, routing: RoutingConfig, req: Request) {
    || RoutingMode(routing.mode) == DirectMode
    || (routing.defaultOutbound == "" &&
        (RoutingMode(routing.mode) == GlobalMode || FirstMatch(atoms, Filter(Sort(routing.rules), Enabled), req).None?))
  }

  /**
   Renaming an outbound renames it in every decision; only the name "direct" is special, for the traffic that
   goes there without being sent there by name.
   */
  lemma RenameRenamesDecisions(atoms: Atoms, s: State, from: string, o: Outbound, req: Request)
    requires IsRename(from, o) && UpsertOutbound(s, from, o).Proceed?
    ensures var before := Decision(atoms, s.cfg.routing, req);
      Decision(atoms, UpsertOutbound(s, from, o).next.cfg.routing, req) == Replaced(before, from, o.name)
      <==> !(from == "direct" && ImplicitlyDirect(atoms, s.cfg.routing, req))
  {
    hide RuleMatches, Remove, Upsert, Watched, FirstMatch, Filter, Sort;
    var routing := s.cfg.routing;
    assert UpsertOutbound(s, from, o).next.cfg.routing == Renamed(s, from, o.name).cfg.routing by {
      WatchedSame(PutOutbound(Renamed(s, from, o.name), o), o.name, o.disabled);
    }
    SortMap(RenameOutbound(from, o.name), routing.rules);
    FilterRenamed(Sort(routing.rules), from, o.name);
    FirstMatchRenamed(atoms, Filter(Sort(routing.rules), Enabled), from, o.name, req);
  }

  /** The counters move with the name; the old name keeps none. */
  lemma RenameMovesCounters(s: State, from: string, o: Outbound)
    requires OutboundsWatched(s) && IsRename(from, o) && UpsertOutbound(s, from, o).Proceed?
    ensures var t := UpsertOutbound(s, from, o).next;
      && t.traffic == s.traffic[o.name := s.traffic[from]] - {from}
      && t.health == s.health[o.name := s.health[from]] - {from}
  {
    hide Remove, Upsert, Map, OutboundOk;
    assert from in s.outbounds;
  }

  predicate InboundsWatched(s: State) {
    forall name :: name in s.inbounds ==> name in s.traffic && name in s.health
  }

  /**
   Inbounds and outbounds share the counters' map, so that renaming an outbound takes the counters away from an
   inbound of the same name: the listing of nodes, which reads them without looking, then has nothing to read.
   */
  lemma RenameKeepsInboundsWatchedIff(s: State, from: string, o: Outbound)
    requires OutboundsWatched(s) && InboundsWatched(s) && IsRename(from, o) && UpsertOutbound(s, from, o).Proceed?
    ensures InboundsWatched(UpsertOutbound(s, from, o).next) <==> from !in s.inbounds
  {
    hide Remove, Upsert, Map, OutboundOk;
    RenameMovesCounters(s, from, o);
    var t := UpsertOutbound(s, from, o).next;
    assert t.inbounds == s.inbounds;
    assert t.traffic.Keys == s.traffic.Keys + {o.name} - {from};
    assert t.health.Keys == s.health.Keys + {o.name} - {from};
  }

  /** An inbound and an outbound both called "a" are valid; renaming the outbound leaves the inbound without counters. */
  lemma RenameTakesCounters()
    ensures var i, o := PlainInbound("a", 1080), PlainOutbound("a", Http, 80, false);
      var s := State("placeholder", PlainConfig([i], [o], RuleMode, "", []), map["a" := i], map["a" := o], [],
                     map["a" := Traffic(1, 2)], map["a" := Health("ok", "")], map[]);
      var edit := UpsertOutbound(s, "a", PlainOutbound("b", Http, 80, false));
      && ConfigOk(s.cfg) && InboundsWatched(s) && edit.Proceed? && ConfigOk(edit.next.cfg)
      && "a" in edit.next.inbounds && "a" !in edit.next.traffic && "a" !in edit.next.health
  {
    hide InboundOk, OutboundOk, Remove, Upsert;
    var i, o := PlainInbound("a", 1080), PlainOutbound("a", Http, 80, false);
    var renamed := PlainOutbound("b", Http, 80, false);
    PlainNodesOk();
    RemoveOnly(o, "a");
    UpsertNone(renamed);
  }

  lemma RemoveOnly(o: Outbound, name: string)
    requires o.name == name
    ensures Remove([o], OutboundName, name) == []
  {
    assert [o] == [] + [o];
    FilterSnoc([], o, NotNamed(OutboundName, name));
  }

  lemma UpsertNone(o: Outbound)
    ensures Upsert([], OutboundName, o) == [o]
  {}

  lemma PlainNodesOk()
    ensures InboundOk(PlainInbound("a", 1080))
    ensures OutboundOk(PlainOutbound("a", Http, 80, false)) && OutboundOk(PlainOutbound("b", Http, 80, false))
  {}

  /* ----- deleting nodes ----- */

  function NamesOf(items: set<Item>, kind: NodeKind): set<string> {
    set item | item in items && item.kind == kind :: item.name
  }

  function InboundSurvives(items: set<Item>): Inbound -> bool {
    (i: Inbound) => Item(InboundNode, i.name) !in items
  }

  function OutboundSurvives(items: set<Item>): Outbound -> bool {
    (o: Outbound) => Item(OutboundNode, o.name) !in items
  }

  function RuleSurvives(items: set<Item>): Rule -> bool {
    (r: Rule) => Item(OutboundNode, r.outbound) !in items && (RuleMatchType(r).InboundMatch? ==> Item(InboundNode, RuleValue(r)) !in items)
  }

  /** Removal of a set of nodes in one go; what survives stays in its order. */
  function Without(s: State, items: set<Item>): State {
    s.(cfg := s.cfg.(
         inbounds := Filter(s.cfg.inbounds, InboundSurvives(items)),
         outbounds := Filter(s.cfg.outbounds, OutboundSurvives(items)),
         routing := s.cfg.routing.(rules := Filter(s.cfg.routing.rules, RuleSurvives(items)))),
       inbounds := s.inbounds - NamesOf(items, InboundNode),
       outbounds := s.outbounds - NamesOf(items, OutboundNode),
       rules := Filter(s.rules, RuleSurvives(items)))
  }

  function ItemSet(items: seq<Item>): set<Item> {
    set item | item in items
  }

  lemma {:induction false} FilterTwice<T>(xs: seq<T>, p: T -> bool, q: T -> bool, both: T -> bool)
    requires forall x :: both(x) <==> p(x) && q(x)
    ensures Filter(Filter(xs, p), q) == Filter(xs, both)
  {
    if xs != [] {
      var front, last := xs[..|xs| - 1], xs[|xs| - 1];
      FilterTwice(front, p, q, both);
      FilterSnoc(Filter(front, p), last, q);
    }
  }

  lemma NamesOfAdd(items: set<Item>, item: Item, kind: NodeKind)
    ensures NamesOf(items + {item}, kind) == NamesOf(items, kind) + (if item.kind == kind then {item.name} else {})
  {
    var more := items + {item};
    assert forall i :: i in items ==> i in more;
    assert item in more;
  }

  // One more item to remove.
  lemma WithoutOneMore(s: State, items: set<Item>, item: Item)
    requires item.kind != OtherNode
    ensures Dropped(Without(s, items), item) == Without(s, items + {item})
  {
    hide RuleMatchType, RuleValue, Filter, NamesOf;
    var more := items + {item};
    NamesOfAdd(items, item, InboundNode);
    NamesOfAdd(items, item, OutboundNode);
    FilterTwice(s.cfg.routing.rules, RuleSurvives(items), NotReferring(item), RuleSurvives(more));
    FilterTwice(s.rules, RuleSurvives(items), NotReferring(item), RuleSurvives(more));
    if item.kind.InboundNode? {
      forall i: Inbound
        ensures InboundSurvives(more)(i) <==> InboundSurvives(items)(i) && NotNamed(InboundName, item.name)(i)
      {
        assert Item(InboundNode, i.name) == item <==> InboundName(i) == item.name;
      }
      FilterTwice(s.cfg.inbounds, InboundSurvives(items), NotNamed(InboundName, item.name), InboundSurvives(more));
      FilterSame(s.cfg.outbounds, OutboundSurvives(items), OutboundSurvives(more));
      assert (s.inbounds - NamesOf(items, InboundNode)) - {item.name} == s.inbounds - NamesOf(more, InboundNode);
      assert s.outbounds - NamesOf(items, OutboundNode) == s.outbounds - NamesOf(more, OutboundNode);
    } else {
      forall o: Outbound
        ensures OutboundSurvives(more)(o) <==> OutboundSurvives(items)(o) && NotNamed(OutboundName, item.name)(o)
      {
        assert Item(OutboundNode, o.name) == item <==> OutboundName(o) == item.name;
      }
      FilterTwice(s.cfg.outbounds, OutboundSurvives(items), NotNamed(OutboundName, item.name), OutboundSurvives(more));
      FilterSame(s.cfg.inbounds, InboundSurvives(items), InboundSurvives(more));
      assert (s.outbounds - NamesOf(items, OutboundNode)) - {item.name} == s.outbounds - NamesOf(more, OutboundNode);
      assert s.inbounds - NamesOf(items, InboundNode) == s.inbounds - NamesOf(more, InboundNode);
    }
  }

  lemma WithoutNothing(s: State)
    ensures Without(s, {}) == s
  {
    FilterAll(s.cfg.inbounds, InboundSurvives({}));
    FilterAll(s.cfg.outbounds, OutboundSurvives({}));
    FilterAll(s.cfg.routing.rules, RuleSurvives({}));
    FilterAll(s.rules, RuleSurvives({}));
    assert s.inbounds - NamesOf({}, InboundNode) == s.inbounds;
    assert s.outbounds - NamesOf({}, OutboundNode) == s.outbounds;
  }

  /** Deleting items one after the other is the removal of their set. */
  lemma {:induction false} DroppedAllIsWithout(s: State, items: seq<Item>)
    requires forall i :: 0 <= i < |items| ==> items[i].kind != OtherNode
    ensures DroppedAll(s, items) == Without(s, ItemSet(items))
  {
    hide Dropped, Without;
    if items == [] {
      WithoutNothing(s);
      assert ItemSet(items) == {};
    } else {
      var front, last := items[..|items| - 1], items[|items| - 1];
      DroppedAllIsWithout(s, front);
      WithoutOneMore(s, ItemSet(front), last);
      assert items == front + [last];
      assert ItemSet(items) == ItemSet(front) + {last};
    }
  }

  /** A batch delete does not depend on the order of its items, nor on repetitions. */
  lemma DeleteIsOrderIndependent(s: State, a: seq<Item>, b: seq<Item>, f: Faults)
    requires ItemSet(a) == ItemSet(b)
    ensures Commit(s, DeleteNodes(s, a), f) == Commit(s, DeleteNodes(s, b), f)
    ensures DeleteNodes(s, a).Proceed? ==> DeleteNodes(s, a).next == Without(s, ItemSet(a))
  {
    hide CommitError, FirstFailure, Without, DroppedAll;
    SameItems(s, a, b);
    SameItems(s, b, a);
    if a != [] && AllExist(s, a) {
      DroppedAllIsWithout(s, a);
      DroppedAllIsWithout(s, b);
    }
  }

  lemma SameItems(s: State, a: seq<Item>, b: seq<Item>)
    requires ItemSet(a) == ItemSet(b)
    ensures AllExist(s, a) ==> AllExist(s, b)
    ensures a == [] ==> b == []
  {
    if b != [] {
      assert b[0] in ItemSet(b);
    }
    forall i | 0 <= i < |b|
      ensures b[i] in a
    {
      assert b[i] in ItemSet(b);
    }
  }

  /** A batch with the default outbound in it is never carried out, and changes nothing. */
  lemma DeletingTheDefaultFails(s: State, items: seq<Item>, f: Faults)
    requires s.cfg.routing.defaultOutbound != "" && s.cfg.routing.defaultOutbound != "direct"
    requires Item(OutboundNode, s.cfg.routing.defaultOutbound) in items
    ensures var (t, outcome) := Commit(s, DeleteNodes(s, items), f);
      t == s && outcome.Error?
  {
    hide NodesOk, FirstFailure, RuleOk, DroppedAll;
    var edit := DeleteNodes(s, items);
    if edit.Proceed? {
      DroppedAllIsWithout(s, items);
      var default := s.cfg.routing.defaultOutbound;
      FilterMembers(s.cfg.outbounds, OutboundSurvives(ItemSet(items)));
      forall i | 0 <= i < |edit.next.cfg.outbounds|
        ensures OutboundName(edit.next.cfg.outbounds[i]) != default
      {
        assert edit.next.cfg.outbounds[i] in edit.next.cfg.outbounds;
      }
    }
  }

  /* ----- the kernel's files ----- */

  /**
   A kernel never gets the other one's default program or file, nor the placeholder's file; what is no default is kept,
   and doing it twice changes nothing.
   */
  lemma KernelFiles(c: KernelConfig)
    ensures var k := NormalizeKernel(c);
      && NormalizeKernel(k) == k && k.kind == (if c.kind == "" then "placeholder" else c.kind)
      && (k.kind == "sing-box" ==>
            && k.executable != "/usr/local/bin/mihomo" && k.configPath != "mihomo.generated.yaml" && k.configPath != "kernel.generated.json"
            && (c.executable == "" ==> k.executable == "/usr/local/bin/sing-box")
            && (c.configPath == "mihomo.generated.yaml" ==> k.configPath == "sing-box.generated.json"))
      && (k.kind == "mihomo" ==>
            && k.executable != "/usr/local/bin/sing-box" && k.configPath != "sing-box.generated.json" && k.configPath != "kernel.generated.json"
            && (c.executable == "" ==> k.executable == "/usr/local/bin/mihomo")
            && (c.configPath == "sing-box.generated.json" ==> k.configPath == "mihomo.generated.yaml"))
      && (c.executable !in {"", "/usr/local/bin/mihomo", "/usr/local/bin/sing-box"} ==> k.executable == c.executable)
      && (c.configPath !in {"", "kernel.generated.json", "mihomo.generated.yaml", "sing-box.generated.json"} ==> k.configPath == c.configPath)
  {
    assert "/usr/local/bin/" + "mihomo" == "/usr/local/bin/mihomo" && "/usr/local/bin/" + "sing-box" == "/usr/local/bin/sing-box";
  }

  /* ----- a new forward ----- */

  lemma {:induction false} MaxPriorityIsLargest(rules: seq<Rule>)
    ensures forall r :: r in rules ==> r.priority <= MaxPriority(rules)
    ensures MaxPriority(rules) == 0 || exists r :: r in rules && r.priority == MaxPriority(rules)
    ensures 0 <= MaxPriority(rules)
  {
    if rules != [] {
      var front, last := rules[..|rules| - 1], rules[|rules| - 1];
      MaxPriorityIsLargest(front);
      assert rules == front + [last];
    }
  }

  /** The rule of a new forward comes behind all others, unless their priorities leave no room for it. */
  lemma ForwardRuleComesLast(rules: seq<Rule>, name: string)
    requires forall r :: r in rules ==> r.priority <= MAX_INT
    ensures (forall r :: r in rules ==> Before(r, ForwardRule(name, NextPriority(rules)))) && 0 < NextPriority(rules)
       <==> MaxPriority(rules) <= MAX_INT - 10
  {
    hide Less;
    MaxPriorityIsLargest(rules);
  }

  /* ----- an import that stops midway ----- */

  function Blank(name: string, port: int): Outbound {
    PlainOutbound(name, Http, port, false)
  }

  /**
   A node called " " followed by one without a port: the import is refused, the first node stays behind under an
   empty name, and the configuration left is one that no later commit accepts.  When this happens at all is said by
   `ImportLeavesValidIff`; a batch that was parsed from a text has no such node.
   */
  lemma StoppedImportCanInvalidate(s: State, opts: Options, parse: Parser, pick: Picker)
    requires s == NEW_MANAGER.(cfg := EMPTY_CONFIG.(webPort := 8080))
    requires Picks(pick) && opts == Options(Provider("", "", "", "", "", false, []), false)
    ensures var batch := [Blank(" ", 80), Blank("x", 0)];
      && ConfigOk(s.cfg)
      && ImportOutbounds(s, batch, opts, parse, pick).Refuse?
      && !ConfigOk(ImportOutbounds(s, batch, opts, parse, pick).left.cfg)
  {
    hide ImportItem, NodesOk;
    var a, b := Blank(" ", 80), Blank("x", 0);
    var batch := [a, b];
    assert batch[..1] == [a] && [a][..0] == [];
    ImportOneNode(s, a, opts, parse, pick);
    var t := AddOutbound(s, a.(name := ""));
    assert t.cfg.outbounds == [a.(name := "")];
    PortlessNodeIsBad(t.outbounds, b, opts, parse, pick);
    assert ImportBatch(s, [], opts, parse, pick) == Finished(s, []);
    assert |batch| == 2 && |[a]| == 1 && [a][0] == a && batch[1] == b;
    var detail := ImportItem(s.outbounds, 0, a, opts, parse, pick).detail;
    assert ImportBatch(s, [a], opts, parse, pick) == Finished(t, [] + [detail]);
    assert ImportBatch(s, batch, opts, parse, pick) == Stopped(t);
    assert ConfigOk(s.cfg) && !NodesOk(t.cfg.inbounds, t.cfg.outbounds) by {
      EmptyNameIsNotOk(s.cfg.inbounds, t.cfg.outbounds);
      NoNodesOk();
    }
  }

  lemma NoNodesOk()
    ensures NodesOk([], [])
  {}

  lemma EmptyNameIsNotOk(inbounds: seq<Inbound>, outbounds: seq<Outbound>)
    requires outbounds != [] && outbounds[0].name == ""
    ensures !NodesOk(inbounds, outbounds)
  {
    hide InboundOk, OutboundOk;
  }

  lemma PortlessNodeIsBad(outbounds: map<string, Outbound>, b: Outbound, opts: Options, parse: Parser, pick: Picker)
    requires Picks(pick) && opts == Options(Provider("", "", "", "", "", false, []), false)
    requires b == Blank("x", 0)
    ensures ImportItem(outbounds, 1, b, opts, parse, pick).Bad?
  {
    hide FieldOf, Signature, SupportedSSMethod, Matching, FreshName, Equivalent;
    assert !Contains(b.raw, "://");
    assert Prepared(b, opts, parse) == b;
    assert KeptFields(opts) == [];
  }

  lemma ImportOneNode(s: State, a: Outbound, opts: Options, parse: Parser, pick: Picker)
    requires s.outbounds == map[] && Picks(pick) && opts == Options(Provider("", "", "", "", "", false, []), false)
    requires a == Blank(" ", 80)
    ensures ImportItem(s.outbounds, 0, a, opts, parse, pick).Good?
    ensures ImportItem(s.outbounds, 0, a, opts, parse, pick).outbound == a.(name := "")
  {
    hide FieldOf, Signature, SupportedSSMethod;
    assert !Contains(a.raw, "://");
    assert Prepared(a, opts, parse) == a;
    assert ToLower("") == "";
    assert EquivalentNames(map[], Signature(a)) == {};
    assert TrimSpace(" ") == "";
    assert ReplaceNewlines("") == "";
    assert SanitizeName(" ") == "";
  }
}
