/**
 The Manager itself: it edits its lists in place, keeps a snapshot that shares no array with them, and puts the
 snapshot back when a commit fails.  Every operation is proved to do exactly what `Store` says it does.
 */
module Manager {
  import opened Text
  import opened Config
  import opened Sorting
  import opened Routing
  import opened Store
  import opened Import
  import Runs
  import opened Slices

  datatype ConfigRep = ConfigRep(
    webPort: int, kernel: KernelConfig, inbounds: Slice<Inbound>, outbounds: Slice<Outbound>,
    mode: Mode, preset: string, defaultOutbound: string, rules: Slice<Rule>, mihomo: Mihomo)
  {
    ghost predicate Valid() {
      inbounds.Valid() && outbounds.Valid() && rules.Valid()
    }

    ghost function Abs(): Config
      requires Valid()
      reads inbounds.data, outbounds.data, rules.data
    {
      Config(webPort, kernel, inbounds.Elems(), outbounds.Elems(),
             RoutingConfig(mode, preset, defaultOutbound, rules.Elems()), mihomo)
    }
  }

  /** `cloneConfig`. */
  method CloneConfig(c: ConfigRep) returns (r: ConfigRep)
    requires c.Valid()
    ensures r.Valid() && r.Abs() == c.Abs()
    ensures fresh(r.inbounds.data) && fresh(r.outbounds.data) && fresh(r.rules.data)
  {
    var inbounds := Clone(c.inbounds);
    var outbounds := Clone(c.outbounds);
    var rules := Clone(c.rules);
    r := c.(inbounds := inbounds, outbounds := outbounds, rules := rules);
  }

  method ValueOf(c: ConfigRep) returns (value: Config)
    requires c.Valid()
    ensures value == c.Abs()
  {
    value := Config(c.webPort, c.kernel, c.inbounds.data[..c.inbounds.len], c.outbounds.data[..c.outbounds.len],
                    RoutingConfig(c.mode, c.preset, c.defaultOutbound, c.rules.data[..c.rules.len]), c.mihomo);
  }

  lemma ConfigLists(c: ConfigRep)
    requires c.Valid()
    ensures c.Abs().inbounds == c.inbounds.Elems() == c.inbounds.data[..c.inbounds.len]
    ensures c.Abs().outbounds == c.outbounds.Elems() == c.outbounds.data[..c.outbounds.len]
    ensures c.Abs().routing.rules == c.rules.Elems()
  {}

  lemma ConfigKernel(c: ConfigRep)
    requires c.Valid()
    ensures c.Abs().kernel == c.kernel
  {}

  /** The loop at the head of `ApplyConfig`, over the caller's own list. */
  method EnrichInPlace(s: Slice<Outbound>, parse: Parser)
    requires s.Valid()
    modifies s.data
    ensures s.Elems() == Map(Enricher(parse), old(s.Elems()))
  {
    hide Enrich;
    ghost var before := s.Elems();
    for i := 0 to s.len
      invariant forall j :: 0 <= j < i ==> s.data[j] == Enrich(before[j], parse)
      invariant forall j :: i <= j < s.len ==> s.data[j] == before[j]
    {
      s.data[i] := Enrich(s.data[i], parse);
    }
  }

  method EnrichConfig(c: ConfigRep, parse: Parser)
    requires c.Valid()
    modifies c.outbounds.data
    ensures c.Abs() == old(c.Abs()).(outbounds := Map(Enricher(parse), old(c.Abs()).outbounds))
  {
    hide Map, Slice.Elems;
    EnrichInPlace(c.outbounds, parse);
  }

  /** A proxy kernel: how it is configured, and what it was last made to run, when that is known. */
  class Kernel {
    const name: string
    var cfg: KernelConfig
    var applied: Option<Runtime>

    constructor (c: KernelConfig)
      ensures name == KernelName(c.kind) && cfg == Configured(c) && applied == None
    {
      name := KernelName(c.kind);
      cfg := Configured(c);
      applied := None;
    }
  }

  function Configured(c: KernelConfig): KernelConfig {
    c.(configPath := FirstNonEmpty(c.configPath, "kernel.generated.json"))
  }

  datatype Snapshot = Snapshot(
    kernel: Kernel, cfg: ConfigRep, inbounds: map<string, Inbound>, outbounds: map<string, Outbound>, rules: Slice<Rule>,
    traffic: map<string, Traffic>, health: map<string, Health>, subscriptions: map<string, int>)
  {
    ghost predicate Valid() {
      cfg.Valid() && rules.Valid()
    }

    ghost function Abs(): State
      requires Valid()
      reads cfg.inbounds.data, cfg.outbounds.data, cfg.rules.data, rules.data
    {
      State(kernel.name, cfg.Abs(), inbounds, outbounds, rules.Elems(), traffic, health, subscriptions)
    }
  }

  datatype Report = Report(parsed: nat, added: nat, updated: nat, same: nat, details: seq<Detail>)

  function ReportOf(parsed: nat, details: seq<Detail>): Report {
    Report(parsed, Count(details, Added), Count(details, Updated), Count(details, Same), details)
  }

  function Counted(r: Report, d: Detail): Report {
    match d.action
    case Added => r.(added := r.added + 1, details := r.details + [d])
    case Updated => r.(updated := r.updated + 1, details := r.details + [d])
    case Same => r.(same := r.same + 1, details := r.details + [d])
  }

  lemma EmptyReport(parsed: nat)
    ensures Report(parsed, 0, 0, 0, []) == ReportOf(parsed, [])
  {}

  lemma ReportDetails(parsed: nat, details: seq<Detail>)
    ensures ReportOf(parsed, details).details == details
  {}

  lemma CountedIsReport(parsed: nat, details: seq<Detail>, d: Detail)
    ensures Counted(ReportOf(parsed, details), d) == ReportOf(parsed, details + [d])
  {
    assert (details + [d])[..|details|] == details;
  }

  // The operation got as far as its commit, and the kernel was last told to run what the Manager then held.
  predicate Served(o: Outcome) {
    o.Done? || (o.first != Refused && o.first != StopFailed && o.rollback.None?)
  }

  class Manager {
    var kernel: Kernel
    var cfg: ConfigRep
    var inbounds: map<string, Inbound>
    var outbounds: map<string, Outbound>
    var rules: Slice<Rule>
    var traffic: map<string, Traffic>
    var health: map<string, Health>
    var subscriptions: map<string, int>

    ghost predicate Valid()
      reads this
    {
      cfg.Valid() && rules.Valid() && cfg.rules.data != rules.data
    }

    ghost function Abs(): State
      requires Valid()
      reads this, cfg.inbounds.data, cfg.outbounds.data, cfg.rules.data, rules.data
    {
      State(kernel.name, cfg.Abs(), inbounds, outbounds, rules.Elems(), traffic, health, subscriptions)
    }

    // Every array is the one of before, or a new one; and so is the kernel.
    twostate predicate Kept()
      reads this
    {
      && Valid()
      && (cfg.inbounds.data == old(cfg.inbounds.data) || fresh(cfg.inbounds.data))
      && (cfg.outbounds.data == old(cfg.outbounds.data) || fresh(cfg.outbounds.data))
      && (cfg.rules.data == old(cfg.rules.data) || fresh(cfg.rules.data))
      && (rules.data == old(rules.data) || fresh(rules.data))
      && (kernel == old(kernel) || fresh(kernel))
    }

    /** `NewManager`. */
    constructor ()
      ensures Valid() && fresh(cfg.inbounds.data) && fresh(cfg.outbounds.data) && fresh(cfg.rules.data) && fresh(rules.data)
      ensures fresh(kernel)
      ensures Abs() == State("placeholder", Config(0, KernelConfig("", "", ""), [], [], RoutingConfig(NoMode, "", "", []), Mihomo([], [], [])),
                             map[], map[], [], map[], map[], map[])
    {
      var ins, outs := new Inbound[0], new Outbound[0];
      var rs, rs' := new Rule[0], new Rule[0];
      kernel := new Kernel(KernelConfig("", "", ""));
      cfg := ConfigRep(0, KernelConfig("", "", ""), Slice(ins, 0), Slice(outs, 0), NoMode, "", "", Slice(rs, 0), Mihomo([], [], []));
      rules := Slice(rs', 0);
      inbounds, outbounds, traffic, health, subscriptions := map[], map[], map[], map[], map[];
    }

    /** `snapshotLocked`. */
    method TakeSnapshot() returns (s: Snapshot)
      requires Valid()
      ensures s.Valid() && s.Abs() == Abs() && s.kernel == kernel
      ensures fresh(s.cfg.inbounds.data) && fresh(s.cfg.outbounds.data) && fresh(s.cfg.rules.data) && fresh(s.rules.data)
    {
      var c := CloneConfig(cfg);
      var r := Clone(rules);
      s := Snapshot(kernel, c, inbounds, outbounds, r, traffic, health, subscriptions);
    }

    /** `restoreLocked`. */
    method Restore(s: Snapshot)
      requires s.Valid()
      modifies this
      ensures Valid() && kernel == s.kernel
      ensures fresh(cfg.inbounds.data) && fresh(cfg.outbounds.data) && fresh(cfg.rules.data) && fresh(rules.data)
      ensures Abs() == old(s.Abs())
    {
      ghost var before := s.Abs();
      var c := CloneConfig(s.cfg);
      var r := Clone(s.rules);
      assert c.Abs() == before.cfg && r.Elems() == before.rules;
      kernel, cfg, rules := s.kernel, c, r;
      inbounds, outbounds := s.inbounds, s.outbounds;
      traffic, health, subscriptions := s.traffic, s.health, s.subscriptions;
    }

    /** `applyKernelLocked`: generates the configuration of the live nodes and rules and (re)starts the kernel on it. */
    method ApplyKernel(failing: set<Step>) returns (e: Option<Error>)
      requires Valid()
      modifies kernel
      ensures e == FirstFailure(KERNEL_STEPS, failing)
      ensures e.None? ==> kernel.applied == Some(RuntimeOf(Abs().cfg))
      ensures kernel.cfg == old(kernel.cfg)
    {
      hide EnabledRuntime;
      var c := ValueOf(cfg);
      var runtime := ComputeEnabledRuntime(c.inbounds, c.outbounds, c.routing);
      e := RunSteps([TLSAssets, Generate, ReadGenerated, WriteGenerated], failing);
      assert KERNEL_STEPS == [TLSAssets, Generate, ReadGenerated, WriteGenerated] + [RunKernel];
      FirstFailureSplit([TLSAssets, Generate, ReadGenerated, WriteGenerated], [RunKernel], failing);
      if e.Some? {
        return;
      }
      e := RunSteps([RunKernel], failing);
      kernel.applied := if e.None? then Some(runtime) else None;
    }

    /** `commitLocked`. */
    method CommitAll(failing: set<Step>) returns (e: Option<Error>)
      requires Valid()
      modifies kernel
      ensures e == CommitError(Abs().cfg, failing)
      ensures e.None? ==> kernel.applied == Some(RuntimeOf(Abs().cfg))
      ensures kernel.cfg == old(kernel.cfg)
    {
      hide ConfigOk, EnabledRuntime, FirstFailure;
      var c := ValueOf(cfg);
      var invalid := Validate(c);
      if invalid.Some? {
        return Some(Invalid);
      }
      e := ApplyKernel(failing);
      FirstFailureSplit(KERNEL_STEPS, [SaveYaml, SaveHistory, SaveRuntime], failing);
      if e.Some? {
        return;
      }
      e := RunSteps([SaveYaml, SaveHistory, SaveRuntime], failing);
    }

    /** `commitWithRollbackLocked`. */
    method CommitWithRollback(s: Snapshot, f: Faults) returns (o: Outcome)
      requires Valid() && s.Valid()
      modifies this, kernel, s.kernel
      ensures Valid()
      ensures cfg.inbounds.data == old(cfg.inbounds.data) || fresh(cfg.inbounds.data)
      ensures cfg.outbounds.data == old(cfg.outbounds.data) || fresh(cfg.outbounds.data)
      ensures cfg.rules.data == old(cfg.rules.data) || fresh(cfg.rules.data)
      ensures rules.data == old(rules.data) || fresh(rules.data)
      ensures (Abs(), o) == Commit(old(s.Abs()), Proceed(old(Abs())), f)
      ensures o.Error? ==> Abs() == old(s.Abs()) && (o.first.Invalid? || o.first.Failed?)
      ensures kernel == if o.Done? then old(kernel) else s.kernel
      ensures Served(o) ==> kernel.applied == Some(RuntimeOf(Abs().cfg))
      ensures kernel.cfg == old(if o.Done? then kernel.cfg else s.kernel.cfg)
    {
      hide CommitError, FirstFailure, RuntimeOf;
      var e := CommitAll(f.commit);
      if e.None? {
        return Done;
      }
      CommitErrorKind(Abs().cfg, f.commit);
      Restore(s);
      var second := ApplyKernel(f.rollback);
      o := Error(e.value, second);
    }

    /* ----- small edits in place ----- */

    method EnsureTraffic(name: string)
      requires Valid()
      modifies this`traffic
      ensures Valid() && Abs() == old(Abs()).(traffic := WithTraffic(old(traffic), name))
    {
      if name !in traffic {
        traffic := traffic[name := Traffic(0, 0)];
      }
    }

    method EnsureHealth(name: string, disabled: bool)
      requires Valid()
      modifies this`health
      ensures Valid() && Abs() == old(Abs()).(health := WithHealth(old(health), name, disabled))
    {
      if name in health {
        return;
      }
      health := health[name := if disabled then Health("disabled", "node disabled") else Health("unknown", "")];
    }

    method Watch(name: string, disabled: bool)
      requires Valid()
      modifies this`traffic, this`health
      ensures Valid() && Abs() == Watched(old(Abs()), name, disabled)
    {
      EnsureTraffic(name);
      EnsureHealth(name, disabled);
    }

    // Puts a node into the map under `name` and into the list under its own name.
    method StoreInbound(name: string, i: Inbound)
      requires Valid()
      modifies this`inbounds, this`cfg, cfg.inbounds.data
      ensures Kept()
      ensures Abs() == WithInbounds(old(Abs()), Upsert(old(Abs()).cfg.inbounds, InboundName, i)).(inbounds := old(inbounds)[name := i])
    {
      inbounds := inbounds[name := i];
      var list := UpsertInPlace(cfg.inbounds, InboundName, i);
      cfg := cfg.(inbounds := list);
    }

    method StoreOutbound(name: string, x: Outbound)
      requires Valid()
      modifies this`outbounds, this`cfg, cfg.outbounds.data
      ensures Kept()
      ensures Abs() == WithOutbounds(old(Abs()), Upsert(old(Abs()).cfg.outbounds, OutboundName, x)).(outbounds := old(outbounds)[name := x])
    {
      outbounds := outbounds[name := x];
      var list := UpsertInPlace(cfg.outbounds, OutboundName, x);
      cfg := cfg.(outbounds := list);
    }

    // Appends a new inbound.
    method AppendInbound(i: Inbound)
      requires Valid()
      modifies this`inbounds, this`cfg, cfg.inbounds.data
      ensures Kept()
      ensures Abs() == WithInbounds(old(Abs()), old(Abs()).cfg.inbounds + [i]).(inbounds := old(inbounds)[i.name := i])
    {
      inbounds := inbounds[i.name := i];
      var list := Append(cfg.inbounds, i);
      cfg := cfg.(inbounds := list);
    }

    method AppendRule(rule: Rule)
      requires Valid()
      modifies this`rules, this`cfg, cfg.rules.data, rules.data
      ensures Kept()
      ensures Abs() == WithRules(old(Abs()), old(Abs()).cfg.routing.rules + [rule]).(rules := old(Abs()).rules + [rule])
    {
      rules := Append(rules, rule);
      var list := Append(cfg.rules, rule);
      cfg := cfg.(rules := list);
    }

    // Deletes a node and the rules that refer to it.
    method Drop(item: Item)
      requires Valid()
      modifies this`inbounds, this`outbounds, this`rules, this`cfg, cfg.inbounds.data, cfg.outbounds.data, cfg.rules.data, rules.data
      ensures Kept() && Abs() == Dropped(old(Abs()), item)
    {
      hide NotReferring, Filter, Remove;
      match item.kind {
        case InboundNode =>
          TakeOutInbound(item.name);
          DropRules(item);
        case OutboundNode =>
          TakeOutOutbound(item.name);
          DropRules(item);
        case OtherNode =>
      }
    }

    method TakeOutInbound(name: string)
      requires Valid()
      modifies this`inbounds, this`cfg, cfg.inbounds.data
      ensures Kept()
      ensures Abs() == WithInbounds(old(Abs()), Remove(old(Abs()).cfg.inbounds, InboundName, name)).(inbounds := old(inbounds) - {name})
    {
      inbounds := inbounds - {name};
      var list := Compact(cfg.inbounds, NotNamed(InboundName, name));
      cfg := cfg.(inbounds := list);
    }

    method TakeOutOutbound(name: string)
      requires Valid()
      modifies this`outbounds, this`cfg, cfg.outbounds.data
      ensures Kept()
      ensures Abs() == WithOutbounds(old(Abs()), Remove(old(Abs()).cfg.outbounds, OutboundName, name)).(outbounds := old(outbounds) - {name})
    {
      outbounds := outbounds - {name};
      var list := Compact(cfg.outbounds, NotNamed(OutboundName, name));
      cfg := cfg.(outbounds := list);
    }

    method DropRules(item: Item)
      requires Valid()
      modifies this`rules, this`cfg, rules.data, cfg.rules.data
      ensures Kept()
      ensures Abs() == WithRules(old(Abs()), Filter(old(Abs()).cfg.routing.rules, NotReferring(item))).(
                         rules := Filter(old(Abs()).rules, NotReferring(item)))
    {
      rules := Compact(rules, NotReferring(item));
      var list := Compact(cfg.rules, NotReferring(item));
      cfg := cfg.(rules := list);
    }

    method MoveOutbound(from: string, to: string)
      requires Valid()
      modifies this`outbounds, this`rules, this`cfg, this`traffic, this`health, cfg.outbounds.data
      ensures Kept() && Abs() == Renamed(old(Abs()), from, to)
    {
      hide Filter, Remove, Map, RenameOutbound;
      TakeOutOutbound(from);
      RedirectRules(from, to);
      MoveCounters(from, to);
    }

    // The rules and the default that send traffic to `from` now send it to `to`.
    method RedirectRules(from: string, to: string)
      requires Valid()
      modifies this`rules, this`cfg
      ensures Kept()
      ensures var routing := old(Abs()).cfg.routing;
        Abs() == WithRouting(old(Abs()), routing.(
                   rules := Map(RenameOutbound(from, to), routing.rules),
                   defaultOutbound := if routing.defaultOutbound == from then to else routing.defaultOutbound)).(
                   rules := Map(RenameOutbound(from, to), old(Abs()).rules))
    {
      hide Map, RenameOutbound;
      rules := RenamedRules(rules, from, to);
      var renamed := RenamedRules(cfg.rules, from, to);
      cfg := cfg.(rules := renamed);
      if cfg.defaultOutbound == from {
        cfg := cfg.(defaultOutbound := to);
      }
    }

    method MoveCounters(from: string, to: string)
      requires Valid()
      modifies this`traffic, this`health
      ensures Kept()
      ensures Abs() == old(Abs()).(traffic := Rename(old(traffic), from, to), health := Rename(old(health), from, to))
    {
      if from in traffic {
        traffic := traffic[to := traffic[from]] - {from};
      }
      if from in health {
        health := health[to := health[from]] - {from};
      }
    }

    method Switch(item: Item, enabled: bool)
      requires Valid() && Exists(Abs(), item)
      modifies this`inbounds, this`outbounds, this`cfg, this`health, cfg.inbounds.data, cfg.outbounds.data
      ensures Kept() && Abs() == Switched(old(Abs()), item, enabled)
    {
      if item.kind.InboundNode? {
        StoreInbound(item.name, inbounds[item.name].(disabled := !enabled));
      } else {
        StoreOutbound(item.name, outbounds[item.name].(disabled := !enabled));
      }
      EnsureHealth(item.name, !enabled);
    }

    method DropAll(items: seq<Item>)
      requires Valid()
      modifies this`inbounds, this`outbounds, this`rules, this`cfg, cfg.inbounds.data, cfg.outbounds.data, cfg.rules.data, rules.data
      ensures Kept() && Abs() == DroppedAll(old(Abs()), items)
    {
      hide Dropped, ConfigRep.Abs, Slice.Elems;
      for i := 0 to |items|
        invariant Kept()
        invariant Abs() == DroppedAll(old(Abs()), items[..i])
      {
        assert items[..i + 1][..i] == items[..i];
        Drop(items[i]);
      }
      assert items[..|items|] == items;
    }

    method SwitchAll(items: seq<Item>, enabled: bool)
      requires Valid() && AllExist(Abs(), items)
      modifies this`inbounds, this`outbounds, this`cfg, this`health, cfg.inbounds.data, cfg.outbounds.data
      ensures Kept() && Abs() == SwitchedAll(old(Abs()), items, enabled)
    {
      hide Switched, ConfigRep.Abs, Slice.Elems;
      for i := 0 to |items|
        invariant Kept()
        invariant Abs() == SwitchedAll(old(Abs()), items[..i], enabled)
      {
        assert items[..i + 1][..i] == items[..i];
        assert Exists(old(Abs()), items[i]);
        Switch(items[i], enabled);
      }
      assert items[..|items|] == items;
    }

    // The edits of the operations that add or change nodes.

    method PutInboundWatched(i: Inbound)
      requires Valid()
      modifies this`inbounds, this`cfg, this`traffic, this`health, cfg.inbounds.data
      ensures Kept() && Abs() == Watched(PutInbound(old(Abs()), i), i.name, i.disabled)
    {
      hide Upsert, ConfigRep.Abs, Slice.Elems, WithTraffic, WithHealth;
      StoreInbound(i.name, i);
      Watch(i.name, i.disabled);
    }

    method PutOutboundWatched(x: Outbound)
      requires Valid()
      modifies this`outbounds, this`cfg, this`traffic, this`health, cfg.outbounds.data
      ensures Kept() && Abs() == Watched(PutOutbound(old(Abs()), x), x.name, x.disabled)
    {
      hide Upsert, ConfigRep.Abs, Slice.Elems, WithTraffic, WithHealth;
      StoreOutbound(x.name, x);
      Watch(x.name, x.disabled);
    }

    method AppendInboundWatched(i: Inbound)
      requires Valid()
      modifies this`inbounds, this`cfg, this`traffic, this`health, cfg.inbounds.data
      ensures Kept()
      ensures Abs() == Watched(WithInbounds(old(Abs()), old(Abs()).cfg.inbounds + [i]).(inbounds := old(inbounds)[i.name := i]), i.name, i.disabled)
    {
      hide ConfigRep.Abs, Slice.Elems, WithTraffic, WithHealth;
      AppendInbound(i);
      Watch(i.name, i.disabled);
    }

    method AppendForward(i: Inbound, rule: Rule)
      requires Valid()
      modifies this`inbounds, this`rules, this`cfg, this`traffic, this`health, cfg.inbounds.data, cfg.rules.data, rules.data
      ensures Kept()
      ensures var s := WithInbounds(old(Abs()), old(Abs()).cfg.inbounds + [i]).(
                inbounds := old(inbounds)[i.name := i], rules := old(Abs()).rules + [rule]);
        Abs() == Watched(WithRules(s, old(Abs()).cfg.routing.rules + [rule]), i.name, i.disabled)
    {
      hide ConfigRep.Abs, Slice.Elems, WithTraffic, WithHealth;
      AppendRule(rule);
      AppendInboundWatched(i);
    }

    method PlaceOutbound(originalName: string, x: Outbound)
      requires Valid()
      modifies this`outbounds, this`rules, this`cfg, this`traffic, this`health, cfg.outbounds.data
      ensures Kept()
      ensures var s := if IsRename(originalName, x) then Renamed(old(Abs()), originalName, x.name) else old(Abs());
        Abs() == Watched(PutOutbound(s, x), x.name, x.disabled)
    {
      hide ConfigRep.Abs, Slice.Elems, Renamed, PutOutbound, Watched;
      if IsRename(originalName, x) {
        MoveOutbound(originalName, x.name);
      }
      PutOutboundWatched(x);
    }

    method SetRouting(mode: Mode, preset: string, defaultOutbound: string, newRules: Slice<Rule>)
      requires Valid() && newRules.Valid()
      modifies this`cfg, this`rules
      ensures Valid() && cfg.inbounds == old(cfg.inbounds) && cfg.outbounds == old(cfg.outbounds)
      ensures cfg.rules == newRules && fresh(rules.data)
      ensures Abs() == WithRouting(old(Abs()), RoutingConfig(mode, preset, defaultOutbound, newRules.Elems())).(rules := newRules.Elems())
    {
      cfg := cfg.(mode := mode, preset := preset, defaultOutbound := defaultOutbound, rules := newRules);
      rules := Clone(newRules);
    }

    method SetMihomo(mihomo: Mihomo)
      requires Valid()
      modifies this`cfg
      ensures Kept() && Abs() == old(Abs()).(cfg := old(Abs()).cfg.(mihomo := mihomo))
    {
      cfg := cfg.(mihomo := mihomo);
    }

    method SetKernel(c: KernelConfig)
      requires Valid()
      modifies this`cfg
      ensures Kept() && Abs() == old(Abs()).(cfg := old(Abs()).cfg.(kernel := c))
    {
      cfg := cfg.(kernel := c);
    }

    /* ----- the operations ----- */

    method CreateProxy(req: Inbound, f: Faults) returns (o: Outcome)
      requires Valid()
      modifies this, cfg.inbounds.data, cfg.outbounds.data, cfg.rules.data, rules.data, kernel
      ensures Kept()
      ensures (Abs(), o) == Commit(old(Abs()), Store.CreateProxy(old(Abs()), req, f), f)
      ensures o.Error? ==> Abs() == old(Abs())
      ensures Served(o) ==> kernel.applied == Some(RuntimeOf(Abs().cfg))
    {
      hide CommitError, FirstFailure, RuntimeOf, ConfigRep.Abs, Snapshot.Abs, Slice.Elems, InboundOk, Watched, WithInbounds, PutInbound;
      var i := WithDefaultProtocol(req);
      if i.name == "" || !ValidPort(i.port) || i.name in inbounds {
        return Error(Refused, None);
      }
      var snapshot := TakeSnapshot();
      if f.certificate || !InboundOk(i) {
        return Error(Refused, None);
      }
      AppendInboundWatched(i);
      o := CommitWithRollback(snapshot, f);
    }

    method CreateForward(req: ForwardRequest, f: Faults) returns (o: Outcome)
      requires Valid()
      modifies this, cfg.inbounds.data, cfg.outbounds.data, cfg.rules.data, rules.data, kernel
      ensures Kept()
      ensures (Abs(), o) == Commit(old(Abs()), Store.CreateForward(old(Abs()), req), f)
      ensures o.Error? ==> Abs() == old(Abs())
      ensures Served(o) ==> kernel.applied == Some(RuntimeOf(Abs().cfg))
    {
      hide CommitError, FirstFailure, RuntimeOf, ConfigRep.Abs, Snapshot.Abs, Slice.Elems, MaxPriority, ForwardOk, Watched, WithInbounds, WithRules, ForwardRule;
      if !ForwardOk(req) || req.name in inbounds {
        return Error(Refused, None);
      }
      var snapshot := TakeSnapshot();
      var i := ForwardInbound(req);
      var max := HighestPriority();
      AppendForward(i, ForwardRule(i.name, Wrap(max + 10)));
      o := CommitWithRollback(snapshot, f);
    }

    // The loop of `nextRulePriority`.
    method HighestPriority() returns (max: int)
      requires Valid()
      ensures max == MaxPriority(Abs().rules)
    {
      max := 0;
      ghost var all := rules.Elems();
      for i := 0 to rules.len
        invariant max == MaxPriority(all[..i])
      {
        assert all[..i + 1][..i] == all[..i];
        if rules.data[i].priority > max {
          max := rules.data[i].priority;
        }
      }
      assert all[..rules.len] == all;
    }

    method UpsertInbound(i: Inbound, f: Faults) returns (o: Outcome)
      requires Valid()
      modifies this, cfg.inbounds.data, cfg.outbounds.data, cfg.rules.data, rules.data, kernel
      ensures Kept()
      ensures (Abs(), o) == Commit(old(Abs()), Store.UpsertInbound(old(Abs()), i, f), f)
      ensures o.Error? ==> Abs() == old(Abs())
      ensures Served(o) ==> kernel.applied == Some(RuntimeOf(Abs().cfg))
    {
      hide CommitError, FirstFailure, RuntimeOf, ConfigRep.Abs, Snapshot.Abs, Slice.Elems, InboundOk, Watched, WithInbounds, PutInbound;
      if i.name == "" || !ValidPort(i.port) || f.certificate || !InboundOk(i) {
        return Error(Refused, None);
      }
      var snapshot := TakeSnapshot();
      PutInboundWatched(i);
      o := CommitWithRollback(snapshot, f);
    }

    method UpsertOutbound(originalName: string, x: Outbound, f: Faults) returns (o: Outcome)
      requires Valid()
      modifies this, cfg.inbounds.data, cfg.outbounds.data, cfg.rules.data, rules.data, kernel
      ensures Kept()
      ensures (Abs(), o) == Commit(old(Abs()), Store.UpsertOutbound(old(Abs()), originalName, x), f)
      ensures o.Error? ==> Abs() == old(Abs())
      ensures Served(o) ==> kernel.applied == Some(RuntimeOf(Abs().cfg))
    {
      hide CommitError, FirstFailure, RuntimeOf, ConfigRep.Abs, Snapshot.Abs, Slice.Elems, Watched, PutOutbound, Renamed, OutboundOk, Commit, Addressed, CannotRename, IsRename;
      CommitRefused(Abs(), f);
      if !Addressed(x) {
        return Error(Refused, None);
      }
      var snapshot := TakeSnapshot();
      if CannotRename(outbounds, originalName, x) {
        return Error(Refused, None);
      }
      PlaceOutbound(originalName, x);
      o := CommitWithRollback(snapshot, f);
    }

    /** Takes over the caller's list of rules, and a copy of it. */
    method UpdateRoutingConfig(mode: Mode, preset: string, defaultOutbound: string, newRules: Slice<Rule>, f: Faults)
      returns (o: Outcome)
      requires Valid() && newRules.Valid()
      modifies this, cfg.inbounds.data, cfg.outbounds.data, cfg.rules.data, rules.data, kernel
      ensures Valid() && kernel == old(kernel)
      ensures (Abs(), o) ==
        Commit(old(Abs()), UpdateRouting(old(Abs()), RoutingConfig(mode, preset, defaultOutbound, old(newRules.Elems()))), f)
      ensures o.Error? ==> Abs() == old(Abs())
      ensures Served(o) ==> kernel.applied == Some(RuntimeOf(Abs().cfg))
    {
      hide CommitError, FirstFailure, RuntimeOf, ConfigRep.Abs, Snapshot.Abs, Slice.Elems;
      var snapshot := TakeSnapshot();
      SetRouting(mode, preset, defaultOutbound, newRules);
      o := CommitWithRollback(snapshot, f);
    }

    method UpdateMihomoConfig(mihomo: Mihomo, f: Faults) returns (o: Outcome)
      requires Valid()
      modifies this, cfg.inbounds.data, cfg.outbounds.data, cfg.rules.data, rules.data, kernel
      ensures Kept()
      ensures (Abs(), o) == Commit(old(Abs()), UpdateMihomo(old(Abs()), mihomo), f)
      ensures o.Error? ==> Abs() == old(Abs())
      ensures Served(o) ==> kernel.applied == Some(RuntimeOf(Abs().cfg))
    {
      hide CommitError, FirstFailure, RuntimeOf, ConfigRep.Abs, Snapshot.Abs, Slice.Elems;
      var snapshot := TakeSnapshot();
      SetMihomo(mihomo);
      o := CommitWithRollback(snapshot, f);
    }

    /** `configureKernelLocked`: the same kernel is reconfigured where it stands, another one takes its place. */
    method ConfigureKernel(c: KernelConfig, f: Faults) returns (ok: bool)
      requires Valid()
      modifies this`kernel, kernel
      ensures Kept()
      ensures ok <==> !SwitchFails(old(Abs()), c, f)
      ensures Abs() == old(Abs()).(kernel := if ok then KernelName(c.kind) else old(kernel).name)
      ensures kernel == old(kernel) <==> old(kernel).name == KernelName(c.kind) || !ok
      ensures kernel.cfg == if ok then Configured(c) else old(kernel.cfg)
      ensures kernel != old(kernel) ==> old(kernel).cfg == old(kernel.cfg)
    {
      if kernel.name != KernelName(c.kind) {
        if f.stopKernel {
          return false;
        }
        kernel := new Kernel(c);
        return true;
      }
      kernel.cfg := Configured(c);
      return true;
    }

    /** A failed update leaves the Manager as it was, yet a kernel of the same type keeps the new settings. */
    method UpdateKernelConfig(given: KernelConfig, f: Faults) returns (o: Outcome)
      requires Valid()
      modifies this, cfg.inbounds.data, cfg.outbounds.data, cfg.rules.data, rules.data, kernel
      ensures Kept()
      ensures (Abs(), o) == Commit(old(Abs()), UpdateKernel(old(Abs()), given, f), f)
      ensures o.Error? ==> Abs() == old(Abs()) && kernel == old(kernel)
      ensures Served(o) ==> kernel.applied == Some(RuntimeOf(Abs().cfg))
      ensures var c := NormalizeKernel(given);
        kernel.cfg == if o.Done? || old(kernel).name == KernelName(c.kind) then Configured(c) else old(kernel.cfg)
    {
      hide CommitError, FirstFailure, RuntimeOf, ConfigRep.Abs, Snapshot.Abs, Slice.Elems, NormalizeKernel, KernelName, Configured, Commit;
      CommitRefused(Abs(), f);
      var c := NormalizeKernel(given);
      var snapshot := TakeSnapshot();
      var ok := ConfigureKernel(c, f);
      if !ok {
        return Error(StopFailed, None);
      }
      SetKernel(c);
      o := CommitWithRollback(snapshot, f);
    }

    method DeleteNode(item: Item, f: Faults) returns (o: Outcome)
      requires Valid()
      modifies this, cfg.inbounds.data, cfg.outbounds.data, cfg.rules.data, rules.data, kernel
      ensures Kept()
      ensures (Abs(), o) == Commit(old(Abs()), Store.DeleteNode(old(Abs()), item), f)
      ensures o.Error? ==> Abs() == old(Abs())
      ensures Served(o) ==> kernel.applied == Some(RuntimeOf(Abs().cfg))
    {
      hide CommitError, FirstFailure, RuntimeOf, ConfigRep.Abs, Snapshot.Abs, Slice.Elems, Dropped, Exists;
      var ok := IsPresent(item);
      if !ok {
        return Error(Refused, None);
      }
      var snapshot := TakeSnapshot();
      Drop(item);
      o := CommitWithRollback(snapshot, f);
    }

    method IsPresent(item: Item) returns (ok: bool)
      requires Valid()
      ensures ok <==> item.name != "" && Exists(Abs(), item)
    {
      if item.name == "" {
        return false;
      }
      match item.kind {
        case InboundNode => ok := item.name in inbounds;
        case OutboundNode => ok := item.name in outbounds;
        case OtherNode => ok := false;
      }
    }

    method AllPresent(items: seq<Item>) returns (ok: bool)
      requires Valid()
      ensures ok <==> AllExist(Abs(), items)
    {
      for i := 0 to |items|
        invariant forall j :: 0 <= j < i ==> items[j].name != "" && Exists(Abs(), items[j])
      {
        ok := IsPresent(items[i]);
        if !ok {
          return;
        }
      }
      return true;
    }

    method DeleteNodes(items: seq<Item>, f: Faults) returns (o: Outcome)
      requires Valid()
      modifies this, cfg.inbounds.data, cfg.outbounds.data, cfg.rules.data, rules.data, kernel
      ensures Kept()
      ensures (Abs(), o) == Commit(old(Abs()), Store.DeleteNodes(old(Abs()), items), f)
      ensures o.Error? ==> Abs() == old(Abs())
      ensures Served(o) ==> kernel.applied == Some(RuntimeOf(Abs().cfg))
    {
      hide CommitError, FirstFailure, RuntimeOf, ConfigRep.Abs, Snapshot.Abs, Slice.Elems, DroppedAll, AllExist;
      if |items| == 0 {
        return Error(Refused, None);
      }
      var snapshot := TakeSnapshot();
      var ok := AllPresent(items);
      if !ok {
        return Error(Refused, None);
      }
      DropAll(items);
      o := CommitWithRollback(snapshot, f);
    }

    method SetNodeEnabled(item: Item, enabled: bool, f: Faults) returns (o: Outcome)
      requires Valid()
      modifies this, cfg.inbounds.data, cfg.outbounds.data, cfg.rules.data, rules.data, kernel
      ensures Kept()
      ensures (Abs(), o) == Commit(old(Abs()), SetEnabled(old(Abs()), item, enabled), f)
      ensures o.Error? ==> Abs() == old(Abs())
      ensures Served(o) ==> kernel.applied == Some(RuntimeOf(Abs().cfg))
    {
      hide CommitError, FirstFailure, RuntimeOf, ConfigRep.Abs, Snapshot.Abs, Slice.Elems, Switched, Exists;
      var ok := IsPresent(item);
      if !ok {
        return Error(Refused, None);
      }
      var snapshot := TakeSnapshot();
      Switch(item, enabled);
      o := CommitWithRollback(snapshot, f);
    }

    method SetNodesEnabled(items: seq<Item>, enabled: bool, f: Faults) returns (o: Outcome)
      requires Valid()
      modifies this, cfg.inbounds.data, cfg.outbounds.data, cfg.rules.data, rules.data, kernel
      ensures Kept()
      ensures (Abs(), o) == Commit(old(Abs()), Store.SetNodesEnabled(old(Abs()), items, enabled), f)
      ensures o.Error? ==> Abs() == old(Abs())
      ensures Served(o) ==> kernel.applied == Some(RuntimeOf(Abs().cfg))
    {
      hide CommitError, FirstFailure, RuntimeOf, ConfigRep.Abs, Snapshot.Abs, Slice.Elems, SwitchedAll;
      if |items| == 0 {
        return Error(Refused, None);
      }
      var snapshot := TakeSnapshot();
      var ok := AllPresent(items);
      if !ok {
        return Error(Refused, None);
      }
      SwitchAll(items, enabled);
      o := CommitWithRollback(snapshot, f);
    }

    /* ----- importing ----- */

    // One turn of the import loop, up to storing the node.
    method PrepareItem(i: nat, x: Outbound, opts: Options, parse: Parser, pick: Picker) returns (r: ItemResult)
      requires Valid() && Picks(pick)
      ensures r == ImportItem(outbounds, i, x, opts, parse, pick)
    {
      hide Prepared, Named, Matching, Merge, KeptFields, Equivalent, FreshName, Acceptable;
      var prepared := Prepared(x, opts, parse);
      var next := Named(prepared);
      var action := Added;
      var existing := Matching(outbounds, next, opts.provider, i, pick);
      if existing != "" {
        action := Updated;
        if existing in outbounds {
          if Equivalent(outbounds[existing], next) {
            action := Same;
          }
          next := Merge(outbounds[existing], next, KeptFields(opts));
        }
        next := next.(name := existing);
      } else {
        var unique := UniqueOutboundName(outbounds.Keys, next.name);
        next := next.(name := unique);
      }
      if !Acceptable(next) {
        return Bad;
      }
      r := Good(next, Detail(next.name, prepared.name, action, existing != "" && existing != prepared.name));
    }

    method ImportAll(batch: seq<Outbound>, opts: Options, parse: Parser, pick: Picker) returns (report: Report, ok: bool)
      requires Valid() && Picks(pick)
      modifies this`outbounds, this`cfg, this`traffic, this`health, cfg.outbounds.data
      ensures Kept()
      ensures match ImportBatch(old(Abs()), batch, opts, parse, pick)
        case Stopped(left) => !ok && Abs() == left
        case Finished(next, details) => ok && Abs() == next && report == ReportOf(|batch|, details)
    {
      hide ImportItem, ConfigRep.Abs, Slice.Elems, Watched, PutOutbound, ReportOf, Counted;
      assert Report(|batch|, 0, 0, 0, []) == ReportOf(|batch|, []) by { EmptyReport(|batch|); }
      report, ok := Report(|batch|, 0, 0, 0, []), true;
      for i := 0 to |batch|
        invariant Kept()
        invariant ImportBatch(old(Abs()), batch[..i], opts, parse, pick) == Finished(Abs(), report.details)
        invariant report == ReportOf(|batch|, report.details)
      {
        assert batch[..i + 1][..i] == batch[..i];
        var item := PrepareItem(i, batch[i], opts, parse, pick);
        if item.Bad? {
          ImportBatchStops(old(Abs()), batch, i + 1, opts, parse, pick);
          return report, false;
        }
        PutOutboundWatched(item.outbound);
        CountedIsReport(|batch|, report.details, item.detail);
        ReportDetails(|batch|, report.details + [item.detail]);
        report := Counted(report, item.detail);
      }
      assert batch[..|batch|] == batch;
    }

    /** An import that comes upon an unacceptable item returns without restoring; a failed commit does restore. */
    method ImportOutboundsReport(batch: seq<Outbound>, opts: Options, parse: Parser, pick: Picker, f: Faults)
      returns (report: Report, o: Outcome)
      requires Valid() && Picks(pick)
      modifies this, cfg.inbounds.data, cfg.outbounds.data, cfg.rules.data, rules.data, kernel
      ensures Kept()
      ensures (Abs(), o) == Commit(old(Abs()), ImportOutbounds(old(Abs()), batch, opts, parse, pick), f)
      ensures o.Error? && o.first != Refused ==> Abs() == old(Abs())
      ensures o.Done? ==>
        var r := ImportBatch(old(Abs()), batch, opts, parse, pick);
        r.Finished? && report == ReportOf(|batch|, r.details)
      ensures Served(o) ==> kernel.applied == Some(RuntimeOf(Abs().cfg))
    {
      hide CommitError, FirstFailure, RuntimeOf, ConfigRep.Abs, Snapshot.Abs, Slice.Elems, ImportBatch, ReportOf;
      report := Report(0, 0, 0, 0, []);
      if |batch| == 0 {
        return report, Error(Refused, None);
      }
      var snapshot := TakeSnapshot();
      var counted, ok := ImportAll(batch, opts, parse, pick);
      if !ok {
        return report, Error(Refused, None);
      }
      o := CommitWithRollback(snapshot, f);
      if o.Done? {
        report := counted;
      }
    }

    /* ----- applying a whole configuration ----- */

    method IndexInbounds()
      requires Valid()
      modifies this`inbounds, this`traffic, this`health
      ensures Kept()
      ensures var list := old(Abs()).cfg.inbounds;
        Abs() == WatchedInbounds(old(Abs()), list).(inbounds := MapOf(list, InboundName))
    {
      hide ConfigRep.Abs, Slice.Elems;
      var list := cfg.inbounds.data[..cfg.inbounds.len];
      assert list == Abs().cfg.inbounds by { ConfigLists(cfg); }
      inbounds := map[];
      for i := 0 to |list|
        invariant Valid()
        invariant Abs() == WatchedInbounds(old(Abs()), list[..i]).(inbounds := MapOf(list[..i], InboundName))
      {
        assert list[..i + 1][..i] == list[..i];
        inbounds := inbounds[list[i].name := list[i]];
        Watch(list[i].name, list[i].disabled);
      }
      assert list[..|list|] == list;
    }

    method IndexOutbounds()
      requires Valid()
      modifies this`outbounds, this`traffic, this`health
      ensures Kept()
      ensures var list := old(Abs()).cfg.outbounds;
        Abs() == WatchedOutbounds(old(Abs()), list).(outbounds := MapOf(list, OutboundName))
    {
      hide ConfigRep.Abs, Slice.Elems;
      var list := cfg.outbounds.data[..cfg.outbounds.len];
      assert list == Abs().cfg.outbounds by { ConfigLists(cfg); }
      outbounds := map[];
      for i := 0 to |list|
        invariant Valid()
        invariant Abs() == WatchedOutbounds(old(Abs()), list[..i]).(outbounds := MapOf(list[..i], OutboundName))
      {
        assert list[..i + 1][..i] == list[..i];
        outbounds := outbounds[list[i].name := list[i]];
        Watch(list[i].name, list[i].disabled);
      }
      assert list[..|list|] == list;
    }

    // `m.cfg = cfg`: from here on the lists are the Manager's.
    method Adopt(given: ConfigRep)
      requires Valid() && given.Valid()
      modifies this`cfg, this`rules, this`inbounds, this`outbounds, this`traffic, this`health
      ensures Valid() && cfg == given && fresh(rules.data)
      ensures Abs() == Indexed(old(Abs()).(cfg := given.Abs(), rules := given.Abs().routing.rules))
    {
      hide WatchedInbounds, WatchedOutbounds, MapOf, ConfigRep.Abs;
      cfg := given;
      rules := Clone(given.rules);
      assert rules.Elems() == given.Abs().routing.rules by { ConfigLists(given); }
      IndexInbounds();
      IndexOutbounds();
    }

    // The part of `ApplyConfig` that runs once the configuration is known to be valid.
    method ReplaceConfig(given: ConfigRep, f: Faults) returns (o: Outcome)
      requires Valid() && given.Valid()
      modifies this, kernel
      ensures Valid()
      ensures (Abs(), o) == Commit(old(Abs()), Replace(old(Abs()), old(given.Abs()), f), f)
      ensures o.Error? ==> Abs() == old(Abs()) && kernel == old(kernel) && o.first != Refused
      ensures Served(o) ==> kernel.applied == Some(RuntimeOf(Abs().cfg))
      ensures var c := old(given.Abs()).kernel;
        kernel.cfg == if o.Done? || old(kernel).name == KernelName(c.kind) then Configured(c) else old(kernel.cfg)
    {
      hide CommitError, FirstFailure, RuntimeOf, Snapshot.Abs, ConfigRep.Abs, Slice.Elems, Indexed, KernelName, Configured, Commit;
      CommitRefused(Abs(), f);
      var snapshot := TakeSnapshot();
      Adopt(given);
      assert cfg.kernel == old(given.Abs()).kernel by { ConfigKernel(given); }
      var ok := ConfigureKernel(cfg.kernel, f);
      if !ok {
        Restore(snapshot);
        return Error(StopFailed, None);
      }
      o := CommitWithRollback(snapshot, f);
    }

    /**
     Takes over the caller's configuration, whose list of outbounds it must not hold already: that list is completed in
     place before anything is checked.  A failed one leaves the Manager as it
     was, yet a kernel of the same type keeps the new settings.
     */
    method ApplyConfig(given: ConfigRep, parse: Parser, f: Faults) returns (o: Outcome)
      requires Valid() && given.Valid()
      requires given.outbounds.data != cfg.outbounds.data
      modifies this, given.outbounds.data, kernel
      ensures Valid()
      ensures (Abs(), o) == Commit(old(Abs()), Store.ApplyConfig(old(Abs()), old(given.Abs()), Enricher(parse), f), f)
      ensures o.Error? ==> Abs() == old(Abs()) && kernel == old(kernel)
      ensures Served(o) ==> kernel.applied == Some(RuntimeOf(Abs().cfg))
      ensures var c := old(given.Abs()).kernel;
        kernel.cfg == if o.Done? || (o.first != Refused && old(kernel).name == KernelName(c.kind)) then Configured(c) else old(kernel.cfg)
    {
      hide CommitError, RuntimeOf, ConfigRep.Abs, Slice.Elems, ConfigOk, Map, Enricher, Replace, Commit;
      CommitRefused(Abs(), f);
      EnrichConfig(given, parse);
      var c := ValueOf(given);
      var invalid := Validate(c);
      if invalid.Some? {
        return Error(Refused, None);
      }
      o := ReplaceConfig(given, f);
    }

    /** A probe's result; no commit follows. */
    method RecordHealth(name: string, h: Health)
      requires Valid()
      modifies this`health
      ensures Kept() && forall parse :: Abs() == Runs.After(old(Abs()), Runs.Probed(name, h), parse)
    {
      health := health[name := h];
    }

    method MarkSubscription(name: string, at: int)
      requires Valid()
      modifies this`subscriptions
      ensures Kept() && forall parse :: Abs() == Runs.After(old(Abs()), Runs.Fetched(name, at), parse)
    {
      if name == "" {
        return;
      }
      subscriptions := subscriptions[name := at];
    }
  }

  /* ----- the steps of a commit ----- */

  /** Runs the steps one after the other, up to the first that fails. */
  method RunSteps(steps: seq<Step>, failing: set<Step>) returns (e: Option<Error>)
    ensures e == FirstFailure(steps, failing)
  {
    for i := 0 to |steps|
      invariant FirstFailure(steps, failing) == FirstFailure(steps[i..], failing)
    {
      assert steps[i..][1..] == steps[i + 1..];
      if steps[i] in failing {
        return Some(Failed(steps[i]));
      }
    }
    return None;
  }

  lemma {:induction false} FirstFailureSplit(a: seq<Step>, b: seq<Step>, failing: set<Step>)
    ensures var e := FirstFailure(a, failing);
      FirstFailure(a + b, failing) == if e.Some? then e else FirstFailure(b, failing)
  {
    if a == [] {
      assert a + b == b;
    } else {
      FirstFailureSplit(a[1..], b, failing);
      assert (a + b)[1..] == a[1..] + b;
    }
  }

  lemma {:induction false} FirstFailureKind(steps: seq<Step>, failing: set<Step>)
    ensures var e := FirstFailure(steps, failing); e.Some? ==> e.value.Failed?
  {
    if steps != [] {
      FirstFailureKind(steps[1..], failing);
    }
  }

  lemma CommitRefused(s: State, f: Faults)
    ensures forall e :: Commit(s, Refuse(e, s), f) == (s, Error(e, None))
  {}

  lemma CommitErrorKind(c: Config, failing: set<Step>)
    ensures var e := CommitError(c, failing); e.Some? ==> e.value.Invalid? || e.value.Failed?
  {
    hide ConfigOk;
    FirstFailureKind(COMMIT_STEPS, failing);
  }
}
