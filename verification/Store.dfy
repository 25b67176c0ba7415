/**
 What the Manager holds, and what each of its operations does to it, as values.

 The configuration lists nodes and rules, and the same nodes and rules are held a second time in maps and in a
 rule list.  Every operation is an edit of all of them followed by a commit; a failed commit puts everything
 back.  `Manager` carries the operations out in place and is proved to do exactly what is said here.
 */
module Store {
  import opened Text
  import opened Config
  import opened Sorting
  import opened Routing

  datatype Traffic = Traffic(upload: int, download: int)
  datatype Health = Health(status: string, lastError: string)

  datatype State = State(
    kernel: string, cfg: Config,
    inbounds: map<string, Inbound>, outbounds: map<string, Outbound>, rules: seq<Rule>,
    traffic: map<string, Traffic>, health: map<string, Health>, subscriptions: map<string, int>)

  datatype NodeKind = InboundNode | OutboundNode | OtherNode
  datatype Item = Item(kind: NodeKind, name: string)

  /* ----- failures ----- */

  // The steps of a commit after validation; each may fail.
  datatype Step = TLSAssets | Generate | ReadGenerated | WriteGenerated | RunKernel | SaveYaml | SaveHistory | SaveRuntime

  // What goes wrong in the outside world during one operation.
  datatype Faults = Faults(commit: set<Step>, rollback: set<Step>, stopKernel: bool, certificate: bool)

  datatype Error = Refused | StopFailed | Invalid | Failed(step: Step)

  datatype Outcome = Done | Error(first: Error, rollback: Option<Error>)

  const KERNEL_STEPS := [TLSAssets, Generate, ReadGenerated, WriteGenerated, RunKernel]
  const COMMIT_STEPS := KERNEL_STEPS + [SaveYaml, SaveHistory, SaveRuntime]

  function FirstFailure(steps: seq<Step>, failing: set<Step>): Option<Error> {
    if steps == [] then None
    else if steps[0] in failing then Some(Failed(steps[0]))
    else FirstFailure(steps[1..], failing)
  }

  /** The error of `commitLocked`, if any. */
  function CommitError(cfg: Config, failing: set<Step>): Option<Error> {
    if !ConfigOk(cfg) then Some(Invalid) else FirstFailure(COMMIT_STEPS, failing)
  }

  // An operation is refused, leaving some state behind, or it has made its edit and goes on to commit.
  datatype Edit = Refuse(error: Error, left: State) | Proceed(next: State)

  /** Commits an edit of `before`; when the commit fails, `before` is the state again. */
  function Commit(before: State, edit: Edit, f: Faults): (State, Outcome) {
    match edit
    case Refuse(error, left) => (left, Error(error, None))
    case Proceed(next) =>
      var e := CommitError(next.cfg, f.commit);
      if e.None? then (next, Done) else (before, Error(e.value, FirstFailure(KERNEL_STEPS, f.rollback)))
  }

  /* ----- lists with a key ----- */

  function Find<T>(xs: seq<T>, key: T -> string, name: string): (i: nat)
    ensures i <= |xs|
    ensures i < |xs| ==> key(xs[i]) == name
    ensures forall j :: 0 <= j < i ==> key(xs[j]) != name
  {
    if xs == [] || key(xs[0]) == name then 0
    else
      var i := 1 + Find(xs[1..], key, name);
      assert forall j :: 1 <= j < i ==> xs[j] == xs[1..][j - 1];
      i
  }

  /** Overwrites the first entry of that name, or appends. */
  function Upsert<T>(xs: seq<T>, key: T -> string, x: T): seq<T> {
    var i := Find(xs, key, key(x));
    if i < |xs| then xs[i := x] else xs + [x]
  }

  function NotNamed<T>(key: T -> string, name: string): T -> bool {
    (x: T) => key(x) != name
  }

  function Remove<T>(xs: seq<T>, key: T -> string, name: string): seq<T> {
    Filter(xs, NotNamed(key, name))
  }

  function MapOf<T>(xs: seq<T>, key: T -> string): map<string, T> {
    if xs == [] then map[] else MapOf(xs[..|xs| - 1], key)[key(xs[|xs| - 1]) := xs[|xs| - 1]]
  }

  // The map holds exactly the elements of the list, under their names.
  predicate Keyed<T(==)>(xs: seq<T>, key: T -> string, m: map<string, T>) {
    && (forall i :: 0 <= i < |xs| ==> key(xs[i]) in m && m[key(xs[i])] == xs[i])
    && (forall name :: name in m ==> Names(xs, key, name))
  }

  /* ----- rules ----- */

  predicate RefersTo(rule: Rule, item: Item) {
    || (item.kind.InboundNode? && RuleMatchType(rule).InboundMatch? && RuleValue(rule) == item.name)
    || (item.kind.OutboundNode? && rule.outbound == item.name)
  }

  function NotReferring(item: Item): Rule -> bool {
    (rule: Rule) => !RefersTo(rule, item)
  }

  function RenameOutbound(from: string, to: string): Rule -> Rule {
    (rule: Rule) => if rule.outbound == from then rule.(outbound := to) else rule
  }

  function MaxPriority(rules: seq<Rule>): int {
    if rules == [] then 0
    else
      var m := MaxPriority(rules[..|rules| - 1]);
      if rules[|rules| - 1].priority > m then rules[|rules| - 1].priority else m
  }

  // Addition of 64-bit integers wraps around.
  function Wrap(n: int): int {
    if n > MAX_INT then n - 0x1_0000_0000_0000_0000 else n
  }

  function NextPriority(rules: seq<Rule>): int {
    Wrap(MaxPriority(rules) + 10)
  }

  /* ----- counters and health ----- */

  function WithTraffic(traffic: map<string, Traffic>, name: string): map<string, Traffic> {
    if name in traffic then traffic else traffic[name := Traffic(0, 0)]
  }

  function WithHealth(health: map<string, Health>, name: string, disabled: bool): map<string, Health> {
    if name in health then health
    else health[name := if disabled then Health("disabled", "node disabled") else Health("unknown", "")]
  }

  function Rename<T>(m: map<string, T>, from: string, to: string): map<string, T> {
    if from in m then m[to := m[from]] - {from} else m
  }

  /* ----- small edits ----- */

  function WithInbounds(s: State, inbounds: seq<Inbound>): State { s.(cfg := s.cfg.(inbounds := inbounds)) }
  function WithOutbounds(s: State, outbounds: seq<Outbound>): State { s.(cfg := s.cfg.(outbounds := outbounds)) }
  function WithRouting(s: State, routing: RoutingConfig): State { s.(cfg := s.cfg.(routing := routing)) }
  function WithRules(s: State, rules: seq<Rule>): State { WithRouting(s, s.cfg.routing.(rules := rules)) }

  function Watched(s: State, name: string, disabled: bool): State {
    s.(traffic := WithTraffic(s.traffic, name), health := WithHealth(s.health, name, disabled))
  }

  function PutInbound(s: State, i: Inbound): State {
    WithInbounds(s, Upsert(s.cfg.inbounds, InboundName, i)).(inbounds := s.inbounds[i.name := i])
  }

  function PutOutbound(s: State, o: Outbound): State {
    WithOutbounds(s, Upsert(s.cfg.outbounds, OutboundName, o)).(outbounds := s.outbounds[o.name := o])
  }

  function Dropped(s: State, item: Item): State {
    var t := WithRules(s, Filter(s.cfg.routing.rules, NotReferring(item))).(rules := Filter(s.rules, NotReferring(item)));
    match item.kind
    case InboundNode => WithInbounds(t, Remove(s.cfg.inbounds, InboundName, item.name)).(inbounds := s.inbounds - {item.name})
    case OutboundNode => WithOutbounds(t, Remove(s.cfg.outbounds, OutboundName, item.name)).(outbounds := s.outbounds - {item.name})
    case OtherNode => s
  }

  predicate Exists(s: State, item: Item) {
    match item.kind
    case InboundNode => item.name in s.inbounds
    case OutboundNode => item.name in s.outbounds
    case OtherNode => false
  }

  function Switched(s: State, item: Item, enabled: bool): (t: State)
    requires Exists(s, item)
    ensures t.inbounds.Keys == s.inbounds.Keys && t.outbounds.Keys == s.outbounds.Keys
  {
    var health := WithHealth(s.health, item.name, !enabled);
    if item.kind.InboundNode? then
      var i := s.inbounds[item.name].(disabled := !enabled);
      assert s.inbounds[item.name := i].Keys == s.inbounds.Keys;
      WithInbounds(s, Upsert(s.cfg.inbounds, InboundName, i)).(inbounds := s.inbounds[item.name := i], health := health)
    else
      var o := s.outbounds[item.name].(disabled := !enabled);
      assert s.outbounds[item.name := o].Keys == s.outbounds.Keys;
      WithOutbounds(s, Upsert(s.cfg.outbounds, OutboundName, o)).(outbounds := s.outbounds[item.name := o], health := health)
  }

  /* ----- the operations ----- */

  function Unchanged(s: State): Edit { Refuse(Refused, s) }

  // A node as `CreateProxy` builds it: an empty protocol becomes socks.
  function WithDefaultProtocol(i: Inbound): Inbound {
    if i.protocol == OtherProtocol("") then i.(protocol := Socks) else i
  }

  function CreateProxy(s: State, req: Inbound, f: Faults): Edit {
    var i := WithDefaultProtocol(req);
    if i.name == "" || !ValidPort(i.port) || i.name in s.inbounds || f.certificate || !InboundOk(i) then Unchanged(s)
    else
      Proceed(Watched(WithInbounds(s, s.cfg.inbounds + [i]).(inbounds := s.inbounds[i.name := i]), i.name, i.disabled))
  }

  datatype ForwardRequest = ForwardRequest(name: string, listenPort: int, targetHost: string, targetPort: int, protocol: Protocol)

  predicate ForwardOk(req: ForwardRequest) {
    && req.name != "" && ValidPort(req.listenPort) && req.targetHost != "" && ValidPort(req.targetPort)
    && (req.protocol == Tcp || req.protocol == Udp || req.protocol == OtherProtocol(""))
  }

  function ForwardInbound(req: ForwardRequest): Inbound {
    Inbound(req.name, if req.protocol == Udp then ForwardUdp else ForwardTcp, req.listenPort, false,
            "", "", "", "", "", "", "", 0, req.targetHost, req.targetPort)
  }

  function ForwardRule(name: string, priority: int): Rule {
    Rule(name + "-route", NoMatchType, "", name, "direct", priority, false)
  }

  function CreateForward(s: State, req: ForwardRequest): Edit {
    if !ForwardOk(req) || req.name in s.inbounds then Unchanged(s)
    else
      var i, rule := ForwardInbound(req), ForwardRule(req.name, NextPriority(s.rules));
      var t := WithInbounds(s, s.cfg.inbounds + [i]).(inbounds := s.inbounds[i.name := i], rules := s.rules + [rule]);
      Proceed(Watched(WithRules(t, s.cfg.routing.rules + [rule]), i.name, i.disabled))
  }

  function UpsertInbound(s: State, i: Inbound, f: Faults): Edit {
    if i.name == "" || !ValidPort(i.port) || f.certificate || !InboundOk(i) then Unchanged(s)
    else Proceed(Watched(PutInbound(s, i), i.name, i.disabled))
  }

  // Everything that is held under the old name moves to the new one.
  function Renamed(s: State, from: string, to: string): State {
    s.(cfg := s.cfg.(
         outbounds := Remove(s.cfg.outbounds, OutboundName, from),
         routing := s.cfg.routing.(
           rules := Map(RenameOutbound(from, to), s.cfg.routing.rules),
           defaultOutbound := if s.cfg.routing.defaultOutbound == from then to else s.cfg.routing.defaultOutbound)),
       outbounds := s.outbounds - {from},
       rules := Map(RenameOutbound(from, to), s.rules),
       traffic := Rename(s.traffic, from, to),
       health := Rename(s.health, from, to))
  }

  predicate IsRename(originalName: string, o: Outbound) {
    originalName != "" && originalName != o.name
  }

  predicate Addressed(o: Outbound) {
    o.name != "" && o.protocol != OtherProtocol("") && o.address != "" && ValidPort(o.port)
  }

  predicate CannotRename(outbounds: map<string, Outbound>, originalName: string, o: Outbound) {
    IsRename(originalName, o) && (originalName !in outbounds || o.name in outbounds)
  }

  function UpsertOutbound(s: State, originalName: string, o: Outbound): Edit {
    if !Addressed(o) || CannotRename(s.outbounds, originalName, o) then Unchanged(s)
    else
      var t := if IsRename(originalName, o) then Renamed(s, originalName, o.name) else s;
      Proceed(Watched(PutOutbound(t, o), o.name, o.disabled))
  }

  function UpdateRouting(s: State, routing: RoutingConfig): Edit {
    Proceed(WithRouting(s, routing).(rules := routing.rules))
  }

  function UpdateMihomo(s: State, mihomo: Mihomo): Edit {
    Proceed(s.(cfg := s.cfg.(mihomo := mihomo)))
  }

  function KernelName(kind: string): string {
    if kind == "sing-box" || kind == "mihomo" then kind else "placeholder"
  }

  // Fills in the file names that go with a kernel.
  function NormalizeKernel(cfg: KernelConfig): KernelConfig {
    var kind := FirstNonEmpty(cfg.kind, "placeholder");
    var path := FirstNonEmpty(cfg.configPath, "kernel.generated.json");
    var own, other := "/usr/local/bin/" + kind, if kind == "mihomo" then "/usr/local/bin/sing-box" else "/usr/local/bin/mihomo";
    var ownPath, otherPath := if kind == "mihomo" then "mihomo.generated.yaml" else "sing-box.generated.json",
                              if kind == "mihomo" then "sing-box.generated.json" else "mihomo.generated.yaml";
    if kind == "sing-box" || kind == "mihomo" then
      KernelConfig(kind,
                   if cfg.executable == "" || cfg.executable == other then own else cfg.executable,
                   if path == "kernel.generated.json" || path == otherPath then ownPath else path)
    else KernelConfig(kind, cfg.executable, path)
  }

  // Another type of kernel replaces the present one once that has stopped.
  predicate SwitchFails(s: State, cfg: KernelConfig, f: Faults) {
    s.kernel != KernelName(cfg.kind) && f.stopKernel
  }

  function UpdateKernel(s: State, cfg: KernelConfig, f: Faults): Edit {
    var k := NormalizeKernel(cfg);
    if SwitchFails(s, k, f) then Refuse(StopFailed, s)
    else Proceed(s.(kernel := KernelName(k.kind), cfg := s.cfg.(kernel := k)))
  }

  function WatchedInbounds(s: State, inbounds: seq<Inbound>): State {
    if inbounds == [] then s
    else
      var last := inbounds[|inbounds| - 1];
      Watched(WatchedInbounds(s, inbounds[..|inbounds| - 1]), last.name, last.disabled)
  }

  function WatchedOutbounds(s: State, outbounds: seq<Outbound>): State {
    if outbounds == [] then s
    else
      var last := outbounds[|outbounds| - 1];
      Watched(WatchedOutbounds(s, outbounds[..|outbounds| - 1]), last.name, last.disabled)
  }

  // Builds the maps of the nodes in the lists.
  function Indexed(s: State): State {
    var t := WatchedInbounds(s, s.cfg.inbounds).(inbounds := MapOf(s.cfg.inbounds, InboundName));
    WatchedOutbounds(t, s.cfg.outbounds).(outbounds := MapOf(s.cfg.outbounds, OutboundName))
  }

  function Replace(s: State, cfg: Config, f: Faults): Edit {
    if SwitchFails(s, cfg.kernel, f) then Refuse(StopFailed, s)
    else Proceed(Indexed(s.(cfg := cfg, rules := cfg.routing.rules)).(kernel := KernelName(cfg.kernel.kind)))
  }

  /** `ApplyConfig`; `enrich` completes a node from the link it was imported from. */
  function ApplyConfig(s: State, given: Config, enrich: Outbound -> Outbound, f: Faults): Edit {
    var cfg := given.(outbounds := Map(enrich, given.outbounds));
    if !ConfigOk(cfg) then Refuse(Refused, s) else Replace(s, cfg, f)
  }

  function DeleteNode(s: State, item: Item): Edit {
    if item.name == "" || !Exists(s, item) then Unchanged(s) else Proceed(Dropped(s, item))
  }

  predicate AllExist(s: State, items: seq<Item>) {
    forall i :: 0 <= i < |items| ==> items[i].name != "" && Exists(s, items[i])
  }

  function DroppedAll(s: State, items: seq<Item>): State {
    if items == [] then s else Dropped(DroppedAll(s, items[..|items| - 1]), items[|items| - 1])
  }

  function DeleteNodes(s: State, items: seq<Item>): Edit {
    if items == [] || !AllExist(s, items) then Unchanged(s) else Proceed(DroppedAll(s, items))
  }

  function SetEnabled(s: State, item: Item, enabled: bool): Edit {
    if item.name == "" || !Exists(s, item) then Unchanged(s) else Proceed(Switched(s, item, enabled))
  }

  function SwitchedAll(s: State, items: seq<Item>, enabled: bool): (t: State)
    requires AllExist(s, items)
    ensures t.inbounds.Keys == s.inbounds.Keys && t.outbounds.Keys == s.outbounds.Keys
  {
    if items == [] then s
    else
      var front, last := items[..|items| - 1], items[|items| - 1];
      var t := SwitchedAll(s, front, enabled);
      assert Exists(s, last);
      assert Exists(t, last);
      Switched(t, last, enabled)
  }

  function SetNodesEnabled(s: State, items: seq<Item>, enabled: bool): Edit {
    if items == [] || !AllExist(s, items) then Unchanged(s) else Proceed(SwitchedAll(s, items, enabled))
  }

  /* ----- the representation invariant ----- */

  /** The two copies of everything agree. */
  predicate Consistent(s: State) {
    && Distinct(s.cfg.inbounds, InboundName) && Keyed(s.cfg.inbounds, InboundName, s.inbounds)
    && Distinct(s.cfg.outbounds, OutboundName) && Keyed(s.cfg.outbounds, OutboundName, s.outbounds)
    && s.rules == s.cfg.routing.rules
  }

  /** Every outbound has its counters and its health. */
  predicate OutboundsWatched(s: State) {
    forall name :: name in s.outbounds ==> name in s.traffic && name in s.health
  }

  lemma UpsertKeyed<T>(xs: seq<T>, key: T -> string, x: T, m: map<string, T>)
    requires Distinct(xs, key) && Keyed(xs, key, m)
    ensures Distinct(Upsert(xs, key, x), key) && Keyed(Upsert(xs, key, x), key, m[key(x) := x])
    ensures key(x) !in m ==> Upsert(xs, key, x) == xs + [x]
    ensures |Upsert(xs, key, x)| == |xs| + (if key(x) in m then 0 else 1)
    ensures forall i :: 0 <= i < |xs| ==> Upsert(xs, key, x)[i] == if key(xs[i]) == key(x) then x else xs[i]
  {
    var ys, m' := Upsert(xs, key, x), m[key(x) := x];
    var at := Find(xs, key, key(x));
    assert at < |ys| && ys[at] == x;
    assert forall i :: 0 <= i < |xs| && i != at ==> ys[i] == xs[i] && key(xs[i]) != key(x);
    forall name | name in m'
      ensures Names(ys, key, name)
    {
      if name == key(x) {
        assert key(ys[at]) == name;
      } else {
        var i :| 0 <= i < |xs| && key(xs[i]) == name;
        assert key(ys[i]) == name;
      }
    }
  }

  lemma {:induction false} RemoveKeyed<T>(xs: seq<T>, key: T -> string, name: string, m: map<string, T>)
    requires Distinct(xs, key) && Keyed(xs, key, m)
    ensures Distinct(Remove(xs, key, name), key) && Keyed(Remove(xs, key, name), key, m - {name})
  {
    var ys := Remove(xs, key, name);
    FilterDistinct(xs, key, NotNamed(key, name));
    FilterMembers(xs, NotNamed(key, name));
    forall i | 0 <= i < |ys|
      ensures key(ys[i]) in m - {name} && (m - {name})[key(ys[i])] == ys[i]
    {
      FilterKeeps(xs, NotNamed(key, name), ys[i]);
      var j :| 0 <= j < |xs| && xs[j] == ys[i];
    }
    forall n | n in m - {name}
      ensures Names(ys, key, n)
    {
      var i :| 0 <= i < |xs| && key(xs[i]) == n;
      assert xs[i] in ys;
      var j :| 0 <= j < |ys| && ys[j] == xs[i];
    }
  }

  lemma {:induction false} MapOfKeyed<T>(xs: seq<T>, key: T -> string)
    requires Distinct(xs, key)
    ensures Keyed(xs, key, MapOf(xs, key))
  {
    if xs != [] {
      var front, last := xs[..|xs| - 1], xs[|xs| - 1];
      MapOfKeyed(front, key);
      UpsertKeyed(front, key, last, MapOf(front, key));
      assert forall i :: 0 <= i < |front| ==> key(front[i]) == key(xs[i]) != key(last);
      assert xs == front + [last];
    }
  }
}
