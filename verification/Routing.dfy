/**
 The reading of a routing configuration: which outbound a request is sent to, what the preview says, and
 which part of the configuration is handed to a kernel.

 What a domain, address or geo item matches is left to `atoms`, a parameter that every theorem quantifies
 over.
 */
module Routing {
  import opened Text
  import opened Config
  import opened Sorting

  datatype Request = Request(inbound: string, target: string, protocol: string, port: int)

  // (match type, item, request)
  type Atoms = (MatchType, string, Request) -> bool

  /* ----- one rule ----- */

  function PortItem(item: string): Option<int> {
    var n := Atoi(item);
    if n.Some? && ValidPort(n.value) then n else None
  }

  function Ports(items: seq<string>): seq<int> {
    if items == [] then []
    else
      var front := Ports(items[..|items| - 1]);
      var port := PortItem(items[|items| - 1]);
      if port.Some? then front + [port.value] else front
  }

  function SplitInts(value: string): seq<int> {
    Ports(SplitCSV(value))
  }

  lemma {:induction false} PortsMembers(items: seq<string>, port: int)
    ensures port in Ports(items) <==> exists i :: 0 <= i < |items| && PortItem(items[i]) == Some(port)
  {
    if items != [] {
      var front := items[..|items| - 1];
      PortsMembers(front, port);
      if PortItem(items[|items| - 1]) == Some(port) {
        assert port == Ports(items)[|Ports(items)| - 1];
      } else if port in Ports(items) {
        assert port in Ports(front);
      }
    }
  }

  predicate ItemMatches(atoms: Atoms, kind: MatchType, item: string, req: Request) {
    if kind.InboundMatch? then item == req.inbound
    else if kind.PortMatch? then PortItem(item) == Some(req.port)
    else if kind.ProtocolMatch? then EqualFold(item, req.protocol)
    else SupportedMatchType(kind) && atoms(kind, item, req)
  }

  predicate AnyMatches(atoms: Atoms, kind: MatchType, items: seq<string>, req: Request) {
    exists i :: 0 <= i < |items| && ItemMatches(atoms, kind, items[i], req)
  }

  /** A rule matches when one of the items of its value does. */
  predicate RuleMatches(atoms: Atoms, rule: Rule, req: Request) {
    AnyMatches(atoms, RuleMatchType(rule), SplitCSV(RuleValue(rule)), req)
  }

  /** `routingRuleMatches`. */
  method RoutingRuleMatches(atoms: Atoms, rule: Rule, req: Request) returns (hit: bool)
    ensures hit <==> RuleMatches(atoms, rule, req)
  {
    hide RuleMatchType, RuleValue, SplitCSV, JoinCSV, PortItem, EqualFold, SupportedMatchType;
    var matchType := RuleMatchType(rule);
    var values := SplitCSV(RuleValue(rule));
    if |values| == 0 {
      return false;
    }
    if matchType.PortMatch? {
      SplitCSVItemsClean(RuleValue(rule));
      SplitJoinCSV(values);
      PortsMembers(values, req.port);
      return req.port in SplitInts(JoinCSV(values));
    }
    for i := 0 to |values|
      invariant !AnyMatches(atoms, matchType, values[..i], req)
    {
      if ItemMatches(atoms, matchType, values[i], req) {
        return true;
      }
    }
    assert values[..|values|] == values;
    return false;
  }

  /** A rule without a match type is read as an inbound rule when it has an inbound, and else as one for a domain suffix. */
  lemma UntypedRule(atoms: Atoms, rule: Rule, req: Request)
    requires rule.matchType == NoMatchType && (rule.inbound == "" || rule.value == "")
    ensures rule.inbound != "" ==>
      (RuleMatches(atoms, rule, req) <==> RuleMatches(atoms, rule.(matchType := InboundMatch, value := rule.inbound, inbound := ""), req))
    ensures rule.inbound == "" ==>
      (RuleMatches(atoms, rule, req) <==> exists i :: 0 <= i < |SplitCSV(rule.value)| && atoms(DomainSuffix, SplitCSV(rule.value)[i], req))
  {
    hide SplitCSV;
  }

  /** An inbound rule matches exactly the traffic of the inbound it names, provided that name is clean. */
  lemma InboundRuleReadsItsName(atoms: Atoms, rule: Rule)
    requires RuleMatchType(rule).InboundMatch? && RuleValue(rule) != ""
    ensures (forall req :: RuleMatches(atoms, rule, req) <==> req.inbound == RuleValue(rule)) <==> Clean(RuleValue(rule))
  {
    var value := RuleValue(rule);
    var items := SplitCSV(value);
    SplitCSVItemsClean(value);
    if Clean(value) {
      SplitCSVClean(value);
      assert items[0] == value;
    } else {
      assert !RuleMatches(atoms, rule, Request(value, "", "", 0));
    }
  }

  /* ----- first match ----- */

  function FirstMatch(atoms: Atoms, rules: seq<Rule>, req: Request): Option<Rule> {
    if rules == [] then None
    else
      var earlier := FirstMatch(atoms, rules[..|rules| - 1], req);
      if earlier.Some? then earlier
      else if RuleMatches(atoms, rules[|rules| - 1], req) then Some(rules[|rules| - 1])
      else None
  }

  // The rule at position `i` is the first of `rules` that matches.
  ghost predicate FirstAt(atoms: Atoms, rules: seq<Rule>, req: Request, i: nat) {
    && i < |rules|
    && RuleMatches(atoms, rules[i], req)
    && forall j :: 0 <= j < i ==> !RuleMatches(atoms, rules[j], req)
  }

  lemma {:induction false} FirstMatchMeaning(atoms: Atoms, rules: seq<Rule>, req: Request)
    ensures FirstMatch(atoms, rules, req).None? ==> forall i :: 0 <= i < |rules| ==> !RuleMatches(atoms, rules[i], req)
    ensures FirstMatch(atoms, rules, req).Some? ==>
      exists i: nat :: FirstAt(atoms, rules, req, i) && FirstMatch(atoms, rules, req).value == rules[i]
  {
    hide RuleMatches;
    if rules != [] {
      var front := rules[..|rules| - 1];
      FirstMatchMeaning(atoms, front, req);
      var m := FirstMatch(atoms, front, req);
      if m.Some? {
        var i: nat :| FirstAt(atoms, front, req, i) && m.value == front[i];
        assert FirstAt(atoms, rules, req, i) && m.value == rules[i];
      } else if RuleMatches(atoms, rules[|rules| - 1], req) {
        assert FirstAt(atoms, rules, req, |rules| - 1);
      }
    }
  }

  // Dropping rules that cannot be the answer does not change the answer.
  lemma {:induction false} FirstMatchFilter(atoms: Atoms, rules: seq<Rule>, req: Request, keep: Rule -> bool)
    requires var m := FirstMatch(atoms, rules, req); m.Some? ==> keep(m.value)
    ensures FirstMatch(atoms, Filter(rules, keep), req) == FirstMatch(atoms, rules, req)
  {
    if rules != [] {
      var front, last := rules[..|rules| - 1], rules[|rules| - 1];
      FirstMatchFilter(atoms, front, req, keep);
      if keep(last) {
        assert Filter(rules, keep)[..|Filter(front, keep)|] == Filter(front, keep);
      }
    }
  }

  lemma {:induction false} FirstMatchIn(atoms: Atoms, rules: seq<Rule>, req: Request)
    ensures var m := FirstMatch(atoms, rules, req); m.Some? ==> m.value in rules && RuleMatches(atoms, m.value, req)
  {
    if rules != [] {
      FirstMatchIn(atoms, rules[..|rules| - 1], req);
    }
  }

  /* ----- the decision a routing configuration stands for ----- */

  function DefaultOf(routing: RoutingConfig): string {
    FirstNonEmpty(routing.defaultOutbound, "direct")
  }

  predicate Enabled(rule: Rule) { !rule.disabled }

  function RuleDecision(atoms: Atoms, rules: seq<Rule>, default: string, req: Request): string {
    var m := FirstMatch(atoms, rules, req);
    if m.Some? then m.value.outbound else default
  }

  /** Where a request goes: first match over the enabled rules, in the order of their priorities. */
  function Decision(atoms: Atoms, routing: RoutingConfig, req: Request): string {
    var mode := RoutingMode(routing.mode);
    if mode == DirectMode then "direct"
    else if mode == GlobalMode then DefaultOf(routing)
    else RuleDecision(atoms, Filter(Sort(routing.rules), Enabled), DefaultOf(routing), req)
  }

  /** In a valid configuration in rule mode a rule's name, which a hit is reported under, is that of one rule only. */
  lemma NameTellsTheRule(c: Config, i: nat, j: nat)
    requires ConfigOk(c) && RoutingMode(c.routing.mode) == RuleMode
    requires i < |c.routing.rules| && j < |c.routing.rules|
    requires c.routing.rules[i].name == c.routing.rules[j].name != ""
    ensures i == j
  {}

  /* ----- the preview ----- */

  datatype Reason = AllDirect | AllDefault | RuleHit | NoHit

  datatype Preview = Preview(mode: Mode, outbound: string, matched: Option<Rule>, title: string, reason: Reason,
                             geoWarning: bool)

  predicate IsGeo(rule: Rule) {
    RuleMatchType(rule).Geoip? || RuleMatchType(rule).Geosite?
  }

  // Some geo rule takes part in decisions.
  predicate GeoInForce(routing: RoutingConfig) {
    && RoutingMode(routing.mode) != DirectMode && RoutingMode(routing.mode) != GlobalMode
    && exists i :: 0 <= i < |routing.rules| && !routing.rules[i].disabled && IsGeo(routing.rules[i])
  }

  /** `PreviewRouting`, reading the saved configuration. */
  method PreviewRouting(atoms: Atoms, cfg: Config, req: Request) returns (result: Preview)
    ensures result.outbound == Decision(atoms, cfg.routing, req)
    ensures var mode := RoutingMode(cfg.routing.mode);
      && (result.reason == AllDirect <==> mode == DirectMode)
      && (result.reason == AllDefault <==> mode == GlobalMode)
      && (result.reason == RuleHit <==> result.matched.Some?)
    ensures result.reason in {AllDirect, AllDefault} ==> result.matched.None?
    ensures result.reason !in {AllDirect, AllDefault} ==>
      result.matched == FirstMatch(atoms, Filter(Sort(cfg.routing.rules), Enabled), req)
    ensures match result.matched
      case None => result.title == ""
      case Some(rule) => result.title == if rule.name != "" then rule.name else MatchTypeText(RuleMatchType(rule)) + "-" + Itoa(rule.priority)
    ensures result.mode == if RoutingMode(cfg.routing.mode) == NoMode then RuleMode else RoutingMode(cfg.routing.mode)
    ensures result.geoWarning <==> cfg.kernel.kind == "sing-box" && GeoInForce(cfg.routing)
  {
    hide MatchTypeText, IsGeo, Filter, Sort;
    var mode := RoutingMode(cfg.routing.mode);
    if mode == NoMode {
      mode := RuleMode;
    }
    if mode == DirectMode {
      return Preview(mode, "direct", None, "", AllDirect, false);
    }
    if mode == GlobalMode {
      return Preview(mode, DefaultOf(cfg.routing), None, "", AllDefault, false);
    }
    var warning := false;
    if cfg.kernel.kind == "sing-box" {
      warning := HasGeoRule(cfg.routing.rules);
    }
    var sorted := SortedRoutingRules(cfg.routing.rules);
    var matched := FindFirstMatch(atoms, sorted[..], req);
    if matched.Some? {
      var rule := matched.value;
      var title := FirstNonEmpty(rule.name, MatchTypeText(RuleMatchType(rule)) + "-" + Itoa(rule.priority));
      return Preview(mode, rule.outbound, matched, title, RuleHit, warning);
    }
    result := Preview(mode, DefaultOf(cfg.routing), None, "", NoHit, warning);
  }

  method HasGeoRule(rules: seq<Rule>) returns (found: bool)
    ensures found <==> exists i :: 0 <= i < |rules| && !rules[i].disabled && IsGeo(rules[i])
  {
    for i := 0 to |rules|
      invariant forall j :: 0 <= j < i ==> rules[j].disabled || !IsGeo(rules[j])
    {
      if !rules[i].disabled && IsGeo(rules[i]) {
        return true;
      }
    }
    return false;
  }

  method FindFirstMatch(atoms: Atoms, rules: seq<Rule>, req: Request) returns (matched: Option<Rule>)
    ensures matched == FirstMatch(atoms, Filter(rules, Enabled), req)
  {
    hide RuleMatches;
    for i := 0 to |rules|
      invariant FirstMatch(atoms, Filter(rules[..i], Enabled), req).None?
    {
      assert rules[..i + 1] == rules[..i] + [rules[i]];
      FilterSnoc(rules[..i], rules[i], Enabled);
      if rules[i].disabled {
        continue;
      }
      assert Filter(rules[..i + 1], Enabled)[..|Filter(rules[..i], Enabled)|] == Filter(rules[..i], Enabled);
      var hit := RoutingRuleMatches(atoms, rules[i], req);
      if hit {
        FirstMatchExtend(atoms, rules, i + 1, req);
        return Some(rules[i]);
      }
    }
    assert rules[..|rules|] == rules;
    return None;
  }

  // A match found in a prefix is the match in the whole list.
  lemma FirstMatchExtend(atoms: Atoms, rules: seq<Rule>, n: nat, req: Request)
    requires n <= |rules|
    requires FirstMatch(atoms, Filter(rules[..n], Enabled), req).Some?
    ensures FirstMatch(atoms, Filter(rules, Enabled), req) == FirstMatch(atoms, Filter(rules[..n], Enabled), req)
  {
    hide RuleMatches;
    assert rules == rules[..n] + rules[n..];
    FilterAppend(rules[..n], rules[n..], Enabled);
    FirstMatchAppend(atoms, Filter(rules[..n], Enabled), Filter(rules[n..], Enabled), req);
  }

  lemma {:induction false} FirstMatchAppend(atoms: Atoms, a: seq<Rule>, b: seq<Rule>, req: Request)
    ensures FirstMatch(atoms, a + b, req) ==
            if FirstMatch(atoms, a, req).Some? then FirstMatch(atoms, a, req) else FirstMatch(atoms, b, req)
  {
    hide RuleMatches;
    if b == [] {
      assert a + b == a;
    } else {
      FirstMatchAppend(atoms, a, b[..|b| - 1], req);
      assert (a + b)[..|a + b| - 1] == a + b[..|b| - 1];
    }
  }

  /* ----- the part of the configuration that is live ----- */

  datatype Runtime = Runtime(inbounds: seq<Inbound>, outbounds: seq<Outbound>, routing: RoutingConfig)

  predicate InboundEnabled(i: Inbound) { !i.disabled }
  predicate OutboundEnabled(o: Outbound) { !o.disabled }

  // A rule is live when it is enabled and so are the nodes it refers to.
  predicate RuleLive(rule: Rule, inbounds: seq<Inbound>, outbounds: seq<Outbound>) {
    && !rule.disabled
    && (RuleMatchType(rule).InboundMatch? ==> Names(inbounds, InboundName, RuleValue(rule)))
    && Reachable(outbounds, rule.outbound)
  }

  function Live(inbounds: seq<Inbound>, outbounds: seq<Outbound>): Rule -> bool {
    (rule: Rule) => RuleLive(rule, inbounds, outbounds)
  }

  function LiveDefault(routing: RoutingConfig, outbounds: seq<Outbound>): string {
    if Reachable(outbounds, DefaultOf(routing)) then DefaultOf(routing) else "direct"
  }

  function EnabledRuntime(inbounds: seq<Inbound>, outbounds: seq<Outbound>, routing: RoutingConfig): Runtime {
    var ins := Filter(inbounds, InboundEnabled);
    var outs := Filter(outbounds, OutboundEnabled);
    Runtime(ins, outs,
            RoutingConfig(routing.mode, routing.preset, LiveDefault(routing, outs), Filter(routing.rules, Live(ins, outs))))
  }

  function RuntimeOf(c: Config): Runtime {
    EnabledRuntime(c.inbounds, c.outbounds, c.routing)
  }

  method CollectEnabled<T>(nodes: seq<T>, enabled: T -> bool, name: T -> string) returns (items: seq<T>, names: set<string>)
    ensures items == Filter(nodes, enabled)
    ensures forall n :: n in names <==> Names(items, name, n)
  {
    items, names := [], {};
    for i := 0 to |nodes|
      invariant items == Filter(nodes[..i], enabled)
      invariant forall n :: n in names <==> Names(items, name, n)
    {
      assert nodes[..i + 1] == nodes[..i] + [nodes[i]];
      FilterSnoc(nodes[..i], nodes[i], enabled);
      if !enabled(nodes[i]) {
        continue;
      }
      var next := items + [nodes[i]];
      NamesStep(next, name, |items|);
      assert next[..|items|] == items && next[..|items| + 1] == next;
      items, names := next, names + {name(nodes[i])};
    }
    assert nodes[..|nodes|] == nodes;
  }

  // The checks the loop below makes, on the names it has collected.
  predicate LiveAmong(rule: Rule, inNames: set<string>, outNames: set<string>) {
    && !rule.disabled
    && (RuleMatchType(rule).InboundMatch? ==> RuleValue(rule) in inNames)
    && (rule.outbound != "direct" ==> rule.outbound in outNames)
  }

  /** `enabledRuntime`. */
  method ComputeEnabledRuntime(inbounds: seq<Inbound>, outbounds: seq<Outbound>, routing: RoutingConfig) returns (r: Runtime)
    ensures r == EnabledRuntime(inbounds, outbounds, routing)
  {
    hide RuleMatchType, RuleValue, Filter;
    var ins, inNames := CollectEnabled(inbounds, InboundEnabled, InboundName);
    var outs, outNames := CollectEnabled(outbounds, OutboundEnabled, OutboundName);
    var rules := [];
    for i := 0 to |routing.rules|
      invariant rules == Filter(routing.rules[..i], Live(ins, outs))
    {
      var rule := routing.rules[i];
      assert routing.rules[..i + 1] == routing.rules[..i] + [rule];
      FilterSnoc(routing.rules[..i], rule, Live(ins, outs));
      if !LiveAmong(rule, inNames, outNames) {
        continue;
      }
      rules := rules + [rule];
    }
    assert routing.rules[..|routing.rules|] == routing.rules;
    var default := routing.defaultOutbound;
    if default != "" && default != "direct" && default !in outNames {
      default := "direct";
    }
    if default == "" {
      default := "direct";
    }
    r := Runtime(ins, outs, RoutingConfig(routing.mode, routing.preset, default, rules));
  }

  /* ----- what runs ----- */

  /** The live rules, sorted, are the sorted rules with the others left out. */
  lemma RuntimeRules(c: Config)
    ensures var r := RuntimeOf(c);
      Filter(Sort(r.routing.rules), Enabled) == Filter(Sort(c.routing.rules), Live(r.inbounds, r.outbounds))
  {
    var r := RuntimeOf(c);
    var live := Live(r.inbounds, r.outbounds);
    SortFilter(c.routing.rules, live);
    FilterMembers(Sort(c.routing.rules), live);
    FilterAll(Filter(Sort(c.routing.rules), live), Enabled);
  }

  /** In rule mode the runtime takes the first match among the live rules, else the live default. */
  lemma RuntimeDecision(atoms: Atoms, c: Config, req: Request)
    requires RoutingMode(c.routing.mode) == RuleMode
    ensures var r := RuntimeOf(c);
      Decision(atoms, r.routing, req) ==
      RuleDecision(atoms, Filter(Sort(c.routing.rules), Live(r.inbounds, r.outbounds)), LiveDefault(c.routing, r.outbounds), req)
  {
    RuntimeRules(c);
  }

  predicate NothingDisabled(c: Config) {
    && (forall i :: 0 <= i < |c.inbounds| ==> !c.inbounds[i].disabled)
    && (forall i :: 0 <= i < |c.outbounds| ==> !c.outbounds[i].disabled)
  }

  /** With no node disabled the runtime decides as the preview does, whatever the request. */
  lemma PreviewIsWhatRuns(atoms: Atoms, c: Config, req: Request)
    requires ConfigOk(c) && NothingDisabled(c)
    ensures Decision(atoms, RuntimeOf(c).routing, req) == Decision(atoms, c.routing, req)
  {
    hide InboundOk, OutboundOk;
    var r := RuntimeOf(c);
    FilterAll(c.inbounds, InboundEnabled);
    FilterAll(c.outbounds, OutboundEnabled);
    if RoutingMode(c.routing.mode) == RuleMode {
      RuntimeRules(c);
      forall rule | rule in Sort(c.routing.rules)
        ensures Enabled(rule) == Live(r.inbounds, r.outbounds)(rule)
      {
        SortMembers(c.routing.rules, rule);
        var i :| 0 <= i < |c.routing.rules| && c.routing.rules[i] == rule;
      }
      FilterSame(Sort(c.routing.rules), Enabled, Live(r.inbounds, r.outbounds));
    }
  }

  predicate CleanInbounds(inbounds: seq<Inbound>) {
    forall i :: 0 <= i < |inbounds| ==> Clean(inbounds[i].name)
  }

  /** The runtime never decides for an outbound that is not enabled. */
  lemma RuntimeOutboundIsEnabled(atoms: Atoms, c: Config, req: Request)
    ensures Reachable(RuntimeOf(c).outbounds, Decision(atoms, RuntimeOf(c).routing, req))
  {
    var r := RuntimeOf(c);
    var live := Live(r.inbounds, r.outbounds);
    RuntimeRules(c);
    FilterMembers(Sort(c.routing.rules), live);
    FirstMatchIn(atoms, Filter(Sort(c.routing.rules), live), req);
  }

  /**
   With disabled nodes about, the preview of a request that arrives on an enabled inbound is right exactly
   when the outbound it names is not disabled.
   */
  lemma PreviewIsRightIff(atoms: Atoms, c: Config, req: Request)
    requires ConfigOk(c) && CleanInbounds(c.inbounds)
    requires Names(RuntimeOf(c).inbounds, InboundName, req.inbound)
    ensures Decision(atoms, RuntimeOf(c).routing, req) == Decision(atoms, c.routing, req)
       <==> Reachable(RuntimeOf(c).outbounds, Decision(atoms, c.routing, req))
  {
    hide InboundOk, OutboundOk;
    RuntimeOutboundIsEnabled(atoms, c, req);
    if Reachable(RuntimeOf(c).outbounds, Decision(atoms, c.routing, req)) && RoutingMode(c.routing.mode) == RuleMode {
      PreviewIsRightInRuleMode(atoms, c, req);
    }
  }

  lemma PreviewIsRightInRuleMode(atoms: Atoms, c: Config, req: Request)
    requires ConfigOk(c) && CleanInbounds(c.inbounds) && RoutingMode(c.routing.mode) == RuleMode
    requires Names(RuntimeOf(c).inbounds, InboundName, req.inbound)
    requires Reachable(RuntimeOf(c).outbounds, Decision(atoms, c.routing, req))
    ensures Decision(atoms, RuntimeOf(c).routing, req) == Decision(atoms, c.routing, req)
  {
    hide ConfigOk, RuleMatches, RuleMatchType, RuleValue, Sort, FirstMatch, RuntimeOf, Names;
    RuntimeDecision(atoms, c, req);
    var sorted := Sort(c.routing.rules);
    var live := Live(RuntimeOf(c).inbounds, RuntimeOf(c).outbounds);
    var m := FirstMatch(atoms, Filter(sorted, Enabled), req);
    FirstMatchIn(atoms, Filter(sorted, Enabled), req);
    if m.Some? {
      FilterKeeps(sorted, Enabled, m.value);
      SortMembers(c.routing.rules, m.value);
      MatchedRuleIsLive(atoms, c, m.value, req);
    }
    FirstMatchFilter(atoms, Filter(sorted, Enabled), req, live);
    FilterFilter(sorted, Enabled, live);
    FilterMembers(sorted, live);
    FilterAll(Filter(sorted, live), Enabled);
    RuntimeRules(c);
  }

  lemma MatchedRuleIsLive(atoms: Atoms, c: Config, rule: Rule, req: Request)
    requires ConfigOk(c) && CleanInbounds(c.inbounds) && RoutingMode(c.routing.mode) == RuleMode
    requires rule in c.routing.rules && Enabled(rule) && RuleMatches(atoms, rule, req)
    requires Names(RuntimeOf(c).inbounds, InboundName, req.inbound)
    requires Reachable(RuntimeOf(c).outbounds, rule.outbound)
    ensures RuleLive(rule, RuntimeOf(c).inbounds, RuntimeOf(c).outbounds)
  {
    hide InboundOk, OutboundOk;
    var i :| 0 <= i < |c.routing.rules| && c.routing.rules[i] == rule;
    assert RuleOk(rule, c.inbounds, c.outbounds);
    if RuleMatchType(rule).InboundMatch? {
      InboundRuleReadsItsName(atoms, rule);
    }
  }

  /* ----- what happens when inbound names are not clean ----- */

  function PlainInbound(name: string, port: int): Inbound {
    Inbound(name, Mixed, port, false, "", "", "", "", "", "", "", 0, "", 0)
  }

  function PlainOutbound(name: string, protocol: Protocol, port: int, disabled: bool): Outbound {
    Outbound(name, protocol, "example.org", port, disabled, "", "", "", "", "", "", "", false, "", false, "", "", "", "", "", "", "",
             "", "", "", 0, 0, "", "", "", "", "")
  }

  function PlainConfig(inbounds: seq<Inbound>, outbounds: seq<Outbound>, mode: Mode, default: string, rules: seq<Rule>): Config {
    Config(8080, KernelConfig("", "", ""), inbounds, outbounds, RoutingConfig(mode, "", default, rules), Mihomo([], [], []))
  }

  /**
   A valid configuration may call an inbound "a,b"; a rule for it never matches its traffic, and catches all the
   traffic of "a" instead.
   */
  lemma CommaInInboundName(atoms: Atoms)
    ensures var rule := Rule("", InboundMatch, "a,b", "", "direct", 0, false);
      && ConfigOk(PlainConfig([PlainInbound("a,b", 1080), PlainInbound("a", 1081)], [], RuleMode, "", [rule]))
      && (forall req: Request :: req.inbound == "a" ==> RuleMatches(atoms, rule, req))
      && (forall req: Request :: req.inbound == "a,b" ==> !RuleMatches(atoms, rule, req))
  {
    hide SplitCSV, InboundOk;
    SplitCommaName();
    var inbounds := [PlainInbound("a,b", 1080), PlainInbound("a", 1081)];
    assert InboundOk(inbounds[0]) && InboundOk(inbounds[1]) by { PlainInboundOk("a,b", 1080); PlainInboundOk("a", 1081); }
    assert InboundName(inbounds[0]) == "a,b" && InboundName(inbounds[1]) == "a";
    forall req: Request | req.inbound == "a"
      ensures ItemMatches(atoms, InboundMatch, SplitCSV("a,b")[0], req)
    {}
  }

  lemma PlainInboundOk(name: string, port: int)
    ensures InboundOk(PlainInbound(name, port))
  {}

  /** The default outbound may be disabled: the preview still names it, while what runs goes direct. */
  lemma DisabledDefault(atoms: Atoms, req: Request)
    ensures var c := PlainConfig([], [PlainOutbound("a", Http, 80, true)], RuleMode, "a", []);
      ConfigOk(c) && Decision(atoms, c.routing, req) == "a" && Decision(atoms, RuntimeOf(c).routing, req) == "direct"
  {
    var outbounds := [PlainOutbound("a", Http, 80, true)];
    assert OutboundName(outbounds[0]) == "a" && outbounds[..0] == [];
  }

  lemma SplitCommaName()
    ensures SplitCSV("a,b") == ["a", "b"]
  {
    SplitJoinCSV(["a", "b"]);
    assert ["a", "b"][1..] == ["b"];
    assert JoinCSV(["a", "b"]) == "a" + [','] + JoinCSV(["b"]) == "a,b";
  }
}
