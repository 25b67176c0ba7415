/**
 The rule list written for mihomo, and the proof that it decides as the routing configuration does.

 A line is kept as the triple it is printed from.  mihomo reads the lines from the top and takes the first
 that matches; an IN-PORT line matches the traffic that arrived on that port.
 */
module Mihomo {
  import opened Text
  import opened Config
  import opened Sorting
  import opened Routing

  datatype Line =
    | Raw(text: string)
    | InPort(port: int, target: string)
    | Item(kind: MatchType, item: string, target: string)
    | Match(target: string)

  /* ----- the generator ----- */

  function TargetName(name: string): string {
    if name == "" || name == "direct" then "DIRECT" else name
  }

  function RouteFinal(routing: RoutingConfig): string {
    if RoutingMode(routing.mode) == DirectMode then "direct" else DefaultOf(routing)
  }

  // Names of the proxy groups that are written; nameless groups are skipped.
  function GroupNames(m: Mihomo): seq<string> {
    if m.proxyGroups == [] then ["NodeTools"] else NamedGroups(m.proxyGroups)
  }

  function NamedGroups(groups: seq<ProxyGroup>): seq<string> {
    if groups == [] then []
    else if groups[0].name == "" then NamedGroups(groups[1..])
    else [groups[0].name] + NamedGroups(groups[1..])
  }

  // The port of the last inbound of that name.
  function InboundPorts(inbounds: seq<Inbound>): map<string, int> {
    if inbounds == [] then map[]
    else InboundPorts(inbounds[..|inbounds| - 1])[inbounds[|inbounds| - 1].name := inbounds[|inbounds| - 1].port]
  }

  function ItemLines(kind: MatchType, items: seq<string>, target: string): seq<Line> {
    if items == [] then []
    else
      var item := items[|items| - 1];
      ItemLines(kind, items[..|items| - 1], target) + [Item(kind, if kind.ProtocolMatch? then ToUpper(item) else item, target)]
  }

  function RuleLines(rule: Rule, ports: map<string, int>): seq<Line> {
    var kind, value, target := RuleMatchType(rule), RuleValue(rule), TargetName(rule.outbound);
    if kind.InboundMatch? then
      if value in ports && ports[value] > 0 then [InPort(ports[value], target)] else []
    else if SupportedMatchType(kind) then ItemLines(kind, SplitCSV(value), target)
    else []
  }

  function RulesLines(rules: seq<Rule>, ports: map<string, int>): seq<Line> {
    if rules == [] then []
    else RulesLines(rules[..|rules| - 1], ports) + RuleLines(rules[|rules| - 1], ports)
  }

  lemma RulesLinesSnoc(rules: seq<Rule>, rule: Rule, ports: map<string, int>)
    ensures RulesLines(rules + [rule], ports) == RulesLines(rules, ports) + RuleLines(rule, ports)
  {
    hide RuleLines;
    assert (rules + [rule])[..|rules|] == rules;
  }

  function FinalTarget(routing: RoutingConfig, groups: seq<string>): string {
    var target := TargetName(RouteFinal(routing));
    if target == "DIRECT" && groups != [] && RoutingMode(routing.mode) == GlobalMode then groups[0] else target
  }

  function RawLine(text: string): Line { Raw(text) }

  function Lines(routing: RoutingConfig, raw: seq<string>, groups: seq<string>, inbounds: seq<Inbound>): seq<Line> {
    if raw != [] then Map(RawLine, raw)
    else if RoutingMode(routing.mode) == DirectMode then [Match("DIRECT")]
    else if RoutingMode(routing.mode) == GlobalMode then [Match(FinalTarget(routing, groups))]
    else RulesLines(Filter(Sort(routing.rules), Enabled), InboundPorts(inbounds)) + [Match(FinalTarget(routing, groups))]
  }

  /** `mihomoRules`. */
  method MihomoRules(routing: RoutingConfig, raw: seq<string>, groups: seq<string>, inbounds: seq<Inbound>)
    returns (items: seq<Line>)
    ensures items == Lines(routing, raw, groups, inbounds)
  {
    if |raw| > 0 {
      return Map(RawLine, raw);
    }
    var target := TargetName(RouteFinal(routing));
    if target == "DIRECT" && |groups| > 0 && RoutingMode(routing.mode) == GlobalMode {
      target := groups[0];
    }
    if RoutingMode(routing.mode) == DirectMode {
      return [Match("DIRECT")];
    }
    if RoutingMode(routing.mode) == GlobalMode {
      return [Match(target)];
    }
    var sorted := SortedRoutingRules(routing.rules);
    var ports := PortTable(inbounds);
    items := AppendRules(sorted[..], ports);
    items := items + [Match(target)];
  }

  method PortTable(inbounds: seq<Inbound>) returns (ports: map<string, int>)
    ensures ports == InboundPorts(inbounds)
  {
    ports := map[];
    for i := 0 to |inbounds|
      invariant ports == InboundPorts(inbounds[..i])
    {
      assert inbounds[..i + 1][..i] == inbounds[..i];
      ports := ports[inbounds[i].name := inbounds[i].port];
    }
    assert inbounds[..|inbounds|] == inbounds;
  }

  lemma NoRules(ports: map<string, int>)
    ensures Filter([], Enabled) == [] && RulesLines([], ports) == []
  {}

  method AppendRules(rules: seq<Rule>, ports: map<string, int>) returns (items: seq<Line>)
    ensures items == RulesLines(Filter(rules, Enabled), ports)
  {
    hide RuleLines, RulesLines, Filter;
    assert Filter([], Enabled) == [] && RulesLines([], ports) == [] by { NoRules(ports); }
    items := [];
    for i := 0 to |rules|
      invariant items == RulesLines(Filter(rules[..i], Enabled), ports)
    {
      assert rules[..i + 1] == rules[..i] + [rules[i]];
      FilterSnoc(rules[..i], rules[i], Enabled);
      if rules[i].disabled {
        continue;
      }
      RulesLinesSnoc(Filter(rules[..i], Enabled), rules[i], ports);
      items := AppendRule(items, rules[i], ports);
    }
    assert rules[..|rules|] == rules;
  }

  method AppendRule(before: seq<Line>, rule: Rule, ports: map<string, int>) returns (items: seq<Line>)
    ensures items == before + RuleLines(rule, ports)
  {
    hide RuleMatchType, RuleValue, SplitCSV, SupportedMatchType, TargetName, ToUpper;
    var outbound := TargetName(rule.outbound);
    var value := RuleValue(rule);
    var kind := RuleMatchType(rule);
    items := before;
    if kind.InboundMatch? {
      var port := if value in ports then ports[value] else 0;
      if port > 0 {
        items := items + [InPort(port, outbound)];
      }
    } else if SupportedMatchType(kind) {
      var values := SplitCSV(value);
      for i := 0 to |values|
        invariant items == before + ItemLines(kind, values[..i], outbound)
      {
        assert values[..i + 1][..i] == values[..i];
        items := items + [Item(kind, if kind.ProtocolMatch? then ToUpper(values[i]) else values[i], outbound)];
      }
      assert values[..|values|] == values;
    }
  }

  /* ----- the reading of the lines ----- */

  predicate LineMatches(atoms: Atoms, line: Line, req: Request, arrivalPort: int) {
    match line
    case Raw(_) => false
    case InPort(port, _) => port == arrivalPort
    case Item(kind, item, _) => ItemMatches(atoms, kind, item, req)
    case Match(_) => true
  }

  // The target of the first line that matches.
  function Run(atoms: Atoms, lines: seq<Line>, req: Request, arrivalPort: int): Option<string> {
    if lines == [] then None
    else
      var earlier := Run(atoms, lines[..|lines| - 1], req, arrivalPort);
      var last := lines[|lines| - 1];
      if earlier.Some? then earlier
      else if !last.Raw? && LineMatches(atoms, last, req, arrivalPort) then Some(last.target)
      else None
  }

  lemma {:induction false} RunAppend(atoms: Atoms, a: seq<Line>, b: seq<Line>, req: Request, arrivalPort: int)
    ensures Run(atoms, a + b, req, arrivalPort) ==
            if Run(atoms, a, req, arrivalPort).Some? then Run(atoms, a, req, arrivalPort) else Run(atoms, b, req, arrivalPort)
  {
    if b == [] {
      assert a + b == a;
    } else {
      RunAppend(atoms, a, b[..|b| - 1], req, arrivalPort);
      assert (a + b)[..|a + b| - 1] == a + b[..|b| - 1];
    }
  }

  /* ----- meaning is preserved ----- */

  // What the theorems ask of the inbounds that are handed to the kernel; a valid configuration answers for all but
  // the clean names.
  predicate Readable(inbounds: seq<Inbound>) {
    && Distinct(inbounds, InboundName)
    && CleanInbounds(inbounds)
    && forall i :: 0 <= i < |inbounds| ==> ValidPort(inbounds[i].port)
  }

  // The rule names another inbound, on the port of this one.
  predicate Misled(inbounds: seq<Inbound>, rule: Rule, at: nat)
    requires at < |inbounds|
  {
    && RuleMatchType(rule).InboundMatch?
    && exists i :: 0 <= i < |inbounds| && i != at && inbounds[i].name == RuleValue(rule) && inbounds[i].port == inbounds[at].port
  }

  // A rule as its lines have it: by the port where the configuration goes by the name.
  predicate Catches(atoms: Atoms, inbounds: seq<Inbound>, rule: Rule, at: nat, req: Request)
    requires at < |inbounds|
  {
    RuleMatches(atoms, rule, req) || Misled(inbounds, rule, at)
  }

  function FirstCaught(atoms: Atoms, inbounds: seq<Inbound>, rules: seq<Rule>, at: nat, req: Request): Option<Rule>
    requires at < |inbounds|
  {
    if rules == [] then None
    else
      var earlier := FirstCaught(atoms, inbounds, rules[..|rules| - 1], at, req);
      if earlier.Some? then earlier
      else if Catches(atoms, inbounds, rules[|rules| - 1], at, req) then Some(rules[|rules| - 1])
      else None
  }

  lemma {:induction false} InboundPortsLookup(inbounds: seq<Inbound>, i: nat)
    requires i < |inbounds| && Distinct(inbounds, InboundName)
    ensures inbounds[i].name in InboundPorts(inbounds) && InboundPorts(inbounds)[inbounds[i].name] == inbounds[i].port
  {
    if i < |inbounds| - 1 {
      InboundPortsLookup(inbounds[..|inbounds| - 1], i);
      assert InboundName(inbounds[i]) != InboundName(inbounds[|inbounds| - 1]);
    }
  }

  lemma NothingMatches(atoms: Atoms, kind: MatchType, req: Request)
    ensures !AnyMatches(atoms, kind, [], req)
  {}

  lemma PrintedItemMatches(atoms: Atoms, kind: MatchType, item: string, req: Request)
    ensures ItemMatches(atoms, kind, if kind.ProtocolMatch? then ToUpper(item) else item, req) == ItemMatches(atoms, kind, item, req)
  {
    UpperIsFoldEqual(item);
  }

  lemma {:induction false} ItemLinesPreserve(atoms: Atoms, kind: MatchType, items: seq<string>, target: string, req: Request, arrivalPort: int)
    ensures Run(atoms, ItemLines(kind, items, target), req, arrivalPort) ==
            if AnyMatches(atoms, kind, items, req) then Some(target) else None
  {
    hide ItemMatches, AnyMatches, ToUpper;
    if items == [] {
      assert !AnyMatches(atoms, kind, [], req) by { NothingMatches(atoms, kind, req); }
    } else {
      var front, last := items[..|items| - 1], items[|items| - 1];
      ItemLinesPreserve(atoms, kind, front, target, req, arrivalPort);
      PrintedItemMatches(atoms, kind, last, req);
      AnyMatchesSnoc(atoms, kind, front, last, req);
      assert items == front + [last];
      var lines := ItemLines(kind, items, target);
      assert lines[..|lines| - 1] == ItemLines(kind, front, target);
    }
  }

  lemma AnyMatchesSnoc(atoms: Atoms, kind: MatchType, items: seq<string>, item: string, req: Request)
    ensures AnyMatches(atoms, kind, items + [item], req) <==>
            AnyMatches(atoms, kind, items, req) || ItemMatches(atoms, kind, item, req)
  {
    hide ItemMatches;
    var all := items + [item];
    assert all[|items|] == item;
    if AnyMatches(atoms, kind, items, req) {
      var i :| 0 <= i < |items| && ItemMatches(atoms, kind, items[i], req);
      assert all[i] == items[i];
    }
  }

  lemma InboundRuleCatches(atoms: Atoms, inbounds: seq<Inbound>, rule: Rule, at: nat, req: Request)
    requires Readable(inbounds) && at < |inbounds| && req.inbound == inbounds[at].name
    requires RuleMatchType(rule).InboundMatch? && Names(inbounds, InboundName, RuleValue(rule))
    ensures Run(atoms, RuleLines(rule, InboundPorts(inbounds)), req, inbounds[at].port) ==
            if Catches(atoms, inbounds, rule, at, req) then Some(TargetName(rule.outbound)) else None
  {
    hide RuleMatchType, RuleValue, SplitCSV, RuleMatches;
    var i :| 0 <= i < |inbounds| && InboundName(inbounds[i]) == RuleValue(rule);
    assert Clean(inbounds[i].name);
    InboundPortsLookup(inbounds, i);
    InboundRuleReadsItsName(atoms, rule);
    assert RuleMatches(atoms, rule, req) <==> inbounds[at].name == inbounds[i].name;
    forall k | 0 <= k < |inbounds|
      ensures inbounds[k].name == inbounds[i].name <==> k == i
    {
      assert InboundName(inbounds[k]) == InboundName(inbounds[i]) <==> k == i;
    }
    assert Misled(inbounds, rule, at) <==> i != at && inbounds[i].port == inbounds[at].port;
    var lines := [InPort(inbounds[i].port, TargetName(rule.outbound))];
    assert RuleLines(rule, InboundPorts(inbounds)) == lines && lines[..0] == [];
  }

  /** The lines of one rule catch the requests the rule matches and, on a shared port, those of the other inbound. */
  lemma {:induction false} RuleLinesCatch(atoms: Atoms, inbounds: seq<Inbound>, rule: Rule, at: nat, req: Request)
    requires Readable(inbounds) && at < |inbounds| && req.inbound == inbounds[at].name
    requires RuleMatchType(rule).InboundMatch? ==> Names(inbounds, InboundName, RuleValue(rule))
    ensures Run(atoms, RuleLines(rule, InboundPorts(inbounds)), req, inbounds[at].port) ==
            if Catches(atoms, inbounds, rule, at, req) then Some(TargetName(rule.outbound)) else None
  {
    hide RuleMatchType, RuleValue, SplitCSV;
    var kind := RuleMatchType(rule);
    if kind.InboundMatch? {
      InboundRuleCatches(atoms, inbounds, rule, at, req);
    } else if SupportedMatchType(kind) {
      ItemLinesPreserve(atoms, kind, SplitCSV(RuleValue(rule)), TargetName(rule.outbound), req, inbounds[at].port);
    } else {
      assert !AnyMatches(atoms, kind, SplitCSV(RuleValue(rule)), req);
    }
  }

  /**
   The lines of a rule agree with the rule on all traffic of an inbound exactly when the rule does not name another
   inbound on the same port.
   */
  lemma {:induction false} RuleLinesPreserveIff(atoms: Atoms, inbounds: seq<Inbound>, rule: Rule, at: nat, req: Request)
    requires Readable(inbounds) && at < |inbounds| && req.inbound == inbounds[at].name
    requires RuleMatchType(rule).InboundMatch? ==> Names(inbounds, InboundName, RuleValue(rule))
    ensures Run(atoms, RuleLines(rule, InboundPorts(inbounds)), req, inbounds[at].port) ==
            (if RuleMatches(atoms, rule, req) then Some(TargetName(rule.outbound)) else None)
            <==> !Misled(inbounds, rule, at)
  {
    RuleLinesCatch(atoms, inbounds, rule, at, req);
    if Misled(inbounds, rule, at) {
      MisledDoesNotMatch(atoms, inbounds, rule, at, req);
    }
  }

  lemma MisledDoesNotMatch(atoms: Atoms, inbounds: seq<Inbound>, rule: Rule, at: nat, req: Request)
    requires Readable(inbounds) && at < |inbounds| && req.inbound == inbounds[at].name && Misled(inbounds, rule, at)
    ensures !RuleMatches(atoms, rule, req)
  {
    hide RuleMatchType, RuleValue, SplitCSV, RuleMatches;
    var i :| 0 <= i < |inbounds| && i != at && inbounds[i].name == RuleValue(rule) && inbounds[i].port == inbounds[at].port;
    assert Clean(inbounds[i].name);
    InboundRuleReadsItsName(atoms, rule);
    assert InboundName(inbounds[i]) != InboundName(inbounds[at]);
  }

  /** The lines of all rules send a request where the first rule sends it that catches it. */
  lemma {:induction false} RulesLinesCatch(atoms: Atoms, inbounds: seq<Inbound>, rules: seq<Rule>, at: nat, req: Request)
    requires Readable(inbounds) && at < |inbounds| && req.inbound == inbounds[at].name
    requires forall r :: r in rules && RuleMatchType(r).InboundMatch? ==> Names(inbounds, InboundName, RuleValue(r))
    ensures var m := FirstCaught(atoms, inbounds, rules, at, req);
      Run(atoms, RulesLines(rules, InboundPorts(inbounds)), req, inbounds[at].port) ==
      if m.Some? then Some(TargetName(m.value.outbound)) else None
  {
    hide RuleMatchType, RuleValue, Catches, RuleLines, Readable;
    if rules != [] {
      var front, last := rules[..|rules| - 1], rules[|rules| - 1];
      RulesLinesCatch(atoms, inbounds, front, at, req);
      assert last in rules;
      RuleLinesCatch(atoms, inbounds, last, at, req);
      var ports := InboundPorts(inbounds);
      RunAppend(atoms, RulesLines(front, ports), RuleLines(last, ports), req, inbounds[at].port);
    }
  }

  // No rule names another inbound on the port of this one.
  predicate NoneMisled(inbounds: seq<Inbound>, rules: seq<Rule>, at: nat)
    requires at < |inbounds|
  {
    forall rule :: rule in rules ==> !Misled(inbounds, rule, at)
  }

  lemma {:induction false} CaughtIsMatched(atoms: Atoms, inbounds: seq<Inbound>, rules: seq<Rule>, at: nat, req: Request)
    requires at < |inbounds| && NoneMisled(inbounds, rules, at)
    ensures FirstCaught(atoms, inbounds, rules, at, req) == FirstMatch(atoms, rules, req)
  {
    hide RuleMatches, Misled;
    if rules != [] {
      assert rules[|rules| - 1] in rules;
      CaughtIsMatched(atoms, inbounds, rules[..|rules| - 1], at, req);
    }
  }

  // In global mode a default of "direct" is sent to the first proxy group instead.
  predicate DirectGoesToGroup(routing: RoutingConfig, groups: seq<string>) {
    RoutingMode(routing.mode) == GlobalMode && TargetName(DefaultOf(routing)) == "DIRECT" && groups != [] && groups[0] != "DIRECT"
  }

  // The live rules in the order in which they are written.
  function LiveRules(routing: RoutingConfig): seq<Rule> {
    Filter(Sort(routing.rules), Enabled)
  }

  lemma RuntimeReadable(c: Config)
    requires ConfigOk(c) && CleanInbounds(RuntimeOf(c).inbounds)
    ensures Readable(RuntimeOf(c).inbounds)
  {
    hide InboundOk, OutboundOk, RoutingOk;
    FilterMembers(c.inbounds, InboundEnabled);
    FilterDistinct(c.inbounds, InboundName, InboundEnabled);
    var ins := RuntimeOf(c).inbounds;
    forall i | 0 <= i < |ins|
      ensures ValidPort(ins[i].port)
    {
      assert ins[i] in c.inbounds;
    }
  }

  /**
   In rule mode, whatever the ports, a request that arrives on an enabled inbound goes where the first live rule sends
   it that matches it or is misled by the port.
   */
  lemma MihomoReadsPorts(atoms: Atoms, c: Config, at: nat, req: Request)
    requires ConfigOk(c) && c.mihomo.rules == [] && RoutingMode(c.routing.mode) == RuleMode
    requires CleanInbounds(RuntimeOf(c).inbounds)
    requires at < |RuntimeOf(c).inbounds| && req.inbound == RuntimeOf(c).inbounds[at].name
    ensures var r := RuntimeOf(c);
      var m := FirstCaught(atoms, r.inbounds, LiveRules(r.routing), at, req);
      Run(atoms, Lines(r.routing, c.mihomo.rules, GroupNames(c.mihomo), r.inbounds), req, r.inbounds[at].port) ==
      Some(TargetName(if m.Some? then m.value.outbound else DefaultOf(r.routing)))
  {
    hide ConfigOk, Readable, Run, RulesLines, Lines, GroupNames, FirstCaught, CleanInbounds, DefaultOf, LiveRules, Names, Reachable, RuleMatchType, RuleValue;
    var r := RuntimeOf(c);
    var final := Match(TargetName(DefaultOf(r.routing)));
    RuntimeReadable(c);
    assert forall rule :: rule in LiveRules(r.routing) && RuleMatchType(rule).InboundMatch? ==> Names(r.inbounds, InboundName, RuleValue(rule)) by {
      LiveRulesNameInbounds(c);
    }
    RuleModeLines(r, GroupNames(c.mihomo));
    RulesLinesCatch(atoms, r.inbounds, LiveRules(r.routing), at, req);
    RunAppend(atoms, RulesLines(LiveRules(r.routing), InboundPorts(r.inbounds)), [final], req, r.inbounds[at].port);
    RunMatch(atoms, final.target, req, r.inbounds[at].port);
  }

  lemma LiveRulesNameInbounds(c: Config)
    ensures var r := RuntimeOf(c);
      forall rule :: rule in LiveRules(r.routing) && RuleMatchType(rule).InboundMatch? ==> Names(r.inbounds, InboundName, RuleValue(rule))
  {
    RuntimeInboundRules(c);
  }

  lemma RunMatch(atoms: Atoms, target: string, req: Request, arrivalPort: int)
    ensures Run(atoms, [Match(target)], req, arrivalPort) == Some(target)
  {
    assert [Match(target)][..0] == [];
  }

  lemma RuleModeLines(r: Runtime, groups: seq<string>)
    requires RoutingMode(r.routing.mode) == RuleMode
    ensures Lines(r.routing, [], groups, r.inbounds) ==
            RulesLines(LiveRules(r.routing), InboundPorts(r.inbounds)) + [Match(TargetName(DefaultOf(r.routing)))]
  {}

  /**
   The compiled list sends every request that arrives on an enabled inbound where the routing sends it, in all modes,
   provided that in rule mode no live rule names another inbound on the same port; the one exception is global mode
   with a direct default and a proxy group to take its place.
   */
  lemma MihomoPreservesMeaning(atoms: Atoms, c: Config, at: nat, req: Request)
    requires ConfigOk(c) && c.mihomo.rules == []
    requires CleanInbounds(RuntimeOf(c).inbounds)
    requires at < |RuntimeOf(c).inbounds| && req.inbound == RuntimeOf(c).inbounds[at].name
    requires RoutingMode(c.routing.mode) == RuleMode ==> NoneMisled(RuntimeOf(c).inbounds, LiveRules(RuntimeOf(c).routing), at)
    ensures var r, groups := RuntimeOf(c), GroupNames(c.mihomo);
      Run(atoms, Lines(r.routing, c.mihomo.rules, groups, r.inbounds), req, r.inbounds[at].port) == Some(TargetName(Decision(atoms, r.routing, req)))
      <==> !DirectGoesToGroup(r.routing, groups)
  {
    hide CleanInbounds, NoneMisled, FirstCaught, FirstMatch, GroupNames, NodesOk, RuleOk;
    var r, groups := RuntimeOf(c), GroupNames(c.mihomo);
    if RoutingMode(c.routing.mode) == RuleMode {
      MihomoReadsPorts(atoms, c, at, req);
      CaughtIsMatched(atoms, r.inbounds, LiveRules(r.routing), at, req);
    } else {
      var final := [Match(FinalTarget(r.routing, groups))];
      assert final[..0] == [] && [Match("DIRECT")][..0] == [];
    }
  }

  lemma RuntimeInboundRules(c: Config)
    ensures var r := RuntimeOf(c);
      forall rule :: rule in Filter(Sort(r.routing.rules), Enabled) ==>
        && !rule.disabled
        && Reachable(r.outbounds, rule.outbound)
        && (RuleMatchType(rule).InboundMatch? ==> Names(r.inbounds, InboundName, RuleValue(rule)))
  {
    var r := RuntimeOf(c);
    RuntimeRules(c);
    FilterMembers(Sort(c.routing.rules), Live(r.inbounds, r.outbounds));
  }

  /** With nothing disabled, and up to the same exception, what the preview says is what mihomo does. */
  lemma MihomoDoesWhatThePreviewSays(atoms: Atoms, c: Config, at: nat, req: Request)
    requires ConfigOk(c) && NothingDisabled(c) && c.mihomo.rules == []
    requires CleanInbounds(c.inbounds)
    requires at < |c.inbounds| && req.inbound == c.inbounds[at].name
    requires RoutingMode(c.routing.mode) == RuleMode ==> NoneMisled(c.inbounds, LiveRules(c.routing), at)
    ensures var r := RuntimeOf(c);
      Run(atoms, Lines(r.routing, c.mihomo.rules, GroupNames(c.mihomo), r.inbounds), req, c.inbounds[at].port)
      == Some(TargetName(Decision(atoms, c.routing, req)))
      <==> !DirectGoesToGroup(c.routing, GroupNames(c.mihomo))
  {
    hide InboundOk, OutboundOk, Lines, Run, Misled, Filter, Sort, NodesOk, RuleOk, RuleLive;
    FilterAll(c.inbounds, InboundEnabled);
    FilterAll(c.outbounds, OutboundEnabled);
    LiveRulesAreEnabled(c);
    MihomoPreservesMeaning(atoms, c, at, req);
    PreviewIsWhatRuns(atoms, c, req);
  }

  lemma LiveRulesAreEnabled(c: Config)
    ensures forall rule :: rule in LiveRules(RuntimeOf(c).routing) ==> rule in LiveRules(c.routing)
  {
    var live := Live(RuntimeOf(c).inbounds, RuntimeOf(c).outbounds);
    RuntimeRules(c);
    FilterMembers(Sort(c.routing.rules), live);
    forall rule | rule in Filter(Sort(c.routing.rules), live)
      ensures rule in LiveRules(c.routing)
    {
      FilterKeeps(Sort(c.routing.rules), Enabled, rule);
    }
  }

  /** Two inbounds may share a port; the IN-PORT line of one then also catches the traffic of the other. */
  lemma SharedPort(atoms: Atoms, rule: Rule, req: Request)
    requires rule == Rule("", InboundMatch, "a", "", "proxy", 0, false) && req.inbound == "b"
    ensures var inbounds := [PlainInbound("a", 1080), PlainInbound("b", 1080)];
      && NodesOk(inbounds, [])
      && !RuleMatches(atoms, rule, req)
      && Run(atoms, RuleLines(rule, InboundPorts(inbounds)), req, inbounds[1].port) == Some("proxy")
  {
    hide SplitCSV;
    var inbounds := [PlainInbound("a", 1080), PlainInbound("b", 1080)];
    SplitCSVClean("a");
    InboundPortsLookup(inbounds, 0);
    var lines := [InPort(1080, "proxy")];
    assert RuleLines(rule, InboundPorts(inbounds)) == lines && lines[..0] == [];
  }

  /** In global mode without a default, the preview says direct and mihomo takes the group that it is given unasked. */
  lemma DirectBecomesGroup(atoms: Atoms)
    ensures var c := PlainConfig([PlainInbound("a", 1080)], [], GlobalMode, "", []);
      var req := Request("a", "example.org", "tcp", 443);
      && ConfigOk(c) && NothingDisabled(c)
      && Decision(atoms, c.routing, req) == "direct"
      && Run(atoms, Lines(RuntimeOf(c).routing, [], GroupNames(c.mihomo), RuntimeOf(c).inbounds), req, 1080) == Some("NodeTools")
  {
    RunMatch(atoms, "NodeTools", Request("a", "example.org", "tcp", 443), 1080);
  }

  /* ----- targets ----- */

  // The outbounds that are written as proxies.
  predicate Emitted(o: Outbound) {
    o.address != "" &&
    match o.protocol
    case Socks | Socks5 | Http | Vless | Vmess | Trojan | Shadowsocks | Ss | Hysteria2 | Tuic | Anytls | Naive | Shadowtls => true
    case _ => false
  }

  /** Of the valid outbounds with an address, all but the direct, tcp and udp ones are written. */
  lemma EmittedIff(o: Outbound)
    requires OutboundOk(o) && o.address != ""
    ensures Emitted(o) <==> ProtocolText(o.protocol) !in {"direct", "tcp", "udp"}
  {}

  /** `mihomoProxies`, of which only the names are kept. */
  method MihomoProxies(outbounds: seq<Outbound>) returns (names: seq<string>)
    ensures names == Map(OutboundName, Filter(outbounds, Emitted))
  {
    hide Emitted, Filter;
    assert Filter([], Emitted) == [] by { NoneEmitted(); }
    names := [];
    for i := 0 to |outbounds|
      invariant names == Map(OutboundName, Filter(outbounds[..i], Emitted))
    {
      assert outbounds[..i + 1] == outbounds[..i] + [outbounds[i]];
      FilterSnoc(outbounds[..i], outbounds[i], Emitted);
      if !Emitted(outbounds[i]) {
        continue;
      }
      names := names + [outbounds[i].name];
    }
    assert outbounds[..|outbounds|] == outbounds;
  }

  lemma NoneEmitted()
    ensures Filter([], Emitted) == []
  {}

  // What a line may name: mihomo's own DIRECT, a group, or a proxy.
  predicate Known(outbounds: seq<Outbound>, groups: seq<string>, target: string) {
    || target == "DIRECT" || target in groups
    || exists i :: 0 <= i < |outbounds| && Emitted(outbounds[i]) && outbounds[i].name == target
  }

  predicate AllKnown(outbounds: seq<Outbound>, groups: seq<string>, lines: seq<Line>) {
    forall line :: line in lines && !line.Raw? ==> Known(outbounds, groups, line.target)
  }

  // Some rule that is written sends traffic to the outbound of that name.
  predicate SendsTo(rules: seq<Rule>, ports: map<string, int>, name: string) {
    exists rule :: rule in rules && RuleLines(rule, ports) != [] && rule.outbound == name
  }

  // The outbound decides some traffic by name: as the default, or by a live rule that is written.
  predicate Used(r: Runtime, name: string) {
    || (RoutingMode(r.routing.mode) != DirectMode && name == DefaultOf(r.routing))
    || (RoutingMode(r.routing.mode) != DirectMode && RoutingMode(r.routing.mode) != GlobalMode
        && SendsTo(LiveRules(r.routing), InboundPorts(r.inbounds), name))
  }

  lemma {:induction false} ItemLinesTarget(kind: MatchType, items: seq<string>, target: string)
    ensures forall line :: line in ItemLines(kind, items, target) ==> !line.Raw? && line.target == target
  {
    if items != [] {
      ItemLinesTarget(kind, items[..|items| - 1], target);
    }
  }

  lemma RuleLinesTarget(rule: Rule, ports: map<string, int>)
    ensures forall line :: line in RuleLines(rule, ports) ==> !line.Raw? && line.target == TargetName(rule.outbound)
  {
    ItemLinesTarget(RuleMatchType(rule), SplitCSV(RuleValue(rule)), TargetName(rule.outbound));
  }

  lemma {:induction false} RulesLinesKnown(outbounds: seq<Outbound>, groups: seq<string>, rules: seq<Rule>, ports: map<string, int>)
    ensures AllKnown(outbounds, groups, RulesLines(rules, ports)) <==>
            forall rule :: rule in rules && RuleLines(rule, ports) != [] ==> Known(outbounds, groups, TargetName(rule.outbound))
  {
    hide Known, RuleLines, TargetName;
    if rules != [] {
      var front, last := rules[..|rules| - 1], rules[|rules| - 1];
      RulesLinesKnown(outbounds, groups, front, ports);
      RuleLinesTarget(last, ports);
      assert rules == front + [last];
      var more := RuleLines(last, ports);
      assert more != [] ==> more[0] in more;
      assert AllKnown(outbounds, groups, RulesLines(front, ports) + more) <==>
             AllKnown(outbounds, groups, RulesLines(front, ports)) && AllKnown(outbounds, groups, more) by {
        hide RulesLines;
        assert forall line :: line in RulesLines(front, ports) + more <==> line in RulesLines(front, ports) || line in more;
      }
    }
  }

  // A live outbound that is no proxy of its own.
  predicate Stranded(r: Runtime, groups: seq<string>, o: Outbound) {
    Used(r, o.name) && !Emitted(o) && TargetName(o.name) != "DIRECT" && o.name !in groups
  }

  lemma KnownIff(r: Runtime, groups: seq<string>, name: string)
    requires Distinct(r.outbounds, OutboundName) && Reachable(r.outbounds, name) && Used(r, name)
    ensures Known(r.outbounds, groups, TargetName(name)) <==>
            forall o :: o in r.outbounds && o.name == name ==> !Stranded(r, groups, o)
  {
    hide Used, Emitted;
    if TargetName(name) != "DIRECT" {
      var i :| 0 <= i < |r.outbounds| && OutboundName(r.outbounds[i]) == name;
      forall o | o in r.outbounds && o.name == name
        ensures o == r.outbounds[i]
      {
        var k :| 0 <= k < |r.outbounds| && r.outbounds[k] == o;
        assert OutboundName(r.outbounds[k]) == OutboundName(r.outbounds[i]);
      }
    }
  }

  lemma RuntimeRefersToNodes(c: Config)
    requires ConfigOk(c)
    ensures var r := RuntimeOf(c);
      Distinct(r.outbounds, OutboundName) && forall name :: Used(r, name) ==> Reachable(r.outbounds, name)
  {
    hide InboundOk, OutboundOk, RoutingOk, RuleLines, Filter;
    FilterDistinct(c.outbounds, OutboundName, OutboundEnabled);
    RuntimeInboundRules(c);
  }

  /**
   Every line names something that mihomo is given exactly when no live outbound that decides traffic is left out of
   the proxies, for want of an address or for its protocol, without a group of its name to stand in for it.
   */
  lemma MihomoTargetsKnownIff(c: Config)
    requires ConfigOk(c) && c.mihomo.rules == []
    ensures var r, groups := RuntimeOf(c), GroupNames(c.mihomo);
      AllKnown(r.outbounds, groups, Lines(r.routing, c.mihomo.rules, groups, r.inbounds)) <==>
      forall o :: o in r.outbounds ==> !Stranded(r, groups, o)
  {
    hide ConfigOk, Known, GroupNames, Stranded, Reachable, RulesLines, LiveRules, RuleLines, Used, TargetName;
    var r, groups := RuntimeOf(c), GroupNames(c.mihomo);
    RuntimeRefersToNodes(c);
    forall name | Used(r, name)
      ensures Known(r.outbounds, groups, TargetName(name)) <==> forall o :: o in r.outbounds && o.name == name ==> !Stranded(r, groups, o)
    {
      KnownIff(r, groups, name);
    }
    forall o | Stranded(r, groups, o)
      ensures Used(r, o.name)
    {
      StrandedIsUsed(r, groups, o);
    }
    UsedLines(r, groups);
  }

  lemma StrandedIsUsed(r: Runtime, groups: seq<string>, o: Outbound)
    requires Stranded(r, groups, o)
    ensures Used(r, o.name)
  {}

  lemma DirectIsKnown(outbounds: seq<Outbound>, groups: seq<string>)
    ensures Known(outbounds, groups, "DIRECT")
    ensures groups != [] ==> Known(outbounds, groups, groups[0])
  {}

  lemma AllKnownSnoc(outbounds: seq<Outbound>, groups: seq<string>, lines: seq<Line>, target: string)
    ensures AllKnown(outbounds, groups, lines + [Match(target)]) <==> AllKnown(outbounds, groups, lines) && Known(outbounds, groups, target)
  {
    hide Known;
    assert forall line :: line in lines + [Match(target)] <==> line in lines || line == Match(target);
  }

  lemma SendsToKnown(outbounds: seq<Outbound>, groups: seq<string>, rules: seq<Rule>, ports: map<string, int>)
    ensures AllKnown(outbounds, groups, RulesLines(rules, ports)) <==>
            forall name :: SendsTo(rules, ports, name) ==> Known(outbounds, groups, TargetName(name))
  {
    hide Known, RuleLines, RulesLines, TargetName, AllKnown;
    RulesLinesKnown(outbounds, groups, rules, ports);
    forall rule | rule in rules && RuleLines(rule, ports) != []
      ensures SendsTo(rules, ports, rule.outbound)
    {}
  }

  // The lines name what the used outbounds are called, apart from mihomo's own names.
  lemma UsedLines(r: Runtime, groups: seq<string>)
    ensures AllKnown(r.outbounds, groups, Lines(r.routing, [], groups, r.inbounds)) <==>
            forall name :: Used(r, name) ==> Known(r.outbounds, groups, TargetName(name))
  {
    hide Known, SendsTo, RulesLines, LiveRules, TargetName, AllKnown, DefaultOf;
    DirectIsKnown(r.outbounds, groups);
    var ports, target := InboundPorts(r.inbounds), FinalTarget(r.routing, groups);
    var lines := if RoutingMode(r.routing.mode) in {DirectMode, GlobalMode} then [] else RulesLines(LiveRules(r.routing), ports);
    SendsToKnown(r.outbounds, groups, LiveRules(r.routing), ports);
    AllKnownSnoc(r.outbounds, groups, lines, target);
    AllKnownSnoc(r.outbounds, groups, [], "DIRECT");
    assert AllKnown(r.outbounds, groups, []) by { NothingNamed(r.outbounds, groups); }
    assert [] + [Match(target)] == [Match(target)] && [] + [Match("DIRECT")] == [Match("DIRECT")];
    assert RulesLines(LiveRules(r.routing), ports) == RulesLines(Filter(Sort(r.routing.rules), Enabled), ports) by { LiveRulesAre(r.routing); }
  }

  lemma NothingNamed(outbounds: seq<Outbound>, groups: seq<string>)
    ensures AllKnown(outbounds, groups, [])
  {}

  lemma LiveRulesAre(routing: RoutingConfig)
    ensures LiveRules(routing) == Filter(Sort(routing.rules), Enabled)
  {}

  function TcpDefault(): Config {
    PlainConfig([], [PlainOutbound("t", Tcp, 80, false)], RuleMode, "t", [])
  }

  lemma TcpDefaultRuns()
    ensures ConfigOk(TcpDefault())
    ensures RuntimeOf(TcpDefault()) == Runtime([], TcpDefault().outbounds, TcpDefault().routing)
  {
    hide InboundOk, OutboundOk, Filter;
    var outbounds := TcpDefault().outbounds;
    TcpOk();
    assert OutboundName(outbounds[0]) == "t";
    FilterAll(outbounds, OutboundEnabled);
    NothingFiltered();
  }

  lemma TcpOk()
    ensures OutboundOk(PlainOutbound("t", Tcp, 80, false))
  {}

  lemma NothingFiltered()
    ensures Filter<Inbound>([], InboundEnabled) == [] && forall keep :: Filter<Rule>([], keep) == []
  {}

  /** A tcp outbound is valid as the default, and mihomo is told to send traffic to a proxy that it is not given. */
  lemma StrandedDefault()
    ensures var c := TcpDefault();
      var r := RuntimeOf(c);
      && ConfigOk(c)
      && Lines(r.routing, [], GroupNames(c.mihomo), r.inbounds) == [Match("t")]
      && !Known(r.outbounds, GroupNames(c.mihomo), "t")
  {
    hide ConfigOk, RuntimeOf, Lines;
    TcpDefaultRuns();
    RuleModeLines(RuntimeOf(TcpDefault()), GroupNames(TcpDefault().mihomo));
    NoRules(map[]);
    assert "NodeTools" != "t";
  }
}
