/**
 What happens to a routing configuration that is read from a file or from the history: an absent mode is filled in, and
 a rule that an earlier release put into the bypass preset is taken out.
 */
module Legacy {
  import opened Text
  import opened Config
  import opened Sorting
  import opened Slices
  import opened Routing

  /** `isLegacyBypassOverseasDirectRule`. */
  predicate LegacyRule(rule: Rule) {
    && rule.outbound == "direct" && RuleMatchType(rule) == DomainSuffix
    && var value := ToLower(RuleValue(rule));
       Contains(value, "google.com") && Contains(value, "youtube.com") && Contains(value, "github.com")
  }

  predicate NotLegacy(rule: Rule) { !LegacyRule(rule) }

  function Normalized(routing: RoutingConfig): RoutingConfig {
    RoutingConfig(if routing.mode == NoMode then RuleMode else routing.mode, routing.preset, routing.defaultOutbound,
                  if routing.preset == "bypass_cn" then Filter(routing.rules, NotLegacy) else routing.rules)
  }

  /** `normalizeRoutingConfig`: the rules are compacted in the array they came in. */
  method NormalizeRoutingConfig(mode: Mode, preset: string, defaultOutbound: string, rules: Slice<Rule>)
    returns (m: Mode, kept: Slice<Rule>)
    requires rules.Valid()
    modifies rules.data
    ensures kept.Valid() && kept.data == rules.data
    ensures RoutingConfig(m, preset, defaultOutbound, kept.Elems()) ==
            Normalized(RoutingConfig(mode, preset, defaultOutbound, old(rules.Elems())))
  {
    m := mode;
    if mode == NoMode {
      m := RuleMode;
    }
    kept := rules;
    if preset == "bypass_cn" {
      kept := Compact(rules, NotLegacy);
    }
  }

  // The enabled rules of a normalized configuration, in the order of their priorities.
  lemma NormalizedRules(rules: seq<Rule>)
    ensures Filter(Sort(Filter(rules, NotLegacy)), Enabled) == Filter(Filter(Sort(rules), Enabled), NotLegacy)
  {
    SortFilter(rules, NotLegacy);
    FiltersCommute(Sort(rules));
  }

  lemma {:induction false} FiltersCommute(rules: seq<Rule>)
    ensures Filter(Filter(rules, NotLegacy), Enabled) == Filter(Filter(rules, Enabled), NotLegacy)
  {
    hide LegacyRule;
    if rules != [] {
      var front, last := rules[..|rules| - 1], rules[|rules| - 1];
      FiltersCommute(front);
      FilterSnoc(Filter(front, NotLegacy), last, Enabled);
      FilterSnoc(Filter(front, Enabled), last, NotLegacy);
    }
  }

  /**
   A normalized configuration decides every request as before, unless the rule that decided it is a legacy rule of the
   bypass preset; then the request, which went direct, goes where the other rules send it.
   */
  lemma NormalizingKeepsDecisions(atoms: Atoms, routing: RoutingConfig, req: Request)
    ensures var enabled := Filter(Sort(routing.rules), Enabled);
      var m := FirstMatch(atoms, enabled, req);
      var mode := RoutingMode(routing.mode);
      if mode != DirectMode && mode != GlobalMode && routing.preset == "bypass_cn" && m.Some? && LegacyRule(m.value) then
        && Decision(atoms, routing, req) == "direct"
        && Decision(atoms, Normalized(routing), req) == RuleDecision(atoms, Filter(enabled, NotLegacy), DefaultOf(routing), req)
      else Decision(atoms, Normalized(routing), req) == Decision(atoms, routing, req)
  {
    hide LegacyRule, Sort, Filter, FirstMatch;
    var enabled := Filter(Sort(routing.rules), Enabled);
    NormalizedRules(routing.rules);
    FirstMatchLegacy(atoms, enabled, req);
    var m := FirstMatch(atoms, enabled, req);
    if m.Some? && LegacyRule(m.value) {
      LegacyIsDirect(m.value);
    }
    RuleModeIsNotLost(routing);
    hide RoutingMode, DefaultOf;
    if routing.preset == "bypass_cn" {
      assert Filter(Sort(Normalized(routing).rules), Enabled) == Filter(enabled, NotLegacy);
    }
  }

  lemma FirstMatchLegacy(atoms: Atoms, rules: seq<Rule>, req: Request)
    ensures var m := FirstMatch(atoms, rules, req);
      m.None? || !LegacyRule(m.value) ==> FirstMatch(atoms, Filter(rules, NotLegacy), req) == m
  {
    hide LegacyRule;
    var m := FirstMatch(atoms, rules, req);
    if m.None? || !LegacyRule(m.value) {
      FirstMatchFilter(atoms, rules, req, NotLegacy);
    }
  }

  lemma LegacyIsDirect(rule: Rule)
    requires LegacyRule(rule)
    ensures rule.outbound == "direct"
  {}

  lemma RuleModeIsNotLost(routing: RoutingConfig)
    ensures RoutingMode(Normalized(routing).mode) == RoutingMode(routing.mode)
    ensures DefaultOf(Normalized(routing)) == DefaultOf(routing)
  {}

  /** A valid configuration stays valid. */
  lemma NormalizingKeepsValidity(c: Config)
    requires ConfigOk(c)
    ensures ConfigOk(c.(routing := Normalized(c.routing)))
  {
    hide NodesOk, RuleOk, Reachable, LegacyRule;
    FilterKeeps(c.routing.rules);
    RuleModeIsNotLost(c.routing);
    var kept := Normalized(c.routing).rules;
    forall i | 0 <= i < |kept|
      ensures kept[i] in c.routing.rules
    {}
  }

  lemma {:induction false} FilterKeeps(rules: seq<Rule>)
    ensures forall rule :: rule in Filter(rules, NotLegacy) ==> rule in rules
    ensures DistinctRuleNames(rules) ==> DistinctRuleNames(Filter(rules, NotLegacy))
  {
    hide LegacyRule;
    if rules != [] {
      var front := rules[..|rules| - 1];
      FilterKeeps(front);
      var kept := Filter(front, NotLegacy);
      assert forall i :: 0 <= i < |kept| ==> kept[i] in front;
    }
  }

  lemma {:induction false} ContainsAfter(a: string, s: string, sub: string)
    requires Contains(s, sub)
    ensures Contains(a + s, sub)
  {
    if a == [] {
      assert a + s == s;
    } else {
      ContainsAfter(a[1..], s, sub);
      assert (a + s)[1..] == a[1..] + s;
    }
  }

  lemma ContainsPrefix(sub: string, b: string)
    ensures Contains(sub + b, sub)
  {
    assert (sub + b)[..|sub|] == sub;
  }

  const GITHUB := "," + "github.com"
  const YOUTUBE := "," + ("youtube.com" + GITHUB)
  const OVERSEAS := "openai.com," + ("google.com" + YOUTUBE)

  lemma OverseasContains()
    ensures Contains(OVERSEAS, "google.com") && Contains(OVERSEAS, "youtube.com") && Contains(OVERSEAS, "github.com")
  {
    hide Contains;
    ContainsPrefix("google.com", YOUTUBE);
    ContainsPrefix("youtube.com", GITHUB);
    ContainsPrefix("github.com", "");
    assert "github.com" + "" == "github.com";
    ContainsAfter(",", "github.com", "github.com");
    ContainsAfter("youtube.com", GITHUB, "github.com");
    ContainsAfter(",", "youtube.com" + GITHUB, "github.com");
    ContainsAfter(",", "youtube.com" + GITHUB, "youtube.com");
    InFront("google.com", "openai.com,", YOUTUBE, "youtube.com");
    InFront("google.com", "openai.com,", YOUTUBE, "github.com");
    ContainsAfter("openai.com,", "google.com" + YOUTUBE, "google.com");
  }

  lemma InFront(b: string, a: string, s: string, sub: string)
    requires Contains(s, sub)
    ensures Contains(a + (b + s), sub)
  {
    ContainsAfter(b, s, sub);
    ContainsAfter(a, b + s, sub);
  }

  lemma OverseasIsLower()
    ensures ToLower(OVERSEAS) == OVERSEAS && OVERSEAS != ""
  {
    LowerIs(OVERSEAS);
  }

  /** The rule that the earlier release wrote is such a rule; one that sends the same domains elsewhere is not. */
  lemma LegacyExamples(rule: Rule)
    requires rule.matchType == DomainSuffix && rule.value == OVERSEAS
    ensures LegacyRule(rule) <==> rule.outbound == "direct"
  {
    hide Contains, ToLower, OVERSEAS;
    OverseasContains();
    OverseasIsLower();
  }
}
