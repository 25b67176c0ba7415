/**
 Filtering lists, and the stable sort of routing rules.

 A stable sort has exactly one possible result, so the theorems below hold of the library's algorithm as
 well as of the insertion sort that stands for it here.
 */
module Sorting {
  import opened Text
  import opened Config

  /* ----- lists ----- */

  function Filter<T>(xs: seq<T>, keep: T -> bool): (ys: seq<T>)
    ensures |ys| <= |xs|
  {
    if xs == [] then []
    else
      var rest := Filter(xs[..|xs| - 1], keep);
      if keep(xs[|xs| - 1]) then rest + [xs[|xs| - 1]] else rest
  }

  function Map<T, U>(f: T -> U, xs: seq<T>): (ys: seq<U>)
    ensures |ys| == |xs|
    ensures forall i :: 0 <= i < |xs| ==> ys[i] == f(xs[i])
  {
    seq(|xs|, i requires 0 <= i < |xs| => f(xs[i]))
  }

  lemma FilterSnoc<T>(xs: seq<T>, x: T, keep: T -> bool)
    ensures Filter(xs + [x], keep) == if keep(x) then Filter(xs, keep) + [x] else Filter(xs, keep)
  {
    assert (xs + [x])[..|xs|] == xs;
  }

  lemma {:induction false} FilterAppend<T>(xs: seq<T>, ys: seq<T>, keep: T -> bool)
    ensures Filter(xs + ys, keep) == Filter(xs, keep) + Filter(ys, keep)
  {
    if ys == [] {
      assert xs + ys == xs;
    } else {
      var front, last := ys[..|ys| - 1], ys[|ys| - 1];
      assert xs + ys == (xs + front) + [last];
      FilterSnoc(xs + front, last, keep);
      FilterAppend(xs, front, keep);
    }
  }

  lemma {:induction false} FilterFilter<T>(xs: seq<T>, p: T -> bool, q: T -> bool)
    ensures Filter(Filter(xs, p), q) == Filter(Filter(xs, q), p)
  {
    if xs != [] {
      var front, last := xs[..|xs| - 1], xs[|xs| - 1];
      FilterFilter(front, p, q);
      FilterSnoc(Filter(front, p), last, q);
      FilterSnoc(Filter(front, q), last, p);
    }
  }

  lemma {:induction false} FilterSame<T>(xs: seq<T>, p: T -> bool, q: T -> bool)
    requires forall x :: x in xs ==> p(x) == q(x)
    ensures Filter(xs, p) == Filter(xs, q)
  {
    if xs != [] {
      FilterSame(xs[..|xs| - 1], p, q);
      assert xs[|xs| - 1] in xs;
    }
  }

  lemma {:induction false} FilterAll<T>(xs: seq<T>, p: T -> bool)
    requires forall x :: x in xs ==> p(x)
    ensures Filter(xs, p) == xs
  {
    if xs != [] {
      FilterAll(xs[..|xs| - 1], p);
      assert xs[|xs| - 1] in xs;
    }
  }

  lemma {:induction false} FilterKeeps<T>(xs: seq<T>, p: T -> bool, x: T)
    ensures x in Filter(xs, p) <==> x in xs && p(x)
  {
    if xs != [] {
      FilterKeeps(xs[..|xs| - 1], p, x);
      assert xs == xs[..|xs| - 1] + [xs[|xs| - 1]];
    }
  }

  lemma {:induction false} FilterDistinct<T>(xs: seq<T>, key: T -> string, keep: T -> bool)
    requires Distinct(xs, key)
    ensures Distinct(Filter(xs, keep), key)
  {
    if xs != [] {
      var front, last := xs[..|xs| - 1], xs[|xs| - 1];
      FilterDistinct(front, key, keep);
      var ys := Filter(front, keep);
      forall i | 0 <= i < |ys|
        ensures key(ys[i]) != key(last)
      {
        FilterKeeps(front, keep, ys[i]);
        var j :| 0 <= j < |front| && front[j] == ys[i];
        assert key(xs[j]) != key(xs[|xs| - 1]);
      }
    }
  }

  lemma FilterMembers<T>(xs: seq<T>, p: T -> bool)
    ensures forall x :: x in Filter(xs, p) <==> x in xs && p(x)
  {
    forall x
      ensures x in Filter(xs, p) <==> x in xs && p(x)
    {
      FilterKeeps(xs, p, x);
    }
  }

  /* ----- the order of rules ----- */

  predicate Before(a: Rule, b: Rule) {
    if a.priority == b.priority then Less(a.inbound, b.inbound) else a.priority < b.priority
  }

  predicate Sorted(rules: seq<Rule>) {
    forall i, j :: 0 <= i < j < |rules| ==> !Before(rules[j], rules[i])
  }

  predicate SameKey(a: Rule, b: Rule) {
    a.priority == b.priority && a.inbound == b.inbound
  }

  lemma BeforeIsStrictWeakOrder(a: Rule, b: Rule, c: Rule)
    ensures !Before(a, a)
    ensures Before(a, b) && Before(b, c) ==> Before(a, c)
    ensures !Before(a, b) && !Before(b, a) <==> SameKey(a, b)
    ensures !Before(b, a) && !Before(c, b) ==> !Before(c, a)
  {
    LessTrichotomy(a.inbound, a.inbound);
    LessTrichotomy(a.inbound, b.inbound);
    LessTrichotomy(b.inbound, c.inbound);
    LessTrichotomy(a.inbound, c.inbound);
    if Less(a.inbound, b.inbound) && Less(b.inbound, c.inbound) {
      LessTransitive(a.inbound, b.inbound, c.inbound);
    }
  }

  /* ----- the sort ----- */

  // Puts `x` behind everything that does not have to come after it.
  function Insert(rules: seq<Rule>, x: Rule): seq<Rule> {
    if rules == [] || !Before(x, rules[|rules| - 1]) then rules + [x]
    else Insert(rules[..|rules| - 1], x) + [rules[|rules| - 1]]
  }

  function Sort(rules: seq<Rule>): seq<Rule> {
    if rules == [] then [] else Insert(Sort(rules[..|rules| - 1]), rules[|rules| - 1])
  }

  function HasKey(k: Rule): Rule -> bool {
    (r: Rule) => SameKey(r, k)
  }

  // `out` is in order, and rules that compare equal appear exactly as they do in `rules`.
  ghost predicate StableSortOf(rules: seq<Rule>, out: seq<Rule>) {
    && Sorted(out)
    && forall k: Rule :: Filter(out, HasKey(k)) == Filter(rules, HasKey(k))
  }

  lemma {:induction false} InsertSorted(rules: seq<Rule>, x: Rule)
    requires Sorted(rules)
    ensures Sorted(Insert(rules, x))
    ensures forall r :: r in Insert(rules, x) <==> r in rules || r == x
  {
    if rules == [] {
    } else if !Before(x, rules[|rules| - 1]) {
      forall i | 0 <= i < |rules|
        ensures !Before(x, rules[i])
      {
        BeforeIsStrictWeakOrder(rules[i], rules[|rules| - 1], x);
      }
    } else {
      var front, last := rules[..|rules| - 1], rules[|rules| - 1];
      InsertSorted(front, x);
      var out := Insert(front, x);
      forall r | r in out
        ensures !Before(last, r)
      {
        BeforeIsStrictWeakOrder(x, last, x);
        assert r in front || r == x;
      }
      forall i | 0 <= i < |out|
        ensures !Before(last, out[i])
      {
        assert out[i] in out;
      }
      assert rules == front + [last];
    }
  }

  lemma {:induction false} InsertStable(rules: seq<Rule>, x: Rule, k: Rule)
    ensures Filter(Insert(rules, x), HasKey(k)) == Filter(rules + [x], HasKey(k))
  {
    if rules != [] && Before(x, rules[|rules| - 1]) {
      var front, last := rules[..|rules| - 1], rules[|rules| - 1];
      assert rules == front + [last];
      InsertStable(front, x, k);
      FilterSnoc(Insert(front, x), last, HasKey(k));
      FilterSnoc(front, x, HasKey(k));
      FilterSnoc(front, last, HasKey(k));
      FilterSnoc(rules, x, HasKey(k));
      BeforeIsStrictWeakOrder(x, last, k);
    }
  }

  /** The sort is stable. */
  lemma {:induction false} SortIsStable(rules: seq<Rule>)
    ensures StableSortOf(rules, Sort(rules))
  {
    if rules != [] {
      var front, last := rules[..|rules| - 1], rules[|rules| - 1];
      SortIsStable(front);
      InsertSorted(Sort(front), last);
      assert rules == front + [last];
      forall k: Rule
        ensures Filter(Sort(rules), HasKey(k)) == Filter(rules, HasKey(k))
      {
        InsertStable(Sort(front), last, k);
        FilterSnoc(Sort(front), last, HasKey(k));
        FilterSnoc(front, last, HasKey(k));
      }
    }
  }

  ghost predicate SameRuns(a: seq<Rule>, b: seq<Rule>) {
    forall k: Rule :: Filter(a, HasKey(k)) == Filter(b, HasKey(k))
  }

  /** There is only one stable sort of a list. */
  lemma {:induction false} StableSortUnique(a: seq<Rule>, b: seq<Rule>)
    requires Sorted(a) && Sorted(b)
    requires SameRuns(a, b)
    ensures a == b
  {
    hide SameRuns;
    if a == [] {
      LastIsThere(b, a);
    } else if b == [] {
      LastIsThere(a, b);
    } else {
      LastHasGreatestKey(a, b);
      LastHasGreatestKey(b, a);
      DropLast(a, b);
      StableSortUnique(a[..|a| - 1], b[..|b| - 1]);
    }
  }

  lemma LastIsThere(a: seq<Rule>, b: seq<Rule>)
    requires SameRuns(a, b) || SameRuns(b, a)
    ensures a != [] ==> a[|a| - 1] in b
  {
    if a != [] {
      var x := a[|a| - 1];
      FilterKeeps(a, HasKey(x), x);
      FilterKeeps(b, HasKey(x), x);
      assert Filter(a, HasKey(x)) == Filter(b, HasKey(x));
    }
  }

  lemma LastHasGreatestKey(a: seq<Rule>, b: seq<Rule>)
    requires a != [] && b != [] && Sorted(b)
    requires SameRuns(a, b) || SameRuns(b, a)
    ensures !Before(b[|b| - 1], a[|a| - 1])
  {
    var x := a[|a| - 1];
    LastIsThere(a, b);
    var i :| 0 <= i < |b| && b[i] == x;
    BeforeIsStrictWeakOrder(x, b[|b| - 1], x);
  }

  lemma DropLast(a: seq<Rule>, b: seq<Rule>)
    requires a != [] && b != []
    requires SameRuns(a, b)
    requires !Before(b[|b| - 1], a[|a| - 1]) && !Before(a[|a| - 1], b[|b| - 1])
    ensures a[|a| - 1] == b[|b| - 1]
    ensures SameRuns(a[..|a| - 1], b[..|b| - 1])
  {
    var x, y := a[|a| - 1], b[|b| - 1];
    BeforeIsStrictWeakOrder(x, y, x);
    assert Filter(a, HasKey(x)) == Filter(b, HasKey(x));
    var front, front' := a[..|a| - 1], b[..|b| - 1];
    assert a == front + [x] && b == front' + [y];
    FilterSnoc(front, x, HasKey(x));
    FilterSnoc(front', y, HasKey(x));
    assert x == Filter(a, HasKey(x))[|Filter(a, HasKey(x))| - 1] == y;
    forall k: Rule
      ensures Filter(front, HasKey(k)) == Filter(front', HasKey(k))
    {
      FilterSnoc(front, x, HasKey(k));
      FilterSnoc(front', y, HasKey(k));
      assert Filter(a, HasKey(k)) == Filter(b, HasKey(k));
      DropSame(Filter(front, HasKey(k)), Filter(front', HasKey(k)), x);
    }
  }

  lemma DropSame<T>(a: seq<T>, b: seq<T>, x: T)
    ensures a + [x] == b + [x] ==> a == b
  {
    if a + [x] == b + [x] {
      assert a == (a + [x])[..|a|] == (b + [x])[..|b|] == b;
    }
  }

  lemma SortUnique(rules: seq<Rule>, out: seq<Rule>)
    ensures StableSortOf(rules, out) <==> out == Sort(rules)
  {
    SortIsStable(rules);
    if StableSortOf(rules, out) {
      StableSortUnique(out, Sort(rules));
    }
  }

  lemma SortMembers(rules: seq<Rule>, r: Rule)
    ensures r in Sort(rules) <==> r in rules
  {
    SortIsStable(rules);
    FilterKeeps(rules, HasKey(r), r);
    FilterKeeps(Sort(rules), HasKey(r), r);
  }

  lemma {:induction false} FilterSorted(rules: seq<Rule>, keep: Rule -> bool)
    requires Sorted(rules)
    ensures Sorted(Filter(rules, keep))
  {
    if rules != [] {
      var front, last := rules[..|rules| - 1], rules[|rules| - 1];
      FilterSorted(front, keep);
      var out := Filter(front, keep);
      forall i | 0 <= i < |out|
        ensures !Before(last, out[i])
      {
        FilterKeeps(front, keep, out[i]);
        assert out[i] in front;
      }
    }
  }

  /** Sorting and filtering commute. */
  lemma SortFilter(rules: seq<Rule>, keep: Rule -> bool)
    ensures Sort(Filter(rules, keep)) == Filter(Sort(rules), keep)
  {
    SortIsStable(rules);
    FilterSorted(Sort(rules), keep);
    forall k: Rule
      ensures Filter(Filter(Sort(rules), keep), HasKey(k)) == Filter(Filter(rules, keep), HasKey(k))
    {
      FilterFilter(Sort(rules), keep, HasKey(k));
      FilterFilter(rules, keep, HasKey(k));
    }
    SortUnique(Filter(rules, keep), Filter(Sort(rules), keep));
  }

  /** Sorting commutes with any change of the rules that leaves their keys alone. */
  lemma {:induction false} SortMap(f: Rule -> Rule, rules: seq<Rule>)
    requires forall r :: SameKey(f(r), r)
    ensures Sort(Map(f, rules)) == Map(f, Sort(rules))
  {
    if rules != [] {
      var front, last := rules[..|rules| - 1], rules[|rules| - 1];
      SortMap(f, front);
      assert Map(f, rules)[..|rules| - 1] == Map(f, front);
      InsertMap(f, Sort(front), last);
    }
  }

  lemma {:induction false} InsertMap(f: Rule -> Rule, rules: seq<Rule>, x: Rule)
    requires forall r :: SameKey(f(r), r)
    ensures Insert(Map(f, rules), f(x)) == Map(f, Insert(rules, x))
  {
    if rules != [] {
      var front, last := rules[..|rules| - 1], rules[|rules| - 1];
      InsertMap(f, front, x);
      assert Map(f, rules)[..|rules| - 1] == Map(f, front);
      assert Before(f(x), f(last)) == Before(x, last);
    }
  }

  /* ----- the sort as it runs ----- */

  lemma SortNothing()
    ensures Sort([]) == []
  {}

  lemma SortSnoc(rules: seq<Rule>, x: Rule)
    ensures Sorted(Sort(rules)) && Sort(rules + [x]) == Insert(Sort(rules), x)
  {
    SortIsStable(rules);
    assert (rules + [x])[..|rules|] == rules;
  }

  /** `sortedRoutingRules`: copies the rules and sorts the copy in place. */
  method SortedRoutingRules(rules: seq<Rule>) returns (next: array<Rule>)
    ensures fresh(next)
    ensures next[..] == Sort(rules)
    ensures StableSortOf(rules, next[..])
  {
    hide Sort, Insert, Sorted, StableSortOf;
    next := new Rule[|rules|](i requires 0 <= i < |rules| => rules[i]);
    assert rules[..0] == [] && Sort([]) == [] by { SortNothing(); }
    for i := 0 to next.Length
      invariant next[..i] == Sort(rules[..i])
      invariant next[i..] == rules[i..]
    {
      assert next[i] == next[i..][0] == rules[i];
      assert rules[..i + 1] == rules[..i] + [rules[i]];
      SortSnoc(rules[..i], rules[i]);
      InsertInPlace(next, i);
      assert next[i + 1..] == rules[i + 1..];
    }
    assert rules[..|rules|] == rules && next[..next.Length] == next[..];
    SortIsStable(rules);
  }

  /** Moves `a[i]` down into the sorted part before it. */
  method InsertInPlace(a: array<Rule>, i: nat)
    requires i < a.Length && Sorted(a[..i])
    modifies a
    ensures a[..i + 1] == Insert(old(a[..i]), old(a[i]))
    ensures a[i + 1..] == old(a[i + 1..])
  {
    ghost var s, x := a[..i], a[i];
    var j := i;
    while 0 < j && Before(a[j], a[j - 1])
      invariant 0 <= j <= i
      invariant a[..j] == s[..j] && a[j] == x
      invariant forall k :: j < k <= i ==> a[k] == s[k - 1]
      invariant forall k :: j <= k < i ==> Before(x, s[k])
      invariant a[i + 1..] == old(a[i + 1..])
    {
      a[j], a[j - 1] := a[j - 1], a[j];
      j := j - 1;
    }
    assert 0 < j ==> a[j - 1] == a[..j][j - 1] == s[j - 1];
    InsertAt(s, x, j);
    assert a[..i + 1] == s[..j] + [x] + s[j..];
  }

  lemma {:induction false} InsertAt(s: seq<Rule>, x: Rule, j: nat)
    requires j <= |s|
    requires 0 < j ==> !Before(x, s[j - 1])
    requires forall k :: j <= k < |s| ==> Before(x, s[k])
    ensures Insert(s, x) == s[..j] + [x] + s[j..]
  {
    if j < |s| {
      var front := s[..|s| - 1];
      InsertAt(front, x, j);
      assert front[..j] == s[..j] && front[j..] + [s[|s| - 1]] == s[j..];
    }
  }
}
