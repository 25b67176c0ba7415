/**
 The login limiter: six failures of a user within 15 minutes block further attempts.

 The agent keeps a pruned list of failures per user.  It is compared here with a limiter that never forgets a
 failure before the user's next success.  Times are nanoseconds of a clock that does not go back.
 */
module Limiter {
  import opened Text
  import opened Sorting

  const WINDOW := 900_000_000_000
  const LIMIT := 6

  type Failures = map<string, seq<int>>

  function UserKey(username: string): string {
    var name := TrimSpace(username);
    if name == "" then "admin" else name
  }

  function Of(f: Failures, key: string): seq<int> {
    if key in f then f[key] else []
  }

  function Later(cutoff: int): int -> bool {
    (t: int) => t > cutoff
  }

  function Recent(times: seq<int>, cutoff: int): seq<int> {
    Filter(times, Later(cutoff))
  }

  // One attempt: when the block was looked up, whether the password was right, when a failure was noted.
  datatype Attempt = Attempt(user: string, checkedAt: int, right: bool, notedAt: int)

  datatype Verdict = Blocked | Denied | Accepted

  /* ----- the agent's limiter and the one with the full history ----- */

  /** One attempt on the pruned lists. */
  function Tried(f: Failures, a: Attempt): (Failures, Verdict) {
    var key := UserKey(a.user);
    var pruned := Recent(Of(f, key), a.checkedAt - WINDOW);
    if |pruned| >= LIMIT then (f[key := pruned], Blocked)
    else if !a.right then (f[key := pruned + [a.notedAt]], Denied)
    else (f[key := pruned] - {key}, Accepted)
  }

  /** The same attempt when nothing is forgotten until a success. */
  function TriedOnHistory(h: Failures, a: Attempt): (Failures, Verdict) {
    var key := UserKey(a.user);
    if |Recent(Of(h, key), a.checkedAt - WINDOW)| >= LIMIT then (h, Blocked)
    else if !a.right then (h[key := Of(h, key) + [a.notedAt]], Denied)
    else (h - {key}, Accepted)
  }

  // The attempts follow one another in time.
  ghost predicate InOrder(attempts: seq<Attempt>) {
    && (forall i :: 0 <= i < |attempts| ==> attempts[i].checkedAt <= attempts[i].notedAt)
    && (forall i :: 0 < i < |attempts| ==> attempts[i - 1].notedAt <= attempts[i].checkedAt)
  }

  function Run(attempts: seq<Attempt>): (Failures, seq<Verdict>) {
    if attempts == [] then (map[], [])
    else
      var (f, verdicts) := Run(attempts[..|attempts| - 1]);
      var (f', v) := Tried(f, attempts[|attempts| - 1]);
      (f', verdicts + [v])
  }

  function RunOnHistory(attempts: seq<Attempt>): (Failures, seq<Verdict>) {
    if attempts == [] then (map[], [])
    else
      var (h, verdicts) := RunOnHistory(attempts[..|attempts| - 1]);
      var (h', v) := TriedOnHistory(h, attempts[|attempts| - 1]);
      (h', verdicts + [v])
  }

  /* ----- pruning loses nothing that counts ----- */

  lemma {:induction false} RecentRecent(times: seq<int>, earlier: int, later: int)
    requires earlier <= later
    ensures Recent(Recent(times, earlier), later) == Recent(times, later)
  {
    if times != [] {
      RecentRecent(times[..|times| - 1], earlier, later);
      FilterSnoc(Recent(times[..|times| - 1], earlier), times[|times| - 1], Later(later));
    }
  }

  // The kept list is the history from some point on that no longer matters.
  ghost predicate PrunedFrom(kept: seq<int>, full: seq<int>, now: int) {
    exists cutoff :: cutoff <= now - WINDOW && kept == Recent(full, cutoff)
  }

  ghost predicate Related(f: Failures, h: Failures, now: int) {
    && (forall key :: PrunedFrom(Of(f, key), Of(h, key), now))
    && (forall key, i :: 0 <= i < |Of(h, key)| ==> Of(h, key)[i] <= now)
  }

  // In the history of a user, seven failures span at least the window.
  ghost predicate Spaced(h: Failures) {
    forall key, i, j :: 0 <= i && i + LIMIT <= j < |Of(h, key)| ==> Of(h, key)[j] - Of(h, key)[i] >= WINDOW
  }

  ghost predicate Ascending(h: Failures) {
    forall key, i, j :: 0 <= i <= j < |Of(h, key)| ==> Of(h, key)[i] <= Of(h, key)[j]
  }

  ghost predicate Short(f: Failures) {
    forall key :: |Of(f, key)| <= LIMIT
  }

  lemma SameAnswer(f: Failures, h: Failures, key: string, now: int, at: int)
    requires PrunedFrom(Of(f, key), Of(h, key), now) && now <= at
    ensures Recent(Of(f, key), at - WINDOW) == Recent(Of(h, key), at - WINDOW)
  {
    var cutoff :| cutoff <= now - WINDOW && Of(f, key) == Recent(Of(h, key), cutoff);
    RecentRecent(Of(h, key), cutoff, at - WINDOW);
  }

  lemma PrunedLater(kept: seq<int>, full: seq<int>, now: int, later: int)
    requires PrunedFrom(kept, full, now) && now <= later
    ensures PrunedFrom(kept, full, later)
  {
    var cutoff :| cutoff <= now - WINDOW && kept == Recent(full, cutoff);
    assert cutoff <= later - WINDOW;
  }

  // An ascending list with a recent entry six from its end has at least six recent entries.
  lemma {:induction false} RecentTail(times: seq<int>, cutoff: int, k: nat)
    requires k <= |times| && forall i :: |times| - k <= i < |times| ==> times[i] > cutoff
    ensures |Recent(times, cutoff)| >= k
  {
    if k > 0 {
      RecentTail(times[..|times| - 1], cutoff, k - 1);
    }
  }

  lemma LoginRefines(f: Failures, h: Failures, a: Attempt, now: int)
    requires Related(f, h, now) && now <= a.checkedAt <= a.notedAt
    ensures Tried(f, a).1 == TriedOnHistory(h, a).1
    ensures Related(Tried(f, a).0, TriedOnHistory(h, a).0, a.notedAt)
  {
    hide Recent, UserKey, PrunedFrom;
    var key := UserKey(a.user);
    var cutoff := a.checkedAt - WINDOW;
    SameAnswer(f, h, key, now, a.checkedAt);
    var (f', v) := Tried(f, a);
    var (h', _) := TriedOnHistory(h, a);
    LoginTimes(h, a, now);
    NothingRecent(cutoff);
    RecentSnoc(Of(h, key), a.notedAt, cutoff);
    assert Of(f', key) == Recent(Of(h', key), cutoff);
    PrunedBy(Of(f', key), Of(h', key), cutoff, a.notedAt);
    forall k | k != key
      ensures PrunedFrom(Of(f', k), Of(h', k), a.notedAt)
    {
      assert Of(f', k) == Of(f, k) && Of(h', k) == Of(h, k) && PrunedFrom(Of(f, k), Of(h, k), now);
      PrunedLater(Of(f, k), Of(h, k), now, a.notedAt);
    }
  }

  lemma RecentSnoc(times: seq<int>, t: int, cutoff: int)
    requires t > cutoff
    ensures Recent(times + [t], cutoff) == Recent(times, cutoff) + [t]
  {
    FilterSnoc(times, t, Later(cutoff));
  }

  lemma PrunedBy(kept: seq<int>, full: seq<int>, cutoff: int, now: int)
    requires kept == Recent(full, cutoff) && cutoff <= now - WINDOW
    ensures PrunedFrom(kept, full, now)
  {}

  lemma LoginTimes(h: Failures, a: Attempt, now: int)
    requires forall key, i :: 0 <= i < |Of(h, key)| ==> Of(h, key)[i] <= now
    requires now <= a.checkedAt <= a.notedAt
    ensures var h' := TriedOnHistory(h, a).0;
      forall key, i :: 0 <= i < |Of(h', key)| ==> Of(h', key)[i] <= a.notedAt
  {
    hide Filter, TrimSpace, Recent;
    var key := UserKey(a.user);
    var h' := TriedOnHistory(h, a).0;
    assert forall k :: k != key ==> Of(h', k) == Of(h, k);
    assert Of(h', key) == [] || Of(h', key) == Of(h, key) || Of(h', key) == Of(h, key) + [a.notedAt];
  }

  lemma NothingRecent(cutoff: int)
    ensures Recent([], cutoff) == []
  {}

  lemma LoginKeepsSpacing(h: Failures, a: Attempt, now: int)
    requires Spaced(h) && Ascending(h) && now <= a.checkedAt <= a.notedAt
    requires forall key, i :: 0 <= i < |Of(h, key)| ==> Of(h, key)[i] <= now
    ensures Spaced(TriedOnHistory(h, a).0) && Ascending(TriedOnHistory(h, a).0)
  {
    hide Filter, TrimSpace, Recent;
    var key := UserKey(a.user);
    var (h', v) := TriedOnHistory(h, a);
    var times := Of(h, key);
    if v.Denied? && |times| >= LIMIT {
      var i := |times| - LIMIT;
      if times[i] > a.checkedAt - WINDOW {
        RecentTail(times, a.checkedAt - WINDOW, LIMIT);
      }
      assert times[i] <= a.checkedAt - WINDOW;
      assert forall j :: 0 <= j <= i ==> times[j] <= times[i];
    }
    assert forall k :: k != key ==> Of(h', k) == Of(h, k);
  }

  lemma LoginKeepsShort(f: Failures, a: Attempt)
    requires Short(f)
    ensures Short(Tried(f, a).0)
  {
    hide Filter, TrimSpace;
    var key := UserKey(a.user);
    assert |Of(f, key)| <= LIMIT;
    assert forall k :: k != key ==> Of(Tried(f, a).0, k) == Of(f, k);
  }

  /* ----- every run ----- */

  // When the run was over; `start` for an empty run.
  function EndOf(attempts: seq<Attempt>, start: int): int {
    if attempts == [] then start else attempts[|attempts| - 1].notedAt
  }

  lemma {:induction false} RunFacts(attempts: seq<Attempt>, start: int)
    requires InOrder(attempts)
    ensures var (f, verdicts) := Run(attempts);
      var (h, verdicts') := RunOnHistory(attempts);
      verdicts == verdicts' && Related(f, h, EndOf(attempts, start)) && Spaced(h) && Ascending(h) && Short(f)
  {
    hide Tried, TriedOnHistory, Related, Spaced, Ascending, Short;
    if attempts == [] {
      EmptyFacts(start);
    } else {
      var front, last := attempts[..|attempts| - 1], attempts[|attempts| - 1];
      assert InOrder(front) by {
        assert forall i :: 0 <= i < |front| ==> front[i] == attempts[i];
      }
      var now := EndOf(front, last.checkedAt);
      RunFacts(front, last.checkedAt);
      var (f, _) := Run(front);
      var (h, _) := RunOnHistory(front);
      LoginRefines(f, h, last, now);
      RelatedTimes(f, h, now);
      LoginKeepsSpacing(h, last, now);
      LoginKeepsShort(f, last);
    }
  }

  lemma RelatedTimes(f: Failures, h: Failures, now: int)
    requires Related(f, h, now)
    ensures forall key, i :: 0 <= i < |Of(h, key)| ==> Of(h, key)[i] <= now
  {}

  lemma EmptyFacts(now: int)
    ensures Related(map[], map[], now) && Spaced(map[]) && Ascending(map[]) && Short(map[])
  {
    NothingRecent(now - WINDOW);
    forall key: string
      ensures PrunedFrom(Of(map[], key), Of(map[], key), now)
    {
      assert Recent([], now - WINDOW) == [];
    }
  }

  /** The pruned lists answer every attempt of every run as the full history would. */
  lemma LimiterRefinesHistory(attempts: seq<Attempt>)
    requires InOrder(attempts)
    ensures Run(attempts).1 == RunOnHistory(attempts).1
  {
    RunFacts(attempts, 0);
  }

  /** No list ever holds more than six failures. */
  lemma {:induction false} ListsStayShort(attempts: seq<Attempt>, user: string)
    requires InOrder(attempts)
    ensures |Of(Run(attempts).0, UserKey(user))| <= LIMIT
  {
    RunFacts(attempts, 0);
  }

  lemma {:induction false} RunLength(attempts: seq<Attempt>)
    ensures |Run(attempts).1| == |RunOnHistory(attempts).1| == |attempts|
  {
    hide Tried, TriedOnHistory;
    if attempts != [] {
      RunLength(attempts[..|attempts| - 1]);
    }
  }

  lemma InOrderPrefix(attempts: seq<Attempt>, n: nat)
    requires InOrder(attempts) && n <= |attempts|
    ensures InOrder(attempts[..n])
  {}

  lemma {:induction false} RunPrefix(attempts: seq<Attempt>, n: nat)
    requires n <= |attempts|
    ensures |RunOnHistory(attempts).1| == |attempts| && RunOnHistory(attempts[..n]).1 == RunOnHistory(attempts).1[..n]
  {
    hide TriedOnHistory;
    RunLength(attempts);
    if n == |attempts| {
      assert attempts[..n] == attempts;
    } else {
      var front := attempts[..|attempts| - 1];
      RunPrefix(front, n);
      assert front[..n] == attempts[..n];
    }
  }

  lemma {:induction false} InOrderFar(attempts: seq<Attempt>, i: nat, j: nat)
    requires InOrder(attempts) && i <= j < |attempts|
    ensures attempts[i].notedAt <= attempts[j].notedAt
  {
    if i < j {
      InOrderFar(attempts, i, j - 1);
    }
  }

  // How often attempts on the user's key are denied from the `i`th to before the `j`th.
  function Denials(attempts: seq<Attempt>, verdicts: seq<Verdict>, key: string, i: nat, j: nat): nat
    requires i <= j <= |attempts| == |verdicts|
  {
    if i == j then 0
    else Denials(attempts, verdicts, key, i, j - 1) + if UserKey(attempts[j - 1].user) == key && verdicts[j - 1].Denied? then 1 else 0
  }

  predicate NoSuccess(attempts: seq<Attempt>, verdicts: seq<Verdict>, key: string, i: nat, j: nat)
    requires i <= j <= |attempts| == |verdicts|
  {
    forall k :: i <= k < j && UserKey(attempts[k].user) == key ==> !verdicts[k].Accepted?
  }

  // What one attempt does to the history of a user.
  lemma HistoryStep(attempts: seq<Attempt>, key: string, k: nat)
    requires k < |attempts| == |RunOnHistory(attempts).1|
    ensures var before, after := Of(RunOnHistory(attempts[..k]).0, key), Of(RunOnHistory(attempts[..k + 1]).0, key);
      var a, v := attempts[k], RunOnHistory(attempts).1[k];
      if UserKey(a.user) != key || v.Blocked? then after == before
      else if v.Denied? then after == before + [a.notedAt]
      else after == []
  {
    hide UserKey, Recent;
    assert attempts[..k + 1][..k] == attempts[..k];
    RunPrefix(attempts, k + 1);
    assert RunOnHistory(attempts).1[k] == RunOnHistory(attempts[..k + 1]).1[k];
    RunLength(attempts[..k]);
  }

  // Over a stretch without a success the history grows by one entry per denial, noted within the stretch.
  lemma {:induction false} StretchGrows(attempts: seq<Attempt>, key: string, i: nat, j: nat)
    requires InOrder(attempts) && i < j <= |attempts| && |RunOnHistory(attempts).1| == |attempts|
    requires NoSuccess(attempts, RunOnHistory(attempts).1, key, i, j)
    ensures var before, after := Of(RunOnHistory(attempts[..i]).0, key), Of(RunOnHistory(attempts[..j]).0, key);
      && |after| == |before| + Denials(attempts, RunOnHistory(attempts).1, key, i, j)
      && forall k :: |before| <= k < |after| ==> attempts[i].notedAt <= after[k] <= attempts[j - 1].notedAt
  {
    hide UserKey, Recent, InOrder, NoSuccess, RunOnHistory;
    var verdicts := RunOnHistory(attempts).1;
    HistoryStep(attempts, key, j - 1);
    assert UserKey(attempts[j - 1].user) == key ==> !verdicts[j - 1].Accepted? by { LastNoSuccess(attempts, verdicts, key, i, j); }
    InOrderFar(attempts, i, j - 1);
    if i < j - 1 {
      assert NoSuccess(attempts, verdicts, key, i, j - 1) by { LastNoSuccess(attempts, verdicts, key, i, j); }
      StretchGrows(attempts, key, i, j - 1);
      InOrderFar(attempts, j - 2, j - 1);
    }
  }

  lemma LastNoSuccess(attempts: seq<Attempt>, verdicts: seq<Verdict>, key: string, i: nat, j: nat)
    requires i < j <= |attempts| == |verdicts| && NoSuccess(attempts, verdicts, key, i, j)
    ensures UserKey(attempts[j - 1].user) == key ==> !verdicts[j - 1].Accepted?
    ensures NoSuccess(attempts, verdicts, key, i, j - 1)
  {}

  /**
   Any stretch of attempts that holds seven denials of one user and no success of that user lasts at least 15 minutes.
   */
  lemma SevenFailuresTakeLong(attempts: seq<Attempt>, user: string, i: nat, j: nat)
    requires InOrder(attempts) && i < j <= |attempts|
    ensures |Run(attempts).1| == |attempts|
    ensures var verdicts := Run(attempts).1;
      NoSuccess(attempts, verdicts, UserKey(user), i, j) && Denials(attempts, verdicts, UserKey(user), i, j) >= 7 ==>
      attempts[j - 1].notedAt - attempts[i].notedAt >= 900_000_000_000
  {
    hide InOrder, UserKey, NoSuccess, Denials;
    var key := UserKey(user);
    RunLength(attempts);
    LimiterRefinesHistory(attempts);
    var verdicts := Run(attempts).1;
    if NoSuccess(attempts, verdicts, key, i, j) && Denials(attempts, verdicts, key, i, j) > LIMIT {
      StretchGrows(attempts, key, i, j);
      InOrderPrefix(attempts, j);
      RunFacts(attempts[..j], 0);
      var before, after := Of(RunOnHistory(attempts[..i]).0, key), Of(RunOnHistory(attempts[..j]).0, key);
      assert after[|after| - 1] - after[|after| - 1 - LIMIT] >= WINDOW;
    }
  }

  // The times of a user's denied attempts before the `n`th, since that user's last success.
  function FailuresBefore(attempts: seq<Attempt>, verdicts: seq<Verdict>, key: string, n: nat): seq<int>
    requires n <= |attempts| == |verdicts|
  {
    if n == 0 then []
    else
      var before := FailuresBefore(attempts, verdicts, key, n - 1);
      if UserKey(attempts[n - 1].user) != key || verdicts[n - 1].Blocked? then before
      else if verdicts[n - 1].Denied? then before + [attempts[n - 1].notedAt]
      else []
  }

  lemma {:induction false} HistoryIsFailures(attempts: seq<Attempt>, key: string, n: nat)
    requires n <= |attempts| == |RunOnHistory(attempts).1|
    ensures Of(RunOnHistory(attempts[..n]).0, key) == FailuresBefore(attempts, RunOnHistory(attempts).1, key, n)
  {
    hide UserKey, RunOnHistory;
    if n == 0 {
      assert attempts[..0] == [];
      assert Of(RunOnHistory([]).0, key) == [] by { NoHistory(key); }
    } else {
      HistoryIsFailures(attempts, key, n - 1);
      HistoryStep(attempts, key, n - 1);
    }
  }

  lemma NoHistory(key: string)
    ensures Of(RunOnHistory([]).0, key) == []
  {}

  /**
   An attempt is turned away unseen exactly when six or more attempts of its user were denied in the 15 minutes before,
   with no success since; otherwise it succeeds exactly when the password is right.
   */
  lemma BlockedIff(attempts: seq<Attempt>, n: nat)
    requires InOrder(attempts) && n < |attempts|
    ensures |Run(attempts).1| == |attempts|
    ensures var verdict := Run(attempts).1[n];
      var failures := FailuresBefore(attempts, Run(attempts).1, UserKey(attempts[n].user), n);
      && (verdict.Blocked? <==> |Filter(failures, (t: int) => t > attempts[n].checkedAt - 900_000_000_000)| >= 6)
      && (!verdict.Blocked? ==> (verdict.Accepted? <==> attempts[n].right))
  {
    hide InOrder, UserKey, FailuresBefore, Filter, Run, RunOnHistory;
    RunLength(attempts);
    LimiterRefinesHistory(attempts);
    var key := UserKey(attempts[n].user);
    HistoryIsFailures(attempts, key, n);
    VerdictAt(attempts, n);
    var failures := FailuresBefore(attempts, Run(attempts).1, key, n);
    RecentIs(failures, attempts[n].checkedAt - WINDOW);
  }

  lemma VerdictAt(attempts: seq<Attempt>, n: nat)
    requires n < |attempts| == |RunOnHistory(attempts).1|
    ensures RunOnHistory(attempts).1[n] == TriedOnHistory(RunOnHistory(attempts[..n]).0, attempts[n]).1
  {
    hide TriedOnHistory;
    RunPrefix(attempts, n + 1);
    RunLength(attempts[..n]);
    assert attempts[..n + 1][..n] == attempts[..n];
    assert RunOnHistory(attempts).1[n] == RunOnHistory(attempts[..n + 1]).1[n];
  }

  lemma RecentIs(times: seq<int>, cutoff: int)
    ensures Recent(times, cutoff) == Filter(times, (t: int) => t > cutoff)
  {
    FilterSame(times, Later(cutoff), (t: int) => t > cutoff);
  }

  /** A name is looked up without the white space around it, and a blank one is the administrator's. */
  lemma UserKeyTrims(username: string)
    ensures TrimSpace(username) == "" ==> UserKey(username) == "admin"
    ensures UserKey(TrimSpace(username)) == UserKey(username)
  {
    TrimSpaceProperties(username);
    TrimSpaceProperties(TrimSpace(username));
  }

  /* ----- the limiter as it runs ----- */

  class Auth {
    var failures: Failures

    constructor ()
      ensures failures == map[]
    {
      failures := map[];
    }

    /** `loginBlocked`: drops the failures that are out of the window, and counts the rest. */
    method LoginBlocked(username: string, now: int) returns (blocked: bool)
      modifies this
      ensures failures == old(failures)[UserKey(username) := Recent(Of(old(failures), UserKey(username)), now - WINDOW)]
      ensures blocked <==> |Of(failures, UserKey(username))| >= LIMIT
    {
      var key := UserKey(username);
      var items := Of(failures, key);
      var next: seq<int> := [];
      for i := 0 to |items|
        invariant failures == old(failures)
        invariant next == Recent(items[..i], now - WINDOW)
      {
        assert items[..i + 1] == items[..i] + [items[i]];
        FilterSnoc(items[..i], items[i], Later(now - WINDOW));
        if items[i] > now - WINDOW {
          next := next + [items[i]];
        }
      }
      assert items[..|items|] == items;
      assert next == Recent(Of(old(failures), key), now - WINDOW);
      failures := failures[key := next];
      blocked := |next| >= LIMIT;
    }

    method RecordFailure(username: string, now: int)
      modifies this
      ensures failures == old(failures)[UserKey(username) := Of(old(failures), UserKey(username)) + [now]]
    {
      failures := failures[UserKey(username) := Of(failures, UserKey(username)) + [now]];
    }

    method ClearFailures(username: string)
      modifies this
      ensures failures == old(failures) - {UserKey(username)}
    {
      failures := failures - {UserKey(username)};
    }

    /** `Login`; a session token that cannot be drawn turns an accepted attempt away, after the failures are cleared. */
    method Login(a: Attempt, tokenDrawn: bool) returns (ok: bool)
      modifies this
      ensures failures == Tried(old(failures), a).0
      ensures ok <==> Tried(old(failures), a).1.Accepted? && tokenDrawn
    {
      hide TrimSpace, Filter;
      var blocked := LoginBlocked(a.user, a.checkedAt);
      if blocked {
        return false;
      }
      if !a.right {
        RecordFailure(a.user, a.notedAt);
        return false;
      }
      ClearFailures(a.user);
      return tokenDrawn;
    }
  }
}
