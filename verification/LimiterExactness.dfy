/**
 * Exactly when the limit holds for all admissions of an address, and runs that reach the bound on
 * its excess, for every limiter.
 */
module LimiterExactness {
  import opened Sequences
  import opened LimiterModel
  import opened LimiterRuns
  import opened LimiterWindows
  import opened LimiterEviction
  import opened LimiterBounds

  /** No more than the quota of admissions of `ip` were recorded in the window that starts at `from`. */
  ghost predicate WithinQuota(lim: Limits, calls: seq<Call>, ip: string, from: int) {
    CountIn(AllAdmitted(lim, calls, ip), from, from + lim.window) <= Quota(lim)
  }

  /** The limit holds for every address and every window, in every run in which only `ips` call. */
  ghost predicate LimitHolds(lim: Limits, ips: set<string>) {
    forall calls, ip, from :: Ticking(calls) && OneClock(calls) && CallersWithin(calls, ips)
      ==> WithinQuota(lim, calls, ip, from)
  }

  /** Nothing lies in an interval that ends before it begins. */
  lemma {:induction false} CountInNothing(log: seq<Admission>, from: int, to: int)
    requires to < from
    ensures CountIn(log, from, to) == 0
  {
    if log != [] {
      CountInNothing(log[..|log| - 1], from, to);
    }
  }

  lemma LimitHoldsForFewCallers(lim: Limits, calls: seq<Call>, ips: set<string>, ip: string, from: int)
    requires Ticking(calls) && OneClock(calls) && CallersWithin(calls, ips)
    requires lim.maxRequests <= 0 || lim.window < 0 || |ips| <= Capacity(lim)
    ensures WithinQuota(lim, calls, ip, from)
  {
    hide Ticking, OneClock, CallersWithin, AllAdmitted, Admitted, NeverEvicted;
    if lim.maxRequests <= 0 {
      NoLimitNoAdmissions(lim, calls, ip);
      CountInSuffix([], 0, from, from + lim.window);
    } else if lim.window < 0 {
      CountInNothing(AllAdmitted(lim, calls, ip), from, from + lim.window);
    } else {
      FewCallersAreNeverEvicted(lim, calls, ips, ip);
      LogHasAllAdmissions(lim, calls, ip);
      WindowHoldsAtMostMax(lim, calls, ip, from);
    }
  }

  // ---------- runs that reach the bound ----------

  /** The run `first`, and then one call of each of `others`, at time zero. */
  function ThenEach(first: seq<Call>, others: seq<string>): seq<Call> {
    if others == [] then first
    else ThenEach(first, others[..|others| - 1]) + [AllowCall(others[|others| - 1], 0, 0)]
  }

  /** The run `first`, and then `k` calls of `ip`, at time zero. */
  function ThenAgain(first: seq<Call>, ip: string, k: nat): seq<Call> {
    if k == 0 then first else ThenAgain(first, ip, k - 1) + [AllowCall(ip, 0, 0)]
  }

  /** `a` uses its quota up; then, `n` times over, the others push it out and it comes back for another. */
  function Rounds(lim: Limits, a: string, others: seq<string>, n: nat): seq<Call> {
    ThenAgain(if n == 0 then [] else ThenEach(Rounds(lim, a, others, n - 1), others), a, Quota(lim))
  }

  ghost predicate AtZero(calls: seq<Call>) {
    forall i :: 0 <= i < |calls| ==> calls[i].AllowCall? && calls[i].recorded == 0 && calls[i].pruning == 0
  }

  lemma {:induction false} AtZeroTicks(calls: seq<Call>)
    requires AtZero(calls)
    ensures Ticking(calls) && OneClock(calls)
  {
    if calls != [] {
      AtZeroTicks(calls[..|calls| - 1]);
    }
  }

  lemma {:induction false} ThenAgainAtZero(first: seq<Call>, ip: string, k: nat, ips: set<string>)
    requires AtZero(first) && CallersWithin(first, ips) && ip in ips
    ensures AtZero(ThenAgain(first, ip, k)) && CallersWithin(ThenAgain(first, ip, k), ips)
  {
    if k > 0 {
      ThenAgainAtZero(first, ip, k - 1, ips);
    }
  }

  lemma {:induction false} ThenEachAtZero(first: seq<Call>, others: seq<string>, ips: set<string>)
    requires AtZero(first) && CallersWithin(first, ips) && forall i :: 0 <= i < |others| ==> others[i] in ips
    ensures AtZero(ThenEach(first, others)) && CallersWithin(ThenEach(first, others), ips)
  {
    if others != [] {
      ThenEachAtZero(first, others[..|others| - 1], ips);
    }
  }

  /** A call is allowed while fewer than `maxRequests` times are recorded, and records one time. */
  lemma OwnCallIsAllowed(lim: Limits, t: Table, c: Call)
    requires DistinctIps(t) && c.AllowCall? && |StampsOf(t, c.ip)| < lim.maxRequests
    ensures Allow(lim, t, c.ip, c.recorded, c.pruning).1
    ensures |StampsOf(StepTable(lim, t, c), c.ip)| <= |StampsOf(t, c.ip)| + 1
  {
    hide Allow, Prune, StepTable, Evicts, StampsOf;
    OwnCallKeepsRecord(lim, t, c);
    StampsAfter(lim, t, c, c.ip);
  }

  /** An address that is not tracked is admitted until its quota is used up. */
  lemma {:induction false} AgainIsAdmitted(lim: Limits, first: seq<Call>, ip: string, k: nat)
    requires lim.maxRequests > 0 && k <= lim.maxRequests && !Tracked(Run(lim, first), ip)
    ensures |AllAdmitted(lim, ThenAgain(first, ip, k), ip)| == |AllAdmitted(lim, first, ip)| + k
    ensures |StampsOf(Run(lim, ThenAgain(first, ip, k)), ip)| <= k
  {
    hide AllAdmitted, Run, Allow, StepTable, StampsOf, Decision, Ordered, DistinctIps;
    if k == 0 {
      UntrackedHasNoTimes(Run(lim, first), ip);
    } else {
      var before, c := ThenAgain(first, ip, k - 1), AllowCall(ip, 0, 0);
      AgainIsAdmitted(lim, first, ip, k - 1);
      RunIsOrdered(lim, before);
      OwnCallIsAllowed(lim, Run(lim, before), c);
      RunAfter(lim, before, c);
      AllAdmittedAfter(lim, before, c, ip);
    }
  }

  lemma UntrackedHasNoTimes(t: Table, ip: string)
    ensures !Tracked(t, ip) ==> StampsOf(t, ip) == []
  {}

  lemma {:induction false} AgainAddsNoOthers(first: seq<Call>, ip: string, k: nat, from: int, to: int)
    ensures OthersIn(ThenAgain(first, ip, k), ip, from, to) == OthersIn(first, ip, from, to)
  {
    if k > 0 {
      AgainAddsNoOthers(first, ip, k - 1, from, to);
      OthersInAfter(ThenAgain(first, ip, k - 1), AllowCall(ip, 0, 0), ip, from, to);
    }
  }

  lemma {:induction false} OthersAddOnlyCalls(lim: Limits, first: seq<Call>, others: seq<string>, ip: string, to: nat)
    requires ip !in others
    ensures AllAdmitted(lim, ThenEach(first, others), ip) == AllAdmitted(lim, first, ip)
    ensures OthersIn(ThenEach(first, others), ip, 0, to) == OthersIn(first, ip, 0, to) + |others|
  {
    if others != [] {
      var front, last := others[..|others| - 1], others[|others| - 1];
      OthersAddOnlyCalls(lim, first, front, ip, to);
      AllAdmittedAfter(lim, ThenEach(first, front), AllowCall(last, 0, 0), ip);
      OthersInAfter(ThenEach(first, front), AllowCall(last, 0, 0), ip, 0, to);
    }
  }

  /** A caller that is not among the `n` latest goes in front of them. */
  lemma LatestCallersAfter(calls: seq<Call>, ip: string, n: nat)
    requires n <= |LatestCallers(calls)| && forall j :: 0 <= j < n ==> LatestCallers(calls)[j] != ip
    ensures var callers, callers' := LatestCallers(calls), LatestCallers(calls + [AllowCall(ip, 0, 0)]);
      && |callers'| > n && callers'[0] == ip
      && forall j :: 0 <= j < n ==> callers'[j + 1] == callers[j]
  {
    hide Position, ToFront;
    assert (calls + [AllowCall(ip, 0, 0)])[..|calls|] == calls;
    var callers := LatestCallers(calls);
    var i := Position(callers, ip);
    if i < |callers| {
      ToFrontProperties(callers, i);
    }
  }

  /** The others end up as the latest callers, the last of them first. */
  lemma {:induction false} OthersAreLatest(first: seq<Call>, others: seq<string>)
    requires Distinct(others)
    ensures var callers := LatestCallers(ThenEach(first, others));
      && |callers| >= |others|
      && forall j :: 0 <= j < |others| ==> callers[j] == others[|others| - 1 - j]
  {
    if others != [] {
      hide LatestCallers;
      var front, last := others[..|others| - 1], others[|others| - 1];
      OthersAreLatest(first, front);
      var callers := LatestCallers(ThenEach(first, front));
      forall j | 0 <= j < |front| ensures callers[j] == front[|front| - 1 - j] == others[|front| - 1 - j] != last {}
      LatestCallersAfter(ThenEach(first, front), last, |front|);
      var callers' := LatestCallers(ThenEach(first, others));
      forall j | 0 <= j < |others| ensures callers'[j] == others[|others| - 1 - j] {
        if j > 0 {
          assert callers'[(j - 1) + 1] == callers[j - 1];
        }
      }
    }
  }

  /** As many others as fit push an address out of the table. */
  lemma PushedOut(lim: Limits, first: seq<Call>, others: seq<string>, ip: string)
    requires lim.maxRequests > 0 && AtZero(first)
    requires Distinct(others) && |others| == Capacity(lim) && ip !in others
    ensures !Tracked(Run(lim, ThenEach(first, others)), ip)
  {
    hide LatestCallers, Run;
    var calls := ThenEach(first, others);
    var t := Run(lim, calls);
    ThenEachAtZero(first, others, AllCallers(first) + (set x | x in others));
    TracksLatestCallers(lim, calls);
    OthersAreLatest(first, others);
    assert |t| == |IpSeq(t)|;
    forall i | 0 <= i < |t| ensures t[i].ip != ip {
      assert t[i].ip == IpSeq(t)[i] == LatestCallers(calls)[i] == others[|others| - 1 - i];
    }
  }

  ghost function AllCallers(calls: seq<Call>): set<string> {
    set c | c in calls && c.AllowCall? :: c.ip
  }

  lemma {:induction false} AtZeroLog(lim: Limits, calls: seq<Call>, ip: string)
    requires AtZero(calls)
    ensures forall i :: 0 <= i < |AllAdmitted(lim, calls, ip)| ==> AllAdmitted(lim, calls, ip)[i].recorded == 0
  {
    if calls != [] {
      AtZeroLog(lim, calls[..|calls| - 1], ip);
    }
  }

  lemma {:induction false} CountInAll(log: seq<Admission>, from: int, to: int)
    requires forall i :: 0 <= i < |log| ==> from <= log[i].recorded <= to
    ensures CountIn(log, from, to) == |log|
  {
    if log != [] {
      CountInAll(log[..|log| - 1], from, to);
    }
  }

  lemma {:induction false} RoundsAtZero(lim: Limits, a: string, others: seq<string>, n: nat, ips: set<string>)
    requires a in ips && forall i :: 0 <= i < |others| ==> others[i] in ips
    ensures AtZero(Rounds(lim, a, others, n)) && CallersWithin(Rounds(lim, a, others, n), ips)
  {
    if n == 0 {
      ThenAgainAtZero([], a, Quota(lim), ips);
    } else {
      RoundsAtZero(lim, a, others, n - 1, ips);
      ThenEachAtZero(Rounds(lim, a, others, n - 1), others, ips);
      ThenAgainAtZero(ThenEach(Rounds(lim, a, others, n - 1), others), a, Quota(lim), ips);
    }
  }

  lemma {:induction false} RoundsAdmit(lim: Limits, a: string, others: seq<string>, n: nat)
    requires lim.maxRequests > 0 && lim.window >= 0
    requires Distinct(others) && |others| == Capacity(lim) && a !in others
    ensures |AllAdmitted(lim, Rounds(lim, a, others, n), a)| == Quota(lim) * (1 + n)
    ensures OthersIn(Rounds(lim, a, others, n), a, 0, lim.window) == Capacity(lim) * n
  {
    hide AllAdmitted, Run, OthersIn, AtZero, CallersWithin, Capacity, ThenAgain, ThenEach;
    if n == 0 {
      EmptyRun(lim, a);
      AgainIsAdmitted(lim, [], a, Quota(lim));
      AgainAddsNoOthers([], a, Quota(lim), 0, lim.window);
    } else {
      var before := Rounds(lim, a, others, n - 1);
      var out := ThenEach(before, others);
      RoundsAdmit(lim, a, others, n - 1);
      RoundsAtZero(lim, a, others, n - 1, {a} + (set x | x in others));
      PushedOut(lim, before, others, a);
      OthersAddOnlyCalls(lim, before, others, a, lim.window);
      AgainIsAdmitted(lim, out, a, Quota(lim));
      AgainAddsNoOthers(out, a, Quota(lim), 0, lim.window);
      assert Quota(lim) * (1 + n) == Quota(lim) * (1 + (n - 1)) + Quota(lim);
      assert Capacity(lim) * n == Capacity(lim) * (n - 1) + Capacity(lim);
    }
  }

  lemma EmptyRun(lim: Limits, ip: string)
    ensures !Tracked(Run(lim, []), ip) && AllAdmitted(lim, [], ip) == [] && OthersIn([], ip, 0, lim.window) == 0
  {}

  /**
   * The bound on the excess is reached, by every limiter, for every address and any number of
   * evictions: `n` times `max(1, maxRecords)` calls of others buy `n` more quotas in one window.
   */
  lemma ExcessIsReached(lim: Limits, a: string, others: seq<string>, n: nat)
    requires lim.maxRequests > 0 && lim.window >= 0
    requires Distinct(others) && |others| == Capacity(lim) && a !in others
    ensures var calls := Rounds(lim, a, others, n);
      && Ticking(calls) && OneClock(calls) && CallersWithin(calls, {a} + (set x | x in others))
      && OthersIn(calls, a, 0, lim.window) == Capacity(lim) * n
      && CountIn(AllAdmitted(lim, calls, a), 0, lim.window) == Quota(lim) * (1 + n)
  {
    hide AllAdmitted, CountIn, Rounds, OthersIn, Ticking, OneClock, Capacity, AtZero, CallersWithin;
    var calls := Rounds(lim, a, others, n);
    RoundsAdmit(lim, a, others, n);
    RoundsAtZero(lim, a, others, n, {a} + (set x | x in others));
    AtZeroTicks(calls);
    AtZeroLog(lim, calls, a);
    CountInAll(AllAdmitted(lim, calls, a), 0, lim.window);
  }

  lemma {:induction false} PickDistinct(s: set<string>, n: nat) returns (picked: seq<string>)
    requires n <= |s|
    ensures |picked| == n && Distinct(picked) && forall x :: x in picked ==> x in s
  {
    if n == 0 {
      picked := [];
    } else {
      var x :| x in s;
      var rest := PickDistinct(s - {x}, n - 1);
      picked := [x] + rest;
    }
  }

  /**
   * Exactly when the limit holds for all admissions: it has to admit nothing, or have a window
   * that holds nothing, or be able to track every address that may call.
   */
  lemma LimitHoldsIff(lim: Limits, ips: set<string>)
    ensures LimitHolds(lim, ips) <==> lim.maxRequests <= 0 || lim.window < 0 || |ips| <= Capacity(lim)
  {
    hide Ticking, OneClock, WithinQuota, CallersWithin, Rounds, Capacity;
    if lim.maxRequests <= 0 || lim.window < 0 || |ips| <= Capacity(lim) {
      forall calls, ip, from | Ticking(calls) && OneClock(calls) && CallersWithin(calls, ips)
        ensures WithinQuota(lim, calls, ip, from)
      {
        LimitHoldsForFewCallers(lim, calls, ips, ip, from);
      }
    } else {
      var a :| a in ips;
      var others := PickDistinct(ips - {a}, Capacity(lim));
      OneRoundBreaksLimit(lim, a, others, ips);
    }
  }

  lemma OneRoundBreaksLimit(lim: Limits, a: string, others: seq<string>, ips: set<string>)
    requires lim.maxRequests > 0 && lim.window >= 0
    requires Distinct(others) && |others| == Capacity(lim) && a !in others
    requires a in ips && forall x :: x in others ==> x in ips
    ensures var calls := Rounds(lim, a, others, 1);
      Ticking(calls) && OneClock(calls) && CallersWithin(calls, ips) && !WithinQuota(lim, calls, a, 0)
  {
    hide Rounds, AllAdmitted, Ticking, OneClock, CountIn, Capacity;
    ExcessIsReached(lim, a, others, 1);
  }

  const TINY := Limits(1, 60, 1)

  /** The smallest such run, as an example: an evicted address is admitted again at once. */
  lemma EvictionLosesTheWindow()
    ensures
      var calls := [AllowCall("a", 0, 0), AllowCall("b", 0, 0), AllowCall("a", 0, 0)];
      CountIn(AllAdmitted(TINY, calls, "a"), 0, TINY.window) == Quota(TINY) + 1
  {
    var calls := [AllowCall("a", 0, 0), AllowCall("b", 0, 0), AllowCall("a", 0, 0)];
    var a, b := Record("a", [0]), Record("b", [0]);
    assert calls[..2] == [calls[0], calls[1]] && calls[..2][..1] == [calls[0]] && [calls[0]][..0] == [];
    assert Run(TINY, []) == [] && AllAdmitted(TINY, [], "a") == [];
    assert Run(TINY, [calls[0]]) == [a];
    assert AllAdmitted(TINY, [calls[0]], "a") == [Admission(0, 0)];
    assert a.ip != "b" by { assert "a"[0] != "b"[0]; }
    assert IndexOf([a], "b") == 1 && EvictIfFull(TINY, [a]) == [];
    assert Run(TINY, calls[..2]) == [b];
    assert IndexOf([b], "a") == 1;
    assert AllAdmitted(TINY, calls[..2], "a") == [Admission(0, 0)];
    var log := AllAdmitted(TINY, calls, "a");
    assert log == [Admission(0, 0), Admission(0, 0)];
    assert log[..1] == [Admission(0, 0)] && log[..1][..0] == [];
    assert CountIn(log[..1], 0, TINY.window) == CountIn([], 0, TINY.window) + 1 == 1;
  }
}
