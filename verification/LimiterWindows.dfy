/** The guarantees of the sliding window, over whole runs. */
module LimiterWindows {
  import opened LimiterModel
  import opened LimiterRuns

  lemma {:induction false} NoLimitNoRecords(lim: Limits, calls: seq<Call>, ip: string)
    requires lim.maxRequests <= 0
    ensures Run(lim, calls) == [] && Admitted(lim, calls, ip) == []
  {
    if calls != [] {
      NoLimitNoRecords(lim, calls[..|calls| - 1], ip);
    }
  }

  // ---------- safety ----------

  /**
   * Between evictions, an admission is decided more than a window after the one `maxRequests`
   * places before it was recorded, for any mix of calls on any addresses.
   */
  lemma SlidingWindow(lim: Limits, calls: seq<Call>, ip: string)
    requires Ticking(calls)
    ensures var log := Admitted(lim, calls, ip);
      forall i, j :: 0 <= i < |log| && 0 <= j < |log| && i + lim.maxRequests <= j ==>
        log[j].decided - log[i].recorded > lim.window
  {
    if lim.maxRequests <= 0 {
      NoLimitNoRecords(lim, calls, ip);
    } else if calls != [] {
      RunKeepsInvariant(lim, calls, ip);
    }
  }

  /** Each `is_allowed` saw one time only. */
  ghost predicate OneClock(calls: seq<Call>) {
    forall i :: 0 <= i < |calls| && calls[i].AllowCall? ==> calls[i].recorded == calls[i].pruning
  }

  /** Admissions recorded between `from` and `to`, both included. */
  function CountIn(log: seq<Admission>, from: int, to: int): nat {
    if log == [] then 0
    else CountIn(log[..|log| - 1], from, to) + if from <= log[|log| - 1].recorded <= to then 1 else 0
  }

  /** Any two admissions `n` or more places apart are more than a window apart. */
  ghost predicate Spaced(log: seq<Admission>, n: int, window: int) {
    && (forall i, j :: 0 <= i < j < |log| ==> log[i].recorded <= log[j].recorded)
    && (forall i, j :: 0 <= i < |log| && 0 <= j < |log| && i + n <= j ==> log[j].recorded - log[i].recorded > window)
  }

  lemma {:induction false} OneClockLog(lim: Limits, calls: seq<Call>, ip: string)
    requires OneClock(calls)
    ensures forall i :: 0 <= i < |Admitted(lim, calls, ip)| ==>
      Admitted(lim, calls, ip)[i].recorded == Admitted(lim, calls, ip)[i].decided
  {
    if calls != [] {
      OneClockLog(lim, calls[..|calls| - 1], ip);
    }
  }

  lemma AdmissionsAreSpaced(lim: Limits, calls: seq<Call>, ip: string)
    requires Ticking(calls) && OneClock(calls)
    ensures Spaced(Admitted(lim, calls, ip), lim.maxRequests, lim.window)
  {
    SlidingWindow(lim, calls, ip);
    OneClockLog(lim, calls, ip);
    if lim.maxRequests <= 0 {
      NoLimitNoRecords(lim, calls, ip);
    } else if calls != [] {
      RunKeepsInvariant(lim, calls, ip);
    }
  }

  lemma {:induction false} CountInSuffix(log: seq<Admission>, k: nat, from: int, to: int)
    requires k <= |log| && forall i :: 0 <= i < k ==> log[i].recorded < from
    ensures CountIn(log, from, to) <= |log| - k
  {
    if log != [] {
      var n := |log| - 1;
      CountInSuffix(log[..n], if k <= n then k else n, from, to);
    }
  }

  lemma {:induction false} SpacedCount(log: seq<Admission>, n: nat, window: int, from: int)
    requires Spaced(log, n, window)
    ensures CountIn(log, from, from + window) <= n
  {
    if log != [] {
      var front, last := log[..|log| - 1], log[|log| - 1];
      if from <= last.recorded <= from + window && n < |log| {
        CountInSuffix(log, |log| - n, from, from + window);
      } else if n < |log| {
        SpacedCount(front, n, window, from);
      } else {
        CountInSuffix(log, 0, from, from + window);
      }
    }
  }

  /** A limit of zero or less admits nothing. */
  function Quota(lim: Limits): nat {
    if lim.maxRequests > 0 then lim.maxRequests else 0
  }

  /** With one clock, no closed interval as long as the window holds more than `maxRequests` admissions. */
  lemma WindowHoldsAtMostMax(lim: Limits, calls: seq<Call>, ip: string, from: int)
    requires Ticking(calls) && OneClock(calls)
    ensures CountIn(Admitted(lim, calls, ip), from, from + lim.window) <= Quota(lim)
  {
    hide Spaced, Admitted, Ticking;
    if lim.maxRequests <= 0 {
      NoLimitNoRecords(lim, calls, ip);
    } else {
      AdmissionsAreSpaced(lim, calls, ip);
      SpacedCount(Admitted(lim, calls, ip), lim.maxRequests, lim.window, from);
    }
  }

  lemma {:induction false} CountInSplits(log: seq<Admission>, from: int, mid: int, to: int)
    requires from <= mid <= to
    ensures CountIn(log, from, to) <= CountIn(log, from, mid) + CountIn(log, mid, to)
    ensures CountIn(log, from, mid) <= CountIn(log, from, to)
  {
    if log != [] {
      CountInSplits(log[..|log| - 1], from, mid, to);
    }
  }

  /** An interval shorter than `q + 1` windows is covered by `q + 1` of them. */
  lemma {:induction false} SpacedCountLong(log: seq<Admission>, n: nat, window: int, from: int, length: nat, q: nat)
    requires Spaced(log, n, window) && window > 0 && length < q * window + window
    ensures CountIn(log, from, from + length) <= n * q + n
    decreases q
  {
    SpacedCount(log, n, window, from);
    if length < window {
      CountInSplits(log, from, from + length, from + window);
    } else {
      assert q > 0 && q * window == (q - 1) * window + window && n * q == n * (q - 1) + n;
      CountInSplits(log, from, from + window, from + length);
      SpacedCountLong(log, n, window, from + window, length - window, q - 1);
    }
  }

  /** The long-run rate: one quota for every window begun. */
  lemma LongRunRate(lim: Limits, calls: seq<Call>, ip: string, from: int, length: nat)
    requires Ticking(calls) && OneClock(calls) && lim.window > 0
    ensures CountIn(Admitted(lim, calls, ip), from, from + length) <= Quota(lim) * (length / lim.window + 1)
  {
    hide CountIn, Admitted;
    var q := WindowsBegun(length, lim.window, Quota(lim));
    if lim.maxRequests <= 0 {
      NoLimitNoRecords(lim, calls, ip);
      CountInSuffix(Admitted(lim, calls, ip), 0, from, from + length);
    } else {
      AdmissionsAreSpaced(lim, calls, ip);
      SpacedCountLong(Admitted(lim, calls, ip), lim.maxRequests, lim.window, from, length, q - 1);
    }
  }

  lemma WindowsBegun(length: nat, w: int, n: nat) returns (q: nat)
    requires w > 0
    ensures q == length / w + 1 && q > 0 && length < (q - 1) * w + w && n * q == n * (q - 1) + n >= 0
  {
    q := length / w + 1;
    assert length == w * (length / w) + length % w;
  }

  // ---------- the answers, from the log ----------

  lemma {:induction false} CountFreshSuffix(log: seq<Admission>, d: nat, now: int, window: int)
    requires d <= |log|
    requires forall i :: 0 <= i < d ==> now - log[i].recorded > window
    requires forall i :: d <= i < |log| ==> now - log[i].recorded <= window
    ensures CountFresh(log, now, window) == |log| - d
  {
    if log != [] {
      CountFreshSuffix(log[..|log| - 1], if d < |log| then d else d - 1, now, window);
    }
  }

  /** Pruning only the front of the queue counts the same admissions as filtering the whole log. */
  lemma PruneCountsFresh(lim: Limits, log: seq<Admission>, stamps: seq<int>, last: int, now: int)
    requires last <= now && LogInvariant(lim, log, stamps, last)
    ensures |Prune(stamps, now, lim.window)| == CountFresh(log, now, lim.window)
  {
    hide Prune, CountFresh;
    var kept := Prune(stamps, now, lim.window);
    InvariantAfterPrune(lim, log, stamps, last, now);
    var d := |log| - |kept|;
    if d < |log| {
      assert kept[0] == log[d].recorded;
    }
    CountFreshSuffix(log, d, now, lim.window);
  }

  lemma RunCountsFresh(lim: Limits, calls: seq<Call>, ip: string, now: int)
    requires lim.maxRequests > 0 && Ticking(calls) && (calls != [] ==> End(calls[|calls| - 1]) <= now)
    ensures DistinctIps(Run(lim, calls))
    ensures |Prune(StampsOf(Run(lim, calls), ip), now, lim.window)| == CountFresh(Admitted(lim, calls, ip), now, lim.window)
  {
    if calls != [] {
      RunKeepsInvariant(lim, calls, ip);
      PruneCountsFresh(lim, Admitted(lim, calls, ip), StampsOf(Run(lim, calls), ip), End(calls[|calls| - 1]), now);
    }
  }

  /** `is_allowed` is decided by the number of logged admissions still in the window. */
  lemma AllowCountsLog(lim: Limits, calls: seq<Call>, c: Call)
    requires Ticking(calls) && Follows(calls, c) && c.AllowCall?
    ensures var t := Run(lim, calls);
      Allow(lim, t, c.ip, c.recorded, c.pruning).1 <==>
      lim.maxRequests > 0 && CountFresh(Admitted(lim, calls, c.ip), Decision(t, c), lim.window) < lim.maxRequests
  {
    if lim.maxRequests > 0 {
      RunCountsFresh(lim, calls, c.ip, Decision(Run(lim, calls), c));
    }
  }

  /** `get_remaining` is what that number leaves of the limit; a negative limit is returned as it is. */
  lemma RemainingCountsLog(lim: Limits, calls: seq<Call>, ip: string, now: int)
    requires Ticking(calls) && Follows(calls, RemainingCall(ip, now))
    ensures var live := CountFresh(Admitted(lim, calls, ip), now, lim.window);
      Remaining(lim, Run(lim, calls), ip, now).1 ==
      if lim.maxRequests < 0 then lim.maxRequests else if lim.maxRequests > live then lim.maxRequests - live else 0
  {
    if lim.maxRequests > 0 {
      RunCountsFresh(lim, calls, ip, now);
    } else {
      NoLimitNoRecords(lim, calls, ip);
    }
  }

  // ---------- the reference limiter ----------

  /**
   * A limiter that keeps every admission of an address for ever and looks at nothing else:
   * not at other addresses, not at `get_remaining` or `cleanup`, not at denied calls.
   */
  function ReferenceLog(lim: Limits, calls: seq<Call>, ip: string): seq<Admission> {
    if calls == [] then []
    else
      var log, c := ReferenceLog(lim, calls[..|calls| - 1], ip), calls[|calls| - 1];
      if c.AllowCall? && c.ip == ip && ReferenceAllows(lim, log, c.recorded) then
        log + [Admission(c.recorded, c.recorded)]
      else log
  }

  predicate ReferenceAllows(lim: Limits, log: seq<Admission>, now: int) {
    lim.maxRequests > 0 && CountFresh(log, now, lim.window) < lim.maxRequests
  }

  /** `ip` never lost its record to another address. */
  ghost predicate NeverEvicted(lim: Limits, calls: seq<Call>, ip: string) {
    calls == [] || (
      && NeverEvicted(lim, calls[..|calls| - 1], ip)
      && !Evicts(lim, Run(lim, calls[..|calls| - 1]), calls[|calls| - 1], ip))
  }

  lemma {:induction false} LogIsReferenceLog(lim: Limits, calls: seq<Call>, ip: string)
    requires Ticking(calls) && OneClock(calls) && NeverEvicted(lim, calls, ip)
    ensures Admitted(lim, calls, ip) == ReferenceLog(lim, calls, ip)
  {
    if calls != [] {
      var before, c := calls[..|calls| - 1], calls[|calls| - 1];
      LogIsReferenceLog(lim, before, ip);
      if c.AllowCall? && c.ip == ip {
        AllowCountsLog(lim, before, c);
      }
    }
  }

  /** The limiter refines the reference: equal answers to every call, as long as the address keeps its record. */
  lemma RefinesReference(lim: Limits, calls: seq<Call>, ip: string, now: int)
    requires Ticking(calls) && OneClock(calls) && NeverEvicted(lim, calls, ip)
    requires Follows(calls, RemainingCall(ip, now))
    ensures
      var t, log := Run(lim, calls), ReferenceLog(lim, calls, ip);
      var live := CountFresh(log, now, lim.window);
      && (Allow(lim, t, ip, now, now).1 <==> ReferenceAllows(lim, log, now))
      && (lim.maxRequests >= 0 ==>
            Remaining(lim, t, ip, now).1 == if lim.maxRequests > live then lim.maxRequests - live else 0)
  {
    LogIsReferenceLog(lim, calls, ip);
    AllowCountsLog(lim, calls, AllowCall(ip, now, now));
    RemainingCountsLog(lim, calls, ip, now);
  }

  // ---------- get_remaining is exact ----------

  /** The table after `k` calls of `is_allowed` for `ip`, all at the instant `now`. */
  function Burst(lim: Limits, t: Table, ip: string, now: int, k: nat): Table {
    if k == 0 then t else Allow(lim, Burst(lim, t, ip, now, k - 1), ip, now, now).0
  }

  /** `get_remaining`, and then the burst, as a continuation of the run. */
  function BurstCalls(calls: seq<Call>, ip: string, now: int, k: nat): seq<Call> {
    if k == 0 then calls + [RemainingCall(ip, now)] else BurstCalls(calls, ip, now, k - 1) + [AllowCall(ip, now, now)]
  }

  lemma RunAfter(lim: Limits, calls: seq<Call>, c: Call)
    ensures Run(lim, calls + [c]) == StepTable(lim, Run(lim, calls), c)
    ensures Ticking(calls + [c]) <==> Ticking(calls) && Follows(calls, c)
  {
    assert (calls + [c])[..|calls|] == calls;
  }

  lemma {:induction false} BurstIsRun(lim: Limits, calls: seq<Call>, ip: string, now: int, k: nat)
    requires Ticking(calls) && Follows(calls, RemainingCall(ip, now))
    ensures var more := BurstCalls(calls, ip, now, k);
      && Ticking(more) && Follows(more, AllowCall(ip, now, now))
      && Run(lim, more) == Burst(lim, Remaining(lim, Run(lim, calls), ip, now).0, ip, now, k)
  {
    hide Run, Allow, Remaining;
    if k == 0 {
      RunAfter(lim, calls, RemainingCall(ip, now));
    } else {
      BurstIsRun(lim, calls, ip, now, k - 1);
      RunAfter(lim, BurstCalls(calls, ip, now, k - 1), AllowCall(ip, now, now));
    }
  }

  /** An address never loses its record by a call of its own. */
  lemma OwnCallKeepsRecord(lim: Limits, t: Table, c: Call)
    requires DistinctIps(t) && lim.maxRequests > 0 && c.AllowCall?
    ensures !Evicts(lim, t, c, c.ip)
  {
    AllowKeeps(lim, t, c);
    FoundByIp(StepTable(lim, t, c), StepTable(lim, t, c)[0]);
  }

  lemma AdmittedAfter(lim: Limits, calls: seq<Call>, c: Call, ip: string)
    ensures Admitted(lim, calls + [c], ip) == LogAfter(lim, Run(lim, calls), Admitted(lim, calls, ip), c, ip)
  {
    assert (calls + [c])[..|calls|] == calls;
  }

  lemma CountFreshAfter(log: seq<Admission>, a: Admission, now: int, window: int)
    ensures CountFresh(log + [a], now, window) == CountFresh(log, now, window) + if now - a.recorded <= window then 1 else 0
  {
    assert (log + [a])[..|log|] == log;
  }

  /** One more call of the burst adds one live admission, if it is allowed and the window is not negative. */
  lemma CountAfterAllow(lim: Limits, calls: seq<Call>, ip: string, now: int)
    requires lim.maxRequests > 0 && Ticking(calls) && Follows(calls, AllowCall(ip, now, now))
    ensures var live := CountFresh(Admitted(lim, calls, ip), now, lim.window);
      CountFresh(Admitted(lim, calls + [AllowCall(ip, now, now)], ip), now, lim.window)
      == live + if live < lim.maxRequests && lim.window >= 0 then 1 else 0
  {
    hide Run, Allow, Admitted, CountFresh, Evicts;
    var c := AllowCall(ip, now, now);
    RunCountsFresh(lim, calls, ip, now);
    OwnCallKeepsRecord(lim, Run(lim, calls), c);
    AllowCountsLog(lim, calls, c);
    AdmittedAfter(lim, calls, c, ip);
    CountFreshAfter(Admitted(lim, calls, ip), Admission(now, now), now, lim.window);
  }

  lemma RemainingKeepsLog(lim: Limits, calls: seq<Call>, ip: string, now: int)
    ensures Admitted(lim, calls + [RemainingCall(ip, now)], ip) == Admitted(lim, calls, ip)
  {
    hide Run, Admitted;
    AdmittedAfter(lim, calls, RemainingCall(ip, now), ip);
  }

  lemma {:induction false} CountAfterBurst(lim: Limits, calls: seq<Call>, ip: string, now: int, k: nat)
    requires lim.maxRequests > 0 && Ticking(calls) && Follows(calls, RemainingCall(ip, now))
    requires CountFresh(Admitted(lim, calls, ip), now, lim.window) + k <= lim.maxRequests || k == 0
    ensures CountFresh(Admitted(lim, BurstCalls(calls, ip, now, k), ip), now, lim.window)
      == CountFresh(Admitted(lim, calls, ip), now, lim.window) + if lim.window >= 0 then k else 0
  {
    hide Run, Admitted, CountFresh, Evicts, Ticking, Allow;
    if k == 0 {
      RemainingKeepsLog(lim, calls, ip, now);
    } else {
      CountAfterBurst(lim, calls, ip, now, k - 1);
      BurstIsRun(lim, calls, ip, now, k - 1);
      CountAfterAllow(lim, BurstCalls(calls, ip, now, k - 1), ip, now);
    }
  }

  lemma NothingLogged(lim: Limits, ip: string)
    ensures Admitted(lim, [], ip) == []
  {}

  /** With a negative window nothing is ever live. */
  lemma NegativeWindowCountsNothing(lim: Limits, calls: seq<Call>, ip: string, now: int)
    requires lim.maxRequests > 0 && lim.window < 0
    requires Ticking(calls) && Follows(calls, RemainingCall(ip, now))
    ensures CountFresh(Admitted(lim, calls, ip), now, lim.window) == 0
  {
    hide Run, Admitted, CountFresh, StampsOf, DistinctIps, Ticking;
    var log := Admitted(lim, calls, ip);
    if calls != [] {
      RunKeepsInvariant(lim, calls, ip);
    } else {
      NothingLogged(lim, ip);
    }
    CountFreshSuffix(log, |log|, now, lim.window);
  }

  /**
   * `get_remaining` is exact, whether or not the address is tracked: after the answer `r`, the
   * next `r` calls at the same instant are allowed, and the one after them is denied if and only
   * if the window is not negative or the limit is zero.
   */
  lemma RemainingIsExact(lim: Limits, calls: seq<Call>, ip: string, now: int, k: nat)
    requires Ticking(calls) && Follows(calls, RemainingCall(ip, now)) && lim.maxRequests >= 0
    ensures var (t', r) := Remaining(lim, Run(lim, calls), ip, now);
      && 0 <= r <= lim.maxRequests
      && (k < r ==> Allow(lim, Burst(lim, t', ip, now, k), ip, now, now).1)
      && (k == r ==>
            (!Allow(lim, Burst(lim, t', ip, now, k), ip, now, now).1 <==> lim.window >= 0 || lim.maxRequests == 0))
  {
    hide Run, Allow, Remaining, Burst, Admitted, CountFresh, BurstCalls;
    RemainingCountsLog(lim, calls, ip, now);
    if lim.maxRequests == 0 {
      NoLimitNeverAllows(lim, Burst(lim, Remaining(lim, Run(lim, calls), ip, now).0, ip, now, k), ip, now);
    } else {
      var r := Remaining(lim, Run(lim, calls), ip, now).1;
      LiveWithinLimit(lim, calls, ip, now);
      if k <= r {
        BurstIsRun(lim, calls, ip, now, k);
        CountAfterBurst(lim, calls, ip, now, k);
        AllowCountsLog(lim, BurstCalls(calls, ip, now, k), AllowCall(ip, now, now));
        DecisionAtOneClock(Run(lim, BurstCalls(calls, ip, now, k)), ip, now);
        if lim.window < 0 {
          NegativeWindowCountsNothing(lim, calls, ip, now);
        }
      }
    }
  }

  lemma NoLimitNeverAllows(lim: Limits, t: Table, ip: string, now: int)
    requires lim.maxRequests <= 0
    ensures !Allow(lim, t, ip, now, now).1
  {}

  lemma DecisionAtOneClock(t: Table, ip: string, now: int)
    ensures Decision(t, AllowCall(ip, now, now)) == now
  {}

  /** No more admissions are live than the limit. */
  lemma LiveWithinLimit(lim: Limits, calls: seq<Call>, ip: string, now: int)
    requires lim.maxRequests > 0 && Ticking(calls) && Follows(calls, RemainingCall(ip, now))
    ensures CountFresh(Admitted(lim, calls, ip), now, lim.window) <= lim.maxRequests
  {
    RunCountsFresh(lim, calls, ip, now);
    if calls != [] {
      RunKeepsInvariant(lim, calls, ip);
    }
  }

  /** A negative window is the one exception: then a limiter with a positive limit never denies. */
  lemma NegativeWindowNeverDenies(lim: Limits, calls: seq<Call>, c: Call)
    requires Ticking(calls) && Follows(calls, c) && c.AllowCall?
    requires lim.maxRequests > 0 && lim.window < 0
    ensures Allow(lim, Run(lim, calls), c.ip, c.recorded, c.pruning).1
  {
    AllowCountsLog(lim, calls, c);
    NegativeWindowCountsNothing(lim, calls, c.ip, Decision(Run(lim, calls), c));
  }
}
