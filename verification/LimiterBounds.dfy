/**
 * The limit over all admissions of an address, across evictions: by how much it can be exceeded,
 * and what each excess costs in calls of other addresses.
 */
module LimiterBounds {
  import opened LimiterModel
  import opened LimiterRuns
  import opened LimiterWindows
  import opened LimiterEviction

  /** Every admission of `ip`, whatever happened to its record. */
  function AllAdmitted(lim: Limits, calls: seq<Call>, ip: string): seq<Admission> {
    if calls == [] then []
    else
      var before, c := calls[..|calls| - 1], calls[|calls| - 1];
      var t, log := Run(lim, before), AllAdmitted(lim, before, ip);
      if c.AllowCall? && c.ip == ip && Allow(lim, t, ip, c.recorded, c.pruning).1 then
        log + [Admission(c.recorded, Decision(t, c))]
      else log
  }

  lemma AllAdmittedAfter(lim: Limits, calls: seq<Call>, c: Call, ip: string)
    ensures AllAdmitted(lim, calls + [c], ip) ==
      if c.AllowCall? && c.ip == ip && Allow(lim, Run(lim, calls), ip, c.recorded, c.pruning).1 then
        AllAdmitted(lim, calls, ip) + [Admission(c.recorded, Decision(Run(lim, calls), c))]
      else AllAdmitted(lim, calls, ip)
  {
    assert (calls + [c])[..|calls|] == calls;
  }

  lemma {:induction false} LogHasAllAdmissions(lim: Limits, calls: seq<Call>, ip: string)
    requires NeverEvicted(lim, calls, ip)
    ensures AllAdmitted(lim, calls, ip) == Admitted(lim, calls, ip)
  {
    if calls != [] {
      LogHasAllAdmissions(lim, calls[..|calls| - 1], ip);
    }
  }

  ghost predicate CallersWithin(calls: seq<Call>, ips: set<string>) {
    forall i :: 0 <= i < |calls| && calls[i].AllowCall? ==> calls[i].ip in ips
  }

  lemma {:induction false} OnlyCallersAreTracked(lim: Limits, calls: seq<Call>, ips: set<string>)
    requires lim.maxRequests > 0 && CallersWithin(calls, ips)
    ensures forall r :: r in Run(lim, calls) ==> r.ip in ips
  {
    if calls != [] {
      var before, c := calls[..|calls| - 1], calls[|calls| - 1];
      OnlyCallersAreTracked(lim, before, ips);
      RunIsOrdered(lim, before);
      var t := Run(lim, before);
      match c {
        case AllowCall(_, _, _) => AllowKeeps(lim, t, c);
        case RemainingCall(ip, now) =>
        case CleanupCall(_, _, clock) => CleanupKeeps(lim, t, clock);
      }
    }
  }

  lemma {:induction false} CallersSinceWithin(calls: seq<Call>, ips: set<string>, ip: string)
    requires CallersWithin(calls, ips)
    ensures CallersSince(calls, ip) <= ips - {ip}
  {
    if calls != [] {
      CallersSinceWithin(calls[..|calls| - 1], ips, ip);
    }
  }

  /** While no more addresses call than the limiter may track, none of them is ever evicted. */
  lemma {:induction false} FewCallersAreNeverEvicted(lim: Limits, calls: seq<Call>, ips: set<string>, ip: string)
    requires CallersWithin(calls, ips) && |ips| <= Capacity(lim)
    ensures NeverEvicted(lim, calls, ip)
  {
    hide Evicts, Run, CallersSince;
    if calls != [] {
      var before, c := calls[..|calls| - 1], calls[|calls| - 1];
      FewCallersAreNeverEvicted(lim, before, ips, ip);
      if Evicts(lim, Run(lim, before), c, ip) {
        SurvivesRecentCallers(lim, before, c, ip);
        assert calls == before + [c];
        CallersSinceWithin(calls, ips, ip);
        SubsetSize(CallersSince(calls, ip), ips - {ip});
        EvictedHasCalled(lim, before, ips, c, ip);
      }
    }
  }

  lemma EvictedHasCalled(lim: Limits, calls: seq<Call>, ips: set<string>, c: Call, ip: string)
    requires CallersWithin(calls, ips) && Evicts(lim, Run(lim, calls), c, ip)
    ensures ip in ips
  {
    if lim.maxRequests > 0 {
      OnlyCallersAreTracked(lim, calls, ips);
      assert Run(lim, calls)[IndexOf(Run(lim, calls), ip)] in Run(lim, calls);
    }
  }

  // ---------- by how much it can be exceeded ----------

  /** `ip` called `is_allowed` at `from` or later. */
  ghost predicate CalledSince(calls: seq<Call>, ip: string, from: int) {
    exists i :: 0 <= i < |calls| && calls[i].AllowCall? && calls[i].ip == ip && from <= calls[i].recorded
  }

  /** How often between `from` and `to` the record of `ip` was evicted after a call of its own in that time. */
  ghost function Losses(lim: Limits, calls: seq<Call>, ip: string, from: int, to: int): nat {
    if calls == [] then 0
    else
      var before, c := calls[..|calls| - 1], calls[|calls| - 1];
      Losses(lim, before, ip, from, to) +
      if Evicts(lim, Run(lim, before), c, ip) && Begin(c) <= to && CalledSince(before, ip, from) then 1 else 0
  }

  /** How often other addresses called `is_allowed` between `from` and `to`. */
  function OthersIn(calls: seq<Call>, ip: string, from: int, to: int): nat {
    if calls == [] then 0
    else
      var c := calls[|calls| - 1];
      OthersIn(calls[..|calls| - 1], ip, from, to) +
      if c.AllowCall? && c.ip != ip && from <= c.recorded <= to then 1 else 0
  }

  ghost predicate StartedBy(calls: seq<Call>, to: int) {
    calls == [] || Begin(calls[|calls| - 1]) <= to
  }

  lemma {:induction false} CalledBeforeEnd(calls: seq<Call>, ip: string, from: int)
    requires Ticking(calls) && CalledSince(calls, ip, from)
    ensures calls != [] && from <= End(calls[|calls| - 1])
  {
    var front := calls[..|calls| - 1];
    if CalledSince(front, ip, from) {
      CalledBeforeEnd(front, ip, from);
    }
  }

  lemma CalledSinceAfter(calls: seq<Call>, c: Call, ip: string, from: int)
    ensures CalledSince(calls + [c], ip, from) <==>
      CalledSince(calls, ip, from) || (c.AllowCall? && c.ip == ip && from <= c.recorded)
  {
    if CalledSince(calls, ip, from) {
      var i :| 0 <= i < |calls| && calls[i].AllowCall? && calls[i].ip == ip && from <= calls[i].recorded;
      assert (calls + [c])[i] == calls[i];
    }
    assert (calls + [c])[|calls|] == c;
  }

  lemma {:induction false} NotCalledNotAdmitted(lim: Limits, calls: seq<Call>, ip: string, from: int, to: int)
    requires !CalledSince(calls, ip, from)
    ensures CountIn(AllAdmitted(lim, calls, ip), from, to) == 0
  {
    if calls != [] {
      var before, c := calls[..|calls| - 1], calls[|calls| - 1];
      assert calls == before + [c];
      CalledSinceAfter(before, c, ip, from);
      NotCalledNotAdmitted(lim, before, ip, from, to);
      AllAdmittedAfter(lim, before, c, ip);
      CountInAfter(AllAdmitted(lim, before, ip), Admission(Begin(c), End(c)), from, to);
    }
  }

  lemma CountInAfter(log: seq<Admission>, a: Admission, from: int, to: int)
    ensures CountIn(log + [a], from, to) == CountIn(log, from, to) + if from <= a.recorded <= to then 1 else 0
  {
    assert (log + [a])[..|log|] == log;
  }

  lemma {:induction false} NoLimitNoAdmissions(lim: Limits, calls: seq<Call>, ip: string)
    requires lim.maxRequests <= 0
    ensures AllAdmitted(lim, calls, ip) == []
  {
    if calls != [] {
      NoLimitNoAdmissions(lim, calls[..|calls| - 1], ip);
    }
  }

  lemma StartedBefore(before: seq<Call>, c: Call, to: int)
    requires Ticking(before + [c]) && Begin(c) <= to
    ensures Ticking(before) && StartedBy(before, to) && (before != [] ==> End(before[|before| - 1]) <= Begin(c))
  {
    hide Ticking;
    TickingBefore(before, c);
    if before != [] {
      assert before == before[..|before| - 1] + [before[|before| - 1]];
      TickingBefore(before[..|before| - 1], before[|before| - 1]);
    }
  }

  lemma TickingBefore(before: seq<Call>, c: Call)
    requires Ticking(before + [c])
    ensures Ticking(before) && Follows(before, c)
  {
    assert (before + [c])[..|before|] == before;
  }

  lemma LossesAfter(lim: Limits, calls: seq<Call>, c: Call, ip: string, from: int, to: int)
    ensures Losses(lim, calls + [c], ip, from, to) == Losses(lim, calls, ip, from, to) +
      if Evicts(lim, Run(lim, calls), c, ip) && Begin(c) <= to && CalledSince(calls, ip, from) then 1 else 0
  {
    assert (calls + [c])[..|calls|] == calls;
  }

  lemma OthersInAfter(calls: seq<Call>, c: Call, ip: string, from: int, to: int)
    ensures OthersIn(calls + [c], ip, from, to) == OthersIn(calls, ip, from, to) +
      if c.AllowCall? && c.ip != ip && from <= c.recorded <= to then 1 else 0
  {
    assert (calls + [c])[..|calls|] == calls;
  }

  /** Up to `to`, each eviction forgets at most one quota of the admissions in the window. */
  lemma {:induction false} LossesForgetQuotas(lim: Limits, calls: seq<Call>, ip: string, from: int, to: int)
    requires Ticking(calls) && OneClock(calls) && StartedBy(calls, to) && to == from + lim.window && lim.maxRequests > 0
    ensures CountIn(AllAdmitted(lim, calls, ip), from, to) <=
      Quota(lim) * Losses(lim, calls, ip, from, to) + CountIn(Admitted(lim, calls, ip), from, to)
  {
    if calls != [] {
      hide AllAdmitted, Admitted, CountIn, Losses, Run, Evicts, CalledSince, Ticking, Allow;
      var before, c := calls[..|calls| - 1], calls[|calls| - 1];
      assert calls == before + [c];
      StartedBefore(before, c, to);
      LossesForgetQuotas(lim, before, ip, from, to);
      ForgottenByOneCall(lim, before, c, ip, from, to);
    }
  }

  lemma ForgottenByOneCall(lim: Limits, before: seq<Call>, c: Call, ip: string, from: int, to: int)
    requires Ticking(before) && OneClock(before) && Begin(c) <= to && to == from + lim.window && lim.maxRequests > 0
    requires CountIn(AllAdmitted(lim, before, ip), from, to) <=
      Quota(lim) * Losses(lim, before, ip, from, to) + CountIn(Admitted(lim, before, ip), from, to)
    ensures CountIn(AllAdmitted(lim, before + [c], ip), from, to) <=
      Quota(lim) * Losses(lim, before + [c], ip, from, to) + CountIn(Admitted(lim, before + [c], ip), from, to)
  {
    hide AllAdmitted, Admitted, CountIn, Losses, Run, CalledSince, Evicts, Ticking, Allow, Decision;
    var t, log, all := Run(lim, before), Admitted(lim, before, ip), AllAdmitted(lim, before, ip);
    AllAdmittedAfter(lim, before, c, ip);
    AdmittedAfter(lim, before, c, ip);
    LossesAfter(lim, before, c, ip, from, to);
    if Evicts(lim, t, c, ip) {
      EvictedByAnother(lim, before, c, ip);
      WindowHoldsAtMostMax(lim, before, ip, from);
      if !CalledSince(before, ip, from) {
        NotCalledNotAdmitted(lim, before, ip, from, to);
      } else {
        var losses := Losses(lim, before, ip, from, to);
        assert Quota(lim) * (losses + 1) == Quota(lim) * losses + Quota(lim);
      }
    } else if c.AllowCall? {
      var a := Admission(c.recorded, Decision(t, c));
      CountInAfter(log, a, from, to);
      CountInAfter(all, a, from, to);
    }
  }

  lemma EvictedByAnother(lim: Limits, calls: seq<Call>, c: Call, ip: string)
    requires Evicts(lim, Run(lim, calls), c, ip)
    ensures c.AllowCall? && c.ip != ip
  {
    SurvivesRecentCallers(lim, calls, c, ip);
  }

  /** One quota in a window, and one more for each eviction in it. */
  lemma {:induction false} ExcessIsBounded(lim: Limits, calls: seq<Call>, ip: string, from: int)
    requires Ticking(calls) && OneClock(calls)
    ensures CountIn(AllAdmitted(lim, calls, ip), from, from + lim.window) <=
      Quota(lim) * (1 + Losses(lim, calls, ip, from, from + lim.window))
  {
    hide AllAdmitted, Admitted, CountIn, Losses, Run, CalledSince, Ticking, Allow;
    var to := from + lim.window;
    if lim.maxRequests <= 0 {
      NoLimitNoAdmissions(lim, calls, ip);
      CountInSuffix([], 0, from, to);
    } else if StartedBy(calls, to) {
      LossesForgetQuotas(lim, calls, ip, from, to);
      WindowHoldsAtMostMax(lim, calls, ip, from);
      var losses := Losses(lim, calls, ip, from, to);
      assert Quota(lim) * (1 + losses) == Quota(lim) + Quota(lim) * losses;
    } else {
      var before, c := calls[..|calls| - 1], calls[|calls| - 1];
      assert calls == before + [c];
      TickingBefore(before, c);
      ExcessIsBounded(lim, before, ip, from);
      LossesAfter(lim, before, c, ip, from, to);
      AllAdmittedAfter(lim, before, c, ip);
      if c.AllowCall? {
        CountInAfter(AllAdmitted(lim, before, ip), Admission(c.recorded, Decision(Run(lim, before), c)), from, to);
      }
    }
  }

  /** The calls of other addresses that are not yet spent on an eviction. */
  ghost function Unspent(lim: Limits, calls: seq<Call>, ip: string, from: int): nat {
    if Tracked(Run(lim, calls), ip) && CalledSince(calls, ip, from) then |CallersSince(calls, ip)| else 0
  }

  lemma {:induction false} LossesSpendCalls(lim: Limits, calls: seq<Call>, ip: string, from: int, to: int)
    requires Ticking(calls) && StartedBy(calls, to) && lim.maxRequests > 0
    ensures Capacity(lim) * Losses(lim, calls, ip, from, to) + Unspent(lim, calls, ip, from)
      <= OthersIn(calls, ip, from, to)
  {
    if calls != [] {
      hide Losses, Run, CalledSince, Ticking, OthersIn, Unspent;
      var before, c := calls[..|calls| - 1], calls[|calls| - 1];
      assert calls == before + [c];
      StartedBefore(before, c, to);
      LossesSpendCalls(lim, before, ip, from, to);
      SpentByOneCall(lim, before, c, ip, from, to);
    }
  }

  lemma SpentByOneCall(lim: Limits, before: seq<Call>, c: Call, ip: string, from: int, to: int)
    requires Ticking(before + [c]) && Begin(c) <= to && lim.maxRequests > 0
    requires Capacity(lim) * Losses(lim, before, ip, from, to) + Unspent(lim, before, ip, from)
      <= OthersIn(before, ip, from, to)
    ensures Capacity(lim) * Losses(lim, before + [c], ip, from, to) + Unspent(lim, before + [c], ip, from)
      <= OthersIn(before + [c], ip, from, to)
  {
    hide Losses, Run, CalledSince, Ticking, OthersIn, CallersSince, StepTable, Evicts, Capacity, Tracked;
    var t := Run(lim, before);
    TickingBefore(before, c);
    LossesAfter(lim, before, c, ip, from, to);
    OthersInAfter(before, c, ip, from, to);
    CallersAfter(before, c, ip);
    CalledSinceAfter(before, c, ip, from);
    if CalledSince(before, ip, from) {
      CalledBeforeEnd(before, ip, from);
    }
    if Evicts(lim, t, c, ip) {
      EvictionEndsRecord(lim, before, c, ip);
      var losses, losses' := Losses(lim, before, ip, from, to), Losses(lim, before + [c], ip, from, to);
      assert losses' == losses + 1 ==> Capacity(lim) * losses' == Capacity(lim) * losses + Capacity(lim);
    } else {
      StillTracked(lim, before, c, ip);
    }
  }

  lemma EvictionEndsRecord(lim: Limits, calls: seq<Call>, c: Call, ip: string)
    requires Evicts(lim, Run(lim, calls), c, ip)
    ensures c.AllowCall? && c.ip != ip && Tracked(Run(lim, calls), ip) && !Tracked(Run(lim, calls + [c]), ip)
    ensures Capacity(lim) <= |CallersSince(calls, ip)| + 1
  {
    SurvivesRecentCallers(lim, calls, c, ip);
    CallersAfter(calls, c, ip);
    RunAfter(lim, calls, c);
  }

  lemma StillTracked(lim: Limits, calls: seq<Call>, c: Call, ip: string)
    requires lim.maxRequests > 0 && !Evicts(lim, Run(lim, calls), c, ip)
    ensures Tracked(Run(lim, calls + [c]), ip) && !(c.AllowCall? && c.ip == ip) ==> Tracked(Run(lim, calls), ip)
  {
    hide Run, StepTable, Evicts, Prune, Allow;
    RunIsOrdered(lim, calls);
    RunAfter(lim, calls, c);
    StampsAfter(lim, Run(lim, calls), c, ip);
  }

  /** Each eviction in an interval costs at least `max(1, maxRecords)` calls of other addresses in it. */
  lemma {:induction false} LossesCostCalls(lim: Limits, calls: seq<Call>, ip: string, from: int, to: int)
    requires Ticking(calls)
    ensures Capacity(lim) * Losses(lim, calls, ip, from, to) <= OthersIn(calls, ip, from, to)
  {
    hide Run, CalledSince, Ticking, Evicts, CallersSince, Capacity;
    if calls != [] {
      var before, c := calls[..|calls| - 1], calls[|calls| - 1];
      assert calls == before + [c];
      TickingBefore(before, c);
      if lim.maxRequests <= 0 {
        LossesCostCalls(lim, before, ip, from, to);
        NothingToEvict(lim, before, c, ip);
      } else if StartedBy(calls, to) {
        LossesSpendCalls(lim, calls, ip, from, to);
      } else {
        LossesCostCalls(lim, before, ip, from, to);
      }
    }
  }

  lemma NothingToEvict(lim: Limits, calls: seq<Call>, c: Call, ip: string)
    requires lim.maxRequests <= 0
    ensures !Evicts(lim, Run(lim, calls), c, ip)
  {
    NoLimitNoRecords(lim, calls, ip);
  }

  /**
   * In any window an address gets one quota, and at most one more for every `max(1, maxRecords)`
   * calls of other addresses in that window; with fewer of them the limit holds.
   */
  lemma ExcessCostsCalls(lim: Limits, calls: seq<Call>, ip: string, from: int)
    requires Ticking(calls) && OneClock(calls)
    ensures CountIn(AllAdmitted(lim, calls, ip), from, from + lim.window) <=
      Quota(lim) * (1 + OthersIn(calls, ip, from, from + lim.window) / Capacity(lim))
  {
    hide AllAdmitted, CountIn, Losses, Ticking, OneClock, OthersIn, Quota, Capacity;
    var to := from + lim.window;
    ExcessIsBounded(lim, calls, ip, from);
    LossesCostCalls(lim, calls, ip, from, to);
    CapacityIsPositive(lim);
    QuotientBound(Capacity(lim), Losses(lim, calls, ip, from, to), OthersIn(calls, ip, from, to), Quota(lim));
  }

  lemma CapacityIsPositive(lim: Limits)
    ensures Capacity(lim) > 0
  {}

  lemma {:induction false} ScaledKeepsOrder(n: nat, a: nat, b: nat)
    requires a <= b
    ensures n * a <= n * b
  {
    if a < b {
      ScaledKeepsOrder(n, a, b - 1);
      assert n * b == n * (b - 1) + n;
    }
  }

  lemma QuotientBound(n: nat, k: nat, m: nat, q: nat)
    requires n > 0 && n * k <= m
    ensures q * (1 + k) <= q * (1 + m / n)
  {
    var d := m / n;
    assert m == n * d + m % n && n * (d + 1) == n * d + n;
    if d < k {
      ScaledKeepsOrder(n, d + 1, k);
    } else {
      ScaledKeepsOrder(q, 1 + k, 1 + d);
    }
  }
}
