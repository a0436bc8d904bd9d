/** Which addresses the limiter tracks and which it forgets, over whole runs. */
module LimiterEviction {
  import opened Sequences
  import opened LimiterModel
  import opened LimiterRuns

  /** How many addresses a limiter tracks: at least one, since an empty table evicts nothing. */
  function Capacity(lim: Limits): nat {
    if lim.maxRecords >= 1 then lim.maxRecords else 1
  }

  /** The other addresses that called `is_allowed` since `ip` last did, allowed or not. */
  function CallersSince(calls: seq<Call>, ip: string): set<string> {
    if calls == [] then {}
    else
      var before, c := CallersSince(calls[..|calls| - 1], ip), calls[|calls| - 1];
      if !c.AllowCall? then before else if c.ip == ip then {} else before + {c.ip}
  }

  /** Every address ahead of another in the recency order has called since the other did. */
  ghost predicate Ordered(t: Table, calls: seq<Call>) {
    forall q, p :: 0 <= q < p < |t| ==> t[q].ip in CallersSince(calls, t[p].ip)
  }

  lemma CallersAfter(before: seq<Call>, c: Call, ip: string)
    ensures CallersSince(before + [c], ip) ==
      if !c.AllowCall? then CallersSince(before, ip) else if c.ip == ip then {} else CallersSince(before, ip) + {c.ip}
  {
    assert (before + [c])[..|before|] == before;
  }

  lemma CallersStay(t: Table, before: seq<Call>, c: Call)
    requires Ordered(t, before) && (c.AllowCall? ==> forall i :: 0 <= i < |t| ==> t[i].ip != c.ip)
    ensures Ordered(t, before + [c])
  {
    forall q, p | 0 <= q < p < |t| ensures t[q].ip in CallersSince(before + [c], t[p].ip) {
      CallersAfter(before, c, t[p].ip);
    }
  }

  lemma FrontIsOrdered(rest: Table, r: Record, before: seq<Call>, c: Call)
    requires Ordered(rest, before) && c.AllowCall? && r.ip == c.ip
    requires forall i :: 0 <= i < |rest| ==> rest[i].ip != c.ip
    ensures Ordered([r] + rest, before + [c])
  {
    CallersStay(rest, before, c);
    forall p | 0 <= p < |rest| ensures c.ip in CallersSince(before + [c], rest[p].ip) {
      CallersAfter(before, c, rest[p].ip);
    }
  }

  lemma {:induction false} DropIdleIsOrdered(t: Table, done: set<string>, calls: seq<Call>)
    requires Ordered(t, calls)
    ensures Ordered(DropIdle(t, done), calls) && |DropIdle(t, done)| <= |t|
  {
    if t != [] {
      var front, last := t[..|t| - 1], t[|t| - 1];
      DropIdleIsOrdered(front, done, calls);
      DropIdleKeeps(front, done);
      var kept := DropIdle(front, done);
      forall q | 0 <= q < |kept| ensures kept[q].ip in CallersSince(calls, last.ip) {
        assert kept[q] in front;
      }
    }
  }

  lemma {:induction false} RunIsOrdered(lim: Limits, calls: seq<Call>)
    requires lim.maxRequests > 0
    ensures DistinctIps(Run(lim, calls)) && Ordered(Run(lim, calls), calls) && |Run(lim, calls)| <= Capacity(lim)
  {
    if calls != [] {
      var before, c := calls[..|calls| - 1], calls[|calls| - 1];
      RunIsOrdered(lim, before);
      assert calls == before + [c];
      StepIsOrdered(lim, Run(lim, before), before, c);
    }
  }

  lemma StepIsOrdered(lim: Limits, t: Table, before: seq<Call>, c: Call)
    requires lim.maxRequests > 0 && DistinctIps(t) && Ordered(t, before) && |t| <= Capacity(lim)
    ensures var t' := StepTable(lim, t, c);
      DistinctIps(t') && Ordered(t', before + [c]) && |t'| <= Capacity(lim)
  {
    hide CallersSince, Prune;
    var t' := StepTable(lim, t, c);
    match c {
      case AllowCall(ip, recorded, pruning) =>
        AllowKeeps(lim, t, c);
        var i := IndexOf(t, ip);
        if i < |t| {
          RemoveAtProperties(t, i);
          FrontIsOrdered(RemoveAt(t, i), t'[0], before, c);
        } else {
          FrontIsOrdered(EvictIfFull(lim, t), t'[0], before, c);
        }
      case RemainingCall(ip, now) =>
        SameIpsSameOrder(t, t', before);
        CallersStay(t', before, c);
      case CleanupCall(_, _, clock) =>
        var pruned := PruneAll(lim, t, Ips(t), clock);
        SameIpsSameOrder(t, pruned, before);
        DropIdleKeeps(pruned, Ips(t));
        DropIdleIsOrdered(pruned, Ips(t), before);
        CallersStay(t', before, c);
    }
  }

  lemma SameIpsSameOrder(t: Table, t': Table, calls: seq<Call>)
    requires |t'| == |t| && forall j :: 0 <= j < |t| ==> t'[j].ip == t[j].ip
    ensures DistinctIps(t) ==> DistinctIps(t')
    ensures Ordered(t, calls) ==> Ordered(t', calls)
  {}

  lemma IpsConcat(front: Table, last: Record)
    ensures Ips(front + [last]) == Ips(front) + {last.ip}
    ensures (forall i :: 0 <= i < |front| ==> front[i].ip != last.ip) ==> last.ip !in Ips(front)
  {}

  lemma {:induction false} DistinctIpsCount(t: Table)
    requires DistinctIps(t)
    ensures |Ips(t)| == |t|
  {
    hide Ips;
    if t == [] {
      IpsEmpty();
    } else {
      var front, last := t[..|t| - 1], t[|t| - 1];
      DistinctIpsCount(front);
      IpsConcat(front, last);
      assert t == front + [last];
    }
  }

  lemma IpsEmpty()
    ensures Ips([]) == {}
  {}

  /**
   * LRU survival: an address loses its record only to another address, and only if, counting that
   * one, as many other addresses as fit called `is_allowed` since it last did itself.
   */
  lemma SurvivesRecentCallers(lim: Limits, calls: seq<Call>, c: Call, ip: string)
    requires Evicts(lim, Run(lim, calls), c, ip)
    ensures c.ip != ip && |CallersSince(calls + [c], ip)| >= Capacity(lim)
  {
    var t := Run(lim, calls);
    if lim.maxRequests > 0 {
      RunIsOrdered(lim, calls);
      OnlyTheLastIsEvicted(lim, t, c, ip);
      EnoughCallers(lim, t, calls, c);
    }
  }

  lemma OnlyTheLastIsEvicted(lim: Limits, t: Table, c: Call, ip: string)
    requires lim.maxRequests > 0 && DistinctIps(t) && Evicts(lim, t, c, ip)
    ensures !Tracked(t, c.ip) && |t| >= lim.maxRecords && t != [] && t[|t| - 1].ip == ip
  {
    OthersStay(lim, t, c, ip);
  }

  lemma OthersStay(lim: Limits, t: Table, c: Call, ip: string)
    requires lim.maxRequests > 0 && DistinctIps(t) && c.AllowCall? && Tracked(t, ip)
    ensures Tracked(t, c.ip) || |t| < lim.maxRecords || t[|t| - 1].ip != ip ==> Tracked(StepTable(lim, t, c), ip)
  {
    var t', p := StepTable(lim, t, c), IndexOf(t, ip);
    AllowKeeps(lim, t, c);
    if c.ip == ip {
      FoundByIp(t', t'[0]);
    } else if Tracked(t, c.ip) {
      FoundByIp(t', t[p]);
    } else if p < |EvictIfFull(lim, t)| {
      assert t[p] == t'[p + 1];
      FoundByIp(t', t[p]);
    }
  }

  lemma IpsHas(t: Table, x: string) returns (i: nat)
    requires x in Ips(t)
    ensures i < |t| && t[i].ip == x
  {
    var r :| r in t && r.ip == x;
    i :| 0 <= i < |t| && t[i] == r;
  }

  lemma EnoughCallers(lim: Limits, t: Table, calls: seq<Call>, c: Call)
    requires DistinctIps(t) && Ordered(t, calls) && t != [] && |t| >= lim.maxRecords
    requires c.AllowCall? && !Tracked(t, c.ip)
    ensures |CallersSince(calls + [c], t[|t| - 1].ip)| >= Capacity(lim)
  {
    hide Ips, CallersSince;
    var front, last := t[..|t| - 1], t[|t| - 1];
    CallersAfter(calls, c, last.ip);
    DistinctIpsCount(front);
    forall x | x in Ips(front) ensures x in CallersSince(calls, last.ip) && x != c.ip {
      var i := IpsHas(front, x);
      assert t[i].ip == x;
    }
    SubsetSize(Ips(front) + {c.ip}, CallersSince(calls + [c], last.ip));
  }

  lemma {:induction false} SubsetSize(a: set<string>, b: set<string>)
    requires a <= b
    ensures |a| <= |b|
  {
    if a != {} {
      var x :| x in a;
      SubsetSize(a - {x}, b - {x});
    }
  }

  // ---------- without cleanup, exactly LRU ----------

  function Position(s: seq<string>, x: string): (i: nat)
    ensures i <= |s| && (i < |s| ==> s[i] == x)
    ensures forall j :: 0 <= j < i ==> s[j] != x
  {
    FindFrom(s, (y: string) => y == x, 0)
  }

  /** All addresses that ever called `is_allowed`, the latest caller first. */
  function LatestCallers(calls: seq<Call>): seq<string> {
    if calls == [] then []
    else
      var before, c := LatestCallers(calls[..|calls| - 1]), calls[|calls| - 1];
      if !c.AllowCall? then before
      else
        var i := Position(before, c.ip);
        if i < |before| then ToFront(before, i) else [c.ip] + before
  }

  function IpSeq(t: Table): seq<string> {
    seq(|t|, i requires 0 <= i < |t| => t[i].ip)
  }

  function Take(s: seq<string>, n: nat): seq<string> {
    if |s| <= n then s else s[..n]
  }

  /** In a run without `cleanup`, the tracked addresses are exactly the latest callers, as many as fit. */
  lemma {:induction false} TracksLatestCallers(lim: Limits, calls: seq<Call>)
    requires lim.maxRequests > 0 && forall i :: 0 <= i < |calls| ==> !calls[i].CleanupCall?
    ensures IpSeq(Run(lim, calls)) == Take(LatestCallers(calls), Capacity(lim))
  {
    if calls != [] {
      var before, c := calls[..|calls| - 1], calls[|calls| - 1];
      TracksLatestCallers(lim, before);
      var t, t' := Run(lim, before), Run(lim, calls);
      if c.AllowCall? {
        AllowTracksLatest(lim, t, LatestCallers(before), c);
      } else {
        assert IpSeq(t') == IpSeq(t);
      }
    }
  }

  lemma AllowTracksLatest(lim: Limits, t: Table, callers: seq<string>, c: Call)
    requires lim.maxRequests > 0 && c.AllowCall?
    requires IpSeq(t) == Take(callers, Capacity(lim))
    ensures var i := Position(callers, c.ip);
      IpSeq(StepTable(lim, t, c)) == Take(if i < |callers| then ToFront(callers, i) else [c.ip] + callers, Capacity(lim))
  {
    hide Position;
    var i, k, n := Position(callers, c.ip), IndexOf(t, c.ip), Capacity(lim);
    assert |t| == |IpSeq(t)| && forall j :: 0 <= j < |t| ==> t[j].ip == IpSeq(t)[j] == callers[j];
    AllowMovesIp(lim, t, c);
    if k < |t| {
      assert k == i;
      TakeToFront(callers, i, n);
    } else {
      TakeNewcomer(callers, i, n, c.ip);
    }
  }

  /** `is_allowed` on the addresses alone: to the front, or in front of those that are left. */
  lemma AllowMovesIp(lim: Limits, t: Table, c: Call)
    requires lim.maxRequests > 0 && c.AllowCall?
    ensures var k := IndexOf(t, c.ip);
      IpSeq(StepTable(lim, t, c)) ==
      if k < |t| then ToFront(IpSeq(t), k) else [c.ip] + IpSeq(EvictIfFull(lim, t))
  {
    hide Prune, RemoveAt, ToFront, IndexOf, IpSeq;
    var t', k := StepTable(lim, t, c), IndexOf(t, c.ip);
    if k < |t| {
      IpSeqOfRest(t, k);
      IpSeqOfFront(t'[0], RemoveAt(t, k));
    } else {
      IpSeqOfFront(t'[0], EvictIfFull(lim, t));
    }
  }

  lemma IpSeqOfFront(r: Record, rest: Table)
    ensures IpSeq([r] + rest) == [r.ip] + IpSeq(rest)
  {}

  lemma IpSeqOfRest(t: Table, k: nat)
    requires k < |t|
    ensures k < |IpSeq(t)| && ToFront(IpSeq(t), k) == [t[k].ip] + IpSeq(RemoveAt(t, k))
  {}

  lemma TakeToFront(s: seq<string>, i: nat, n: nat)
    requires i < |s| && i < n
    ensures Take(ToFront(s, i), n) == ToFront(Take(s, n), i)
  {
    ToFrontProperties(s, i);
    ToFrontProperties(Take(s, n), i);
  }

  /** A newcomer to the first `n`, whether it stood behind them or was absent, displaces the last of them. */
  lemma TakeNewcomer(s: seq<string>, i: nat, n: nat, x: string)
    requires n > 0 && (n <= i <= |s| || i == |s|)
    requires i < |s| ==> s[i] == x
    ensures Take(if i < |s| then ToFront(s, i) else [x] + s, n) == [x] + (if |s| >= n then s[..n - 1] else s)
  {
    if i < |s| {
      ToFrontProperties(s, i);
    }
  }
}
