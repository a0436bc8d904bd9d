/** What every run of calls on the rate limiter keeps and answers, under a clock that never goes back. */
module LimiterRuns {
  import opened Sequences
  import opened LimiterModel

  /**
   * `is_allowed` reads the clock for the time it records and again for pruning; `cleanup` reads it
   * once for every record, between `begin` and `end`.
   */
  datatype Call =
    | AllowCall(ip: string, recorded: int, pruning: int)
    | RemainingCall(ip: string, now: int)
    | CleanupCall(begin: int, end: int, clock: string -> int)

  function Begin(c: Call): int {
    match c
    case AllowCall(_, recorded, _) => recorded
    case RemainingCall(_, now) => now
    case CleanupCall(begin, _, _) => begin
  }

  function End(c: Call): int {
    match c
    case AllowCall(_, _, pruning) => pruning
    case RemainingCall(_, now) => now
    case CleanupCall(_, end, _) => end
  }

  ghost predicate WellTimed(c: Call) {
    match c
    case AllowCall(_, recorded, pruning) => recorded <= pruning
    case RemainingCall(_, _) => true
    case CleanupCall(begin, end, clock) => begin <= end && forall ip :: begin <= clock(ip) <= end
  }

  /** `c` comes after the calls so far. */
  ghost predicate Follows(calls: seq<Call>, c: Call) {
    WellTimed(c) && (calls != [] ==> End(calls[|calls| - 1]) <= Begin(c))
  }

  /** The readings of a steady clock over the whole run. */
  ghost predicate Ticking(calls: seq<Call>) {
    calls == [] || (Ticking(calls[..|calls| - 1]) && Follows(calls[..|calls| - 1], calls[|calls| - 1]))
  }

  function StepTable(lim: Limits, t: Table, c: Call): Table {
    match c
    case AllowCall(ip, recorded, pruning) => Allow(lim, t, ip, recorded, pruning).0
    case RemainingCall(ip, now) => Remaining(lim, t, ip, now).0
    case CleanupCall(_, _, clock) => Cleanup(lim, t, clock)
  }

  function Run(lim: Limits, calls: seq<Call>): Table {
    if calls == [] then [] else StepTable(lim, Run(lim, calls[..|calls| - 1]), calls[|calls| - 1])
  }

  // ---------- the admission log ----------

  /** An admission: the time recorded for it, and the clock reading that decided it. */
  datatype Admission = Admission(recorded: int, decided: int)

  /** The last reading before an `is_allowed` answers: it prunes only if the address is tracked. */
  function Decision(t: Table, c: Call): int
    requires c.AllowCall?
  {
    if Tracked(t, c.ip) then c.pruning else c.recorded
  }

  /** `ip` loses its record to another address. */
  predicate Evicts(lim: Limits, t: Table, c: Call, ip: string) {
    c.AllowCall? && Tracked(t, ip) && !Tracked(StepTable(lim, t, c), ip)
  }

  /** What a call adds to the log of `ip`; losing the record to another address empties it. */
  function LogAfter(lim: Limits, t: Table, log: seq<Admission>, c: Call, ip: string): seq<Admission> {
    if Evicts(lim, t, c, ip) then []
    else if c.AllowCall? && c.ip == ip && Allow(lim, t, ip, c.recorded, c.pruning).1 then
      log + [Admission(c.recorded, Decision(t, c))]
    else log
  }

  /** The admissions of `ip` since its record was last evicted, or since the beginning. */
  function Admitted(lim: Limits, calls: seq<Call>, ip: string): seq<Admission> {
    if calls == [] then []
    else
      var before, c := calls[..|calls| - 1], calls[|calls| - 1];
      LogAfter(lim, Run(lim, before), Admitted(lim, before, ip), c, ip)
  }

  /** How many admissions in the log are at most `window` old at `now`. */
  function CountFresh(log: seq<Admission>, now: int, window: int): nat {
    if log == [] then 0
    else CountFresh(log[..|log| - 1], now, window) + if now - log[|log| - 1].recorded <= window then 1 else 0
  }

  /** The times in the record of `ip`; none if it is not tracked. */
  function StampsOf(t: Table, ip: string): seq<int> {
    if Tracked(t, ip) then t[IndexOf(t, ip)].stamps else []
  }

  // ---------- what one call does to one address ----------

  lemma FoundByIp(t: Table, r: Record)
    requires DistinctIps(t) && r in t
    ensures Tracked(t, r.ip) && StampsOf(t, r.ip) == r.stamps
  {
    var i :| 0 <= i < |t| && t[i] == r;
    IndexOfAt(t, i);
  }

  lemma {:induction false} DropIdleKeeps(t: Table, done: set<string>)
    ensures forall r :: r in DropIdle(t, done) <==> r in t && !(r.ip in done && r.stamps == [])
    ensures DistinctIps(t) ==> DistinctIps(DropIdle(t, done))
  {
    if t != [] {
      var front, last := t[..|t| - 1], t[|t| - 1];
      DropIdleKeeps(front, done);
      assert t == front + [last];
      if DistinctIps(t) {
        assert forall r :: r in front ==> r.ip != last.ip;
        forall i | 0 <= i < |DropIdle(front, done)| ensures DropIdle(front, done)[i].ip != last.ip {
          assert DropIdle(front, done)[i] in front;
        }
      }
    }
  }

  /** `cleanup` prunes each record at its own reading and keeps exactly those with times left. */
  lemma CleanupKeeps(lim: Limits, t: Table, clock: string -> int)
    requires DistinctIps(t)
    ensures DistinctIps(Cleanup(lim, t, clock))
    ensures forall r :: r in t && Prune(r.stamps, clock(r.ip), lim.window) != [] ==>
              Record(r.ip, Prune(r.stamps, clock(r.ip), lim.window)) in Cleanup(lim, t, clock)
    ensures forall r' :: r' in Cleanup(lim, t, clock) ==>
              && r'.stamps != []
              && exists r :: r in t && r.ip == r'.ip && r'.stamps == Prune(r.stamps, clock(r.ip), lim.window)
  {
    var pruned := PruneAll(lim, t, Ips(t), clock);
    DropIdleKeeps(pruned, Ips(t));
    forall r | r in t ensures r.ip in Ips(t) && Record(r.ip, Prune(r.stamps, clock(r.ip), lim.window)) in pruned {
      var i :| 0 <= i < |t| && t[i] == r;
      assert pruned[i] == Record(r.ip, Prune(r.stamps, clock(r.ip), lim.window));
    }
    forall r' | r' in pruned
      ensures exists r :: r in t && r.ip == r'.ip && r'.stamps == Prune(r.stamps, clock(r.ip), lim.window)
    {
      var i :| 0 <= i < |pruned| && pruned[i] == r';
      assert t[i] in t;
    }
  }

  lemma AllowKeeps(lim: Limits, t: Table, c: Call)
    requires DistinctIps(t) && c.AllowCall? && lim.maxRequests > 0
    ensures var t' := StepTable(lim, t, c);
      && DistinctIps(t')
      && |t'| > 0 && t'[0].ip == c.ip
      && (forall r :: r in t' && r.ip != c.ip ==> r in t)
      && (Tracked(t, c.ip) ==> forall r :: r in t && r.ip != c.ip ==> r in t')
  {
    var i := IndexOf(t, c.ip);
    if i < |t| {
      RemoveAtProperties(t, i);
    } else {
      assert forall r :: r in t ==> r.ip != c.ip;
      assert EvictIfFull(lim, t) <= t;
    }
  }

  /** The times recorded for `ip` after one call that does not evict it. */
  lemma StampsAfter(lim: Limits, t: Table, c: Call, ip: string)
    requires DistinctIps(t) && lim.maxRequests > 0 && !Evicts(lim, t, c, ip)
    ensures var t' := StepTable(lim, t, c);
      && DistinctIps(t')
      && match c
         case AllowCall(ip', recorded, pruning) =>
           var kept := if Tracked(t, ip) then Prune(StampsOf(t, ip), pruning, lim.window) else [];
           if ip' != ip then Tracked(t', ip) == Tracked(t, ip) && StampsOf(t', ip) == StampsOf(t, ip)
           else
             && Tracked(t', ip)
             && Allow(lim, t, ip, recorded, pruning).1 == (|kept| < lim.maxRequests)
             && StampsOf(t', ip) == kept + if |kept| < lim.maxRequests then [recorded] else []
         case RemainingCall(ip', now) =>
           && Tracked(t', ip) == Tracked(t, ip)
           && StampsOf(t', ip) == (if ip' == ip then Prune(StampsOf(t, ip), now, lim.window) else StampsOf(t, ip))
         case CleanupCall(_, _, clock) =>
           && StampsOf(t', ip) == Prune(StampsOf(t, ip), clock(ip), lim.window)
           && (Tracked(t', ip) <==> StampsOf(t', ip) != [])
  {
    var t' := StepTable(lim, t, c);
    match c {
      case AllowCall(ip', recorded, pruning) =>
        AllowKeeps(lim, t, c);
        if ip' == ip {
          FoundByIp(t', t'[0]);
        } else {
          OtherStampsAfterAllow(lim, t, c, ip);
        }
      case RemainingCall(ip', now) =>
        RemainingStamps(lim, t, ip', now, ip);
      case CleanupCall(_, _, clock) =>
        CleanupStamps(lim, t, clock, ip);
    }
  }

  lemma OtherStampsAfterAllow(lim: Limits, t: Table, c: Call, ip: string)
    requires DistinctIps(t) && c.AllowCall? && lim.maxRequests > 0 && !Evicts(lim, t, c, ip) && ip != c.ip
    ensures var t' := StepTable(lim, t, c);
      Tracked(t', ip) == Tracked(t, ip) && StampsOf(t', ip) == StampsOf(t, ip)
  {
    var t' := StepTable(lim, t, c);
    AllowKeeps(lim, t, c);
    if Tracked(t', ip) {
      FoundByIp(t, t'[IndexOf(t', ip)]);
    }
  }

  lemma RemainingStamps(lim: Limits, t: Table, ip': string, now: int, ip: string)
    requires DistinctIps(t)
    ensures var t' := Remaining(lim, t, ip', now).0;
      && DistinctIps(t')
      && Tracked(t', ip) == Tracked(t, ip)
      && StampsOf(t', ip) == (if ip' == ip then Prune(StampsOf(t, ip), now, lim.window) else StampsOf(t, ip))
  {
    var t' := Remaining(lim, t, ip', now).0;
    assert |t'| == |t| && forall j :: 0 <= j < |t| ==> t'[j].ip == t[j].ip;
    var i := IndexOf(t, ip);
    if i < |t| {
      FoundByIp(t', t'[i]);
    } else {
      assert forall j :: 0 <= j < |t'| ==> t'[j].ip != ip;
    }
  }

  lemma CleanupStamps(lim: Limits, t: Table, clock: string -> int, ip: string)
    requires DistinctIps(t)
    ensures var t' := Cleanup(lim, t, clock);
      && DistinctIps(t')
      && StampsOf(t', ip) == Prune(StampsOf(t, ip), clock(ip), lim.window)
      && (Tracked(t', ip) <==> StampsOf(t', ip) != [])
  {
    hide Cleanup, Prune;
    var t' := Cleanup(lim, t, clock);
    CleanupKeeps(lim, t, clock);
    if Tracked(t', ip) {
      var r' := t'[IndexOf(t', ip)];
      var r :| r in t && r.ip == r'.ip && r'.stamps == Prune(r.stamps, clock(r.ip), lim.window);
      FoundByIp(t, r);
    } else if Tracked(t, ip) {
      var r := t[IndexOf(t, ip)];
      if Prune(r.stamps, clock(ip), lim.window) != [] {
        FoundByIp(t', Record(ip, Prune(r.stamps, clock(ip), lim.window)));
      }
    }
  }

  // ---------- the invariant ----------

  /**
   * The record holds the end of the admission log. Everything before it had expired by `now`, and
   * whenever a later admission was decided, all but the last `maxRequests - 1` before it had.
   */
  ghost predicate LogInvariant(lim: Limits, log: seq<Admission>, stamps: seq<int>, now: int) {
    var d := |log| - |stamps|;
    && d >= 0
    && |stamps| <= lim.maxRequests
    && (forall i :: d <= i < |log| ==> stamps[i - d] == log[i].recorded)
    && (forall i :: 0 <= i < d ==> now - log[i].recorded > lim.window)
    && (forall i :: 0 <= i < |log| ==> log[i].recorded <= log[i].decided <= now)
    && (forall i, j :: 0 <= i < j < |log| ==> log[i].decided <= log[j].recorded)
    && (forall i, j :: 0 <= i && i + lim.maxRequests <= j < |log| ==> log[j].decided - log[i].recorded > lim.window)
  }

  lemma InvariantLater(lim: Limits, log: seq<Admission>, stamps: seq<int>, last: int, now: int)
    requires last <= now && LogInvariant(lim, log, stamps, last)
    ensures LogInvariant(lim, log, stamps, now)
  {}

  lemma InvariantAfterPrune(lim: Limits, log: seq<Admission>, stamps: seq<int>, last: int, now: int)
    requires last <= now && LogInvariant(lim, log, stamps, last)
    ensures LogInvariant(lim, log, Prune(stamps, now, lim.window), now)
  {
    hide Prune;
    InvariantLater(lim, log, stamps, last, now);
    var kept := Prune(stamps, now, lim.window);
    var d := |log| - |stamps|;
    forall i | 0 <= i < |log| - |kept| ensures now - log[i].recorded > lim.window {
      if i >= d {
        assert stamps[i - d] == log[i].recorded;
      }
    }
    forall i | |log| - |kept| <= i < |log| ensures kept[i - (|log| - |kept|)] == log[i].recorded {
      assert stamps[i - d] == log[i].recorded;
    }
  }

  lemma InvariantAfterAdmission(lim: Limits, log: seq<Admission>, kept: seq<int>, a: Admission, now: int)
    requires lim.maxRequests > 0 && LogInvariant(lim, log, kept, a.decided) && |kept| < lim.maxRequests
    requires forall i :: 0 <= i < |log| ==> log[i].decided <= a.recorded
    requires a.recorded <= a.decided <= now
    ensures LogInvariant(lim, log + [a], kept + [a.recorded], now)
  {}

  lemma {:induction false} RunKeepsInvariant(lim: Limits, calls: seq<Call>, ip: string)
    requires lim.maxRequests > 0 && Ticking(calls) && calls != []
    ensures DistinctIps(Run(lim, calls))
    ensures LogInvariant(lim, Admitted(lim, calls, ip), StampsOf(Run(lim, calls), ip), End(calls[|calls| - 1]))
  {
    var before, c := calls[..|calls| - 1], calls[|calls| - 1];
    var t, log := Run(lim, before), Admitted(lim, before, ip);
    var stamps := StampsOf(t, ip);
    var last := if before == [] then Begin(c) else End(before[|before| - 1]);
    if before != [] {
      RunKeepsInvariant(lim, before, ip);
    }
    assert LogInvariant(lim, log, stamps, last);
    StepKeepsInvariant(lim, t, log, c, ip, last);
  }

  lemma StepKeepsInvariant(lim: Limits, t: Table, log: seq<Admission>, c: Call, ip: string, last: int)
    requires lim.maxRequests > 0 && DistinctIps(t) && WellTimed(c) && last <= Begin(c)
    requires LogInvariant(lim, log, StampsOf(t, ip), last)
    ensures DistinctIps(StepTable(lim, t, c))
    ensures LogInvariant(lim, LogAfter(lim, t, log, c, ip), StampsOf(StepTable(lim, t, c), ip), End(c))
  {
    hide Prune, Allow, LogInvariant;
    var stamps := StampsOf(t, ip);
    if Evicts(lim, t, c, ip) {
      AllowKeeps(lim, t, c);
      EmptyInvariant(lim, End(c));
    } else {
      StampsAfter(lim, t, c, ip);
      match c {
        case AllowCall(ip', recorded, pruning) =>
          if ip' == ip {
            InvariantAfterPrune(lim, log, stamps, last, Decision(t, c));
            AllowKeepsInvariant(lim, t, log, c, last);
          } else {
            InvariantLater(lim, log, stamps, last, pruning);
          }
        case RemainingCall(ip', now) =>
          InvariantLater(lim, log, stamps, last, now);
          InvariantAfterPrune(lim, log, stamps, last, now);
        case CleanupCall(begin, end, clock) =>
          InvariantAfterPrune(lim, log, stamps, last, clock(ip));
          InvariantLater(lim, log, Prune(stamps, clock(ip), lim.window), clock(ip), end);
      }
    }
  }

  lemma AllowKeepsInvariant(lim: Limits, t: Table, log: seq<Admission>, c: Call, last: int)
    requires lim.maxRequests > 0 && DistinctIps(t) && c.AllowCall? && WellTimed(c) && last <= c.recorded
    requires LogInvariant(lim, log, StampsOf(t, c.ip), last)
    requires LogInvariant(lim, log, Prune(StampsOf(t, c.ip), Decision(t, c), lim.window), Decision(t, c))
    requires !Evicts(lim, t, c, c.ip)
    ensures LogInvariant(lim, LogAfter(lim, t, log, c, c.ip), StampsOf(StepTable(lim, t, c), c.ip), c.pruning)
  {
    hide Prune, Allow, LogInvariant;
    StampsAfter(lim, t, c, c.ip);
    var kept := Prune(StampsOf(t, c.ip), Decision(t, c), lim.window);
    DecidedBy(lim, log, StampsOf(t, c.ip), last);
    if Allow(lim, t, c.ip, c.recorded, c.pruning).1 {
      InvariantAfterAdmission(lim, log, kept, Admission(c.recorded, Decision(t, c)), c.pruning);
    } else {
      assert Tracked(t, c.ip) && kept + [] == kept;
      InvariantLater(lim, log, kept, Decision(t, c), c.pruning);
    }
  }

  lemma EmptyInvariant(lim: Limits, now: int)
    requires lim.maxRequests > 0
    ensures LogInvariant(lim, [], [], now)
  {}

  lemma DecidedBy(lim: Limits, log: seq<Admission>, stamps: seq<int>, now: int)
    requires LogInvariant(lim, log, stamps, now)
    ensures forall i :: 0 <= i < |log| ==> log[i].decided <= now
  {}
}
