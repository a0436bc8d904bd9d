/**
 * The rate limiter as a value: one record per tracked address, in recency order, most recent
 * first, each with its queue of admission times. RateLimiter is proved to do exactly these steps.
 */
module LimiterModel {
  import opened Sequences

  datatype Record = Record(ip: string, stamps: seq<int>)

  type Table = seq<Record>

  /** Times and the window are in ticks of the steady clock. */
  datatype Limits = Limits(maxRequests: int, window: int, maxRecords: nat)

  /** Where the record of `ip` stands, or the length if the address is not tracked. */
  function IndexOf(t: Table, ip: string): (i: nat)
    ensures i <= |t|
    ensures i < |t| ==> t[i].ip == ip
    ensures forall j :: 0 <= j < i ==> t[j].ip != ip
  {
    FindFrom(t, (e: Record) => e.ip == ip, 0)
  }

  predicate Tracked(t: Table, ip: string) {
    IndexOf(t, ip) < |t|
  }

  predicate DistinctIps(t: Table) {
    forall i, j :: 0 <= i < j < |t| ==> t[i].ip != t[j].ip
  }

  lemma IndexOfAt(t: Table, i: nat)
    requires i < |t| && DistinctIps(t)
    ensures IndexOf(t, t[i].ip) == i
  {}

  /** Drops expired times from the front of the queue, and stops at the first that is not. */
  function Prune(stamps: seq<int>, now: int, window: int): (kept: seq<int>)
    ensures |kept| <= |stamps| && kept == stamps[|stamps| - |kept|..]
    ensures forall i :: 0 <= i < |stamps| - |kept| ==> now - stamps[i] > window
    ensures kept != [] ==> now - kept[0] <= window
  {
    if stamps != [] && now - stamps[0] > window then Prune(stamps[1..], now, window) else stamps
  }

  /** What a full table gives up before it tracks one more address. */
  function EvictIfFull(lim: Limits, t: Table): Table {
    if |t| >= lim.maxRecords && t != [] then t[..|t| - 1] else t
  }

  /** `is_allowed` for an address at position `i`; the two clock readings are taken in this order. */
  function AllowAt(lim: Limits, t: Table, i: nat, ip: string, recorded: int, pruning: int): (Table, bool)
    requires i <= |t|
  {
    if lim.maxRequests <= 0 then (t, false)
    else if i == |t| then ([Record(ip, [recorded])] + EvictIfFull(lim, t), true)
    else
      var kept := Prune(t[i].stamps, pruning, lim.window);
      var allowed := |kept| < lim.maxRequests;
      ([Record(ip, if allowed then kept + [recorded] else kept)] + RemoveAt(t, i), allowed)
  }

  function Allow(lim: Limits, t: Table, ip: string, recorded: int, pruning: int): (Table, bool) {
    AllowAt(lim, t, IndexOf(t, ip), ip, recorded, pruning)
  }

  /** `get_remaining` for an address at position `i`; the record keeps its position. */
  function RemainingAt(lim: Limits, t: Table, i: nat, now: int): (Table, int)
    requires i <= |t|
  {
    if i == |t| then (t, lim.maxRequests)
    else
      var kept := Prune(t[i].stamps, now, lim.window);
      (t[i := Record(t[i].ip, kept)], if lim.maxRequests > |kept| then lim.maxRequests - |kept| else 0)
  }

  function Remaining(lim: Limits, t: Table, ip: string, now: int): (Table, int) {
    RemainingAt(lim, t, IndexOf(t, ip), now)
  }

  /** Prunes the records of the addresses in `done`, each at its own clock reading. */
  function PruneAll(lim: Limits, t: Table, done: set<string>, clock: string -> int): Table {
    seq(|t|, i requires 0 <= i < |t| =>
      if t[i].ip in done then Record(t[i].ip, Prune(t[i].stamps, clock(t[i].ip), lim.window)) else t[i])
  }

  /** Without the idle records of the addresses in `done`. */
  function DropIdle(t: Table, done: set<string>): Table {
    if t == [] then []
    else
      var last := t[|t| - 1];
      DropIdle(t[..|t| - 1], done) + if last.ip in done && last.stamps == [] then [] else [last]
  }

  function Ips(t: Table): set<string> {
    set r | r in t :: r.ip
  }

  /** `cleanup`: prune every record, then drop those left without times. */
  function Cleanup(lim: Limits, t: Table, clock: string -> int): Table {
    DropIdle(PruneAll(lim, t, Ips(t), clock), Ips(t))
  }
}
