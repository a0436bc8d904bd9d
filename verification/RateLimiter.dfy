/** `RateLimiter`: the map of records and the recency list that hold references into each other. */
module RateLimiters {
  import opened Sequences
  import opened RecencyLists
  import opened LinkedKeys
  import opened LimiterModel
  import opened LimiterRuns
  import opened LimiterWindows

  datatype IPRecord = IPRecord(timestamps: seq<int>, lruIt: Node)

  ghost function Refs(m: map<string, IPRecord>): map<string, Node> {
    map k | k in m :: m[k].lruIt
  }

  /** The list's nodes, each with the record the map holds for its address. */
  ghost function TableOf(nodes: seq<Node>, m: map<string, IPRecord>): (t: Table)
    requires Linked(nodes, Refs(m))
    ensures |t| == |nodes|
  {
    seq(|nodes|, i requires 0 <= i < |nodes| => Record(nodes[i].key, m[nodes[i].key].timestamps))
  }

  lemma Position(nodes: seq<Node>, m: map<string, IPRecord>, ip: string) returns (i: nat)
    requires Linked(nodes, Refs(m))
    ensures var t := TableOf(nodes, m);
      && DistinctIps(t)
      && i == IndexOf(t, ip)
      && (ip in m <==> i < |nodes|)
      && (ip in m ==> nodes[i] == m[ip].lruIt && nodes[i].key == ip && t[i] == Record(ip, m[ip].timestamps))
  {
    KeysAreDistinct(nodes, Refs(m));
    var t := TableOf(nodes, m);
    i := IndexOf(t, ip);
    if ip in m {
      assert ip in Refs(m);
      var j :| 0 <= j < |nodes| && nodes[j] == Refs(m)[ip];
      IndexOfAt(t, j);
    }
  }

  lemma EraseFromTable(nodes: seq<Node>, m: map<string, IPRecord>, i: nat)
    requires Linked(nodes, Refs(m)) && i < |nodes|
    ensures var m' := m - {nodes[i].key};
      Linked(RemoveAt(nodes, i), Refs(m')) && TableOf(RemoveAt(nodes, i), m') == RemoveAt(TableOf(nodes, m), i)
  {
    hide RemoveAt;
    var rest, m' := RemoveAt(nodes, i), m - {nodes[i].key};
    EraseLinked(nodes, Refs(m), i);
    assert Refs(m') == Refs(m) - {nodes[i].key};
    KeysAreDistinct(nodes, Refs(m));
    RemoveAtProperties(nodes, i);
    RemoveAtProperties(TableOf(nodes, m), i);
    forall j | 0 <= j < |rest| ensures TableOf(rest, m')[j] == RemoveAt(TableOf(nodes, m), i)[j] {
      assert rest[j] == nodes[if j < i then j else j + 1];
    }
  }

  lemma ToFrontOfTable(nodes: seq<Node>, m: map<string, IPRecord>, i: nat)
    requires Linked(nodes, Refs(m)) && i < |nodes|
    ensures Linked(ToFront(nodes, i), Refs(m))
    ensures TableOf(ToFront(nodes, i), m) == ToFront(TableOf(nodes, m), i)
  {
    hide RemoveAt, ToFront;
    ToFrontLinked(nodes, Refs(m), i);
    ToFrontProperties(nodes, i);
    ToFrontProperties(TableOf(nodes, m), i);
  }

  lemma PushOntoTable(nodes: seq<Node>, m: map<string, IPRecord>, r: IPRecord)
    requires Linked(nodes, Refs(m)) && r.lruIt.key !in m
    ensures var ip := r.lruIt.key;
      && Linked([r.lruIt] + nodes, Refs(m[ip := r]))
      && TableOf([r.lruIt] + nodes, m[ip := r]) == [Record(ip, r.timestamps)] + TableOf(nodes, m)
  {
    PushLinked(nodes, Refs(m), r.lruIt);
    assert Refs(m[r.lruIt.key := r]) == Refs(m)[r.lruIt.key := r.lruIt];
  }

  lemma StoreInTable(nodes: seq<Node>, m: map<string, IPRecord>, i: nat, stamps: seq<int>)
    requires Linked(nodes, Refs(m)) && i < |nodes|
    ensures var ip := nodes[i].key; var m' := m[ip := IPRecord(stamps, nodes[i])];
      && Linked(nodes, Refs(m'))
      && TableOf(nodes, m') == TableOf(nodes, m)[i := Record(ip, stamps)]
  {
    var ip := nodes[i].key;
    var m' := m[ip := IPRecord(stamps, nodes[i])];
    assert Refs(m') == Refs(m);
    KeysAreDistinct(nodes, Refs(m));
    assert TableOf(nodes, m') == TableOf(nodes, m)[i := Record(ip, stamps)];
  }

  lemma StoreInFront(t: Table, i: nat, r: Record)
    requires i < |t|
    ensures |ToFront(t, i)| > 0 && ToFront(t, i)[0 := r] == [r] + RemoveAt(t, i)
  {}

  class RateLimiter {
    const limits: Limits
    const lruList: RecencyList
    var ipRecords: map<string, IPRecord>

    ghost var calls: seq<Call>  // every call so far, with its clock readings

    /** The links between map and list are sound. */
    ghost predicate Structured()
      reads this`ipRecords, lruList, lruList.ring
    {
      && lruList.Valid()
      && Linked(lruList.Nodes(), Refs(ipRecords))
    }

    /** The limiter as a value. */
    ghost function Table(): Table
      requires Structured()
      reads this`ipRecords, lruList, lruList.ring
    {
      TableOf(lruList.Nodes(), ipRecords)
    }

    /** The limiter is in the state that its calls so far lead to. */
    ghost predicate Valid()
      reads this, lruList, lruList.ring
    {
      Structured() && Table() == Run(limits, calls)
    }

    constructor (maxRequests: int, window: int, maxIpRecords: nat := 10000)
      ensures Valid() && fresh(lruList) && fresh(lruList.ring)
      ensures limits == Limits(maxRequests, window, maxIpRecords) && calls == []
    {
      limits := Limits(maxRequests, window, maxIpRecords);
      var l := new RecencyList();
      lruList := l;
      ipRecords := map[];
      calls := [];
    }

    /** Pops expired times off the front of a record's queue. */
    method CleanupOldTimestamps(timestamps: seq<int>, now: int) returns (kept: seq<int>)
      ensures kept == Prune(timestamps, now, limits.window)
    {
      kept := timestamps;
      while kept != [] && now - kept[0] > limits.window
        invariant Prune(kept, now, limits.window) == Prune(timestamps, now, limits.window)
        decreases |kept|
      {
        kept := kept[1..];
      }
    }

    method EvictLru()
      requires Structured()
      modifies this`ipRecords, lruList`ring, lruList.ring
      ensures Structured() && (forall n :: n in lruList.ring ==> n in old(lruList.ring))
      ensures Table() == if old(Table()) == [] then [] else old(Table())[..|old(Table())| - 1]
      ensures forall k :: k in ipRecords ==> k in old(ipRecords)
    {
      hide TableOf, Linked, Refs;
      var empty := lruList.IsEmpty();
      if empty {
        return;
      }
      ghost var nodes, t := lruList.Nodes(), Table();
      var back := lruList.Back();
      EraseFromTable(nodes, ipRecords, |nodes| - 1);
      lruList.Erase(back, |nodes| - 1);
      ipRecords := ipRecords - {back.key};
      assert RemoveAt(t, |t| - 1) == t[..|t| - 1];
    }

    /** Tracks an address that has no record, after making room if the table is full. */
    method Track(ip: string, recorded: int)
      requires Structured() && ip !in ipRecords
      modifies this`ipRecords, lruList`ring, lruList.ring
      ensures Structured() && forall n :: n in lruList.ring ==> n in old(lruList.ring) || fresh(n)
      ensures Table() == [Record(ip, [recorded])] + EvictIfFull(limits, old(Table()))
    {
      hide TableOf, Linked, Refs;
      LinkedSize(lruList.Nodes(), Refs(ipRecords));
      SameSize(ipRecords);
      if |ipRecords| >= limits.maxRecords {
        EvictLru();
      }
      assert forall j :: 0 <= j < |lruList.ring| ==> lruList.ring[j] in lruList.ring;
      ghost var nodes := lruList.Nodes();
      var node := lruList.PushFront(ip);
      PushOntoTable(nodes, ipRecords, IPRecord([recorded], node));
      ipRecords := ipRecords[ip := IPRecord([recorded], node)];
    }

    /** Splices the node of `ip` to the front of the list. */
    method Touch(ip: string, ghost i: nat)
      requires Structured() && ip in ipRecords
      requires i < |lruList.Nodes()| && lruList.Nodes()[i] == ipRecords[ip].lruIt && ipRecords[ip].lruIt.key == ip
      modifies lruList`ring, lruList.ring
      ensures Structured() && forall n :: n in lruList.ring ==> n in old(lruList.ring)
      ensures Table() == ToFront(old(Table()), i)
      ensures lruList.Nodes() != [] && lruList.Nodes()[0] == ipRecords[ip].lruIt
    {
      hide TableOf, Linked, Refs, ToFront;
      ToFrontOfTable(lruList.Nodes(), ipRecords, i);
      ToFrontProperties(lruList.Nodes(), i);
      lruList.MoveToFront(ipRecords[ip].lruIt, i);
    }

    /** Stores a record's queue of times. */
    method Store(ip: string, stamps: seq<int>, ghost i: nat)
      requires Structured() && ip in ipRecords
      requires i < |lruList.Nodes()| && lruList.Nodes()[i] == ipRecords[ip].lruIt && ipRecords[ip].lruIt.key == ip
      modifies this`ipRecords
      ensures Structured() && ipRecords.Keys == old(ipRecords.Keys)
      ensures Table() == old(Table())[i := Record(ip, stamps)]
    {
      hide TableOf, Linked, Refs;
      StoreInTable(lruList.Nodes(), ipRecords, i, stamps);
      ipRecords := ipRecords[ip := ipRecords[ip].(timestamps := stamps)];
    }

    /** The step of `is_allowed`, once the clock has been read. */
    method Decide(ip: string, recorded: int, pruning: int) returns (allowed: bool)
      requires Structured()
      modifies this`ipRecords, lruList`ring, lruList.ring
      ensures Structured() && forall n :: n in lruList.ring ==> n in old(lruList.ring) || fresh(n)
      ensures (Table(), allowed) == Allow(limits, old(Table()), ip, recorded, pruning)
    {
      hide Linked, IndexOf, Prune, RemoveAt, ToFront;
      if limits.maxRequests <= 0 {
        return false;
      }
      ghost var t := Table();
      ghost var i := Position(lruList.Nodes(), ipRecords, ip);
      if ip !in ipRecords {
        Track(ip, recorded);
        return true;
      }
      var timestamps := ipRecords[ip].timestamps;
      Touch(ip, i);
      var kept := CleanupOldTimestamps(timestamps, pruning);
      allowed := |kept| < limits.maxRequests;
      Store(ip, if allowed then kept + [recorded] else kept, 0);
      StoreInFront(t, i, Record(ip, if allowed then kept + [recorded] else kept));
    }

    /** The step of `get_remaining`, once the clock has been read. */
    method Inspect(ip: string, now: int) returns (remaining: int)
      requires Structured()
      modifies this`ipRecords
      ensures Structured()
      ensures (Table(), remaining) == Remaining(limits, old(Table()), ip, now)
    {
      hide Linked, IndexOf, Prune;
      ghost var i := Position(lruList.Nodes(), ipRecords, ip);
      if ip !in ipRecords {
        return limits.maxRequests;
      }
      var kept := CleanupOldTimestamps(ipRecords[ip].timestamps, now);
      Store(ip, kept, i);
      remaining := if limits.maxRequests - |kept| > 0 then limits.maxRequests - |kept| else 0;
    }

    /** Erases the record of `ip` from the list, through its reference, and from the map. */
    method Forget(ip: string, ghost i: nat)
      requires Structured() && ip in ipRecords
      requires i < |lruList.Nodes()| && lruList.Nodes()[i] == ipRecords[ip].lruIt && ipRecords[ip].lruIt.key == ip
      modifies this`ipRecords, lruList`ring, lruList.ring
      ensures Structured() && forall n :: n in lruList.ring ==> n in old(lruList.ring)
      ensures Table() == RemoveAt(old(Table()), i)
      ensures ipRecords == old(ipRecords) - {ip}
    {
      hide TableOf, Linked, Refs;
      EraseFromTable(lruList.Nodes(), ipRecords, i);
      lruList.Erase(ipRecords[ip].lruIt, i);
      ipRecords := ipRecords - {ip};
    }

    lemma TableIsDistinct()
      requires Structured()
      ensures DistinctIps(Table()) && Ips(Table()) == ipRecords.Keys
    {
      var _ := Position(lruList.Nodes(), ipRecords, "");
      MapHoldsIps(lruList.Nodes(), ipRecords);
    }

    /** `cleanup_old_timestamps` on the record of `ip`, where it stands. */
    method PruneRecord(ip: string, now: int) returns (ghost i: nat)
      requires Structured() && ip in ipRecords
      modifies this`ipRecords
      ensures Structured() && ipRecords.Keys == old(ipRecords.Keys)
      ensures i < |old(Table())| && old(Table())[i].ip == ip
      ensures Table() == old(Table())[i := Record(ip, Prune(old(Table())[i].stamps, now, limits.window))]
    {
      hide Linked, IndexOf, Prune;
      i := Position(lruList.Nodes(), ipRecords, ip);
      var kept := CleanupOldTimestamps(ipRecords[ip].timestamps, now);
      Store(ip, kept, i);
    }

    /** Erases the record of `ip` if no times are left in it. */
    method ForgetIfIdle(ip: string) returns (ghost i: nat)
      requires Structured() && ip in ipRecords
      modifies this`ipRecords, lruList`ring, lruList.ring
      ensures Structured() && forall n :: n in lruList.ring ==> n in old(lruList.ring)
      ensures forall k :: k in old(ipRecords) && k != ip ==> k in ipRecords
      ensures i < |old(Table())| && old(Table())[i].ip == ip
      ensures Table() == if old(Table())[i].stamps == [] then RemoveAt(old(Table()), i) else old(Table())
    {
      hide Linked, IndexOf, RemoveAt;
      i := Position(lruList.Nodes(), ipRecords, ip);
      if ipRecords[ip].timestamps == [] {
        Forget(ip, i);
      }
    }

    /** The first pass of `cleanup`: every record is pruned, in whatever order the map iterates. */
    method PruneRecords(clock: string -> int)
      requires Structured()
      modifies this`ipRecords
      ensures Structured() && ipRecords.Keys == old(ipRecords.Keys)
      ensures Table() == PruneAll(limits, old(Table()), old(ipRecords.Keys), clock)
    {
      hide Structured, Table, Prune, PruneAll, DistinctIps;
      TableIsDistinct();
      ghost var t, ips := Table(), ipRecords.Keys;
      PruneNone(limits, t, clock);
      var todo := ipRecords.Keys;
      assert ips - todo == {};
      while todo != {}
        invariant Structured() && ipRecords.Keys == ips && todo <= ips
        invariant Table() == PruneAll(limits, t, ips - todo, clock)
        decreases |todo|
      {
        var ip :| ip in todo;
        ghost var i := PruneRecord(ip, clock(ip));
        PruneOneMore(limits, t, ips - todo, clock, i);
        OneMoreDone(ips, todo, ip);
        todo := todo - {ip};
      }
      assert ips - todo == ips;
    }

    /** The two passes of `cleanup`. */
    method Sweep(clock: string -> int)
      requires Structured()
      modifies this`ipRecords, lruList`ring, lruList.ring
      ensures Structured() && forall n :: n in lruList.ring ==> n in old(lruList.ring)
      ensures Table() == LimiterModel.Cleanup(limits, old(Table()), clock)
    {
      hide Structured, Table, Prune, PruneAll, DropIdle, DistinctIps;
      TableIsDistinct();
      ghost var ips := ipRecords.Keys;
      PruneRecords(clock);
      TableIsDistinct();
      ghost var t := Table();
      DropNone(t);
      var todo := ipRecords.Keys;
      assert ips - todo == {};
      while todo != {}
        invariant Structured() && todo <= ips && forall ip :: ip in todo ==> ip in ipRecords
        invariant forall n :: n in lruList.ring ==> n in old(lruList.ring)
        invariant Table() == DropIdle(t, ips - todo)
        decreases |todo|
      {
        var ip :| ip in todo;
        assert forall k :: 0 <= k < |lruList.ring| ==> lruList.ring[k] in lruList.ring;
        ghost var i := ForgetIfIdle(ip);
        DropOneMore(t, ips - todo, i);
        OneMoreDone(ips, todo, ip);
        todo := todo - {ip};
      }
      assert ips - todo == ips;
    }

    /**
     * `is_allowed`: the answer is that fewer than `maxRequests` of the address's admissions since
     * its record was last evicted are still in the window, as long as the clock does not go back.
     */
    method IsAllowed(ip: string, recorded: int, pruning: int) returns (allowed: bool)
      requires Valid()
      modifies this, lruList, lruList.ring
      ensures Valid() && forall n :: n in lruList.ring ==> n in old(lruList.ring) || fresh(n)
      ensures calls == old(calls) + [AllowCall(ip, recorded, pruning)]
      ensures allowed == Allow(limits, Run(limits, old(calls)), ip, recorded, pruning).1
      ensures Ticking(calls) ==>
        var decision := Decision(Run(limits, old(calls)), AllowCall(ip, recorded, pruning));
        var live := CountFresh(Admitted(limits, old(calls), ip), decision, limits.window);
        (allowed <==> limits.maxRequests > 0 && live < limits.maxRequests)
    {
      hide Structured, Table, Run, Allow, CountFresh, Admitted, Decision;
      ghost var c := AllowCall(ip, recorded, pruning);
      allowed := Decide(ip, recorded, pruning);
      RunAfter(limits, calls, c);
      if Ticking(calls + [c]) {
        AllowCountsLog(limits, calls, c);
      }
      calls := calls + [c];
    }

    /** `get_remaining`: what the admissions still in the window leave of the limit. */
    method GetRemaining(ip: string, now: int) returns (remaining: int)
      requires Valid()
      modifies this`ipRecords, this`calls
      ensures Valid() && calls == old(calls) + [RemainingCall(ip, now)]
      ensures remaining == Remaining(limits, Run(limits, old(calls)), ip, now).1
      ensures Ticking(calls) ==>
        var live := CountFresh(Admitted(limits, old(calls), ip), now, limits.window);
        remaining == if limits.maxRequests < 0 then limits.maxRequests
                     else if limits.maxRequests > live then limits.maxRequests - live else 0
    {
      hide Structured, Table, Run, Remaining, CountFresh, Admitted;
      ghost var c := RemainingCall(ip, now);
      remaining := Inspect(ip, now);
      RunAfter(limits, calls, c);
      if Ticking(calls + [c]) {
        RemainingCountsLog(limits, calls, ip, now);
      }
      calls := calls + [c];
    }

    method Cleanup(begin: int, end: int, clock: string -> int)
      requires Valid()
      modifies this, lruList, lruList.ring
      ensures Valid() && forall n :: n in lruList.ring ==> n in old(lruList.ring)
      ensures calls == old(calls) + [CleanupCall(begin, end, clock)]
    {
      hide Structured, Table, Run, LimiterModel.Cleanup;
      Sweep(clock);
      RunAfter(limits, calls, CleanupCall(begin, end, clock));
      calls := calls + [CleanupCall(begin, end, clock)];
    }
  }

  lemma OneMoreDone(all: set<string>, todo: set<string>, ip: string)
    requires ip in todo && todo <= all
    ensures all - (todo - {ip}) == (all - todo) + {ip}
  {}

  lemma PruneNone(lim: Limits, t: Table, clock: string -> int)
    ensures PruneAll(lim, t, {}, clock) == t
  {}

  lemma PruneOneMore(lim: Limits, t: Table, done: set<string>, clock: string -> int, i: nat)
    requires DistinctIps(t) && i < |PruneAll(lim, t, done, clock)| && PruneAll(lim, t, done, clock)[i].ip !in done
    ensures var r := PruneAll(lim, t, done, clock)[i];
      PruneAll(lim, t, done + {r.ip}, clock)
      == PruneAll(lim, t, done, clock)[i := Record(r.ip, Prune(r.stamps, clock(r.ip), lim.window))]
  {}

  lemma {:induction false} DropNone(t: Table)
    ensures DropIdle(t, {}) == t
  {
    if t != [] {
      DropNone(t[..|t| - 1]);
    }
  }

  /** Once more address is done: its record goes, from wherever it stands by now, if it is idle. */
  lemma {:induction false} DropOneMore(t: Table, done: set<string>, i: nat)
    requires DistinctIps(t) && i < |DropIdle(t, done)| && DropIdle(t, done)[i].ip !in done
    ensures var kept := DropIdle(t, done);
      DropIdle(t, done + {kept[i].ip}) == if kept[i].stamps == [] then RemoveAt(kept, i) else kept
  {
    hide RemoveAt;
    var kept := DropIdle(t, done);
    var front, last := t[..|t| - 1], t[|t| - 1];
    var keptFront := DropIdle(front, done);
    RemoveAtConcat(keptFront, if last.ip in done && last.stamps == [] then [] else [last], i);
    if i < |keptFront| {
      DropOneMore(front, done, i);
      DropIdleMembers(front, done);
      assert keptFront[i] in front;
    } else {
      DropOther(front, done, last.ip);
    }
  }

  lemma RemoveAtConcat(a: Table, b: Table, i: nat)
    requires i < |a| + |b|
    ensures RemoveAt(a + b, i) == if i < |a| then RemoveAt(a, i) + b else a + RemoveAt(b, i - |a|)
    ensures |b| == 1 && i == |a| ==> RemoveAt(a + b, i) == a
  {}

  lemma {:induction false} DropIdleMembers(t: Table, done: set<string>)
    ensures forall r :: r in DropIdle(t, done) ==> r in t
  {
    if t != [] {
      DropIdleMembers(t[..|t| - 1], done);
    }
  }

  lemma {:induction false} DropOther(t: Table, done: set<string>, ip: string)
    requires forall r :: r in t ==> r.ip != ip
    ensures DropIdle(t, done + {ip}) == DropIdle(t, done)
  {
    if t != [] {
      assert t[|t| - 1] in t;
      DropOther(t[..|t| - 1], done, ip);
    }
  }

  lemma MapHoldsIps(nodes: seq<Node>, m: map<string, IPRecord>)
    requires Linked(nodes, Refs(m))
    ensures Ips(TableOf(nodes, m)) == m.Keys
  {
    var t := TableOf(nodes, m);
    forall ip | ip in m ensures ip in Ips(t) {
      var i := Position(nodes, m, ip);
      assert t[i] in t;
    }
    assert forall i :: 0 <= i < |t| ==> t[i].ip in m;
  }

  lemma SameSize(m: map<string, IPRecord>)
    ensures |Refs(m)| == |m|
  {
    assert Refs(m).Keys == m.Keys;
    assert |m| == |m.Keys| && |Refs(m)| == |Refs(m).Keys|;
  }
}
