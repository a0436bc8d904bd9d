/** The sharded cache as a value: one shard state per index, and the key's hash picks the index. */
module Sharding {
  import opened Wrappers
  import opened JsonObjects
  import opened CacheModel
  import opened CacheRuns

  type Positive = n: nat | n >= 1 witness 1

  datatype CacheConfig = CacheConfig(maxMemory: nat, shardCount: Positive, dumpSize: Json -> nat, hash: string -> nat) {
    /** Each shard's share of the memory, rounded up. */
    function ShardMemory(): nat {
      (maxMemory + shardCount - 1) / shardCount
    }

    function ShardConfig(): Config {
      Config(ShardMemory(), dumpSize)
    }

    function Index(key: string): (i: nat)
      ensures i < shardCount
    {
      hash(key) % shardCount
    }
  }

  type Cache = seq<Shard>

  function Empty(c: CacheConfig): Cache {
    seq(c.shardCount, _ => EMPTY)
  }

  function StepAll(c: CacheConfig, cache: Cache, op: Op): (Cache, Option<Json>)
    requires |cache| == c.shardCount
  {
    var i := c.Index(op.key);
    var (s, answer) := Step(c.ShardConfig(), cache[i], op);
    (cache[i := s], answer)
  }

  function RunAll(c: CacheConfig, ops: seq<Op>): (cache: Cache)
    ensures |cache| == c.shardCount
  {
    if ops == [] then Empty(c) else StepAll(c, RunAll(c, ops[..|ops| - 1]), ops[|ops| - 1]).0
  }

  lemma RunAllAfter(c: CacheConfig, ops: seq<Op>, op: Op)
    ensures RunAll(c, ops + [op]) == StepAll(c, RunAll(c, ops), op).0
  {
    assert (ops + [op])[..|ops|] == ops;
  }

  // ---------- routing ----------

  /** The calls that reach shard `i`, in order. */
  function Routed(c: CacheConfig, ops: seq<Op>, i: nat): seq<Op> {
    if ops == [] then []
    else
      var before, op := Routed(c, ops[..|ops| - 1], i), ops[|ops| - 1];
      if c.Index(op.key) == i then before + [op] else before
  }

  /** Each shard is in the state it would be in had it served only its own calls. */
  lemma {:induction false} ShardRunsItsOwnCalls(c: CacheConfig, ops: seq<Op>, i: nat)
    requires i < c.shardCount
    ensures RunAll(c, ops)[i] == Run(c.ShardConfig(), Routed(c, ops, i))
  {
    if ops != [] {
      var before, op := ops[..|ops| - 1], ops[|ops| - 1];
      ShardRunsItsOwnCalls(c, before, i);
      if c.Index(op.key) == i {
        var own := Routed(c, before, i) + [op];
        assert own[..|own| - 1] == Routed(c, before, i);
      }
    }
  }

  lemma {:induction false} RoutingKeepsLatestPut(c: CacheConfig, ops: seq<Op>, key: string)
    ensures LatestPut(Routed(c, ops, c.Index(key)), key) == LatestPut(ops, key)
  {
    if ops != [] {
      var before, op := ops[..|ops| - 1], ops[|ops| - 1];
      RoutingKeepsLatestPut(c, before, key);
      var own := Routed(c, before, c.Index(key)) + [op];
      assert own[..|own| - 1] == Routed(c, before, c.Index(key));
    }
  }

  /** A key lives in no shard but its own. */
  lemma {:induction false} KeysLiveInTheirShard(c: CacheConfig, ops: seq<Op>, i: nat)
    requires i < c.shardCount
    ensures forall e :: e in RunAll(c, ops)[i].entries ==> c.hash(e.key) % c.shardCount == i
  {
    if ops != [] {
      var before, op := ops[..|ops| - 1], ops[|ops| - 1];
      KeysLiveInTheirShard(c, before, i);
      if c.Index(op.key) == i {
        ShardRunsItsOwnCalls(c, before, i);
        RunByRecency(c.ShardConfig(), Routed(c, before, i));
        StepKeepsOrder(c.ShardConfig(), RunAll(c, before)[i], op, Routed(c, before, i));
      }
    }
  }

  predicate Resident(c: CacheConfig, cache: Cache, key: string)
    requires |cache| == c.shardCount
  {
    Has(cache[c.Index(key)].entries, key)
  }

  /** A call reaches the shard that its key's hash selects, and no other. */
  lemma OtherShardsAreUntouched(c: CacheConfig, cache: Cache, op: Op)
    requires |cache| == c.shardCount
    ensures var cache' := StepAll(c, cache, op).0;
      && |cache'| == |cache|
      && (forall i :: 0 <= i < |cache| && i != c.hash(op.key) % c.shardCount ==> cache'[i] == cache[i])
      && (Resident(c, cache, op.key) <==> Has(cache[c.hash(op.key) % c.shardCount].entries, op.key))
  {}

  /** The whole cache answers from the latest `put` of the key among all calls to all shards. */
  lemma CacheAnswersLatestPut(c: CacheConfig, ops: seq<Op>, key: string, now: int)
    ensures
      var cache := RunAll(c, ops);
      var answer, latest := StepAll(c, cache, GetOp(key, now)).1, LatestPut(ops, key);
      && (Resident(c, cache, key) ==> latest.Some?)
      && (answer.Some? ==> answer == Some(latest.value.value))
      && (answer.Some? <==> (Resident(c, cache, key) &&
            match latest.value.kind
            case IpGeolocation => now - latest.value.now <= 3_600_000_000_000
            case MacOui => now - latest.value.now <= 604_800_000_000_000
            case Negative => now - latest.value.now <= 300_000_000_000))
  {
    var i := c.Index(key);
    ShardRunsItsOwnCalls(c, ops, i);
    RoutingKeepsLatestPut(c, ops, key);
    GetAnswersLatestPut(c.ShardConfig(), Routed(c, ops, i), key, now);
  }

  /** What was written is still young enough to be answered. */
  predicate Fresh(latest: Option<Written>, now: int) {
    latest.Some? && now - latest.value.now <= TtlForType(latest.value.kind)
  }

  /** A `get` answers exactly if the key is resident and its latest `put` is fresh. */
  lemma AnsweredIffFresh(c: CacheConfig, ops: seq<Op>, key: string, now: int)
    ensures
      var cache, latest := RunAll(c, ops), LatestPut(ops, key);
      StepAll(c, cache, GetOp(key, now)).1 ==
      if Resident(c, cache, key) && Fresh(latest, now) then Some(latest.value.value) else None
  {
    CacheAnswersLatestPut(c, ops, key, now);
  }

  /** A call leaves its key resident exactly if it stored it or found it. */
  lemma ResidentAfterCall(c: CacheConfig, ops: seq<Op>, op: Op)
    ensures
      var (cache', answer) := StepAll(c, RunAll(c, ops), op);
      Resident(c, cache', op.key) <==> op.PutOp? || answer.Some?
  {
    var i := c.Index(op.key);
    ShardRunsItsOwnCalls(c, ops, i);
    ResidentAfter(c.ShardConfig(), Routed(c, ops, i), op);
  }

  // ---------- the summary over all shards ----------

  function AddStats(a: CacheStats, b: CacheStats): CacheStats {
    CacheStats(a.lookups + b.lookups, a.hits + b.hits, a.misses + b.misses,
      a.evictions + b.evictions, a.expired + b.expired, a.memoryUsage + b.memoryUsage)
  }

  /** What `get_stats` adds up: every shard's counters, and then its byte total. */
  function Combined(cache: Cache): CacheStats {
    if cache == [] then NO_STATS
    else
      var s := cache[|cache| - 1];
      var sum := AddStats(Combined(cache[..|cache| - 1]), s.stats);
      sum.(memoryUsage := sum.memoryUsage + TotalSize(s.entries))
  }

  /** The sum of `f` over the shards. */
  function Total(cache: Cache, f: Shard -> nat): nat {
    if cache == [] then 0 else Total(cache[..|cache| - 1], f) + f(cache[|cache| - 1])
  }

  lemma {:induction false} TotalUpdate(cache: Cache, i: nat, s: Shard, f: Shard -> nat)
    requires i < |cache|
    ensures Total(cache[i := s], f) == Total(cache, f) - f(cache[i]) + f(s)
  {
    var n := |cache| - 1;
    if i == n {
      assert cache[i := s][..n] == cache[..n];
    } else {
      assert cache[i := s][..n] == cache[..n][i := s];
      TotalUpdate(cache[..n], i, s, f);
    }
  }

  function LiveEntries(s: Shard): nat { |s.entries| }
  function Bytes(s: Shard): nat { TotalSize(s.entries) }
  function Evictions(s: Shard): nat { s.stats.evictions }
  function Expired(s: Shard): nat { s.stats.expired }
  function LookupCount(s: Shard): nat { s.stats.lookups }
  function Hits(s: Shard): nat { s.stats.hits }
  function Misses(s: Shard): nat { s.stats.misses }

  /** No shard writes its own memory field, so the summary's memory figure is the byte total. */
  lemma {:induction false} CombinedIsTotal(cache: Cache)
    requires forall i :: 0 <= i < |cache| ==> cache[i].stats.memoryUsage == 0
    ensures Combined(cache) == CacheStats(Total(cache, LookupCount), Total(cache, Hits), Total(cache, Misses),
      Total(cache, Evictions), Total(cache, Expired), Total(cache, Bytes))
  {
    if cache != [] {
      CombinedIsTotal(cache[..|cache| - 1]);
    }
  }

  /** The `put` calls, over all shards, that found their key absent. */
  function FreshPutsAll(c: CacheConfig, ops: seq<Op>): nat {
    if ops == [] then 0
    else
      var before, op := ops[..|ops| - 1], ops[|ops| - 1];
      FreshPutsAll(c, before) + if op.PutOp? && !Resident(c, RunAll(c, before), op.key) then 1 else 0
  }

  /** The `get` calls, over all shards, that were answered. */
  function AnsweredAll(c: CacheConfig, ops: seq<Op>): nat {
    if ops == [] then 0
    else
      var before := ops[..|ops| - 1];
      AnsweredAll(c, before) + if StepAll(c, RunAll(c, before), ops[|ops| - 1]).1.Some? then 1 else 0
  }

  /** The `get` calls, over all shards, that found their key but no value young enough. */
  function ExpirationsAll(c: CacheConfig, ops: seq<Op>): nat {
    if ops == [] then 0
    else
      var before, op := ops[..|ops| - 1], ops[|ops| - 1];
      var cache := RunAll(c, before);
      ExpirationsAll(c, before)
      + if op.GetOp? && Resident(c, cache, op.key) && StepAll(c, cache, op).1.None? then 1 else 0
  }

  lemma {:induction false} TotalEmpty(cache: Cache, f: Shard -> nat)
    requires f(EMPTY) == 0 && forall i :: 0 <= i < |cache| ==> cache[i] == EMPTY
    ensures Total(cache, f) == 0
  {
    if cache != [] {
      TotalEmpty(cache[..|cache| - 1], f);
    }
  }

  /** How one call changes the sums: by what it changes in its own shard. */
  lemma TotalsAfter(c: CacheConfig, cache: Cache, op: Op)
    requires |cache| == c.shardCount
    ensures
      var s := cache[c.Index(op.key)];
      var s' := Step(c.ShardConfig(), s, op).0;
      && StepAll(c, cache, op).1 == Step(c.ShardConfig(), s, op).1
      && forall f :: Total(StepAll(c, cache, op).0, f) == Total(cache, f) - f(s) + f(s')
  {
    var i := c.Index(op.key);
    var s' := StepAll(c, cache, op).0[i];
    forall f: Shard -> nat ensures Total(StepAll(c, cache, op).0, f) == Total(cache, f) - f(cache[i]) + f(s') {
      TotalUpdate(cache, i, s', f);
    }
  }

  lemma TotalsOfEmpty(c: CacheConfig)
    ensures var cache := Empty(c);
      && Total(cache, LiveEntries) == Total(cache, Evictions) == Total(cache, Expired) == 0
      && Total(cache, LookupCount) == Total(cache, Hits) == Total(cache, Misses) == 0
  {
    TotalEmpty(Empty(c), LiveEntries);
    TotalEmpty(Empty(c), LookupCount);
    TotalEmpty(Empty(c), Hits);
    TotalEmpty(Empty(c), Misses);
    TotalEmpty(Empty(c), Evictions);
    TotalEmpty(Empty(c), Expired);
  }

  lemma {:induction false} ConservationOfTotals(c: CacheConfig, ops: seq<Op>)
    ensures
      var cache := RunAll(c, ops);
      && FreshPutsAll(c, ops) == Total(cache, LiveEntries) + Total(cache, Evictions) + Total(cache, Expired)
      && Lookups(ops) == Total(cache, LookupCount) == Total(cache, Hits) + Total(cache, Misses)
      && Total(cache, Hits) == AnsweredAll(c, ops)
      && Total(cache, Expired) == ExpirationsAll(c, ops) <= Total(cache, Misses)
  {
    hide Step, Total, StepAll, Empty, Has;
    if ops == [] {
      TotalsOfEmpty(c);
    } else {
      var before, op := ops[..|ops| - 1], ops[|ops| - 1];
      ConservationOfTotals(c, before);
      TotalsAfter(c, RunAll(c, before), op);
      StepConserves(c.ShardConfig(), RunAll(c, before)[c.Index(op.key)], op);
    }
  }

  /** Conservation over every run, in the figures `get_stats` reports when no call is in progress. */
  lemma ConservationAll(c: CacheConfig, ops: seq<Op>)
    ensures
      var cache := RunAll(c, ops);
      var stats := Combined(cache);
      && FreshPutsAll(c, ops) == Total(cache, LiveEntries) + stats.evictions + stats.expired
      && Lookups(ops) == stats.lookups == stats.hits + stats.misses
      && stats.hits == AnsweredAll(c, ops)
      && stats.expired == ExpirationsAll(c, ops) <= stats.misses
      && stats.memoryUsage == Total(cache, Bytes)
  {
    var cache := RunAll(c, ops);
    ConservationOfTotals(c, ops);
    forall i | 0 <= i < |cache| ensures cache[i].stats.memoryUsage == 0 {
      ShardRunsItsOwnCalls(c, ops, i);
      Conservation(c.ShardConfig(), Routed(c, ops, i));
    }
    CombinedIsTotal(cache);
  }

  // ---------- memory ----------

  /** The ceiling split wastes less than one byte a shard. */
  lemma ShardMemoryIsCeiling(c: CacheConfig)
    ensures c.maxMemory <= c.shardCount * c.ShardMemory() <= c.maxMemory + c.shardCount - 1
  {}

  lemma {:induction false} TotalAtMost(cache: Cache, bound: nat)
    requires forall i :: 0 <= i < |cache| ==> Bytes(cache[i]) <= bound
    ensures Total(cache, Bytes) <= |cache| * bound
  {
    if cache != [] {
      TotalAtMost(cache[..|cache| - 1], bound);
      assert |cache| * bound == (|cache| - 1) * bound + bound;
    }
  }

  /** Bounded shards without an oversized entry keep the whole cache within its memory. */
  lemma MemoryBound(c: CacheConfig, cache: Cache)
    requires |cache| == c.shardCount
    requires forall i :: 0 <= i < |cache| ==> Bounded(c.ShardConfig(), cache[i].entries)
    requires forall i, e :: 0 <= i < |cache| && e in cache[i].entries ==> e.size <= c.ShardMemory()
    ensures Total(cache, Bytes) <= c.maxMemory + c.shardCount - 1
  {
    forall i | 0 <= i < |cache| ensures Bytes(cache[i]) <= c.ShardMemory() {
      var es := cache[i].entries;
      if |es| == 1 {
        assert es[0] in es && TotalSize(es[..0]) == 0;
      }
    }
    TotalAtMost(cache, c.ShardMemory());
    ShardMemoryIsCeiling(c);
  }
}
