/** What every run of `get` and `put` calls on one shard, from empty, keeps and answers. */
module CacheRuns {
  import opened Wrappers
  import opened Sequences
  import opened JsonObjects
  import opened CacheModel

  datatype Op =
    | GetOp(key: string, now: int)
    | PutOp(key: string, now: int, value: Json, kind: CacheDataType)

  function Step(cfg: Config, s: Shard, op: Op): (Shard, Option<Json>) {
    match op
    case GetOp(key, now) => Get(s, key, now)
    case PutOp(key, now, value, kind) => (Put(cfg, s, key, value, kind, now), None)
  }

  function Run(cfg: Config, ops: seq<Op>): Shard {
    if ops == [] then EMPTY else Step(cfg, Run(cfg, ops[..|ops| - 1]), ops[|ops| - 1]).0
  }

  // ---------- the reference: a log of calls ----------

  datatype Written = Written(value: Json, now: int, kind: CacheDataType)

  /** What the latest `put` of `key` in the log wrote, and when. */
  function LatestPut(ops: seq<Op>, key: string): Option<Written> {
    if ops == [] then None
    else
      match ops[|ops| - 1]
      case PutOp(k, now, value, kind) =>
        if k == key then Some(Written(value, now, kind)) else LatestPut(ops[..|ops| - 1], key)
      case GetOp(_, _) => LatestPut(ops[..|ops| - 1], key)
  }

  /** The position in the log of the last call that named `key`; -1 if none did. */
  function LastUse(ops: seq<Op>, key: string): (i: int)
    ensures -1 <= i < |ops|
  {
    if ops == [] then -1
    else if ops[|ops| - 1].key == key then |ops| - 1
    else LastUse(ops[..|ops| - 1], key)
  }

  function Lookups(ops: seq<Op>): nat {
    if ops == [] then 0 else Lookups(ops[..|ops| - 1]) + if ops[|ops| - 1].GetOp? then 1 else 0
  }

  /** The `get` calls that were answered with a value. */
  function Answered(cfg: Config, ops: seq<Op>): nat {
    if ops == [] then 0
    else
      var before := ops[..|ops| - 1];
      Answered(cfg, before) + if Step(cfg, Run(cfg, before), ops[|ops| - 1]).1.Some? then 1 else 0
  }

  /** The `put` calls that found their key absent. */
  function FreshPuts(cfg: Config, ops: seq<Op>): nat {
    if ops == [] then 0
    else
      var before, op := ops[..|ops| - 1], ops[|ops| - 1];
      FreshPuts(cfg, before) + if op.PutOp? && !Has(Run(cfg, before).entries, op.key) then 1 else 0
  }

  /** The `get` calls that found their key but no value young enough. */
  function Expirations(cfg: Config, ops: seq<Op>): nat {
    if ops == [] then 0
    else
      var before, op := ops[..|ops| - 1], ops[|ops| - 1];
      Expirations(cfg, before)
      + if op.GetOp? && Has(Run(cfg, before).entries, op.key) && Step(cfg, Run(cfg, before), op).1.None? then 1 else 0
  }

  // ---------- recency ----------

  /** The order of the entries is the order of their keys' last use, latest first. */
  ghost predicate ByRecency(es: seq<Entry>, ops: seq<Op>) {
    forall i, j :: 0 <= i < j < |es| ==> LastUse(ops, es[i].key) > LastUse(ops, es[j].key)
  }

  lemma LastUseAfter(before: seq<Op>, op: Op, key: string)
    ensures LastUse(before + [op], key) == if key == op.key then |before| else LastUse(before, key)
  {
    assert (before + [op])[..|before|] == before;
  }

  /** Putting the key just called in front of a recency order without it. */
  lemma FrontKeepsOrder(rest: seq<Entry>, e: Entry, before: seq<Op>, op: Op)
    requires ByRecency(rest, before) && e.key == op.key
    requires forall i :: 0 <= i < |rest| ==> rest[i].key != op.key
    ensures ByRecency([e] + rest, before + [op]) && ByRecency(rest, before + [op])
  {
    forall i | 0 <= i < |rest| ensures LastUse(before + [op], rest[i].key) == LastUse(before, rest[i].key) {
      LastUseAfter(before, op, rest[i].key);
    }
    LastUseAfter(before, op, op.key);
  }

  /** The entries besides the one at the key's own position. */
  function Others(es: seq<Entry>, key: string): seq<Entry> {
    var i := IndexOf(es, key);
    if i < |es| then RemoveAt(es, i) else es
  }

  lemma OthersAreDistinct(es: seq<Entry>, key: string)
    requires DistinctKeys(es)
    ensures DistinctKeys(Others(es, key))
    ensures forall e :: e in Others(es, key) ==> e in es && e.key != key
  {
    var i := IndexOf(es, key);
    if i < |es| {
      RemoveAtProperties(es, i);
    }
  }

  lemma OthersKeepOrder(es: seq<Entry>, key: string, before: seq<Op>)
    requires ByRecency(es, before)
    ensures ByRecency(Others(es, key), before)
    ensures forall i :: 0 <= i < |Others(es, key)| ==> Others(es, key)[i].key != key && Others(es, key)[i] in es
  {
    hide LastUse, RemoveAt, IndexOf;
    var i := IndexOf(es, key);
    if i < |es| {
      RemoveAtProperties(es, i);
      assert forall j :: i < j < |es| ==> LastUse(before, es[i].key) > LastUse(before, es[j].key);
    }
  }

  /**
   * One step leaves the entries of other keys as they were and in their order; the key that the
   * call named is at the front or gone.
   */
  lemma StepKeepsOrder(cfg: Config, s: Shard, op: Op, before: seq<Op>)
    requires ByRecency(s.entries, before)
    ensures var es' := Step(cfg, s, op).0.entries;
      && ByRecency(es', before + [op])
      && (forall e :: e in es' && e.key != op.key ==> e in s.entries)
      && (forall e :: e in es' && e.key == op.key ==>
            match op
            case GetOp(_, _) => e in s.entries
            case PutOp(key, now, value, kind) => e == Entry(key, value, now, cfg.EntrySize(key, value), kind))
  {
    hide LastUse;
    var es, es' := s.entries, Step(cfg, s, op).0.entries;
    var rest := Others(es, op.key);
    OthersKeepOrder(es, op.key, before);
    if op.PutOp? && !Has(es, op.key) {
      var kept := Keep(cfg, es, cfg.EntrySize(op.key, op.value));
      FrontKeepsOrder(kept, es'[0], before, op);
    } else if es' == rest {
      FrontKeepsOrder(rest, Entry(op.key, map[], 0, 0, Negative), before, op);
    } else {
      FrontKeepsOrder(rest, es'[0], before, op);
    }
  }

  /** The same without a log: keys stay distinct, and a step only adds the entry its `put` names. */
  lemma StepOrigins(cfg: Config, s: Shard, op: Op)
    requires DistinctKeys(s.entries)
    ensures var es' := Step(cfg, s, op).0.entries;
      && DistinctKeys(es')
      && (forall e :: e in es' ==>
            || (e in s.entries && (e.key == op.key ==> op.GetOp?))
            || (op.PutOp? && e == Entry(op.key, op.value, op.now, cfg.EntrySize(op.key, op.value), op.kind)))
  {
    var es, es' := s.entries, Step(cfg, s, op).0.entries;
    OthersAreDistinct(es, op.key);
    if op.GetOp? && es' != Others(es, op.key) {
      assert es' == [es[IndexOf(es, op.key)]] + Others(es, op.key);
    }
  }

  lemma {:induction false} RunByRecency(cfg: Config, ops: seq<Op>)
    ensures ByRecency(Run(cfg, ops).entries, ops)
    ensures DistinctKeys(Run(cfg, ops).entries)
  {
    if ops != [] {
      var before, op := ops[..|ops| - 1], ops[|ops| - 1];
      RunByRecency(cfg, before);
      StepKeepsOrder(cfg, Run(cfg, before), op, before);
      assert ops == before + [op];
    }
    var es := Run(cfg, ops).entries;
    forall i, j | 0 <= i < j < |es| ensures es[i].key != es[j].key {
      assert LastUse(ops, es[i].key) > LastUse(ops, es[j].key);
    }
  }

  /**
   * Eviction is LRU and minimal, in every run: a `put` of an absent key keeps exactly the longest
   * prefix of the recency order that leaves room for it, counts every dropped entry, and each
   * dropped key was last used before each surviving one.
   */
  lemma EvictionIsLru(cfg: Config, ops: seq<Op>, key: string, value: Json, kind: CacheDataType, now: int)
    requires !Has(Run(cfg, ops).entries, key)
    ensures
      var s, s' := Run(cfg, ops), Put(cfg, Run(cfg, ops), key, value, kind, now);
      var size, n := cfg.EntrySize(key, value), |s'.entries| - 1;
      && 0 <= n <= |s.entries|
      && s'.entries == [Entry(key, value, now, size, kind)] + s.entries[..n]
      && (n > 0 ==> TotalSize(s.entries[..n]) + size <= cfg.maxMemory)
      && (forall m :: n < m <= |s.entries| ==> TotalSize(s.entries[..m]) + size > cfg.maxMemory)
      && s'.stats == s.stats.(evictions := s.stats.evictions + (|s.entries| - n))
      && (forall kept, gone :: 0 <= kept < n <= gone < |s.entries| ==>
            LastUse(ops, s.entries[gone].key) < LastUse(ops, s.entries[kept].key))
  {
    hide LastUse, TotalSize, IndexOf;
    RunByRecency(cfg, ops);
    var es, size := Run(cfg, ops).entries, cfg.EntrySize(key, value);
    KeepIsLongestPrefix(cfg, es, size);
    var kept := Keep(cfg, es, size);
    assert kept == es[..|kept|];
    assert ([Entry(key, value, now, size, kind)] + kept)[0].key == key;
  }

  // ---------- a hit is the latest put ----------

  lemma {:induction false} EntriesAreLatestPuts(cfg: Config, ops: seq<Op>)
    ensures forall e :: e in Run(cfg, ops).entries ==>
      && LatestPut(ops, e.key) == Some(Written(e.value, e.time, e.kind))
      && e.size == 2 * |e.key| + cfg.dumpSize(e.value)
  {
    if ops != [] {
      var before, op := ops[..|ops| - 1], ops[|ops| - 1];
      EntriesAreLatestPuts(cfg, before);
      RunByRecency(cfg, before);
      StepKeepsOrder(cfg, Run(cfg, before), op, before);
    }
  }

  /**
   * The shard refines its log: `get` answers with the value of the latest `put` of the key exactly
   * when the key is resident and that `put` is at most an hour old for an address, seven days for
   * a MAC address, five minutes for a negative. So a hit in between never extends an entry's life.
   */
  lemma GetAnswersLatestPut(cfg: Config, ops: seq<Op>, key: string, now: int)
    ensures
      var s := Run(cfg, ops);
      var answer, latest := Get(s, key, now).1, LatestPut(ops, key);
      && (Has(s.entries, key) ==> latest.Some?)
      && (answer.Some? ==> answer == Some(latest.value.value))
      && (answer.Some? <==> (Has(s.entries, key) &&
            match latest.value.kind
            case IpGeolocation => now - latest.value.now <= 3_600_000_000_000
            case MacOui => now - latest.value.now <= 604_800_000_000_000
            case Negative => now - latest.value.now <= 300_000_000_000))
  {
    EntriesAreLatestPuts(cfg, ops);
  }

  /** A key that was just answered or just stored is resident; one that just missed is not. */
  lemma ResidentAfter(cfg: Config, ops: seq<Op>, op: Op)
    ensures
      var (s', answer) := Step(cfg, Run(cfg, ops), op);
      Has(s'.entries, op.key) <==> op.PutOp? || answer.Some?
  {
    var es, es' := Run(cfg, ops).entries, Step(cfg, Run(cfg, ops), op).0.entries;
    RunByRecency(cfg, ops);
    OthersKeepOrder(es, op.key, ops);
    if op.PutOp? || Step(cfg, Run(cfg, ops), op).1.Some? {
      assert es'[0].key == op.key;
    } else {
      assert es' == Others(es, op.key);
    }
  }

  // ---------- conservation ----------

  /** What one call adds to the counters and to the number of entries. */
  lemma StepConserves(cfg: Config, s: Shard, op: Op)
    ensures
      var (s', answer) := Step(cfg, s, op);
      && |s'.entries| + s'.stats.evictions + s'.stats.expired
         == |s.entries| + s.stats.evictions + s.stats.expired + (if op.PutOp? && !Has(s.entries, op.key) then 1 else 0)
      && s'.stats.lookups == s.stats.lookups + (if op.GetOp? then 1 else 0)
      && s'.stats.hits == s.stats.hits + (if answer.Some? then 1 else 0)
      && s'.stats.hits + s'.stats.misses == s.stats.hits + s.stats.misses + (if op.GetOp? then 1 else 0)
      && s'.stats.expired
         == s.stats.expired + (if op.GetOp? && Has(s.entries, op.key) && answer.None? then 1 else 0)
      && s'.stats.expired - s.stats.expired <= s'.stats.misses - s.stats.misses
      && s'.stats.memoryUsage == s.stats.memoryUsage
  {}

  /** Where every entry went, and how every lookup ended. */
  lemma {:induction false} Conservation(cfg: Config, ops: seq<Op>)
    ensures
      var s := Run(cfg, ops);
      && FreshPuts(cfg, ops) == |s.entries| + s.stats.evictions + s.stats.expired
      && Lookups(ops) == s.stats.lookups == s.stats.hits + s.stats.misses
      && s.stats.hits == Answered(cfg, ops)
      && s.stats.expired == Expirations(cfg, ops)
      && s.stats.expired <= s.stats.misses
      && s.stats.memoryUsage == 0
  {
    hide Step;
    if ops != [] {
      Conservation(cfg, ops[..|ops| - 1]);
      StepConserves(cfg, Run(cfg, ops[..|ops| - 1]), ops[|ops| - 1]);
    }
  }

  // ---------- memory ----------

  /** Within the budget, or down to a single oversized entry. */
  predicate Bounded(cfg: Config, es: seq<Entry>) {
    TotalSize(es) <= cfg.maxMemory || |es| == 1
  }

  /**
   * Exactly when a `put` leaves the shard within bounds, from any state: always when the key is
   * absent, and when it overwrites, only if the new total fits or there is no other entry.
   */
  lemma PutIsBounded(cfg: Config, s: Shard, key: string, value: Json, kind: CacheDataType, now: int)
    ensures
      var i := IndexOf(s.entries, key);
      Bounded(cfg, Put(cfg, s, key, value, kind, now).entries) <==>
      (i < |s.entries| ==>
        || |s.entries| == 1
        || TotalSize(s.entries) - s.entries[i].size + cfg.EntrySize(key, value) <= cfg.maxMemory)
  {
    var es, i := s.entries, IndexOf(s.entries, key);
    var e := Entry(key, value, now, cfg.EntrySize(key, value), kind);
    if i < |es| {
      TotalSizeRemoveAt(es, i);
      TotalSizeCons(e, RemoveAt(es, i));
    } else {
      var kept := Keep(cfg, es, e.size);
      KeepIsLongestPrefix(cfg, es, e.size);
      TotalSizeCons(e, kept);
    }
  }

  lemma GetIsBounded(cfg: Config, s: Shard, key: string, now: int)
    requires Bounded(cfg, s.entries)
    ensures Bounded(cfg, Get(s, key, now).0.entries)
  {
    var es, i := s.entries, IndexOf(s.entries, key);
    if i < |es| {
      TotalSizeRemoveAt(es, i);
      TotalSizeCons(es[i], RemoveAt(es, i));
    }
  }

  /** A budget of ten bytes, and values whose text is five bytes a field. */
  const TIGHT := Config(10, (o: Json) => 5 * |o|)

  const SMALL_A := Entry("a", map[], 0, 2, IpGeolocation)
  const SMALL_B := Entry("b", map[], 0, 2, IpGeolocation)

  const PUT_A := PutOp("a", 0, map[], IpGeolocation)
  const PUT_B := PutOp("b", 0, map[], IpGeolocation)

  lemma TwoSmallPuts()
    ensures Run(TIGHT, [PUT_A, PUT_B]) == Shard([SMALL_B, SMALL_A], NO_STATS)
    ensures TotalSize([SMALL_B, SMALL_A]) == 4
  {
    var ops := [PUT_A, PUT_B];
    TotalSizeCons(SMALL_A, []);
    TotalSizeCons(SMALL_B, [SMALL_A]);
    assert ops[..1] == [ops[0]] && ops[..1][..0] == [];
    assert Run(TIGHT, ops[..1]) == Step(TIGHT, EMPTY, ops[0]).0 == Shard([SMALL_A], NO_STATS);
    assert IndexOf([SMALL_A], "b") == 1;
    assert [SMALL_B] + [SMALL_A] == [SMALL_B, SMALL_A];
  }

  /** The budget is not kept by an overwrite that grows: two entries, fourteen bytes, budget ten. */
  lemma GrowingOverwriteExceedsBudget()
    ensures
      var grown: Json := map["a" := Flag(true), "b" := Flag(true)];
      !Bounded(TIGHT, Run(TIGHT, [PUT_A, PUT_B, PutOp("a", 0, grown, IpGeolocation)]).entries)
  {
    var grown: Json := map["a" := Flag(true), "b" := Flag(true)];
    var ops := [PUT_A, PUT_B, PutOp("a", 0, grown, IpGeolocation)];
    var es := [SMALL_B, SMALL_A];
    TwoSmallPuts();
    assert ops[..2] == [ops[0], ops[1]];
    assert es[0].key == "b" && "b"[0] != "a"[0];
    assert IndexOf(es, "a") == 1;
    PutIsBounded(TIGHT, Shard(es, NO_STATS), "a", grown, IpGeolocation, 0);
  }
}
