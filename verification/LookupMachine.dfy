/**
 * Many lookups in progress over one cache. A lookup takes three atomic steps: a locked `get`, the
 * database read, and a locked `put`. Lookups are started at any time and their steps interleave
 * in any order, whether they belong to one batch or to unrelated requests.
 */
module LookupMachine {
  import opened Wrappers
  import opened JsonObjects
  import opened CacheModel
  import opened CacheRuns
  import opened Sharding
  import opened Answers

  datatype LookupResult = LookupResult(data: Json, cacheHit: bool)

  datatype Phase =
    | Queued
    | Missed
    | Read(answer: Answer)
    | Done(result: LookupResult)

  datatype Task = Task(key: string, phase: Phase)

  datatype System = System(cache: Cache, tasks: seq<Task>)

  datatype Move =
    | Spawn(key: string)
    | Advance(task: nat, now: int)

  /** A cache and the databases behind it. */
  datatype Service = Service(config: CacheConfig, answers: string -> Answer)

  /** One atomic step of a lookup of `key`, at clock reading `now`. */
  function Advanced(sv: Service, cache: Cache, key: string, phase: Phase, now: int): (r: (Cache, Phase))
    requires |cache| == sv.config.shardCount
    ensures |r.0| == sv.config.shardCount
  {
    match phase
    case Queued =>
      var (cache', hit) := StepAll(sv.config, cache, GetOp(key, now));
      (cache', if hit.Some? then Done(LookupResult(hit.value, true)) else Missed)
    case Missed =>
      (cache, Read(sv.answers(key)))
    case Read(a) =>
      var cache' := if a.cacheAs.Some? then StepAll(sv.config, cache, PutOp(key, now, a.data, a.cacheAs.value)).0 else cache;
      (cache', Done(LookupResult(a.data, false)))
    case Done(_) =>
      (cache, phase)
  }

  function Apply(sv: Service, sys: System, move: Move): (sys': System)
    requires |sys.cache| == sv.config.shardCount
    ensures |sys'.cache| == sv.config.shardCount
  {
    match move
    case Spawn(key) => System(sys.cache, sys.tasks + [Task(key, Queued)])
    case Advance(i, now) =>
      if i < |sys.tasks| then
        var (cache', phase') := Advanced(sv, sys.cache, sys.tasks[i].key, sys.tasks[i].phase, now);
        System(cache', sys.tasks[i := Task(sys.tasks[i].key, phase')])
      else sys
  }

  function Exec(sv: Service, sys: System, moves: seq<Move>): (sys': System)
    requires |sys.cache| == sv.config.shardCount
    ensures |sys'.cache| == sv.config.shardCount
  {
    if moves == [] then sys else Apply(sv, Exec(sv, sys, moves[..|moves| - 1]), moves[|moves| - 1])
  }

  function Initial(sv: Service): System {
    System(Empty(sv.config), [])
  }

  // ---------- what every reachable state satisfies ----------

  /** A cached entry is its key's own answer, stored under the type that the answer calls for. */
  predicate EntryIsAnswer(sv: Service, e: Entry) {
    var a := sv.answers(e.key);
    a.cacheAs == Some(e.kind) && e.value == a.data && e.size == sv.config.ShardConfig().EntrySize(e.key, a.data)
  }

  ghost predicate ShardSound(sv: Service, s: Shard) {
    && DistinctKeys(s.entries)
    && Bounded(sv.config.ShardConfig(), s.entries)
    && forall e :: e in s.entries ==> EntryIsAnswer(sv, e)
  }

  ghost predicate CacheSound(sv: Service, cache: Cache) {
    && |cache| == sv.config.shardCount
    && forall i :: 0 <= i < |cache| ==> ShardSound(sv, cache[i])
  }

  predicate PhaseSound(sv: Service, key: string, phase: Phase) {
    match phase
    case Read(a) => a == sv.answers(key)
    case Done(r) => r.data == sv.answers(key).data
    case _ => true
  }

  ghost predicate Sound(sv: Service, sys: System) {
    && CacheSound(sv, sys.cache)
    && forall i :: 0 <= i < |sys.tasks| ==> PhaseSound(sv, sys.tasks[i].key, sys.tasks[i].phase)
  }

  /** A call either reads, or stores a key's own answer, perhaps over an equal one. */
  ghost predicate OwnAnswer(sv: Service, op: Op) {
    op.PutOp? ==> sv.answers(op.key) == Answer(op.value, Some(op.kind))
  }

  lemma ShardStepIsSound(sv: Service, s: Shard, op: Op)
    requires ShardSound(sv, s) && OwnAnswer(sv, op)
    ensures ShardSound(sv, Step(sv.config.ShardConfig(), s, op).0)
    ensures Step(sv.config.ShardConfig(), s, op).1.Some? ==>
      Step(sv.config.ShardConfig(), s, op).1.value == sv.answers(op.key).data
  {
    var cfg := sv.config.ShardConfig();
    var es, es' := s.entries, Step(cfg, s, op).0.entries;
    var i := IndexOf(es, op.key);
    StepOrigins(cfg, s, op);
    if i < |es| {
      assert EntryIsAnswer(sv, es[i]);
    }
    match op {
      case GetOp(key, now) =>
        GetIsBounded(cfg, s, key, now);
      case PutOp(key, now, value, kind) =>
        PutIsBounded(cfg, s, key, value, kind, now);
    }
  }

  lemma CacheStepIsSound(sv: Service, cache: Cache, op: Op)
    requires CacheSound(sv, cache) && OwnAnswer(sv, op)
    ensures CacheSound(sv, StepAll(sv.config, cache, op).0)
    ensures StepAll(sv.config, cache, op).1.Some? ==> StepAll(sv.config, cache, op).1.value == sv.answers(op.key).data
  {
    ShardStepIsSound(sv, cache[sv.config.Index(op.key)], op);
  }

  lemma AdvanceIsSound(sv: Service, cache: Cache, key: string, phase: Phase, now: int)
    requires CacheSound(sv, cache) && PhaseSound(sv, key, phase)
    ensures CacheSound(sv, Advanced(sv, cache, key, phase, now).0)
    ensures PhaseSound(sv, key, Advanced(sv, cache, key, phase, now).1)
  {
    match phase {
      case Queued => CacheStepIsSound(sv, cache, GetOp(key, now));
      case Read(a) =>
        if a.cacheAs.Some? {
          CacheStepIsSound(sv, cache, PutOp(key, now, a.data, a.cacheAs.value));
        }
      case _ =>
    }
  }

  lemma {:induction false} ExecIsSound(sv: Service, sys: System, moves: seq<Move>)
    requires Sound(sv, sys)
    ensures Sound(sv, Exec(sv, sys, moves))
  {
    if moves != [] {
      var before, move := Exec(sv, sys, moves[..|moves| - 1]), moves[|moves| - 1];
      ExecIsSound(sv, sys, moves[..|moves| - 1]);
      if move.Advance? && move.task < |before.tasks| {
        AdvanceIsSound(sv, before.cache, before.tasks[move.task].key, before.tasks[move.task].phase, move.now);
      }
    }
  }

  lemma InitialIsSound(sv: Service)
    ensures Sound(sv, Initial(sv))
  {}

  // ---------- transparency ----------

  /** A reachable state: any moves from the empty system. */
  function Reached(sv: Service, moves: seq<Move>): (sys: System)
    ensures |sys.cache| == sv.config.shardCount
  {
    Exec(sv, Initial(sv), moves)
  }

  lemma ReachedIsSound(sv: Service, moves: seq<Move>)
    ensures Sound(sv, Reached(sv, moves))
  {
    InitialIsSound(sv);
    ExecIsSound(sv, Initial(sv), moves);
  }

  /** In every interleaving, a finished lookup has the answer it would have had without a cache. */
  lemma LookupsAreUncached(sv: Service, moves: seq<Move>, i: nat)
    requires i < |Reached(sv, moves).tasks| && Reached(sv, moves).tasks[i].phase.Done?
    ensures Reached(sv, moves).tasks[i].phase.result.data == sv.answers(Reached(sv, moves).tasks[i].key).data
  {
    ReachedIsSound(sv, moves);
  }

  /** In every reachable state, what is cached is well typed: no error, NEGATIVE exactly if not found. */
  lemma CachedEntriesAreTyped(sv: Service, moves: seq<Move>, shard: nat, e: Entry)
    requires forall key :: WellTyped(sv.answers(key))
    requires shard < sv.config.shardCount && e in Reached(sv, moves).cache[shard].entries
    ensures e.value == sv.answers(e.key).data
    ensures !HasError(e.value) && (e.kind == Negative <==> !Found(e.value))
  {
    ReachedIsSound(sv, moves);
    assert EntryIsAnswer(sv, e);
    assert WellTyped(sv.answers(e.key));
  }

  /**
   * Memory in every reachable state: each shard keeps to its share or holds one oversized entry.
   * If no answer that may be cached exceeds a share, the whole cache keeps to its memory, up to
   * one byte less than the number of shards.
   */
  lemma ServiceMemory(sv: Service, moves: seq<Move>)
    ensures
      var cache, cfg := Reached(sv, moves).cache, sv.config.ShardConfig();
      && (forall i :: 0 <= i < |cache| ==> Bounded(cfg, cache[i].entries))
      && ((forall key :: sv.answers(key).cacheAs.Some? ==> cfg.EntrySize(key, sv.answers(key).data) <= cfg.maxMemory)
          ==> Total(cache, Bytes) <= sv.config.maxMemory + sv.config.shardCount - 1)
  {
    var cache, cfg := Reached(sv, moves).cache, sv.config.ShardConfig();
    ReachedIsSound(sv, moves);
    if forall key :: sv.answers(key).cacheAs.Some? ==> cfg.EntrySize(key, sv.answers(key).data) <= cfg.maxMemory {
      forall i, e | 0 <= i < |cache| && e in cache[i].entries ensures e.size <= sv.config.ShardMemory() {
        assert EntryIsAnswer(sv, e);
      }
      MemoryBound(sv.config, cache);
    }
  }

  // ---------- batches ----------

  /** The tasks `ids` are finished lookups of `queries`, in that order. */
  ghost predicate Finished(sys: System, ids: seq<nat>, queries: seq<string>) {
    && |ids| == |queries|
    && forall j :: 0 <= j < |ids| ==>
      ids[j] < |sys.tasks| && sys.tasks[ids[j]].key == queries[j] && sys.tasks[ids[j]].phase.Done?
  }

  /** The data of the batch's results, taken from its futures in order. */
  function Collect(sys: System, ids: seq<nat>): seq<Json>
    requires forall j :: 0 <= j < |ids| ==> ids[j] < |sys.tasks| && sys.tasks[ids[j]].phase.Done?
  {
    seq(|ids|, j requires 0 <= j < |ids| => sys.tasks[ids[j]].phase.result.data)
  }

  /** The uncached answers, in request order. */
  function UncachedBatch(answers: string -> Answer, queries: seq<string>): seq<Json> {
    seq(|queries|, j requires 0 <= j < |queries| => answers(queries[j]).data)
  }

  /**
   * Interleaving independence: whatever else ran before or in between, in whatever order the
   * batch's lookups took their steps, and whatever the clock showed, the results are the uncached
   * answers in request order.
   */
  lemma BatchIsUncached(sv: Service, moves: seq<Move>, ids: seq<nat>, queries: seq<string>)
    requires Finished(Reached(sv, moves), ids, queries)
    ensures Collect(Reached(sv, moves), ids) == UncachedBatch(sv.answers, queries)
  {
    ReachedIsSound(sv, moves);
  }

  /** So two executions agree on a batch even if their caches are configured differently. */
  lemma BatchIsIndependentOfInterleaving(
      sv1: Service, moves1: seq<Move>, ids1: seq<nat>,
      sv2: Service, moves2: seq<Move>, ids2: seq<nat>, queries: seq<string>)
    requires sv1.answers == sv2.answers
    requires Finished(Reached(sv1, moves1), ids1, queries) && Finished(Reached(sv2, moves2), ids2, queries)
    ensures Collect(Reached(sv1, moves1), ids1) == Collect(Reached(sv2, moves2), ids2)
  {
    BatchIsUncached(sv1, moves1, ids1, queries);
    BatchIsUncached(sv2, moves2, ids2, queries);
  }

  // ---------- progress ----------

  function Rank(phase: Phase): nat {
    match phase
    case Queued => 0
    case Missed => 1
    case Read(_) => 2
    case Done(_) => 3
  }

  /** How many of the moves step task `i`. */
  function StepsOf(moves: seq<Move>, i: nat): nat {
    if moves == [] then 0
    else
      StepsOf(moves[..|moves| - 1], i) + match moves[|moves| - 1]
      case Advance(task, _) => if task == i then 1 else 0
      case Spawn(_) => 0
  }

  /**
   * A task keeps its key and never goes back; every step of its own takes it further, so three of
   * them finish it in any schedule.
   */
  lemma {:induction false} ThreeStepsFinish(sv: Service, sys: System, moves: seq<Move>, i: nat)
    requires |sys.cache| == sv.config.shardCount && i < |sys.tasks|
    ensures
      var sys' := Exec(sv, sys, moves);
      && i < |sys'.tasks| && sys'.tasks[i].key == sys.tasks[i].key
      && (sys'.tasks[i].phase.Done? || Rank(sys'.tasks[i].phase) >= Rank(sys.tasks[i].phase) + StepsOf(moves, i))
      && (StepsOf(moves, i) >= 3 ==> sys'.tasks[i].phase.Done?)
  {
    if moves != [] {
      ThreeStepsFinish(sv, sys, moves[..|moves| - 1], i);
    }
  }

  // ---------- one lookup on its own ----------

  /** The three steps of a lookup that nothing interrupts. */
  function LookupAlone(sv: Service, cache: Cache, key: string, getNow: int, putNow: int): (r: (Cache, LookupResult))
    requires |cache| == sv.config.shardCount
    ensures |r.0| == sv.config.shardCount
  {
    var (c1, p1) := Advanced(sv, cache, key, Queued, getNow);
    if p1.Done? then (c1, p1.result)
    else
      var (c2, p2) := Advanced(sv, c1, key, Read(sv.answers(key)), putNow);
      (c2, p2.result)
  }

  /** It is one of the schedules: start the lookup and step it three times. */
  lemma LookupAloneIsSchedule(sv: Service, sys: System, key: string, getNow: int, readNow: int, putNow: int)
    requires |sys.cache| == sv.config.shardCount
    ensures
      var n := |sys.tasks|;
      var (cache', r) := LookupAlone(sv, sys.cache, key, getNow, putNow);
      Exec(sv, sys, [Spawn(key), Advance(n, getNow), Advance(n, readNow), Advance(n, putNow)])
        == System(cache', sys.tasks + [Task(key, Done(r))])
  {
    hide Exec, StepAll;
    var n := |sys.tasks|;
    FourMoves(sv, sys, Spawn(key), Advance(n, getNow), Advance(n, readNow), Advance(n, putNow));
    var s1 := Apply(sv, sys, Spawn(key));
    var s2 := Apply(sv, s1, Advance(n, getNow));
    var s3 := Apply(sv, s2, Advance(n, readNow));
    var s4 := Apply(sv, s3, Advance(n, putNow));
    assert s4.tasks == sys.tasks + [s4.tasks[n]];
  }

  // ---------- the cache fills ----------

  /** The cache calls that one step of a lookup makes. */
  function CallsOf(key: string, phase: Phase, now: int): seq<Op> {
    match phase
    case Queued => [GetOp(key, now)]
    case Read(a) => if a.cacheAs.Some? then [PutOp(key, now, a.data, a.cacheAs.value)] else []
    case _ => []
  }

  lemma AdvancedIsRun(sv: Service, ops: seq<Op>, key: string, phase: Phase, now: int)
    ensures Advanced(sv, RunAll(sv.config, ops), key, phase, now).0 == RunAll(sv.config, ops + CallsOf(key, phase, now))
  {
    var calls := CallsOf(key, phase, now);
    if calls == [] {
      assert ops + calls == ops;
    } else {
      RunAllAfter(sv.config, ops, calls[0]);
      assert calls == [calls[0]];
    }
  }

  /** The cache calls of a whole execution, in the order in which they were made. */
  function Calls(sv: Service, moves: seq<Move>): seq<Op> {
    if moves == [] then []
    else
      var before, move := moves[..|moves| - 1], moves[|moves| - 1];
      var tasks := Reached(sv, before).tasks;
      Calls(sv, before) +
      if move.Advance? && move.task < |tasks|
      then CallsOf(tasks[move.task].key, tasks[move.task].phase, move.now) else []
  }

  /** However the lookups interleave, their cache only ever sees one sequence of calls. */
  lemma {:induction false} ReachedIsRun(sv: Service, moves: seq<Move>)
    ensures Reached(sv, moves).cache == RunAll(sv.config, Calls(sv, moves))
  {
    hide RunAll, Advanced, CallsOf;
    if moves == [] {
      NoCallsYet(sv);
    } else {
      var before, move := moves[..|moves| - 1], moves[|moves| - 1];
      ReachedIsRun(sv, before);
      var tasks := Reached(sv, before).tasks;
      if move.Advance? && move.task < |tasks| {
        AdvancedIsRun(sv, Calls(sv, before), tasks[move.task].key, tasks[move.task].phase, move.now);
      } else {
        assert Calls(sv, before) + [] == Calls(sv, before);
      }
    }
  }

  lemma NoCallsYet(sv: Service)
    ensures RunAll(sv.config, []) == Empty(sv.config)
  {}

  /**
   * When a lookup hits, in every reachable state: exactly if its key is resident and was last
   * stored within its TTL, by whatever lookup. Then it is done at once, with what was stored.
   */
  lemma HitsAreFreshEntries(sv: Service, moves: seq<Move>, key: string, now: int)
    ensures
      var cache, latest := Reached(sv, moves).cache, LatestPut(Calls(sv, moves), key);
      Advanced(sv, cache, key, Queued, now).1 ==
      if Resident(sv.config, cache, key) && Fresh(latest, now) then Done(LookupResult(latest.value.value, true))
      else Missed
  {
    ReachedIsRun(sv, moves);
    AnsweredIffFresh(sv.config, Calls(sv, moves), key, now);
  }

  /** What a `put` of a key leads to: the key is resident, and is answered until its TTL is over. */
  lemma StoredIsAnswered(
      c: CacheConfig, ops: seq<Op>, key: string, putNow: int, value: Json, kind: CacheDataType, later: int)
    ensures
      var cache' := RunAll(c, ops + [PutOp(key, putNow, value, kind)]);
      && Resident(c, cache', key)
      && StepAll(c, cache', GetOp(key, later)).1 == if later - putNow <= TtlForType(kind) then Some(value) else None
  {
    hide StepAll, Resident;
    var op := PutOp(key, putNow, value, kind);
    RunAllAfter(c, ops, op);
    ResidentAfterCall(c, ops, op);
    AnsweredIffFresh(c, ops + [op], key, later);
  }

  /**
   * In every interleaving, the step that finishes a lookup which had to read the databases stores
   * a cacheable answer: from then on the key is resident, and a `get` made next is answered with
   * it for an hour, seven days or five minutes, by its type.
   */
  lemma FinishedReadIsStored(sv: Service, moves: seq<Move>, i: nat, now: int, later: int)
    requires i < |Reached(sv, moves).tasks| && Reached(sv, moves).tasks[i].phase.Read?
    requires sv.answers(Reached(sv, moves).tasks[i].key).cacheAs.Some?
    ensures
      var key, sys' := Reached(sv, moves).tasks[i].key, Reached(sv, moves + [Advance(i, now)]);
      var answer := sv.answers(key);
      && i < |sys'.tasks| && sys'.tasks[i] == Task(key, Done(LookupResult(answer.data, false)))
      && Resident(sv.config, sys'.cache, key)
      && (StepAll(sv.config, sys'.cache, GetOp(key, later)).1 == Some(answer.data) <==>
            match answer.cacheAs.value
            case IpGeolocation => later - now <= 3_600_000_000_000
            case MacOui => later - now <= 604_800_000_000_000
            case Negative => later - now <= 300_000_000_000)
  {
    hide StepAll, RunAll, Resident;
    var sys, move := Reached(sv, moves), Advance(i, now);
    var key := sys.tasks[i].key;
    var answer := sv.answers(key);
    ReachedIsSound(sv, moves);
    ReachedIsRun(sv, moves);
    ExecStep(sv, Initial(sv), moves, move);
    AdvancedIsRun(sv, Calls(sv, moves), key, sys.tasks[i].phase, now);
    StoredIsAnswered(sv.config, Calls(sv, moves), key, now, answer.data, answer.cacheAs.value, later);
  }

  /** The calls of a lookup that nothing interrupts: a `get`, and a `put` if that missed and the answer is cacheable. */
  function CallsAlone(sv: Service, key: string, getNow: int, putNow: int, hit: bool): seq<Op> {
    var a := sv.answers(key);
    [GetOp(key, getNow)] + if hit || a.cacheAs.None? then [] else [PutOp(key, putNow, a.data, a.cacheAs.value)]
  }

  lemma LookupAloneIsRun(sv: Service, ops: seq<Op>, key: string, getNow: int, putNow: int)
    ensures
      var (cache', r) := LookupAlone(sv, RunAll(sv.config, ops), key, getNow, putNow);
      var latest := LatestPut(ops, key);
      && cache' == RunAll(sv.config, ops + CallsAlone(sv, key, getNow, putNow, r.cacheHit))
      && (r.cacheHit <==> Resident(sv.config, RunAll(sv.config, ops), key) && Fresh(latest, getNow))
      && r.data == (if r.cacheHit then latest.value.value else sv.answers(key).data)
      && (Resident(sv.config, cache', key) <==> r.cacheHit || sv.answers(key).cacheAs.Some?)
  {
    hide StepAll, RunAll, Resident;
    var get, a := GetOp(key, getNow), sv.answers(key);
    AnsweredIffFresh(sv.config, ops, key, getNow);
    RunAllAfter(sv.config, ops, get);
    ResidentAfterCall(sv.config, ops, get);
    if a.cacheAs.Some? {
      var put := PutOp(key, putNow, a.data, a.cacheAs.value);
      RunAllAfter(sv.config, ops + [get], put);
      ResidentAfterCall(sv.config, ops + [get], put);
      assert ops + [get] + [put] == ops + ([get] + [put]);
    }
    assert [get] + [] == [get];
  }

  /**
   * The point of the cache: after a lookup of a key with a cacheable answer the key is resident,
   * and the next lookup of it is a hit with the same data exactly while what it found or stored is
   * within its TTL.
   */
  lemma SecondLookupHits(sv: Service, ops: seq<Op>, key: string, getNow: int, putNow: int, later: int, muchLater: int)
    requires sv.answers(key).cacheAs.Some?
    ensures
      var (cache', first) := LookupAlone(sv, RunAll(sv.config, ops), key, getNow, putNow);
      var second := LookupAlone(sv, cache', key, later, muchLater).1;
      && Resident(sv.config, cache', key)
      && (!first.cacheHit ==>
            (second.cacheHit <==>
              match sv.answers(key).cacheAs.value
              case IpGeolocation => later - putNow <= 3_600_000_000_000
              case MacOui => later - putNow <= 604_800_000_000_000
              case Negative => later - putNow <= 300_000_000_000))
      && (first.cacheHit ==> (second.cacheHit <==> Fresh(LatestPut(ops, key), later)))
      && (second.cacheHit ==> second.data == first.data)
  {
    hide RunAll, Resident, LookupAlone;
    var (cache', first) := LookupAlone(sv, RunAll(sv.config, ops), key, getNow, putNow);
    var calls := CallsAlone(sv, key, getNow, putNow, first.cacheHit);
    LookupAloneIsRun(sv, ops, key, getNow, putNow);
    LookupAloneIsRun(sv, ops + calls, key, later, muchLater);
    LatestPutAlone(sv, ops, key, getNow, putNow, first.cacheHit);
  }

  lemma LatestPutAlone(sv: Service, ops: seq<Op>, key: string, getNow: int, putNow: int, hit: bool)
    ensures LatestPut(ops + CallsAlone(sv, key, getNow, putNow, hit), key) ==
      var a := sv.answers(key);
      if hit || a.cacheAs.None? then LatestPut(ops, key) else Some(Written(a.data, putNow, a.cacheAs.value))
  {
    var calls := CallsAlone(sv, key, getNow, putNow, hit);
    var all := ops + calls;
    assert (ops + [GetOp(key, getNow)])[..|ops|] == ops;
    if |calls| == 1 {
      assert all == ops + [GetOp(key, getNow)];
    }
  }

  lemma FourMoves(sv: Service, sys: System, a: Move, b: Move, c: Move, d: Move)
    requires |sys.cache| == sv.config.shardCount
    ensures Exec(sv, sys, [a, b, c, d]) == Apply(sv, Apply(sv, Apply(sv, Apply(sv, sys, a), b), c), d)
  {
    hide Apply;
    ExecStep(sv, sys, [], a);
    assert [] + [a] == [a];
    ExecStep(sv, sys, [a], b);
    assert [a] + [b] == [a, b];
    ExecStep(sv, sys, [a, b], c);
    assert [a, b] + [c] == [a, b, c];
    ExecStep(sv, sys, [a, b, c], d);
    assert [a, b, c] + [d] == [a, b, c, d];
  }

  lemma ExecStep(sv: Service, sys: System, moves: seq<Move>, move: Move)
    requires |sys.cache| == sv.config.shardCount
    ensures Exec(sv, sys, moves + [move]) == Apply(sv, Exec(sv, sys, moves), move)
  {
    assert (moves + [move])[..|moves|] == moves;
  }
}
