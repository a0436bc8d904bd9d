/** `IPCache`: a vector of shards that own disjoint parts of the heap. */
module IPCaches {
  import opened Wrappers
  import opened JsonObjects
  import opened CacheModel
  import opened CacheRuns
  import opened CacheShards
  import opened Sharding

  class IPCache {
    const config: CacheConfig
    const shards: seq<CacheShard>
    ghost var Repr: set<object>
    ghost var ops: seq<Op>  // every call so far

    /** The shards are intact, and their parts of the heap are disjoint. */
    ghost predicate Structured()
      reads this`Repr, Repr - {this}
    {
      && this in Repr
      && |shards| == config.shardCount
      && (forall i {:trigger shards[i]} :: 0 <= i < |shards| ==>
            && shards[i] in Repr && shards[i].Repr <= Repr && this !in shards[i].Repr
            && shards[i].Valid() && shards[i].cfg == config.ShardConfig())
      && (forall i, j :: 0 <= i < j < |shards| ==> shards[i].Repr !! shards[j].Repr)
    }

    /** The cache as a value: the shards' values in order. */
    ghost function Value(): (cache: Cache)
      requires Structured()
      reads this`Repr, Repr - {this}
      ensures |cache| == config.shardCount
    {
      seq(|shards|, i requires 0 <= i < |shards| && shards[i].Valid()
                    reads if 0 <= i < |shards| then {shards[i]} + shards[i].Repr else {} => shards[i].Value())
    }

    /** The cache is in the state that its calls so far lead to. */
    ghost predicate Valid()
      reads this, Repr
      ensures Valid() ==> this in Repr
    {
      Structured() && Value() == RunAll(config, ops)
    }

    constructor (config: CacheConfig)
      ensures Valid() && fresh(Repr) && this.config == config
      ensures ops == [] && Value() == Empty(config)
    {
      hide CacheShard.Valid, CacheShard.Value;
      this.config := config;
      var built: seq<CacheShard> := [];
      ghost var owned: set<object> := {};
      for n := 0 to config.shardCount
        invariant |built| == n && fresh(owned)
        invariant forall i {:trigger built[i]} :: 0 <= i < n ==>
          && built[i] in owned && built[i].Repr <= owned
          && built[i].Valid() && built[i].cfg == config.ShardConfig() && built[i].Value() == EMPTY
        invariant forall i, j :: 0 <= i < j < n ==> built[i].Repr !! built[j].Repr
      {
        var shard := new CacheShard(config.ShardConfig());
        built := built + [shard];
        owned := owned + shard.Repr;
      }
      shards := built;
      ops := [];
      new;
      Repr := owned + {this};
    }

    /** Changing one shard within its own part of the heap changes one element of the value. */
    twostate lemma OneShardChanged(i: nat)
      requires old(Structured()) && i < |shards|
      requires shards[i].Valid() && fresh(shards[i].Repr - old(shards[i].Repr))
      requires unchanged(this)
      requires forall o {:trigger o in old(Repr)} :: o in old(Repr) && o !in old(shards[i].Repr) ==> unchanged(o)
      ensures forall j :: 0 <= j < |shards| && j != i ==>
        shards[j].Valid() && shards[j].Repr == old(shards[j].Repr) && shards[j].Value() == old(shards[j].Value())
    {
      forall j | 0 <= j < |shards| && j != i
        ensures shards[j].Valid() && shards[j].Repr == old(shards[j].Repr) && shards[j].Value() == old(shards[j].Value())
      {
        assert old(shards[j].Repr) !! old(shards[i].Repr);
        assert forall o :: o in old(shards[j].Repr) ==> o in old(Repr) && o !in old(shards[i].Repr);
      }
    }

    /** The `get` of the key's own shard. */
    method GetInShard(key: string, now: int) returns (r: Option<Json>)
      requires Structured()
      modifies Repr - {this}
      ensures Structured()
      ensures (Value(), r) == StepAll(config, old(Value()), GetOp(key, now))
    {
      hide CacheModel.Get, CacheShard.Value, CacheShard.Valid;
      ghost var was := Value();
      var i := config.Index(key);
      r := shards[i].Get(key, now);
      OneShardChanged(i);
      assert Value() == was[i := shards[i].Value()];
    }

    /** The `put` of the key's own shard. */
    method PutInShard(key: string, result: Json, dataType: CacheDataType, now: int)
      requires Structured()
      modifies this`Repr, Repr - {this}
      ensures Structured() && fresh(Repr - old(Repr))
      ensures Value() == StepAll(config, old(Value()), PutOp(key, now, result, dataType)).0
    {
      hide CacheModel.Put, CacheShard.Value, CacheShard.Valid;
      ghost var was := Value();
      var i := config.Index(key);
      shards[i].Put(key, result, dataType, now);
      OneShardChanged(i);
      Repr := Repr + shards[i].Repr;
      assert Value() == was[i := shards[i].Value()];
    }

    /**
     * `get` answers from the latest `put` of the key among all calls so far, exactly when the key is
     * resident and that `put` is at most an hour old for an address, seven days for a MAC address,
     * five minutes for a negative.
     */
    method Get(key: string, now: int) returns (r: Option<Json>)
      requires Valid()
      modifies Repr
      ensures Valid() && fresh(Repr - old(Repr))
      ensures ops == old(ops) + [GetOp(key, now)]
      ensures (Value(), r) == StepAll(config, old(Value()), GetOp(key, now))
      ensures var latest := LatestPut(old(ops), key);
        && (r.Some? ==> latest.Some? && r == Some(latest.value.value))
        && (r.Some? <==> (Resident(config, old(Value()), key) && latest.Some? &&
              match latest.value.kind
              case IpGeolocation => now - latest.value.now <= 3_600_000_000_000
              case MacOui => now - latest.value.now <= 604_800_000_000_000
              case Negative => now - latest.value.now <= 300_000_000_000))
    {
      hide Structured, Value, StepAll, Resident;
      RunAllAfter(config, ops, GetOp(key, now));
      CacheAnswersLatestPut(config, ops, key, now);
      r := GetInShard(key, now);
      ops := ops + [GetOp(key, now)];
    }

    method Put(key: string, result: Json, dataType: CacheDataType, now: int)
      requires Valid()
      modifies Repr
      ensures Valid() && fresh(Repr - old(Repr))
      ensures ops == old(ops) + [PutOp(key, now, result, dataType)]
      ensures Value() == StepAll(config, old(Value()), PutOp(key, now, result, dataType)).0
    {
      hide Structured, Value, StepAll;
      RunAllAfter(config, ops, PutOp(key, now, result, dataType));
      PutInShard(key, result, dataType, now);
      ops := ops + [PutOp(key, now, result, dataType)];
    }

    /** The shards' counters added up: every entry and every lookup so far is accounted for. */
    method GetStats() returns (combined: CacheStats)
      requires Valid()
      ensures combined == Combined(Value())
      ensures combined.memoryUsage == Total(Value(), Bytes)
      ensures Lookups(ops) == combined.lookups == combined.hits + combined.misses
      ensures combined.hits == AnsweredAll(config, ops) && combined.expired == ExpirationsAll(config, ops)
      ensures FreshPutsAll(config, ops) == Total(Value(), LiveEntries) + combined.evictions + combined.expired
    {
      hide Structured, Value, Combined, Total, RunAll, Lookups, FreshPutsAll, AnsweredAll, ExpirationsAll;
      combined := AddUpStats();
      ConservationAll(config, ops);
    }

    method AddUpStats() returns (combined: CacheStats)
      requires Structured()
      ensures combined == Combined(Value())
    {
      combined := NO_STATS;
      for n := 0 to |shards|
        invariant combined == Combined(Value()[..n])
      {
        assert Value()[..n + 1][..n] == Value()[..n];
        combined := AddStats(combined, shards[n].stats);
        combined := combined.(memoryUsage := combined.memoryUsage + shards[n].memoryUsageBytes);
      }
      assert Value()[..|shards|] == Value();
    }
  }
}
