/** The two cache-aside services, each owning its cache. */
module Services {
  import opened Wrappers
  import opened JsonObjects
  import opened CacheModel
  import opened CacheRuns
  import opened Sharding
  import opened IPCaches
  import opened MacAddresses
  import opened Answers
  import opened LookupMachine

  const GEO_CACHE_MEMORY: nat := 100 * 1024 * 1024
  const MAC_CACHE_MEMORY: nat := 50 * 1024 * 1024
  const SHARD_COUNT: Positive := 8

  /** In every reachable state of the address service, no cached entry is mistyped. */
  lemma GeoCacheIsTyped(config: CacheConfig, db: GeoDatabases, moves: seq<Move>, shard: nat, e: Entry)
    requires shard < config.shardCount
    requires e in Reached(Service(config, ip => GeoAnswer(db, ip)), moves).cache[shard].entries
    ensures e.value == GeoAnswer(db, e.key).data
    ensures !HasError(e.value) && (e.kind == Negative <==> !Found(e.value))
    ensures !db.city(e.key).Raised? && !db.asn(e.key).Raised? && db.city(e.key).ErrorText().None?
  {
    hide GeoAnswer;
    var sv := Service(config, ip => GeoAnswer(db, ip));
    forall key ensures WellTyped(sv.answers(key)) {
      GeoAnswerIsWellTyped(db, key);
    }
    CachedEntriesAreTyped(sv, moves, shard, e);
    GeoErrorsSurface(db, e.key);
  }

  lemma GeoErrorsSurface(db: GeoDatabases, ip: string)
    requires !HasError(GeoAnswer(db, ip).data)
    ensures !db.city(ip).Raised? && !db.asn(ip).Raised? && db.city(ip).ErrorText().None?
  {}

  /** In every reachable state of the MAC service, only answers of the database itself are cached. */
  lemma MacCacheIsTyped(config: CacheConfig, db: OuiDatabase, moves: seq<Move>, shard: nat, e: Entry)
    requires shard < config.shardCount
    requires e in Reached(Service(config, mac => MacAnswer(db, mac)), moves).cache[shard].entries
    ensures OuiResult(db, e.key) == Ok(e.value)
    ensures !HasError(e.value) && (e.kind == Negative <==> !Found(e.value))
  {
    var sv := Service(config, mac => MacAnswer(db, mac));
    forall key ensures WellTyped(sv.answers(key)) {
      MacAnswerIsWellTyped(db, key);
    }
    CachedEntriesAreTyped(sv, moves, shard, e);
  }

  class IPGeoService {
    const cache: IPCache
    const db: GeoDatabases

    /** The abstract service: the cache's configuration, and what the databases answer. */
    function Model(): Service {
      Service(cache.config, ip => GeoAnswer(db, ip))
    }

    constructor (db: GeoDatabases, dumpSize: Json -> nat, hash: string -> nat)
      ensures cache.Valid() && fresh(cache) && fresh(cache.Repr)
      ensures this.db == db && cache.ops == []
      ensures cache.config == CacheConfig(104_857_600, 8, dumpSize, hash)
      ensures CacheSound(Model(), cache.Value())
    {
      hide CacheSound;
      this.db := db;
      var c := new IPCache(CacheConfig(GEO_CACHE_MEMORY, SHARD_COUNT, dumpSize, hash));
      cache := c;
      new;
      InitialIsSound(Model());
    }

    /**
     * The database step: what to answer, and how to cache it. A caught exception leaves its text
     * in "error".
     */
    method ReadDatabases(ip: string) returns (a: Answer)
      ensures a == GeoAnswer(db, ip)
      ensures GeoContents(db.city(ip), db.asn(ip), ip, a)
    {
      hide GeoContents;
      GeoContentsDecide(db, ip, GeoAnswer(db, ip));
      var result: Json := map[];
      result := result["ip" := Text(ip)];
      result := result["found" := Flag(false)];
      assert result == Base(ip, false);

      var cityLookup := MmdbLookup(db.city(ip), ip, CITY_FIELDS);
      if cityLookup.Err? {
        return Answer(result["error" := Text(cityLookup.error)], None);
      }
      var asnLookup := MmdbLookup(db.asn(ip), ip, ASN_FIELDS);
      if asnLookup.Err? {
        return Answer(result["error" := Text(asnLookup.error)], None);
      }
      var cityResult, asnResult := cityLookup.value, asnLookup.value;
      if HasError(cityResult) {
        return Answer(result["error" := cityResult["error"]], None);
      }
      var cityFound, asnFound := Found(cityResult), Found(asnResult);
      if !cityFound && !asnFound {
        return Answer(result, Some(Negative));
      }
      result := result["found" := Flag(true)];
      if cityFound {
        result := result + cityResult;
      }
      if asnFound {
        result := result + asnResult;
      }
      MergeInAnyOrder(db, ip);
      return Answer(result, Some(IpGeolocation));
    }

    /** Takes the three steps of one lookup. */
    method Lookup(ip: string, getNow: int, putNow: int) returns (r: LookupResult)
      requires cache.Valid()
      modifies cache.Repr
      ensures cache.Valid() && fresh(cache.Repr - old(cache.Repr))
      ensures (cache.Value(), r) == LookupAlone(Model(), old(cache.Value()), ip, getNow, putNow)
      ensures cache.ops == old(cache.ops) + [GetOp(ip, getNow)] +
        (if r.cacheHit || GeoAnswer(db, ip).cacheAs.None? then []
         else [PutOp(ip, putNow, GeoAnswer(db, ip).data, GeoAnswer(db, ip).cacheAs.value)])
      ensures r.cacheHit <==>
        Resident(cache.config, old(cache.Value()), ip) && Fresh(LatestPut(old(cache.ops), ip), getNow)
      ensures Resident(cache.config, cache.Value(), ip) <==> r.cacheHit || GeoAnswer(db, ip).cacheAs.Some?
    {
      hide StepAll, GeoAnswer, RunAll, Resident;
      LookupAloneIsRun(Model(), cache.ops, ip, getNow, putNow);
      var cached := cache.Get(ip, getNow);
      if cached.Some? {
        return LookupResult(cached.value, true);
      }
      var answer := ReadDatabases(ip);
      if answer.cacheAs.Some? {
        cache.Put(ip, answer.data, answer.cacheAs.value, putNow);
      }
      return LookupResult(answer.data, false);
    }
  }

  /** Updating by whole results, "ip" and "found" included, gives base and fields merged. */
  lemma MergeInAnyOrder(db: GeoDatabases, ip: string)
    ensures
      var city, asn := EntryFields(db.city(ip), CITY_FIELDS), EntryFields(db.asn(ip), ASN_FIELDS);
      var base := Base(ip, false)["found" := Flag(true)];
      && base + (Base(ip, true) + city) + (Base(ip, true) + asn) == Base(ip, true) + city + asn
      && base + (Base(ip, true) + city) == Base(ip, true) + city
      && base + (Base(ip, true) + asn) == Base(ip, true) + asn
  {
    FieldsAreNotMeta(db.city(ip));
    FieldsAreNotMeta(db.asn(ip));
  }

  class MACLookupService {
    const cache: IPCache
    const db: OuiDatabase

    function Model(): Service {
      Service(cache.config, mac => MacAnswer(db, mac))
    }

    constructor (db: OuiDatabase, dumpSize: Json -> nat, hash: string -> nat)
      ensures cache.Valid() && fresh(cache) && fresh(cache.Repr)
      ensures this.db == db && cache.ops == []
      ensures cache.config == CacheConfig(52_428_800, 8, dumpSize, hash)
      ensures CacheSound(Model(), cache.Value())
    {
      hide CacheSound;
      this.db := db;
      var c := new IPCache(CacheConfig(MAC_CACHE_MEMORY, SHARD_COUNT, dumpSize, hash));
      cache := c;
      new;
      InitialIsSound(Model());
    }

    method ReadDatabase(mac: string) returns (a: Answer)
      ensures a == MacAnswer(db, mac)
      ensures a.cacheAs.None? <==> HasError(a.data)
      ensures a.cacheAs.Some? ==> OuiContents(db, mac, Ok(a.data))
      ensures a.cacheAs.Some? ==> a.cacheAs == Some(if Found(a.data) then MacOui else Negative)
    {
      hide OuiContents;
      var result: Json := map[];
      var lookup := OuiLookup(db, mac);
      if lookup.Err? {
        return Answer(result["error" := Text(lookup.error)], None);
      }
      result := lookup.value;
      if HasError(result) {
        return Answer(result, None);
      }
      if Found(result) {
        return Answer(result, Some(MacOui));
      }
      return Answer(result, Some(Negative));
    }

    method Lookup(mac: string, getNow: int, putNow: int) returns (r: LookupResult)
      requires cache.Valid()
      modifies cache.Repr
      ensures cache.Valid() && fresh(cache.Repr - old(cache.Repr))
      ensures (cache.Value(), r) == LookupAlone(Model(), old(cache.Value()), mac, getNow, putNow)
      ensures cache.ops == old(cache.ops) + [GetOp(mac, getNow)] +
        (if r.cacheHit || MacAnswer(db, mac).cacheAs.None? then []
         else [PutOp(mac, putNow, MacAnswer(db, mac).data, MacAnswer(db, mac).cacheAs.value)])
      ensures r.cacheHit <==>
        Resident(cache.config, old(cache.Value()), mac) && Fresh(LatestPut(old(cache.ops), mac), getNow)
      ensures Resident(cache.config, cache.Value(), mac) <==> r.cacheHit || MacAnswer(db, mac).cacheAs.Some?
    {
      hide StepAll, MacAnswer, RunAll, Resident;
      LookupAloneIsRun(Model(), cache.ops, mac, getNow, putNow);
      var cached := cache.Get(mac, getNow);
      if cached.Some? {
        return LookupResult(cached.value, true);
      }
      var answer := ReadDatabase(mac);
      if answer.cacheAs.Some? {
        cache.Put(mac, answer.data, answer.cacheAs.value, putNow);
      }
      return LookupResult(answer.data, false);
    }
  }
}
