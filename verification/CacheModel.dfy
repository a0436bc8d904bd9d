/**
 * The shard as a value: its entries in recency order, most recent first, and its counters.
 * The heap implementation in CacheShard is proved to do exactly these steps.
 */
module CacheModel {
  import opened Wrappers
  import opened Sequences
  import opened JsonObjects

  const TICKS_PER_SECOND := 1_000_000_000  // the clock counts nanoseconds

  datatype CacheDataType = IpGeolocation | MacOui | Negative

  function TtlForType(kind: CacheDataType): int {
    match kind
    case IpGeolocation => 3600 * TICKS_PER_SECOND
    case MacOui => 7 * 24 * 3600 * TICKS_PER_SECOND
    case Negative => 300 * TICKS_PER_SECOND
  }

  /** `memoryUsage` is a field the shard never writes; only IPCache's summary fills it in. */
  datatype CacheStats = CacheStats(lookups: nat, hits: nat, misses: nat, evictions: nat, expired: nat, memoryUsage: nat)

  const NO_STATS := CacheStats(0, 0, 0, 0, 0, 0)

  datatype Entry = Entry(key: string, value: Json, time: int, size: nat, kind: CacheDataType)

  datatype Shard = Shard(entries: seq<Entry>, stats: CacheStats)

  const EMPTY := Shard([], NO_STATS)

  /** The byte budget of a shard, and the length of a value's JSON text. */
  datatype Config = Config(maxMemory: nat, dumpSize: Json -> nat) {
    function EntrySize(key: string, value: Json): nat {
      |key| * 2 + dumpSize(value)
    }
  }

  function TotalSize(es: seq<Entry>): nat {
    if es == [] then 0 else TotalSize(es[..|es| - 1]) + es[|es| - 1].size
  }

  /** Where `key` stands in the recency order, or the length if it is absent. */
  function IndexOf(es: seq<Entry>, key: string): (i: nat)
    ensures i <= |es|
    ensures i < |es| ==> es[i].key == key
    ensures forall j :: 0 <= j < i ==> es[j].key != key
  {
    FindFrom(es, (e: Entry) => e.key == key, 0)
  }

  predicate Has(es: seq<Entry>, key: string) {
    IndexOf(es, key) < |es|
  }

  /** What the eviction loop leaves: entries go from the back until `need` more bytes fit. */
  function Keep(cfg: Config, es: seq<Entry>, need: nat): (kept: seq<Entry>)
    ensures kept <= es
  {
    if es == [] || TotalSize(es) + need <= cfg.maxMemory then es else Keep(cfg, es[..|es| - 1], need)
  }

  lemma KeepUnfold(cfg: Config, es: seq<Entry>, need: nat)
    ensures Keep(cfg, es, need) ==
      if es == [] || TotalSize(es) + need <= cfg.maxMemory then es else Keep(cfg, es[..|es| - 1], need)
  {}

  /** `get` on a key that stands at position `i`. */
  function GetAt(s: Shard, i: nat, now: int): (Shard, Option<Json>)
    requires i <= |s.entries|
  {
    var st := s.stats.(lookups := s.stats.lookups + 1);
    if i == |s.entries| then
      (Shard(s.entries, st.(misses := st.misses + 1)), None)
    else if now - s.entries[i].time > TtlForType(s.entries[i].kind) then
      (Shard(RemoveAt(s.entries, i), st.(expired := st.expired + 1, misses := st.misses + 1)), None)
    else
      (Shard(ToFront(s.entries, i), st.(hits := st.hits + 1)), Some(s.entries[i].value))
  }

  function Get(s: Shard, key: string, now: int): (Shard, Option<Json>) {
    GetAt(s, IndexOf(s.entries, key), now)
  }

  /** `put` of the entry `e`, whose key stands at position `i`. */
  function PutAt(cfg: Config, s: Shard, i: nat, e: Entry): Shard
    requires i <= |s.entries|
  {
    if i < |s.entries| then
      Shard([e] + RemoveAt(s.entries, i), s.stats)
    else
      var kept := Keep(cfg, s.entries, e.size);
      Shard([e] + kept, s.stats.(evictions := s.stats.evictions + (|s.entries| - |kept|)))
  }

  function Put(cfg: Config, s: Shard, key: string, value: Json, kind: CacheDataType, now: int): Shard {
    PutAt(cfg, s, IndexOf(s.entries, key), Entry(key, value, now, cfg.EntrySize(key, value), kind))
  }

  predicate DistinctKeys(es: seq<Entry>) {
    forall i, j :: 0 <= i < j < |es| ==> es[i].key != es[j].key
  }

  // ---------- sizes and positions ----------

  lemma {:induction false} TotalSizeConcat(a: seq<Entry>, b: seq<Entry>)
    ensures TotalSize(a + b) == TotalSize(a) + TotalSize(b)
  {
    if b == [] {
      assert a + b == a;
    } else {
      TotalSizeConcat(a, b[..|b| - 1]);
      assert (a + b)[..|a + b| - 1] == a + b[..|b| - 1];
    }
  }

  lemma TotalSizeOfLast(es: seq<Entry>)
    requires es != []
    ensures TotalSize(es) == TotalSize(es[..|es| - 1]) + es[|es| - 1].size
  {}

  lemma TotalSizeRemoveAt(es: seq<Entry>, i: nat)
    requires i < |es|
    ensures TotalSize(RemoveAt(es, i)) == TotalSize(es) - es[i].size
  {
    hide TotalSize;
    var upTo, rest := es[..i + 1], es[i + 1..];
    TotalSizeOfLast(upTo);
    assert upTo[..|upTo| - 1] == es[..i];
    TotalSizeConcat(es[..i], rest);
    TotalSizeConcat(upTo, rest);
    assert upTo + rest == es;
  }

  lemma TotalSizeCons(e: Entry, es: seq<Entry>)
    ensures TotalSize([e] + es) == e.size + TotalSize(es)
  {
    TotalSizeConcat([e], es);
    assert TotalSize([e]) == e.size;
  }

  lemma IndexOfAt(es: seq<Entry>, i: nat)
    requires i < |es| && DistinctKeys(es)
    ensures IndexOf(es, es[i].key) == i
  {}

  /**
   * Eviction is minimal: what is kept is the longest prefix of the recency order that leaves
   * room for the new entry, and nothing is kept if no prefix does.
   */
  lemma {:induction false} KeepIsLongestPrefix(cfg: Config, es: seq<Entry>, need: nat)
    ensures var kept := Keep(cfg, es, need);
      && kept <= es
      && (kept != [] ==> TotalSize(kept) + need <= cfg.maxMemory)
      && forall n :: |kept| < n <= |es| ==> TotalSize(es[..n]) + need > cfg.maxMemory
  {
    if es != [] && TotalSize(es) + need > cfg.maxMemory {
      var front := es[..|es| - 1];
      KeepIsLongestPrefix(cfg, front, need);
      assert es[..|es|] == es;
      assert forall n :: 0 <= n <= |front| ==> es[..n] == front[..n];
    } else {
      assert es[..|es|] == es;
    }
  }
}
