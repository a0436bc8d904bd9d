/** `CacheShard`: the hash map and the recency list that hold references into each other. */
module CacheShards {
  import opened Wrappers
  import opened Sequences
  import opened JsonObjects
  import opened RecencyLists
  import opened LinkedKeys
  import opened CacheModel

  datatype CacheEntry = CacheEntry(result: Json, timestamp: int, listIt: Node, sizeBytes: nat, dataType: CacheDataType)

  function ToEntry(key: string, e: CacheEntry): Entry {
    Entry(key, e.result, e.timestamp, e.sizeBytes, e.dataType)
  }

  ghost function Refs(m: map<string, CacheEntry>): map<string, Node> {
    map k | k in m :: m[k].listIt
  }

  /** The list's nodes, each with the entry the map holds for its key. */
  ghost function EntriesOf(nodes: seq<Node>, m: map<string, CacheEntry>): (es: seq<Entry>)
    requires Linked(nodes, Refs(m))
    ensures |es| == |nodes|
  {
    seq(|nodes|, i requires 0 <= i < |nodes| => ToEntry(nodes[i].key, m[nodes[i].key]))
  }

  /** A key's position in the recency order is where its reference points. */
  lemma Position(nodes: seq<Node>, m: map<string, CacheEntry>, key: string) returns (i: nat)
    requires Linked(nodes, Refs(m))
    ensures var es := EntriesOf(nodes, m);
      && DistinctKeys(es)
      && i == IndexOf(es, key)
      && (key in m <==> i < |nodes|)
      && (key in m ==> nodes[i] == m[key].listIt && es[i] == ToEntry(key, m[key]))
  {
    KeysAreDistinct(nodes, Refs(m));
    var es := EntriesOf(nodes, m);
    i := IndexOf(es, key);
    if key in m {
      assert key in Refs(m);
      var j :| 0 <= j < |nodes| && nodes[j] == Refs(m)[key];
      IndexOfAt(es, j);
    }
  }

  lemma EraseFromEntries(nodes: seq<Node>, m: map<string, CacheEntry>, i: nat)
    requires Linked(nodes, Refs(m)) && i < |nodes|
    ensures var m' := m - {nodes[i].key};
      Linked(RemoveAt(nodes, i), Refs(m')) && EntriesOf(RemoveAt(nodes, i), m') == RemoveAt(EntriesOf(nodes, m), i)
  {
    hide RemoveAt;
    var rest, m' := RemoveAt(nodes, i), m - {nodes[i].key};
    EraseLinked(nodes, Refs(m), i);
    assert Refs(m') == Refs(m) - {nodes[i].key};
    KeysAreDistinct(nodes, Refs(m));
    RemoveAtProperties(nodes, i);
    RemoveAtProperties(EntriesOf(nodes, m), i);
    forall j | 0 <= j < |rest| ensures EntriesOf(rest, m')[j] == RemoveAt(EntriesOf(nodes, m), i)[j] {
      assert rest[j] == nodes[if j < i then j else j + 1];
    }
  }

  lemma ToFrontOfEntries(nodes: seq<Node>, m: map<string, CacheEntry>, i: nat)
    requires Linked(nodes, Refs(m)) && i < |nodes|
    ensures Linked(ToFront(nodes, i), Refs(m))
    ensures EntriesOf(ToFront(nodes, i), m) == ToFront(EntriesOf(nodes, m), i)
  {
    hide RemoveAt, ToFront;
    ToFrontLinked(nodes, Refs(m), i);
    ToFrontProperties(nodes, i);
    ToFrontProperties(EntriesOf(nodes, m), i);
  }

  lemma PushOntoEntries(nodes: seq<Node>, m: map<string, CacheEntry>, e: CacheEntry)
    requires Linked(nodes, Refs(m)) && e.listIt.key !in m
    ensures var key := e.listIt.key;
      && Linked([e.listIt] + nodes, Refs(m[key := e]))
      && EntriesOf([e.listIt] + nodes, m[key := e]) == [ToEntry(key, e)] + EntriesOf(nodes, m)
  {
    PushLinked(nodes, Refs(m), e.listIt);
    assert Refs(m[e.listIt.key := e]) == Refs(m)[e.listIt.key := e.listIt];
  }

  lemma OverwriteEntry(nodes: seq<Node>, m: map<string, CacheEntry>, i: nat, e: CacheEntry)
    requires Linked(nodes, Refs(m)) && i < |nodes| && e.listIt == nodes[i]
    ensures var m' := m[nodes[i].key := e];
      && Linked(nodes, Refs(m'))
      && EntriesOf(nodes, m') == EntriesOf(nodes, m)[i := ToEntry(nodes[i].key, e)]
  {
    var m' := m[nodes[i].key := e];
    assert Refs(m') == Refs(m);
    KeysAreDistinct(nodes, Refs(m));
    assert EntriesOf(nodes, m') == EntriesOf(nodes, m)[i := ToEntry(nodes[i].key, e)];
  }

  lemma LastEntry(nodes: seq<Node>, m: map<string, CacheEntry>)
    requires Linked(nodes, Refs(m)) && nodes != []
    ensures var back := nodes[|nodes| - 1];
      back.key in m && m[back.key].listIt == back && m[back.key].sizeBytes == EntriesOf(nodes, m)[|nodes| - 1].size
  {}

  /** How `get` changes the byte total, by the fate of the entry at `i`. */
  lemma GetSizes(s: Shard, i: nat, now: int)
    requires i <= |s.entries|
    ensures i < |s.entries| ==> s.entries[i].size <= TotalSize(s.entries)
    ensures var s' := GetAt(s, i, now).0;
      TotalSize(s'.entries) == TotalSize(s.entries) - if |s'.entries| < |s.entries| then s.entries[i].size else 0
  {
    if i < |s.entries| {
      TotalSizeRemoveAt(s.entries, i);
      TotalSizeCons(s.entries[i], RemoveAt(s.entries, i));
    }
  }

  class CacheShard {
    const cfg: Config
    const cacheList: RecencyList
    var cacheMap: map<string, CacheEntry>
    var memoryUsageBytes: nat
    var stats: CacheStats
    ghost var Repr: set<object>

    /** The links between map and list are sound. */
    ghost predicate Structured()
      reads this`cacheMap, cacheList, cacheList.ring
    {
      && cacheList.Valid()
      && Linked(cacheList.Nodes(), Refs(cacheMap))
    }

    ghost function Entries(): (es: seq<Entry>)
      requires Structured()
      reads this`cacheMap, cacheList, cacheList.ring
      ensures |es| == |cacheList.Nodes()|
    {
      EntriesOf(cacheList.Nodes(), cacheMap)
    }

    ghost predicate Valid()
      reads this, Repr
      ensures Valid() ==> this in Repr
    {
      && this in Repr && cacheList in Repr
      && (forall n :: n in cacheList.ring ==> n in Repr)
      && Structured()
      && memoryUsageBytes == TotalSize(Entries())
    }

    /** The shard as a value. */
    ghost function Value(): Shard
      requires Valid()
      reads this, Repr
    {
      Shard(Entries(), stats)
    }

    constructor (cfg: Config)
      ensures Valid() && fresh(Repr) && this.cfg == cfg
      ensures Value() == EMPTY
    {
      this.cfg := cfg;
      var l := new RecencyList();
      cacheList := l;
      cacheMap := map[];
      memoryUsageBytes := 0;
      stats := NO_STATS;
      Repr := {this, l} + (set n | n in l.ring);
    }

    /** Where the entry of `key` stands, and that its reference points there. */
    lemma Locate(key: string) returns (i: nat)
      requires Structured()
      ensures cacheList.Valid() && DistinctKeys(Entries()) && i == IndexOf(Entries(), key)
      ensures key in cacheMap <==> i < |Entries()|
      ensures key in cacheMap ==> cacheList.Nodes()[i] == cacheMap[key].listIt && Entries()[i] == ToEntry(key, cacheMap[key])
      ensures key in cacheMap ==> cacheMap[key].listIt.key == key
    {
      assert key in cacheMap ==> key in Refs(cacheMap);
      i := Position(cacheList.Nodes(), cacheMap, key);
    }

    lemma ListIsValid()
      requires Structured()
      ensures cacheList.Valid()
    {}

    /** Erases the entry of `key` from the list, through its reference, and from the map. */
    method EraseEntry(key: string, ghost i: nat)
      requires Structured() && key in cacheMap && cacheMap[key].sizeBytes <= memoryUsageBytes
      requires i < |Entries()| && cacheList.Nodes()[i] == cacheMap[key].listIt && cacheMap[key].listIt.key == key
      modifies this`cacheMap, this`memoryUsageBytes, cacheList`ring, cacheList.ring
      ensures Structured() && (forall n :: n in cacheList.ring ==> n in old(cacheList.ring))
      ensures Entries() == RemoveAt(old(Entries()), i)
      ensures memoryUsageBytes == old(memoryUsageBytes) - old(cacheMap[key].sizeBytes)
      ensures cacheMap == old(cacheMap) - {key}
    {
      hide RemoveAt, EntriesOf, Linked, Refs;
      EraseFromEntries(cacheList.Nodes(), cacheMap, i);
      cacheList.Erase(cacheMap[key].listIt, i);
      memoryUsageBytes := memoryUsageBytes - cacheMap[key].sizeBytes;
      cacheMap := cacheMap - {key};
    }

    /** Splices the node of `key` to the front of the list. */
    method Touch(key: string, ghost i: nat)
      requires Structured() && key in cacheMap
      requires i < |Entries()| && cacheList.Nodes()[i] == cacheMap[key].listIt && cacheMap[key].listIt.key == key
      modifies cacheList`ring, cacheList.ring
      ensures Structured() && (forall n :: n in cacheList.ring ==> n in old(cacheList.ring))
      ensures Entries() == ToFront(old(Entries()), i)
    {
      hide RemoveAt, ToFront, EntriesOf, Linked, Refs;
      ToFrontOfEntries(cacheList.Nodes(), cacheMap, i);
      cacheList.MoveToFront(cacheMap[key].listIt, i);
    }

    /** Stores new contents for `key` in the map; its node stays where it is. */
    method Overwrite(key: string, e: CacheEntry, ghost i: nat)
      requires Structured() && key in cacheMap && e.listIt == cacheMap[key].listIt
      requires i < |Entries()| && cacheList.Nodes()[i] == cacheMap[key].listIt && cacheMap[key].listIt.key == key
      modifies this`cacheMap
      ensures Structured() && cacheMap == old(cacheMap)[key := e]
      ensures Entries() == old(Entries())[i := ToEntry(key, e)]
    {
      hide EntriesOf, Linked, Refs;
      OverwriteEntry(cacheList.Nodes(), cacheMap, i, e);
      cacheMap := cacheMap[key := e];
    }

    /** Pushes a node for `key` and stores the entry with a reference to that node. */
    method PushEntry(key: string, e: CacheEntry) returns (node: Node)
      requires Structured() && key !in cacheMap
      modifies this`cacheMap, cacheList`ring, cacheList.ring
      ensures Structured() && fresh(node)
      ensures Entries() == [ToEntry(key, e)] + old(Entries())
      ensures forall n :: n in cacheList.ring ==> n == node || n in old(cacheList.ring)
    {
      hide EntriesOf, Linked, Refs;
      ghost var nodes := cacheList.Nodes();
      node := cacheList.PushFront(key);
      PushOntoEntries(nodes, cacheMap, e.(listIt := node));
      cacheMap := cacheMap[key := e.(listIt := node)];
    }

    method Get(key: string, now: int) returns (r: Option<Json>)
      requires Valid()
      modifies Repr
      ensures Valid() && Repr == old(Repr)
      ensures (Value(), r) == CacheModel.Get(old(Value()), key, now)
    {
      hide Structured, Entries, TotalSize, IndexOf;
      ghost var s := Value();
      ghost var i := Locate(key);
      GetSizes(s, i, now);
      stats := stats.(lookups := stats.lookups + 1);
      if key !in cacheMap {
        stats := stats.(misses := stats.misses + 1);
        return None;
      }
      var it := cacheMap[key];
      if now - it.timestamp > TtlForType(it.dataType) {
        EraseEntry(key, i);
        stats := stats.(expired := stats.expired + 1, misses := stats.misses + 1);
        return None;
      }
      Touch(key, i);
      stats := stats.(hits := stats.hits + 1);
      return Some(it.result);
    }

    /** The entry at the back of the list, as the eviction loop finds it. */
    lemma LocateBack()
      requires Structured() && Entries() != []
      ensures cacheList.Valid()
      ensures var back, last := cacheList.Nodes()[|Entries()| - 1], Entries()[|Entries()| - 1];
        back.key in cacheMap && cacheMap[back.key].listIt == back && cacheMap[back.key].sizeBytes == last.size
    {
      LastEntry(cacheList.Nodes(), cacheMap);
    }

    /** One turn of the eviction loop: the entry at the back goes, and is counted. */
    method EvictLast()
      requires Structured() && Entries() != [] && Entries()[|Entries()| - 1].size <= memoryUsageBytes
      modifies this`cacheMap, this`memoryUsageBytes, this`stats, cacheList`ring, cacheList.ring
      ensures Structured() && Entries() == old(Entries())[..old(|Entries()|) - 1]
      ensures memoryUsageBytes == old(memoryUsageBytes) - old(Entries()[|Entries()| - 1].size)
      ensures stats == old(stats).(evictions := old(stats).evictions + 1)
      ensures forall k :: k in cacheMap ==> k in old(cacheMap)
      ensures forall n :: n in cacheList.ring ==> n in old(cacheList.ring)
    {
      hide Structured, Entries;
      ghost var before := Entries();
      LocateBack();
      var back := cacheList.Back();
      EraseEntry(back.key, |before| - 1);
      stats := stats.(evictions := stats.evictions + 1);
    }

    /** Drops entries from the back of the recency order until the new one fits. */
    method EvictIfNeeded(newEntrySize: nat)
      requires Structured() && memoryUsageBytes == TotalSize(Entries())
      modifies this`cacheMap, this`memoryUsageBytes, this`stats, cacheList`ring, cacheList.ring
      ensures Structured() && memoryUsageBytes == TotalSize(Entries())
      ensures Entries() == Keep(cfg, old(Entries()), newEntrySize)
      ensures stats == old(stats).(evictions := old(stats).evictions + (old(|Entries()|) - |Entries()|))
      ensures forall k :: k in cacheMap ==> k in old(cacheMap)
      ensures forall n :: n in cacheList.ring ==> n in old(cacheList.ring)
    {
      hide Structured, Entries, TotalSize, Keep;
      ghost var es := Entries();
      ListIsValid();
      var empty := cacheList.IsEmpty();
      while !empty && memoryUsageBytes + newEntrySize > cfg.maxMemory
        invariant Structured() && memoryUsageBytes == TotalSize(Entries())
        invariant empty <==> Entries() == []
        invariant |Entries()| <= |es| && Keep(cfg, Entries(), newEntrySize) == Keep(cfg, es, newEntrySize)
        invariant stats == old(stats).(evictions := old(stats).evictions + (|es| - |Entries()|))
        invariant forall k :: k in cacheMap ==> k in old(cacheMap)
        invariant forall n :: n in cacheList.ring ==> n in old(cacheList.ring)
        decreases |Entries()|
      {
        TotalSizeOfLast(Entries());
        KeepUnfold(cfg, Entries(), newEntrySize);
        assert forall j :: 0 <= j < |cacheList.ring| ==> cacheList.ring[j] in cacheList.ring;
        EvictLast();
        ListIsValid();
        empty := cacheList.IsEmpty();
      }
      KeepUnfold(cfg, Entries(), newEntrySize);
    }

    method Put(key: string, result: Json, dataType: CacheDataType, now: int)
      requires Valid()
      modifies Repr
      ensures Valid() && fresh(Repr - old(Repr))
      ensures Value() == CacheModel.Put(cfg, old(Value()), key, result, dataType, now)
    {
      hide Structured, Entries, TotalSize, IndexOf, Keep;
      ghost var s := Value();
      ghost var i := Locate(key);
      var entrySize := cfg.EntrySize(key, result);
      ghost var e := Entry(key, result, now, entrySize, dataType);
      if key in cacheMap {
        var it := cacheMap[key];
        TotalSizeRemoveAt(s.entries, i);
        TotalSizeCons(e, RemoveAt(s.entries, i));
        memoryUsageBytes := memoryUsageBytes - it.sizeBytes;
        Overwrite(key, it.(result := result, timestamp := now, sizeBytes := entrySize, dataType := dataType), i);
        memoryUsageBytes := memoryUsageBytes + entrySize;
        Touch(key, i);
        assert RemoveAt(s.entries[i := e], i) == RemoveAt(s.entries, i);
        return;
      }
      EvictIfNeeded(entrySize);
      TotalSizeCons(e, Entries());
      var node := PushEntry(key, CacheEntry(result, now, cacheList.sentinel, entrySize, dataType));
      memoryUsageBytes := memoryUsageBytes + entrySize;
      Repr := Repr + {node};
    }
  }
}
