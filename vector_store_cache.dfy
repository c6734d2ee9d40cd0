/** The cache of loaded vector indexes kept by `getVectorStore`: a map from
    document id to the loaded index and the time it was last used, in
    insertion order. An entry younger than thirty minutes is served and its
    time refreshed; an older one is dropped; a miss loads the index from
    disk when there is one and evicts the earliest-inserted entry once more
    than fifty are held. The clock and the disk are parameters. */
module VectorStoreCache {
  import opened Common

  /** `CACHE_TTL`: thirty minutes, in milliseconds. */
  const CacheTtl := 30 * 60 * 1000

  /** The number of entries kept after an insertion. */
  const MaxEntries := 50

  /** A loaded index, named by the path it was loaded from. */
  datatype Store = Store(path: string)

  /** A cached index and the time it was last served. */
  datatype Entry = Entry(instance: Store, timestamp: int)

  /** The cache's contents: the keys in insertion order, and the entries. */
  datatype Cache = Cache(order: seq<string>, entries: map<string, Entry>)

  /** No key is listed twice. */
  predicate Distinct(s: seq<string>)
  {
    forall i, j :: 0 <= i < j < |s| ==> s[i] != s[j]
  }

  /** The order lists exactly the cached keys, once each, and at most
      `MaxEntries` of them. */
  ghost predicate WellFormed(c: Cache)
  {
    Distinct(c.order)
    && (forall k :: k in c.entries <==> k in c.order)
    && |c.order| <= MaxEntries
  }

  const Empty := Cache([], map[])

  /** The entry for `id` is still within its time to live at `now`. */
  predicate Live(c: Cache, id: string, now: int)
  {
    id in c.entries && now - c.entries[id].timestamp < CacheTtl
  }

  /** `getVectorStore(fileId)` at time `now`, where `onDisk` is what loading
      the document's index from disk gives (`None`: no index on disk): the
      result and the cache afterwards. */
  function GetVectorStore(c: Cache, id: string, now: int, onDisk: Option<Store>): (r: (Option<Store>, Cache))
    ensures r.0 == if Live(c, id, now) then Some(c.entries[id].instance) else onDisk
    ensures Live(c, id, now) ==>
      r.1.order == c.order && r.1.entries.Keys == c.entries.Keys
      && r.1.entries[id] == Entry(c.entries[id].instance, now)
      && forall k :: k in c.entries && k != id ==> r.1.entries[k] == c.entries[k]
    ensures !Live(c, id, now) && onDisk.None? ==> id !in r.1.entries
  {
    if Live(c, id, now) then
      (Some(c.entries[id].instance), c.(entries := c.entries[id := Entry(c.entries[id].instance, now)]))
    else
      var kept := Expired(c, id);
      if onDisk.None? then (None, kept)
      else
        var order := kept.order + [id];
        var entries := kept.entries[id := Entry(onDisk.value, now)];
        if |order| > MaxEntries then (onDisk, Cache(order[1..], entries - {order[0]}))
        else (onDisk, Cache(order, entries))
  }

  /** The cache with the entry for `id`, if any, dropped. */
  function Expired(c: Cache, id: string): Cache
  {
    if id in c.entries then Cache(Without(c.order, id), c.entries - {id}) else c
  }

  /** Removing a key keeps the others distinct. */
  lemma {:induction false} WithoutDistinct(s: seq<string>, x: string)
    requires Distinct(s)
    ensures Distinct(Without(s, x))
    decreases |s|
  {
    if s != [] {
      var tail := s[1..];
      assert Distinct(tail) by {
        forall i, j | 0 <= i < j < |tail| ensures tail[i] != tail[j] {
          assert tail[i] == s[i + 1] && tail[j] == s[j + 1];
        }
      }
      WithoutDistinct(tail, x);
      var rest := Without(tail, x);
      if s[0] != x {
        assert s[0] !in tail by {
          forall j | 0 <= j < |tail| ensures tail[j] != s[0] {
            assert tail[j] == s[j + 1];
          }
        }
        var r := [s[0]] + rest;
        forall i, j | 0 <= i < j < |r| ensures r[i] != r[j] {
          if i == 0 {
            assert r[j] == rest[j - 1];
          } else {
            assert r[i] == rest[i - 1] && r[j] == rest[j - 1];
          }
        }
      } else {
        assert Without(s, x) == rest;
      }
    }
  }

  /** Every lookup keeps the cache well formed: in particular it never holds
      more than `MaxEntries` entries. */
  lemma GetKeepsWellFormed(c: Cache, id: string, now: int, onDisk: Option<Store>)
    requires WellFormed(c)
    ensures WellFormed(GetVectorStore(c, id, now, onDisk).1)
  {
    if !Live(c, id, now) {
      ExpiredWellFormed(c, id);
      var kept := Expired(c, id);
      if onDisk.Some? {
        AppendNewDistinct(kept.order, id);
        if |kept.order + [id]| > MaxEntries {
          DropFirstKeeps(kept.order + [id]);
        }
      }
    }
  }

  /** Dropping an entry keeps the cache well formed, without that key. */
  lemma ExpiredWellFormed(c: Cache, id: string)
    requires WellFormed(c)
    ensures WellFormed(Expired(c, id)) && id !in Expired(c, id).order && id !in Expired(c, id).entries
  {
    WithoutDistinct(c.order, id);
  }

  /** A key not yet listed can be listed last. */
  lemma AppendNewDistinct(order: seq<string>, id: string)
    requires Distinct(order) && id !in order
    ensures Distinct(order + [id])
  {
    var r := order + [id];
    forall i, j | 0 <= i < j < |r| ensures r[i] != r[j] {
      assert r[i] == order[i];
      if j < |order| {
        assert r[j] == order[j];
      }
    }
  }

  /** Dropping the first key of a distinct order leaves a distinct order of
      the other keys. */
  lemma DropFirstKeeps(order: seq<string>)
    requires order != [] && Distinct(order)
    ensures Distinct(order[1..])
    ensures forall k :: k in order[1..] <==> k in order && k != order[0]
  {
    var rest := order[1..];
    forall k ensures k in rest <==> k in order && k != order[0] {
      if k in rest {
        var j :| 0 <= j < |rest| && rest[j] == k;
        assert order[j + 1] == k;
      }
      if k in order && k != order[0] {
        var j :| 0 <= j < |order| && order[j] == k;
        assert rest[j - 1] == k;
      }
    }
    forall i, j | 0 <= i < j < |rest| ensures rest[i] != rest[j] {
      assert rest[i] == order[i + 1] && rest[j] == order[j + 1];
    }
  }

  /** A live entry is served without touching the disk, and only its time is
      refreshed: the order of the keys does not change. */
  lemma GetLive(c: Cache, id: string, now: int, onDisk: Option<Store>)
    requires Live(c, id, now)
    ensures var (r, c') := GetVectorStore(c, id, now, onDisk);
            r == Some(c.entries[id].instance)
            && c'.order == c.order
            && c'.entries.Keys == c.entries.Keys
            && c'.entries[id].timestamp == now
            && forall k :: k in c.entries && k != id ==> c'.entries[k] == c.entries[k]
  {
  }

  /** With no live entry and no index on disk the result is null, and an
      expired entry has been dropped. */
  lemma GetNothingOnDisk(c: Cache, id: string, now: int)
    requires WellFormed(c) && !Live(c, id, now)
    ensures var (r, c') := GetVectorStore(c, id, now, None);
            r == None && id !in c'.entries && id !in c'.order
            && c'.entries.Keys == c.entries.Keys - {id}
  {
  }

  /** A loaded index is returned and cached as the newest entry, timed
      `now`. */
  lemma GetLoads(c: Cache, id: string, now: int, s: Store)
    requires WellFormed(c) && !Live(c, id, now)
    ensures var (r, c') := GetVectorStore(c, id, now, Some(s));
            r == Some(s) && c'.entries[id] == Entry(s, now)
            && c'.order != [] && c'.order[|c'.order| - 1] == id
  {
    var kept := Expired(c, id);
    var order := kept.order + [id];
    if |order| > MaxEntries {
      assert order[0] != id by {
        assert |order| >= 2;
        assert order[0] in kept.order;
        if id in c.entries {
          assert id !in kept.order;
        } else {
          assert id !in c.order;
        }
      }
    }
  }

  /** A load into a full cache evicts the key inserted earliest, even when
      that entry was served more recently than any other: the eviction is
      first in, first out, not least recently used. */
  lemma EvictsEarliestInserted(c: Cache, id: string, now: int, s: Store)
    requires WellFormed(c) && |c.order| == MaxEntries && id !in c.entries
    ensures var c' := GetVectorStore(c, id, now, Some(s)).1;
            c'.order == c.order[1..] + [id] && c.order[0] !in c'.entries
  {
    var order := c.order + [id];
    assert order[1..] == c.order[1..] + [id];
  }

  /** Serving the oldest entry and then loading a new document into the
      full cache still evicts the entry just served. */
  lemma ServedEntryStillEvicted(c: Cache, old_id: string, id: string, now: int, s: Store)
    requires WellFormed(c) && |c.order| == MaxEntries && id !in c.entries
    requires old_id == c.order[0] && Live(c, old_id, now)
    ensures var c1 := GetVectorStore(c, old_id, now, None).1;
            var c2 := GetVectorStore(c1, id, now, Some(s)).1;
            old_id !in c2.entries
  {
    var c1 := GetVectorStore(c, old_id, now, None).1;
    GetKeepsWellFormed(c, old_id, now, None);
    EvictsEarliestInserted(c1, id, now, s);
  }

  /** The cache object the service module holds. */
  class VectorStoreCacheMap {
    var order: seq<string>
    var entries: map<string, Entry>

    /** The cache's contents as a value. */
    function Contents(): Cache
      reads this
    {
      Cache(order, entries)
    }

    constructor ()
      ensures Contents() == Empty
    {
      order := [];
      entries := map[];
    }

    /** `getVectorStore(fileId)`: checks the cache, then the disk. */
    method Get(id: string, now: int, onDisk: Option<Store>) returns (r: Option<Store>)
      requires WellFormed(Contents())
      modifies this
      ensures (r, Contents()) == GetVectorStore(old(Contents()), id, now, onDisk)
      ensures WellFormed(Contents())
    {
      GetKeepsWellFormed(Contents(), id, now, onDisk);
      if id in entries {
        var cached := entries[id];
        if now - cached.timestamp < CacheTtl {
          entries := entries[id := Entry(cached.instance, now)];
          return Some(cached.instance);
        }
        order := Without(order, id);
        entries := entries - {id};
      }
      if onDisk.Some? {
        order := order + [id];
        entries := entries[id := Entry(onDisk.value, now)];
        if |order| > MaxEntries {
          var oldest := order[0];
          order := order[1..];
          entries := entries - {oldest};
        }
        return onDisk;
      }
      return None;
    }
  }
}
