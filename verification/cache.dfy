/**
 * The in-memory part of the commit-message cache: entries keyed by
 * `fingerprint:style`, a 30-day time-to-live, a cap of 500 entries enforced
 * by keeping the newest, and hit/miss counters. Entries form an
 * insertion-ordered list of (key, entry) pairs with distinct keys, the
 * order of the JSON object they are stored in.
 */
module Cache {
  import opened Wrappers
  import opened DiffHash

  const MaxEntries: nat := 500
  const TtlDays: nat := 30
  const TtlSeconds: nat := TtlDays * 24 * 60 * 60

  /** A stored message; `timestamp` may be missing from an entry read back from disk. */
  datatype Entry = Entry(message: string, timestamp: Option<int>, style: string)

  type Entries = seq<(string, Entry)>

  /** `v.get("timestamp", 0)` */
  function Stamp(e: Entry): int
  {
    if e.timestamp.Some? then e.timestamp.value else 0
  }

  predicate Fresh(e: Entry, now: int)
  {
    now - Stamp(e) < TtlSeconds
  }

  /** `f"{diff_hash}:{style}"` */
  function Key(hash: string, style: string): string
  {
    hash + ":" + style
  }

  predicate KeysDistinct(entries: Entries)
  {
    forall i, j :: 0 <= i < j < |entries| ==> entries[i].0 != entries[j].0
  }

  /** `entries.get(key)` */
  function Find(entries: Entries, key: string): (r: Option<Entry>)
    ensures r.Some? <==> exists i :: 0 <= i < |entries| && entries[i].0 == key
    ensures r.Some? ==> (key, r.value) in entries
  {
    if entries == [] then None
    else if entries[0].0 == key then Some(entries[0].1)
    else Find(entries[1..], key)
  }

  /** `entries[key] = value`: overwrite in place, or append a new key at the end. */
  function Put(entries: Entries, key: string, value: Entry): (r: Entries)
    ensures (exists i :: 0 <= i < |entries| && entries[i].0 == key) ==> |r| == |entries|
    ensures (forall i :: 0 <= i < |entries| ==> entries[i].0 != key) ==> r == entries + [(key, value)]
  {
    if entries == [] then [(key, value)]
    else if entries[0].0 == key then [(key, value)] + entries[1..]
    else [entries[0]] + Put(entries[1..], key, value)
  }

  // ---------------------------------------------------------------------
  // `_cleanup_old_entries`

  /** The dict comprehension keeping unexpired entries, in order. */
  function Unexpired(entries: Entries, now: int): (r: Entries)
    ensures |r| <= |entries|
    ensures forall p :: p in r <==> p in entries && Fresh(p.1, now)
  {
    if entries == [] then []
    else
      var last := entries[|entries| - 1];
      Unexpired(entries[..|entries| - 1], now) + (if Fresh(last.1, now) then [last] else [])
  }

  /**
   * `sorted(..., key=timestamp, reverse=True)`: newest first, and entries with
   * equal timestamps in their original order.
   */
  function SortNewestFirst(entries: Entries): (r: Entries)
    ensures |r| == |entries|
    ensures multiset(r) == multiset(entries)
  {
    if entries == [] then []
    else
      assert entries == [entries[0]] + entries[1..];
      InsertNewest(entries[0], SortNewestFirst(entries[1..]))
  }

  /** Places `p` before the first entry that is not newer. */
  function InsertNewest(p: (string, Entry), sorted: Entries): (r: Entries)
    ensures |r| == |sorted| + 1
    ensures multiset(r) == multiset(sorted) + multiset{p}
  {
    if sorted == [] || Stamp(sorted[0].1) <= Stamp(p.1) then [p] + sorted
    else
      assert sorted == [sorted[0]] + sorted[1..];
      [sorted[0]] + InsertNewest(p, sorted[1..])
  }

  predicate NewestFirst(entries: Entries)
  {
    forall i, j :: 0 <= i < j < |entries| ==> Stamp(entries[i].1) >= Stamp(entries[j].1)
  }

  /** The entries `_cleanup_old_entries` keeps. */
  function Cleanup(entries: Entries, now: int): Entries
  {
    var valid := Unexpired(entries, now);
    if |valid| > MaxEntries then SortNewestFirst(valid)[..MaxEntries] else valid
  }

  lemma {:induction false} InsertNewestSorted(p: (string, Entry), sorted: Entries)
    requires NewestFirst(sorted)
    ensures NewestFirst(InsertNewest(p, sorted))
  {
    if sorted != [] && Stamp(sorted[0].1) > Stamp(p.1) {
      InsertNewestSorted(p, sorted[1..]);
      var tail := InsertNewest(p, sorted[1..]);
      forall k | 0 <= k < |tail| ensures Stamp(sorted[0].1) >= Stamp(tail[k].1) {
        assert tail[k] in multiset(tail);
        assert tail[k] == p || tail[k] in multiset(sorted[1..]);
      }
      assert InsertNewest(p, sorted) == [sorted[0]] + tail;
    } else {
      var r := [p] + sorted;
      forall i, j | 0 <= i < j < |r| ensures Stamp(r[i].1) >= Stamp(r[j].1) {
        if i == 0 && j > 1 {
          assert Stamp(sorted[0].1) >= Stamp(sorted[j - 1].1);
        }
      }
    }
  }

  lemma {:induction false} SortNewestFirstSorted(entries: Entries)
    ensures NewestFirst(SortNewestFirst(entries))
  {
    if entries != [] {
      SortNewestFirstSorted(entries[1..]);
      InsertNewestSorted(entries[0], SortNewestFirst(entries[1..]));
    }
  }

  /** Every entry of a permutation of `entries` is an entry of `entries`. */
  lemma SameEntries(r: Entries, entries: Entries)
    requires multiset(r) == multiset(entries)
    ensures forall p :: p in r <==> p in entries
  {
    forall p ensures p in r <==> p in entries {
      assert p in r <==> p in multiset(r);
      assert p in entries <==> p in multiset(entries);
    }
  }

  /** After cleanup there are at most 500 entries, each unexpired and taken from the input. */
  lemma CleanupBounded(entries: Entries, now: int)
    ensures |Cleanup(entries, now)| <= MaxEntries
    ensures forall p :: p in Cleanup(entries, now) ==> p in entries && Fresh(p.1, now)
  {
    var valid := Unexpired(entries, now);
    if |valid| > MaxEntries {
      var sorted := SortNewestFirst(valid);
      SameEntries(sorted, valid);
      forall p | p in sorted[..MaxEntries] ensures p in sorted {
      }
    }
  }

  /** When at most 500 entries are unexpired, all of them are kept, in order. */
  lemma CleanupKeepsAllWhenFew(entries: Entries, now: int)
    requires |Unexpired(entries, now)| <= MaxEntries
    ensures Cleanup(entries, now) == Unexpired(entries, now)
    ensures forall p :: p in entries && Fresh(p.1, now) ==> p in Cleanup(entries, now)
  {
  }

  /** When the cap bites, no unexpired entry that was dropped is newer than one that was kept. */
  lemma CleanupDropsOldest(entries: Entries, now: int, kept: (string, Entry), dropped: (string, Entry))
    requires kept in Cleanup(entries, now)
    requires dropped in entries && Fresh(dropped.1, now) && dropped !in Cleanup(entries, now)
    ensures Stamp(dropped.1) <= Stamp(kept.1)
  {
    var valid := Unexpired(entries, now);
    if |valid| > MaxEntries {
      var sorted := SortNewestFirst(valid);
      SameEntries(sorted, valid);
      SortNewestFirstSorted(valid);
      forall k | 0 <= k < MaxEntries ensures sorted[k] != dropped {
        assert sorted[..MaxEntries][k] == sorted[k];
      }
      var j :| 0 <= j < |sorted| && sorted[j] == dropped;
      var i :| 0 <= i < MaxEntries && sorted[i] == kept;
    }
  }

  // ---------------------------------------------------------------------
  // Distinct keys

  lemma {:induction false} UnexpiredDistinct(entries: Entries, now: int)
    requires KeysDistinct(entries)
    ensures KeysDistinct(Unexpired(entries, now))
  {
    if entries != [] {
      var init, last := entries[..|entries| - 1], entries[|entries| - 1];
      UnexpiredDistinct(init, now);
      var r := Unexpired(init, now);
      forall k | 0 <= k < |r| ensures r[k].0 != last.0 {
        var i :| 0 <= i < |init| && init[i] == r[k];
      }
    }
  }

  lemma {:induction false} InsertNewestDistinct(p: (string, Entry), sorted: Entries)
    requires KeysDistinct(sorted)
    requires forall k :: 0 <= k < |sorted| ==> sorted[k].0 != p.0
    ensures KeysDistinct(InsertNewest(p, sorted))
  {
    if sorted != [] && Stamp(sorted[0].1) > Stamp(p.1) {
      InsertNewestDistinct(p, sorted[1..]);
      var tail := InsertNewest(p, sorted[1..]);
      forall k | 0 <= k < |tail| ensures tail[k].0 != sorted[0].0 {
        assert tail[k] in multiset(tail);
        if tail[k] != p {
          assert tail[k] in multiset(sorted[1..]);
          var i :| 0 <= i < |sorted[1..]| && sorted[1..][i] == tail[k];
          assert sorted[i + 1] == tail[k];
        }
      }
      var r := InsertNewest(p, sorted);
      assert r == [sorted[0]] + tail;
      forall i, j | 0 <= i < j < |r| ensures r[i].0 != r[j].0 {
        if i > 0 {
          assert r[i] == tail[i - 1] && r[j] == tail[j - 1];
        } else {
          assert r[j] == tail[j - 1];
        }
      }
    }
  }

  lemma {:induction false} SortNewestFirstDistinct(entries: Entries)
    requires KeysDistinct(entries)
    ensures KeysDistinct(SortNewestFirst(entries))
  {
    if entries != [] {
      var rest := entries[1..];
      SortNewestFirstDistinct(rest);
      var sorted := SortNewestFirst(rest);
      SameEntries(sorted, rest);
      forall k | 0 <= k < |sorted| ensures sorted[k].0 != entries[0].0 {
        assert sorted[k] in sorted;
        var i :| 0 <= i < |rest| && rest[i] == sorted[k];
        assert entries[i + 1] == rest[i];
      }
      InsertNewestDistinct(entries[0], sorted);
    }
  }

  /** Cleanup keeps the keys distinct. */
  lemma CleanupDistinct(entries: Entries, now: int)
    requires KeysDistinct(entries)
    ensures KeysDistinct(Cleanup(entries, now))
  {
    var valid := Unexpired(entries, now);
    UnexpiredDistinct(entries, now);
    if |valid| > MaxEntries {
      SortNewestFirstDistinct(valid);
      var kept := SortNewestFirst(valid)[..MaxEntries];
      forall i, j | 0 <= i < j < |kept| ensures kept[i].0 != kept[j].0 {
        assert kept[i] == SortNewestFirst(valid)[i] && kept[j] == SortNewestFirst(valid)[j];
      }
    }
  }

  /** Storing keeps keys distinct, and the stored entry is what the key now finds. */
  lemma PutFind(entries: Entries, key: string, value: Entry)
    requires KeysDistinct(entries)
    ensures KeysDistinct(Put(entries, key, value))
    ensures Find(Put(entries, key, value), key) == Some(value)
    ensures forall other :: other != key ==> Find(Put(entries, key, value), other) == Find(entries, other)
  {
    PutDistinct(entries, key, value);
    PutFindKey(entries, key, value);
    forall other | other != key ensures Find(Put(entries, key, value), other) == Find(entries, other) {
      PutFindOther(entries, key, value, other);
    }
  }

  lemma {:induction false} PutFindKey(entries: Entries, key: string, value: Entry)
    ensures Find(Put(entries, key, value), key) == Some(value)
  {
    if entries != [] && entries[0].0 != key {
      PutFindKey(entries[1..], key, value);
      assert Put(entries, key, value)[1..] == Put(entries[1..], key, value);
    }
  }

  lemma {:induction false} PutFindOther(entries: Entries, key: string, value: Entry, other: string)
    requires other != key
    ensures Find(Put(entries, key, value), other) == Find(entries, other)
  {
    if entries != [] {
      var r := Put(entries, key, value);
      if entries[0].0 == key {
        assert r[1..] == entries[1..];
      } else {
        PutFindOther(entries[1..], key, value, other);
        assert r[1..] == Put(entries[1..], key, value);
      }
    }
  }

  lemma {:induction false} PutDistinct(entries: Entries, key: string, value: Entry)
    requires KeysDistinct(entries)
    ensures KeysDistinct(Put(entries, key, value))
  {
    if entries != [] && entries[0].0 != key {
      PutDistinct(entries[1..], key, value);
      var r := Put(entries, key, value);
      var tail := Put(entries[1..], key, value);
      assert r == [entries[0]] + tail;
      forall k | 0 <= k < |tail| ensures tail[k].0 != entries[0].0 {
        PutKeys(entries[1..], key, value, k);
      }
      forall i, j | 0 <= i < j < |r| ensures r[i].0 != r[j].0 {
        assert r[j] == tail[j - 1];
        if i > 0 {
          assert r[i] == tail[i - 1];
        }
      }
    } else if entries != [] {
      var r := Put(entries, key, value);
      forall i, j | 0 <= i < j < |r| ensures r[i].0 != r[j].0 {
        assert r[j] == entries[j];
      }
    }
  }

  /** Every key after a store was already present or is the stored key. */
  lemma {:induction false} PutKeys(entries: Entries, key: string, value: Entry, k: nat)
    requires k < |Put(entries, key, value)|
    ensures Put(entries, key, value)[k].0 == key
      || exists i :: 0 <= i < |entries| && entries[i].0 == Put(entries, key, value)[k].0
  {
    if entries != [] && entries[0].0 != key && k > 0 {
      PutKeys(entries[1..], key, value, k - 1);
      var r := Put(entries[1..], key, value);
      if r[k - 1].0 != key {
        var i :| 0 <= i < |entries[1..]| && entries[1..][i].0 == r[k - 1].0;
        assert entries[i + 1].0 == r[k - 1].0;
      }
    }
  }

  /** The same diff cached under two styles lives under two keys. */
  lemma KeySeparatesStyles(hash: string, a: string, b: string)
    requires a != b
    ensures Key(hash, a) != Key(hash, b)
  {
    assert Key(hash, a)[|hash| + 1..] == a;
    assert Key(hash, b)[|hash| + 1..] == b;
  }

  /** Fingerprints have a fixed length, so a key determines both the fingerprint and the style. */
  lemma KeyInjective(h1: string, s1: string, h2: string, s2: string)
    requires |h1| == |h2| && Key(h1, s1) == Key(h2, s2)
    ensures h1 == h2 && s1 == s2
  {
    assert Key(h1, s1)[..|h1|] == h1 && Key(h2, s2)[..|h2|] == h2;
    assert Key(h1, s1)[|h1| + 1..] == s1 && Key(h2, s2)[|h2| + 1..] == s2;
  }

  // ---------------------------------------------------------------------
  // The cache file's contents and the operations on them

  class CacheState {
    var entries: Entries
    var hits: nat
    var misses: nat

    predicate Valid()
      reads this
    {
      KeysDistinct(entries)
    }

    /** The contents `_load_cache` falls back to. */
    constructor()
      ensures entries == [] && hits == 0 && misses == 0
      ensures Valid()
    {
      entries, hits, misses := [], 0, 0;
    }

    /** `_cleanup_old_entries`: replaces the entries and leaves the counters alone. */
    method CleanupOldEntries(now: int)
      requires Valid()
      modifies this
      ensures Valid()
      ensures entries == Cleanup(old(entries), now)
      ensures hits == old(hits) && misses == old(misses)
    {
      CleanupDistinct(entries, now);
      var valid := Unexpired(entries, now);
      if |valid| > MaxEntries {
        valid := SortNewestFirst(valid)[..MaxEntries];
      }
      entries := valid;
    }

    /** `get_cached_message`: a hit counts a hit, a miss counts a miss; the entries stay as they are. */
    method GetCachedMessage(diff: string, style: string, sha: string -> string) returns (message: Option<string>)
      modifies this
      ensures entries == old(entries)
      ensures var found := Find(old(entries), Key(Fingerprint(diff, sha), style));
        if found.Some? then
          message == Some(found.value.message) && hits == old(hits) + 1 && misses == old(misses)
        else
          message == None && misses == old(misses) + 1 && hits == old(hits)
    {
      var diffHash := ComputeDiffHash(diff, sha);
      var cacheKey := diffHash + ":" + style;
      var entry := Find(entries, cacheKey);
      if entry.Some? {
        hits := hits + 1;
        return Some(entry.value.message);
      }
      misses := misses + 1;
      return None;
    }

    /** `cache_message`: clean up, then set the one key for this diff and style. */
    method CacheMessage(diff: string, style: string, message: string, now: int, sha: string -> string)
      requires Valid()
      modifies this
      ensures Valid()
      ensures entries == Put(Cleanup(old(entries), now), Key(Fingerprint(diff, sha), style), Entry(message, Some(now), style))
      ensures hits == old(hits) && misses == old(misses)
    {
      CleanupOldEntries(now);
      var diffHash := ComputeDiffHash(diff, sha);
      var cacheKey := diffHash + ":" + style;
      PutFind(entries, cacheKey, Entry(message, Some(now), style));
      entries := Put(entries, cacheKey, Entry(message, Some(now), style));
    }
  }

  /** Right after a store there are at most 501 entries, and the stored message is found again. */
  lemma StoreThenFind(entries: Entries, now: int, key: string, value: Entry)
    requires KeysDistinct(entries)
    ensures |Put(Cleanup(entries, now), key, value)| <= MaxEntries + 1
    ensures Find(Put(Cleanup(entries, now), key, value), key) == Some(value)
  {
    CleanupBounded(entries, now);
    CleanupDistinct(entries, now);
    PutFind(Cleanup(entries, now), key, value);
  }
}
