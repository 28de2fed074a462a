/** src/ai/patternLearner.js: the bounded `patterns` Map and the byte
    histogram of an address. The Map is its entries plus the insertion
    order of its keys, which is what `[...this.patterns.entries()]` lists.
    `now` is the `Date.now()` the call reads; the pattern itself is opaque. */
module PatternLearner {
  import opened Common
  import opened Config
  import opened Histogram

  /** `{ pattern, timestamp }` */
  datatype StoredPattern<P> = StoredPattern(pattern: P, timestamp: int)

  /** The Map as a value: entries and key insertion order. */
  datatype Store<P> = Store(patterns: map<string, StoredPattern<P>>, order: seq<string>)

  /** The order lists every key once, and nothing else. */
  ghost predicate WellOrdered<P>(s: Store<P>)
  {
    Distinct(s.order) && forall k :: k in s.patterns <==> k in s.order
  }

  /** A Map holds as many entries as its order lists. */
  lemma StoreSize<P>(s: Store<P>)
    requires WellOrdered(s)
    ensures |s.patterns| == |s.order|
  {
    DistinctCard(s.order);
    assert s.patterns.Keys == set k | k in s.order;
  }

  /** The position of the entry that `sort((a, b) => a.timestamp - b.timestamp)[0]`
      picks: a minimal timestamp, and the earliest inserted among equal
      timestamps, because the sort is stable. */
  function Oldest<P>(order: seq<string>, ps: map<string, StoredPattern<P>>): (r: nat)
    requires |order| > 0 && forall i :: 0 <= i < |order| ==> order[i] in ps
    ensures r < |order|
  {
    var n := |order| - 1;
    if n == 0 then 0
    else
      var r := Oldest(order[..n], ps);
      if ps[order[n]].timestamp < ps[order[r]].timestamp then n else r
  }

  /** Oldest picks a minimal timestamp, the earliest among equals. */
  lemma {:induction false} OldestFirstMinimal<P>(order: seq<string>, ps: map<string, StoredPattern<P>>)
    requires |order| > 0 && forall i :: 0 <= i < |order| ==> order[i] in ps
    ensures var r := Oldest(order, ps);
      && (forall j :: 0 <= j < |order| ==> ps[order[r]].timestamp <= ps[order[j]].timestamp)
      && (forall j :: 0 <= j < r ==> ps[order[j]].timestamp > ps[order[r]].timestamp)
  {
    var n := |order| - 1;
    if n > 0 {
      OldestFirstMinimal(order[..n], ps);
    }
  }

  /** `this.patterns.set(address, { pattern, timestamp: now })`: an existing
      key keeps its place, a new key goes last. */
  function Put<P>(s: Store<P>, address: string, p: P, now: int): Store<P>
  {
    Store(s.patterns[address := StoredPattern(p, now)],
          if address in s.patterns then s.order else s.order + [address])
  }

  /** Setting a key keeps the order in step with the entries. */
  lemma PutKeepsOrder<P>(s: Store<P>, address: string, p: P, now: int)
    requires WellOrdered(s)
    ensures WellOrdered(Put(s, address, p, now))
  {
    if address !in s.patterns {
      var o := s.order + [address];
      forall a, b | 0 <= a < b < |o| ensures o[a] != o[b] {
        if b == |s.order| {
          assert o[a] == s.order[a];
        }
      }
    }
  }

  /** `storePattern(address, pattern)` with the cap written out: set, then
      delete the oldest entry when the Map has grown past the cap. */
  function AfterStore<P>(s: Store<P>, address: string, p: P, now: int, cap: nat): Store<P>
    requires WellOrdered(s)
  {
    var t := Put(s, address, p, now);
    PutKeepsOrder(s, address, p, now);
    StoreSize(t);
    if |t.patterns| > cap then EvictOldest(t) else t
  }

  /** `this.patterns.delete(oldest[0])` */
  function EvictOldest<P>(t: Store<P>): (r: Store<P>)
    requires |t.order| > 0 && forall i :: 0 <= i < |t.order| ==> t.order[i] in t.patterns
    ensures |r.patterns| == |t.patterns| - 1
  {
    var i := Oldest(t.order, t.patterns);
    RemoveCard(t.patterns, t.order[i]);
    Store(t.patterns - {t.order[i]}, t.order[..i] + t.order[i + 1..])
  }

  /** AfterStore is Put, then EvictOldest when the entries exceed the cap. */
  lemma AfterStoreCases<P>(s: Store<P>, address: string, p: P, now: int, cap: nat)
    requires WellOrdered(s)
    ensures var t := Put(s, address, p, now);
      && WellOrdered(t)
      && |t.patterns| == |t.order|
      && (|t.patterns| > cap ==> |t.order| > 0 && AfterStore(s, address, p, now, cap) == EvictOldest(t))
      && (|t.patterns| <= cap ==> AfterStore(s, address, p, now, cap) == t)
  {
    PutKeepsOrder(s, address, p, now);
    StoreSize(Put(s, address, p, now));
  }


  /** The entry Oldest picks has the minimal timestamp of the whole Map. */
  lemma OldestIsMinimal<P>(t: Store<P>)
    requires WellOrdered(t) && |t.order| > 0
    ensures var i := Oldest(t.order, t.patterns);
      && (forall k :: k in t.patterns ==> t.patterns[t.order[i]].timestamp <= t.patterns[k].timestamp)
      && (forall j :: 0 <= j < i ==> t.patterns[t.order[j]].timestamp > t.patterns[t.order[i]].timestamp)
  {
    var i := Oldest(t.order, t.patterns);
    OldestFirstMinimal(t.order, t.patterns);
    forall k | k in t.patterns ensures t.patterns[t.order[i]].timestamp <= t.patterns[k].timestamp {
      var j :| 0 <= j < |t.order| && t.order[j] == k;
    }
  }


  /** Deleting a present key removes exactly one entry. */
  lemma RemoveCard<K, V>(m: map<K, V>, k: K)
    requires k in m
    ensures |m - {k}| == |m| - 1
  {
    assert (m - {k}).Keys == m.Keys - {k};
  }

  /** Removing one listed key keeps the order in step with the entries. */
  lemma RemoveAt<P>(t: Store<P>, i: nat)
    requires WellOrdered(t) && i < |t.order|
    ensures WellOrdered(Store(t.patterns - {t.order[i]}, t.order[..i] + t.order[i + 1..]))
  {
    var o := t.order[..i] + t.order[i + 1..];
    forall a, b | 0 <= a < b < |o| ensures o[a] != o[b] {
      var a' := if a < i then a else a + 1;
      var b' := if b < i then b else b + 1;
      assert o[a] == t.order[a'] && o[b] == t.order[b'];
    }
  }

  /** The store stays well ordered. */
  lemma StoreKeepsOrder<P>(s: Store<P>, address: string, p: P, now: int, cap: nat)
    requires WellOrdered(s)
    ensures WellOrdered(AfterStore(s, address, p, now, cap))
  {
    AfterStoreCases(s, address, p, now, cap);
    var t := Put(s, address, p, now);
    if |t.patterns| > cap {
      EvictKeepsOrder(t);
    }
  }


  lemma EvictKeepsOrder<P>(t: Store<P>)
    requires WellOrdered(t) && |t.order| > 0
    ensures WellOrdered(EvictOldest(t))
  {
    RemoveAt(t, Oldest(t.order, t.patterns));
  }

  /** A store within the cap stays within it. */
  lemma StoreBounded<P>(s: Store<P>, address: string, p: P, now: int, cap: nat)
    requires WellOrdered(s) && |s.patterns| <= cap
    ensures |AfterStore(s, address, p, now, cap).patterns| <= cap
  {
    var t := Put(s, address, p, now);
    assert |t.patterns| <= |s.patterns| + 1 by {
      assert t.patterns.Keys == s.patterns.Keys + {address};
    }
    AfterStoreCases(s, address, p, now, cap);
  }


  /** When the Map grows past the cap exactly one entry goes: one with a
      minimal timestamp, and the earliest inserted among those. */
  lemma EvictsOldest<P>(s: Store<P>, address: string, p: P, now: int, cap: nat)
    requires WellOrdered(s)
    requires |Put(s, address, p, now).patterns| > cap
    ensures EvictedOldest(Put(s, address, p, now), AfterStore(s, address, p, now, cap))
  {
    AfterStoreCases(s, address, p, now, cap);
    EvictShape(Put(s, address, p, now));
  }


  /** r is t less one entry, which has a minimal timestamp and is the
      earliest inserted among those. */
  ghost predicate EvictedOldest<P>(t: Store<P>, r: Store<P>)
  {
    exists i :: 0 <= i < |t.order| && (
      && t.order[i] in t.patterns
      && r.patterns == t.patterns - {t.order[i]}
      && |r.patterns| == |t.patterns| - 1
      && (forall k :: k in t.patterns ==> t.patterns[t.order[i]].timestamp <= t.patterns[k].timestamp)
      && (forall j :: 0 <= j < i ==> t.order[j] in t.patterns && t.patterns[t.order[j]].timestamp > t.patterns[t.order[i]].timestamp))
  }

  /** The eviction of the oldest entry, stated without reference to Oldest. */
  lemma EvictShape<P>(t: Store<P>)
    requires WellOrdered(t) && |t.order| > 0
    ensures EvictedOldest(t, EvictOldest(t))
  {
    var i := Oldest(t.order, t.patterns);
    var r := EvictOldest(t);
    OldestIsMinimal(t);
    assert 0 <= i < |t.order| && r.patterns == t.patterns - {t.order[i]};
  }

  /** Re-storing an address replaces its entry and leaves the size and
      the order alone. */
  lemma RestoreKeepsSize<P>(s: Store<P>, address: string, p: P, now: int, cap: nat)
    requires WellOrdered(s) && |s.patterns| <= cap && address in s.patterns
    ensures var r := AfterStore(s, address, p, now, cap);
      && |r.patterns| == |s.patterns|
      && r.order == s.order
      && r.patterns[address] == StoredPattern(p, now)
  {
    var t := Put(s, address, p, now);
    PutKeepsOrder(s, address, p, now);
    assert t.patterns.Keys == s.patterns.Keys;
  }

  /** With a positive cap and a clock that does not run backwards, the
      pattern just stored is always kept. */
  lemma StoredIsKept<P>(s: Store<P>, address: string, p: P, now: int, cap: nat)
    requires WellOrdered(s) && |s.patterns| <= cap && cap >= 1
    requires forall k :: k in s.patterns ==> s.patterns[k].timestamp <= now
    ensures var r := AfterStore(s, address, p, now, cap);
      address in r.patterns && r.patterns[address] == StoredPattern(p, now)
  {
    var t := Put(s, address, p, now);
    PutKeepsOrder(s, address, p, now);
    StoreSize(s);
    StoreSize(t);
    if |t.patterns| > cap {
      assert |t.patterns| <= |s.patterns| + (if address in s.patterns then 0 else 1) by {
        assert t.patterns.Keys == s.patterns.Keys + {address};
      }
      var n := |s.order|;
      assert t.order[n] == address;
      var i := Oldest(t.order, t.patterns);
      OldestFirstMinimal(t.order, t.patterns);
      assert t.patterns[t.order[0]].timestamp <= now;
      assert i != n;
      assert t.order[i] != address;
    }
  }

  /** `ReferenceError: MAX_PATTERNS_TO_STORE is not defined`, raised by the
      size test because the constant is not imported. */
  const CAP_UNDEFINED: string := "MAX_PATTERNS_TO_STORE is not defined"

  class PatternStore<P> {
    var patterns: map<string, StoredPattern<P>>
    var order: seq<string>

    ghost predicate Valid()
      reads this
    {
      WellOrdered(Store(patterns, order))
    }

    /** `this.patterns = new Map()` */
    constructor()
      ensures Valid() && patterns == map[] && order == []
    {
      patterns := map[];
      order := [];
    }

    /** `storePattern` with the cap `MAX_PATTERNS_TO_STORE` passed in. */
    method StorePattern(address: string, pattern: P, now: int, cap: nat)
      requires Valid()
      modifies this
      ensures Valid()
      ensures Store(patterns, order) == AfterStore(Store(old(patterns), old(order)), address, pattern, now, cap)
    {
      ghost var s := Store(patterns, order);
      var isNew := address !in patterns;
      patterns := patterns[address := StoredPattern(pattern, now)];
      if isNew {
        order := order + [address];
      }
      assert Store(patterns, order) == Put(s, address, pattern, now);
      PutKeepsOrder(s, address, pattern, now);
      StoreSize(Store(patterns, order));
      if |patterns| > cap {
        var rest := EvictOldest(Store(patterns, order));
        patterns, order := rest.patterns, rest.order;
      }
      StoreKeepsOrder(s, address, pattern, now, cap);
    }

    /** `storePattern` as shipped: the entry is set, then the size test
        throws before anything is deleted. */
    method ShippedStorePattern(address: string, pattern: P, now: int) returns (r: Result<()>)
      requires Valid()
      modifies this
      ensures Valid()
      ensures Store(patterns, order) == Put(Store(old(patterns), old(order)), address, pattern, now)
      ensures r == Err(CAP_UNDEFINED)
    {
      ghost var s := Store(patterns, order);
      var isNew := address !in patterns;
      patterns := patterns[address := StoredPattern(pattern, now)];
      if isNew {
        order := order + [address];
      }
      assert Store(patterns, order) == Put(s, address, pattern, now);
      PutKeepsOrder(s, address, pattern, now);
      return Err(CAP_UNDEFINED);
    }
  }

  /** As shipped nothing is ever evicted: each new address adds an entry,
      so a store at the cap goes over it (compare StoreBounded). */
  lemma ShippedStoreGrows<P>(s: Store<P>, address: string, p: P, now: int)
    requires WellOrdered(s) && address !in s.patterns
    ensures |Put(s, address, p, now).patterns| == |s.patterns| + 1
  {
    StoreSize(s);
    PutKeepsOrder(s, address, p, now);
    StoreSize(Put(s, address, p, now));
  }

  /** `extractAddressFeatures` before normalising: `new Array(256).fill(0)`
      and `distribution[byte]++` over `Buffer.from(address)`. */
  method AddressByteCounts(address: string) returns (counts: seq<int>)
    ensures |counts| == 256
    ensures forall b: Byte :: counts[b] == |set i | 0 <= i < |Utf8(address)| && Utf8(address)[i] == b|
    ensures Sum(counts) == |Utf8(address)|
  {
    counts := Distribution(Utf8(address), 256);
    forall b: Byte ensures counts[b] == |set i | 0 <= i < |Utf8(address)| && Utf8(address)[i] == b| {
      ByteBuckets(Utf8(address), b);
    }
    BucketsSum(Utf8(address), 256);
  }
}
