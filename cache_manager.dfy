/** src/services/cacheManager.js: the daily sweep of the address cache. */
module CacheManager {
  import opened Common
  import opened Config
  import opened SqliteCache

  /** Rows a sweep at `now` keeps: `DELETE ... WHERE timestamp < now - ONE_DAY`
      removes the others. */
  predicate Kept(e: Entry, now: int)
  {
    e.timestamp >= now - ONE_DAY_MS
  }

  /** The table after the sweep. */
  function Swept(entries: map<string, Entry>, now: int): map<string, Entry>
  {
    map a | a in entries && Kept(entries[a], now) :: entries[a]
  }

  /** `cleanup()`: one bulk DELETE; a failing store leaves the table as it was. */
  method Cleanup(c: Cache, now: int, storeUp: bool)
    modifies c
    ensures c.entries == if storeUp then Swept(old(c.entries), now) else old(c.entries)
  {
    if storeUp {
      c.entries := map a | a in c.entries && c.entries[a].timestamp >= now - ONE_DAY_MS :: c.entries[a];
    }
  }

  /** The sweep deletes exactly the rows written more than a day before
      `now` (strictly: a row exactly one day old stays), and keeps the
      others unchanged. */
  lemma SweptExactly(entries: map<string, Entry>, now: int)
    ensures forall a :: a in Swept(entries, now) <==> a in entries && entries[a].timestamp >= now - ONE_DAY_MS
    ensures forall a :: a in Swept(entries, now) ==> Swept(entries, now)[a] == entries[a]
  {
  }

  /** After a sweep no row is older than one day. */
  lemma SweptFresh(entries: map<string, Entry>, now: int)
    ensures forall a :: a in Swept(entries, now) ==> now - Swept(entries, now)[a].timestamp <= ONE_DAY_MS
  {
  }

  /** Sweeping twice at the same time is sweeping once. */
  lemma SweptIdempotent(entries: map<string, Entry>, now: int)
    ensures Swept(Swept(entries, now), now) == Swept(entries, now)
  {
  }

  /** A row the read path still serves is never swept: the read TTL is
      shorter than the sweep horizon. */
  lemma SweepKeepsFresh(entries: map<string, Entry>, a: string, now: int)
    requires Lookup(entries, a, now).Some?
    ensures Lookup(Swept(entries, now), a, now) == Lookup(entries, a, now)
  {
  }
}
