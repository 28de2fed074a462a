/** src/utils/cache/sqliteCache.js: the `address_cache` table as a map from
    address to (record, timestamp). SQLite is not modelled: a statement
    either runs on the map or fails (`storeUp` false), and every failure is
    absorbed. `now` is the `Date.now()` the call reads, in milliseconds. */
module SqliteCache {
  import opened Common
  import opened Config

  /** The record `checkBalance` builds and the cache stores. Storing goes
      through JSON.stringify/JSON.parse, which gives back the same record. */
  datatype BalanceRecord = BalanceRecord(
    address: string, balance: int, totalReceived: int, totalSent: int, transactions: int)

  /** A row: the stored record and the time it was written. */
  datatype Entry = Entry(data: BalanceRecord, timestamp: int)

  /** An entry is stale when `now - timestamp > 3600000`; an age of exactly
      one hour still counts as fresh. */
  predicate Stale(e: Entry, now: int)
  {
    now - e.timestamp > CACHE_TTL_MS
  }

  /** What `get(address)` returns on a working store. */
  function Lookup(entries: map<string, Entry>, address: string, now: int): (r: Option<BalanceRecord>)
    ensures r.Some? <==> address in entries && !Stale(entries[address], now)
    ensures r.Some? ==> r.value == entries[address].data
  {
    if address in entries && !Stale(entries[address], now) then Some(entries[address].data) else None
  }

  /** The table after `get(address)` on a working store: a stale row for
      that address is deleted, nothing else changes. */
  function AfterGet(entries: map<string, Entry>, address: string, now: int): (r: map<string, Entry>)
    ensures forall a :: a != address ==> (a in r <==> a in entries)
    ensures forall a :: a in r ==> a in entries && r[a] == entries[a]
    ensures address in r <==> Lookup(entries, address, now).Some?
  {
    if address in entries && Stale(entries[address], now) then entries - {address} else entries
  }

  class Cache {
    var entries: map<string, Entry>

    /** `CREATE TABLE IF NOT EXISTS`: the rows already on disk are kept. */
    constructor(existing: map<string, Entry>)
      ensures entries == existing
    {
      entries := existing;
    }

    /** `get(address)`: a missing or stale row reads as null, and a stale
        row is deleted; a failing store reads as null and changes nothing. */
    method Get(address: string, now: int, storeUp: bool) returns (r: Option<BalanceRecord>)
      modifies this
      ensures storeUp ==> r == Lookup(old(entries), address, now)
      ensures storeUp ==> entries == AfterGet(old(entries), address, now)
      ensures !storeUp ==> r == None && entries == old(entries)
    {
      if !storeUp {
        return None;
      }
      if address !in entries {
        return None;
      }
      var row := entries[address];
      if now - row.timestamp > CACHE_TTL_MS {
        Delete(address, storeUp);
        return None;
      }
      return Some(row.data);
    }

    /** `set(address, data)`: INSERT OR REPLACE with the current time. */
    method Set(address: string, data: BalanceRecord, now: int, storeUp: bool)
      modifies this
      ensures entries == if storeUp then old(entries)[address := Entry(data, now)] else old(entries)
    {
      if storeUp {
        entries := entries[address := Entry(data, now)];
      }
    }

    /** `delete(address)` */
    method Delete(address: string, storeUp: bool)
      modifies this
      ensures entries == if storeUp then old(entries) - {address} else old(entries)
    {
      if storeUp {
        entries := entries - {address};
      }
    }

    /** `clear()` */
    method Clear(storeUp: bool)
      modifies this
      ensures entries == if storeUp then map[] else old(entries)
    {
      if storeUp {
        entries := map[];
      }
    }
  }

  /** A record written at t reads back unchanged at any t' with
      t' - t <= 3600000, and a read past that misses. */
  lemma SetThenGet(entries: map<string, Entry>, a: string, d: BalanceRecord, t: int, t': int)
    ensures Lookup(entries[a := Entry(d, t)], a, t') == if t' - t <= CACHE_TTL_MS then Some(d) else None
  {
  }

  /** Writing one address leaves every other address as it was. */
  lemma SetKeepsOthers(entries: map<string, Entry>, a: string, e: Entry, b: string, now: int)
    requires a != b
    ensures Lookup(entries[a := e], b, now) == Lookup(entries, b, now)
  {
  }

  /** Reading is stable: a second read at the same time returns the same
      value and leaves the table as the first read did. */
  lemma GetIdempotent(entries: map<string, Entry>, a: string, now: int)
    ensures Lookup(AfterGet(entries, a, now), a, now) == Lookup(entries, a, now)
    ensures AfterGet(AfterGet(entries, a, now), a, now) == AfterGet(entries, a, now)
  {
  }

  /** The concrete sequence set, then get, on a real Cache object. */
  method SetThenGetOnCache(c: Cache, a: string, d: BalanceRecord, t: int, t': int) returns (r: Option<BalanceRecord>)
    requires t' - t <= CACHE_TTL_MS
    modifies c
    ensures r == Some(d)
    ensures c.entries == old(c.entries)[a := Entry(d, t)]
  {
    c.Set(a, d, t, true);
    SetThenGet(old(c.entries), a, d, t, t');
    r := c.Get(a, t', true);
  }
}
