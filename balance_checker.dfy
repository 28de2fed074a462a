/** src/utils/balanceChecker.js: cache-first balance lookup with write-back.
    The HTTP API is a given function from an address to the parsed
    `response.data` map, or to the error the request throws. */
module BalanceChecker {
  import opened Common
  import opened SqliteCache

  /** The four fields of one address in the API's response. */
  datatype AddressInfo = AddressInfo(final_balance: int, total_received: int, total_sent: int, n_tx: int)

  /** `response.data`, keyed by address. */
  type Response = map<string, AddressInfo>

  /** The request for `?active=address`: the parsed body, or the error. */
  type Api = string -> Result<Response>

  /** Reading a field of `response.data[address]` when the key is absent. */
  const MISSING_ADDRESS: string := "Cannot read properties of undefined (reading 'final_balance')"

  /** The record built from the API's answer for `address`. */
  function FromResponse(address: string, resp: Result<Response>): (r: Result<BalanceRecord>)
    ensures resp.Err? ==> r == Err(resp.error)
    ensures resp.Ok? && address !in resp.value ==> r == Err(MISSING_ADDRESS)
    ensures resp.Ok? && address in resp.value ==>
      var info := resp.value[address];
      r == Ok(BalanceRecord(address, info.final_balance, info.total_received, info.total_sent, info.n_tx))
  {
    match resp
    case Err(e) => Err(e)
    case Ok(data) =>
      if address !in data then Err(MISSING_ADDRESS)
      else
        var info := data[address];
        Ok(BalanceRecord(address, info.final_balance, info.total_received, info.total_sent, info.n_tx))
  }

  /** What `checkBalance(address)` returns against a table: the cached
      record on a hit, the API's answer otherwise. */
  function Result1(entries: map<string, Entry>, address: string, api: Api, now: int, storeUp: bool): Result<BalanceRecord>
  {
    if storeUp && Lookup(entries, address, now).Some? then Ok(Lookup(entries, address, now).value)
    else FromResponse(address, api(address))
  }

  /** The table after the write-back of a successful miss. */
  function WriteBack(entries: map<string, Entry>, address: string, r: Result<BalanceRecord>, now: int, storeUp: bool): map<string, Entry>
  {
    if storeUp && r.Ok? then entries[address := Entry(r.value, now)] else entries
  }

  /** `Promise.all` over the results in input order: all values, or the
      first error. */
  function All(rs: seq<Result<BalanceRecord>>): (r: Result<seq<BalanceRecord>>)
    ensures r.Ok? <==> forall i :: 0 <= i < |rs| ==> rs[i].Ok?
    ensures r.Ok? ==> |r.value| == |rs| && forall i :: 0 <= i < |rs| ==> rs[i] == Ok(r.value[i])
    ensures r.Err? ==> exists i :: 0 <= i < |rs| && rs[i] == Err(r.error)
  {
    if rs == [] then Ok([])
    else match (All(rs[..|rs| - 1]), rs[|rs| - 1])
      case (Err(e), _) => Err(e)
      case (Ok(vs), Err(e)) => Err(e)
      case (Ok(vs), Ok(v)) => Ok(vs + [v])
  }

  class Checker {
    const cache: Cache

    constructor(cache: Cache)
      ensures this.cache == cache
    {
      this.cache := cache;
    }

    /** `checkBalance(address)`: a cache hit is returned without a request;
        on a miss the API's answer is mapped to a record and written back.
        `looked` says whether the request was made. */
    method CheckBalance(address: string, api: Api, now: int, storeUp: bool)
      returns (r: Result<BalanceRecord>, looked: bool)
      modifies cache
      ensures r == Result1(old(cache.entries), address, api, now, storeUp)
      ensures looked <==> !(storeUp && Lookup(old(cache.entries), address, now).Some?)
      ensures !looked ==> cache.entries == old(cache.entries)
      ensures looked ==> (cache.entries ==
        WriteBack(if storeUp then AfterGet(old(cache.entries), address, now) else old(cache.entries),
                  address, r, now, storeUp))
    {
      var cached := cache.Get(address, now, storeUp);
      if cached.Some? {
        return Ok(cached.value), false;
      }
      looked := true;
      r := FromResponse(address, api(address));
      if r.Ok? {
        cache.Set(address, r.value, now, storeUp);
      }
    }
  
    /** `checkBalancesBatch(addresses)`. Every `checkBalance` reads the cache
        before any request returns, so all reads see the table as it was
        (less the stale rows they delete); then every miss is requested and
        written back. The result is `Promise.all` of the per-address results. */
    method CheckBalancesBatch(addresses: seq<string>, api: Api, now: int, storeUp: bool)
      returns (r: Result<seq<BalanceRecord>>, lookups: seq<string>)
      modifies cache
      ensures r == All(seq(|addresses|, i requires 0 <= i < |addresses| =>
                          Result1(old(cache.entries), addresses[i], api, now, storeUp)))
      ensures lookups == Misses(old(cache.entries), addresses, now, storeUp)
      ensures cache.entries == WriteBacks(if storeUp then AfterGets(old(cache.entries), addresses, now) else old(cache.entries),
                                          old(cache.entries), addresses, api, now, storeUp)
    {
      ghost var e0 := cache.entries;
      var hits := ReadAll(addresses, now, storeUp);
      var results;
      results, lookups := RequestMisses(addresses, hits, e0, api, now, storeUp);
      assert results == seq(|addresses|, i requires 0 <= i < |addresses| =>
                          Result1(e0, addresses[i], api, now, storeUp));
      r := All(results);
    }

    /** The reads of a batch, one `cache.get` per address before any
        request returns: each sees the table as it was, less the stale rows
        already deleted. */
    method ReadAll(addresses: seq<string>, now: int, storeUp: bool) returns (hits: seq<Option<BalanceRecord>>)
      modifies cache
      ensures |hits| == |addresses|
      ensures forall j :: 0 <= j < |addresses| ==>
        hits[j] == if storeUp then Lookup(old(cache.entries), addresses[j], now) else None
      ensures cache.entries == if storeUp then AfterGets(old(cache.entries), addresses, now) else old(cache.entries)
    {
      ghost var e0 := cache.entries;
      hits := [];
      var i := 0;
      while i < |addresses|
        invariant 0 <= i <= |addresses| && |hits| == i
        invariant cache.entries == if storeUp then AfterGets(e0, addresses[..i], now) else e0
        invariant forall j :: 0 <= j < i ==> hits[j] == if storeUp then Lookup(e0, addresses[j], now) else None
      {
        if storeUp { AfterGetsLookup(e0, addresses[..i], addresses[i], now); }
        var h := cache.Get(addresses[i], now, storeUp);
        assert addresses[..i + 1][..i] == addresses[..i];
        hits := hits + [h];
        i := i + 1;
      }
      assert addresses[..i] == addresses;
    }

    /** The answers of a batch once its reads are done: each hit is
        returned as read, and each miss is requested and, on success,
        written back, in input order. */
    method RequestMisses(addresses: seq<string>, hits: seq<Option<BalanceRecord>>, ghost e0: map<string, Entry>,
                         api: Api, now: int, storeUp: bool)
      returns (results: seq<Result<BalanceRecord>>, lookups: seq<string>)
      requires |hits| == |addresses|
      requires forall j :: 0 <= j < |addresses| ==> hits[j] == if storeUp then Lookup(e0, addresses[j], now) else None
      modifies cache
      ensures |results| == |addresses|
      ensures forall j :: 0 <= j < |addresses| ==> results[j] == Result1(e0, addresses[j], api, now, storeUp)
      ensures lookups == Misses(e0, addresses, now, storeUp)
      ensures cache.entries == WriteBacks(old(cache.entries), e0, addresses, api, now, storeUp)
    {
      ghost var e1 := cache.entries;
      results := [];
      lookups := [];
      var i := 0;
      while i < |addresses|
        invariant 0 <= i <= |addresses| && |results| == i
        invariant forall j :: 0 <= j < i ==> results[j] == Result1(e0, addresses[j], api, now, storeUp)
        invariant lookups == Misses(e0, addresses[..i], now, storeUp)
        invariant cache.entries == WriteBacks(e1, e0, addresses[..i], api, now, storeUp)
      {
        var a := addresses[i];
        MissStep(e1, e0, addresses, i, api, now, storeUp);
        if hits[i].Some? {
          results := results + [Ok(hits[i].value)];
        } else {
          var res := FromResponse(a, api(a));
          lookups := lookups + [a];
          if res.Ok? {
            cache.Set(a, res.value, now, storeUp);
          }
          results := results + [res];
        }
        i := i + 1;
      }
      assert addresses[..i] == addresses;
    }
  }

  /** Whether `checkBalance(a)` requests the API, against the table at the
      start of the batch. */
  predicate Misses1(e0: map<string, Entry>, a: string, now: int, storeUp: bool)
  {
    !(storeUp && Lookup(e0, a, now).Some?)
  }

  /** One more address of a batch: requested and written back iff it misses. */
  lemma MissStep(e: map<string, Entry>, e0: map<string, Entry>, addresses: seq<string>, i: nat,
                 api: Api, now: int, storeUp: bool)
    requires i < |addresses|
    ensures var a, prev := addresses[i], addresses[..i];
      && Misses(e0, addresses[..i + 1], now, storeUp)
         == (if Misses1(e0, a, now, storeUp) then Misses(e0, prev, now, storeUp) + [a] else Misses(e0, prev, now, storeUp))
      && WriteBacks(e, e0, addresses[..i + 1], api, now, storeUp)
         == (if Misses1(e0, a, now, storeUp)
             then WriteBack(WriteBacks(e, e0, prev, api, now, storeUp), a, FromResponse(a, api(a)), now, storeUp)
             else WriteBacks(e, e0, prev, api, now, storeUp))
  {
    assert addresses[..i + 1][..i] == addresses[..i];
  }

  /** The addresses a batch requests, in input order. */
  function Misses(e0: map<string, Entry>, addresses: seq<string>, now: int, storeUp: bool): seq<string>
  {
    if addresses == [] then []
    else
      var prev := Misses(e0, addresses[..|addresses| - 1], now, storeUp);
      var a := addresses[|addresses| - 1];
      if Misses1(e0, a, now, storeUp) then prev + [a] else prev
  }

  /** The table after the batch's reads: each address's stale row deleted. */
  function AfterGets(e: map<string, Entry>, addresses: seq<string>, now: int): map<string, Entry>
  {
    if addresses == [] then e
    else AfterGet(AfterGets(e, addresses[..|addresses| - 1], now), addresses[|addresses| - 1], now)
  }

  /** The write-backs of the batch's successful misses, in input order. */
  function WriteBacks(e: map<string, Entry>, e0: map<string, Entry>, addresses: seq<string>,
                      api: Api, now: int, storeUp: bool): map<string, Entry>
  {
    if addresses == [] then e
    else
      var prev := WriteBacks(e, e0, addresses[..|addresses| - 1], api, now, storeUp);
      var a := addresses[|addresses| - 1];
      if Misses1(e0, a, now, storeUp) then WriteBack(prev, a, FromResponse(a, api(a)), now, storeUp) else prev
  }

  /** Earlier reads of a batch do not change what a later read of any
      address returns. */
  lemma {:induction false} AfterGetsLookup(e: map<string, Entry>, addresses: seq<string>, a: string, now: int)
    ensures Lookup(AfterGets(e, addresses, now), a, now) == Lookup(e, a, now)
  {
    if addresses != [] {
      AfterGetsLookup(e, addresses[..|addresses| - 1], a, now);
    }
  }

  /** Every cached record is stored under its own address. */
  predicate WellKeyed(entries: map<string, Entry>)
  {
    forall a :: a in entries ==> entries[a].data.address == a
  }

  /** On a well-keyed table every successful result is the record of the
      address asked for, whether it came from the cache or the API. */
  lemma ResultAddress(entries: map<string, Entry>, a: string, api: Api, now: int, storeUp: bool)
    requires WellKeyed(entries)
    ensures Result1(entries, a, api, now, storeUp).Ok? ==> Result1(entries, a, api, now, storeUp).value.address == a
  {
  }

  /** A failed miss throws and writes nothing; a successful one writes the
      record under its address, stamped with the time of the call. */
  lemma WriteBackOnlyOnSuccess(entries: map<string, Entry>, a: string, r: Result<BalanceRecord>, now: int)
    ensures r.Err? ==> WriteBack(entries, a, r, now, true) == entries
    ensures r.Ok? ==> WriteBack(entries, a, r, now, true) == entries[a := Entry(r.value, now)]
  {
  }

  /** The batch keeps the table well-keyed. */
  lemma {:induction false} WriteBacksWellKeyed(e: map<string, Entry>, e0: map<string, Entry>, addresses: seq<string>,
                                               api: Api, now: int, storeUp: bool)
    requires WellKeyed(e)
    ensures WellKeyed(WriteBacks(e, e0, addresses, api, now, storeUp))
  {
    if addresses != [] {
      WriteBacksWellKeyed(e, e0, addresses[..|addresses| - 1], api, now, storeUp);
    }
  }

  lemma {:induction false} AfterGetsWellKeyed(e: map<string, Entry>, addresses: seq<string>, now: int)
    requires WellKeyed(e)
    ensures WellKeyed(AfterGets(e, addresses, now))
  {
    if addresses != [] {
      AfterGetsWellKeyed(e, addresses[..|addresses| - 1], now);
    }
  }

  /** A batch succeeds exactly when every address's result does; its
      values are then those results in input order, each the record of its
      own address when the table was well-keyed. */
  lemma BatchShape(entries: map<string, Entry>, addresses: seq<string>, api: Api, now: int, storeUp: bool)
    requires WellKeyed(entries)
    ensures var rs := seq(|addresses|, i requires 0 <= i < |addresses| => Result1(entries, addresses[i], api, now, storeUp));
      var r := All(rs);
      && (r.Ok? <==> forall i :: 0 <= i < |addresses| ==> Result1(entries, addresses[i], api, now, storeUp).Ok?)
      && (r.Ok? ==> |r.value| == |addresses| && forall i :: 0 <= i < |addresses| ==> r.value[i].address == addresses[i])
  {
    var rs := seq(|addresses|, i requires 0 <= i < |addresses| => Result1(entries, addresses[i], api, now, storeUp));
    forall i | 0 <= i < |addresses| ensures rs[i].Ok? ==> rs[i].value.address == addresses[i] {
      ResultAddress(entries, addresses[i], api, now, storeUp);
    }
  }

  /** Reads come before writes: an address that misses appears twice in a
      batch is requested twice. */
  lemma DuplicateMissesTwice(e0: map<string, Entry>, a: string, now: int, storeUp: bool)
    requires Misses1(e0, a, now, storeUp)
    ensures Misses(e0, [a, a], now, storeUp) == [a, a]
  {
    assert [a][..0] == [];
    assert Misses(e0, [a], now, storeUp) == [a];
    assert [a, a][..1] == [a];
  }

  /** A cache hit is answered without a request. */
  lemma HitNotRequested(e0: map<string, Entry>, addresses: seq<string>, a: string, now: int)
    requires Lookup(e0, a, now).Some? && a in addresses
    ensures a !in Misses(e0, addresses, now, true)
  {
    MissesAreMisses(e0, addresses, now, true);
  }

  lemma {:induction false} MissesAreMisses(e0: map<string, Entry>, addresses: seq<string>, now: int, storeUp: bool)
    ensures forall b :: b in Misses(e0, addresses, now, storeUp) ==> b in addresses && Misses1(e0, b, now, storeUp)
  {
    if addresses != [] {
      MissesAreMisses(e0, addresses[..|addresses| - 1], now, storeUp);
    }
  }
}
