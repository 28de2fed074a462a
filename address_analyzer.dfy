/** src/core/addressAnalyzer.js: range analysis in outer batches and the
    key search for one address. The class imports key derivation from
    src/utils/crypto/keyDeriver.js, which is not part of this model; the
    functions of src/utils/keyDeriver.js stand in for it. */
module AddressAnalyzer {
  import opened Common
  import opened Config
  import opened Crypto
  import opened Batching
  import opened KeyDeriver
  import opened SqliteCache
  import AddressDeriver
  import Text
  import CryptoAddressDeriver
  import BalanceChecker

  const HD_WALLET: string := "hd-wallet"

  /** The seed `AddressDeriver.getSeed()` returns. */
  function ZeroSeed(): (s: seq<Byte>)
    ensures |s| == 64
  {
    Zeros(64)
  }

  lemma IsZeroSeed(s: seq<Byte>)
    requires |s| == 64 && forall k :: 0 <= k < 64 ==> s[k] == 0
    ensures s == ZeroSeed()
  {
    assert forall k :: 0 <= k < 64 ==> s[k] == ZeroSeed()[k];
  }

  // ---- deriveKeyForAddress ----

  /** Index i of the structured search derives a key that controls `address`. */
  predicate Verifies(c: Suite, seed: seq<Byte>, address: string, i: nat)
  {
    && DerivePrivateKey(c, seed, AddressDeriver.PathFor(i)).Ok?
    && VerifyPrivateKey(c, DerivePrivateKey(c, seed, AddressDeriver.PathFor(i)).value.privateKey, address).isValid
  }

  /** `{ ...keyInfo, method: 'hd-wallet' }` for index i. */
  function HdKeyAt(c: Suite, seed: seq<Byte>, i: nat): (k: KeyInfo)
    requires DerivePrivateKey(c, seed, AddressDeriver.PathFor(i)).Ok?
    ensures k.path == Some(AddressDeriver.PathFor(i)) && k.via == Some(HD_WALLET)
  {
    DerivePrivateKey(c, seed, AddressDeriver.PathFor(i)).value.(via := Some(HD_WALLET))
  }

  /** The structured search from index i on: a failing derivation throws
      out of the search, the first verified index wins. */
  function Structured(c: Suite, seed: seq<Byte>, address: string, i: nat): Result<Option<KeyInfo>>
    decreases STRUCTURED_SEARCH_LIMIT - i
  {
    if i >= STRUCTURED_SEARCH_LIMIT then Ok(None)
    else
      match DerivePrivateKey(c, seed, AddressDeriver.PathFor(i))
      case Err(e) => Err(e)
      case Ok(k) =>
        if VerifyPrivateKey(c, k.privateKey, address).isValid then Ok(Some(HdKeyAt(c, seed, i)))
        else Structured(c, seed, address, i + 1)
  }

  /** The first strategy: `for (let i = 0; i < 1000; i++)` over
      `m/44'/0'/0'/0/${i}`. */
  method StructuredSearch(c: Suite, seed: seq<Byte>, address: string) returns (r: Result<Option<KeyInfo>>)
    ensures r == Structured(c, seed, address, 0)
  {
    var i: nat := 0;
    while i < STRUCTURED_SEARCH_LIMIT
      invariant i <= STRUCTURED_SEARCH_LIMIT
      invariant Structured(c, seed, address, 0) == Structured(c, seed, address, i)
      decreases STRUCTURED_SEARCH_LIMIT - i
    {
      var path := DEFAULT_DERIVATION_PATH + Text.IntToString(i);
      var keyInfo := DerivePrivateKey(c, seed, path);
      if keyInfo.Err? {
        return Err(keyInfo.error);
      }
      if VerifyPrivateKey(c, keyInfo.value.privateKey, address).isValid {
        return Ok(Some(keyInfo.value.(via := Some(HD_WALLET))));
      }
      i := i + 1;
    }
    return Ok(None);
  }

  /** `if (knownPath)`: a present, non-empty path. */
  predicate Known(knownPath: Option<string>)
  {
    knownPath.Some? && knownPath.value != []
  }

  /** `deriveKeyForAddress(address, knownPath)` against `seed`: the known
      path alone, or the strategies in order; any throw becomes null. */
  function KeyFor(c: Suite, seed: seq<Byte>, address: string, knownPath: Option<string>): Option<KeyInfo>
  {
    if Known(knownPath) then
      match DerivePrivateKey(c, seed, knownPath.value)
      case Ok(k) => Some(k)
      case Err(_) => None
    else
      match Structured(c, seed, address, 0)
      case Err(_) => None
      case Ok(Some(k)) => Some(k)
      case Ok(None) =>
        match Scan(c, address, BRUTE_FORCE_FIRST, BRUTE_FORCE_LAST)
        case Ok(x) => x
        case Err(_) => None
  }

  method DeriveKeyForAddress(c: Suite, address: string, knownPath: Option<string>) returns (r: Option<KeyInfo>)
    ensures r == KeyFor(c, ZeroSeed(), address, knownPath)
  {
    var seed := CryptoAddressDeriver.GetSeed();
    IsZeroSeed(seed);
    if knownPath.Some? && knownPath.value != [] {
      var k := DerivePrivateKey(c, seed, knownPath.value);
      if k.Err? {
        return None;
      }
      return Some(k.value);
    }
    var hd := StructuredSearch(c, seed, address);
    if hd.Err? {
      return None;
    }
    if hd.value.Some? {
      return hd.value;
    }
    var brute := BruteforceAddress(c, address, BRUTE_FORCE_FIRST, BRUTE_FORCE_LAST);
    if brute.Err? {
      return None;
    }
    return brute.value;
  }

  /** A known path is used as it is, with no search: the result is the key
      at that path and keeps the path. */
  lemma KnownPathNoSearch(c: Suite, seed: seq<Byte>, address: string, p: string)
    requires p != []
    ensures KeyFor(c, seed, address, Some(p)).Some? <==> DerivePrivateKey(c, seed, p).Ok?
    ensures KeyFor(c, seed, address, Some(p)).Some? ==>
      && KeyFor(c, seed, address, Some(p)).value.path == Some(p)
      && Text.FromHex(KeyFor(c, seed, address, Some(p)).value.privateKey) == ChildKey(c, seed, p)
  {
  }

  /** The structured search returns the first verified index, tagged
      hd-wallet, when every index up to it derives. */
  lemma {:induction false} StructuredFindsFirst(c: Suite, seed: seq<Byte>, address: string, i: nat, j: nat)
    requires i <= j < STRUCTURED_SEARCH_LIMIT && Verifies(c, seed, address, j)
    requires forall k: nat :: i <= k < j ==> DerivePrivateKey(c, seed, AddressDeriver.PathFor(k)).Ok? && !Verifies(c, seed, address, k)
    ensures Structured(c, seed, address, i) == Ok(Some(HdKeyAt(c, seed, j)))
    decreases j - i
  {
    if i < j {
      StructuredFindsFirst(c, seed, address, i + 1, j);
    }
  }

  /** Whatever the structured search returns is the key of an index in
      0..999 that verifies. */
  lemma {:induction false} StructuredSound(c: Suite, seed: seq<Byte>, address: string, i: nat)
    requires Structured(c, seed, address, i).Ok? && Structured(c, seed, address, i).value.Some?
    ensures exists j: nat :: (&& i <= j < STRUCTURED_SEARCH_LIMIT && Verifies(c, seed, address, j)
      && Structured(c, seed, address, i).value.value == HdKeyAt(c, seed, j))
    decreases STRUCTURED_SEARCH_LIMIT - i
  {
    if !Verifies(c, seed, address, i) {
      StructuredSound(c, seed, address, i + 1);
      var j: nat :| && i + 1 <= j < STRUCTURED_SEARCH_LIMIT && Verifies(c, seed, address, j)
        && Structured(c, seed, address, i + 1).value.value == HdKeyAt(c, seed, j);
      assert Structured(c, seed, address, i) == Structured(c, seed, address, i + 1);
    }
  }

  /** A derivation that throws before any index verifies ends the whole
      key search with null: brute force is never tried. */
  lemma {:induction false} StructuredThrowAborts(c: Suite, seed: seq<Byte>, address: string, i: nat, j: nat)
    requires i <= j < STRUCTURED_SEARCH_LIMIT && DerivePrivateKey(c, seed, AddressDeriver.PathFor(j)).Err?
    requires forall k: nat :: i <= k < j ==> DerivePrivateKey(c, seed, AddressDeriver.PathFor(k)).Ok? && !Verifies(c, seed, address, k)
    ensures Structured(c, seed, address, i).Err?
    decreases j - i
  {
    if i < j {
      StructuredThrowAborts(c, seed, address, i + 1, j);
    }
  }

  lemma KeySearchAborts(c: Suite, seed: seq<Byte>, address: string, j: nat)
    requires j < STRUCTURED_SEARCH_LIMIT && DerivePrivateKey(c, seed, AddressDeriver.PathFor(j)).Err?
    requires forall k: nat :: k < j ==> DerivePrivateKey(c, seed, AddressDeriver.PathFor(k)).Ok? && !Verifies(c, seed, address, k)
    ensures KeyFor(c, seed, address, None) == None
  {
    StructuredThrowAborts(c, seed, address, 0, j);
  }

  /** The brute-force window [1, 1000000] lies inside [0, 2^64), so the
      second strategy never throws. */
  lemma BruteWindowSafe(c: Suite, address: string)
    ensures Scan(c, address, BRUTE_FORCE_FIRST, BRUTE_FORCE_LAST).Ok?
  {
    ScanInRange(c, address, BRUTE_FORCE_FIRST, BRUTE_FORCE_LAST);
  }

  /** Brute force runs only when the structured search found nothing, and
      then its first hit is the answer. */
  lemma BruteForceOnlyAfterStructured(c: Suite, seed: seq<Byte>, address: string)
    requires KeyFor(c, seed, address, None).Some?
    requires KeyFor(c, seed, address, None).value.via == Some(BRUTEFORCE)
    ensures Structured(c, seed, address, 0) == Ok(None)
    ensures exists j :: (&& BRUTE_FORCE_FIRST <= j <= BRUTE_FORCE_LAST && Hit(c, address, j)
      && (forall k :: BRUTE_FORCE_FIRST <= k < j ==> !Hit(c, address, k))
      && KeyFor(c, seed, address, None).value == FoundAt(c, address, j))
  {
    var s := Structured(c, seed, address, 0);
    if s.Ok? && s.value.Some? {
      StructuredSound(c, seed, address, 0);
    }
    BruteWindowSafe(c, address);
    ScanSound(c, address, BRUTE_FORCE_FIRST, BRUTE_FORCE_LAST);
  }

  /** Every key the search returns controls the address it was asked for. */
  lemma SearchResultVerifies(c: Suite, seed: seq<Byte>, address: string)
    requires KeyFor(c, seed, address, None).Some?
    ensures VerifyPrivateKey(c, KeyFor(c, seed, address, None).value.privateKey, address).isValid
  {
    var s := Structured(c, seed, address, 0);
    if s.Ok? && s.value.Some? {
      StructuredSound(c, seed, address, 0);
    } else {
      BruteWindowSafe(c, address);
      ScanSound(c, address, BRUTE_FORCE_FIRST, BRUTE_FORCE_LAST);
    }
  }

  // ---- analyzeBatch ----

  /** `{ ...addr, ...keyInfo }`: the balance record and the key found for
      it, if any. */
  datatype Analyzed = Analyzed(record: BalanceRecord, key: Option<KeyInfo>)

  /** `this.balanceChecker.checkBalancesBatch(addresses)` on the derived
      records: the enriched list, or the error it throws. */
  type Enrich = seq<AddressDeriver.AddressRecord> -> Result<seq<BalanceRecord>>

  /** The enriched records with their keys. The enriched records have no
      `path` field, so every key search runs without a known path. */
  function WithKeys(c: Suite, recs: seq<BalanceRecord>, deriveKeys: bool): (r: seq<Analyzed>)
    ensures |r| == |recs|
    ensures forall i :: 0 <= i < |r| ==> r[i].record == recs[i]
    ensures !deriveKeys ==> forall i :: 0 <= i < |r| ==> r[i].key == None
    ensures deriveKeys ==> forall i :: 0 <= i < |r| ==> r[i].key == KeyFor(c, ZeroSeed(), recs[i].address, None)
  {
    seq(|recs|, i requires 0 <= i < |recs| =>
      Analyzed(recs[i], if deriveKeys then KeyFor(c, ZeroSeed(), recs[i].address, None) else None))
  }

  /** `analyzeBatch(seed, startIndex, count, deriveKeys)` */
  function BatchResult(c: Suite, seed: seq<Byte>, enrich: Enrich, deriveKeys: bool, start: int, count: int): Result<seq<Analyzed>>
  {
    match CryptoAddressDeriver.DerivedRecords(c, seed, start, count)
    case Err(e) => Err(e)
    case Ok(addrs) =>
      match enrich(addrs)
      case Err(e) => Err(e)
      case Ok(recs) => Ok(WithKeys(c, recs, deriveKeys))
  }

  method AnalyzeBatch(c: Suite, seed: seq<Byte>, start: int, count: int, deriveKeys: bool, enrich: Enrich)
    returns (r: Result<seq<Analyzed>>)
    ensures r == BatchResult(c, seed, enrich, deriveKeys, start, count)
  {
    var addresses := CryptoAddressDeriver.DeriveAddresses(c, seed, start, count);
    CryptoAddressDeriver.DerivedRecordsExact(c, seed, start, count, addresses);
    if addresses.Err? {
      return Err(addresses.error);
    }
    var enriched := enrich(addresses.value);
    if enriched.Err? {
      return Err(enriched.error);
    }
    var recs := enriched.value;
    if !deriveKeys {
      return Ok(WithKeys(c, recs, false));
    }
    var out := AttachKeys(c, recs);
    return Ok(out);
  }

  /** `Promise.all(enrichedAddresses.map(async addr => ...))` with keys
      requested: one key search per record, results in record order. */
  method AttachKeys(c: Suite, recs: seq<BalanceRecord>) returns (out: seq<Analyzed>)
    ensures out == WithKeys(c, recs, true)
  {
    out := [];
    var i := 0;
    while i < |recs|
      invariant i <= |recs|
      invariant out == WithKeys(c, recs[..i], true)
    {
      var key := DeriveKeyForAddress(c, recs[i].address, None);
      out := out + [Analyzed(recs[i], key)];
      i := i + 1;
      assert recs[..i][..i - 1] == recs[..i - 1];
    }
    assert recs[..i] == recs;
  }

  /** With keys requested, every key attached to a record controls that
      record's address. */
  lemma BatchKeysVerify(c: Suite, seed: seq<Byte>, enrich: Enrich, start: int, count: int, i: nat)
    requires BatchResult(c, seed, enrich, true, start, count).Ok?
    requires i < |BatchResult(c, seed, enrich, true, start, count).value|
    requires BatchResult(c, seed, enrich, true, start, count).value[i].key.Some?
    ensures var a := BatchResult(c, seed, enrich, true, start, count).value[i];
      VerifyPrivateKey(c, a.key.value.privateKey, a.record.address).isValid
  {
    var a := BatchResult(c, seed, enrich, true, start, count).value[i];
    SearchResultVerifies(c, ZeroSeed(), a.record.address);
  }

  // ---- analyzeRange ----

  /** The batch analysis as a function of the piece it covers. */
  function BatchFn(c: Suite, seed: seq<Byte>, enrich: Enrich, deriveKeys: bool): Piece -> Result<seq<Analyzed>>
  {
    (p: Piece) => BatchResult(c, seed, enrich, deriveKeys, p.start, p.count)
  }

  lemma BatchFnAt(c: Suite, seed: seq<Byte>, enrich: Enrich, deriveKeys: bool, p: Piece)
    ensures BatchFn(c, seed, enrich, deriveKeys)(p) == BatchResult(c, seed, enrich, deriveKeys, p.start, p.count)
  {
  }

  /** `analyzeRange(startIndex, count, batchSize, deriveKeys)`. A zero
      batch size with a positive count loops forever in the source; that
      input is excluded here. */
  method AnalyzeRange(c: Suite, enrich: Enrich, start: int, count: int, batchSize: int, deriveKeys: bool)
    returns (r: Result<seq<Analyzed>>)
    requires LoopRounds(count, batchSize).Finite?
    ensures r == Outcome(BatchFn(c, ZeroSeed(), enrich, deriveKeys), Pieces(start, count, batchSize, LoopRounds(count, batchSize).n))
  {
    var seed := CryptoAddressDeriver.GetSeed();
    IsZeroSeed(seed);
    ghost var f := BatchFn(c, seed, enrich, deriveKeys);
    var batches := LoopRounds(count, batchSize).n;
    var results: seq<Analyzed> := [];
    var i := 0;
    while i < batches
      invariant i <= batches
      invariant Outcome(f, Pieces(start, count, batchSize, i)) == Ok(results)
    {
      var batchStart := start + i * batchSize;
      var batchCount := Min(batchSize, count - i * batchSize);
      var batchResults := AnalyzeBatch(c, seed, batchStart, batchCount, deriveKeys, enrich);
      assert f(PieceAt(start, count, batchSize, i)) == batchResults by {
        assert PieceAt(start, count, batchSize, i) == Piece(batchStart, batchCount);
        BatchFnAt(c, seed, enrich, deriveKeys, Piece(batchStart, batchCount));
      }
      OutcomeStep(f, start, count, batchSize, i, results);
      if batchResults.Err? {
        OutcomeErrSticky(f, start, count, batchSize, i + 1, batches);
        return Err(batchResults.error);
      }
      results := results + batchResults.value;
      i := i + 1;
    }
    return Ok(results);
  }

  /** For a positive batch size the batches cover [start, start + count)
      exactly and in order, all but the last full; the analysis succeeds
      iff every batch does and then returns their results in batch order. */
  lemma RangeCover(c: Suite, enrich: Enrich, start: int, count: int, batchSize: int, deriveKeys: bool)
    requires batchSize > 0 && count > 0
    ensures var ps := Pieces(start, count, batchSize, LoopRounds(count, batchSize).n);
      var f := BatchFn(c, ZeroSeed(), enrich, deriveKeys);
      && Indices(ps) == Range(start, count)
      && (forall i :: 0 <= i < |ps| ==> 1 <= ps[i].count <= batchSize)
      && (forall i :: 0 <= i < |ps| - 1 ==> ps[i].count == batchSize)
      && (Outcome(f, ps).Ok? <==> forall i :: 0 <= i < |ps| ==> f(ps[i]).Ok?)
      && (Outcome(f, ps).Ok? ==> Outcome(f, ps).value == Concat(Results(f, ps)))
  {
    RoundsExact(count, batchSize);
    var n := LoopRounds(count, batchSize).n;
    PiecesCover(start, count, batchSize, n);
    PiecesShape(start, count, batchSize, n);
    OutcomeOk(BatchFn(c, ZeroSeed(), enrich, deriveKeys), Pieces(start, count, batchSize, n));
  }

  /** A non-positive count runs no batch and returns the empty list. */
  lemma EmptyRange(c: Suite, enrich: Enrich, start: int, count: int, batchSize: int, deriveKeys: bool)
    requires count <= 0 && batchSize > 0
    ensures LoopRounds(count, batchSize) == Finite(0)
    ensures Outcome(BatchFn(c, ZeroSeed(), enrich, deriveKeys), Pieces(start, count, batchSize, 0)) == Ok([])
  {
    RoundsExact(count, batchSize);
  }

  // ---- the balance checker the class constructs ----

  /** The TypeError `this.cache.get` throws: the class builds its
      BalanceChecker without a cache. */
  const NO_CACHE: string := "Cannot read properties of undefined (reading 'get')"

  /** checkBalancesBatch as the class wires it: every lookup throws. */
  function ShippedEnrich(addrs: seq<AddressDeriver.AddressRecord>): Result<seq<BalanceRecord>>
  {
    if addrs == [] then Ok([]) else Err(NO_CACHE)
  }

  /** As shipped, analyzeRange fails for any positive count and batch size:
      the first batch either fails to derive or fails to check balances. */
  lemma ShippedRangeThrows(c: Suite, start: int, count: int, batchSize: int, deriveKeys: bool)
    requires batchSize > 0 && count > 0
    ensures Outcome(BatchFn(c, ZeroSeed(), ShippedEnrich, deriveKeys), Pieces(start, count, batchSize, LoopRounds(count, batchSize).n)).Err?
  {
    RoundsExact(count, batchSize);
    var n := LoopRounds(count, batchSize).n;
    var ps := Pieces(start, count, batchSize, n);
    var f := BatchFn(c, ZeroSeed(), ShippedEnrich, deriveKeys);
    PiecesShape(start, count, batchSize, n);
    var d := CryptoAddressDeriver.DerivedRecords(c, ZeroSeed(), ps[0].start, ps[0].count);
    assert d.Ok? ==> |d.value| == ps[0].count;
    assert f(ps[0]).Err?;
    OutcomeErr(f, ps, 0);
  }

  /** The intended wiring: the cached checker of src/utils/balanceChecker.js
      (the cache snapshot is `entries`), handed each derived record's
      `address` string as src/services/mnemonicAnalyzer.js:270 does; the
      class itself hands it the records. */
  function CachedEnrich(entries: map<string, Entry>, api: BalanceChecker.Api, now: int, storeUp: bool): Enrich
  {
    (addrs: seq<AddressDeriver.AddressRecord>) =>
      BalanceChecker.All(seq(|addrs|, i requires 0 <= i < |addrs| =>
        BalanceChecker.Result1(entries, addrs[i].address, api, now, storeUp)))
  }

  /** With a cache, a batch that checks out keeps one record per derived
      address, in order, each for its own address. */
  lemma CachedEnrichShape(entries: map<string, Entry>, api: BalanceChecker.Api, now: int, storeUp: bool,
                          addrs: seq<AddressDeriver.AddressRecord>)
    requires BalanceChecker.WellKeyed(entries)
    requires CachedEnrich(entries, api, now, storeUp)(addrs).Ok?
    ensures var recs := CachedEnrich(entries, api, now, storeUp)(addrs).value;
      && |recs| == |addrs|
      && forall i :: 0 <= i < |recs| ==> recs[i].address == addrs[i].address
  {
    var recs := CachedEnrich(entries, api, now, storeUp)(addrs).value;
    forall i | 0 <= i < |recs| ensures recs[i].address == addrs[i].address {
      BalanceChecker.ResultAddress(entries, addrs[i].address, api, now, storeUp);
    }
  }
}
