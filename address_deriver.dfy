/** src/utils/addressDeriver.js: the derivation-index and path bookkeeping
    around an opaque address derivation. The worker threads run this one. */
module AddressDeriver {
  import opened Common
  import opened Text
  import opened Config
  import opened Crypto

  /** `{ address, path, index }` as deriveAddress returns it. */
  datatype AddressRecord = AddressRecord(address: string, path: string, index: int)

  /** The error a failing library call throws; its text is the library's. */
  const LIBRARY_ERROR: string := "derivation library error"

  /** `${DEFAULT_DERIVATION_PATH}${index}` */
  function PathFor(index: int): string
  {
    DEFAULT_DERIVATION_PATH + IntToString(index)
  }

  /** The path is the BIP-44 prefix followed by the decimal index, and the
      index can be read back from it. */
  lemma PathForParses(index: int)
    ensures |PathFor(index)| > |DEFAULT_DERIVATION_PATH|
    ensures PathFor(index)[..|DEFAULT_DERIVATION_PATH|] == DEFAULT_DERIVATION_PATH
    ensures ParseInt(PathFor(index)[|DEFAULT_DERIVATION_PATH|..]) == Some(index)
  {
    var p := PathFor(index);
    assert p[|DEFAULT_DERIVATION_PATH|..] == IntToString(index);
    IntToStringRoundTrip(index);
  }

  /** Distinct indices never share a path. */
  lemma PathForInjective(i: int, j: int)
    requires PathFor(i) == PathFor(j)
    ensures i == j
  {
    PathForParses(i);
    PathForParses(j);
  }

  /** The record the derivation of `index` produces, if the libraries accept it. */
  function RecordAt(c: Suite, seed: seq<Byte>, index: int): Option<AddressRecord>
  {
    match AddressAt(c, seed, PathFor(index))
    case None => None
    case Some(a) => Some(AddressRecord(a, PathFor(index), index))
  }

  /** The libraries accept the derivation of `index`. */
  predicate Derivable(c: Suite, seed: seq<Byte>, index: int)
  {
    RecordAt(c, seed, index).Some?
  }

  /** `HDKey.fromMasterSeed(seed)`, once for the whole batch. */
  datatype HdKey = HdKey(seed: seq<Byte>)

  /** `deriveAddress(hdkey, index)`: derive at the index's path, make the
      key pair, encode the address; any library failure is rethrown. */
  function DeriveAddress(c: Suite, hd: HdKey, index: int): (r: Result<AddressRecord>)
    requires c.masterOk(hd.seed)
    ensures r.Ok? <==> RecordAt(c, hd.seed, index).Some?
    ensures r.Ok? ==> r.value.index == index && r.value.path == PathFor(index)
    ensures r.Ok? ==> Some(r.value.address) == AddressAt(c, hd.seed, r.value.path)
  {
    match c.hdChild(hd.seed, PathFor(index))
    case None => Err(LIBRARY_ERROR)
    case Some(key) =>
      match c.keyPair(key)
      case None => Err(LIBRARY_ERROR)
      case Some(kp) => Ok(AddressRecord(c.p2pkh(kp.publicKey), PathFor(index), index))
  }

  /** What a derivation batch of `count` records from `start` holds:
      record i is the derivation of index start + i. */
  ghost predicate DerivedFrom(c: Suite, seed: seq<Byte>, start: int, count: int, recs: seq<AddressRecord>)
  {
    && |recs| == Max(count, 0)
    && forall i :: 0 <= i < |recs| ==> RecordAt(c, seed, start + i) == Some(recs[i])
  }

  /** `deriveAddresses(seed, startIndex, count)`: the master key is built
      first (so a bad seed fails even for count <= 0), then one record per
      index; any failure aborts the call with no partial list. */
  method DeriveAddresses(c: Suite, seed: seq<Byte>, start: int, count: int)
    returns (r: Result<seq<AddressRecord>>)
    ensures r.Ok? <==> c.masterOk(seed) && forall k :: start <= k < start + count ==> Derivable(c, seed, k)
    ensures r.Ok? ==> DerivedFrom(c, seed, start, count, r.value)
  {
    if !c.masterOk(seed) {
      return Err(LIBRARY_ERROR);
    }
    var hd := HdKey(seed);
    var addresses: seq<AddressRecord> := [];
    var i := 0;
    while i < count
      invariant 0 <= i <= Max(count, 0)
      invariant |addresses| == i
      invariant forall k :: 0 <= k < i ==> RecordAt(c, seed, start + k) == Some(addresses[k])
      invariant forall k :: start <= k < start + i ==> Derivable(c, seed, k)
    {
      var rec := DeriveAddress(c, hd, start + i);
      if rec.Err? {
        assert !Derivable(c, seed, start + i);
        return Err(rec.error);
      }
      addresses := addresses + [rec.value];
      i := i + 1;
    }
    return Ok(addresses);
  }

  /** Any batch shaped like DeriveAddresses' result has strictly ascending,
      hence unique, indices, and pairwise distinct paths that each end in the
      record's own decimal index. */
  lemma DerivedWellFormed(c: Suite, seed: seq<Byte>, start: int, count: int, recs: seq<AddressRecord>)
    requires DerivedFrom(c, seed, start, count, recs)
    ensures forall i :: 0 <= i < |recs| ==> recs[i].index == start + i && recs[i].path == PathFor(recs[i].index)
    ensures forall i, j :: 0 <= i < j < |recs| ==> recs[i].index < recs[j].index
    ensures forall i, j :: 0 <= i < j < |recs| ==> recs[i].path != recs[j].path
  {
    forall i, j | 0 <= i < j < |recs| ensures recs[i].path != recs[j].path {
      assert RecordAt(c, seed, start + i) == Some(recs[i]);
      assert RecordAt(c, seed, start + j) == Some(recs[j]);
      if recs[i].path == recs[j].path {
        PathForInjective(start + i, start + j);
      }
    }
  }
}
