/** src/utils/crypto/addressDeriver.js: the same bookkeeping, with the
    master key rebuilt for every index, and the fixed seed of getSeed. */
module CryptoAddressDeriver {
  import opened Common
  import opened Crypto
  import opened AddressDeriver

  /** `deriveAddress(seed, index)`: master key, path, key pair, address. */
  function DeriveAddress(c: Suite, seed: seq<Byte>, index: int): (r: Result<AddressRecord>)
    ensures r.Ok? <==> RecordAt(c, seed, index).Some?
    ensures r.Ok? ==> r.value.index == index && r.value.path == PathFor(index)
    ensures r.Ok? ==> Some(r.value.address) == AddressAt(c, seed, r.value.path)
  {
    match AddressAt(c, seed, PathFor(index))
    case None => Err(LIBRARY_ERROR)
    case Some(a) => Ok(AddressRecord(a, PathFor(index), index))
  }

  /** The outcome of a whole batch: every record when every index derives,
      the library's error otherwise. */
  function DerivedRecords(c: Suite, seed: seq<Byte>, start: int, count: int): Result<seq<AddressRecord>>
  {
    if forall k :: start <= k < start + count ==> Derivable(c, seed, k) then
      Ok(seq(Max(count, 0), i requires 0 <= i < Max(count, 0) && Derivable(c, seed, start + i) => RecordAt(c, seed, start + i).value))
    else Err(LIBRARY_ERROR)
  }

  /** `deriveAddresses(seed, startIndex, count)`: one awaited derivation per
      index; the seed is only checked when an index is derived, so
      count <= 0 succeeds with no records whatever the seed. */
  method DeriveAddresses(c: Suite, seed: seq<Byte>, start: int, count: int)
    returns (r: Result<seq<AddressRecord>>)
    ensures r.Ok? <==> forall k :: start <= k < start + count ==> Derivable(c, seed, k)
    ensures r.Ok? ==> DerivedFrom(c, seed, start, count, r.value)
    ensures count <= 0 ==> r == Ok([])
    ensures r.Err? ==> r.error == LIBRARY_ERROR
  {
    var addresses: seq<AddressRecord> := [];
    var i := 0;
    while i < count
      invariant 0 <= i <= Max(count, 0)
      invariant |addresses| == i
      invariant forall k :: 0 <= k < i ==> RecordAt(c, seed, start + k) == Some(addresses[k])
      invariant forall k :: start <= k < start + i ==> Derivable(c, seed, k)
    {
      var rec := DeriveAddress(c, seed, start + i);
      if rec.Err? {
        assert !Derivable(c, seed, start + i);
        return Err(LIBRARY_ERROR);
      }
      addresses := addresses + [rec.value];
      i := i + 1;
    }
    return Ok(addresses);
  }

  /** What deriveAddresses promises pins its result down to DerivedRecords. */
  lemma DerivedRecordsExact(c: Suite, seed: seq<Byte>, start: int, count: int, r: Result<seq<AddressRecord>>)
    requires r.Ok? <==> forall k :: start <= k < start + count ==> Derivable(c, seed, k)
    requires r.Ok? ==> DerivedFrom(c, seed, start, count, r.value)
    requires r.Err? ==> r.error == LIBRARY_ERROR
    ensures r == DerivedRecords(c, seed, start, count)
  {
    if r.Ok? {
      var d := DerivedRecords(c, seed, start, count).value;
      assert |d| == |r.value|;
      forall i | 0 <= i < |d| ensures d[i] == r.value[i] {
        assert RecordAt(c, seed, start + i) == Some(r.value[i]);
      }
      assert d == r.value;
    } else {
      assert !(forall k :: start <= k < start + count ==> Derivable(c, seed, k));
    }
  }

  /** `getSeed()`: a 64-byte buffer filled with zeros one byte at a time. */
  method GetSeed() returns (seed: seq<Byte>)
    ensures |seed| == 64
    ensures forall k :: 0 <= k < 64 ==> seed[k] == 0
  {
    var buffer := new Byte[64];
    var i := 0;
    while i < 64
      invariant 0 <= i <= 64
      invariant forall k :: 0 <= k < i ==> buffer[k] == 0
    {
      buffer[i] := 0;
      i := i + 1;
    }
    seed := buffer[..];
  }
}
