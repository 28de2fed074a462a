/** src/utils/keyDeriver.js: private-key derivation at a path, the
    brute-force candidate scan, and key verification. The key and address
    libraries are the opaque functions of a Crypto.Suite. */
module KeyDeriver {
  import opened Common
  import opened Text
  import opened Crypto

  /** The object the key functions return. derivePrivateKey sets `path`;
      bruteforceAddress and the structured search set `method`, here `via`. */
  datatype KeyInfo = KeyInfo(
    privateKey: string, wif: string, publicKey: string,
    path: Option<string>, via: Option<string>)

  /** The error a failing library call throws. */
  const LIBRARY_ERROR: string := "key library error"

  /** The RangeError `writeBigUInt64BE` throws for a value outside [0, 2^64). */
  const RANGE_ERROR: string := "value out of range for a 64-bit unsigned integer"

  const BRUTEFORCE: string := "bruteforce"

  // ---- derivePrivateKey ----

  /** `derivePrivateKey(seed, path)`: the child key at `path` and its key
      pair, in hex; any library failure is rethrown. */
  function DerivePrivateKey(c: Suite, seed: seq<Byte>, path: string): (r: Result<KeyInfo>)
    ensures r.Ok? <==> ChildKey(c, seed, path).Some? && c.keyPair(ChildKey(c, seed, path).value).Some?
    ensures r.Ok? ==> r.value.path == Some(path) && r.value.via == None
    ensures r.Ok? ==> FromHex(r.value.privateKey) == ChildKey(c, seed, path)
    ensures r.Ok? ==> r.value.wif == c.keyPair(ChildKey(c, seed, path).value).value.wif
  {
    match ChildKey(c, seed, path)
    case None => Err(LIBRARY_ERROR)
    case Some(key) =>
      HexRoundTrip(key);
      match c.keyPair(key)
      case None => Err(LIBRARY_ERROR)
      case Some(kp) => Ok(KeyInfo(ToHex(key), kp.wif, ToHex(kp.publicKey), Some(path), None))
  }

  // ---- Buffer.from(hex, 'hex') ----

  /** One hexadecimal digit of either case, as Node's hex decoder reads it. */
  function Nibble(ch: char): Option<int>
  {
    if 'A' <= ch <= 'F' then Some(ch as int - 'A' as int + 10) else HexValue(ch)
  }

  /** `Buffer.from(h, 'hex')`: pairs of digits are decoded up to the first
      pair that is not hex; an odd trailing digit is dropped. */
  function DecodeHex(h: string): (r: seq<Byte>)
    ensures |r| <= |h| / 2
    decreases |h|
  {
    if |h| < 2 then []
    else match (Nibble(h[0]), Nibble(h[1]))
      case (Some(hi), Some(lo)) =>
        assert 0 <= hi < 16 && 0 <= lo < 16;
        [hi * 16 + lo] + DecodeHex(h[2..])
      case _ => []
  }

  lemma HexValueRange(ch: char)
    ensures HexValue(ch).Some? ==> 0 <= HexValue(ch).value < 16
  {
  }

  /** Node's decoder reads back what `toString('hex')` writes. */
  lemma {:induction false} DecodeToHex(bytes: seq<Byte>)
    ensures DecodeHex(ToHex(bytes)) == bytes
  {
    if bytes != [] {
      var b := bytes[0];
      var h := ToHex(bytes);
      var hi, lo := b / 16, b % 16;
      assert h == [HexDigit(hi), HexDigit(lo)] + ToHex(bytes[1..]);
      assert h[2..] == ToHex(bytes[1..]);
      HexDigitValue(hi);
      HexDigitValue(lo);
      assert Nibble(h[0]) == Some(hi) && Nibble(h[1]) == Some(lo);
      DecodeToHex(bytes[1..]);
      assert [b] + bytes[1..] == bytes;
    }
  }

  // ---- verifyPrivateKey ----

  /** `{ isValid, derivedAddress }`; derivedAddress is absent when the key is
      rejected. */
  datatype Verdict = Verdict(isValid: bool, derivedAddress: Option<string>)

  /** `verifyPrivateKey(privateKey, address)`: a key the library rejects, a
      hex string it cannot use included, is reported invalid. */
  function VerifyPrivateKey(c: Suite, privateKey: string, address: string): (r: Verdict)
    ensures r.isValid <==> AddressOfKey(c, DecodeHex(privateKey)) == Some(address)
    ensures r.derivedAddress == AddressOfKey(c, DecodeHex(privateKey))
  {
    match c.keyPair(DecodeHex(privateKey))
    case None => Verdict(false, None)
    case Some(kp) => Verdict(c.p2pkh(kp.publicKey) == address, Some(c.p2pkh(kp.publicKey)))
  }

  /** A key from derivePrivateKey verifies against the address at its path. */
  lemma DerivedKeyVerifies(c: Suite, seed: seq<Byte>, path: string)
    requires DerivePrivateKey(c, seed, path).Ok?
    ensures VerifyPrivateKey(c, DerivePrivateKey(c, seed, path).value.privateKey, AddressAt(c, seed, path).value).isValid
  {
    DecodeToHex(ChildKey(c, seed, path).value);
  }

  // ---- the brute-force candidates ----

  function Pow256(n: nat): (p: nat)
    ensures p >= 1
  {
    if n == 0 then 1 else 256 * Pow256(n - 1)
  }

  const TWO_64: nat := 0x1_0000_0000_0000_0000
  const TWO_192: nat := TWO_64 * TWO_64 * TWO_64

  /** The k-byte big-endian encoding of i. */
  function BigEndian(i: nat, k: nat): (r: seq<Byte>)
    ensures |r| == k
  {
    if k == 0 then [] else BigEndian(i / 256, k - 1) + [i % 256]
  }

  /** The unsigned big-endian value of a byte string. */
  function BigEndianValue(bytes: seq<Byte>): nat
  {
    if bytes == [] then 0
    else BigEndianValue(bytes[..|bytes| - 1]) * 256 + bytes[|bytes| - 1]
  }

  lemma {:induction false} BigEndianRoundTrip(i: nat, k: nat)
    requires i < Pow256(k)
    ensures BigEndianValue(BigEndian(i, k)) == i
  {
    if k > 0 {
      var r := BigEndian(i, k);
      assert r[..k - 1] == BigEndian(i / 256, k - 1);
      BigEndianRoundTrip(i / 256, k - 1);
    }
  }

  /** n zero bytes, as `Buffer.alloc` fills them. */
  function Zeros(n: nat): (z: seq<Byte>)
    ensures |z| == n && forall k :: 0 <= k < n ==> z[k] == 0
  {
    if n == 0 then [] else Zeros(n - 1) + [0]
  }

  /** Trailing zero bytes multiply the value. */
  lemma {:induction false} ZeroTail(bytes: seq<Byte>, n: nat)
    ensures BigEndianValue(bytes + Zeros(n)) == BigEndianValue(bytes) * Pow256(n)
  {
    if n > 0 {
      var x := bytes + Zeros(n);
      assert x[..|x| - 1] == bytes + Zeros(n - 1);
      assert x[|x| - 1] == 0;
      ZeroTail(bytes, n - 1);
      calc {
        BigEndianValue(x);
        BigEndianValue(bytes + Zeros(n - 1)) * 256;
        BigEndianValue(bytes) * Pow256(n - 1) * 256;
        BigEndianValue(bytes) * (256 * Pow256(n - 1));
      }
    } else {
      assert bytes + Zeros(n) == bytes;
    }
  }

  lemma {:induction false} PowAdd(a: nat, b: nat)
    ensures Pow256(a + b) == Pow256(a) * Pow256(b)
  {
    if a > 0 {
      PowAdd(a - 1, b);
    }
  }

  lemma PowersOfTwo()
    ensures Pow256(8) == TWO_64 && Pow256(24) == TWO_192
  {
    assert Pow256(2) == 0x1_0000;
    assert Pow256(4) == 0x1_0000_0000 by { PowAdd(2, 2); }
    assert Pow256(8) == TWO_64 by { PowAdd(4, 4); }
    assert Pow256(16) == TWO_64 * TWO_64 by { PowAdd(8, 8); }
    assert Pow256(24) == TWO_64 * TWO_64 * TWO_64 by { PowAdd(16, 8); }
  }

  /** `Buffer.alloc(32)` then `writeBigUInt64BE(BigInt(i))` at offset 0. */
  function Candidate(i: nat): (key: seq<Byte>)
    requires i < TWO_64
    ensures |key| == 32
    ensures key[..8] == BigEndian(i, 8)
    ensures forall k :: 8 <= k < 32 ==> key[k] == 0
  {
    BigEndian(i, 8) + Zeros(24)
  }

  /** The candidate for i is the 256-bit number i * 2^192, not i. */
  lemma CandidateValue(i: nat)
    requires i < TWO_64
    ensures BigEndianValue(Candidate(i)) == i * TWO_192
  {
    PowersOfTwo();
    BigEndianRoundTrip(i, 8);
    ZeroTail(BigEndian(i, 8), 24);
    assert Candidate(i) == BigEndian(i, 8) + Zeros(24);
  }

  /** Distinct counters give distinct candidates. */
  lemma CandidateInjective(i: nat, j: nat)
    requires i < TWO_64 && j < TWO_64
    requires Candidate(i) == Candidate(j)
    ensures i == j
  {
    CandidateValue(i);
    CandidateValue(j);
  }

  /** Candidate i yields the target address. */
  predicate Hit(c: Suite, address: string, i: int)
  {
    0 <= i < TWO_64 && AddressOfKey(c, Candidate(i)) == Some(address)
  }

  /** The object bruteforceAddress returns for a hit at i. */
  function FoundAt(c: Suite, address: string, i: int): (r: KeyInfo)
    requires Hit(c, address, i)
    ensures r.via == Some(BRUTEFORCE) && r.path == None
    ensures DecodeHex(r.privateKey) == Candidate(i) && |r.privateKey| == 64
  {
    DecodeToHex(Candidate(i));
    var kp := c.keyPair(Candidate(i)).value;
    KeyInfo(ToHex(Candidate(i)), kp.wif, ToHex(kp.publicKey), None, Some(BRUTEFORCE))
  }

  /** The outcome of the scan over [i, end]: the first hit, or a throw at the
      first counter outside [0, 2^64), or null past the end. */
  function Scan(c: Suite, address: string, i: int, end: int): Result<Option<KeyInfo>>
    decreases end - i
  {
    if i > end then Ok(None)
    else if !(0 <= i < TWO_64) then Err(RANGE_ERROR)
    else if Hit(c, address, i) then Ok(Some(FoundAt(c, address, i)))
    else Scan(c, address, i + 1, end)
  }

  /** `bruteforceAddress(address, startRange, endRange)` */
  method BruteforceAddress(c: Suite, address: string, startRange: int, endRange: int)
    returns (r: Result<Option<KeyInfo>>)
    ensures r == Scan(c, address, startRange, endRange)
  {
    var i := startRange;
    while i <= endRange
      invariant startRange <= i
      invariant Scan(c, address, startRange, endRange) == Scan(c, address, i, endRange)
      decreases endRange - i
    {
      if !(0 <= i < TWO_64) {
        return Err(RANGE_ERROR);
      }
      var privateKey := BigEndian(i, 8) + Zeros(24);
      match c.keyPair(privateKey) {
        case None =>
        case Some(kp) =>
          if c.p2pkh(kp.publicKey) == address {
            DecodeToHex(privateKey);
            return Ok(Some(KeyInfo(ToHex(privateKey), kp.wif, ToHex(kp.publicKey), None, Some(BRUTEFORCE))));
          }
      }
      i := i + 1;
    }
    return Ok(None);
  }

  /** The scan returns the first hit in [start, end] when every counter up to
      it is in range. */
  lemma {:induction false} ScanFindsFirst(c: Suite, address: string, start: int, end: int, j: int)
    requires 0 <= start <= j <= end && Hit(c, address, j)
    requires forall k :: start <= k < j ==> !Hit(c, address, k)
    ensures Scan(c, address, start, end) == Ok(Some(FoundAt(c, address, j)))
    decreases j - start
  {
    if start < j {
      ScanFindsFirst(c, address, start + 1, end, j);
    }
  }

  /** Without a hit in an in-range window the scan returns null. */
  lemma {:induction false} ScanMisses(c: Suite, address: string, start: int, end: int)
    requires 0 <= start && end < TWO_64
    requires forall k :: start <= k <= end ==> !Hit(c, address, k)
    ensures Scan(c, address, start, end) == Ok(None)
    decreases end - start
  {
    if start <= end {
      ScanMisses(c, address, start + 1, end);
    }
  }

  /** What the scan returns is a hit in the window with no earlier hit. */
  lemma {:induction false} ScanSound(c: Suite, address: string, start: int, end: int)
    requires Scan(c, address, start, end).Ok? && Scan(c, address, start, end).value.Some?
    ensures exists j :: (&& start <= j <= end && Hit(c, address, j)
      && (forall k :: start <= k < j ==> !Hit(c, address, k))
      && Scan(c, address, start, end).value.value == FoundAt(c, address, j))
    decreases end - start
  {
    if Hit(c, address, start) {
      assert Scan(c, address, start, end).value.value == FoundAt(c, address, start);
    } else {
      ScanSound(c, address, start + 1, end);
      var j :| && start + 1 <= j <= end && Hit(c, address, j)
        && (forall k :: start + 1 <= k < j ==> !Hit(c, address, k))
        && Scan(c, address, start + 1, end).value.value == FoundAt(c, address, j);
      assert forall k :: start <= k < j ==> !Hit(c, address, k);
    }
  }

  /** An empty window (start past end) tries no candidate and returns null. */
  lemma EmptyWindow(c: Suite, address: string, start: int, end: int)
    requires start > end
    ensures Scan(c, address, start, end) == Ok(None)
  {
  }

  /** A negative start throws before any candidate is tried. */
  lemma NegativeStartThrows(c: Suite, address: string, start: int, end: int)
    requires start < 0 && start <= end
    ensures Scan(c, address, start, end) == Err(RANGE_ERROR)
  {
  }

  /** A start of 2^64 or more throws at the first counter, before any
      candidate is tried. */
  lemma HugeStartThrows(c: Suite, address: string, start: int, end: int)
    requires TWO_64 <= start <= end
    ensures Scan(c, address, start, end) == Err(RANGE_ERROR)
  {
  }

  /** A found key verifies against the target address. */
  lemma FoundVerifies(c: Suite, address: string, i: int)
    requires Hit(c, address, i)
    ensures VerifyPrivateKey(c, FoundAt(c, address, i).privateKey, address).isValid
  {
  }

  /** A window inside [0, 2^64) never throws. */
  lemma {:induction false} ScanInRange(c: Suite, address: string, start: int, end: int)
    requires 0 <= start && end < TWO_64
    ensures Scan(c, address, start, end).Ok?
    decreases end - start
  {
    if start <= end && !Hit(c, address, start) {
      ScanInRange(c, address, start + 1, end);
    }
  }
}
