/** The byte histograms of src/ai/patternAnalyzer.js and
    src/ai/patternLearner.js: `Buffer.from(address)` UTF-8 encodes the
    string, and every byte b increments bucket `b % m` of an m-bucket
    array (m = 29 and m = 256). */
module Histogram {
  import opened Common

  /** The UTF-8 encoding of one scalar value, as `Buffer.from` writes it. */
  function Utf8Char(ch: char): (r: seq<Byte>)
    ensures 1 <= |r| <= 4
    ensures ch as int < 0x80 <==> |r| == 1
    ensures ch as int < 0x80 ==> r == [ch as int]
    // the lead byte announces the length, the rest are continuation bytes
    ensures |r| == 2 <==> 0xC0 <= r[0] < 0xE0
    ensures |r| == 3 <==> 0xE0 <= r[0] < 0xF0
    ensures |r| == 4 <==> 0xF0 <= r[0] < 0xF8
    ensures forall i :: 1 <= i < |r| ==> 0x80 <= r[i] < 0xC0
  {
    var c := ch as int;
    if c < 0x80 then [c]
    else if c < 0x800 then [0xC0 + c / 64, 0x80 + c % 64]
    else if c < 0x10000 then [0xE0 + c / 4096, 0x80 + (c / 64) % 64, 0x80 + c % 64]
    else [0xF0 + c / 262144, 0x80 + (c / 4096) % 64, 0x80 + (c / 64) % 64, 0x80 + c % 64]
  }

  /** `Buffer.from(s)`: the encodings of the characters, in order. */
  function Utf8(s: string): (r: seq<Byte>)
    ensures |s| <= |r| <= 4 * |s|
  {
    if s == [] then [] else Utf8(s[..|s| - 1]) + Utf8Char(s[|s| - 1])
  }

  /** An ASCII string encodes to one byte per character, the character's code. */
  lemma {:induction false} Utf8Ascii(s: string)
    requires forall i :: 0 <= i < |s| ==> s[i] as int < 0x80
    ensures |Utf8(s)| == |s|
    ensures forall i :: 0 <= i < |s| ==> Utf8(s)[i] == s[i] as int
  {
    if s != [] {
      Utf8Ascii(s[..|s| - 1]);
    }
  }

  /** How many bytes fall into bucket k of m buckets. */
  function Count(bytes: seq<Byte>, m: nat, k: int): (n: nat)
    requires m > 0
    ensures n <= |bytes|
  {
    if bytes == [] then 0
    else Count(bytes[..|bytes| - 1], m, k) + (if bytes[|bytes| - 1] % m == k then 1 else 0)
  }

  /** The reference histogram: bucket k holds the count of bytes with b % m == k. */
  function Buckets(bytes: seq<Byte>, m: nat): (h: seq<int>)
    requires m > 0
    ensures |h| == m
    ensures forall k :: 0 <= k < m ==> h[k] == Count(bytes, m, k)
  {
    seq(m, k => Count(bytes, m, k))
  }

  function Sum(xs: seq<int>): int
  {
    if xs == [] then 0 else Sum(xs[..|xs| - 1]) + xs[|xs| - 1]
  }

  /** Incrementing one entry adds one to the sum. */
  lemma {:induction false} SumBump(xs: seq<int>, j: nat)
    requires j < |xs|
    ensures Sum(xs[j := xs[j] + 1]) == Sum(xs) + 1
  {
    var n := |xs| - 1;
    var ys := xs[j := xs[j] + 1];
    assert ys[..n] == if j < n then xs[..n][j := xs[j] + 1] else xs[..n];
    if j < n {
      SumBump(xs[..n], j);
    }
  }

  /** One more byte increments exactly its own bucket. */
  lemma BucketsSnoc(bytes: seq<Byte>, m: nat, b: Byte)
    requires m > 0
    ensures Buckets(bytes + [b], m) == Buckets(bytes, m)[b % m := Buckets(bytes, m)[b % m] + 1]
  {
    assert (bytes + [b])[..|bytes|] == bytes;
  }

  lemma BucketsEmpty(m: nat)
    requires m > 0
    ensures Buckets([], m) == seq(m, _ => 0)
  {
  }

  /** Every byte lands in exactly one bucket: the counts sum to the byte length. */
  lemma {:induction false} BucketsSum(bytes: seq<Byte>, m: nat)
    requires m > 0
    ensures Sum(Buckets(bytes, m)) == |bytes|
  {
    if bytes == [] {
      ZeroSum(m);
      BucketsEmpty(m);
    } else {
      var n := |bytes| - 1;
      assert bytes == bytes[..n] + [bytes[n]];
      BucketsSum(bytes[..n], m);
      BucketsSnoc(bytes[..n], m, bytes[n]);
      SumBump(Buckets(bytes[..n], m), bytes[n] % m);
    }
  }

  lemma {:induction false} ZeroSum(m: nat)
    ensures Sum(seq(m, _ => 0)) == 0
  {
    if m > 0 {
      assert seq(m, _ => 0)[..m - 1] == seq(m - 1, _ => 0);
      ZeroSum(m - 1);
    }
  }

  /** Bucket k counts exactly the positions whose byte is k modulo m. */
  lemma {:induction false} CountPositions(bytes: seq<Byte>, m: nat, k: int)
    requires m > 0
    ensures Count(bytes, m, k) == |set i | 0 <= i < |bytes| && bytes[i] % m == k|
  {
    if bytes != [] {
      var n := |bytes| - 1;
      CountPositions(bytes[..n], m, k);
      var before := set i | 0 <= i < n && bytes[..n][i] % m == k;
      var all := set i | 0 <= i < |bytes| && bytes[i] % m == k;
      assert all == before + (if bytes[n] % m == k then {n} else {});
    }
  }

  /** With 256 buckets each byte value is its own bucket. */
  lemma ByteBuckets(bytes: seq<Byte>, k: Byte)
    ensures Count(bytes, 256, k) == |set i | 0 <= i < |bytes| && bytes[i] == k|
  {
    CountPositions(bytes, 256, k);
    assert (set i | 0 <= i < |bytes| && bytes[i] % 256 == k) == (set i | 0 <= i < |bytes| && bytes[i] == k);
  }

  /** The counting loop: `new Array(m).fill(0)`, then `distribution[b % m]++`
      for each byte in order. */
  method Distribution(bytes: seq<Byte>, m: nat) returns (d: seq<int>)
    requires m > 0
    ensures d == Buckets(bytes, m)
  {
    var dist := new int[m](_ => 0);
    BucketsEmpty(m);
    var i := 0;
    while i < |bytes|
      invariant i <= |bytes|
      invariant dist[..] == Buckets(bytes[..i], m)
    {
      var b := bytes[i];
      assert bytes[..i + 1] == bytes[..i] + [b];
      BucketsSnoc(bytes[..i], m, b);
      dist[b % m] := dist[b % m] + 1;
      i := i + 1;
    }
    assert bytes[..i] == bytes;
    return dist[..];
  }
}
