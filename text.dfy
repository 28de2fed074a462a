/** String operations the source takes from JavaScript: `split` on one
    character, `join`, `${n}` for integers and `toString('hex')`. */
module Text {
  import opened Common

  /** `s.split(c)` for a one-character separator. */
  function Split(s: string, c: char): (parts: seq<string>)
    ensures |parts| >= 1
  {
    if s == [] then [[]]
    else
      var rest := Split(s[1..], c);
      if s[0] == c then [[]] + rest else [[s[0]] + rest[0]] + rest[1..]
  }

  /** `parts.join(sep)`. */
  function Join(parts: seq<string>, sep: string): string
  {
    if parts == [] then []
    else if |parts| == 1 then parts[0]
    else parts[0] + sep + Join(parts[1..], sep)
  }

  /** Splitting loses nothing: the pieces hold no separator and joining
      them back with it gives the input. */
  lemma {:induction false} SplitJoin(s: string, c: char)
    ensures Join(Split(s, c), [c]) == s
    ensures forall k :: 0 <= k < |Split(s, c)| ==> c !in Split(s, c)[k]
  {
    if s != [] {
      var rest := Split(s[1..], c);
      SplitJoin(s[1..], c);
      if s[0] == c {
        assert Split(s, c) == [[]] + rest;
        assert Split(s, c)[1..] == rest;
        assert s == [] + [c] + s[1..];
      } else {
        var parts := Split(s, c);
        assert parts == [[s[0]] + rest[0]] + rest[1..];
        if |rest| == 1 {
          assert s == [s[0]] + rest[0];
        } else {
          assert Join(rest, [c]) == rest[0] + [c] + Join(rest[1..], [c]);
          assert parts[1..] == rest[1..];
          assert s == [s[0]] + s[1..];
        }
        forall k | 0 <= k < |parts| ensures c !in parts[k] {
          if k > 0 { assert parts[k] == rest[k]; }
        }
      }
    }
  }

  /** The other direction: separator-free pieces are recovered by splitting
      their join. */
  lemma {:induction false} JoinSplit(parts: seq<string>, c: char)
    requires |parts| >= 1
    requires forall k :: 0 <= k < |parts| ==> c !in parts[k]
    ensures Split(Join(parts, [c]), c) == parts
  {
    if |parts| == 1 {
      NoSeparatorSplit(parts[0], c);
    } else {
      var tail := Join(parts[1..], [c]);
      JoinSplit(parts[1..], c);
      SplitPrefix(parts[0], c, tail);
      assert [parts[0]] + parts[1..] == parts;
    }
  }

  lemma {:induction false} NoSeparatorSplit(s: string, c: char)
    requires c !in s
    ensures Split(s, c) == [s]
  {
    if s != [] {
      NoSeparatorSplit(s[1..], c);
      assert [s[0]] + s[1..] == s;
    }
  }

  lemma {:induction false} SplitPrefix(p: string, c: char, t: string)
    requires c !in p
    ensures Split(p + [c] + t, c) == [p] + Split(t, c)
  {
    if p == [] {
      assert ([] + [c] + t)[1..] == t;
    } else {
      assert (p + [c] + t)[1..] == p[1..] + [c] + t;
      SplitPrefix(p[1..], c, t);
      assert [p[0]] + p[1..] == p;
    }
  }

  // ---- decimal integers, as `${n}` prints a safe integer ----

  function DigitChar(d: int): char
    requires 0 <= d < 10
  {
    ['0','1','2','3','4','5','6','7','8','9'][d]
  }

  predicate IsDigit(ch: char) { '0' <= ch <= '9' }

  function DigitValue(ch: char): int
    requires IsDigit(ch)
  {
    ch as int - '0' as int
  }

  function NatToString(n: nat): (s: string)
    ensures |s| >= 1
    ensures forall k :: 0 <= k < |s| ==> IsDigit(s[k])
    decreases n
  {
    if n < 10 then [DigitChar(n)] else NatToString(n / 10) + [DigitChar(n % 10)]
  }

  /** `${n}` for an integer: an optional minus sign and its digits. */
  function IntToString(n: int): string
  {
    if n < 0 then "-" + NatToString(-n) else NatToString(n)
  }

  /** The value of a string of digits. */
  function DigitsValue(s: string): nat
    requires forall k :: 0 <= k < |s| ==> IsDigit(s[k])
  {
    if s == [] then 0 else DigitsValue(s[..|s| - 1]) * 10 + DigitValue(s[|s| - 1])
  }

  /** Reads back what IntToString writes; None for anything else. */
  function ParseInt(s: string): Option<int>
  {
    if |s| >= 2 && s[0] == '-' && (forall k :: 1 <= k < |s| ==> IsDigit(s[k])) then
      var v: int := DigitsValue(s[1..]); Some(-v)
    else if |s| >= 1 && (forall k :: 0 <= k < |s| ==> IsDigit(s[k])) then
      Some(DigitsValue(s))
    else None
  }

  lemma {:induction false} NatToStringValue(n: nat)
    ensures DigitsValue(NatToString(n)) == n
    decreases n
  {
    if n >= 10 {
      var s := NatToString(n);
      NatToStringValue(n / 10);
      assert s[..|s| - 1] == NatToString(n / 10);
    }
  }

  /** Decimal printing is inverted by ParseInt, so distinct integers print
      differently. */
  lemma IntToStringRoundTrip(n: int)
    ensures ParseInt(IntToString(n)) == Some(n)
  {
    if n < 0 {
      var m: nat := -n;
      assert IntToString(n) == "-" + NatToString(m);
      NegativeRoundTrip(m);
    } else {
      assert IntToString(n) == NatToString(n);
      NatRoundTrip(n);
    }
  }

  lemma NatRoundTrip(n: nat)
    ensures ParseInt(NatToString(n)) == Some(n)
  {
    var s := NatToString(n);
    assert !IsDigit('-') && IsDigit(s[0]);
    NatToStringValue(n);
  }

  lemma NegativeRoundTrip(m: nat)
    ensures ParseInt("-" + NatToString(m)) == Some(-(m as int))
  {
    var s := "-" + NatToString(m);
    assert s[1..] == NatToString(m);
    assert forall k :: 1 <= k < |s| ==> IsDigit(s[k]) by {
      assert forall k :: 1 <= k < |s| ==> s[k] == NatToString(m)[k - 1];
    }
    NatToStringValue(m);
  }

  lemma IntToStringInjective(m: int, n: int)
    requires IntToString(m) == IntToString(n)
    ensures m == n
  {
    IntToStringRoundTrip(m);
    IntToStringRoundTrip(n);
  }

  // ---- lower-case hexadecimal, as Buffer.toString('hex') writes it ----

  function HexDigit(d: int): char
    requires 0 <= d < 16
  {
    ['0','1','2','3','4','5','6','7','8','9','a','b','c','d','e','f'][d]
  }

  function HexValue(ch: char): Option<int>
  {
    if '0' <= ch <= '9' then Some(ch as int - '0' as int)
    else if 'a' <= ch <= 'f' then Some(ch as int - 'a' as int + 10)
    else None
  }

  function ToHex(bytes: seq<Byte>): (h: string)
    ensures |h| == 2 * |bytes|
  {
    if bytes == [] then []
    else [HexDigit(bytes[0] / 16), HexDigit(bytes[0] % 16)] + ToHex(bytes[1..])
  }

  /** The inverse of ToHex; None on an odd length or a non-hex character. */
  function FromHex(h: string): Option<seq<Byte>>
    decreases |h|
  {
    if h == [] then Some([])
    else if |h| == 1 then None
    else match (HexValue(h[0]), HexValue(h[1]), FromHex(h[2..]))
      case (Some(hi), Some(lo), Some(rest)) => Some([hi * 16 + lo] + rest)
      case _ => None
  }

  lemma HexDigitValue(d: int)
    requires 0 <= d < 16
    ensures HexValue(HexDigit(d)) == Some(d)
  {
    var digits := ['0','1','2','3','4','5','6','7','8','9','a','b','c','d','e','f'];
    assert HexDigit(d) == digits[d];
    if d < 10 {
      assert digits[d] as int == '0' as int + d;
    } else {
      assert digits[d] as int == 'a' as int + d - 10;
    }
  }

  lemma {:induction false} HexRoundTrip(bytes: seq<Byte>)
    ensures FromHex(ToHex(bytes)) == Some(bytes)
  {
    if bytes != [] {
      var b := bytes[0];
      var h := ToHex(bytes);
      var hi, lo := b / 16, b % 16;
      assert h == [HexDigit(hi), HexDigit(lo)] + ToHex(bytes[1..]);
      assert h[2..] == ToHex(bytes[1..]);
      HexDigitValue(hi);
      HexDigitValue(lo);
      HexRoundTrip(bytes[1..]);
      assert hi * 16 + lo == b;
      assert [b] + bytes[1..] == bytes;
    }
  }

  /** Every character ToHex writes is a lower-case hexadecimal digit. */
  lemma {:induction false} ToHexLowerCase(bytes: seq<Byte>)
    ensures forall k :: 0 <= k < |ToHex(bytes)| ==> HexValue(ToHex(bytes)[k]).Some?
  {
    if bytes != [] {
      ToHexLowerCase(bytes[1..]);
      var h := ToHex(bytes);
      forall k | 0 <= k < |h| ensures HexValue(h[k]).Some? {
        if k >= 2 { assert h[k] == ToHex(bytes[1..])[k - 2]; }
      }
    }
  }
}
