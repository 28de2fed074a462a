/** src/utils/errorTracker.js: error records keyed by analysis id, and error
    patterns keyed by type and normalised message, each pruned by age. The
    regular expressions of the source are written out as scanners over the
    string. `now` is the clock reading (`Date.now()` / `new Date()`) in ms. */
module ErrorTracker {
  import opened Common
  import opened Text
  import opened Config

  // ---- normalizeErrorMessage ----

  predicate NoDigits(s: string)
  {
    forall k :: 0 <= k < |s| ==> !IsDigit(s[k])
  }

  /** `s` without its leading run of digits. */
  function DropDigits(s: string): (r: string)
    ensures |r| <= |s| && r == s[|s| - |r|..]
    ensures r != [] ==> !IsDigit(r[0])
    ensures forall k :: 0 <= k < |s| - |r| ==> IsDigit(s[k])
  {
    if s != [] && IsDigit(s[0]) then DropDigits(s[1..]) else s
  }

  /** `.replace(/[0-9]+/g, 'N')`: every maximal run of digits becomes N. */
  function ReplaceDigits(s: string): (r: string)
    ensures NoDigits(r)
    decreases |s|
  {
    if s == [] then []
    else if IsDigit(s[0]) then "N" + ReplaceDigits(DropDigits(s))
    else [s[0]] + ReplaceDigits(s[1..])
  }

  predicate IsHexChar(ch: char)
  {
    IsDigit(ch) || ('a' <= ch <= 'f') || ('A' <= ch <= 'F')
  }

  /** Length of the leading run of hexadecimal characters. */
  function HexRun(s: string): (n: nat)
    ensures n <= |s|
  {
    if s != [] && IsHexChar(s[0]) then 1 + HexRun(s[1..]) else 0
  }

  /** `.replace(/0x[a-fA-F0-9]+/g, 'ADDR')` */
  function ReplaceHex(s: string): string
    decreases |s|
  {
    if |s| >= 3 && s[0] == '0' && s[1] == 'x' && HexRun(s[2..]) > 0 then
      "ADDR" + ReplaceHex(s[2 + HexRun(s[2..])..])
    else if s == [] then []
    else [s[0]] + ReplaceHex(s[1..])
  }

  /** The characters `.` does not match. */
  predicate IsLineTerminator(ch: char)
  {
    ch == '\n' || ch == '\r' || ch == '\U{2028}' || ch == '\U{2029}'
  }

  /** Scanning the body of a literal opened by quote `q`, from index i: the
      index just past the first closing `q`, stepping over a backslash and
      the character after it; None if a line terminator or the end comes
      first. This is `(?:(?=(\\?))\2.)*?\1` with its atomic lookahead. */
  function QuotedEnd(s: string, q: char, i: nat): (r: Option<nat>)
    requires q != '\\'
    ensures r.Some? ==> i < r.value <= |s| && s[r.value - 1] == q
    decreases |s| - i
  {
    if i >= |s| then None
    else if s[i] == q then Some(i + 1)
    else if IsLineTerminator(s[i]) then None
    else if s[i] == '\\' then
      if i + 1 < |s| && !IsLineTerminator(s[i + 1]) then QuotedEnd(s, q, i + 2) else None
    else QuotedEnd(s, q, i + 1)
  }

  predicate IsQuote(ch: char) { ch == '"' || ch == '\'' }

  /** `.replace(/(["'])(?:(?=(\\?))\2.)*?\1/g, 'STR')` */
  function ReplaceStrings(s: string): string
    decreases |s|
  {
    if s == [] then []
    else if IsQuote(s[0]) && QuotedEnd(s, s[0], 1).Some? then
      "STR" + ReplaceStrings(s[QuotedEnd(s, s[0], 1).value..])
    else [s[0]] + ReplaceStrings(s[1..])
  }

  /** `normalizeErrorMessage(message)`: the three rewrites in source order. */
  function NormalizeErrorMessage(message: string): string
  {
    ReplaceStrings(ReplaceHex(ReplaceDigits(message)))
  }

  // ---- extractKeyStackFrames / normalizeStackFrame ----

  /** `t` occurs in `s` at index j. */
  predicate OccursAt(s: string, t: string, j: nat)
  {
    j + |t| <= |s| && s[j..j + |t|] == t
  }

  /** The first index from i where `t` occurs in `s`. */
  function IndexOf(s: string, t: string, i: nat): (r: Option<nat>)
    requires t != []
    ensures r.Some? ==> i <= r.value && OccursAt(s, t, r.value)
    ensures r.Some? ==> forall j: nat :: i <= j < r.value ==> !OccursAt(s, t, j)
    ensures r.None? ==> forall j: nat :: i <= j ==> !OccursAt(s, t, j)
    decreases |s| - i
  {
    if i + |t| > |s| then None
    else if s[i..i + |t|] == t then Some(i)
    else IndexOf(s, t, i + 1)
  }

  /** The last index in [lo, hi) where `t` occurs in `s`. */
  function LastIndexOf(s: string, t: string, lo: nat, hi: nat): (r: Option<nat>)
    requires t != []
    ensures r.Some? ==> lo <= r.value < hi && OccursAt(s, t, r.value)
    ensures r.Some? ==> forall j: nat :: r.value < j < hi ==> !OccursAt(s, t, j)
    ensures r.None? ==> forall j: nat :: lo <= j < hi ==> !OccursAt(s, t, j)
    decreases hi
  {
    if hi <= lo then None
    else if OccursAt(s, t, hi - 1) then Some(hi - 1)
    else LastIndexOf(s, t, lo, hi - 1)
  }

  predicate NoLineTerminator(s: string)
  {
    forall k :: 0 <= k < |s| ==> !IsLineTerminator(s[k])
  }

  /** Where `/at .+ \((.*)\)/` matches at position i: the greedy `.+` ends
      at the last " (" that still has a ")" after it, and the greedy `.*`
      runs to the last ")". Returns the indices of " (" and of ")". */
  function FrameMatchAt(s: string, i: nat): (r: Option<(nat, nat)>)
    ensures r.Some? ==> i + 4 <= r.value.0 && r.value.0 + 2 <= r.value.1 < |s|
  {
    if i + 3 > |s| || s[i..i + 3] != "at " then None
    else
      // `.` never crosses a line terminator
      var line := LineEnd(s, i);
      match LastIndexOf(s[..line], ")", 0, line)
      case None => None
      case Some(close) =>
        match LastIndexOf(s[..close], " (", i + 4, close)
        case None => None
        case Some(open) => Some((open, close))
  }

  /** The end of the line containing position i. */
  function LineEnd(s: string, i: nat): (e: nat)
    requires i <= |s|
    ensures i <= e <= |s| && NoLineTerminator(s[i..e]) && (e < |s| ==> IsLineTerminator(s[e]))
    decreases |s| - i
  {
    if i == |s| || IsLineTerminator(s[i]) then i
    else
      var e := LineEnd(s, i + 1);
      assert s[i..e] == [s[i]] + s[i + 1..e];
      e
  }

  /** The leftmost position from i where the frame pattern matches. */
  function FirstFrameMatch(s: string, i: nat): (r: Option<(nat, nat, nat)>)
    ensures r.Some? ==> i <= r.value.0 && r.value.0 + 4 <= r.value.1 && r.value.1 + 2 <= r.value.2 < |s|
    decreases |s| - i
  {
    if i >= |s| then None
    else match FrameMatchAt(s, i)
      case Some((open, close)) => Some((i, open, close))
      case None => FirstFrameMatch(s, i + 1)
  }

  /** `.replace(/at .+ \((.*)\)/, '$1')`: the first match becomes the text
      inside its parentheses. */
  function ExtractPath(frame: string): string
  {
    match FirstFrameMatch(frame, 0)
    case None => frame
    case Some((start, open, close)) => frame[..start] + frame[open + 2..close] + frame[close + 1..]
  }

  /** Length of the leading run of ASCII digits. */
  function DigitRun(s: string): (n: nat)
    ensures n <= |s|
  {
    if s != [] && IsDigit(s[0]) then 1 + DigitRun(s[1..]) else 0
  }

  /** The length of a `:\d+:\d+` match at the start of s, or 0. */
  function LineColLength(s: string): (n: nat)
    ensures n <= |s|
  {
    if s == [] || s[0] != ':' then 0
    else
      var a := DigitRun(s[1..]);
      if a == 0 || 1 + a >= |s| || s[1 + a] != ':' then 0
      else
        var b := DigitRun(s[2 + a..]);
        if b == 0 then 0 else 2 + a + b
  }

  /** `.replace(/:\d+:\d+/g, '')` */
  function RemoveLineCol(s: string): string
    decreases |s|
  {
    if s == [] then []
    else if LineColLength(s) > 0 then RemoveLineCol(s[LineColLength(s)..])
    else [s[0]] + RemoveLineCol(s[1..])
  }

  const NODE_MODULES: string := "/node_modules/"

  /** Where `/\/[^/]+\/node_modules\//` matches at i: a slash, a non-empty
      segment without slashes, then "/node_modules/". Returns the match's end. */
  function NodeModulesAt(s: string, i: nat): (r: Option<nat>)
    ensures r.Some? ==> i < r.value <= |s|
  {
    if i >= |s| || s[i] != '/' then None
    else match IndexOf(s, "/", i + 1)
      case None => None
      case Some(j) =>
        if j > i + 1 && j + |NODE_MODULES| <= |s| && s[j..j + |NODE_MODULES|] == NODE_MODULES
        then Some(j + |NODE_MODULES|) else None
  }

  function FirstNodeModules(s: string, i: nat): (r: Option<(nat, nat)>)
    ensures r.Some? ==> i <= r.value.0 < r.value.1 <= |s|
    decreases |s| - i
  {
    if i >= |s| then None
    else match NodeModulesAt(s, i)
      case Some(e) => Some((i, e))
      case None => FirstNodeModules(s, i + 1)
  }

  /** `.replace(/\/[^/]+\/node_modules\//, 'node_modules/')` */
  function ShortenNodeModules(s: string): string
  {
    match FirstNodeModules(s, 0)
    case None => s
    case Some((i, e)) => s[..i] + "node_modules/" + s[e..]
  }

  /** `normalizeStackFrame(frame)` */
  function NormalizeStackFrame(frame: string): string
  {
    ShortenNodeModules(RemoveLineCol(ExtractPath(frame)))
  }

  /** `extractKeyStackFrames(stack)`; None stands for a missing stack. */
  function ExtractKeyStackFrames(stack: Option<string>): (frames: seq<string>)
    ensures stack.None? || stack == Some([]) ==> frames == []
    ensures stack.Some? && stack.value != [] ==>
      var lines := Split(stack.value, '\n');
      && |frames| == Min(3, |lines|)
      && forall i :: 0 <= i < |frames| ==> frames[i] == NormalizeStackFrame(lines[i])
  {
    if stack.None? || stack.value == [] then []
    else
      var lines := Split(stack.value, '\n');
      var first := lines[..Min(3, |lines|)];
      seq(|first|, i requires 0 <= i < |first| => NormalizeStackFrame(first[i]))
  }

  // ---- facts about the normalisation ----

  /** Without digits there is no "0x", so the hex rule changes nothing. */
  lemma {:induction false} HexRuleInert(s: string)
    requires NoDigits(s)
    ensures ReplaceHex(s) == s
    decreases |s|
  {
    if s != [] {
      assert !IsDigit(s[0]);
      HexRuleInert(s[1..]);
    }
  }

  /** The string rule inserts "STR" and keeps other characters, so it adds
      no digit. */
  lemma {:induction false} StringRuleNoDigits(s: string)
    requires NoDigits(s)
    ensures NoDigits(ReplaceStrings(s))
    decreases |s|
  {
    if s != [] {
      if IsQuote(s[0]) && QuotedEnd(s, s[0], 1).Some? {
        var e := QuotedEnd(s, s[0], 1).value;
        StringRuleNoDigits(s[e..]);
      } else {
        StringRuleNoDigits(s[1..]);
      }
    }
  }

  /** A normalised message contains no digit, and the hex rule never fires. */
  lemma NormalizedHasNoDigits(message: string)
    ensures NoDigits(NormalizeErrorMessage(message))
    ensures NormalizeErrorMessage(message) == ReplaceStrings(ReplaceDigits(message))
  {
    HexRuleInert(ReplaceDigits(message));
    StringRuleNoDigits(ReplaceDigits(message));
  }

  /** Digits go first, so a hex literal keeps its letters: "0x1F" is "NxNF". */
  lemma HexLiteralExample()
    ensures NormalizeErrorMessage("0x1F") == "NxNF"
  {
    AlternatingNormalizes("0x1F");
  }

  /** An illustration of the digit rule: digit, other, digit, other, with no
      quote; the digits become N and nothing else changes. */
  lemma AlternatingNormalizes(s: string)
    requires |s| == 4 && IsDigit(s[0]) && !IsDigit(s[1]) && IsDigit(s[2]) && !IsDigit(s[3])
    requires !IsQuote(s[1]) && !IsQuote(s[3])
    ensures NormalizeErrorMessage(s) == ['N', s[1], 'N', s[3]]
  {
    var t := ['N', s[1], 'N', s[3]];
    assert ReplaceDigits(s) == t by {
      AlternatingDigits(s);
    }
    assert NormalizeErrorMessage(s) == ReplaceStrings(t) by {
      NormalizedHasNoDigits(s);
    }
    assert ReplaceStrings(t) == t by {
      NoQuoteUnchanged(t);
    }
  }

  /** Digit, other, digit, other: each digit becomes its own N. */
  lemma AlternatingDigits(s: string)
    requires |s| == 4 && IsDigit(s[0]) && !IsDigit(s[1]) && IsDigit(s[2]) && !IsDigit(s[3])
    ensures ReplaceDigits(s) == ['N', s[1], 'N', s[3]]
  {
    DigitThenOther(s[..2]);
    DigitThenOther(s[2..]);
    ReplaceDigitsAppend(s[..2], s[2..]);
    assert s == s[..2] + s[2..];
  }

  lemma DigitThenOther(s: string)
    requires |s| == 2 && IsDigit(s[0]) && !IsDigit(s[1])
    ensures ReplaceDigits(s) == ['N', s[1]]
  {
    DigitFreeUnchanged([s[1]]);
    RunAtStart([s[0]], [s[1]]);
    assert s == [s[0]] + [s[1]];
  }

  /** The digit rule leaves a string without digits alone. */
  lemma {:induction false} DigitFreeUnchanged(s: string)
    requires NoDigits(s)
    ensures ReplaceDigits(s) == s
  {
    if s != [] {
      DigitFreeUnchanged(s[1..]);
    }
  }

  /** Without quote characters the string rule changes nothing. */
  lemma {:induction false} NoQuoteUnchanged(s: string)
    requires forall k :: 0 <= k < |s| ==> !IsQuote(s[k])
    ensures ReplaceStrings(s) == s
  {
    if s != [] {
      NoQuoteUnchanged(s[1..]);
    }
  }

  predicate AllDigits(s: string)
  {
    forall k :: 0 <= k < |s| ==> IsDigit(s[k])
  }

  lemma {:induction false} DropDigitsRun(d: string, r: string)
    requires AllDigits(d)
    requires r == [] || !IsDigit(r[0])
    ensures DropDigits(d + r) == r
  {
    if d != [] {
      assert (d + r)[1..] == d[1..] + r;
      DropDigitsRun(d[1..], r);
    }
  }

  lemma {:induction false} DropDigitsPrefix(p: string, x: string)
    requires p != [] && !IsDigit(p[|p| - 1])
    ensures DropDigits(p + x) == DropDigits(p) + x
    ensures DropDigits(p) != [] && !IsDigit(DropDigits(p)[|DropDigits(p)| - 1])
  {
    assert (p + x)[0] == p[0];
    if IsDigit(p[0]) {
      assert (p + x)[1..] == p[1..] + x;
      assert p[1..][|p[1..]| - 1] == p[|p| - 1];
      DropDigitsPrefix(p[1..], x);
      assert DropDigits(p + x) == DropDigits(p[1..] + x);
    }
  }

  /** The digit rule works piecewise across a boundary that does not split a
      digit run. */
  lemma {:induction false} ReplaceDigitsAppend(p: string, y: string)
    requires p == [] || !IsDigit(p[|p| - 1])
    ensures ReplaceDigits(p + y) == ReplaceDigits(p) + ReplaceDigits(y)
    decreases |p|, 1
  {
    if p == [] {
      assert p + y == y;
    } else if !IsDigit(p[0]) {
      AppendAfterOther(p, y);
    } else {
      AppendAfterRun(p, y);
    }
  }

  lemma {:induction false} AppendAfterOther(p: string, y: string)
    requires p != [] && !IsDigit(p[0]) && !IsDigit(p[|p| - 1])
    ensures ReplaceDigits(p + y) == ReplaceDigits(p) + ReplaceDigits(y)
    decreases |p|, 0
  {
    StepOther(p, y);
    ReplaceDigitsAppend(p[1..], y);
    var a, b := ReplaceDigits(p[1..]), ReplaceDigits(y);
    assert ReplaceDigits(p) == [p[0]] + a;
    ConcatAssoc([p[0]], a, b);
  }

  lemma {:induction false} AppendAfterRun(p: string, y: string)
    requires p != [] && IsDigit(p[0]) && !IsDigit(p[|p| - 1])
    ensures ReplaceDigits(p + y) == ReplaceDigits(p) + ReplaceDigits(y)
    decreases |p|, 0
  {
    var q := DropDigits(p);
    var a, b := ReplaceDigits(q), ReplaceDigits(y);
    assert |q| < |p| && (q == [] || !IsDigit(q[|q| - 1])) && ReplaceDigits(p + y) == "N" + ReplaceDigits(q + y) by {
      StepRun(p, y);
    }
    assert ReplaceDigits(q + y) == a + b by {
      ReplaceDigitsAppend(q, y);
    }
    assert ReplaceDigits(p) == "N" + a by {
      UnfoldRun(p);
    }
    ConcatAssoc("N", a, b);
  }

  lemma UnfoldRun(p: string)
    requires p != [] && IsDigit(p[0])
    ensures ReplaceDigits(p) == "N" + ReplaceDigits(DropDigits(p))
  {
  }

  /** One character that is not a digit passes through. */
  lemma StepOther(p: string, y: string)
    requires p != [] && !IsDigit(p[0]) && !IsDigit(p[|p| - 1])
    ensures ReplaceDigits(p + y) == [p[0]] + ReplaceDigits(p[1..] + y)
    ensures p[1..] == [] || !IsDigit(p[1..][|p[1..]| - 1])
  {
    assert (p + y)[0] == p[0];
    assert (p + y)[1..] == p[1..] + y;
    assert p[1..] == [] || p[1..][|p[1..]| - 1] == p[|p| - 1];
  }

  /** A leading digit run that ends inside p becomes one N. */
  lemma StepRun(p: string, y: string)
    requires p != [] && IsDigit(p[0]) && !IsDigit(p[|p| - 1])
    ensures ReplaceDigits(p + y) == "N" + ReplaceDigits(DropDigits(p) + y)
    ensures |DropDigits(p)| < |p| && DropDigits(p) != [] && !IsDigit(DropDigits(p)[|DropDigits(p)| - 1])
  {
    assert (p + y)[0] == p[0];
    DropDigitsPrefix(p, y);
  }

  lemma RunAtStart(d: string, r: string)
    requires d != [] && AllDigits(d)
    requires r == [] || !IsDigit(r[0])
    ensures ReplaceDigits(d + r) == "N" + ReplaceDigits(r)
  {
    DropDigitsRun(d, r);
  }

  /** Where a maximal digit run sits after a non-digit, it stands as one N. */
  lemma RunInside(p: string, d: string, r: string)
    requires d != [] && AllDigits(d)
    requires p == [] || !IsDigit(p[|p| - 1])
    requires r == [] || !IsDigit(r[0])
    ensures ReplaceDigits(p + d + r) == ReplaceDigits(p) + "N" + ReplaceDigits(r)
  {
    assert ReplaceDigits(p + (d + r)) == ReplaceDigits(p) + ReplaceDigits(d + r) by {
      ReplaceDigitsAppend(p, d + r);
    }
    assert ReplaceDigits(d + r) == "N" + ReplaceDigits(r) by {
      RunAtStart(d, r);
    }
    ConcatAssoc(p, d, r);
    ConcatAssoc(ReplaceDigits(p), "N", ReplaceDigits(r));
  }

  /** Messages that differ only in the value of one digit run (both runs
      non-empty and maximal) normalise to the same digit skeleton. */
  lemma DigitRunIrrelevant(p: string, d: string, d': string, r: string)
    requires d != [] && d' != [] && AllDigits(d) && AllDigits(d')
    requires p == [] || !IsDigit(p[|p| - 1])
    requires r == [] || !IsDigit(r[0])
    ensures ReplaceDigits(p + d + r) == ReplaceDigits(p + d' + r)
  {
    RunInside(p, d, r);
    RunInside(p, d', r);
  }

  /** Hence the whole normalisation ignores the run's value. */
  lemma DigitRunNormalizes(p: string, d: string, d': string, r: string)
    requires d != [] && d' != [] && AllDigits(d) && AllDigits(d')
    requires p == [] || !IsDigit(p[|p| - 1])
    requires r == [] || !IsDigit(r[0])
    ensures NormalizeErrorMessage(p + d + r) == NormalizeErrorMessage(p + d' + r)
  {
    DigitRunIrrelevant(p, d, d', r);
  }

  /** The body of a literal quoted by q: no unescaped q and no line
      terminator, every backslash escaping the character after it. */
  predicate LiteralBody(b: string, q: char)
    decreases |b|
  {
    if b == [] then true
    else if b[0] == '\\' then |b| >= 2 && !IsLineTerminator(b[1]) && LiteralBody(b[2..], q)
    else b[0] != q && !IsLineTerminator(b[0]) && LiteralBody(b[1..], q)
  }

  /** Scanning a literal body ends just past the quote that follows it. */
  lemma {:induction false} QuotedEndOver(s: string, q: char, i: nat, b: string)
    requires q != '\\' && LiteralBody(b, q)
    requires i + |b| < |s| && s[i..i + |b|] == b && s[i + |b|] == q
    ensures QuotedEnd(s, q, i) == Some(i + |b| + 1)
    decreases |b|
  {
    if b != [] {
      assert s[i] == b[0];
      if b[0] == '\\' {
        assert s[i + 1] == b[1];
        assert s[i + 2..i + |b|] == b[2..];
        QuotedEndOver(s, q, i + 2, b[2..]);
      } else {
        assert s[i + 1..i + |b|] == b[1..];
        QuotedEndOver(s, q, i + 1, b[1..]);
      }
    }
  }

  /** The string rule in general: a complete literal `q body q` becomes one
      STR, and the text after it is rewritten on its own. */
  lemma QuotedLiteral(q: char, b: string, rest: string)
    requires IsQuote(q) && LiteralBody(b, q)
    ensures ReplaceStrings([q] + b + [q] + rest) == "STR" + ReplaceStrings(rest)
  {
    var s := [q] + b + [q] + rest;
    assert s[1..1 + |b|] == b;
    QuotedEndOver(s, q, 1, b);
    assert s[|b| + 2..] == rest;
  }

  /** An illustration of the string rule: a quoted span with an escaped quote
      inside is one literal. */
  lemma QuotedExample()
    ensures ReplaceStrings("'a\\'b'") == "STR"
  {
    var s := "'a\\'b'";
    assert s[0] == '\'' && s[1] == 'a' && s[2] == '\\' && s[3] == '\'' && s[4] == 'b' && s[5] == '\'' && |s| == 6;
    assert QuotedEnd(s, '\'', 5) == Some(6);
    assert QuotedEnd(s, '\'', 4) == Some(6);
    assert QuotedEnd(s, '\'', 2) == Some(6);
    assert QuotedEnd(s, '\'', 1) == Some(6);
    assert s[6..] == [];
  }

  /** With the hex rule run before the digit rule, as its comment intends,
      a hex literal does become ADDR. */
  function NormalizeHexFirst(message: string): string
  {
    ReplaceStrings(ReplaceDigits(ReplaceHex(message)))
  }

  lemma HexFirstExample()
    ensures NormalizeHexFirst("0x1F") == "ADDR"
  {
    var s := "0x1F";
    assert HexRun("F") == 1 && HexRun("1F") == 2;
    assert s[2..] == "1F" && s[4..] == [];
    assert ReplaceHex(s) == "ADDR";
    assert ReplaceDigits("ADDR") == "ADDR";
    NoQuoteUnchanged("ADDR");
  }

  /** The hex-first order still leaves no digit behind. */
  lemma HexFirstHasNoDigits(message: string)
    ensures NoDigits(NormalizeHexFirst(message))
  {
    StringRuleNoDigits(ReplaceDigits(ReplaceHex(message)));
  }

  // ---- the tracker's state ----

  /** An Error object: `name`, `message` (None when undefined) and `stack`. */
  datatype JsError = JsError(name: string, message: Option<string>, stack: Option<string>)

  /** What `errors` holds per analysis id. */
  datatype ErrorRecord<C> = ErrorRecord(message: Option<string>, stack: Option<string>, timestamp: int, context: C)

  /** `analyzeErrorPattern(error)` */
  datatype Pattern = Pattern(kind: string, message: string, stack: seq<string>)

  datatype PatternStats = PatternStats(count: nat, firstSeen: int, lastSeen: int)

  /** One element of `getErrorStats().patterns`. */
  datatype PatternEntry = PatternEntry(pattern: string, count: nat, firstSeen: int, lastSeen: int)

  datatype ErrorStats = ErrorStats(totalErrors: nat, patterns: seq<PatternEntry>)

  /** `analyzeErrorPattern(error)`; None when the message is undefined and
      `normalizeErrorMessage` throws. */
  function AnalyzeErrorPattern(e: JsError): (p: Option<Pattern>)
    ensures p.Some? <==> e.message.Some?
  {
    match e.message
    case None => None
    case Some(m) => Some(Pattern(e.name, NormalizeErrorMessage(m), ExtractKeyStackFrames(e.stack)))
  }

  /** The key of `errorPatterns`: `${type}:${message}`. */
  function PatternKey(p: Pattern): string
  {
    p.kind + ":" + p.message
  }

  /** The stack never takes part in the key: errors with the same name and
      message share one pattern whatever their stacks. */
  lemma KeyIgnoresStack(e1: JsError, e2: JsError)
    requires e1.message.Some? && e1.name == e2.name && e1.message == e2.message
    ensures PatternKey(AnalyzeErrorPattern(e1).value) == PatternKey(AnalyzeErrorPattern(e2).value)
  {
  }

  /** For names without ':' the key determines the name and the normalised
      message. */
  lemma {:induction false} KeyDeterminesParts(p1: Pattern, p2: Pattern)
    requires ':' !in p1.kind && ':' !in p2.kind
    requires PatternKey(p1) == PatternKey(p2)
    ensures p1.kind == p2.kind && p1.message == p2.message
  {
    var k := PatternKey(p1);
    ColonAfter(p1.kind, p1.message);
    ColonAfter(p2.kind, p2.message);
    assert p1.kind == k[..|p1.kind|] == p2.kind;
    assert p1.message == k[|p1.kind| + 1..] == p2.message;
  }

  /** Index of the first ':' (|s| if none). */
  function FirstColon(s: string): (n: nat)
    ensures n <= |s|
  {
    if s == [] || s[0] == ':' then 0 else 1 + FirstColon(s[1..])
  }

  lemma {:induction false} ColonAfter(a: string, m: string)
    requires ':' !in a
    ensures FirstColon(a + ":" + m) == |a|
  {
    if a != [] {
      assert (a + ":" + m)[1..] == a[1..] + ":" + m;
      ColonAfter(a[1..], m);
    }
  }

  /** One `updateErrorPatterns` step on the stats of its key: a new key
      starts at count 1 with both dates now; a known key counts one more,
      keeps firstSeen and moves lastSeen to now. */
  function Bump(prior: Option<PatternStats>, now: int): (r: PatternStats)
    ensures r.count >= 1 && r.lastSeen == now
    ensures prior.None? ==> r == PatternStats(1, now, now)
    ensures prior.Some? ==> r.count == prior.value.count + 1 && r.firstSeen == prior.value.firstSeen
  {
    match prior
    case None => PatternStats(1, now, now)
    case Some(st) => PatternStats(st.count + 1, st.firstSeen, now)
  }

  function StatsOf(ps: map<string, PatternStats>, key: string): Option<PatternStats>
  {
    if key in ps then Some(ps[key]) else None
  }

  /** The patterns table after updates for `keys` at `times`, one by one. */
  function Replay(ps: map<string, PatternStats>, keys: seq<string>, times: seq<int>): map<string, PatternStats>
    requires |keys| == |times|
  {
    if keys == [] then ps
    else
      var n := |keys| - 1;
      var before := Replay(ps, keys[..n], times[..n]);
      before[keys[n] := Bump(StatsOf(before, keys[n]), times[n])]
  }

  /** After any run of updates a key's count is its prior count plus the
      number of times it was reported; its firstSeen is kept if it was
      known and otherwise is the time of its first report; a key not
      reported keeps its stats. */
  lemma {:induction false} ReplayCounts(ps: map<string, PatternStats>, keys: seq<string>, times: seq<int>, k: string)
    requires |keys| == |times|
    ensures k in Replay(ps, keys, times) <==> k in ps || k in multiset(keys)
    ensures k in Replay(ps, keys, times) ==>
      Replay(ps, keys, times)[k].count == (if k in ps then ps[k].count else 0) + multiset(keys)[k]
    ensures k in ps ==> Replay(ps, keys, times)[k].firstSeen == ps[k].firstSeen
    ensures k in ps && k !in multiset(keys) ==> Replay(ps, keys, times)[k] == ps[k]
  {
    if keys != [] {
      var n := |keys| - 1;
      assert keys == keys[..n] + [keys[n]];
      assert multiset(keys) == multiset(keys[..n]) + multiset{keys[n]};
      ReplayCounts(ps, keys[..n], times[..n], k);
    }
  }

  /** A key first reported at index i (absent before) has firstSeen times[i]. */
  lemma {:induction false} ReplayFirstSeen(ps: map<string, PatternStats>, keys: seq<string>, times: seq<int>, i: nat)
    requires |keys| == |times| && i < |keys|
    requires keys[i] !in ps && keys[i] !in multiset(keys[..i])
    ensures keys[i] in Replay(ps, keys, times)
    ensures Replay(ps, keys, times)[keys[i]].firstSeen == times[i]
  {
    ReplayCounts(ps, keys, times, keys[i]);
    var n := |keys| - 1;
    var before := Replay(ps, keys[..n], times[..n]);
    if i == n {
      ReplayCounts(ps, keys[..n], times[..n], keys[i]);
      assert keys[..i] == keys[..n];
      assert keys[i] !in before;
    } else {
      assert keys[..n][i] == keys[i];
      assert keys[..n][..i] == keys[..i];
      ReplayFirstSeen(ps, keys[..n], times[..n], i);
      ReplayCounts(ps, keys[..n], times[..n], keys[i]);
    }
  }

  /** The last report of a key sets its lastSeen. */
  lemma ReplayLastSeen(ps: map<string, PatternStats>, keys: seq<string>, times: seq<int>)
    requires |keys| == |times| && keys != []
    ensures Replay(ps, keys, times)[keys[|keys| - 1]].lastSeen == times[|times| - 1]
  {
  }

  /** A record older than one hour is expired. */
  predicate ErrorExpired<C>(r: ErrorRecord<C>, now: int)
  {
    now - r.timestamp > ONE_HOUR_MS
  }

  /** A pattern not seen for more than a day is expired. */
  predicate PatternExpired(st: PatternStats, now: int)
  {
    now - st.lastSeen > ONE_DAY_MS
  }

  /** The patterns left once the keys in `done` have been visited. */
  function Pruned(ps: map<string, PatternStats>, done: seq<string>, now: int): map<string, PatternStats>
  {
    map k | k in ps && !(k in done && PatternExpired(ps[k], now)) :: ps[k]
  }

  /** Visiting one more key removes it if it has expired. */
  lemma PrunedStep(ps: map<string, PatternStats>, order: seq<string>, i: nat, now: int)
    requires i < |order| && order[i] in ps
    ensures order[..i + 1] == order[..i] + [order[i]]
    ensures Pruned(ps, order[..i + 1], now) ==
      if PatternExpired(ps[order[i]], now) then Pruned(ps, order[..i], now) - {order[i]}
      else Pruned(ps, order[..i], now)
  {
    assert order[..i + 1] == order[..i] + [order[i]];
  }

  /** In a distinct order a key is not among those before it. */
  lemma NotYetSeen(order: seq<string>, i: nat)
    requires Distinct(order) && i < |order|
    ensures order[i] !in order[..i]
  {
    forall j | 0 <= j < i ensures order[..i][j] != order[i] {
    }
  }

  /** Once every key is visited, what is left is the live patterns. */
  lemma PrunedAll(ps: map<string, PatternStats>, order: seq<string>, now: int)
    requires forall k :: k in ps <==> k in order
    ensures Pruned(ps, order, now) == LivePatterns(ps, now)
  {
  }

  /** `errors` after the cleanup. */
  function LiveErrors<C>(errors: map<string, ErrorRecord<C>>, now: int): map<string, ErrorRecord<C>>
  {
    map id | id in errors && !ErrorExpired(errors[id], now) :: errors[id]
  }

  /** `errorPatterns` after the cleanup. */
  function LivePatterns(ps: map<string, PatternStats>, now: int): map<string, PatternStats>
  {
    map k | k in ps && !PatternExpired(ps[k], now) :: ps[k]
  }

  /** The iteration order of `errorPatterns` after the cleanup: the
      surviving keys in their old order. */
  function LiveOrder(order: seq<string>, ps: map<string, PatternStats>, now: int): seq<string>
  {
    if order == [] then []
    else
      var n := |order| - 1;
      LiveOrder(order[..n], ps, now)
        + (if order[n] in ps && PatternExpired(ps[order[n]], now) then [] else [order[n]])
  }

  lemma {:induction false} LiveOrderMembers(order: seq<string>, ps: map<string, PatternStats>, now: int)
    ensures forall k :: k in LiveOrder(order, ps, now) <==>
      k in order && !(k in ps && PatternExpired(ps[k], now))
  {
    if order != [] {
      var n := |order| - 1;
      assert order == order[..n] + [order[n]];
      LiveOrderMembers(order[..n], ps, now);
    }
  }

  lemma {:induction false} LiveOrderDistinct(order: seq<string>, ps: map<string, PatternStats>, now: int)
    requires Distinct(order)
    ensures Distinct(LiveOrder(order, ps, now))
  {
    if order != [] {
      var n := |order| - 1;
      assert order == order[..n] + [order[n]];
      LiveOrderDistinct(order[..n], ps, now);
      LiveOrderMembers(order[..n], ps, now);
    }
  }

  /** The surviving order lists exactly the surviving patterns, once each. */
  lemma LiveOrderValid(order: seq<string>, ps: map<string, PatternStats>, now: int)
    requires Distinct(order) && forall k :: k in ps <==> k in order
    ensures Distinct(LiveOrder(order, ps, now))
    ensures forall k :: k in LivePatterns(ps, now) <==> k in LiveOrder(order, ps, now)
  {
    LiveOrderMembers(order, ps, now);
    LiveOrderDistinct(order, ps, now);
  }

  /** The order's one-key step, as the loop visits it. */
  lemma LiveOrderStep(order: seq<string>, i: nat, ps: map<string, PatternStats>, now: int)
    requires i < |order|
    ensures LiveOrder(order[..i + 1], ps, now) == LiveOrder(order[..i], ps, now)
      + (if order[i] in ps && PatternExpired(ps[order[i]], now) then [] else [order[i]])
  {
    assert order[..i + 1][..i] == order[..i];
  }

  /** `getErrorStats()` on a table whose iteration order is `order`. */
  function StatsEntries(order: seq<string>, ps: map<string, PatternStats>): (r: seq<PatternEntry>)
    requires forall k :: k in order ==> k in ps
    ensures |r| == |order|
    ensures forall i :: 0 <= i < |r| ==>
      r[i] == PatternEntry(order[i], ps[order[i]].count, ps[order[i]].firstSeen, ps[order[i]].lastSeen)
  {
    seq(|order|, i requires 0 <= i < |order| => 
      PatternEntry(order[i], ps[order[i]].count, ps[order[i]].firstSeen, ps[order[i]].lastSeen))
  }

  /** The ErrorTracker object. `patternOrder` is the iteration order of the
      `errorPatterns` Map (insertion order); `errors` is never iterated in
      an order that matters. */
  class Tracker<C> {
    var errors: map<string, ErrorRecord<C>>
    var patterns: map<string, PatternStats>
    var patternOrder: seq<string>

    /** The Map's iteration order lists each key once. */
    ghost predicate Valid()
      reads this
    {
      && Distinct(patternOrder)
      && forall k :: k in patterns <==> k in patternOrder
    }

    constructor()
      ensures Valid()
      ensures errors == map[] && patterns == map[] && patternOrder == []
    {
      errors := map[];
      patterns := map[];
      patternOrder := [];
    }

    /** `updateErrorPatterns(pattern)` at time `now`. */
    method UpdateErrorPatterns(pattern: Pattern, now: int)
      requires Valid()
      modifies this
      ensures Valid()
      ensures patterns == old(patterns)[PatternKey(pattern) := Bump(StatsOf(old(patterns), PatternKey(pattern)), now)]
      ensures patternOrder == if PatternKey(pattern) in old(patterns) then old(patternOrder)
                              else old(patternOrder) + [PatternKey(pattern)]
      ensures errors == old(errors)
    {
      var key := pattern.kind + ":" + pattern.message;
      if key !in patterns {
        patterns := patterns[key := PatternStats(0, now, now)];
        patternOrder := patternOrder + [key];
      }
      var st := patterns[key];
      patterns := patterns[key := PatternStats(st.count + 1, st.firstSeen, now)];
    }

    /** `cleanupOldErrors()` with `Date.now()` read as `now`: two deletion
        loops. */
    method CleanupOldErrors(now: int)
      requires Valid()
      modifies this
      ensures Valid()
      ensures errors == LiveErrors(old(errors), now)
      ensures patterns == LivePatterns(old(patterns), now)
      ensures patternOrder == LiveOrder(old(patternOrder), old(patterns), now)
    {
      DropOldErrors(now);
      DropOldPatterns(now);
    }

    /** The first loop: records older than one hour. */
    method DropOldErrors(now: int)
      modifies this
      ensures errors == LiveErrors(old(errors), now)
      ensures patterns == old(patterns) && patternOrder == old(patternOrder)
    {
      ghost var e0 := errors;
      var ids := errors.Keys;
      while ids != {}
        invariant ids <= e0.Keys
        invariant patterns == old(patterns) && patternOrder == old(patternOrder)
        invariant forall id :: id in errors <==> id in e0 && (id in ids || !ErrorExpired(e0[id], now))
        invariant forall id :: id in errors ==> errors[id] == e0[id]
        decreases |ids|
      {
        var id :| id in ids;
        if now - errors[id].timestamp > ONE_HOUR_MS {
          errors := errors - {id};
        }
        ids := ids - {id};
      }
      assert errors == LiveErrors(e0, now);
    }

    /** The second loop, in the Map's iteration order: patterns not seen
        for more than a day. */
    method DropOldPatterns(now: int)
      requires Valid()
      modifies this
      ensures Valid()
      ensures errors == old(errors)
      ensures patterns == LivePatterns(old(patterns), now)
      ensures patternOrder == LiveOrder(old(patternOrder), old(patterns), now)
    {
      ghost var p0 := patterns;
      var o0 := patternOrder;
      var kept: seq<string> := [];
      var i := 0;
      while i < |o0|
        invariant i <= |o0|
        invariant Distinct(o0) && forall k :: k in p0 <==> k in o0
        invariant errors == old(errors)
        invariant kept == LiveOrder(o0[..i], p0, now)
        invariant patterns == Pruned(p0, o0[..i], now)
      {
        var k := o0[i];
        assert o0[..i + 1][..i] == o0[..i];
        NotYetSeen(o0, i);
        PrunedStep(p0, o0, i, now);
        LiveOrderStep(o0, i, p0, now);
        if now - patterns[k].lastSeen > ONE_DAY_MS {
          patterns := patterns - {k};
        } else {
          kept := kept + [k];
        }
        i := i + 1;
      }
      assert o0[..i] == o0;
      PrunedAll(p0, o0, now);
      LiveOrderValid(o0, p0, now);
      patternOrder := kept;
    }

    /** `trackError({analysisId, error, timestamp, context})` with the
        clocks of `updateErrorPatterns` and the cleanup read as `now`.
        `error` None is an undefined error: reading its message throws
        before anything is stored. An undefined message throws after the
        record is stored. Either throw is caught and logged. */
    method TrackError(analysisId: string, error: Option<JsError>, timestamp: int, context: C, now: int)
      requires Valid()
      modifies this
      ensures Valid()
      ensures error.None? ==>
        errors == old(errors) && patterns == old(patterns) && patternOrder == old(patternOrder)
      ensures error.Some? && error.value.message.None? ==>
        && errors == old(errors)[analysisId := ErrorRecord(None, error.value.stack, timestamp, context)]
        && patterns == old(patterns) && patternOrder == old(patternOrder)
      ensures error.Some? && error.value.message.Some? ==>
        var key := PatternKey(AnalyzeErrorPattern(error.value).value);
        var ps := old(patterns)[key := Bump(StatsOf(old(patterns), key), now)];
        && errors == LiveErrors(old(errors)[analysisId := ErrorRecord(error.value.message, error.value.stack, timestamp, context)], now)
        && patterns == LivePatterns(ps, now)
        && patternOrder == LiveOrder(old(patternOrder) + (if key in old(patterns) then [] else [key]), ps, now)
    {
      if error.None? {
        return;
      }
      var e := error.value;
      errors := errors[analysisId := ErrorRecord(e.message, e.stack, timestamp, context)];
      var pattern := AnalyzeErrorPattern(e);
      if pattern.None? {
        return;
      }
      ghost var key := PatternKey(pattern.value);
      ghost var order0 := patternOrder;
      ghost var known := key in patterns;
      UpdateErrorPatterns(pattern.value, now);
      assert patternOrder == order0 + (if known then [] else [key]);
      CleanupOldErrors(now);
    }

    /** `getErrorStats()` */
    function GetErrorStats(): (r: ErrorStats)
      requires Valid()
      reads this
      ensures r.totalErrors == |errors|
      ensures |r.patterns| == |patterns|
      ensures forall i :: 0 <= i < |r.patterns| ==>
        && r.patterns[i].pattern in patterns
        && r.patterns[i].count == patterns[r.patterns[i].pattern].count
        && r.patterns[i].lastSeen == patterns[r.patterns[i].pattern].lastSeen
      ensures forall k :: k in patterns <==> exists i :: 0 <= i < |r.patterns| && r.patterns[i].pattern == k
      ensures |r.patterns| == |patternOrder|
      ensures forall i :: 0 <= i < |r.patterns| ==>
        r.patterns[i] == PatternEntry(patternOrder[i], patterns[patternOrder[i]].count,
                                      patterns[patternOrder[i]].firstSeen, patterns[patternOrder[i]].lastSeen)
    {
      DistinctCard(patternOrder);
      assert (set k | k in patternOrder) == patterns.Keys;
      ErrorStats(|errors|, StatsEntries(patternOrder, patterns))
    }
  }

  /** The cleanup removes exactly the expired records and patterns and
      leaves the rest as they were. */
  lemma CleanupExactly<C>(errors: map<string, ErrorRecord<C>>, ps: map<string, PatternStats>, now: int)
    ensures forall id :: id in LiveErrors(errors, now) <==> id in errors && now - errors[id].timestamp <= ONE_HOUR_MS
    ensures forall k :: k in LivePatterns(ps, now) <==> k in ps && now - ps[k].lastSeen <= ONE_DAY_MS
    ensures forall id :: id in LiveErrors(errors, now) ==> LiveErrors(errors, now)[id] == errors[id]
    ensures forall k :: k in LivePatterns(ps, now) ==> LivePatterns(ps, now)[k] == ps[k]
  {
  }

  /** A second cleanup at the same time changes nothing. */
  lemma CleanupIdempotent<C>(errors: map<string, ErrorRecord<C>>, ps: map<string, PatternStats>, now: int)
    ensures LiveErrors(LiveErrors(errors, now), now) == LiveErrors(errors, now)
    ensures LivePatterns(LivePatterns(ps, now), now) == LivePatterns(ps, now)
  {
  }

  /** The pattern just updated survives its own cleanup, with its new stats. */
  lemma {:induction false} FreshPatternSurvives(ps: map<string, PatternStats>, key: string, now: int)
    ensures key in LivePatterns(ps[key := Bump(StatsOf(ps, key), now)], now)
    ensures LivePatterns(ps[key := Bump(StatsOf(ps, key), now)], now)[key].count ==
      (if key in ps then ps[key].count else 0) + 1
  {
  }

  /** Re-tracking an id replaces its record: the count of tracked errors
      grows by one only for a new id, as long as nothing has expired. */
  lemma {:induction false} TotalErrorsAfterTrack<C>(errors: map<string, ErrorRecord<C>>, id: string, r: ErrorRecord<C>, now: int)
    requires !ErrorExpired(r, now)
    requires forall i :: i in errors ==> !ErrorExpired(errors[i], now)
    ensures |LiveErrors(errors[id := r], now)| == if id in errors then |errors| else |errors| + 1
  {
    assert LiveErrors(errors[id := r], now) == errors[id := r];
  }
}
