/** src/utils/validation/mnemonicValidator.js: the format normaliser in
    front of the BIP-39 checksum. The checksum itself is a given predicate. */
module MnemonicValidator {
  import opened Common
  import opened Text

  const NOT_A_STRING: string := "Mnemonic must be a non-empty string"
  const BAD_LENGTH: string := "Invalid mnemonic length"
  const BAD_PHRASE: string := "Invalid mnemonic phrase"

  /** The word counts BIP-39 defines ("Generating the mnemonic"). */
  predicate ValidWordCount(n: int)
  {
    n == 12 || n == 15 || n == 18 || n == 21 || n == 24
  }

  /** JavaScript's white space and line terminators: what `trim` removes
      and what `\s` matches. */
  predicate IsSpace(ch: char)
  {
    || ch == '\t' || ch == '\n' || ch == '\U{000B}' || ch == '\U{000C}' || ch == '\r'
    || ch == ' ' || ch == '\U{00A0}' || ch == '\U{1680}'
    || ('\U{2000}' <= ch <= '\U{200A}')
    || ch == '\U{2028}' || ch == '\U{2029}' || ch == '\U{202F}' || ch == '\U{205F}'
    || ch == '\U{3000}' || ch == '\U{FEFF}'
  }

  predicate NoSpace(s: string)
  {
    forall k :: 0 <= k < |s| ==> !IsSpace(s[k])
  }

  /** Neither starts nor ends with white space. */
  predicate Trimmed(s: string)
  {
    s != [] ==> !IsSpace(s[0]) && !IsSpace(s[|s| - 1])
  }

  function TrimStart(s: string): (r: string)
    ensures |r| <= |s| && r == s[|s| - |r|..]
    ensures r != [] ==> !IsSpace(r[0])
  {
    if s != [] && IsSpace(s[0]) then TrimStart(s[1..]) else s
  }

  function TrimEnd(s: string): (r: string)
    ensures |r| <= |s| && r == s[..|r|]
    ensures r != [] ==> !IsSpace(r[|r| - 1])
  {
    if s != [] && IsSpace(s[|s| - 1]) then TrimEnd(s[..|s| - 1]) else s
  }

  /** `s.trim()` */
  function Trim(s: string): string
  {
    TrimEnd(TrimStart(s))
  }

  /** Length of the leading run of non-space characters. */
  function WordLength(s: string): (n: nat)
    ensures n <= |s| && NoSpace(s[..n])
    ensures n < |s| ==> IsSpace(s[n])
  {
    if s == [] || IsSpace(s[0]) then 0
    else
      var n := 1 + WordLength(s[1..]);
      assert s[..n] == [s[0]] + s[1..][..n - 1];
      n
  }

  /** `s.split(/\s+/)`: the pieces between maximal runs of white space. */
  function SplitSpaces(s: string): (words: seq<string>)
    ensures |words| >= 1
    decreases |s|
  {
    var w := WordLength(s);
    if w == |s| then [s] else [s[..w]] + SplitSpaces(TrimStart(s[w + 1..]))
  }

  /** `validateFormat(mnemonic)`; None stands for a value that is not a string. */
  function ValidateFormat(mnemonic: Option<string>): Result<string>
  {
    if mnemonic.None? || mnemonic.value == [] then Err(NOT_A_STRING)
    else
      var words := SplitSpaces(Trim(mnemonic.value));
      if !ValidWordCount(|words|) then Err(BAD_LENGTH)
      else Ok(Join(words, " "))
  }

  /** `validate(mnemonic)`: the normalised form, if the checksum accepts it. */
  function Validate(mnemonic: Option<string>, checksumOk: string -> bool): (r: Result<string>)
    ensures ValidateFormat(mnemonic).Err? ==> r == ValidateFormat(mnemonic)
    ensures ValidateFormat(mnemonic).Ok? ==>
      r == if checksumOk(ValidateFormat(mnemonic).value) then ValidateFormat(mnemonic) else Err(BAD_PHRASE)
  {
    match ValidateFormat(mnemonic)
    case Err(e) => Err(e)
    case Ok(normal) => if checksumOk(normal) then Ok(normal) else Err(BAD_PHRASE)
  }

  // ---- facts about trimming and splitting ----

  lemma TrimIsTrimmed(s: string)
    ensures Trimmed(Trim(s))
  {
    var t := TrimStart(s);
    var r := TrimEnd(t);
    if r != [] {
      assert r[0] == t[0];
    }
  }

  lemma TrimOfTrimmed(s: string)
    requires Trimmed(s)
    ensures Trim(s) == s
  {
  }

  /** A string with a non-space last character keeps it after TrimStart. */
  lemma {:induction false} TrimStartOfTrailing(s: string)
    requires s != [] && !IsSpace(s[|s| - 1])
    ensures TrimStart(s) != [] && TrimStart(s)[|TrimStart(s)| - 1] == s[|s| - 1]
  {
    if IsSpace(s[0]) {
      TrimStartOfTrailing(s[1..]);
    }
  }

  /** Every word is non-empty and free of white space. */
  predicate ProperWords(words: seq<string>)
  {
    forall k :: 0 <= k < |words| ==> words[k] != [] && NoSpace(words[k])
  }

  lemma ProperCons(w: string, words: seq<string>)
    requires w != [] && NoSpace(w) && ProperWords(words)
    ensures ProperWords([w] + words)
  {
    forall k | 0 <= k < |[w] + words| ensures ([w] + words)[k] != [] && NoSpace(([w] + words)[k]) {
      if k > 0 { assert ([w] + words)[k] == words[k - 1]; }
    }
  }

  /** The words of a trimmed, non-empty string are non-empty and space-free. */
  lemma {:induction false} WordsOfTrimmed(s: string)
    requires s != [] && Trimmed(s)
    ensures ProperWords(SplitSpaces(s))
    decreases |s|
  {
    var w := WordLength(s);
    if w < |s| {
      assert w + 1 < |s|;
      var after := s[w + 1..];
      assert after[|after| - 1] == s[|s| - 1];
      var rest := TrimStart(after);
      assert rest != [] && Trimmed(rest) && |rest| < |s| by {
        TrimStartOfTrailing(after);
      }
      assert SplitSpaces(s) == [s[..w]] + SplitSpaces(rest);
      assert ProperWords(SplitSpaces(rest)) by {
        WordsOfTrimmed(rest);
      }
      assert s[..w] != [] by {
        assert s[..w][0] == s[0];
      }
      ProperCons(s[..w], SplitSpaces(rest));
    } else {
      assert SplitSpaces(s) == [s];
      assert s[..w] == s;
    }
  }

  /** One word, one space, then a trimmed rest: the split peels off the word. */
  lemma SplitSpacesCons(w: string, t: string)
    requires w != [] && NoSpace(w) && t != [] && !IsSpace(t[0])
    ensures SplitSpaces(w + " " + t) == [w] + SplitSpaces(t)
  {
    var s := w + " " + t;
    assert s == w + (" " + t);
    WordLengthOfWord(w, " " + t);
    assert s[..|w|] == w;
    assert s[|w| + 1..] == t;
  }

  /** Joining non-empty space-free words with single spaces gives a trimmed
      string that splits back into exactly those words. */
  lemma {:induction false} JoinSplitSpaces(words: seq<string>)
    requires |words| >= 1 && ProperWords(words)
    ensures var s := Join(words, " "); s != [] && Trimmed(s) && SplitSpaces(s) == words
  {
    var w0 := words[0];
    if |words| == 1 {
      WordLengthOfWord(w0, []);
      assert w0 + [] == w0;
    } else {
      var rest := words[1..];
      assert ProperWords(rest) by {
        forall k | 0 <= k < |rest| ensures rest[k] != [] && NoSpace(rest[k]) {
          assert rest[k] == words[k + 1];
        }
      }
      JoinSplitSpaces(rest);
      var tail := Join(rest, " ");
      var s := Join(words, " ");
      assert s == w0 + " " + tail;
      SplitSpacesCons(w0, tail);
      assert [w0] + rest == words;
      assert s[|s| - 1] == tail[|tail| - 1];
    }
  }

  lemma {:induction false} WordLengthOfWord(w: string, rest: string)
    requires NoSpace(w)
    requires rest != [] ==> IsSpace(rest[0])
    ensures WordLength(w + rest) == |w|
  {
    if w != [] {
      assert (w + rest)[1..] == w[1..] + rest;
      WordLengthOfWord(w[1..], rest);
    }
  }

  // ---- the contract of validateFormat ----

  /** A non-string or empty input fails with the non-empty-string message. */
  lemma RejectsEmpty(mnemonic: Option<string>)
    requires mnemonic.None? || mnemonic == Some([])
    ensures ValidateFormat(mnemonic) == Err(NOT_A_STRING)
  {
  }

  /** A non-empty input is accepted exactly when its word count is a BIP-39
      count; otherwise it fails with the length message. */
  lemma AcceptsIffWordCount(s: string)
    requires s != []
    ensures ValidateFormat(Some(s)).Ok? <==> ValidWordCount(|SplitSpaces(Trim(s))|)
    ensures ValidateFormat(Some(s)).Err? ==> ValidateFormat(Some(s)) == Err(BAD_LENGTH)
  {
  }

  /** An all-white-space input trims to "", which splits into one empty
      word, so it fails the length check. */
  lemma {:induction false} AllSpaceRejected(s: string)
    requires s != [] && forall k :: 0 <= k < |s| ==> IsSpace(s[k])
    ensures Trim(s) == [] && SplitSpaces(Trim(s)) == [[]]
    ensures ValidateFormat(Some(s)) == Err(BAD_LENGTH)
  {
    AllSpaceTrimStart(s);
  }

  lemma {:induction false} AllSpaceTrimStart(s: string)
    requires forall k :: 0 <= k < |s| ==> IsSpace(s[k])
    ensures TrimStart(s) == []
  {
    if s != [] { AllSpaceTrimStart(s[1..]); }
  }

  /** An accepted phrase comes out as its words, in order, separated by
      single spaces, with no white space at either end; its words are the
      input's. */
  lemma NormalForm(s: string)
    requires ValidateFormat(Some(s)).Ok?
    ensures var out := ValidateFormat(Some(s)).value;
      && out == Join(SplitSpaces(Trim(s)), " ")
      && out != [] && Trimmed(out)
      && SplitSpaces(out) == SplitSpaces(Trim(s))
  {
    var t := Trim(s);
    var words := SplitSpaces(t);
    assert ValidWordCount(|words|);
    TrimIsTrimmed(s);
    if t == [] {
      assert false;
    }
    WordsOfTrimmed(t);
    JoinSplitSpaces(words);
  }

  /** Normalising a normalised phrase changes nothing. */
  lemma Idempotent(s: string)
    requires ValidateFormat(Some(s)).Ok?
    ensures ValidateFormat(Some(ValidateFormat(Some(s)).value)) == ValidateFormat(Some(s))
  {
    var out := ValidateFormat(Some(s)).value;
    NormalForm(s);
    TrimOfTrimmed(out);
  }
}
