/**
 * `cipherTextRaw` of frontend/js/views/study-view.js: a memorisation aid that
 * splits a text into sentences, keeps every fourth word of each sentence whole,
 * cuts every other word to its first character and keeps punctuation, one
 * output line per non-blank sentence.
 */
module StudyCipher {
  import opened Common
  import Clock

  // ---------------------------------------------------------------------
  // Sentences: `text.split(/(?<=[.!?])\s*/)`

  predicate IsStop(c: char) {
    c == '.' || c == '!' || c == '?'
  }

  /** The first cut position at or after `q`: one just past a stop character, before the end; `|r|` if none. */
  function Boundary(r: string, q: nat): (b: nat)
    requires 1 <= q <= |r|
    ensures q <= b <= |r|
    ensures b < |r| ==> IsStop(r[b - 1])
    ensures forall k :: q - 1 <= k < b - 1 ==> !IsStop(r[k])
    decreases |r| - q
  {
    if q == |r| then |r| else if IsStop(r[q - 1]) then q else Boundary(r, q + 1)
  }

  /** The length of the run of whitespace starting at `i` (what `\s*` consumes). */
  function WhitespaceRun(r: string, i: nat): (n: nat)
    requires i <= |r|
    ensures i + n <= |r|
    ensures forall k :: i <= k < i + n ==> IsWhitespace(r[k])
    ensures i + n < |r| ==> !IsWhitespace(r[i + n])
    decreases |r| - i
  {
    if i < |r| && IsWhitespace(r[i]) then 1 + WhitespaceRun(r, i + 1) else 0
  }

  /**
   * The pieces `split` returns: a cut after each stop character that is not the last
   * character of what is left, with the following whitespace dropped.
   */
  function Sentences(r: string): (ss: seq<string>)
    ensures |ss| >= 1
    decreases |r|
  {
    if |r| <= 1 then [r]
    else
      var q := Boundary(r, 1);
      if q == |r| then [r] else [r[..q]] + Sentences(r[q + WhitespaceRun(r, q)..])
  }

  /** Every piece but the last is non-empty and ends with a stop character. */
  predicate EndWithStops(ss: seq<string>) {
    forall k :: 0 <= k < |ss| - 1 ==> ss[k] != "" && IsStop(ss[k][|ss[k]| - 1])
  }

  lemma ConsEndWithStops(h: string, rest: seq<string>)
    requires h != "" && IsStop(h[|h| - 1]) && EndWithStops(rest)
    ensures EndWithStops([h] + rest)
  {
    var ss := [h] + rest;
    forall k | 0 <= k < |ss| - 1 ensures ss[k] != "" && IsStop(ss[k][|ss[k]| - 1]) {
      if k > 0 {
        assert ss[k] == rest[k - 1];
      }
    }
  }

  /** Each sentence but the last ends with the stop character it was cut after. */
  lemma {:induction false} SentencesEndWithStop(r: string)
    ensures EndWithStops(Sentences(r))
    decreases |r|
  {
    if |r| > 1 {
      var q := Boundary(r, 1);
      if q < |r| {
        var rest := r[q + WhitespaceRun(r, q)..];
        SentencesEndWithStop(rest);
        assert Sentences(r) == [r[..q]] + Sentences(rest);
        ConsEndWithStops(r[..q], Sentences(rest));
      }
    }
  }

  // ---------------------------------------------------------------------
  // Tokens: `sentence.match(/\b\w+\b|[^\w\s]/g) || []`

  /** `\w` without the `u` flag: ASCII letters, digits and `_`. */
  predicate IsWordChar(c: char) {
    ('a' <= c <= 'z') || ('A' <= c <= 'Z') || ('0' <= c <= '9') || c == '_'
  }

  /** `/^\w+$/.test(t)` */
  predicate IsWord(t: string) {
    t != [] && forall i :: 0 <= i < |t| ==> IsWordChar(t[i])
  }

  /** The end of the run of word characters starting at `i`. */
  function WordEnd(s: string, i: nat): (e: nat)
    requires i <= |s|
    ensures i <= e <= |s|
    ensures forall k :: i <= k < e ==> IsWordChar(s[k])
    ensures e < |s| ==> !IsWordChar(s[e])
    decreases |s| - i
  {
    if i < |s| && IsWordChar(s[i]) then WordEnd(s, i + 1) else i
  }

  /** Whole runs of word characters, and single characters that are neither word characters nor whitespace. */
  function Tokenize(s: string): seq<string>
    decreases |s|
  {
    if s == [] then []
    else if IsWhitespace(s[0]) then Tokenize(s[1..])
    else if IsWordChar(s[0]) then
      var e := WordEnd(s, 0);
      [s[..e]] + Tokenize(s[e..])
    else [[s[0]]] + Tokenize(s[1..])
  }

  /** A token is a word, or one character that is neither a word character nor whitespace. */
  predicate IsToken(t: string) {
    IsWord(t) || (|t| == 1 && !IsWordChar(t[0]) && !IsWhitespace(t[0]))
  }

  predicate AllTokens(ts: seq<string>) {
    forall k :: 0 <= k < |ts| ==> IsToken(ts[k])
  }

  lemma {:induction false} TokenizeGivesTokens(s: string)
    ensures AllTokens(Tokenize(s))
    decreases |s|
  {
    if s != [] {
      if IsWhitespace(s[0]) {
        TokenizeGivesTokens(s[1..]);
      } else if IsWordChar(s[0]) {
        var e := WordEnd(s, 0);
        TokenizeGivesTokens(s[e..]);
        assert IsWord(s[..e]);
        var ts := [s[..e]] + Tokenize(s[e..]);
        forall k | 0 <= k < |ts| ensures IsToken(ts[k]) {
          if k > 0 {
            assert ts[k] == Tokenize(s[e..])[k - 1];
          }
        }
      } else {
        TokenizeGivesTokens(s[1..]);
        var ts := [[s[0]]] + Tokenize(s[1..]);
        forall k | 0 <= k < |ts| ensures IsToken(ts[k]) {
          if k > 0 {
            assert ts[k] == Tokenize(s[1..])[k - 1];
          }
        }
      }
    }
  }

  /** The characters of `s` that are not whitespace, in order. */
  function NonBlank(s: string): string {
    if s == [] then [] else (if IsWhitespace(s[0]) then [] else [s[0]]) + NonBlank(s[1..])
  }

  function Concat(ts: seq<string>): string {
    if ts == [] then [] else ts[0] + Concat(ts[1..])
  }

  lemma WordCharIsNotWhitespace(c: char)
    requires IsWordChar(c)
    ensures !IsWhitespace(c)
  {
  }

  lemma {:induction false} NonBlankOfWord(s: string, e: nat)
    requires e <= |s|
    requires forall k :: 0 <= k < e ==> IsWordChar(s[k])
    ensures NonBlank(s) == s[..e] + NonBlank(s[e..])
    decreases e
  {
    if e > 0 {
      var t := s[1..];
      NonBlankOfWord(t, e - 1);
      WordCharIsNotWhitespace(s[0]);
      assert NonBlank(s) == [s[0]] + NonBlank(t);
      assert t[..e - 1] == s[1..e];
      assert t[e - 1..] == s[e..];
      assert s[..e] == [s[0]] + s[1..e];
    }
  }

  /** Tokenizing drops whitespace and nothing else: the tokens spell out the non-blank characters. */
  lemma {:induction false} TokensSpellText(s: string)
    ensures Concat(Tokenize(s)) == NonBlank(s)
    decreases |s|
  {
    if s != [] {
      if IsWhitespace(s[0]) {
        TokensSpellText(s[1..]);
      } else if IsWordChar(s[0]) {
        var e := WordEnd(s, 0);
        TokensSpellText(s[e..]);
        NonBlankOfWord(s, e);
        var ts := [s[..e]] + Tokenize(s[e..]);
        assert ts[1..] == Tokenize(s[e..]);
      } else {
        TokensSpellText(s[1..]);
        var ts := [[s[0]]] + Tokenize(s[1..]);
        assert ts[1..] == Tokenize(s[1..]);
      }
    }
  }

  /** A sentence with a non-blank character has at least one token. */
  lemma {:induction false} NonBlankHasTokens(s: string)
    requires !AllWhitespace(s)
    ensures Tokenize(s) != []
    decreases |s|
  {
    if IsWhitespace(s[0]) {
      NonBlankHasTokens(s[1..]);
    }
  }

  // ---------------------------------------------------------------------
  // Ciphering the tokens of one sentence

  /** How many of the first `n` tokens are words. */
  function WordsIn(ts: seq<string>, n: nat): nat
    requires n <= |ts|
  {
    if n == 0 then 0 else WordsIn(ts, n - 1) + (if IsWord(ts[n - 1]) then 1 else 0)
  }

  /** A token as shown, given the ordinal `count` of the word it is (if it is one). */
  function Cipher(t: string, count: nat): string {
    if IsWord(t) then (if count % 4 == 0 then t else [t[0]]) else t
  }

  /** The processed tokens after the first `n` tokens. */
  function ProcessedOf(ts: seq<string>, n: nat): (r: seq<string>)
    requires n <= |ts|
    ensures |r| == n
  {
    if n == 0 then [] else ProcessedOf(ts, n - 1) + [Cipher(ts[n - 1], WordsIn(ts, n))]
  }

  /**
   * Token by token: punctuation is kept, the 4th, 8th, ... word of the sentence is
   * kept whole, and every other word becomes its first character.
   */
  lemma {:induction false} ProcessedMeaning(ts: seq<string>, n: nat, i: nat)
    requires i < n <= |ts|
    ensures ProcessedOf(ts, n)[i] == Cipher(ts[i], WordsIn(ts, i + 1))
  {
    if i < n - 1 {
      ProcessedMeaning(ts, n - 1, i);
    }
  }

  /** Every shown token starts as its token does; a cut word is one character. */
  lemma CipherKeepsInitial(t: string, count: nat)
    requires IsToken(t)
    ensures var c := Cipher(t, count);
      c != "" && c[0] == t[0] && (c == t || |c| == 1) && IsToken(c)
      && (IsWord(t) ==> (c == t <==> count % 4 == 0 || |t| == 1))
  {
  }

  /** `processed.join(" ")` for one sentence. */
  function CipherSentence(sentence: string): string {
    var tokens := Tokenize(sentence);
    Clock.Join(ProcessedOf(tokens, |tokens|), ' ')
  }

  /** The output lines after the first `n` sentences; blank sentences are skipped. */
  function LinesOf(ss: seq<string>, n: nat): seq<string>
    requires n <= |ss|
  {
    if n == 0 then [] else LinesOf(ss, n - 1) + (if Trim(ss[n - 1]) == "" then [] else [CipherSentence(ss[n - 1])])
  }

  /** One more sentence adds its line unless it is blank. */
  lemma LinesStep(ss: seq<string>, i: nat)
    requires i < |ss|
    ensures LinesOf(ss, i + 1) == LinesOf(ss, i) + (if Trim(ss[i]) == "" then [] else [CipherSentence(ss[i])])
  {
  }

  /** The whole cipher as a value. */
  function CipherOf(text: Js<string>): string {
    if !TruthyString(text) || Trim(text.value) == "" then ""
    else
      var sentences := Sentences(text.value);
      Clock.Join(LinesOf(sentences, |sentences|), '\n')
  }

  /** The inner loop of `cipherTextRaw`: the tokens of one sentence, with the running word count. */
  method CipherTokens(tokens: seq<string>) returns (processed: seq<string>)
    ensures processed == ProcessedOf(tokens, |tokens|)
  {
    processed := [];
    var wordCount := 0;
    for j := 0 to |tokens|
      invariant processed == ProcessedOf(tokens, j)
      invariant wordCount == WordsIn(tokens, j)
    {
      var token := tokens[j];
      if IsWord(token) {
        wordCount := wordCount + 1;
        if wordCount % 4 == 0 {
          processed := processed + [token];
        } else {
          processed := processed + [[token[0]]];
        }
      } else {
        processed := processed + [token];
      }
    }
  }

  /** The outer loop of `cipherTextRaw`: one line per non-blank sentence, in order. */
  method CipherLines(sentences: seq<string>) returns (output: seq<string>)
    ensures output == LinesOf(sentences, |sentences|)
  {
    output := [];
    for i := 0 to |sentences|
      invariant output == LinesOf(sentences, i)
    {
      var sentence := sentences[i];
      LinesStep(sentences, i);
      if Trim(sentence) == "" {
        continue;
      }
      var tokens := Tokenize(sentence);
      var processed := CipherTokens(tokens);
      output := output + [Clock.Join(processed, ' ')];
    }
  }

  /** `cipherTextRaw(text)`: "" for a missing or blank text, else the sentence lines joined by "\n". */
  method CipherTextRaw(text: Js<string>) returns (r: string)
    ensures r == CipherOf(text)
    ensures !TruthyString(text) || AllWhitespace(text.value) ==> r == ""
  {
    if !TruthyString(text) || Trim(text.value) == "" {
      TrimEmptyIffBlank(if text.Val? then text.value else "");
      return "";
    }
    TrimEmptyIffBlank(text.value);
    var sentences := Sentences(text.value);
    var output := CipherLines(sentences);
    r := Clock.Join(output, '\n');
  }

  // ---------------------------------------------------------------------
  // Reading a cipher line back

  lemma TokenHasNoSpace(t: string)
    requires IsToken(t)
    ensures ' ' !in t && '\n' !in t
  {
    if IsWord(t) {
      forall i | 0 <= i < |t| ensures t[i] != ' ' && t[i] != '\n' {
        assert IsWordChar(t[i]);
      }
    }
  }

  /**
   * A non-blank sentence's line splits on " " into exactly its shown tokens, one per
   * token of the sentence, each starting with that token's first character.
   */
  lemma CipherLineReadsBack(sentence: string)
    requires !AllWhitespace(sentence)
    ensures var tokens := Tokenize(sentence);
      var shown := Clock.Split(CipherSentence(sentence), ' ');
      shown == ProcessedOf(tokens, |tokens|)
      && |shown| == |tokens|
      && forall i :: 0 <= i < |tokens| ==> tokens[i] != "" && shown[i] != "" && shown[i][0] == tokens[i][0]
  {
    var tokens := Tokenize(sentence);
    var processed := ProcessedOf(tokens, |tokens|);
    NonBlankHasTokens(sentence);
    TokenizeGivesTokens(sentence);
    forall i | 0 <= i < |tokens| ensures tokens[i] != "" && processed[i] != "" && processed[i][0] == tokens[i][0] && ' ' !in processed[i] {
      ProcessedMeaning(tokens, |tokens|, i);
      CipherKeepsInitial(tokens[i], WordsIn(tokens, i + 1));
      TokenHasNoSpace(Cipher(tokens[i], WordsIn(tokens, i + 1)));
    }
    Clock.SplitJoin(processed, ' ');
  }
}
