/**
 How the adapter reads event types it does not know (agent/adapter.rs): tokens, completion
 suffixes and negation.
 */
module EventTokens {
  import opened Wrappers
  import opened Text

  predicate IsDelimiter(c: char) {
    c == '.' || c == '_' || c == '-' || c == ':' || c == '/'
  }

  predicate IsBreak(c: char) {
    IsDelimiter(c) || IsWhitespace(c)
  }

  function Piece(begun: string): seq<string> {
    if begun == "" then [] else [begun]
  }

  /** The non-empty pieces between breaks, the first of which began with the given characters. */
  function TokensFrom(begun: string, s: string): seq<string>
    decreases s
  {
    if s == "" then Piece(begun)
    else if IsBreak(s[0]) then Piece(begun) + TokensFrom("", s[1..])
    else TokensFrom(begun + [s[0]], s[1..])
  }

  function Tokens(s: string): seq<string> {
    TokensFrom("", s)
  }

  /** What follows the last delimiter; white space does not count here. */
  function LastSegment(s: string): string {
    if s == "" || IsDelimiter(s[|s| - 1]) then "" else LastSegment(s[..|s| - 1]) + [s[|s| - 1]]
  }

  predicate EndsWith(s: string, suffix: string) {
    |suffix| <= |s| && s[|s| - |suffix|..] == suffix
  }

  function Before(s: string, suffix: string): string
    requires EndsWith(s, suffix)
  {
    s[..|s| - |suffix|]
  }

  predicate IsCompletionWord(w: string) {
    w == "completed" || w == "complete" || w == "end"
  }

  predicate NotFollowedByCompletion(tokens: seq<string>) {
    exists i :: 0 <= i < |tokens| - 1 && tokens[i] == "not" && IsCompletionWord(tokens[i + 1])
  }

  /** The loop over the tokens that remembers the one before. */
  method HasNotCompletionTokens(s: string) returns (found: bool)
    ensures found == NotFollowedByCompletion(Tokens(s))
  {
    var tokens := Tokens(s);
    var previous: Option<string> := None;
    for i := 0 to |tokens|
      invariant previous == if i == 0 then None else Some(tokens[i - 1])
      invariant forall j :: 0 <= j < i - 1 ==> !(tokens[j] == "not" && IsCompletionWord(tokens[j + 1]))
    {
      if previous == Some("not") && IsCompletionWord(tokens[i]) {
        return true;
      }
      previous := Some(tokens[i]);
    }
    found := false;
  }

  /** A suffix that names completion, unless the segment before it is "not". */
  predicate HasCompletionSuffix(s: string, suffix: string) {
    EndsWith(s, suffix) && LastSegment(Before(s, suffix)) != "not"
  }

  predicate EndsInNegated(s: string, suffix: string) {
    EndsWith(s, suffix) && LastSegment(Before(s, suffix)) == "not"
  }

  predicate AnyDelimited(s: string, word: string, p: (string, string) -> bool) {
    || p(s, "." + word) || p(s, "_" + word) || p(s, "-" + word) || p(s, ":" + word) || p(s, "/" + word)
  }

  predicate IsAmbiguousIncomplete(s: string) {
    || "incomplete" in Tokens(s)
    || NotFollowedByCompletion(Tokens(s))
    || AnyDelimited(s, "complete", EndsInNegated)
  }

  predicate IsGenericCompletion(s: string) {
    || IsCompletionWord(s)
    || AnyDelimited(s, "completed", HasCompletionSuffix)
    || AnyDelimited(s, "complete", HasCompletionSuffix)
    || AnyDelimited(s, "end", HasCompletionSuffix)
  }

  // ---------- tokens of concatenations ----------

  predicate Unbroken(w: string) {
    w != "" && forall i :: 0 <= i < |w| ==> !IsBreak(w[i])
  }

  lemma {:induction false} TokenOfWord(begun: string, w: string)
    requires forall i :: 0 <= i < |w| ==> !IsBreak(w[i])
    ensures TokensFrom(begun, w) == Piece(begun + w)
    decreases w
  {
    if w == "" {
      assert begun + w == begun;
    } else {
      TokenOfWord(begun + [w[0]], w[1..]);
      assert begun + [w[0]] + w[1..] == begun + w;
    }
  }

  /** Tokens before and after a break do not mix. */
  lemma {:induction false} TokensAtBreak(begun: string, u: string, c: char, v: string)
    requires IsBreak(c)
    ensures TokensFrom(begun, u + [c] + v) == TokensFrom(begun, u) + Tokens(v)
    decreases u
  {
    var s := u + [c] + v;
    if u == "" {
      assert s[0] == c && s[1..] == v;
    } else {
      assert s[0] == u[0] && s[1..] == u[1..] + [c] + v;
      if IsBreak(u[0]) {
        TokensAtBreak("", u[1..], c, v);
        assert Piece(begun) + (TokensFrom("", u[1..]) + Tokens(v)) == Piece(begun) + TokensFrom("", u[1..]) + Tokens(v);
      } else {
        TokensAtBreak(begun + [u[0]], u[1..], c, v);
      }
    }
  }

  lemma TokensOfDelimitedWord(u: string, c: char, w: string)
    requires IsBreak(c) && Unbroken(w)
    ensures Tokens(u + [c] + w) == Tokens(u) + [w]
  {
    TokensAtBreak("", u, c, w);
    TokenOfWord("", w);
    assert "" + w == w;
  }

  /** A string is its last segment, after a delimiter if there is anything before it. */
  lemma {:induction false} SplitLastSegment(s: string) returns (head: string)
    ensures s == head + LastSegment(s)
    ensures head == "" || IsDelimiter(head[|head| - 1])
  {
    if s == "" || IsDelimiter(s[|s| - 1]) {
      head := s;
      assert s == head + "";
    } else {
      var n := |s| - 1;
      head := SplitLastSegment(s[..n]);
      assert s == s[..n] + [s[n]] == head + (LastSegment(s[..n]) + [s[n]]);
    }
  }

  lemma CompletionWordsUnbroken()
    ensures Unbroken("not") && Unbroken("completed") && Unbroken("complete") && Unbroken("end")
  {
  }

  // ---------- negation ----------

  /** A last segment "not" before a delimited word is the token "not" before that word. */
  lemma NegatedSuffixIsTokenPair(s: string, c: char, w: string)
    requires IsDelimiter(c) && IsCompletionWord(w)
    requires EndsInNegated(s, [c] + w)
    ensures NotFollowedByCompletion(Tokens(s))
  {
    CompletionWordsUnbroken();
    var p := Before(s, [c] + w);
    assert s == p + [c] + w;
    TokensOfDelimitedWord(p, c, w);
    var head := SplitLastSegment(p);
    assert p == head + "not";
    EndsInToken(head, "not");
    var tokens := Tokens(s);
    assert tokens[|tokens| - 2] == "not" && tokens[|tokens| - 1] == w;
  }

  lemma EndsInToken(head: string, w: string)
    requires head == "" || IsDelimiter(head[|head| - 1])
    requires Unbroken(w)
    ensures Tokens(head + w) != [] && Tokens(head + w)[|Tokens(head + w)| - 1] == w
  {
    if head == "" {
      assert head + w == w;
      TokenOfWord("", w);
      assert "" + w == w;
    } else {
      var n := |head| - 1;
      assert head + w == head[..n] + [head[n]] + w;
      TokensOfDelimitedWord(head[..n], head[n], w);
    }
  }

  lemma DelimitedForms(word: string)
    ensures "." + word == ['.'] + word && "_" + word == ['_'] + word && "-" + word == ['-'] + word
    ensures ":" + word == [':'] + word && "/" + word == ['/'] + word
  {
  }

  /** The test on suffixes adds nothing to the test on token pairs. */
  lemma SuffixNegationIsRedundant(s: string)
    ensures AnyDelimited(s, "complete", EndsInNegated) ==> NotFollowedByCompletion(Tokens(s))
    ensures IsAmbiguousIncomplete(s) <==> "incomplete" in Tokens(s) || NotFollowedByCompletion(Tokens(s))
  {
    DelimitedForms("complete");
    if EndsInNegated(s, "." + "complete") { NegatedSuffixIsTokenPair(s, '.', "complete"); }
    if EndsInNegated(s, "_" + "complete") { NegatedSuffixIsTokenPair(s, '_', "complete"); }
    if EndsInNegated(s, "-" + "complete") { NegatedSuffixIsTokenPair(s, '-', "complete"); }
    if EndsInNegated(s, ":" + "complete") { NegatedSuffixIsTokenPair(s, ':', "complete"); }
    if EndsInNegated(s, "/" + "complete") { NegatedSuffixIsTokenPair(s, '/', "complete"); }
  }

  /** The type is a completion word or ends in a delimiter and one. */
  predicate EndsInCompletion(s: string) {
    || IsCompletionWord(s)
    || AnyDelimited(s, "completed", EndsWith)
    || AnyDelimited(s, "complete", EndsWith)
    || AnyDelimited(s, "end", EndsWith)
  }

  lemma DelimitedTestsAgree(s: string, word: string)
    requires IsCompletionWord(word) && !NotFollowedByCompletion(Tokens(s))
    ensures AnyDelimited(s, word, HasCompletionSuffix) == AnyDelimited(s, word, EndsWith)
  {
    DelimitedForms(word);
    if EndsInNegated(s, "." + word) { NegatedSuffixIsTokenPair(s, '.', word); }
    if EndsInNegated(s, "_" + word) { NegatedSuffixIsTokenPair(s, '_', word); }
    if EndsInNegated(s, "-" + word) { NegatedSuffixIsTokenPair(s, '-', word); }
    if EndsInNegated(s, ":" + word) { NegatedSuffixIsTokenPair(s, ':', word); }
    if EndsInNegated(s, "/" + word) { NegatedSuffixIsTokenPair(s, '/', word); }
  }

  /** Once a type is not ambiguous, the completion test is the plain suffix test. */
  lemma CompletionIsPlainSuffix(s: string)
    requires !IsAmbiguousIncomplete(s)
    ensures IsGenericCompletion(s) == EndsInCompletion(s)
  {
    DelimitedTestsAgree(s, "completed");
    DelimitedTestsAgree(s, "complete");
    DelimitedTestsAgree(s, "end");
  }

  // ---------- the last segment ----------

  /** The type ends in a completion word that stands alone or after a delimiter. */
  ghost predicate SaysCompleted(s: string) {
    LastSegment(s) == "completed" || LastSegment(s) == "complete" || LastSegment(s) == "end"
  }

  lemma {:induction false} LastSegmentOf(head: string, c: char, w: string)
    requires IsDelimiter(c) && forall i :: 0 <= i < |w| ==> !IsDelimiter(w[i])
    ensures LastSegment(head + [c] + w) == w
  {
    var s := head + [c] + w;
    if w != "" {
      var n := |w| - 1;
      assert s[|s| - 1] == w[n] && s[..|s| - 1] == head + [c] + w[..n];
      LastSegmentOf(head, c, w[..n]);
      assert w[..n] + [w[n]] == w;
    }
  }

  lemma {:induction false} LastSegmentOfWord(w: string)
    requires forall i :: 0 <= i < |w| ==> !IsDelimiter(w[i])
    ensures LastSegment(w) == w
  {
    if w != "" {
      var n := |w| - 1;
      LastSegmentOfWord(w[..n]);
      assert w[..n] + [w[n]] == w;
    }
  }

  lemma DelimitedSuffix(s: string, c: char, w: string)
    requires IsDelimiter(c) && forall i :: 0 <= i < |w| ==> !IsDelimiter(w[i])
    ensures EndsWith(s, [c] + w) ==> LastSegment(s) == w
  {
    if EndsWith(s, [c] + w) {
      assert s == Before(s, [c] + w) + [c] + w;
      LastSegmentOf(Before(s, [c] + w), c, w);
    }
  }

  /** A string ends in a delimiter and a word, or is that word, exactly when the word is its last segment. */
  lemma WordIsLastSegment(s: string, w: string)
    requires forall i :: 0 <= i < |w| ==> !IsDelimiter(w[i])
    ensures s == w || AnyDelimited(s, w, EndsWith) <==> LastSegment(s) == w
  {
    DelimitedForms(w);
    LastSegmentOfWord(w);
    DelimitedSuffix(s, '.', w);
    DelimitedSuffix(s, '_', w);
    DelimitedSuffix(s, '-', w);
    DelimitedSuffix(s, ':', w);
    DelimitedSuffix(s, '/', w);
    if LastSegment(s) == w {
      var head := SplitLastSegment(s);
      if head != "" {
        var n := |head| - 1;
        assert s == head[..n] + ([head[n]] + w);
        assert s[|s| - (1 + |w|)..] == [head[n]] + w;
      }
    }
  }

  lemma CompletionIsLastSegment(s: string)
    ensures EndsInCompletion(s) <==> SaysCompleted(s)
  {
    WordIsLastSegment(s, "completed");
    WordIsLastSegment(s, "complete");
    WordIsLastSegment(s, "end");
  }
}
