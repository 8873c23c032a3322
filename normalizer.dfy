/**
  Token cleaning (`clean_tokenize`): lowercase the search term, tokenize it,
  keep the tokens that are alphabetic and not stop words, and lemmatize each
  kept token, in order. The tokenizer, the lemmatizer and `str.isalpha` are
  library code and are taken as given functions.
 */
module TextNormalizer {
  import opened Text

  /** The natural-language toolkit the pipeline calls into. */
  datatype Nlp = Nlp(
    tokenize: string -> seq<string>,   // word_tokenize
    lemmatize: string -> string,       // WordNetLemmatizer().lemmatize
    isAlpha: string -> bool)           // str.isalpha

  /** The short function words added to the English stop-word corpus. */
  const AdditionalStops: set<string> := {"in", "for", "the", "of", "if", "when", "and", "de", "para"}

  /** The stop-word set: the corpus list together with the additional words. */
  function StopWords(corpus: set<string>): (s: set<string>)
    ensures forall w :: w in s <==> w in corpus || w in AdditionalStops
  {
    corpus + AdditionalStops
  }

  /** The filter of the list comprehension. */
  predicate Kept(nlp: Nlp, stops: set<string>, token: string)
  {
    nlp.isAlpha(token) && token !in stops
  }

  /** `[lemmatize(t) for t in tokens if t.isalpha() and t not in stops]` */
  function CleanTokens(nlp: Nlp, stops: set<string>, tokens: seq<string>): seq<string>
  {
    if |tokens| == 0 then []
    else
      var last := tokens[|tokens| - 1];
      CleanTokens(nlp, stops, tokens[..|tokens| - 1])
        + (if Kept(nlp, stops, last) then [nlp.lemmatize(last)] else [])
  }

  /**
    `clean_tokenize(text, stops)`: the lemmas, in order, of exactly the kept
    tokens of the lowercased text.
   */
  function CleanTokenize(nlp: Nlp, text: string, stops: set<string>): (r: seq<string>)
    ensures var tokens := nlp.tokenize(Lower(text)); var idx := KeptIndices(nlp, stops, tokens);
      |r| == |idx| && forall k :: 0 <= k < |r| ==> r[k] == nlp.lemmatize(tokens[idx[k]])
  {
    var tokens := nlp.tokenize(Lower(text));
    CleanTokensAreLemmasOfKept(nlp, stops, tokens);
    CleanTokens(nlp, stops, tokens)
  }

  /** The positions of the kept tokens, in increasing order. */
  function KeptIndices(nlp: Nlp, stops: set<string>, tokens: seq<string>): (idx: seq<nat>)
    ensures forall k :: 0 <= k < |idx| ==> idx[k] < |tokens| && Kept(nlp, stops, tokens[idx[k]])
    ensures forall k, l :: 0 <= k < l < |idx| ==> idx[k] < idx[l]
    ensures forall i :: 0 <= i < |tokens| && Kept(nlp, stops, tokens[i]) ==> i in idx
  {
    if |tokens| == 0 then []
    else
      var n := |tokens| - 1;
      KeptIndices(nlp, stops, tokens[..n]) + (if Kept(nlp, stops, tokens[n]) then [n] else [])
  }

  /**
    The cleaned tokens are, in order, the lemmas of exactly the kept raw
    tokens: one output per kept position, none for any other.
   */
  lemma {:induction false} CleanTokensAreLemmasOfKept(nlp: Nlp, stops: set<string>, tokens: seq<string>)
    ensures var r, idx := CleanTokens(nlp, stops, tokens), KeptIndices(nlp, stops, tokens);
      |r| == |idx| && forall k :: 0 <= k < |r| ==> r[k] == nlp.lemmatize(tokens[idx[k]])
  {
    if |tokens| > 0 {
      var n := |tokens| - 1;
      CleanTokensAreLemmasOfKept(nlp, stops, tokens[..n]);
      var r0, idx0 := CleanTokens(nlp, stops, tokens[..n]), KeptIndices(nlp, stops, tokens[..n]);
      forall k | 0 <= k < |idx0|
        ensures tokens[..n][idx0[k]] == tokens[idx0[k]]
      {
      }
    }
  }

  /** Cleaning never produces more tokens than the tokenizer gave. */
  lemma {:induction false} CleanTokensLength(nlp: Nlp, stops: set<string>, tokens: seq<string>)
    ensures |CleanTokens(nlp, stops, tokens)| <= |tokens|
  {
    if |tokens| > 0 {
      CleanTokensLength(nlp, stops, tokens[..|tokens| - 1]);
    }
  }

  /** Cleaning distributes over concatenation of token lists (order is kept). */
  lemma {:induction false} CleanTokensAppend(nlp: Nlp, stops: set<string>, a: seq<string>, b: seq<string>)
    ensures CleanTokens(nlp, stops, a + b) == CleanTokens(nlp, stops, a) + CleanTokens(nlp, stops, b)
    decreases |b|
  {
    if |b| > 0 {
      var n := |b| - 1;
      assert (a + b)[..|a + b| - 1] == a + b[..n];
      CleanTokensAppend(nlp, stops, a, b[..n]);
    } else {
      assert a + b == a;
    }
  }

  /** A stop word, even an alphabetic one, never survives cleaning on its own. */
  lemma StopWordsDropped(nlp: Nlp, stops: set<string>, w: string)
    requires w in stops
    ensures CleanTokens(nlp, stops, [w]) == []
  {
    assert [w][..0] == [];
  }
}
