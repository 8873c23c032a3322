/**
  N-gram generation: order 1 is the identity on the token list (each token
  is its own key); orders 2 and 3 are NLTK's `bigrams` / `trigrams`, the
  contiguous windows obtained by sliding one position at a time.
 */
module NGrams {

  /** An n-gram key: a tuple of tokens, compared by value and order. */
  type NGram = seq<string>

  /** The three orders the report is built for. */
  datatype Order = Mono | Bi | Tri {
    function Size(): (n: nat)
      ensures 1 <= n <= 3
    {
      match this
      case Mono => 1
      case Bi => 2
      case Tri => 3
    }
  }

  /** Every contiguous window of `n` tokens, left to right. */
  function Windows(tokens: seq<string>, n: nat): seq<NGram>
    requires n >= 1
  {
    if |tokens| < n then [] else [tokens[..n]] + Windows(tokens[1..], n)
  }

  /** The n-gram function applied to the cleaned tokens of one search term. */
  function NGramsOf(order: Order, tokens: seq<string>): seq<NGram>
  {
    match order
    case Mono => seq(|tokens|, i requires 0 <= i < |tokens| => [tokens[i]])
    case Bi => Windows(tokens, 2)
    case Tri => Windows(tokens, 3)
  }

  /** The number of windows of size n over L tokens: max(0, L - n + 1). */
  function WindowCount(len: nat, n: nat): nat
  {
    if len < n then 0 else len - n + 1
  }

  /** Window i is the slice tokens[i..i+n]; there are max(0, L - n + 1) of them. */
  lemma {:induction false} WindowsShape(tokens: seq<string>, n: nat)
    requires n >= 1
    ensures |Windows(tokens, n)| == WindowCount(|tokens|, n)
    ensures forall i :: 0 <= i < |Windows(tokens, n)| ==> Windows(tokens, n)[i] == tokens[i..i + n]
  {
    if |tokens| >= n {
      WindowsShape(tokens[1..], n);
      var w := Windows(tokens, n);
      forall i | 0 <= i < |w|
        ensures w[i] == tokens[i..i + n]
      {
        if i > 0 {
          assert w[i] == Windows(tokens[1..], n)[i - 1];
          assert tokens[1..][i - 1..i - 1 + n] == tokens[i..i + n];
        }
      }
    }
  }

  /**
    For every order, the n-grams of a token list of length L are the
    max(0, L - n + 1) contiguous slices of size n, in order; in particular
    fewer than n tokens give none, and order 1 is the identity.
   */
  lemma NGramsShape(order: Order, tokens: seq<string>)
    ensures |NGramsOf(order, tokens)| == WindowCount(|tokens|, order.Size())
    ensures forall i :: 0 <= i < |NGramsOf(order, tokens)| ==>
      NGramsOf(order, tokens)[i] == tokens[i..i + order.Size()]
  {
    match order
    case Mono =>
      var r := NGramsOf(order, tokens);
      forall i | 0 <= i < |r|
        ensures r[i] == tokens[i..i + 1]
      {
      }
    case Bi => WindowsShape(tokens, 2);
    case Tri => WindowsShape(tokens, 3);
  }

  /** The n-grams are windows of the token list, for order 1 as well. */
  lemma NGramsAreWindows(order: Order, tokens: seq<string>)
    ensures NGramsOf(order, tokens) == Windows(tokens, order.Size())
  {
    NGramsShape(order, tokens);
    WindowsShape(tokens, order.Size());
  }

  /** Three tokens at orders 2 and 3, and one token at order 2. */
  lemma BigramTrigramExample()
    ensures NGramsOf(Bi, ["running", "shoe", "sale"]) == [["running", "shoe"], ["shoe", "sale"]]
    ensures NGramsOf(Tri, ["running", "shoe", "sale"]) == [["running", "shoe", "sale"]]
    ensures NGramsOf(Bi, ["shoe"]) == []
  {
    var t := ["running", "shoe", "sale"];
    NGramsShape(Bi, t);
    NGramsShape(Tri, t);
    assert t[0..2] == ["running", "shoe"];
    assert t[1..3] == ["shoe", "sale"];
    assert t[0..3] == t;
  }
}
