/**
  One row of an aggregated n-gram table, and `sort_values(by='Spend',
  ascending=False)`. The sort is not stable in pandas, so only its result
  shape is promised: non-increasing Spend, and the same rows as before.
 */
module Groups {
  import opened Wrappers
  import opened Metrics
  import opened NGrams

  /**
    The n-gram key, its summed metrics, the derived ratios, and the
    `Campaign ID` cell added by the left merge (None when no match).
   */
  datatype Group = Group(ngram: NGram, sums: Metrics, ratios: Ratios, campaignIds: Option<set<string>>)

  predicate NonIncreasingSpend(gs: seq<Group>)
  {
    forall i, j :: 0 <= i < j < |gs| ==> gs[i].sums.spend >= gs[j].sums.spend
  }

  /** The set of n-gram keys present in a table. */
  function KeySet(gs: seq<Group>): set<NGram>
  {
    if |gs| == 0 then {} else {gs[0].ngram} + KeySet(gs[1..])
  }

  /** No n-gram key appears twice. */
  predicate KeysDistinct(gs: seq<Group>)
  {
    forall i, j :: 0 <= i < j < |gs| ==> gs[i].ngram != gs[j].ngram
  }

  /** Put `x` before the first row that spent strictly less. */
  function Insert(x: Group, gs: seq<Group>): (r: seq<Group>)
    requires NonIncreasingSpend(gs)
    ensures NonIncreasingSpend(r)
    ensures |r| == |gs| + 1 && (r[0] == x || (|gs| > 0 && r[0] == gs[0]))
  {
    if |gs| == 0 || x.sums.spend >= gs[0].sums.spend then
      [x] + gs
    else
      var rest := Insert(x, gs[1..]);
      ConsSorted(gs[0], rest, gs[1..]);
      [gs[0]] + rest
  }

  /**
    Putting the first row `g` of a sorted table back before `rest`, the
    sorted insertion into the remaining `tail`, keeps the order.
   */
  lemma ConsSorted(g: Group, rest: seq<Group>, tail: seq<Group>)
    requires |tail| > 0 ==> g.sums.spend >= tail[0].sums.spend
    requires NonIncreasingSpend(rest)
    requires |rest| > 0 && ((|tail| > 0 && rest[0] == tail[0]) || g.sums.spend >= rest[0].sums.spend)
    ensures NonIncreasingSpend([g] + rest)
  {
    var r := [g] + rest;
    forall i, j | 0 <= i < j < |r|
      ensures r[i].sums.spend >= r[j].sums.spend
    {
      assert r[j] == rest[j - 1];
      if i > 0 {
        assert r[i] == rest[i - 1];
      }
    }
  }

  /** Inserting adds exactly the one row. */
  lemma {:induction false} InsertPermutes(x: Group, gs: seq<Group>)
    requires NonIncreasingSpend(gs)
    ensures multiset(Insert(x, gs)) == multiset(gs) + multiset{x}
  {
    if !(|gs| == 0 || x.sums.spend >= gs[0].sums.spend) {
      InsertPermutes(x, gs[1..]);
      assert gs == [gs[0]] + gs[1..];
    }
  }

  /** `sort_values(by='Spend', ascending=False)`, as an insertion sort. */
  function SortBySpend(gs: seq<Group>): (r: seq<Group>)
    ensures NonIncreasingSpend(r)
    ensures multiset(r) == multiset(gs)
  {
    if |gs| == 0 then []
    else
      var sorted := SortBySpend(gs[1..]);
      SortStepPermutes(gs, sorted);
      Insert(gs[0], sorted)
  }

  /** Inserting the first row into a permutation of the others gives a permutation of all. */
  lemma SortStepPermutes(gs: seq<Group>, sorted: seq<Group>)
    requires |gs| > 0 && NonIncreasingSpend(sorted) && multiset(sorted) == multiset(gs[1..])
    ensures multiset(Insert(gs[0], sorted)) == multiset(gs)
  {
    InsertPermutes(gs[0], sorted);
    assert gs == [gs[0]] + gs[1..];
  }

  /** A key is in the key set exactly when some row carries it. */
  lemma {:induction false} KeySetMembers(gs: seq<Group>, k: NGram)
    ensures k in KeySet(gs) <==> exists i :: 0 <= i < |gs| && gs[i].ngram == k
  {
    if |gs| > 0 {
      KeySetMembers(gs[1..], k);
      if k in KeySet(gs[1..]) {
        var i :| 0 <= i < |gs[1..]| && gs[1..][i].ngram == k;
        assert gs[i + 1].ngram == k;
      }
      if exists i :: 0 <= i < |gs| && gs[i].ngram == k {
        var i :| 0 <= i < |gs| && gs[i].ngram == k;
        if i > 0 {
          assert gs[1..][i - 1].ngram == k;
        }
      }
    }
  }

  /** Inserting adds the new row's key to the key set. */
  lemma {:induction false} InsertKeySet(x: Group, gs: seq<Group>)
    requires NonIncreasingSpend(gs)
    ensures KeySet(Insert(x, gs)) == KeySet(gs) + {x.ngram}
  {
    var r := Insert(x, gs);
    if |gs| == 0 || x.sums.spend >= gs[0].sums.spend {
      assert r[1..] == gs;
    } else {
      InsertKeySet(x, gs[1..]);
      assert r[1..] == Insert(x, gs[1..]);
    }
  }

  /** Inserting keeps keys distinct when the new key is not already present. */
  lemma {:induction false} InsertKeysDistinct(x: Group, gs: seq<Group>)
    requires NonIncreasingSpend(gs) && KeysDistinct(gs) && x.ngram !in KeySet(gs)
    ensures KeysDistinct(Insert(x, gs))
  {
    var r := Insert(x, gs);
    if |gs| == 0 || x.sums.spend >= gs[0].sums.spend {
      KeySetMembers(gs, x.ngram);
      forall i, j | 0 <= i < j < |r|
        ensures r[i].ngram != r[j].ngram
      {
        assert r[j] == gs[j - 1];
        if i > 0 {
          assert r[i] == gs[i - 1];
        }
      }
    } else {
      var rest := Insert(x, gs[1..]);
      TailKeys(gs);
      InsertKeySet(x, gs[1..]);
      InsertKeysDistinct(x, gs[1..]);
      KeySetMembers(rest, gs[0].ngram);
      forall i, j | 0 <= i < j < |r|
        ensures r[i].ngram != r[j].ngram
      {
        assert r[j] == rest[j - 1];
        if i > 0 {
          assert r[i] == rest[i - 1];
        }
      }
    }
  }

  /** Sorting keeps the key set and keeps keys distinct. */
  lemma {:induction false} SortKeys(gs: seq<Group>)
    ensures KeySet(SortBySpend(gs)) == KeySet(gs)
    ensures KeysDistinct(gs) ==> KeysDistinct(SortBySpend(gs))
  {
    if |gs| > 0 {
      var tail := gs[1..];
      SortKeys(tail);
      var sorted := SortBySpend(tail);
      InsertKeySet(gs[0], sorted);
      if KeysDistinct(gs) {
        TailKeys(gs);
        InsertKeysDistinct(gs[0], sorted);
      }
    }
  }

  /** Dropping the first row of a table with distinct keys leaves distinct keys without that row's key. */
  lemma TailKeys(gs: seq<Group>)
    requires |gs| > 0 && KeysDistinct(gs)
    ensures KeysDistinct(gs[1..]) && gs[0].ngram !in KeySet(gs[1..])
  {
    var tail := gs[1..];
    forall i, j | 0 <= i < j < |tail|
      ensures tail[i].ngram != tail[j].ngram
    {
      assert tail[i] == gs[i + 1] && tail[j] == gs[j + 1];
    }
    KeySetMembers(tail, gs[0].ngram);
    forall i | 0 <= i < |tail|
      ensures tail[i].ngram != gs[0].ngram
    {
      assert tail[i] == gs[i + 1];
    }
  }

  /** Sorting neither adds nor drops a row: every row of the result was a row before. */
  lemma SortedRowsAreInputRows(gs: seq<Group>)
    ensures forall g :: g in SortBySpend(gs) <==> g in gs
    ensures |SortBySpend(gs)| == |gs|
  {
    var r := SortBySpend(gs);
    assert |multiset(r)| == |multiset(gs)|;
    forall g
      ensures g in r <==> g in gs
    {
      assert g in r <==> g in multiset(r);
      assert g in gs <==> g in multiset(gs);
    }
  }
}
