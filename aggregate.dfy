/**
  `aggregate_ngrams`: write the `ngrams` column, explode the frame into one
  row per n-gram occurrence, group by n-gram summing the five metrics,
  derive the ratios, attach the set of stringified campaign IDs with a left
  merge, and sort by Spend, descending.
 */
module Aggregation {
  import opened Wrappers
  import opened Text
  import opened Metrics
  import opened NGrams
  import opened TextNormalizer
  import opened Frame
  import opened Groups

  /**
    One row of `data.explode('ngrams')`: the original row with one of its
    n-grams, or with NaN (None) when its n-gram list was empty.
   */
  datatype Exploded = Exploded(row: Row, ngram: Option<NGram>)

  /** The exploded rows of one row with a non-empty n-gram list. */
  function Pairs(row: Row, ngs: seq<NGram>): (ps: seq<Exploded>)
    ensures |ps| == |ngs|
  {
    if |ngs| == 0 then []
    else Pairs(row, ngs[..|ngs| - 1]) + [Exploded(row, Some(ngs[|ngs| - 1]))]
  }

  /** Exploded row `i` of a row is the row paired with its `i`-th n-gram. */
  lemma {:induction false} PairsAt(row: Row, ngs: seq<NGram>)
    ensures forall i :: 0 <= i < |ngs| ==> Pairs(row, ngs)[i] == Exploded(row, Some(ngs[i]))
  {
    if |ngs| > 0 {
      var n := |ngs| - 1;
      PairsAt(row, ngs[..n]);
    }
  }

  /** What `explode` makes of one row: one row per n-gram, or a single NaN row. */
  function Block(row: Row, ngs: seq<NGram>): seq<Exploded>
  {
    if |ngs| == 0 then [Exploded(row, None)] else Pairs(row, ngs)
  }

  /** `data.explode('ngrams')`: the blocks of all rows, in row order. */
  function Explode(rows: seq<Row>, col: seq<seq<NGram>>): (r: seq<Exploded>)
    requires |col| == |rows|
    ensures |r| == 0 <==> |rows| == 0
  {
    if |rows| == 0 then []
    else
      var n := |rows| - 1;
      Explode(rows[..n], col[..n]) + Block(rows[n], col[n])
  }

  /** The group keys of an exploded frame: its n-grams, NaN excluded. */
  function PairKeys(ps: seq<Exploded>): set<NGram>
  {
    if |ps| == 0 then {}
    else
      var p := ps[|ps| - 1];
      PairKeys(ps[..|ps| - 1]) + (if p.ngram.Some? then {p.ngram.value} else {})
  }

  /** `groupby('ngrams')[metrics].sum()` for the group of `g`. */
  function PairTotals(ps: seq<Exploded>, g: NGram): Metrics
  {
    if |ps| == 0 then Zero
    else if ps[|ps| - 1].ngram == Some(g) then Add(PairTotals(ps[..|ps| - 1], g), ps[|ps| - 1].row.metrics)
    else PairTotals(ps[..|ps| - 1], g)
  }

  /** `groupby('ngrams')['Campaign ID'].apply(set(map(str, x)))` for the group of `g`. */
  function PairIds(ps: seq<Exploded>, g: NGram): set<string>
  {
    if |ps| == 0 then {}
    else
      var p := ps[|ps| - 1];
      PairIds(ps[..|ps| - 1], g) + (if p.ngram == Some(g) then {ShowInt(p.row.campaignId)} else {})
  }

  /** The number of occurrences of `g` in one row's n-gram list. */
  function Count(g: NGram, ngs: seq<NGram>): (k: nat)
    ensures k > 0 <==> g in ngs
  {
    if |ngs| == 0 then 0
    else
      assert ngs == ngs[..|ngs| - 1] + [ngs[|ngs| - 1]];
      Count(g, ngs[..|ngs| - 1]) + (if ngs[|ngs| - 1] == g then 1 else 0)
  }

  /** The count is the multiplicity of `g` in the row's n-gram list. */
  lemma {:induction false} CountIsMultiplicity(g: NGram, ngs: seq<NGram>)
    ensures Count(g, ngs) == multiset(ngs)[g]
  {
    if |ngs| > 0 {
      var n := |ngs| - 1;
      CountIsMultiplicity(g, ngs[..n]);
      assert ngs == ngs[..n] + [ngs[n]];
    }
  }

  /** The reference sum: each row's metrics, once per occurrence of `g` in that row. */
  function RowTotals(rows: seq<Row>, col: seq<seq<NGram>>, g: NGram): Metrics
    requires |col| == |rows|
  {
    if |rows| == 0 then Zero
    else
      var n := |rows| - 1;
      Add(RowTotals(rows[..n], col[..n], g), Scale(Count(g, col[n]), rows[n].metrics))
  }

  /** The reference ID set: the stringified campaign IDs of the rows in which `g` occurs. */
  function RowIds(rows: seq<Row>, col: seq<seq<NGram>>, g: NGram): set<string>
    requires |col| == |rows|
  {
    if |rows| == 0 then {}
    else
      var n := |rows| - 1;
      RowIds(rows[..n], col[..n], g) + (if g in col[n] then {ShowInt(rows[n].campaignId)} else {})
  }

  /** `g` is an n-gram of at least one row. */
  predicate Occurs(g: NGram, col: seq<seq<NGram>>)
  {
    exists i :: 0 <= i < |col| && g in col[i]
  }

  /** The group keys of two exploded frames put together. */
  lemma {:induction false} KeysAppend(a: seq<Exploded>, b: seq<Exploded>)
    ensures PairKeys(a + b) == PairKeys(a) + PairKeys(b)
    decreases |b|
  {
    if |b| == 0 {
      assert a + b == a;
    } else {
      var n := |b| - 1;
      assert (a + b)[..|a + b| - 1] == a + b[..n];
      KeysAppend(a, b[..n]);
    }
  }

  /** Group sums of two exploded frames put together. */
  lemma {:induction false} TotalsAppend(a: seq<Exploded>, b: seq<Exploded>, g: NGram)
    ensures PairTotals(a + b, g) == Add(PairTotals(a, g), PairTotals(b, g))
    decreases |b|
  {
    if |b| == 0 {
      assert a + b == a;
      AddZero(PairTotals(a, g));
    } else {
      var n := |b| - 1;
      assert (a + b)[..|a + b| - 1] == a + b[..n];
      TotalsAppend(a, b[..n], g);
      if b[n].ngram == Some(g) {
        AddAssociative(PairTotals(a, g), PairTotals(b[..n], g), b[n].row.metrics);
      }
    }
  }

  /** Group ID sets of two exploded frames put together. */
  lemma {:induction false} IdsAppend(a: seq<Exploded>, b: seq<Exploded>, g: NGram)
    ensures PairIds(a + b, g) == PairIds(a, g) + PairIds(b, g)
    decreases |b|
  {
    if |b| == 0 {
      assert a + b == a;
    } else {
      var n := |b| - 1;
      assert (a + b)[..|a + b| - 1] == a + b[..n];
      IdsAppend(a, b[..n], g);
    }
  }

  /** The group of `g` among one row's occurrences: key iff present, metrics times count, one ID. */
  lemma {:induction false} PairsFacts(row: Row, ngs: seq<NGram>, g: NGram)
    ensures g in PairKeys(Pairs(row, ngs)) <==> g in ngs
    ensures PairTotals(Pairs(row, ngs), g) == Scale(Count(g, ngs), row.metrics)
    ensures PairIds(Pairs(row, ngs), g) == if g in ngs then {ShowInt(row.campaignId)} else {}
  {
    if |ngs| > 0 {
      var n := |ngs| - 1;
      PairsFacts(row, ngs[..n], g);
      var ps, p := Pairs(row, ngs[..n]), Exploded(row, Some(ngs[n]));
      assert Pairs(row, ngs) == ps + [p];
      Snoc(ps, p, g);
      assert ngs == ngs[..n] + [ngs[n]];
      assert g in ngs <==> g in ngs[..n] || g == ngs[n];
      assert Count(g, ngs) == Count(g, ngs[..n]) + (if ngs[n] == g then 1 else 0);
      if ngs[n] == g {
        ScaleSucc(Count(g, ngs[..n]), row.metrics);
      } else {
        AddZero(Scale(Count(g, ngs[..n]), row.metrics));
      }
    }
  }

  /** The NaN row of a row without n-grams belongs to no group. */
  lemma {:induction false} NaNRowFacts(row: Row, g: NGram)
    ensures PairKeys([Exploded(row, None)]) == {}
    ensures PairTotals([Exploded(row, None)], g) == Zero
    ensures PairIds([Exploded(row, None)], g) == {}
  {
    var b := [Exploded(row, None)];
    assert b[..0] == [];
  }

  /** The same facts for the block `explode` makes of one row, NaN row included. */
  lemma {:induction false} BlockFacts(row: Row, ngs: seq<NGram>, g: NGram)
    ensures g in PairKeys(Block(row, ngs)) <==> g in ngs
    ensures PairTotals(Block(row, ngs), g) == Scale(Count(g, ngs), row.metrics)
    ensures PairIds(Block(row, ngs), g) == if g in ngs then {ShowInt(row.campaignId)} else {}
  {
    if |ngs| > 0 {
      assert Block(row, ngs) == Pairs(row, ngs);
      PairsFacts(row, ngs, g);
    } else {
      assert Block(row, ngs) == [Exploded(row, None)];
      NaNRowFacts(row, g);
      assert Count(g, ngs) == 0;
    }
  }

  /** `g` occurs in a column exactly when it occurs in its prefix or its last cell. */
  lemma {:induction false} OccursSnoc(g: NGram, col: seq<seq<NGram>>)
    requires |col| > 0
    ensures Occurs(g, col) <==> Occurs(g, col[..|col| - 1]) || g in col[|col| - 1]
  {
    var n := |col| - 1;
    if Occurs(g, col) {
      var i :| 0 <= i < |col| && g in col[i];
      if i < n {
        assert col[..n][i] == col[i];
      }
    }
    if Occurs(g, col[..n]) {
      var i :| 0 <= i < n && g in col[..n][i];
      assert col[i] == col[..n][i];
    }
  }

  /** An n-gram is a group key of the exploded frame exactly when some row has it. */
  lemma {:induction false} ExplodeKeys(rows: seq<Row>, col: seq<seq<NGram>>, g: NGram)
    requires |col| == |rows|
    ensures g in PairKeys(Explode(rows, col)) <==> Occurs(g, col)
  {
    if |rows| > 0 {
      var n := |rows| - 1;
      var prefix, block := Explode(rows[..n], col[..n]), Block(rows[n], col[n]);
      assert Explode(rows, col) == prefix + block;
      ExplodeKeys(rows[..n], col[..n], g);
      KeysAppend(prefix, block);
      BlockFacts(rows[n], col[n], g);
      OccursSnoc(g, col);
    }
  }

  /**
    Each summed metric of the group of `g` is the sum over the rows of the
    number of occurrences of `g` in the row times the row's metric.
   */
  lemma {:induction false} ExplodeTotals(rows: seq<Row>, col: seq<seq<NGram>>, g: NGram)
    requires |col| == |rows|
    ensures PairTotals(Explode(rows, col), g) == RowTotals(rows, col, g)
  {
    if |rows| > 0 {
      var n := |rows| - 1;
      var prefix, block := Explode(rows[..n], col[..n]), Block(rows[n], col[n]);
      assert Explode(rows, col) == prefix + block;
      ExplodeTotals(rows[..n], col[..n], g);
      TotalsAppend(prefix, block, g);
      BlockFacts(rows[n], col[n], g);
      assert RowTotals(rows, col, g) == Add(RowTotals(rows[..n], col[..n], g), Scale(Count(g, col[n]), rows[n].metrics));
    }
  }

  /** The ID set of the group of `g` is that of the rows in which `g` occurs. */
  lemma {:induction false} ExplodeIds(rows: seq<Row>, col: seq<seq<NGram>>, g: NGram)
    requires |col| == |rows|
    ensures PairIds(Explode(rows, col), g) == RowIds(rows, col, g)
  {
    if |rows| > 0 {
      var n := |rows| - 1;
      var prefix, block := Explode(rows[..n], col[..n]), Block(rows[n], col[n]);
      assert Explode(rows, col) == prefix + block;
      ExplodeIds(rows[..n], col[..n], g);
      IdsAppend(prefix, block, g);
      BlockFacts(rows[n], col[n], g);
    }
  }

  /** The reference ID set holds exactly the stringified IDs of the rows in which `g` occurs. */
  lemma {:induction false} RowIdsMembers(rows: seq<Row>, col: seq<seq<NGram>>, g: NGram, s: string)
    requires |col| == |rows|
    ensures s in RowIds(rows, col, g) <==>
      exists i :: 0 <= i < |rows| && g in col[i] && s == ShowInt(rows[i].campaignId)
  {
    if |rows| > 0 {
      var n := |rows| - 1;
      RowIdsMembers(rows[..n], col[..n], g, s);
      if exists i :: 0 <= i < |rows| && g in col[i] && s == ShowInt(rows[i].campaignId) {
        var i :| 0 <= i < |rows| && g in col[i] && s == ShowInt(rows[i].campaignId);
        if i < n {
          assert rows[..n][i] == rows[i] && col[..n][i] == col[i];
        }
      }
      if s in RowIds(rows[..n], col[..n], g) {
        var i :| 0 <= i < n && g in col[..n][i] && s == ShowInt(rows[..n][i].campaignId);
        assert rows[i] == rows[..n][i] && col[i] == col[..n][i];
      }
    }
  }

  /**
    Duplicates collapse and nothing else does: the stringified ID of `id`
    is in the set of `g` exactly when some row with campaign ID `id` has `g`.
   */
  lemma CampaignIdListed(rows: seq<Row>, col: seq<seq<NGram>>, g: NGram, id: int)
    requires |col| == |rows|
    ensures ShowInt(id) in RowIds(rows, col, g) <==>
      exists i :: 0 <= i < |rows| && g in col[i] && rows[i].campaignId == id
  {
    RowIdsMembers(rows, col, g, ShowInt(id));
    forall i | 0 <= i < |rows|
      ensures ShowInt(id) == ShowInt(rows[i].campaignId) <==> rows[i].campaignId == id
    {
      ShowIntInjective(id, rows[i].campaignId);
    }
  }

  /** A row in which `g` does not occur adds nothing to the sums of `g`. */
  lemma {:induction false} RowWithoutNGramAddsNothing(rows: seq<Row>, col: seq<seq<NGram>>, row: Row, ngs: seq<NGram>, g: NGram)
    requires |col| == |rows| && g !in ngs
    ensures RowTotals(rows + [row], col + [ngs], g) == RowTotals(rows, col, g)
    ensures RowIds(rows + [row], col + [ngs], g) == RowIds(rows, col, g)
  {
    assert (rows + [row])[..|rows|] == rows;
    assert (col + [ngs])[..|col|] == col;
    assert Count(g, ngs) == 0;
    assert Scale(0, row.metrics) == Zero;
    AddZero(RowTotals(rows, col, g));
  }

  /** An n-gram that occurs in no exploded row has all-zero totals and no IDs. */
  lemma {:induction false} AbsentKey(ps: seq<Exploded>, g: NGram)
    requires g !in PairKeys(ps)
    ensures PairTotals(ps, g) == Zero && PairIds(ps, g) == {}
  {
    if |ps| > 0 {
      AbsentKey(ps[..|ps| - 1], g);
      AddZero(Zero);
    }
  }

  /** One more exploded row, as the loops below see it. */
  lemma {:induction false} Snoc(ps: seq<Exploded>, p: Exploded, g: NGram)
    ensures (ps + [p])[..|ps|] == ps
    ensures g in PairKeys(ps + [p]) <==> g in PairKeys(ps) || p.ngram == Some(g)
    ensures PairTotals(ps + [p], g) == if p.ngram == Some(g) then Add(PairTotals(ps, g), p.row.metrics) else PairTotals(ps, g)
    ensures PairIds(ps + [p], g) == PairIds(ps, g) + (if p.ngram == Some(g) then {ShowInt(p.row.campaignId)} else {})
  {
    assert (ps + [p])[..|ps|] == ps;
  }

  /**
    `groupby('ngrams')[['Impressions', 'Clicks', 'Spend', 'Sales',
    'Units']].sum()`: one pass over the exploded rows accumulating into a
    map, with the keys listed once each in order of first appearance.
   */
  method SumMetrics(pairs: seq<Exploded>) returns (keys: seq<NGram>, sums: map<NGram, Metrics>)
    ensures forall i, j :: 0 <= i < j < |keys| ==> keys[i] != keys[j]
    ensures forall g :: g in keys <==> g in PairKeys(pairs)
    ensures forall g :: g in sums <==> g in PairKeys(pairs)
    ensures forall g :: g in sums ==> sums[g] == PairTotals(pairs, g)
  {
    keys, sums := [], map[];
    var k := 0;
    while k < |pairs|
      invariant 0 <= k <= |pairs|
      invariant forall i, j :: 0 <= i < j < |keys| ==> keys[i] != keys[j]
      invariant forall g :: g in keys <==> g in PairKeys(pairs[..k])
      invariant forall g :: g in sums <==> g in PairKeys(pairs[..k])
      invariant forall g :: g in sums ==> sums[g] == PairTotals(pairs[..k], g)
    {
      var p := pairs[k];
      assert pairs[..k + 1] == pairs[..k] + [p];
      forall g {
        Snoc(pairs[..k], p, g);
      }
      if p.ngram.Some? {
        var g := p.ngram.value;
        if g in sums {
          sums := sums[g := Add(sums[g], p.row.metrics)];
        } else {
          AbsentKey(pairs[..k], g);
          AddZero(p.row.metrics);
          keys := keys + [g];
          sums := sums[g := p.row.metrics];
        }
      }
      k := k + 1;
    }
    assert pairs[..k] == pairs;
  }

  /**
    `groupby('ngrams')['Campaign ID'].apply(lambda x: ','.join(set(map(str, x))))`:
    one pass accumulating, per n-gram, the set of stringified campaign IDs.
   */
  method CollectCampaignIds(pairs: seq<Exploded>) returns (ids: map<NGram, set<string>>)
    ensures forall g :: g in ids <==> g in PairKeys(pairs)
    ensures forall g :: g in ids ==> ids[g] == PairIds(pairs, g)
  {
    ids := map[];
    var k := 0;
    while k < |pairs|
      invariant 0 <= k <= |pairs|
      invariant forall g :: g in ids <==> g in PairKeys(pairs[..k])
      invariant forall g :: g in ids ==> ids[g] == PairIds(pairs[..k], g)
    {
      var p := pairs[k];
      assert pairs[..k + 1] == pairs[..k] + [p];
      forall g {
        Snoc(pairs[..k], p, g);
      }
      if p.ngram.Some? {
        var g := p.ngram.value;
        var id := ShowInt(p.row.campaignId);
        if g in ids {
          ids := ids[g := ids[g] + {id}];
        } else {
          AbsentKey(pairs[..k], g);
          ids := ids[g := {id}];
        }
      }
      k := k + 1;
    }
    assert pairs[..k] == pairs;
  }

  /** `.reset_index()` and the five ratio columns: one table row per key, in key order. */
  function Tabulate(keys: seq<NGram>, sums: map<NGram, Metrics>): seq<Group>
    requires forall g :: g in keys ==> g in sums
  {
    seq(|keys|, i requires 0 <= i < |keys| => Group(keys[i], sums[keys[i]], DeriveRatios(sums[keys[i]]), None))
  }

  /**
    The table has one row per key, in key order, holding that key's sums,
    the ratios derived from them and no Campaign ID cell yet.
   */
  lemma TabulateRows(keys: seq<NGram>, sums: map<NGram, Metrics>)
    requires forall g :: g in keys ==> g in sums
    ensures var t := Tabulate(keys, sums);
      |t| == |keys|
      && (forall i :: 0 <= i < |t| ==> t[i].ngram == keys[i] && t[i].sums == sums[keys[i]])
      && (forall i :: 0 <= i < |t| ==> t[i].ratios == DeriveRatios(t[i].sums) && t[i].campaignIds.None?)
  {
  }

  /**
    `pd.merge(aggregated, campaign_ids, on='ngrams', how='left')` with a
    right side whose keys are unique: every left row is kept, in order,
    unchanged but for its Campaign ID cell, which is NaN when unmatched.
   */
  function MergeLeft(table: seq<Group>, ids: map<NGram, set<string>>): (r: seq<Group>)
    ensures |r| == |table|
    ensures forall i :: 0 <= i < |r| ==>
      r[i].ngram == table[i].ngram && r[i].sums == table[i].sums && r[i].ratios == table[i].ratios
    ensures forall i :: 0 <= i < |r| ==>
      (r[i].campaignIds.Some? <==> table[i].ngram in ids)
      && (r[i].campaignIds.Some? ==> r[i].campaignIds.value == ids[table[i].ngram])
  {
    seq(|table|, i requires 0 <= i < |table| =>
      table[i].(campaignIds := if table[i].ngram in ids then Some(ids[table[i].ngram]) else None))
  }

  /** What the aggregated table promises about one of its rows. */
  ghost predicate GroupMatches(gr: Group, rows: seq<Row>, col: seq<seq<NGram>>)
    requires |col| == |rows|
  {
    && gr.sums == RowTotals(rows, col, gr.ngram)
    && gr.ratios == DeriveRatios(gr.sums)
    && gr.campaignIds == Some(RowIds(rows, col, gr.ngram))
  }

  /**
    `table` is an aggregation of `rows` by the n-grams in `col`: one row per
    n-gram that occurs anywhere, each with the reference sums, the ratios of
    those sums and the reference ID set, ordered by Spend descending, and
    empty for an empty frame.
   */
  ghost predicate IsAggregateOf(table: seq<Group>, rows: seq<Row>, col: seq<seq<NGram>>)
    requires |col| == |rows|
  {
    && (|rows| == 0 ==> table == [])
    && NonIncreasingSpend(table)
    && KeysDistinct(table)
    && (forall g :: g in KeySet(table) <==> Occurs(g, col))
    && (forall gr :: gr in table ==> GroupMatches(gr, rows, col))
  }

  /** `aggregate_ngrams(data, ngram_func, stop_words)` */
  method AggregateNGrams(data: SearchTermFrame, nlp: Nlp, order: Order, stops: set<string>)
    returns (table: seq<Group>)
    modifies data`ngrams
    ensures data.ngrams == NGramColumn(data.rows, nlp, order, stops)
    ensures IsAggregateOf(table, data.rows, data.ngrams)
  {
    data.AttachNGrams(nlp, order, stops);
    var expanded := Explode(data.rows, data.ngrams);
    if |expanded| == 0 {
      return [];
    }
    var keys, sums := SumMetrics(expanded);
    var aggregated := Tabulate(keys, sums);
    var ids := CollectCampaignIds(expanded);
    aggregated := MergeLeft(aggregated, ids);
    table := SortBySpend(aggregated);
    AggregateProof(data.rows, data.ngrams, keys, sums, ids, aggregated, table);
  }

  /** The steps of `AggregateNGrams` after the sort establish `IsAggregateOf`. */
  lemma AggregateProof(rows: seq<Row>, col: seq<seq<NGram>>, keys: seq<NGram>,
                       sums: map<NGram, Metrics>, ids: map<NGram, set<string>>,
                       aggregated: seq<Group>, table: seq<Group>)
    requires |col| == |rows|
    requires forall i, j :: 0 <= i < j < |keys| ==> keys[i] != keys[j]
    requires forall g :: g in keys <==> g in PairKeys(Explode(rows, col))
    requires forall g :: g in sums <==> g in PairKeys(Explode(rows, col))
    requires forall g :: g in sums ==> sums[g] == PairTotals(Explode(rows, col), g)
    requires forall g :: g in ids <==> g in PairKeys(Explode(rows, col))
    requires forall g :: g in ids ==> ids[g] == PairIds(Explode(rows, col), g)
    requires aggregated == MergeLeft(Tabulate(keys, sums), ids)
    requires table == SortBySpend(aggregated)
    ensures IsAggregateOf(table, rows, col)
  {
    MergedRows(rows, col, keys, sums, ids, aggregated);
    SortKeys(aggregated);
    SortedRowsAreInputRows(aggregated);
    forall g
      ensures g in KeySet(table) <==> Occurs(g, col)
    {
      ExplodeKeys(rows, col, g);
      KeySetMembers(aggregated, g);
    }
  }

  /** Before the sort: one row per key, each matching the reference. */
  lemma MergedRows(rows: seq<Row>, col: seq<seq<NGram>>, keys: seq<NGram>,
                   sums: map<NGram, Metrics>, ids: map<NGram, set<string>>,
                   aggregated: seq<Group>)
    requires |col| == |rows|
    requires forall i, j :: 0 <= i < j < |keys| ==> keys[i] != keys[j]
    requires forall g :: g in keys <==> g in PairKeys(Explode(rows, col))
    requires forall g :: g in sums <==> g in PairKeys(Explode(rows, col))
    requires forall g :: g in sums ==> sums[g] == PairTotals(Explode(rows, col), g)
    requires forall g :: g in ids <==> g in PairKeys(Explode(rows, col))
    requires forall g :: g in ids ==> ids[g] == PairIds(Explode(rows, col), g)
    requires aggregated == MergeLeft(Tabulate(keys, sums), ids)
    ensures |aggregated| == |keys|
    ensures forall i :: 0 <= i < |keys| ==> aggregated[i].ngram == keys[i]
    ensures KeysDistinct(aggregated)
    ensures forall gr :: gr in aggregated ==> GroupMatches(gr, rows, col)
  {
    var t := Tabulate(keys, sums);
    forall i | 0 <= i < |keys|
      ensures aggregated[i].ngram == keys[i]
      ensures GroupMatches(aggregated[i], rows, col)
    {
      assert t[i].ngram == keys[i];
      ExplodeTotals(rows, col, keys[i]);
      ExplodeIds(rows, col, keys[i]);
    }
  }

  /** A frame whose rows all yield no n-gram aggregates to an empty table. */
  lemma NoNGramsNoGroups(table: seq<Group>, rows: seq<Row>, col: seq<seq<NGram>>)
    requires |col| == |rows| && IsAggregateOf(table, rows, col)
    requires forall i :: 0 <= i < |col| ==> col[i] == []
    ensures table == []
  {
    if |table| > 0 {
      KeySetMembers(table, table[0].ngram);
    }
  }
}
