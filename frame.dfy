/**
  The search-term report as a table: the typed rows read from the
  spreadsheet, plus the two columns the script writes into a frame in
  place, `ASIN` and `ngrams`. An empty column sequence stands for a column
  that has not been written yet.
 */
module Frame {
  import opened Wrappers
  import opened Metrics
  import opened Asin
  import opened NGrams
  import opened TextNormalizer

  /**
    One row of the report: `Customer Search Term`, `Campaign Name
    (Informational only)`, `Campaign ID`, and the five metric columns.
   */
  datatype Row = Row(searchTerm: string, campaignName: string, campaignId: int, metrics: Metrics)

  /** The `ASIN` column: one extraction per row. */
  function AsinColumn(rows: seq<Row>): (col: seq<Option<string>>)
    ensures |col| == |rows|
    ensures forall i :: 0 <= i < |rows| ==> col[i] == ExtractAsin(rows[i].campaignName)
  {
    seq(|rows|, i requires 0 <= i < |rows| => ExtractAsin(rows[i].campaignName))
  }

  /** The `ngrams` column: the n-grams of each row's cleaned search term. */
  function NGramColumn(rows: seq<Row>, nlp: Nlp, order: Order, stops: set<string>): (col: seq<seq<NGram>>)
    ensures |col| == |rows|
    ensures forall i :: 0 <= i < |rows| ==>
      col[i] == NGramsOf(order, CleanTokenize(nlp, rows[i].searchTerm, stops))
  {
    seq(|rows|, i requires 0 <= i < |rows| => NGramsOf(order, CleanTokenize(nlp, rows[i].searchTerm, stops)))
  }

  /** Boolean-mask indexing `s[mask]`: the entries whose mask bit is set, in order. */
  function Where<T>(s: seq<T>, mask: seq<bool>): (r: seq<T>)
    requires |mask| == |s|
    ensures |r| <= |s|
    ensures forall x :: x in r ==> x in s
  {
    if |s| == 0 then []
    else
      var n := |s| - 1;
      Where(s[..n], mask[..n]) + (if mask[n] then [s[n]] else [])
  }

  /** The positions whose mask bit is set, in increasing order. */
  function MaskIndices(mask: seq<bool>): (idx: seq<nat>)
    ensures forall k :: 0 <= k < |idx| ==> idx[k] < |mask| && mask[idx[k]]
    ensures forall k, l :: 0 <= k < l < |idx| ==> idx[k] < idx[l]
    ensures forall i :: 0 <= i < |mask| && mask[i] ==> i in idx
  {
    if |mask| == 0 then []
    else
      var n := |mask| - 1;
      MaskIndices(mask[..n]) + (if mask[n] then [n] else [])
  }

  /**
    `s[mask]` holds, in order, the entries at exactly the positions whose
    mask bit is set.
   */
  lemma {:induction false} WhereAtIndices<T>(s: seq<T>, mask: seq<bool>)
    requires |mask| == |s|
    ensures var r, idx := Where(s, mask), MaskIndices(mask);
      |r| == |idx| && forall k :: 0 <= k < |r| ==> r[k] == s[idx[k]]
  {
    if |s| > 0 {
      var n := |s| - 1;
      WhereAtIndices(s[..n], mask[..n]);
      var idx0 := MaskIndices(mask[..n]);
      forall k | 0 <= k < |idx0|
        ensures s[..n][idx0[k]] == s[idx0[k]]
      {
      }
    }
  }

  /** An entry is kept exactly when it sits at some position whose mask bit is set. */
  lemma WhereMembers<T>(s: seq<T>, mask: seq<bool>)
    requires |mask| == |s|
    ensures forall x :: x in Where(s, mask) <==> exists i :: 0 <= i < |s| && mask[i] && s[i] == x
  {
    WhereAtIndices(s, mask);
    var r, idx := Where(s, mask), MaskIndices(mask);
    forall x | x in r
      ensures exists i :: 0 <= i < |s| && mask[i] && s[i] == x
    {
      var k :| 0 <= k < |r| && r[k] == x;
      var i := idx[k];
      assert mask[i] && s[i] == x;
    }
    forall i | 0 <= i < |s| && mask[i]
      ensures s[i] in r
    {
      var k :| 0 <= k < |idx| && idx[k] == i;
      assert r[k] == s[i];
    }
  }

  /** Masking one more entry appends it exactly when its bit is set. */
  lemma WhereSnoc<T>(s: seq<T>, x: T, mask: seq<bool>, b: bool)
    requires |mask| == |s|
    ensures Where(s + [x], mask + [b]) == Where(s, mask) + (if b then [x] else [])
  {
    assert (s + [x])[..|s|] == s;
    assert (mask + [b])[..|s|] == mask;
  }

  /** Masking a column computed row by row gives the column of the masked rows. */
  lemma {:induction false} WhereAsinColumn(rows: seq<Row>, mask: seq<bool>)
    requires |mask| == |rows|
    ensures Where(AsinColumn(rows), mask) == AsinColumn(Where(rows, mask))
  {
    if |rows| > 0 {
      var n := |rows| - 1;
      assert AsinColumn(rows)[..n] == AsinColumn(rows[..n]);
      WhereAsinColumn(rows[..n], mask[..n]);
      var w := Where(rows[..n], mask[..n]);
      if mask[n] {
        assert AsinColumn(w + [rows[n]]) == AsinColumn(w) + [ExtractAsin(rows[n].campaignName)];
      } else {
        assert w + [] == w;
      }
    }
  }

  /** A pandas DataFrame holding the report rows and the columns added to it. */
  class SearchTermFrame {
    var rows: seq<Row>
    var asin: seq<Option<string>>
    var ngrams: seq<seq<NGram>>

    /** The frame `pd.read_excel` gives: the rows and none of the derived columns. */
    constructor (rows: seq<Row>)
      ensures this.rows == rows && asin == [] && ngrams == []
    {
      this.rows := rows;
      asin := [];
      ngrams := [];
    }

    /** `df['ASIN'] = df['Campaign Name (Informational only)'].apply(...)` */
    method AttachAsin()
      modifies this`asin
      ensures asin == AsinColumn(rows)
    {
      asin := AsinColumn(rows);
    }

    /** `data['ngrams'] = data['Customer Search Term'].apply(...)` */
    method AttachNGrams(nlp: Nlp, order: Order, stops: set<string>)
      modifies this`ngrams
      ensures ngrams == NGramColumn(rows, nlp, order, stops)
    {
      ngrams := NGramColumn(rows, nlp, order, stops);
    }

    /** `df[mask]`: a new frame with the selected rows and their cells of every written column. */
    method Select(mask: seq<bool>) returns (f: SearchTermFrame)
      requires |mask| == |rows| && |asin| == |rows|
      ensures fresh(f)
      ensures f.rows == Where(rows, mask) && f.asin == Where(asin, mask)
      ensures f.ngrams == if |ngrams| == |rows| then Where(ngrams, mask) else []
    {
      f := new SearchTermFrame(Where(rows, mask));
      f.asin := Where(asin, mask);
      if |ngrams| == |rows| {
        f.ngrams := Where(ngrams, mask);
      }
    }
  }
}
