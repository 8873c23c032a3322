/**
  Row filtering before aggregation: parse the ASIN list and the branded
  terms from the two text areas, drop every row whose lowercased search term
  contains a branded term, then keep the rows whose extracted ASIN is listed.
 */
module ReportFilter {
  import opened Wrappers
  import opened Text
  import opened Asin
  import opened Frame

  /** `asin_input.upper().split('\n')` */
  function ParseAsins(input: string): (asins: seq<string>)
    ensures |asins| >= 1
    ensures Join(asins, '\n') == Upper(input)
    ensures forall i :: 0 <= i < |asins| ==> '\n' !in asins[i]
    ensures forall i, j :: 0 <= i < |asins| && 0 <= j < |asins[i]| ==> !IsAsciiLower(asins[i][j])
  {
    JoinSplit(Upper(input), '\n');
    Split(Upper(input), '\n')
  }

  /** `[term.strip().lower() for term in branded_terms_input.split('\n')]` */
  function ParseBrands(input: string): (brands: seq<string>)
    ensures |brands| == |Split(input, '\n')|
  {
    var parts := Split(input, '\n');
    seq(|parts|, i requires 0 <= i < |parts| => Lower(Strip(parts[i])))
  }

  /**
    Each branded term is its input line with the surrounding whitespace
    dropped and lowercased.
   */
  lemma ParseBrandsNormalized(input: string)
    ensures forall i :: 0 <= i < |ParseBrands(input)| ==> BrandNormalized(ParseBrands(input)[i], Split(input, '\n')[i])
  {
    var parts := Split(input, '\n');
    forall i | 0 <= i < |parts|
      ensures BrandNormalized(ParseBrands(input)[i], parts[i])
    {
      LowerStripNormalized(parts[i]);
    }
  }

  /**
    `b` is `line.strip().lower()`: the lowercased slice of `line` that starts
    after its leading whitespace, with only whitespace after it, and whose
    ends are not whitespace. These facts determine `b` from `line`.
   */
  predicate BrandNormalized(b: string, line: string)
  {
    var o := StripOffset(line);
    o + |b| <= |line|
    && b == Lower(line[o..o + |b|])
    && (forall k :: 0 <= k < o ==> IsSpace(line[k]))
    && (forall k :: o + |b| <= k < |line| ==> IsSpace(line[k]))
    && (forall j :: 0 <= j < |b| ==> !IsAsciiUpper(b[j]))
    && (|b| > 0 ==> !IsSpace(b[0]) && !IsSpace(b[|b| - 1]))
  }

  lemma LowerStripNormalized(line: string)
    ensures BrandNormalized(Lower(Strip(line)), line)
  {
    BrandOfStrippedSlice(line, StripOffset(line), Strip(line));
  }

  /** The normalization facts, from what `Strip` promises about its slice. */
  lemma BrandOfStrippedSlice(line: string, o: nat, t: string)
    requires o == StripOffset(line) && o + |t| <= |line| && t == line[o..o + |t|]
    requires forall k :: o + |t| <= k < |line| ==> IsSpace(line[k])
    requires |t| > 0 ==> !IsSpace(t[0]) && !IsSpace(t[|t| - 1])
    ensures BrandNormalized(Lower(t), line)
  {
    LowerSlice(line, o, t);
    LowerKeepsEnds(t);
  }

  /** Lowercasing keeps a string's ends non-whitespace. */
  lemma LowerKeepsEnds(t: string)
    requires |t| > 0 ==> !IsSpace(t[0]) && !IsSpace(t[|t| - 1])
    ensures |Lower(t)| > 0 ==> !IsSpace(Lower(t)[0]) && !IsSpace(Lower(t)[|t| - 1])
  {
    if |t| > 0 {
      LowerCharKeepsNonSpace(t[0]);
      LowerCharKeepsNonSpace(t[|t| - 1]);
    }
  }

  /** Lowercasing a slice of `line` is the same slice of `line` lowercased. */
  lemma LowerSlice(line: string, o: nat, t: string)
    requires o + |t| <= |line| && t == line[o..o + |t|]
    ensures o + |Lower(t)| <= |line| && Lower(t) == Lower(line[o..o + |Lower(t)|])
  {
  }

  lemma LowerCharKeepsNonSpace(c: char)
    requires !IsSpace(c)
    ensures !IsSpace(LowerChar(c))
  {
    if IsAsciiUpper(c) {
      assert 'a' as int <= LowerChar(c) as int <= 'z' as int;
    }
  }

  /** `any(brand in term.lower() for brand in brands)` */
  predicate BrandHit(term: string, brands: seq<string>)
  {
    |brands| > 0 && (Contains(Lower(term), brands[0]) || BrandHit(term, brands[1..]))
  }

  /** `any` holds exactly when some branded term occurs in the lowercased search term. */
  lemma {:induction false} BrandHitIff(term: string, brands: seq<string>)
    ensures BrandHit(term, brands) <==> exists k :: 0 <= k < |brands| && Contains(Lower(term), brands[k])
  {
    if |brands| > 0 {
      BrandHitIff(term, brands[1..]);
      if exists k :: 0 <= k < |brands| && Contains(Lower(term), brands[k]) {
        var k :| 0 <= k < |brands| && Contains(Lower(term), brands[k]);
        if k > 0 {
          assert brands[1..][k - 1] == brands[k];
        }
      }
      if BrandHit(term, brands[1..]) {
        var k :| 0 <= k < |brands[1..]| && Contains(Lower(term), brands[1..][k]);
        assert brands[k + 1] == brands[1..][k];
      }
    }
  }

  /** `asin_cell in asins` as `Series.isin` decides it: a missing cell is never listed. */
  predicate AsinListed(asin: Option<string>, asins: seq<string>)
  {
    asin.Some? && asin.value in asins
  }

  /** A row survives both filters. */
  predicate KeepRow(row: Row, asins: seq<string>, brands: seq<string>)
  {
    !BrandHit(row.searchTerm, brands) && AsinListed(ExtractAsin(row.campaignName), asins)
  }

  /** The rows that survive, in their original order. */
  function FilteredRows(rows: seq<Row>, asins: seq<string>, brands: seq<string>): seq<Row>
  {
    if |rows| == 0 then []
    else
      var n := |rows| - 1;
      FilteredRows(rows[..n], asins, brands) + (if KeepRow(rows[n], asins, brands) then [rows[n]] else [])
  }

  /** The combined mask: one bit per row, set when the row survives both filters. */
  function KeepMask(rows: seq<Row>, asins: seq<string>, brands: seq<string>): (mask: seq<bool>)
    ensures |mask| == |rows|
    ensures forall i :: 0 <= i < |rows| ==> mask[i] == KeepRow(rows[i], asins, brands)
  {
    seq(|rows|, i requires 0 <= i < |rows| => KeepRow(rows[i], asins, brands))
  }

  /**
    The filtered report is the input masked by `KeepRow`: with
    `WhereAtIndices`, its rows are the input rows at the kept positions, in
    order.
   */
  lemma {:induction false} FilteredRowsAreMasked(rows: seq<Row>, asins: seq<string>, brands: seq<string>)
    ensures FilteredRows(rows, asins, brands) == Where(rows, KeepMask(rows, asins, brands))
  {
    if |rows| > 0 {
      var n := |rows| - 1;
      FilteredRowsAreMasked(rows[..n], asins, brands);
      assert KeepMask(rows, asins, brands)[..n] == KeepMask(rows[..n], asins, brands);
    }
  }

  /** A row is in the filtered report exactly when it was in the input and passes both filters. */
  lemma {:induction false} FilteredRowsMembers(rows: seq<Row>, asins: seq<string>, brands: seq<string>)
    ensures forall r :: r in FilteredRows(rows, asins, brands) <==> r in rows && KeepRow(r, asins, brands)
  {
    if |rows| > 0 {
      var n := |rows| - 1;
      FilteredRowsMembers(rows[..n], asins, brands);
      assert rows == rows[..n] + [rows[n]];
    }
  }

  /** Filtering keeps the input order: it distributes over concatenation. */
  lemma {:induction false} FilteredRowsAppend(a: seq<Row>, b: seq<Row>, asins: seq<string>, brands: seq<string>)
    ensures FilteredRows(a + b, asins, brands) == FilteredRows(a, asins, brands) + FilteredRows(b, asins, brands)
    decreases |b|
  {
    if |b| == 0 {
      assert a + b == a;
    } else {
      var n := |b| - 1;
      assert (a + b)[..|a + b| - 1] == a + b[..n];
      FilteredRowsAppend(a, b[..n], asins, brands);
    }
  }

  /**
    An empty branded-terms box parses to [""], and "" occurs in every
    search term, so nothing survives the brand filter.
   */
  lemma {:induction false} EmptyBrandInputExcludesEveryRow(rows: seq<Row>, asins: seq<string>)
    ensures ParseBrands("") == [""]
    ensures FilteredRows(rows, asins, ParseBrands("")) == []
  {
    assert Strip("") == "";
    assert ParseBrands("") == [""];
    if |rows| > 0 {
      var n := |rows| - 1;
      EmptyBrandInputExcludesEveryRow(rows[..n], asins);
      EmptyOccursEverywhere(Lower(rows[n].searchTerm));
      assert BrandHit(rows[n].searchTerm, [""]);
    }
  }

  /** A row whose search term contains a listed brand is never kept. */
  lemma BrandedRowExcluded(row: Row, asins: seq<string>, brands: seq<string>, k: nat)
    requires k < |brands| && Contains(Lower(row.searchTerm), brands[k])
    ensures forall rows :: row !in FilteredRows(rows, asins, brands)
  {
    BrandHitIff(row.searchTerm, brands);
    forall rows: seq<Row>
      ensures row !in FilteredRows(rows, asins, brands)
    {
      FilteredRowsMembers(rows, asins, brands);
    }
  }

  /**
    The ASIN is extracted in the campaign name's own case but compared with
    an upper-cased list, so an ASIN written with a lower-case letter is
    never listed, whatever the user typed.
   */
  lemma LowerCaseAsinNeverListed(name: string, input: string, k: nat)
    requires ExtractAsin(name).Some?
    requires k < |ExtractAsin(name).value| && IsAsciiLower(ExtractAsin(name).value[k])
    ensures !AsinListed(ExtractAsin(name), ParseAsins(input))
  {
  }

  /** The brand-filter mask `~df[...].str.lower().apply(any(...))`. */
  function BrandMask(rows: seq<Row>, brands: seq<string>): seq<bool>
  {
    seq(|rows|, i requires 0 <= i < |rows| => !BrandHit(rows[i].searchTerm, brands))
  }

  /** The membership mask `df_filtered['ASIN'].isin(asins)`. */
  function AsinMask(col: seq<Option<string>>, asins: seq<string>): seq<bool>
  {
    seq(|col|, i requires 0 <= i < |col| => AsinListed(col[i], asins))
  }

  /** Applying the brand mask and then the ASIN mask selects exactly the filtered rows. */
  lemma {:induction false} TwoMasksSelectFiltered(rows: seq<Row>, asins: seq<string>, brands: seq<string>)
    ensures var w := Where(rows, BrandMask(rows, brands));
      Where(w, AsinMask(AsinColumn(w), asins)) == FilteredRows(rows, asins, brands)
  {
    if |rows| > 0 {
      var n := |rows| - 1;
      var p, x := rows[..n], rows[n];
      assert rows == p + [x];
      var hit := BrandHit(x.searchTerm, brands);
      BrandMaskSnoc(p, x, brands);
      WhereSnoc(p, x, BrandMask(p, brands), !hit);
      TwoMasksSelectFiltered(p, asins, brands);
      var w' := Where(p, BrandMask(p, brands));
      if !hit {
        var listed := AsinListed(ExtractAsin(x.campaignName), asins);
        AsinMaskSnoc(w', x, asins);
        WhereSnoc(w', x, AsinMask(AsinColumn(w'), asins), listed);
      } else {
        assert w' + [] == w';
      }
    }
  }

  lemma BrandMaskSnoc(p: seq<Row>, x: Row, brands: seq<string>)
    ensures BrandMask(p + [x], brands) == BrandMask(p, brands) + [!BrandHit(x.searchTerm, brands)]
  {
    var s := p + [x];
    forall i | 0 <= i < |s|
      ensures BrandMask(s, brands)[i] == (BrandMask(p, brands) + [!BrandHit(x.searchTerm, brands)])[i]
    {
      if i < |p| {
        assert s[i] == p[i];
      }
    }
  }

  lemma AsinMaskSnoc(w: seq<Row>, x: Row, asins: seq<string>)
    ensures AsinMask(AsinColumn(w + [x]), asins)
      == AsinMask(AsinColumn(w), asins) + [AsinListed(ExtractAsin(x.campaignName), asins)]
  {
    var s := w + [x];
    forall i | 0 <= i < |s|
      ensures AsinMask(AsinColumn(s), asins)[i]
        == (AsinMask(AsinColumn(w), asins) + [AsinListed(ExtractAsin(x.campaignName), asins)])[i]
    {
      if i < |w| {
        assert s[i] == w[i];
      }
    }
  }

  /**
    The filtering section: add the `ASIN` column to `df` in place, then
    rebind the filtered frame twice, once per mask.
   */
  method FilterFrame(df: SearchTermFrame, asins: seq<string>, brands: seq<string>)
    returns (filtered: SearchTermFrame)
    modifies df
    ensures df.rows == old(df.rows) && df.ngrams == old(df.ngrams)
    ensures df.asin == AsinColumn(df.rows)
    ensures fresh(filtered)
    ensures filtered.rows == FilteredRows(df.rows, asins, brands)
    ensures filtered.asin == AsinColumn(filtered.rows)
    ensures old(df.ngrams) == [] ==> filtered.ngrams == []
  {
    df.AttachAsin();
    var notBranded := BrandMask(df.rows, brands);
    WhereAsinColumn(df.rows, notBranded);
    filtered := df.Select(notBranded);
    var listed := AsinMask(filtered.asin, asins);
    WhereAsinColumn(filtered.rows, listed);
    TwoMasksSelectFiltered(df.rows, asins, brands);
    filtered := filtered.Select(listed);
  }
}
