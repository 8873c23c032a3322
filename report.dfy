/**
  Report assembly and the analysis run: three aggregations of the same
  filtered rows, concatenated monograms first, then bigrams, then trigrams,
  each row labelled with the table it came from.
 */
module Report {
  import opened Wrappers
  import opened NGrams
  import opened TextNormalizer
  import opened Frame
  import opened ReportFilter
  import opened Groups
  import opened Aggregation

  /** The `N-Gram Type` label of the combined report. */
  datatype NGramType = Monograms | Bigrams | Trigrams {
    function Label(): string
    {
      match this
      case Monograms => "Monograms"
      case Bigrams => "Bigrams"
      case Trigrams => "Trigrams"
    }

    /** Position of the slice in the concatenation. */
    function Rank(): nat
    {
      match this
      case Monograms => 0
      case Bigrams => 1
      case Trigrams => 2
    }
  }

  /** One row of the combined report sheet. */
  datatype ReportRow = ReportRow(nGramType: NGramType, group: Group)

  /** One table with its concat key moved into the label column. */
  function Tag(t: NGramType, gs: seq<Group>): (r: seq<ReportRow>)
    ensures |r| == |gs|
  {
    if |gs| == 0 then [] else Tag(t, gs[..|gs| - 1]) + [ReportRow(t, gs[|gs| - 1])]
  }

  /** Each tagged row is the table's row under the label. */
  lemma {:induction false} TagAt(t: NGramType, gs: seq<Group>)
    ensures forall i :: 0 <= i < |gs| ==> Tag(t, gs)[i] == ReportRow(t, gs[i])
  {
    if |gs| > 0 {
      TagAt(t, gs[..|gs| - 1]);
    }
  }

  /**
    `pd.concat([mono, bi, tri], keys=['Monograms', 'Bigrams', 'Trigrams'])`
    followed by `reset_index(level=0)` and the rename of `level_0`.
   */
  function Assemble(mono: seq<Group>, bi: seq<Group>, tri: seq<Group>): (r: seq<ReportRow>)
    ensures |r| == |mono| + |bi| + |tri|
  {
    Tag(Monograms, mono) + Tag(Bigrams, bi) + Tag(Trigrams, tri)
  }

  /** The report lists all monograms, then all bigrams, then all trigrams. */
  lemma AssembleOrdered(mono: seq<Group>, bi: seq<Group>, tri: seq<Group>)
    ensures var r := Assemble(mono, bi, tri);
      forall i, j :: 0 <= i < j < |r| ==> r[i].nGramType.Rank() <= r[j].nGramType.Rank()
  {
    TagAt(Monograms, mono);
    TagAt(Bigrams, bi);
    TagAt(Trigrams, tri);
    var r := Assemble(mono, bi, tri);
    var a, b := |mono|, |mono| + |bi|;
    forall i | 0 <= i < |r|
      ensures r[i].nGramType == if i < a then Monograms else if i < b then Bigrams else Trigrams
    {
      if i < a {
        assert r[i] == Tag(Monograms, mono)[i];
      } else if i < b {
        assert r[i] == Tag(Bigrams, bi)[i - a];
      } else {
        assert r[i] == Tag(Trigrams, tri)[i - b];
      }
    }
  }

  /** The groups of the report rows carrying label `t`, in report order. */
  function SliceOf(report: seq<ReportRow>, t: NGramType): seq<Group>
  {
    if |report| == 0 then []
    else
      var last := report[|report| - 1];
      SliceOf(report[..|report| - 1], t) + (if last.nGramType == t then [last.group] else [])
  }

  lemma {:induction false} SliceOfAppend(a: seq<ReportRow>, b: seq<ReportRow>, t: NGramType)
    ensures SliceOf(a + b, t) == SliceOf(a, t) + SliceOf(b, t)
    decreases |b|
  {
    if |b| == 0 {
      assert a + b == a;
    } else {
      var n := |b| - 1;
      assert (a + b)[..|a + b| - 1] == a + b[..n];
      SliceOfAppend(a, b[..n], t);
    }
  }

  /** Reading back the rows of one label from a tagged table. */
  lemma {:induction false} SliceOfTag(s: NGramType, gs: seq<Group>, t: NGramType)
    ensures SliceOf(Tag(s, gs), t) == if s == t then gs else []
  {
    if |gs| > 0 {
      var n := |gs| - 1;
      SliceOfTag(s, gs[..n], t);
      assert Tag(s, gs)[..n] == Tag(s, gs[..n]);
      assert gs == gs[..n] + [gs[n]];
    }
  }

  /**
    The combined report holds each slice intact and in order: the rows
    labelled Monograms are exactly the monogram table, and so on.
   */
  lemma {:induction false} AssembleSlices(mono: seq<Group>, bi: seq<Group>, tri: seq<Group>)
    ensures SliceOf(Assemble(mono, bi, tri), Monograms) == mono
    ensures SliceOf(Assemble(mono, bi, tri), Bigrams) == bi
    ensures SliceOf(Assemble(mono, bi, tri), Trigrams) == tri
  {
    SliceOfLabel(mono, bi, tri, Monograms);
    SliceOfLabel(mono, bi, tri, Bigrams);
    SliceOfLabel(mono, bi, tri, Trigrams);
  }

  /** The table a label stands for. */
  function Table(mono: seq<Group>, bi: seq<Group>, tri: seq<Group>, t: NGramType): seq<Group>
  {
    match t
    case Monograms => mono
    case Bigrams => bi
    case Trigrams => tri
  }

  lemma {:induction false} SliceOfLabel(mono: seq<Group>, bi: seq<Group>, tri: seq<Group>, t: NGramType)
    ensures SliceOf(Assemble(mono, bi, tri), t) == Table(mono, bi, tri, t)
  {
    SliceOfAssembled(mono, bi, tri, t);
    SliceOfTag(Monograms, mono, t);
    SliceOfTag(Bigrams, bi, t);
    SliceOfTag(Trigrams, tri, t);
    match t
    case Monograms => assert mono + [] + [] == mono;
    case Bigrams => assert [] + bi + [] == bi;
    case Trigrams => assert [] + [] + tri == tri;
  }

  /** The rows labelled `t` in the report, table by table. */
  lemma {:induction false} SliceOfAssembled(mono: seq<Group>, bi: seq<Group>, tri: seq<Group>, t: NGramType)
    ensures SliceOf(Assemble(mono, bi, tri), t)
      == SliceOf(Tag(Monograms, mono), t) + SliceOf(Tag(Bigrams, bi), t) + SliceOf(Tag(Trigrams, tri), t)
  {
    var a, b, c := Tag(Monograms, mono), Tag(Bigrams, bi), Tag(Trigrams, tri);
    SliceOfAppend(a + b, c, t);
    SliceOfAppend(a, b, t);
  }

  /** The message shown when no file was uploaded or no ASIN was entered. */
  const MissingInputMessage := "Please upload a file and enter at least one ASIN."

  /** The three per-order tables and the combined report. */
  datatype Analysis = Analysis(monograms: seq<Group>, bigrams: seq<Group>, trigrams: seq<Group>,
                               report: seq<ReportRow>)

  /**
    The body of the 'Perform n-gram analysis' button: check the inputs,
    parse the ASIN list and the branded terms, filter the rows, aggregate at
    orders 1, 2 and 3 and concatenate the three tables.
    `upload` is the 'SP Search Term Report' sheet of the uploaded workbook,
    None when no file was uploaded; `corpus` is NLTK's English stop words.
   */
  method RunAnalysis(upload: Option<seq<Row>>, asinInput: string, brandInput: string,
                     nlp: Nlp, corpus: set<string>)
    returns (result: Result<Analysis>)
    ensures result.Err? <==> upload.None? || asinInput == ""
    ensures result.Err? ==> result.message == MissingInputMessage
    ensures result.Ok? ==>
      var kept := FilteredRows(upload.value, ParseAsins(asinInput), ParseBrands(brandInput));
      var stops := StopWords(corpus);
      && IsAggregateOf(result.value.monograms, kept, NGramColumn(kept, nlp, Mono, stops))
      && IsAggregateOf(result.value.bigrams, kept, NGramColumn(kept, nlp, Bi, stops))
      && IsAggregateOf(result.value.trigrams, kept, NGramColumn(kept, nlp, Tri, stops))
      && result.value.report == Assemble(result.value.monograms, result.value.bigrams, result.value.trigrams)
  {
    if upload.None? || asinInput == "" {
      return Err(MissingInputMessage);
    }
    var stops := StopWords(corpus);
    var asins := ParseAsins(asinInput);
    var brands := ParseBrands(brandInput);
    var df := new SearchTermFrame(upload.value);
    var filtered := FilterFrame(df, asins, brands);
    var mono := AggregateNGrams(filtered, nlp, Mono, stops);
    var bi := AggregateNGrams(filtered, nlp, Bi, stops);
    var tri := AggregateNGrams(filtered, nlp, Tri, stops);
    var report := Assemble(mono, bi, tri);
    return Ok(Analysis(mono, bi, tri, report));
  }
}
