/** The dashboard's stacked bar charts: which opinions table a chart reads, how
    the rows are narrowed to one question, sub-question and state, how a
    threshold turns each row into a "yes"/"no" pair, which palette is used, the
    row order and the figure height. The figure itself is opaque: a `BarPlot`
    records the rows and settings handed to the plotting library. */
module StackedBar {
  import opened Wrappers
  import opened Text
  import opened Seqs
  import opened SurveyData

  const DefaultHeight: real := 130.0
  /** Extra height for the three party bars of a stratified chart. */
  const StratifyFactor: real := 1.75
  /** The outcome given to the complement of a thresholded row. */
  const NaOutcome: string := "not3+"
  /** The aggregate outcomes precomputed in the tables. */
  const AvailableThresholds: seq<string> := ["3+", "4+"]
  const PartyOrder: seq<string> := ["Democrat", "Independent/Other", "Republican"]

  /** Palettes keyed by the number of outcomes they colour. */
  type Palettes = map<int, seq<string>>

  const DefaultPalettes: Palettes := map[
    5 := ["#f94144", "#f3722c", "#f8961e", "#43aa8b", "#577590"],
    7 := ["#f94144", "#f3722c", "#f8961e", "#90be6d", "#43aa8b", "#4d908e", "#577590"],
    2 := ["#f8961e", "#43aa8b"],
    3 := ["#f8961e", "#d5bdaf", "#43aa8b"]]

  /** The figure keywords; only the height is read or changed here. */
  class FigureKeywords {
    var height: real

    constructor(height: real)
      ensures this.height == height
    {
      this.height := height;
    }
  }

  datatype Axis = QuestionAxis | PartyAxis

  datatype Facets = AllFacets(order: seq<string>) | OneFacet(subQuestion: string)

  /** What is handed to `px.bar`. */
  datatype BarPlot = BarPlot(
    rows: seq<OpinionRow>,
    axis: Axis,
    axisOrder: Option<seq<string>>,
    facets: Facets,
    palette: seq<string>,
    height: real)

  /** `SUBQUESTION_ORDER[question]` missing for "all"; `palettes[2]` missing in
      threshold mode; the palette left unbound after the caught KeyError for an
      unknown number of outcomes; a threshold equal to "not3+", which makes the
      two categories of `pd.Categorical` coincide. */
  datatype BarError = UnknownSubquestionOrder(question: string) | MissingPalette(n: int) | UnboundPalette(n: int) | DuplicateCategories

  datatype SortOrder = Descending | Predetermined

  // ---------------------------------------------------------------------------
  // Table choice and row filters
  // ---------------------------------------------------------------------------

  /** `load_df`: which opinions table a chart reads. The final `return None` of
      the source cannot be reached: every combination is covered above it. */
  function LoadDf(state: Option<string>, stratify: bool): (k: TableKind)
    ensures k == WholeSample <==> state.None? && !stratify
    ensures k == ByState <==> state.Some?
    ensures k == ByParty <==> state.None? && stratify
  {
    if state.None? && !stratify then WholeSample
    else if state.Some? then ByState
    else ByParty
  }

  function Table(tables: OpinionTables, k: TableKind): seq<OpinionRow> {
    match k
    case WholeSample => tables.wholeSample
    case ByState => tables.byState
    case ByParty => tables.byParty
  }

  function OfQuestion(question: string): OpinionRow -> bool {
    (x: OpinionRow) => x.question == question
  }

  function OfSubquestion(subQuestion: string): OpinionRow -> bool {
    (x: OpinionRow) => x.subQuestion == subQuestion
  }

  function OfState(state: string): OpinionRow -> bool {
    (x: OpinionRow) => x.state == Some(state)
  }

  function HasOutcome(outcome: string): OpinionRow -> bool {
    (x: OpinionRow) => x.outcome == outcome
  }

  /** `~df["outcome"].isin(AVAILABLE_THRESHOLDS)`. */
  function NotAggregate(): OpinionRow -> bool {
    (x: OpinionRow) => x.outcome !in AvailableThresholds
  }

  /** Neither the threshold nor "not3+": the rows a categorical with those two
      categories leaves as NaN. */
  function Uncategorised(threshold: string): OpinionRow -> bool {
    (x: OpinionRow) => x.outcome != threshold && x.outcome != NaOutcome
  }

  function OutcomeOf(x: OpinionRow): string {
    x.outcome
  }

  /** `df[column].nunique()`. */
  function NUnique(xs: seq<string>): nat {
    |Values(xs)|
  }

  /** The set of the column's values. */
  function Values(xs: seq<string>): set<string>
    decreases |xs|
  {
    if |xs| == 0 then {} else Values(xs[..|xs| - 1]) + {xs[|xs| - 1]}
  }

  /** Columns with the same values have the same number of them. */
  lemma SameValues(a: seq<string>, b: seq<string>)
    requires forall x :: x in a <==> x in b
    ensures NUnique(a) == NUnique(b)
  {
    ValuesMembership(a);
    ValuesMembership(b);
    assert Values(a) == Values(b);
  }

  lemma {:induction false} ValuesMembership(xs: seq<string>)
    ensures forall x :: x in Values(xs) <==> x in xs
    decreases |xs|
  {
    if |xs| > 0 {
      ValuesMembership(xs[..|xs| - 1]);
      assert xs == xs[..|xs| - 1] + [xs[|xs| - 1]];
    }
  }

  function Outcomes(rows: seq<OpinionRow>): (os: seq<string>)
    ensures |os| == |rows| && forall i :: 0 <= i < |rows| ==> os[i] == rows[i].outcome
  {
    seq(|rows|, i requires 0 <= i < |rows| => rows[i].outcome)
  }

  function SubQuestions(rows: seq<OpinionRow>): (ss: seq<string>)
    ensures |ss| == |rows| && forall i :: 0 <= i < |rows| ==> ss[i] == rows[i].subQuestion
  {
    seq(|rows|, i requires 0 <= i < |rows| => rows[i].subQuestion)
  }

  /** Sub-question "all" keeps every row; any other value keeps its own rows. */
  function SubquestionRows(rows: seq<OpinionRow>, subquestion: string): (r: seq<OpinionRow>)
    ensures subquestion == "all" ==> r == rows
    ensures subquestion != "all" ==> forall x :: x in r <==> x in rows && x.subQuestion == subquestion
  {
    FilterMembershipAll(rows, OfSubquestion(subquestion));
    if subquestion == "all" then rows else Filter(rows, OfSubquestion(subquestion))
  }

  /** `if state:` narrows to the state's rows; `None` and "" keep them all. */
  function StateRows(rows: seq<OpinionRow>, state: Option<string>): (r: seq<OpinionRow>)
    ensures !Truthy(state) ==> r == rows
    ensures Truthy(state) ==> forall x :: x in r <==> x in rows && x.state == state
  {
    if Truthy(state) then
      FilterMembershipAll(rows, OfState(state.value));
      Filter(rows, OfState(state.value))
    else rows
  }

  // ---------------------------------------------------------------------------
  // Threshold binarization
  // ---------------------------------------------------------------------------

  /** The complement of a thresholded row. */
  function Invert(x: OpinionRow): OpinionRow {
    x.(percentage := 1.0 - x.percentage, outcome := NaOutcome)
  }

  function InvertAll(rows: seq<OpinionRow>): (r: seq<OpinionRow>)
    ensures |r| == |rows| && forall i :: 0 <= i < |rows| ==> r[i] == Invert(rows[i])
  {
    seq(|rows|, i requires 0 <= i < |rows| => Invert(rows[i]))
  }

  /** `fill_na_percentage`: every row followed by its complement, the pairs in
      index order. */
  function FillNaPercentage(rows: seq<OpinionRow>): (r: seq<OpinionRow>)
    ensures |r| == 2 * |rows|
    ensures forall i :: 0 <= i < |rows| ==> r[2 * i] == rows[i]
    ensures forall i :: 0 <= i < |rows| ==> r[2 * i + 1].outcome == NaOutcome
    ensures forall i :: 0 <= i < |rows| ==> r[2 * i].percentage + r[2 * i + 1].percentage == 1.0
    ensures forall i :: 0 <= i < |rows| ==> var a, b := r[2 * i], r[2 * i + 1];
      a.question == b.question && a.subQuestion == b.subQuestion && a.state == b.state && a.party == b.party
    decreases |rows|
  {
    if |rows| == 0 then []
    else
      var init := rows[..|rows| - 1];
      var last := rows[|rows| - 1];
      var r0 := FillNaPercentage(init);
      var r := r0 + [last, Invert(last)];
      assert forall i :: 0 <= i < |init| ==> r[2 * i] == r0[2 * i] && r[2 * i + 1] == r0[2 * i + 1];
      r
  }

  /** The rows in the order of the categorical `[threshold, "not3+"]`, the rows
      outside both categories (NaN) last. */
  function ThresholdOrder(rows: seq<OpinionRow>, threshold: string): seq<OpinionRow> {
    Filter(rows, HasOutcome(threshold)) + Filter(rows, HasOutcome(NaOutcome)) + Filter(rows, Uncategorised(threshold))
  }

  /** Filling and ordering the threshold's rows puts all of them first, in
      order, and all their complements after, in the same order. */
  lemma ThresholdShape(xs: seq<OpinionRow>, threshold: string)
    requires threshold != NaOutcome
    requires forall i :: 0 <= i < |xs| ==> xs[i].outcome == threshold
    ensures Filter(FillNaPercentage(xs), HasOutcome(threshold)) == xs
    ensures Filter(FillNaPercentage(xs), HasOutcome(NaOutcome)) == InvertAll(xs)
    ensures Filter(FillNaPercentage(xs), Uncategorised(threshold)) == []
    ensures ThresholdOrder(FillNaPercentage(xs), threshold) == xs + InvertAll(xs)
  {
    ThresholdFilters(xs, threshold);
  }

  lemma {:induction false} ThresholdFilters(xs: seq<OpinionRow>, threshold: string)
    requires threshold != NaOutcome
    requires forall i :: 0 <= i < |xs| ==> xs[i].outcome == threshold
    ensures Filter(FillNaPercentage(xs), HasOutcome(threshold)) == xs
    ensures Filter(FillNaPercentage(xs), HasOutcome(NaOutcome)) == InvertAll(xs)
    ensures Filter(FillNaPercentage(xs), Uncategorised(threshold)) == []
    decreases |xs|
  {
    if |xs| > 0 {
      var init := xs[..|xs| - 1];
      var last := xs[|xs| - 1];
      ThresholdFilters(init, threshold);
      var f0 := FillNaPercentage(init);
      var pair := [last, Invert(last)];
      FillNaSnoc(xs);
      FilterAppend(f0, pair, HasOutcome(threshold));
      FilterAppend(f0, pair, HasOutcome(NaOutcome));
      FilterAppend(f0, pair, Uncategorised(threshold));
      PairFilters(last, threshold);
      InvertAllSnoc(xs);
      Snoc(xs);
    }
  }

  /** A row of the threshold and its complement go one to each category. */
  lemma PairFilters(x: OpinionRow, threshold: string)
    requires threshold != NaOutcome && x.outcome == threshold
    ensures Filter([x, Invert(x)], HasOutcome(threshold)) == [x]
    ensures Filter([x, Invert(x)], HasOutcome(NaOutcome)) == [Invert(x)]
    ensures Filter([x, Invert(x)], Uncategorised(threshold)) == []
  {
    assert [x, Invert(x)][..1] == [x];
    assert [x][..0] == [];
  }

  lemma FillNaSnoc(xs: seq<OpinionRow>)
    requires |xs| > 0
    ensures FillNaPercentage(xs) == FillNaPercentage(xs[..|xs| - 1]) + [xs[|xs| - 1], Invert(xs[|xs| - 1])]
  {
  }

  lemma InvertAllSnoc(xs: seq<OpinionRow>)
    requires |xs| > 0
    ensures InvertAll(xs) == InvertAll(xs[..|xs| - 1]) + [Invert(xs[|xs| - 1])]
  {
  }

  // ---------------------------------------------------------------------------
  // plot_bars
  // ---------------------------------------------------------------------------

  /** `plot_df[x] * 100`. */
  function Scale(x: OpinionRow): OpinionRow {
    x.(percentage := x.percentage * 100.0)
  }

  function ScaleAll(rows: seq<OpinionRow>): (r: seq<OpinionRow>)
    ensures |r| == |rows| && forall i :: 0 <= i < |rows| ==> r[i] == Scale(rows[i])
  {
    seq(|rows|, i requires 0 <= i < |rows| => Scale(rows[i]))
  }

  /** The rows `plot_bars` plots: out of 100, sorted by outcome (descending)
      or left in the order given. */
  function PlotRows(rows: seq<OpinionRow>, order: SortOrder): seq<OpinionRow> {
    match order
    case Descending => SortDescBy(ScaleAll(rows), OutcomeOf)
    case Predetermined => ScaleAll(rows)
  }

  /** The axis and its category order: a party axis in the fixed party order. */
  function AxisOrder(axis: Axis): Option<seq<string>> {
    if axis == PartyAxis then Some(PartyOrder) else None
  }

  /** The chart `plot_bars` draws from `rows` with the height `h` it is
      given: the rows out of 100 in the requested order, and one facet row
      of height `h` per distinct sub-question. */
  function Bars(rows: seq<OpinionRow>, order: SortOrder, axis: Axis, facets: Facets, palette: seq<string>, h: real): BarPlot {
    BarPlot(PlotRows(rows, order), axis, AxisOrder(axis), facets, palette, Grow(h, NUnique(SubQuestions(rows))))
  }

  /** `plot_bars`: scales the rows, grows the height in the keywords by the
      number of facets and sorts. */
  method PlotBars(rows: seq<OpinionRow>, axis: Axis, facets: Facets, order: SortOrder, palette: seq<string>, kw: FigureKeywords)
    returns (plot: BarPlot)
    modifies kw
    ensures plot == Bars(rows, order, axis, facets, palette, old(kw.height))
    ensures kw.height == plot.height
  {
    ghost var h0 := kw.height;
    var scaled := ScaleAll(rows);
    var nFacets := NUnique(SubQuestions(rows));
    kw.height := Grow(kw.height, nFacets);
    var sorted := scaled;
    if order == Descending {
      sorted := SortDescBy(scaled, OutcomeOf);
    }
    plot := BarPlot(sorted, axis, AxisOrder(axis), facets, palette, kw.height);
    BarsIs(rows, order, axis, facets, palette, h0, plot);
  }

  lemma BarsIs(rows: seq<OpinionRow>, order: SortOrder, axis: Axis, facets: Facets, palette: seq<string>, h: real, plot: BarPlot)
    requires plot.rows == PlotRows(rows, order) && plot.axis == axis && plot.axisOrder == AxisOrder(axis)
    requires plot.facets == facets && plot.palette == palette && plot.height == Grow(h, NUnique(SubQuestions(rows)))
    ensures plot == Bars(rows, order, axis, facets, palette, h)
  {
  }

  // ---------------------------------------------------------------------------
  // make_stacked_bar
  // ---------------------------------------------------------------------------

  /** The rows left once question, sub-question and state are applied. */
  function Narrowed(tables: OpinionTables, question: string, subquestion: string, state: Option<string>, stratify: bool): seq<OpinionRow> {
    var df := Table(tables, LoadDf(state, stratify));
    StateRows(SubquestionRows(Filter(df, OfQuestion(question)), subquestion), state)
  }

  /** A row of the question, of the sub-question unless it is "all", and of
      the state when one is given. */
  predicate Selected(x: OpinionRow, question: string, subquestion: string, state: Option<string>) {
    x.question == question && (subquestion != "all" ==> x.subQuestion == subquestion) && (Truthy(state) ==> x.state == state)
  }

  /** The narrowed rows are exactly the selected rows of the table `load_df`
      picks. */
  lemma NarrowedSelected(tables: OpinionTables, question: string, subquestion: string, state: Option<string>, stratify: bool)
    ensures forall x :: x in Narrowed(tables, question, subquestion, state, stratify) <==>
      x in Table(tables, LoadDf(state, stratify)) && Selected(x, question, subquestion, state)
  {
    FilterMembershipAll(Table(tables, LoadDf(state, stratify)), OfQuestion(question));
  }

  function HeightBeforeFacets(baseHeight: real, stratify: bool): real {
    if stratify then baseHeight * StratifyFactor else baseHeight
  }

  /** The threshold rows binarized: each followed by its complement, then put
      in the order of the categorical `[threshold, "not3+"]`. */
  function Binarized(q: seq<OpinionRow>, threshold: string): seq<OpinionRow> {
    ThresholdOrder(FillNaPercentage(Filter(q, HasOutcome(threshold))), threshold)
  }

  /** The threshold branch: the binary palette, the binarized rows in their
      categorical order. */
  function ThresholdChart(q: seq<OpinionRow>, facets: Facets, axis: Axis, threshold: string, palettes: Palettes, h: real): Result<BarPlot, BarError> {
    if 2 !in palettes then Failure(MissingPalette(2))
    else if threshold == NaOutcome then Failure(DuplicateCategories)
    else Success(Bars(Binarized(q, threshold), Predetermined, axis, facets, palettes[2], h))
  }

  /** The rows other than the "3+"/"4+" aggregates. */
  function Kept(q: seq<OpinionRow>): seq<OpinionRow> {
    Filter(q, NotAggregate())
  }

  /** The branch without a threshold: the aggregates dropped, the palette for
      the number of distinct outcomes left, the rows sorted. */
  function PlainChart(q: seq<OpinionRow>, facets: Facets, axis: Axis, palettes: Palettes, h: real): Result<BarPlot, BarError> {
    var n := NUnique(Outcomes(Kept(q)));
    if n !in palettes then Failure(UnboundPalette(n))
    else Success(Bars(Kept(q), Descending, axis, facets, palettes[n], h))
  }

  /** From the narrowed rows on, with `h` the height before the facets are
      counted. */
  function Chart(q: seq<OpinionRow>, facets: Facets, axis: Axis, threshold: Option<string>, palettes: Palettes, h: real): Result<BarPlot, BarError> {
    if Truthy(threshold) then ThresholdChart(q, facets, axis, threshold.value, palettes, h)
    else PlainChart(q, facets, axis, palettes, h)
  }

  /** What `make_stacked_bar` hands to the plotting library, or the error it
      stops with. */
  function StackedBar(
    tables: OpinionTables, subquestionOrder: map<string, seq<string>>,
    question: string, subquestion: string, state: Option<string>, stratify: bool,
    threshold: Option<string>, palettes: Palettes, baseHeight: real): Result<BarPlot, BarError>
  {
    if subquestion == "all" && question !in subquestionOrder then Failure(UnknownSubquestionOrder(question))
    else
      var facets := if subquestion == "all" then AllFacets(subquestionOrder[question]) else OneFacet(subquestion);
      Chart(Narrowed(tables, question, subquestion, state, stratify), facets, if stratify then PartyAxis else QuestionAxis,
            threshold, palettes, HeightBeforeFacets(baseHeight, stratify))
  }

  /** The threshold branch and `plot_bars`, on the keywords' copy. */
  method ChartOf(q: seq<OpinionRow>, facets: Facets, axis: Axis, threshold: Option<string>, palettes: Palettes, kw: FigureKeywords)
    returns (r: Result<BarPlot, BarError>)
    modifies kw
    ensures r == Chart(q, facets, axis, threshold, palettes, old(kw.height))
  {
    var rows := q;
    var palette: seq<string>;
    var order: SortOrder;
    if Truthy(threshold) {
      if 2 !in palettes {
        return Failure(MissingPalette(2));
      }
      palette := palettes[2];
      rows := Filter(rows, HasOutcome(threshold.value));
      rows := FillNaPercentage(rows);
      if threshold.value == NaOutcome {
        return Failure(DuplicateCategories);
      }
      rows := ThresholdOrder(rows, threshold.value);
      assert rows == Binarized(q, threshold.value);
      order := Predetermined;
    } else {
      rows := Filter(rows, NotAggregate());
      assert rows == Kept(q);
      order := Descending;
      var n := NUnique(Outcomes(rows));
      if n !in palettes {
        return Failure(UnboundPalette(n));
      }
      palette := palettes[n];
    }
    var plot := PlotBars(rows, axis, facets, order, palette, kw);
    return Success(plot);
  }

  /** `make_stacked_bar`: narrows the rows step by step on a deep copy of the
      figure keywords, which it then hands to `plot_bars`. */
  method MakeStackedBar(
    tables: OpinionTables, subquestionOrder: map<string, seq<string>>,
    question: string, subquestion: string, state: Option<string>, stratify: bool,
    threshold: Option<string>, palettes: Option<Palettes>, figKw: FigureKeywords?)
    returns (r: Result<BarPlot, BarError>)
    ensures figKw != null ==> figKw.height == old(figKw.height)
    ensures r == StackedBar(tables, subquestionOrder, question, subquestion, state, stratify, threshold,
                            if palettes.None? then DefaultPalettes else palettes.value,
                            if figKw == null then DefaultHeight else figKw.height)
  {
    ghost var h0 := if figKw == null then DefaultHeight else figKw.height;
    var kw := new FigureKeywords(if figKw == null then DefaultHeight else figKw.height);
    var pals := if palettes.None? then DefaultPalettes else palettes.value;
    var df := Table(tables, LoadDf(state, stratify));
    var q := Filter(df, OfQuestion(question));
    var facets: Facets;
    if subquestion == "all" {
      if question !in subquestionOrder {
        return Failure(UnknownSubquestionOrder(question));
      }
      facets := AllFacets(subquestionOrder[question]);
    } else {
      q := Filter(q, OfSubquestion(subquestion));
      facets := OneFacet(subquestion);
    }
    var axis := QuestionAxis;
    if Truthy(state) {
      q := Filter(q, OfState(state.value));
    }
    assert q == Narrowed(tables, question, subquestion, state, stratify);
    if stratify {
      axis := PartyAxis;
      kw.height := kw.height * StratifyFactor;
    }
    assert kw.height == HeightBeforeFacets(h0, stratify);
    r := ChartOf(q, facets, axis, threshold, pals, kw);
    StackedBarChart(tables, subquestionOrder, question, subquestion, state, stratify, threshold, pals, h0);
  }

  /** Past the sub-question order check, the chart is drawn from the narrowed
      rows. */
  lemma StackedBarChart(
    tables: OpinionTables, subquestionOrder: map<string, seq<string>>,
    question: string, subquestion: string, state: Option<string>, stratify: bool,
    threshold: Option<string>, palettes: Palettes, baseHeight: real)
    requires subquestion == "all" ==> question in subquestionOrder
    ensures StackedBar(tables, subquestionOrder, question, subquestion, state, stratify, threshold, palettes, baseHeight)
      == Chart(Narrowed(tables, question, subquestion, state, stratify),
               if subquestion == "all" then AllFacets(subquestionOrder[question]) else OneFacet(subquestion),
               if stratify then PartyAxis else QuestionAxis, threshold, palettes, HeightBeforeFacets(baseHeight, stratify))
  {
  }

  // ---------------------------------------------------------------------------
  // Properties
  // ---------------------------------------------------------------------------

  /** The chart fails exactly on a missing sub-question order for "all", a
      missing binary palette or a "not3+" threshold in threshold mode, and a
      number of outcomes without a palette otherwise. */
  lemma StackedBarFails(
    tables: OpinionTables, subquestionOrder: map<string, seq<string>>,
    question: string, subquestion: string, state: Option<string>, stratify: bool,
    threshold: Option<string>, palettes: Palettes, baseHeight: real)
    ensures var r := StackedBar(tables, subquestionOrder, question, subquestion, state, stratify, threshold, palettes, baseHeight);
      var kept := Kept(Narrowed(tables, question, subquestion, state, stratify));
      r.Failure? <==>
        (subquestion == "all" && question !in subquestionOrder)
        || (Truthy(threshold) && (2 !in palettes || threshold.value == NaOutcome))
        || (!Truthy(threshold) && NUnique(Outcomes(kept)) !in palettes)
  {
  }

  /** The rows any element of a permutation of `ScaleAll(src)` came from. */
  lemma ScaledSource(src: seq<OpinionRow>, rows: seq<OpinionRow>, x: OpinionRow) returns (i: nat)
    requires multiset(rows) == multiset(ScaleAll(src)) && x in rows
    ensures i < |src| && x == Scale(src[i])
  {
    assert x in multiset(ScaleAll(src));
    var k :| 0 <= k < |src| && ScaleAll(src)[k] == x;
    i := k;
  }

  /** The threshold chart's rows: the threshold's rows and then their
      complements, out of 100, with the binary palette. */
  lemma ThresholdChartRows(q: seq<OpinionRow>, facets: Facets, axis: Axis, t: string, palettes: Palettes, h: real)
    requires ThresholdChart(q, facets, axis, t, palettes, h).Success?
    ensures var xs := Filter(q, HasOutcome(t));
      var p := ThresholdChart(q, facets, axis, t, palettes, h).value;
      p.rows == ScaleAll(xs + InvertAll(xs)) && p.palette == palettes[2]
  {
    var xs := Filter(q, HasOutcome(t));
    ThresholdShape(xs, t);
    var b := Binarized(q, t);
    assert b == xs + InvertAll(xs);
    assert ThresholdChart(q, facets, axis, t, palettes, h).value == Bars(b, Predetermined, axis, facets, palettes[2], h);
  }

  /** Every row of a threshold chart is a row of the threshold, rescaled, or
      the complement of one. */
  lemma ThresholdChartRowsFrom(q: seq<OpinionRow>, facets: Facets, axis: Axis, t: string, palettes: Palettes, h: real, x: OpinionRow)
    requires ThresholdChart(q, facets, axis, t, palettes, h).Success?
    requires x in ThresholdChart(q, facets, axis, t, palettes, h).value.rows
    ensures exists y :: y in q && (x == Scale(y) || x == Scale(Invert(y)))
  {
    var xs := Filter(q, HasOutcome(t));
    FilterMembershipAll(q, HasOutcome(t));
    ThresholdChartRows(q, facets, axis, t, palettes, h);
    var y := BinarizedSource(xs, x);
  }

  /** The row of `xs` any row of `ScaleAll(xs + InvertAll(xs))` comes from. */
  lemma BinarizedSource(xs: seq<OpinionRow>, x: OpinionRow) returns (y: OpinionRow)
    requires x in ScaleAll(xs + InvertAll(xs))
    ensures y in xs && (x == Scale(y) || x == Scale(Invert(y)))
  {
    var b := xs + InvertAll(xs);
    var i :| 0 <= i < |b| && ScaleAll(b)[i] == x;
    if i < |xs| {
      y := xs[i];
    } else {
      y := xs[i - |xs|];
    }
  }

  /** Every row of a chart without threshold is a row of `q`, rescaled. */
  lemma PlainChartRowsFrom(q: seq<OpinionRow>, facets: Facets, axis: Axis, palettes: Palettes, h: real, x: OpinionRow)
    requires PlainChart(q, facets, axis, palettes, h).Success?
    requires x in PlainChart(q, facets, axis, palettes, h).value.rows
    ensures exists y :: y in q && x == Scale(y)
  {
    var kept := Kept(q);
    FilterMembershipAll(q, NotAggregate());
    SortDescByCorrect(ScaleAll(kept), OutcomeOf);
    var i := ScaledSource(kept, PlainChart(q, facets, axis, palettes, h).value.rows, x);
    assert kept[i] in q;
  }

  /** Every plotted row belongs to the question, to the sub-question unless it
      is "all", and to the state when one is given. */
  lemma StackedBarRowsSelected(
    tables: OpinionTables, subquestionOrder: map<string, seq<string>>,
    question: string, subquestion: string, state: Option<string>, stratify: bool,
    threshold: Option<string>, palettes: Palettes, baseHeight: real)
    requires StackedBar(tables, subquestionOrder, question, subquestion, state, stratify, threshold, palettes, baseHeight).Success?
    ensures var rows := StackedBar(tables, subquestionOrder, question, subquestion, state, stratify, threshold, palettes, baseHeight).value.rows;
      forall x :: x in rows ==> Selected(x, question, subquestion, state)
  {
    var q := Narrowed(tables, question, subquestion, state, stratify);
    NarrowedSelected(tables, question, subquestion, state, stratify);
    var facets := if subquestion == "all" then AllFacets(subquestionOrder[question]) else OneFacet(subquestion);
    var axis := if stratify then PartyAxis else QuestionAxis;
    var h := HeightBeforeFacets(baseHeight, stratify);
    var c := Chart(q, facets, axis, threshold, palettes, h);
    assert c == StackedBar(tables, subquestionOrder, question, subquestion, state, stratify, threshold, palettes, baseHeight);
    forall x | x in c.value.rows ensures Selected(x, question, subquestion, state) {
      if Truthy(threshold) {
        ThresholdChartRowsFrom(q, facets, axis, threshold.value, palettes, h, x);
      } else {
        PlainChartRowsFrom(q, facets, axis, palettes, h, x);
      }
    }
  }

  /** In threshold mode the chart shows the threshold's rows, out of 100, and
      after them, in the same order, their "not3+" complements, each adding up
      to 100 with its partner; the binary palette is used. */
  lemma ThresholdChartShape(q: seq<OpinionRow>, facets: Facets, axis: Axis, t: string, palettes: Palettes, h: real)
    requires ThresholdChart(q, facets, axis, t, palettes, h).Success?
    ensures var p := ThresholdChart(q, facets, axis, t, palettes, h).value;
      var xs := Filter(q, HasOutcome(t));
      |p.rows| == 2 * |xs| && p.palette == palettes[2]
      && (forall i :: 0 <= i < |xs| ==> p.rows[i] == Scale(xs[i]))
      && (forall i :: |xs| <= i < |p.rows| ==> p.rows[i].outcome == NaOutcome)
      && (forall i :: |xs| <= i < |p.rows| ==> p.rows[i].percentage == 100.0 - p.rows[i - |xs|].percentage)
  {
    ThresholdChartRows(q, facets, axis, t, palettes, h);
    BinarizedLayout(Filter(q, HasOutcome(t)));
  }

  lemma BinarizedLayout(xs: seq<OpinionRow>)
    ensures var rows := ScaleAll(xs + InvertAll(xs));
      |rows| == 2 * |xs|
      && (forall i :: 0 <= i < |xs| ==> rows[i] == Scale(xs[i]))
      && (forall i :: |xs| <= i < |rows| ==> rows[i].outcome == NaOutcome)
      && (forall i :: |xs| <= i < |rows| ==> rows[i].percentage == 100.0 - rows[i - |xs|].percentage)
  {
    var b := xs + InvertAll(xs);
    var rows := ScaleAll(b);
    forall i | |xs| <= i < |rows|
      ensures rows[i].outcome == NaOutcome && rows[i].percentage == 100.0 - rows[i - |xs|].percentage
    {
      var j := i - |xs|;
      assert b[i] == Invert(xs[j]) && b[j] == xs[j];
      assert (1.0 - xs[j].percentage) * 100.0 == 100.0 - xs[j].percentage * 100.0;
    }
  }

  /** Outcomes and sub-questions of a permutation of the rescaled rows are
      those of the rows. */
  lemma ScaledLabels(src: seq<OpinionRow>, rows: seq<OpinionRow>)
    requires multiset(rows) == multiset(ScaleAll(src))
    ensures NUnique(Outcomes(rows)) == NUnique(Outcomes(src))
    ensures NUnique(SubQuestions(rows)) == NUnique(SubQuestions(src))
  {
    forall x ensures x in rows <==> exists j :: 0 <= j < |src| && x == Scale(src[j]) {
      if x in rows {
        var j := ScaledSource(src, rows, x);
      }
      if exists j :: 0 <= j < |src| && x == Scale(src[j]) {
        var j :| 0 <= j < |src| && x == Scale(src[j]);
        assert ScaleAll(src)[j] in multiset(rows);
      }
    }
    forall o ensures o in Outcomes(rows) <==> o in Outcomes(src) {
      if o in Outcomes(rows) {
        var i :| 0 <= i < |rows| && Outcomes(rows)[i] == o;
        assert rows[i] in rows;
        var j :| 0 <= j < |src| && rows[i] == Scale(src[j]);
        assert Outcomes(src)[j] == o;
      }
      if o in Outcomes(src) {
        var j :| 0 <= j < |src| && Outcomes(src)[j] == o;
        assert Scale(src[j]) in rows;
        var i :| 0 <= i < |rows| && rows[i] == Scale(src[j]);
        assert Outcomes(rows)[i] == o;
      }
    }
    SameValues(Outcomes(rows), Outcomes(src));
    forall s ensures s in SubQuestions(rows) <==> s in SubQuestions(src) {
      if s in SubQuestions(rows) {
        var i :| 0 <= i < |rows| && SubQuestions(rows)[i] == s;
        assert rows[i] in rows;
        var j :| 0 <= j < |src| && rows[i] == Scale(src[j]);
        assert SubQuestions(src)[j] == s;
      }
      if s in SubQuestions(src) {
        var j :| 0 <= j < |src| && SubQuestions(src)[j] == s;
        assert Scale(src[j]) in rows;
        var i :| 0 <= i < |rows| && rows[i] == Scale(src[j]);
        assert SubQuestions(rows)[i] == s;
      }
    }
    SameValues(SubQuestions(rows), SubQuestions(src));
  }

  /** Without a threshold no "3+" or "4+" row is shown, the rows are the
      remaining ones, out of 100, as a multiset, sorted by outcome in
      descending order, and the palette is the one for the number of distinct
      outcomes shown. */
  lemma PlainChartShape(q: seq<OpinionRow>, facets: Facets, axis: Axis, palettes: Palettes, h: real)
    requires PlainChart(q, facets, axis, palettes, h).Success?
    ensures var p := PlainChart(q, facets, axis, palettes, h).value;
      (forall x :: x in p.rows ==> x.outcome !in AvailableThresholds)
      && SortedDescBy(p.rows, OutcomeOf)
      && multiset(p.rows) == multiset(ScaleAll(Kept(q)))
      && NUnique(Outcomes(p.rows)) in palettes
      && p.palette == palettes[NUnique(Outcomes(p.rows))]
  {
    var kept := Kept(q);
    var scaled := ScaleAll(kept);
    SortDescByCorrect(scaled, OutcomeOf);
    var rows := SortDescBy(scaled, OutcomeOf);
    assert rows == PlainChart(q, facets, axis, palettes, h).value.rows;
    forall x | x in rows ensures x.outcome !in AvailableThresholds {
      var i := ScaledSource(kept, rows, x);
      assert NotAggregate()(kept[i]);
    }
    ScaledLabels(kept, rows);
  }

  /** `height * n`: one row of height `h` per facet, stacked. */
  function Grow(h: real, n: nat): real
    decreases n
  {
    if n == 0 then 0.0 else Grow(h, n - 1) + h
  }

  lemma {:induction false} GrowIsProduct(h: real, n: nat)
    ensures Grow(h, n) == h * n as real
    decreases n
  {
    if n > 0 {
      GrowIsProduct(h, n - 1);
      assert h * (n - 1) as real + h == h * n as real;
    }
  }

  /** One facet row of height `h` per distinct sub-question shown. */
  predicate FacetHeight(p: BarPlot, h: real) {
    p.height == Grow(h, NUnique(SubQuestions(p.rows)))
  }

  /** `plot_bars` grows the height by the number of distinct sub-questions of
      the rows it plots. */
  lemma BarsHeight(rows: seq<OpinionRow>, order: SortOrder, axis: Axis, facets: Facets, palette: seq<string>, h: real)
    ensures FacetHeight(Bars(rows, order, axis, facets, palette, h), h)
  {
    PlotRowsPermutation(rows, order);
    ScaledLabels(rows, PlotRows(rows, order));
  }

  /** The plotted rows are the rescaled rows, in some order. */
  lemma PlotRowsPermutation(rows: seq<OpinionRow>, order: SortOrder)
    ensures multiset(PlotRows(rows, order)) == multiset(ScaleAll(rows))
  {
    if order == Descending {
      SortDescByCorrect(ScaleAll(rows), OutcomeOf);
    }
  }

  /** A chart's height is the height it is given times the number of distinct
      sub-questions among its rows; its axis is the one it is given. */
  lemma ChartHeight(q: seq<OpinionRow>, facets: Facets, axis: Axis, threshold: Option<string>, palettes: Palettes, h: real)
    requires Chart(q, facets, axis, threshold, palettes, h).Success?
    ensures FacetHeight(Chart(q, facets, axis, threshold, palettes, h).value, h)
    ensures Chart(q, facets, axis, threshold, palettes, h).value.axis == axis
    ensures Chart(q, facets, axis, threshold, palettes, h).value.axisOrder == AxisOrder(axis)
  {
    var c := Chart(q, facets, axis, threshold, palettes, h);
    if Truthy(threshold) {
      var b := Bars(Binarized(q, threshold.value), Predetermined, axis, facets, palettes[2], h);
      assert c == Success(b);
      BarsHeight(Binarized(q, threshold.value), Predetermined, axis, facets, palettes[2], h);
    } else {
      var kept := Kept(q);
      var b := Bars(kept, Descending, axis, facets, palettes[NUnique(Outcomes(kept))], h);
      assert c == Success(b);
      BarsHeight(kept, Descending, axis, facets, palettes[NUnique(Outcomes(kept))], h);
    }
  }

  /** The height is the base height, times 1.75 when stratified, times the
      number of distinct sub-questions among the plotted rows; a stratified
      chart has a party axis in the fixed party order. */
  lemma StackedBarHeight(
    tables: OpinionTables, subquestionOrder: map<string, seq<string>>,
    question: string, subquestion: string, state: Option<string>, stratify: bool,
    threshold: Option<string>, palettes: Palettes, baseHeight: real)
    requires StackedBar(tables, subquestionOrder, question, subquestion, state, stratify, threshold, palettes, baseHeight).Success?
    ensures FacetHeight(StackedBar(tables, subquestionOrder, question, subquestion, state, stratify, threshold, palettes, baseHeight).value,
                        HeightBeforeFacets(baseHeight, stratify))
    ensures StackedBar(tables, subquestionOrder, question, subquestion, state, stratify, threshold, palettes, baseHeight).value.axis == PartyAxis <==> stratify
    ensures stratify ==> StackedBar(tables, subquestionOrder, question, subquestion, state, stratify, threshold, palettes, baseHeight).value.axisOrder == Some(PartyOrder)
  {
    var q := Narrowed(tables, question, subquestion, state, stratify);
    var facets := if subquestion == "all" then AllFacets(subquestionOrder[question]) else OneFacet(subquestion);
    var axis := if stratify then PartyAxis else QuestionAxis;
    var h := HeightBeforeFacets(baseHeight, stratify);
    StackedBarChart(tables, subquestionOrder, question, subquestion, state, stratify, threshold, palettes, baseHeight);
    ChartHeight(q, facets, axis, threshold, palettes, h);
  }

  // ---------------------------------------------------------------------------
  // wrap_column_text
  // ---------------------------------------------------------------------------

  /** `wrap_column_text` on a copy of the column: values in rows under 50 per
      cent go through `wrap`, the others are kept. `wrap` stands for
      `textwrap.wrap` joined with "<br>". */
  function WrapColumnText(values: seq<string>, percentages: seq<real>, wrap: string -> string): (r: seq<string>)
    requires |values| == |percentages|
    ensures |r| == |values|
    ensures forall i :: 0 <= i < |values| && percentages[i] >= 50.0 ==> r[i] == values[i]
    ensures forall i :: 0 <= i < |values| && percentages[i] < 50.0 ==> r[i] == wrap(values[i])
  {
    seq(|values|, i requires 0 <= i < |values| => if percentages[i] < 50.0 then wrap(values[i]) else values[i])
  }
}
