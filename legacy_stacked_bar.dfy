/** The older command-line stacked bar script. Its threshold mode keeps the
    threshold's own rows together with the levels below it, folds those levels
    into one "agg" row (one per party when stratified) and completes the total
    with an "NA" row; its `run` checks its arguments with assertions first.
    Its `load_df` is the same rule as the dashboard's and is modelled by
    `StackedBar.LoadDf`. */
module LegacyStackedBar {
  import opened Wrappers
  import opened Seqs
  import opened SurveyData
  import SB = StackedBar

  /** `available_threshold_dict`: each threshold and the levels below it. */
  const ThresholdLevels: map<string, seq<string>> := map["3+" := ["1", "2"], "4+" := ["1", "2", "3"]]
  const AggLabel: string := "agg"
  const NaLabel: string := "NA"

  /** The `AssertionError`s of `run`, and the `IndexError` of `unique()[0]` on
      an empty frame. */
  datatype LegacyError =
    | UnknownQuestion(question: string)
    | UnknownSubquestion(subquestion: string)
    | UnknownState(state: string)
    | NoPartyColumn
    | UnknownThreshold(threshold: string)
    | EmptyFrame

  /** What `plot_bars` hands to `px.bar`: the rows, the `y` column and the
      sort order. */
  datatype LegacyChart = LegacyChart(rows: seq<OpinionRow>, axis: SB.Axis, order: SB.SortOrder)

  function Pct(x: OpinionRow): real {
    x.percentage
  }

  function OutcomeIn(outcomes: seq<string>): OpinionRow -> bool {
    (x: OpinionRow) => x.outcome in outcomes
  }

  function OutcomeNotIn(outcomes: seq<string>): OpinionRow -> bool {
    (x: OpinionRow) => x.outcome !in outcomes
  }

  function InParty(p: string): OpinionRow -> bool {
    (x: OpinionRow) => x.party == Some(p)
  }

  function PartyAmong(ps: seq<string>): OpinionRow -> bool {
    (x: OpinionRow) => x.party.Some? && x.party.value in ps
  }

  function HasParty(): OpinionRow -> bool {
    (x: OpinionRow) => x.party.Some?
  }

  function NoParty(): OpinionRow -> bool {
    (x: OpinionRow) => x.party.None?
  }

  // ---------------------------------------------------------------------------
  // groupby("party")
  // ---------------------------------------------------------------------------

  /** Some row belongs to party `p`. */
  predicate PartyOccurs(rows: seq<OpinionRow>, p: string) {
    exists x :: x in rows && x.party == Some(p)
  }

  /** The non-missing values of the party column, in row order. */
  function PartyValues(rows: seq<OpinionRow>): (ps: seq<string>)
    ensures forall p :: p in ps <==> PartyOccurs(rows, p)
    decreases |rows|
  {
    if |rows| == 0 then []
    else
      var init := rows[..|rows| - 1];
      var last := rows[|rows| - 1];
      assert rows == init + [last];
      PartyValues(init) + (if last.party.Some? then [last.party.value] else [])
  }

  /** The groups `groupby("party")` visits: distinct parties in ascending
      order, rows without a party dropped. */
  function Parties(rows: seq<OpinionRow>): (ps: seq<string>)
    ensures StrictlyAscending(ps)
    ensures forall p :: p in ps <==> PartyOccurs(rows, p)
  {
    SortedDistinct(PartyValues(rows))
  }

  /** The frame `groupby(...).sum()` followed by `reset_index()` and the
      constant columns builds: one row per group, in group order, carrying the
      group's value. */
  function GroupRows(ps: seq<string>, question: string, subQuestion: string, outcome: string, value: string -> real): (r: seq<OpinionRow>)
    ensures |r| == |ps|
    ensures forall i :: 0 <= i < |ps| ==> r[i] == OpinionRow(question, subQuestion, outcome, value(ps[i]), None, Some(ps[i]))
    decreases |ps|
  {
    if |ps| == 0 then []
    else
      var last := ps[|ps| - 1];
      GroupRows(ps[..|ps| - 1], question, subQuestion, outcome, value) + [OpinionRow(question, subQuestion, outcome, value(last), None, Some(last))]
  }

  /** Of the group rows, a party's mask selects that party's row alone. */
  lemma GroupRowOfParty(ps: seq<string>, question: string, subQuestion: string, outcome: string, value: string -> real, k: nat)
    requires StrictlyAscending(ps) && k < |ps|
    ensures Filter(GroupRows(ps, question, subQuestion, outcome, value), InParty(ps[k])) ==
      [OpinionRow(question, subQuestion, outcome, value(ps[k]), None, Some(ps[k]))]
  {
    StrictlyAscendingDistinct(ps);
    FilterUnique(GroupRows(ps, question, subQuestion, outcome, value), InParty(ps[k]), k);
  }

  /** A group's summed percentage. */
  function GroupTotal(rows: seq<OpinionRow>): string -> real {
    (p: string) => SumBy(Filter(rows, InParty(p)), Pct)
  }

  /** What a group's percentages leave of 1. */
  function GroupRemainder(rows: seq<OpinionRow>): string -> real {
    (p: string) => 1.0 - SumBy(Filter(rows, InParty(p)), Pct)
  }

  /** The last group's row adds its value to the sum. */
  lemma GroupRowsSnocSum(ps: seq<string>, question: string, subQuestion: string, outcome: string, value: string -> real)
    requires |ps| > 0
    ensures SumBy(GroupRows(ps, question, subQuestion, outcome, value), Pct)
      == SumBy(GroupRows(ps[..|ps| - 1], question, subQuestion, outcome, value), Pct) + value(ps[|ps| - 1])
  {
    var last := ps[|ps| - 1];
    var row := OpinionRow(question, subQuestion, outcome, value(last), None, Some(last));
    SumByAppend(GroupRows(ps[..|ps| - 1], question, subQuestion, outcome, value), [row], Pct);
    assert SumBy([row], Pct) == SumBy([], Pct) + Pct(row);
  }

  /** Adding a new party to the groups adds its rows' total. */
  lemma PartyAmongSnoc(rows: seq<OpinionRow>, init: seq<string>, last: string)
    requires last !in init
    ensures SumBy(Filter(rows, PartyAmong(init + [last])), Pct)
      == SumBy(Filter(rows, PartyAmong(init)), Pct) + SumBy(Filter(rows, InParty(last)), Pct)
  {
    var ps := init + [last];
    var among := Filter(rows, PartyAmong(ps));
    assert forall i :: 0 <= i < |among| ==> InParty(last)(among[i]) == !PartyAmong(init)(among[i]) by {
      FilterMembershipAll(rows, PartyAmong(ps));
      forall i | 0 <= i < |among| ensures InParty(last)(among[i]) == !PartyAmong(init)(among[i]) {
        assert among[i] in among;
      }
    }
    SumByPartition(among, Pct, PartyAmong(init), InParty(last));
    FilterNarrower(rows, PartyAmong(ps), PartyAmong(init));
    FilterNarrower(rows, PartyAmong(ps), InParty(last));
  }

  /** The group totals add up to the total of the rows whose party is among
      the groups. */
  lemma {:induction false} GroupTotalsSum(rows: seq<OpinionRow>, ps: seq<string>, question: string, subQuestion: string, outcome: string)
    requires StrictlyAscending(ps)
    ensures SumBy(GroupRows(ps, question, subQuestion, outcome, GroupTotal(rows)), Pct) == SumBy(Filter(rows, PartyAmong(ps)), Pct)
    decreases |ps|
  {
    if |ps| == 0 {
      FilterNone(rows, PartyAmong(ps));
    } else {
      var init := ps[..|ps| - 1];
      var last := ps[|ps| - 1];
      assert StrictlyAscending(init);
      StrictlyAscendingDistinct(ps);
      assert last !in init;
      assert ps == init + [last];
      GroupTotalsSum(rows, init, question, subQuestion, outcome);
      GroupRowsSnocSum(ps, question, subQuestion, outcome, GroupTotal(rows));
      assert GroupTotal(rows)(last) == SumBy(Filter(rows, InParty(last)), Pct);
      PartyAmongSnoc(rows, init, last);
    }
  }

  /** The groups cover every row with a party. */
  lemma PartiesCover(rows: seq<OpinionRow>)
    ensures Filter(rows, PartyAmong(Parties(rows))) == Filter(rows, HasParty())
  {
    var ps := Parties(rows);
    forall i | 0 <= i < |rows| ensures PartyAmong(ps)(rows[i]) == HasParty()(rows[i]) {
      if rows[i].party.Some? {
        assert rows[i] in rows;
      }
    }
    FilterCongruent(rows, PartyAmong(ps), HasParty());
  }

  // ---------------------------------------------------------------------------
  // aggregate_outcome_subset and fill_na_percentage
  // ---------------------------------------------------------------------------

  /** The rows `aggregate_outcome_subset` appends: one "agg" row carrying the
      total of the aggregated outcomes, or one per party when stratified,
      with the question and sub-question of the first row. */
  function AggRows(rows: seq<OpinionRow>, aggOutcomes: seq<string>, stratified: bool): (r: seq<OpinionRow>)
    requires |rows| > 0
    ensures forall i :: 0 <= i < |r| ==> r[i].outcome == AggLabel
  {
    var pooled := Filter(rows, OutcomeIn(aggOutcomes));
    if stratified then GroupRows(Parties(pooled), rows[0].question, rows[0].subQuestion, AggLabel, GroupTotal(pooled))
    else [OpinionRow(rows[0].question, rows[0].subQuestion, AggLabel, SumBy(pooled, Pct), None, None)]
  }

  /** `aggregate_outcome_subset`: the rows of the aggregated outcomes replaced
      by their "agg" rows. `unique()[0]` fails on an empty frame. */
  function Aggregate(rows: seq<OpinionRow>, aggOutcomes: seq<string>, stratified: bool): Result<seq<OpinionRow>, LegacyError> {
    if |rows| == 0 then Failure(EmptyFrame)
    else Success(Filter(rows, OutcomeNotIn(aggOutcomes)) + AggRows(rows, aggOutcomes, stratified))
  }

  /** The rows `fill_na_percentage` appends: an "NA" row completing the total
      to 1, or one per party completing each party's total. */
  function NaRows(rows: seq<OpinionRow>, stratified: bool): (r: seq<OpinionRow>)
    requires |rows| > 0
    ensures forall i :: 0 <= i < |r| ==> r[i].outcome == NaLabel
  {
    if stratified then GroupRows(Parties(rows), rows[0].question, rows[0].subQuestion, NaLabel, GroupRemainder(rows))
    else [OpinionRow(rows[0].question, rows[0].subQuestion, NaLabel, 1.0 - SumBy(rows, Pct), None, None)]
  }

  /** `fill_na_percentage`; `unique()[0]` fails on an empty frame. */
  function FillNa(rows: seq<OpinionRow>, stratified: bool): Result<seq<OpinionRow>, LegacyError> {
    if |rows| == 0 then Failure(EmptyFrame)
    else Success(rows + NaRows(rows, stratified))
  }

  /** Appending rows of other outcomes leaves an outcome's rows alone. */
  lemma AppendOtherOutcome(rows: seq<OpinionRow>, extra: seq<OpinionRow>, o: string)
    requires forall i :: 0 <= i < |extra| ==> extra[i].outcome != o
    ensures Filter(rows + extra, SB.HasOutcome(o)) == Filter(rows, SB.HasOutcome(o))
  {
    FilterAppend(rows, extra, SB.HasOutcome(o));
    FilterNone(extra, SB.HasOutcome(o));
  }

  /** The rows left after aggregating are the rows of the other outcomes and
      the "agg" rows. */
  lemma AggregatedRows(rows: seq<OpinionRow>, aggOutcomes: seq<string>, stratified: bool)
    requires |rows| > 0 && AggLabel !in aggOutcomes
    ensures forall x :: x in Aggregate(rows, aggOutcomes, stratified).value ==>
      x.outcome !in aggOutcomes && (x in rows || x.outcome == AggLabel)
  {
    var rest := Filter(rows, OutcomeNotIn(aggOutcomes));
    var aggRows := AggRows(rows, aggOutcomes, stratified);
    FilterMembershipAll(rows, OutcomeNotIn(aggOutcomes));
    forall x: OpinionRow | x in rest + aggRows ensures x.outcome !in aggOutcomes && (x in rows || x.outcome == AggLabel) {
      if x !in rest {
        var i :| 0 <= i < |aggRows| && aggRows[i] == x;
      }
    }
  }

  /** Aggregating leaves the rows of any other outcome than "agg" alone. */
  lemma AggregatedOther(rows: seq<OpinionRow>, aggOutcomes: seq<string>, stratified: bool, o: string)
    requires |rows| > 0 && o !in aggOutcomes && o != AggLabel
    ensures Filter(Aggregate(rows, aggOutcomes, stratified).value, SB.HasOutcome(o)) == Filter(rows, SB.HasOutcome(o))
  {
    var rest := Filter(rows, OutcomeNotIn(aggOutcomes));
    AppendOtherOutcome(rest, AggRows(rows, aggOutcomes, stratified), o);
    FilterNarrower(rows, OutcomeNotIn(aggOutcomes), SB.HasOutcome(o));
  }

  /** Aggregating fails exactly on an empty frame. Otherwise no aggregated
      outcome is left and any other outcome keeps its rows, in order. */
  lemma AggregateOutcomes(rows: seq<OpinionRow>, aggOutcomes: seq<string>, stratified: bool)
    requires AggLabel !in aggOutcomes
    ensures Aggregate(rows, aggOutcomes, stratified).Failure? <==> |rows| == 0
    ensures Aggregate(rows, aggOutcomes, stratified).Success? ==>
      forall x :: x in Aggregate(rows, aggOutcomes, stratified).value ==> x.outcome !in aggOutcomes && (x in rows || x.outcome == AggLabel)
    ensures Aggregate(rows, aggOutcomes, stratified).Success? ==>
      forall o :: o !in aggOutcomes && o != AggLabel ==>
        Filter(Aggregate(rows, aggOutcomes, stratified).value, SB.HasOutcome(o)) == Filter(rows, SB.HasOutcome(o))
  {
    if |rows| > 0 {
      AggregatedRows(rows, aggOutcomes, stratified);
      forall o | o !in aggOutcomes && o != AggLabel
        ensures Filter(Aggregate(rows, aggOutcomes, stratified).value, SB.HasOutcome(o)) == Filter(rows, SB.HasOutcome(o))
      {
        AggregatedOther(rows, aggOutcomes, stratified, o);
      }
    }
  }

  /** Aggregating preserves the total percentage, except that, stratified,
      the aggregated rows without a party are dropped with their share. */
  lemma AggregateTotal(rows: seq<OpinionRow>, aggOutcomes: seq<string>, stratified: bool)
    requires |rows| > 0
    ensures var pooled := Filter(rows, OutcomeIn(aggOutcomes));
      var dropped := if stratified then SumBy(Filter(pooled, NoParty()), Pct) else 0.0;
      SumBy(Aggregate(rows, aggOutcomes, stratified).value, Pct) + dropped == SumBy(rows, Pct)
  {
    var pooled := Filter(rows, OutcomeIn(aggOutcomes));
    var rest := Filter(rows, OutcomeNotIn(aggOutcomes));
    var aggRows := AggRows(rows, aggOutcomes, stratified);
    assert SumBy(rest + aggRows, Pct) == SumBy(rest, Pct) + SumBy(aggRows, Pct) by {
      SumByAppend(rest, aggRows, Pct);
    }
    assert SumBy(rest, Pct) + SumBy(pooled, Pct) == SumBy(rows, Pct) by {
      SumByPartition(rows, Pct, OutcomeNotIn(aggOutcomes), OutcomeIn(aggOutcomes));
    }
    AggRowsTotal(rows, aggOutcomes, stratified);
  }

  /** The "agg" rows carry the total of the aggregated rows, less, when
      stratified, the rows without a party. */
  lemma AggRowsTotal(rows: seq<OpinionRow>, aggOutcomes: seq<string>, stratified: bool)
    requires |rows| > 0
    ensures var pooled := Filter(rows, OutcomeIn(aggOutcomes));
      var dropped := if stratified then SumBy(Filter(pooled, NoParty()), Pct) else 0.0;
      SumBy(AggRows(rows, aggOutcomes, stratified), Pct) + dropped == SumBy(pooled, Pct)
  {
    var pooled := Filter(rows, OutcomeIn(aggOutcomes));
    var aggRows := AggRows(rows, aggOutcomes, stratified);
    if stratified {
      GroupTotalsSum(pooled, Parties(pooled), rows[0].question, rows[0].subQuestion, AggLabel);
      PartiesCover(pooled);
      forall i | 0 <= i < |pooled| ensures NoParty()(pooled[i]) == !HasParty()(pooled[i]) { }
      SumByPartition(pooled, Pct, HasParty(), NoParty());
    } else {
      assert SumBy(aggRows, Pct) == SumBy([], Pct) + SumBy(pooled, Pct);
    }
  }

  /** Filling fails exactly on an empty frame. Otherwise the rows are kept in
      front and any other outcome than "NA" keeps its rows. */
  lemma FillNaKeeps(rows: seq<OpinionRow>, stratified: bool)
    ensures FillNa(rows, stratified).Failure? <==> |rows| == 0
    ensures FillNa(rows, stratified).Success? ==>
      var r := FillNa(rows, stratified).value;
      |r| >= |rows| && r[..|rows|] == rows
    ensures FillNa(rows, stratified).Success? ==>
      forall x :: x in FillNa(rows, stratified).value ==> x in rows || x.outcome == NaLabel
    ensures FillNa(rows, stratified).Success? ==>
      forall o :: o != NaLabel ==> Filter(FillNa(rows, stratified).value, SB.HasOutcome(o)) == Filter(rows, SB.HasOutcome(o))
  {
    if |rows| > 0 {
      var naRows := NaRows(rows, stratified);
      assert (rows + naRows)[..|rows|] == rows;
      FilledRows(rows, stratified);
      forall o | o != NaLabel ensures Filter(rows + naRows, SB.HasOutcome(o)) == Filter(rows, SB.HasOutcome(o)) {
        AppendOtherOutcome(rows, naRows, o);
      }
    }
  }

  /** The rows after filling are the given ones and "NA" rows. */
  lemma FilledRows(rows: seq<OpinionRow>, stratified: bool)
    requires |rows| > 0
    ensures forall x :: x in rows + NaRows(rows, stratified) ==> x in rows || x.outcome == NaLabel
  {
    var naRows := NaRows(rows, stratified);
    forall x: OpinionRow | x in rows + naRows ensures x in rows || x.outcome == NaLabel {
      if x !in rows {
        assert x in naRows;
        NaRowOutcome(naRows, x);
      }
    }
  }

  lemma NaRowOutcome(naRows: seq<OpinionRow>, x: OpinionRow)
    requires forall i :: 0 <= i < |naRows| ==> naRows[i].outcome == NaLabel
    requires x in naRows
    ensures x.outcome == NaLabel
  {
    var i :| 0 <= i < |naRows| && naRows[i] == x;
  }

  /** Stratified, each party's percentages add up to 1 after filling. */
  lemma FillNaPartyTotal(rows: seq<OpinionRow>, p: string)
    requires |rows| > 0 && p in Parties(rows)
    ensures SumBy(Filter(rows + NaRows(rows, true), InParty(p)), Pct) == 1.0
  {
    var ps := Parties(rows);
    var k :| 0 <= k < |ps| && ps[k] == p;
    FilterAppend(rows, NaRows(rows, true), InParty(p));
    GroupRowOfParty(ps, rows[0].question, rows[0].subQuestion, NaLabel, GroupRemainder(rows), k);
    var row := OpinionRow(rows[0].question, rows[0].subQuestion, NaLabel, GroupRemainder(rows)(p), None, Some(p));
    SumByAppend(Filter(rows, InParty(p)), [row], Pct);
    assert SumBy([row], Pct) == SumBy([], Pct) + Pct(row);
  }

  /** After filling, the percentages add up to 1: over the whole frame, or,
      stratified, within each party. */
  lemma FillNaTotals(rows: seq<OpinionRow>, stratified: bool)
    requires |rows| > 0
    ensures !stratified ==> SumBy(FillNa(rows, stratified).value, Pct) == 1.0
    ensures stratified ==> forall p :: p in Parties(rows) ==> SumBy(Filter(FillNa(rows, stratified).value, InParty(p)), Pct) == 1.0
  {
    var naRows := NaRows(rows, stratified);
    if stratified {
      forall p | p in Parties(rows) ensures SumBy(Filter(rows + naRows, InParty(p)), Pct) == 1.0 {
        FillNaPartyTotal(rows, p);
      }
    } else {
      SumByAppend(rows, naRows, Pct);
      assert SumBy(naRows, Pct) == SumBy([], Pct) + Pct(naRows[0]);
    }
  }

  // ---------------------------------------------------------------------------
  // The categorical outcome order
  // ---------------------------------------------------------------------------

  predicate Distinct(cats: seq<string>) {
    forall i, j :: 0 <= i < j < |cats| ==> cats[i] != cats[j]
  }

  /** An outcome's place among the categories; an outcome outside them (NaN in
      the categorical) comes after all of them. */
  function Rank(cats: seq<string>, o: string): (k: nat)
    ensures k <= |cats|
    ensures k == |cats| <==> o !in cats
    ensures k < |cats| ==> cats[k] == o
    decreases |cats|
  {
    if |cats| == 0 then 0
    else
      var init := cats[..|cats| - 1];
      assert cats == init + [cats[|cats| - 1]];
      if o in init then Rank(init, o)
      else if o == cats[|cats| - 1] then |init|
      else |cats|
  }

  /** The rows ordered by the rank of their outcome. */
  predicate RankSorted(rows: seq<OpinionRow>, cats: seq<string>) {
    forall i, j :: 0 <= i < j < |rows| ==> Rank(cats, rows[i].outcome) <= Rank(cats, rows[j].outcome)
  }

  /** The rows of each category in turn, in category order. */
  function ByCategory(rows: seq<OpinionRow>, cats: seq<string>): seq<OpinionRow>
    decreases |cats|
  {
    if |cats| == 0 then [] else ByCategory(rows, cats[..|cats| - 1]) + Filter(rows, SB.HasOutcome(cats[|cats| - 1]))
  }

  /** `sort_values(by="outcome")` on a categorical column: the categories in
      their order, then the rows outside them. */
  function CategoricalOrder(rows: seq<OpinionRow>, cats: seq<string>): seq<OpinionRow> {
    ByCategory(rows, cats) + Filter(rows, OutcomeNotIn(cats))
  }

  /** Grouping by distinct categories puts the rows in rank order, each with
      an outcome among the categories. */
  lemma {:induction false} ByCategorySorted(rows: seq<OpinionRow>, cats: seq<string>)
    requires Distinct(cats)
    ensures forall i :: 0 <= i < |ByCategory(rows, cats)| ==> ByCategory(rows, cats)[i].outcome in cats
    ensures RankSorted(ByCategory(rows, cats), cats)
    decreases |cats|
  {
    if |cats| > 0 {
      var init := cats[..|cats| - 1];
      var last := cats[|cats| - 1];
      assert cats == init + [last];
      assert last !in init;
      ByCategorySorted(rows, init);
      var b0 := ByCategory(rows, init);
      var f := Filter(rows, SB.HasOutcome(last));
      var b := b0 + f;
      assert forall i :: 0 <= i < |b| ==> b[i].outcome in cats by {
        forall i | 0 <= i < |b| ensures b[i].outcome in cats {
          if i >= |b0| {
            assert b[i] == f[i - |b0|];
          }
        }
      }
      forall i, j | 0 <= i < j < |b| ensures Rank(cats, b[i].outcome) <= Rank(cats, b[j].outcome) {
        if j < |b0| {
          assert b[i] == b0[i] && b[j] == b0[j];
          assert Rank(cats, b[i].outcome) == Rank(init, b[i].outcome);
          assert Rank(cats, b[j].outcome) == Rank(init, b[j].outcome);
        } else if i < |b0| {
          assert b[i] == b0[i] && b[j] == f[j - |b0|];
          assert Rank(cats, b[i].outcome) == Rank(init, b[i].outcome);
        } else {
          assert b[i] == f[i - |b0|] && b[j] == f[j - |b0|];
        }
      }
    }
  }

  /** Grouping by distinct categories keeps exactly the rows of those
      categories, each once. */
  lemma {:induction false} ByCategoryRows(rows: seq<OpinionRow>, cats: seq<string>)
    requires Distinct(cats)
    ensures multiset(ByCategory(rows, cats)) == multiset(Filter(rows, OutcomeIn(cats)))
    decreases |cats|
  {
    if |cats| == 0 {
      FilterNone(rows, OutcomeIn(cats));
    } else {
      var init := cats[..|cats| - 1];
      var last := cats[|cats| - 1];
      assert cats == init + [last];
      assert last !in init;
      ByCategoryRows(rows, init);
      var g := Filter(rows, OutcomeIn(cats));
      FilterPartition(g, OutcomeIn(init), SB.HasOutcome(last));
      FilterNarrower(rows, OutcomeIn(cats), OutcomeIn(init));
      FilterNarrower(rows, OutcomeIn(cats), SB.HasOutcome(last));
    }
  }

  /** The rows of the first category come first, in their order. */
  lemma {:induction false} ByCategoryFirst(rows: seq<OpinionRow>, cats: seq<string>)
    requires |cats| > 0
    ensures var f := Filter(rows, SB.HasOutcome(cats[0]));
      |f| <= |ByCategory(rows, cats)| && ByCategory(rows, cats)[..|f|] == f
    decreases |cats|
  {
    var f := Filter(rows, SB.HasOutcome(cats[0]));
    var init := cats[..|cats| - 1];
    var b := ByCategory(rows, cats);
    if |cats| == 1 {
      assert ByCategory(rows, init) == [];
      assert b == f;
    } else {
      assert init[0] == cats[0];
      ByCategoryFirst(rows, init);
      var b0 := ByCategory(rows, init);
      assert b == b0 + Filter(rows, SB.HasOutcome(cats[|cats| - 1]));
      assert b[..|f|] == b0[..|f|];
    }
  }

  /** When every outcome is a category, the categorical sort is the grouping
      by category. */
  lemma CategoricalWithin(rows: seq<OpinionRow>, cats: seq<string>)
    requires forall x :: x in rows ==> x.outcome in cats
    ensures CategoricalOrder(rows, cats) == ByCategory(rows, cats)
  {
    FilterNone(rows, OutcomeNotIn(cats));
    assert CategoricalOrder(rows, cats) == ByCategory(rows, cats) + [];
  }

  /** The categorical sort is a permutation that puts the rows in rank order. */
  lemma CategoricalOrderSpec(rows: seq<OpinionRow>, cats: seq<string>)
    requires Distinct(cats)
    ensures RankSorted(CategoricalOrder(rows, cats), cats)
    ensures multiset(CategoricalOrder(rows, cats)) == multiset(rows)
  {
    var b := ByCategory(rows, cats);
    var n := Filter(rows, OutcomeNotIn(cats));
    ByCategorySorted(rows, cats);
    ByCategoryRows(rows, cats);
    FilterPartition(rows, OutcomeIn(cats), OutcomeNotIn(cats));
    var c := b + n;
    forall i, j | 0 <= i < j < |c| ensures Rank(cats, c[i].outcome) <= Rank(cats, c[j].outcome) {
      if j >= |b| {
        assert c[j] == n[j - |b|];
      }
      if i < |b| {
        assert c[i] == b[i];
      } else {
        assert c[i] == n[i - |b|];
      }
    }
  }

  // ---------------------------------------------------------------------------
  // run
  // ---------------------------------------------------------------------------

  /** `(df["question"] == question) & (df["sub_question"] == subquestion)`. */
  function OfItem(question: string, subquestion: string): OpinionRow -> bool {
    (x: OpinionRow) => x.question == question && x.subQuestion == subquestion
  }

  /** The rows of the question and sub-question, narrowed to the state when
      one is given. */
  function Selection(df: seq<OpinionRow>, question: string, subquestion: string, state: Option<string>): seq<OpinionRow> {
    var q := Filter(df, OfItem(question, subquestion));
    if Truthy(state) then Filter(q, SB.OfState(state.value)) else q
  }

  /** The outcomes a threshold keeps: itself, and the levels below it unless
      binarized. */
  function Included(t: string, binarize: bool): seq<string>
    requires t in ThresholdLevels
  {
    if binarize then [t] else [t] + ThresholdLevels[t]
  }

  /** The categories of the outcome column. */
  function Categories(t: string, binarize: bool): seq<string> {
    if binarize then [t, NaLabel] else [t, NaLabel, AggLabel]
  }

  /** The threshold branch: the kept outcomes, aggregated unless binarized,
      filled with "NA" and put in categorical order. */
  function Thresholded(q: seq<OpinionRow>, t: string, binarize: bool, stratified: bool): (r: Result<seq<OpinionRow>, LegacyError>)
    requires t in ThresholdLevels
    ensures r.Failure? ==> r.error == EmptyFrame
  {
    var filled :- Filled(q, t, binarize, stratified);
    Success(CategoricalOrder(filled, Categories(t, binarize)))
  }

  /** The threshold branch before the categorical sort. */
  function Filled(q: seq<OpinionRow>, t: string, binarize: bool, stratified: bool): (r: Result<seq<OpinionRow>, LegacyError>)
    requires t in ThresholdLevels
    ensures r.Failure? ==> r.error == EmptyFrame
  {
    var kept := Filter(q, OutcomeIn(Included(t, binarize)));
    var pooled :- if binarize then Success(kept) else Aggregate(kept, ThresholdLevels[t], stratified);
    FillNa(pooled, stratified)
  }

  /** What `run` hands to `plot_bars`, or the error it stops with. */
  function RunChart(
    tables: OpinionTables, partyColumn: set<TableKind>,
    question: string, subquestion: string, state: Option<string>, stratify: bool,
    threshold: Option<string>, binarize: bool): Result<LegacyChart, LegacyError>
  {
    var k := SB.LoadDf(state, stratify);
    var df := SB.Table(tables, k);
    var q := Filter(df, OfItem(question, subquestion));
    var axis := if stratify then SB.PartyAxis else SB.QuestionAxis;
    if Filter(df, SB.OfQuestion(question)) == [] then Failure(UnknownQuestion(question))
    else if q == [] then Failure(UnknownSubquestion(subquestion))
    else if Truthy(state) && Filter(q, SB.OfState(state.value)) == [] then Failure(UnknownState(state.value))
    else if stratify && k !in partyColumn then Failure(NoPartyColumn)
    else if Truthy(threshold) then
      if threshold.value !in ThresholdLevels then Failure(UnknownThreshold(threshold.value))
      else
        var rows :- Thresholded(Selection(df, question, subquestion, state), threshold.value, binarize, stratify);
        Success(LegacyChart(SB.PlotRows(rows, SB.Predetermined), axis, SB.Predetermined))
    else
      var rows := Filter(Selection(df, question, subquestion, state), SB.NotAggregate());
      Success(LegacyChart(SB.PlotRows(rows, SB.Descending), axis, SB.Descending))
  }

  /** `run`: checks its arguments, then narrows `q_df` step by step. The
      party column's presence is a property of the table files, given here as
      the set of tables that have one. */
  method Run(
    tables: OpinionTables, partyColumn: set<TableKind>,
    question: string, subquestion: string, state: Option<string>, stratify: bool,
    threshold: Option<string>, binarize: bool)
    returns (r: Result<LegacyChart, LegacyError>)
    ensures r == RunChart(tables, partyColumn, question, subquestion, state, stratify, threshold, binarize)
  {
    var k := SB.LoadDf(state, stratify);
    var df := SB.Table(tables, k);
    if Filter(df, SB.OfQuestion(question)) == [] {
      return Failure(UnknownQuestion(question));
    }
    if Filter(df, OfItem(question, subquestion)) == [] {
      return Failure(UnknownSubquestion(subquestion));
    }
    var q := Filter(df, OfItem(question, subquestion));
    var axis := SB.QuestionAxis;
    if Truthy(state) {
      if Filter(q, SB.OfState(state.value)) == [] {
        return Failure(UnknownState(state.value));
      }
      q := Filter(q, SB.OfState(state.value));
    }
    if stratify {
      if k !in partyColumn {
        return Failure(NoPartyColumn);
      }
      axis := SB.PartyAxis;
    }
    var order: SB.SortOrder;
    if Truthy(threshold) {
      var t := threshold.value;
      if t !in ThresholdLevels {
        return Failure(UnknownThreshold(t));
      }
      var includeOutcomes := if binarize then [t] else [t] + ThresholdLevels[t];
      q := Filter(q, OutcomeIn(includeOutcomes));
      var cats: seq<string>;
      if !binarize {
        q :- Aggregate(q, ThresholdLevels[t], stratify);
        q :- FillNa(q, stratify);
        cats := [t, NaLabel, AggLabel];
      } else {
        q :- FillNa(q, stratify);
        cats := [t, NaLabel];
      }
      q := CategoricalOrder(q, cats);
      order := SB.Predetermined;
    } else {
      q := Filter(q, SB.NotAggregate());
      order := SB.Descending;
    }
    return Success(LegacyChart(SB.PlotRows(q, order), axis, order));
  }

  // ---------------------------------------------------------------------------
  // Properties of run
  // ---------------------------------------------------------------------------

  /** The threshold is neither a lower level nor one of the added labels. */
  lemma ThresholdLabels(t: string)
    requires t in ThresholdLevels
    ensures t !in ThresholdLevels[t] && AggLabel !in ThresholdLevels[t]
    ensures t != NaLabel && t != AggLabel
  {
    assert t == "3+" || t == "4+";
  }

  /** The categories are distinct whenever the threshold is not one of the
      added labels. */
  lemma CategoriesDistinct(t: string, binarize: bool)
    requires t != NaLabel && t != AggLabel
    ensures Distinct(Categories(t, binarize))
  {
    var cats := Categories(t, binarize);
    assert |NaLabel| != |AggLabel|;
    forall i, j | 0 <= i < j < |cats| ensures cats[i] != cats[j] {
      if i == 1 {
        assert cats[i] == NaLabel && cats[j] == AggLabel;
      }
    }
  }

  /** The outcome filter keeps the threshold's rows and nothing outside the
      included outcomes. */
  lemma KeptOutcomes(q: seq<OpinionRow>, t: string, binarize: bool)
    requires t in ThresholdLevels
    ensures var kept := Filter(q, OutcomeIn(Included(t, binarize)));
      Filter(kept, SB.HasOutcome(t)) == Filter(q, SB.HasOutcome(t))
      && forall x :: x in kept ==> x.outcome in Included(t, binarize)
  {
    FilterNarrower(q, OutcomeIn(Included(t, binarize)), SB.HasOutcome(t));
    FilterMembershipAll(q, OutcomeIn(Included(t, binarize)));
  }

  /** Aggregating the lower levels leaves the threshold's rows alone and only
      the threshold and "agg" as outcomes. */
  lemma PooledOutcomes(kept: seq<OpinionRow>, t: string, stratified: bool)
    requires t in ThresholdLevels
    requires forall x :: x in kept ==> x.outcome in Included(t, false)
    requires Aggregate(kept, ThresholdLevels[t], stratified).Success?
    ensures var pooled := Aggregate(kept, ThresholdLevels[t], stratified).value;
      Filter(pooled, SB.HasOutcome(t)) == Filter(kept, SB.HasOutcome(t))
      && forall x :: x in pooled ==> x.outcome in Categories(t, false)
  {
    ThresholdLabels(t);
    AggregateOutcomes(kept, ThresholdLevels[t], stratified);
  }

  /** Before the sort, the threshold branch keeps the threshold's own rows as
      they were, in order, and every outcome left is one of the categories:
      the lower levels are gone into "agg". */
  lemma FilledOutcomes(q: seq<OpinionRow>, t: string, binarize: bool, stratified: bool)
    requires t in ThresholdLevels && Filled(q, t, binarize, stratified).Success?
    ensures Filter(Filled(q, t, binarize, stratified).value, SB.HasOutcome(t)) == Filter(q, SB.HasOutcome(t))
    ensures forall x :: x in Filled(q, t, binarize, stratified).value ==> x.outcome in Categories(t, binarize)
  {
    var kept := Filter(q, OutcomeIn(Included(t, binarize)));
    KeptOutcomes(q, t, binarize);
    ThresholdLabels(t);
    var pooled := if binarize then kept else Aggregate(kept, ThresholdLevels[t], stratified).value;
    assert Filled(q, t, binarize, stratified) == FillNa(pooled, stratified);
    assert Filter(pooled, SB.HasOutcome(t)) == Filter(q, SB.HasOutcome(t))
      && forall x :: x in pooled ==> x.outcome in Categories(t, binarize)
    by {
      if !binarize {
        PooledOutcomes(kept, t, stratified);
      }
    }
    FillNaKeeps(pooled, stratified);
  }

  /** No filled row falls outside the categories, so the categorical sort is
      the grouping by category alone. */
  lemma ThresholdedByCategory(q: seq<OpinionRow>, t: string, binarize: bool, stratified: bool)
    requires t in ThresholdLevels && Thresholded(q, t, binarize, stratified).Success?
    ensures Distinct(Categories(t, binarize))
    ensures Thresholded(q, t, binarize, stratified).value
      == ByCategory(Filled(q, t, binarize, stratified).value, Categories(t, binarize))
  {
    var filled := Filled(q, t, binarize, stratified).value;
    var cats := Categories(t, binarize);
    ThresholdLabels(t);
    CategoriesDistinct(t, binarize);
    assert Thresholded(q, t, binarize, stratified).value == CategoricalOrder(filled, cats);
    FilledOutcomes(q, t, binarize, stratified);
    CategoricalWithin(filled, cats);
  }

  /** The threshold branch puts the rows in the categorical order: every
      outcome is a category, the ranks never decrease, the threshold's own
      rows come first and unchanged, and no row is lost or added by the sort. */
  lemma ThresholdedShape(q: seq<OpinionRow>, t: string, binarize: bool, stratified: bool)
    requires t in ThresholdLevels && Thresholded(q, t, binarize, stratified).Success?
    ensures forall i :: 0 <= i < |Thresholded(q, t, binarize, stratified).value| ==>
      Thresholded(q, t, binarize, stratified).value[i].outcome in Categories(t, binarize)
    ensures RankSorted(Thresholded(q, t, binarize, stratified).value, Categories(t, binarize))
    ensures var r := Thresholded(q, t, binarize, stratified).value;
      var xs := Filter(q, SB.HasOutcome(t));
      |xs| <= |r| && r[..|xs|] == xs
    ensures multiset(Thresholded(q, t, binarize, stratified).value) == multiset(Filled(q, t, binarize, stratified).value)
  {
    var filled := Filled(q, t, binarize, stratified).value;
    var cats := Categories(t, binarize);
    ThresholdedByCategory(q, t, binarize, stratified);
    CategoricalOrderSpec(filled, cats);
    ByCategorySorted(filled, cats);
    assert Filter(filled, SB.HasOutcome(t)) == Filter(q, SB.HasOutcome(t)) by {
      FilledOutcomes(q, t, binarize, stratified);
    }
    ByCategoryFirst(filled, cats);
  }

  /** With a threshold, the plotted rows are out of 100 in the categorical
      order: every outcome is the threshold, "NA" or (not binarized) "agg",
      the ranks never decrease, and the threshold's own rows come first. */
  lemma RunThresholdShape(
    tables: OpinionTables, partyColumn: set<TableKind>,
    question: string, subquestion: string, state: Option<string>, stratify: bool,
    threshold: Option<string>, binarize: bool)
    requires Truthy(threshold)
    requires RunChart(tables, partyColumn, question, subquestion, state, stratify, threshold, binarize).Success?
    ensures var p := RunChart(tables, partyColumn, question, subquestion, state, stratify, threshold, binarize).value;
      var q := Selection(SB.Table(tables, SB.LoadDf(state, stratify)), question, subquestion, state);
      var xs := Filter(q, SB.HasOutcome(threshold.value));
      var cats := Categories(threshold.value, binarize);
      p.order == SB.Predetermined
      && (forall i :: 0 <= i < |p.rows| ==> p.rows[i].outcome in cats)
      && RankSorted(p.rows, cats)
      && |xs| <= |p.rows| && p.rows[..|xs|] == SB.ScaleAll(xs)
  {
    var t := threshold.value;
    var q := Selection(SB.Table(tables, SB.LoadDf(state, stratify)), question, subquestion, state);
    var r := Thresholded(q, t, binarize, stratify).value;
    RunChartThresholded(tables, partyColumn, question, subquestion, state, stratify, threshold, binarize);
    ThresholdedShape(q, t, binarize, stratify);
    ScaledShape(r, Filter(q, SB.HasOutcome(t)), Categories(t, binarize));
  }

  /** With a threshold the chart plots the thresholded selection, out of 100,
      in the order given. */
  lemma RunChartThresholded(
    tables: OpinionTables, partyColumn: set<TableKind>,
    question: string, subquestion: string, state: Option<string>, stratify: bool,
    threshold: Option<string>, binarize: bool)
    requires Truthy(threshold)
    requires RunChart(tables, partyColumn, question, subquestion, state, stratify, threshold, binarize).Success?
    ensures var q := Selection(SB.Table(tables, SB.LoadDf(state, stratify)), question, subquestion, state);
      var p := RunChart(tables, partyColumn, question, subquestion, state, stratify, threshold, binarize).value;
      Thresholded(q, threshold.value, binarize, stratify).Success?
      && p.order == SB.Predetermined
      && p.rows == SB.ScaleAll(Thresholded(q, threshold.value, binarize, stratify).value)
  {
  }

  /** Scaling to 100 keeps the outcomes, hence the category order and the
      leading rows. */
  lemma ScaledShape(r: seq<OpinionRow>, xs: seq<OpinionRow>, cats: seq<string>)
    requires forall i :: 0 <= i < |r| ==> r[i].outcome in cats
    requires RankSorted(r, cats)
    requires |xs| <= |r| && r[..|xs|] == xs
    ensures var p := SB.ScaleAll(r);
      (forall i :: 0 <= i < |p| ==> p[i].outcome in cats)
      && RankSorted(p, cats)
      && p[..|xs|] == SB.ScaleAll(xs)
  {
    var p := SB.ScaleAll(r);
    assert forall i :: 0 <= i < |p| ==> p[i].outcome == r[i].outcome;
    assert p[..|xs|] == SB.ScaleAll(r[..|xs|]);
  }

  /** Without a threshold no "3+" or "4+" row is plotted; the rows are the
      selected ones, out of 100, as a multiset, sorted by outcome in
      descending order. */
  lemma RunNoThreshold(
    tables: OpinionTables, partyColumn: set<TableKind>,
    question: string, subquestion: string, state: Option<string>, stratify: bool,
    threshold: Option<string>, binarize: bool)
    requires !Truthy(threshold)
    requires RunChart(tables, partyColumn, question, subquestion, state, stratify, threshold, binarize).Success?
    ensures var p := RunChart(tables, partyColumn, question, subquestion, state, stratify, threshold, binarize).value;
      var q := Selection(SB.Table(tables, SB.LoadDf(state, stratify)), question, subquestion, state);
      p.order == SB.Descending
      && (forall x :: x in p.rows ==> x.outcome !in SB.AvailableThresholds)
      && SortedDescBy(p.rows, SB.OutcomeOf)
      && multiset(p.rows) == multiset(SB.ScaleAll(Filter(q, SB.NotAggregate())))
  {
    var q := Selection(SB.Table(tables, SB.LoadDf(state, stratify)), question, subquestion, state);
    var kept := Filter(q, SB.NotAggregate());
    var rows := SortDescBy(SB.ScaleAll(kept), SB.OutcomeOf);
    SortDescByCorrect(SB.ScaleAll(kept), SB.OutcomeOf);
    forall x | x in rows ensures x.outcome !in SB.AvailableThresholds {
      var i := SB.ScaledSource(kept, rows, x);
      assert SB.NotAggregate()(kept[i]);
    }
  }

  /** `run` stops at the first failed assertion, in the order of the source:
      an unknown question, sub-question, state, a missing party column, an
      unknown threshold; once past them the selection is not empty. */
  lemma RunChecks(
    tables: OpinionTables, partyColumn: set<TableKind>,
    question: string, subquestion: string, state: Option<string>, stratify: bool,
    threshold: Option<string>, binarize: bool)
    ensures var r := RunChart(tables, partyColumn, question, subquestion, state, stratify, threshold, binarize);
      var k := SB.LoadDf(state, stratify);
      var df := SB.Table(tables, k);
      var q := Filter(df, OfItem(question, subquestion));
      var questionFound := Filter(df, SB.OfQuestion(question)) != [];
      var subquestionFound := q != [];
      var stateFound := !Truthy(state) || Filter(q, SB.OfState(state.value)) != [];
      var partyFound := !stratify || k in partyColumn;
      (r == Failure(UnknownQuestion(question)) <==> !questionFound)
      && (r == Failure(UnknownSubquestion(subquestion)) <==> questionFound && !subquestionFound)
      && (state.Some? && r == Failure(UnknownState(state.value)) <==> questionFound && subquestionFound && !stateFound)
      && (r == Failure(NoPartyColumn) <==> questionFound && subquestionFound && stateFound && !partyFound)
      && (threshold.Some? && r == Failure(UnknownThreshold(threshold.value)) <==>
            questionFound && subquestionFound && stateFound && partyFound
            && Truthy(threshold) && threshold.value !in ThresholdLevels)
  {
  }

  /** A chart is drawn only from a non-empty selection, with the party column
      present when stratified and a known threshold; its bars are per party
      exactly when stratified. */
  lemma RunSucceeds(
    tables: OpinionTables, partyColumn: set<TableKind>,
    question: string, subquestion: string, state: Option<string>, stratify: bool,
    threshold: Option<string>, binarize: bool)
    requires RunChart(tables, partyColumn, question, subquestion, state, stratify, threshold, binarize).Success?
    ensures Selection(SB.Table(tables, SB.LoadDf(state, stratify)), question, subquestion, state) != []
    ensures stratify ==> SB.LoadDf(state, stratify) in partyColumn
    ensures Truthy(threshold) ==> threshold.value in ThresholdLevels
    ensures RunChart(tables, partyColumn, question, subquestion, state, stratify, threshold, binarize).value.axis == SB.PartyAxis
      <==> stratify
  {
  }

  /** An empty frame can only arise in the threshold branch, from aggregating
      or filling nothing. */
  lemma RunEmptyFrame(
    tables: OpinionTables, partyColumn: set<TableKind>,
    question: string, subquestion: string, state: Option<string>, stratify: bool,
    threshold: Option<string>, binarize: bool)
    requires RunChart(tables, partyColumn, question, subquestion, state, stratify, threshold, binarize) == Failure(EmptyFrame)
    ensures Truthy(threshold)
  {
  }
}
