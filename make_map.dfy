/** The choropleth map's data side: the state-abbreviation table flattened to
    one row per member state, the cluster dictionary, the per-row fill of the
    value to plot, the outline of a clicked state, and the row selection and
    colour range of the newer map builder. Figures are opaque apart from the
    layers this code adds. */
module SurveyMap {
  import opened Wrappers
  import opened Text
  import opened Seqs
  import opened SurveyData

  /** `np.array` of ragged columns, and the RuntimeErrors of the map builder. */
  datatype MapError = RaggedColumns | NoOpinionData | NoImpactData

  /** A row of the long-format table. `singleState` is `None` in the older
      table, which has no such column; `toPlot` and `popUp` are `None` until a
      reading fills them. */
  datatype MapRow = MapRow(state: string, singleState: Option<string>, abbrev: string, toPlot: Option<real>, popUp: Option<string>)

  // ---------------------------------------------------------------------------
  // Long format
  // ---------------------------------------------------------------------------

  /** The member states of a label: the text before the first " (", split on
      ", ". */
  function MemberNames(region: string): (ns: seq<string>)
    ensures |ns| >= 1
  {
    Split(Split(region, " (")[0], ", ")
  }

  /** No member name holds the separator. */
  lemma MemberNamesSeparated(region: string)
    ensures forall n :: n in MemberNames(region) ==> !Contains(n, ", ")
  {
    SplitPartsSeparated(Split(region, " (")[0], ", ");
  }

  /** Joining the members back gives the label's text before the first " (". */
  lemma MemberNamesJoin(region: string)
    ensures Join(MemberNames(region), ", ") == Split(region, " (")[0]
  {
    JoinSplit(Split(region, " (")[0], ", ");
  }

  /** A label without " (" and without ", " is a single state: its only member
      is itself. */
  lemma SingleStateMembers(region: string)
    requires !Contains(region, " (") && !Contains(region, ", ")
    ensures MemberNames(region) == [region]
  {
    SplitWithoutSeparator(region, " (");
    SplitWithoutSeparator(region, ", ");
  }

  function AbbrevList(row: AbbrevRow): (abbrevs: seq<string>)
    ensures |abbrevs| >= 1
  {
    Split(row.stateAbbreviated, ", ")
  }

  /** How many member states the table's labels name in total. */
  function MemberCount(table: seq<AbbrevRow>): nat
    decreases |table|
  {
    if |table| == 0 then 0 else MemberCount(table[..|table| - 1]) + |MemberNames(table[|table| - 1].state)|
  }

  /** The `states` list: each label repeated once per member. */
  function StateColumn(table: seq<AbbrevRow>): (col: seq<string>)
    ensures |col| == MemberCount(table)
    ensures forall i :: 0 <= i < |col| ==> exists j :: 0 <= j < |table| && col[i] == table[j].state
    decreases |table|
  {
    if |table| == 0 then []
    else
      var row := table[|table| - 1];
      var init := StateColumn(table[..|table| - 1]);
      assert forall i :: 0 <= i < |init| ==> exists j :: 0 <= j < |table| - 1 && init[i] == table[j].state;
      init + seq(|MemberNames(row.state)|, _ => row.state)
  }

  /** The `single_states` list. */
  function SingleStateColumn(table: seq<AbbrevRow>): (col: seq<string>)
    ensures |col| == MemberCount(table)
    decreases |table|
  {
    if |table| == 0 then [] else SingleStateColumn(table[..|table| - 1]) + MemberNames(table[|table| - 1].state)
  }

  /** The `abbrevs` list. */
  function AbbrevColumn(table: seq<AbbrevRow>): seq<string>
    decreases |table|
  {
    if |table| == 0 then [] else AbbrevColumn(table[..|table| - 1]) + AbbrevList(table[|table| - 1])
  }

  /** The three columns side by side, none of the cells filled yet. */
  function Zip(states: seq<string>, singles: seq<string>, abbrevs: seq<string>): (rows: seq<MapRow>)
    requires |states| == |singles| == |abbrevs|
    ensures |rows| == |singles|
    ensures forall i :: 0 <= i < |rows| ==> rows[i] == MapRow(states[i], Some(singles[i]), abbrevs[i], None, None)
  {
    seq(|singles|, i requires 0 <= i < |singles| => MapRow(states[i], Some(singles[i]), abbrevs[i], None, None))
  }

  /** The long table, or the error `np.array` raises on columns of different
      lengths. */
  function LongFormat(table: seq<AbbrevRow>): (r: Result<seq<MapRow>, MapError>)
    ensures r.Failure? <==> |AbbrevColumn(table)| != MemberCount(table)
    ensures r.Success? ==> |r.value| == MemberCount(table)
    ensures r.Success? ==> forall i :: 0 <= i < |r.value| ==>
      r.value[i].toPlot.None? && r.value[i].popUp.None? && exists j :: 0 <= j < |table| && r.value[i].state == table[j].state
  {
    var states := StateColumn(table);
    var singles := SingleStateColumn(table);
    var abbrevs := AbbrevColumn(table);
    if |abbrevs| != |singles| then Failure(RaggedColumns)
    else Success(Zip(states, singles, abbrevs))
  }

  /** `get_state_abbrevs_in_long_format`: extends the three lists row by row. */
  method GetStateAbbrevsInLongFormat(table: seq<AbbrevRow>) returns (r: Result<seq<MapRow>, MapError>)
    ensures r == LongFormat(table)
  {
    var states: seq<string> := [];
    var singles: seq<string> := [];
    var abbrevs: seq<string> := [];
    for i := 0 to |table|
      invariant states == StateColumn(table[..i])
      invariant singles == SingleStateColumn(table[..i])
      invariant abbrevs == AbbrevColumn(table[..i])
    {
      assert table[..i + 1][..i] == table[..i];
      var row := table[i];
      var stateList := MemberNames(row.state);
      singles := singles + stateList;
      abbrevs := abbrevs + AbbrevList(row);
      states := states + seq(|stateList|, _ => row.state);
    }
    assert table[..|table|] == table;
    if |singles| != |abbrevs| {
      return Failure(RaggedColumns);
    }
    var rows := ZipRows(states, singles, abbrevs);
    return Success(rows);
  }

  /** The rows of the `DataFrame` built from the three columns. */
  method ZipRows(states: seq<string>, singles: seq<string>, abbrevs: seq<string>) returns (rows: seq<MapRow>)
    requires |states| == |singles| == |abbrevs|
    ensures rows == Zip(states, singles, abbrevs)
  {
    rows := [];
    for i := 0 to |singles|
      invariant |rows| == i
      invariant forall k :: 0 <= k < i ==> rows[k] == MapRow(states[k], Some(singles[k]), abbrevs[k], None, None)
    {
      rows := rows + [MapRow(states[i], Some(singles[i]), abbrevs[i], None, None)];
    }
  }

  /** The rows one label expands to, when it names as many members as
      abbreviations. */
  function Expand(row: AbbrevRow): (rows: seq<MapRow>)
    requires |MemberNames(row.state)| == |AbbrevList(row)|
  {
    var names := MemberNames(row.state);
    var abbrevs := AbbrevList(row);
    seq(|names|, k requires 0 <= k < |names| => MapRow(row.state, Some(names[k]), abbrevs[k], None, None))
  }

  predicate WellFormed(table: seq<AbbrevRow>) {
    forall j :: 0 <= j < |table| ==> |MemberNames(table[j].state)| == |AbbrevList(table[j])|
  }

  function ExpandAll(table: seq<AbbrevRow>): seq<MapRow>
    requires WellFormed(table)
    decreases |table|
  {
    if |table| == 0 then [] else ExpandAll(table[..|table| - 1]) + Expand(table[|table| - 1])
  }

  /** Rows and three columns of the same length, each row built from the
      cells of its position. */
  predicate Aligned(rows: seq<MapRow>, states: seq<string>, singles: seq<string>, abbrevs: seq<string>) {
    |rows| == |states| == |singles| == |abbrevs|
    && forall i :: 0 <= i < |rows| ==> rows[i] == MapRow(states[i], Some(singles[i]), abbrevs[i], None, None)
  }

  lemma AlignedAppend(r1: seq<MapRow>, s1: seq<string>, g1: seq<string>, a1: seq<string>,
                      r2: seq<MapRow>, s2: seq<string>, g2: seq<string>, a2: seq<string>)
    requires Aligned(r1, s1, g1, a1) && Aligned(r2, s2, g2, a2)
    ensures Aligned(r1 + r2, s1 + s2, g1 + g2, a1 + a2)
  {
    forall i | |r1| <= i < |r1| + |r2|
      ensures (r1 + r2)[i] == MapRow((s1 + s2)[i], Some((g1 + g2)[i]), (a1 + a2)[i], None, None)
    {
      assert (r1 + r2)[i] == r2[i - |r1|];
    }
  }

  lemma {:induction false} ColumnsOfWellFormed(table: seq<AbbrevRow>)
    requires WellFormed(table)
    ensures |AbbrevColumn(table)| == MemberCount(table)
    ensures Aligned(ExpandAll(table), StateColumn(table), SingleStateColumn(table), AbbrevColumn(table))
    decreases |table|
  {
    if |table| > 0 {
      var init := table[..|table| - 1];
      var last := table[|table| - 1];
      assert WellFormed(init) by {
        forall j | 0 <= j < |init| ensures |MemberNames(init[j].state)| == |AbbrevList(init[j])| {
          assert init[j] == table[j];
        }
      }
      ColumnsOfWellFormed(init);
      AlignedAppend(ExpandAll(init), StateColumn(init), SingleStateColumn(init), AbbrevColumn(init),
        Expand(last), seq(|MemberNames(last.state)|, _ => last.state), MemberNames(last.state), AbbrevList(last));
    }
  }

  /** When every label names as many states as it has abbreviations, the long
      table is each label's members paired with its abbreviations, in order,
      every row keeping the label it came from. */
  lemma LongFormatWellFormed(table: seq<AbbrevRow>)
    requires WellFormed(table)
    ensures LongFormat(table) == Success(ExpandAll(table))
  {
    ColumnsOfWellFormed(table);
    assert Zip(StateColumn(table), SingleStateColumn(table), AbbrevColumn(table)) == ExpandAll(table);
  }

  // ---------------------------------------------------------------------------
  // Clusters
  // ---------------------------------------------------------------------------

  /** `label.rfind(",") + 1`: just after the last comma, or 0 without one. */
  function AndPosition(region: string): (i: nat)
    ensures i <= |region|
    ensures i > 0 ==> region[i - 1] == ','
    ensures forall j :: i <= j < |region| ==> region[j] != ','
  {
    match RFind(region, ",")
    case Some(j) =>
      assert region[j..j + 1] == ",";
      assert forall k :: j + 1 <= k < |region| ==> region[k] != ',' by {
        forall k | j + 1 <= k < |region| ensures region[k] != ',' {
          assert !OccursAt(region, ",", k);
          assert region[k..k + 1] == [region[k]];
        }
      }
      j + 1
    case None =>
      assert forall j :: 0 <= j < |region| ==> region[j] != ',' by {
        forall j | 0 <= j < |region| ensures region[j] != ',' {
          assert !OccursAt(region, ",", j);
          assert region[j..j + 1] == [region[j]];
        }
      }
      0
  }

  /** The cluster's display name: " and" inserted after the last comma. */
  function DisplayName(region: string): (d: string)
    ensures var i := AndPosition(region);
      |d| == |region| + 4 && d[..i] == region[..i] && d[i..i + 4] == " and" && d[i + 4..] == region[i..]
  {
    var i := AndPosition(region);
    region[..i] + " and" + region[i..]
  }

  /** Removing the inserted " and" gives the label back. */
  lemma DisplayNameInverse(region: string)
    ensures var i := AndPosition(region); var d := DisplayName(region);
      d[..i] + d[i + 4..] == region
  {
    var i := AndPosition(region);
    assert region == region[..i] + region[i..];
  }

  /** The dict that `get_clusters` fills: display name to abbreviation list. */
  function ClusterDict(table: seq<AbbrevRow>): (d: Dict<seq<string>>)
    ensures DistinctKeys(d)
    decreases |table|
  {
    if |table| == 0 then []
    else
      var d := ClusterDict(table[..|table| - 1]);
      var row := table[|table| - 1];
      if IsCluster(row.state) then Put(d, DisplayName(row.state), AbbrevList(row)) else d
  }

  /** `get_clusters`. */
  method GetClusters(table: seq<AbbrevRow>) returns (clusters: Dict<seq<string>>)
    ensures clusters == ClusterDict(table)
  {
    clusters := [];
    for i := 0 to |table|
      invariant clusters == ClusterDict(table[..i])
    {
      assert table[..i + 1][..i] == table[..i];
      var row := table[i];
      if IsCluster(row.state) {
        var i_and := match RFind(row.state, ",") case Some(j) => j + 1 case None => 0;
        var clusterName := row.state[..i_and] + " and" + row.state[i_and..];
        clusters := Put(clusters, clusterName, AbbrevList(row));
      }
    }
    assert table[..|table|] == table;
  }

  /** Only cluster labels become keys, each under its display name. */
  lemma {:induction false} ClusterDictKeys(table: seq<AbbrevRow>, k: string)
    ensures k in Keys(ClusterDict(table)) <==>
      exists j :: 0 <= j < |table| && IsCluster(table[j].state) && DisplayName(table[j].state) == k
    decreases |table|
  {
    if |table| > 0 {
      ClusterDictKeys(table[..|table| - 1], k);
      assert forall j :: 0 <= j < |table| - 1 ==> table[..|table| - 1][j] == table[j];
    }
  }

  /** A key maps to the abbreviations of the last cluster row with that
      display name. */
  lemma {:induction false} ClusterDictLookup(table: seq<AbbrevRow>, j: nat)
    requires j < |table| && IsCluster(table[j].state)
    requires forall l :: j < l < |table| && IsCluster(table[l].state) ==> DisplayName(table[l].state) != DisplayName(table[j].state)
    ensures Get(ClusterDict(table), DisplayName(table[j].state)) == Some(AbbrevList(table[j]))
    decreases |table|
  {
    if j < |table| - 1 {
      ClusterDictLookup(table[..|table| - 1], j);
    }
  }

  // ---------------------------------------------------------------------------
  // Filling the value to plot
  // ---------------------------------------------------------------------------

  /** A percentage to show for a region label. */
  datatype Reading = Reading(state: string, percentage: real)

  /** Reading `j` is the last whose label contains `state`. */
  predicate LastContaining(readings: seq<Reading>, state: string, j: int) {
    0 <= j < |readings| && Contains(readings[j].state, state)
    && forall l :: j < l < |readings| ==> !Contains(readings[l].state, state)
  }

  /** The last reading whose label contains the row's label (Python's
      `row_states["state"] in row_opinions.state`): the one whose value the
      row keeps, since each match overwrites the previous one. */
  function LastMatch(state: string, readings: seq<Reading>): Option<nat> {
    LastWhere(readings, Holds(state))
  }

  /** No reading is matched when no label contains the row's; otherwise the
      match is the last reading whose label does. */
  lemma LastMatchSpec(state: string, readings: seq<Reading>)
    ensures LastMatch(state, readings).None? <==> forall j :: 0 <= j < |readings| ==> !Contains(readings[j].state, state)
    ensures LastMatch(state, readings).Some? ==> LastContaining(readings, state, LastMatch(state, readings).value)
  {
    var p := Holds(state);
    assert forall j :: 0 <= j < |readings| ==> (p(readings[j]) <==> Contains(readings[j].state, state));
  }

  /** `state in reading.state`, as a test on readings. */
  function Holds(state: string): Reading -> bool {
    (x: Reading) => Contains(x.state, state)
  }

  /** The row once every reading has been offered to it: `to_plot` (out of
      100) and `pop_up` come from the last matching reading, if any. */
  function FillRow(row: MapRow, readings: seq<Reading>): MapRow {
    FillRowWith(row, readings, Holds(row.state))
  }

  /** The row after the last reading that passes `p`, if any. */
  function FillRowWith(row: MapRow, readings: seq<Reading>, p: Reading -> bool): MapRow {
    match LastWhere(readings, p)
    case None => row
    case Some(j) => Show(row, readings[j])
  }

  /** `to_plot` (out of 100) and `pop_up` taken from a reading. */
  function Show(row: MapRow, x: Reading): MapRow {
    row.(toPlot := Some(x.percentage * 100.0), popUp := Some(x.state))
  }

  /** Offering one more reading to a row. */
  lemma FillRowStep(row: MapRow, rs: seq<Reading>, x: Reading)
    ensures FillRow(row, rs).state == row.state
    ensures FillRow(row, rs + [x]) == if Contains(x.state, row.state)
      then FillRow(row, rs).(toPlot := Some(x.percentage * 100.0), popUp := Some(x.state))
      else FillRow(row, rs)
  {
    var p := Holds(row.state);
    FillRowWithStep(row, rs, x, p);
    assert p(x) == Contains(x.state, row.state);
  }

  lemma FillRowWithStep(row: MapRow, rs: seq<Reading>, x: Reading, p: Reading -> bool)
    ensures FillRowWith(row, rs, p).state == row.state
    ensures FillRowWith(row, rs + [x], p) == if p(x) then Show(FillRowWith(row, rs, p), x) else FillRowWith(row, rs, p)
  {
    LastWhereSnoc(rs, x, p);
    var m := LastWhere(rs + [x], p);
    if p(x) {
      assert (rs + [x])[|rs|] == x;
    } else if m.Some? {
      assert (rs + [x])[m.value] == rs[m.value];
    }
  }

  /** The inner loop for row `i`. */
  method FillOne(rows: array<MapRow>, i: nat, readings: seq<Reading>)
    requires i < rows.Length
    modifies rows
    ensures rows[i] == FillRow(old(rows[i]), readings)
    ensures forall k :: 0 <= k < rows.Length && k != i ==> rows[k] == old(rows[k])
  {
    for j := 0 to |readings|
      invariant rows[i] == FillRow(old(rows[i]), readings[..j])
      invariant forall k :: 0 <= k < rows.Length && k != i ==> rows[k] == old(rows[k])
    {
      assert readings[..j + 1] == readings[..j] + [readings[j]];
      FillRowStep(old(rows[i]), readings[..j], readings[j]);
      if Contains(readings[j].state, rows[i].state) {
        rows[i] := rows[i].(toPlot := Some(readings[j].percentage * 100.0), popUp := Some(readings[j].state));
      }
    }
    assert readings[..|readings|] == readings;
  }

  /** The nested loops of `add_opinions_data` / `add_impacts_data`, writing into
      the long table in place. */
  method FillToPlot(rows: array<MapRow>, readings: seq<Reading>)
    modifies rows
    ensures forall i :: 0 <= i < rows.Length ==> rows[i] == FillRow(old(rows[i]), readings)
  {
    for i := 0 to rows.Length
      invariant forall k :: 0 <= k < i ==> rows[k] == FillRow(old(rows[k]), readings)
      invariant forall k :: i <= k < rows.Length ==> rows[k] == old(rows[k])
    {
      FillOne(rows, i, readings);
    }
  }

  /** Filling changes only `to_plot` and `pop_up`; a row no reading matches
      keeps both, and a matched row shows the value and the label of the last
      reading whose label contains its own. */
  lemma FillRowSpec(row: MapRow, readings: seq<Reading>)
    ensures var r := FillRow(row, readings);
      r.state == row.state && r.singleState == row.singleState && r.abbrev == row.abbrev
    ensures (forall j :: 0 <= j < |readings| ==> !Contains(readings[j].state, row.state)) ==> FillRow(row, readings) == row
    ensures forall j :: LastContaining(readings, row.state, j) ==>
      FillRow(row, readings).popUp == Some(readings[j].state) && FillRow(row, readings).toPlot == Some(readings[j].percentage * 100.0)
  {
    FillRowUnmatched(row, readings);
    FillRowLast(row, readings);
  }

  lemma FillRowUnmatched(row: MapRow, readings: seq<Reading>)
    ensures (forall j :: 0 <= j < |readings| ==> !Contains(readings[j].state, row.state)) ==> FillRow(row, readings) == row
  {
    var p := Holds(row.state);
    if forall j :: 0 <= j < |readings| ==> !Contains(readings[j].state, row.state) {
      forall j | 0 <= j < |readings| ensures !p(readings[j]) { }
      FillRowWithSpec(row, readings, p);
    }
  }

  lemma FillRowLast(row: MapRow, readings: seq<Reading>)
    ensures forall j :: LastContaining(readings, row.state, j) ==> FillRow(row, readings) == Show(row, readings[j])
  {
    var p := Holds(row.state);
    forall j | LastContaining(readings, row.state, j) ensures FillRow(row, readings) == Show(row, readings[j]) {
      forall l | j < l < |readings| ensures !p(readings[l]) { }
      FillRowWithSpec(row, readings, p);
    }
  }

  lemma FillRowWithSpec(row: MapRow, readings: seq<Reading>, p: Reading -> bool)
    ensures var r := FillRowWith(row, readings, p);
      r.state == row.state && r.singleState == row.singleState && r.abbrev == row.abbrev
    ensures (forall j :: 0 <= j < |readings| ==> !p(readings[j])) ==> FillRowWith(row, readings, p) == row
    ensures forall j :: 0 <= j < |readings| && p(readings[j]) && (forall l :: j < l < |readings| ==> !p(readings[l])) ==>
      FillRowWith(row, readings, p) == Show(row, readings[j])
  {
    var m := LastWhere(readings, p);
    forall j | 0 <= j < |readings| && p(readings[j]) && (forall l :: j < l < |readings| ==> !p(readings[l]))
      ensures m == Some(j)
    {
      assert m.Some?;
      assert p(readings[m.value]);
    }
  }

  /** Matching by containment lets a region take the value of another region
      whose label contains its own: "Virginia" is in "West Virginia", so the
      Virginia row shows West Virginia's figure when that reading comes later. */
  lemma SubstringMatchMislabels()
    ensures var row := MapRow("Virginia", Some("Virginia"), "VA", None, None);
      var readings := [Reading("Virginia", 0.5), Reading("West Virginia", 0.25)];
      FillRow(row, readings).popUp == Some("West Virginia") && FillRow(row, readings).toPlot == Some(25.0)
  {
    var readings := [Reading("Virginia", 0.5), Reading("West Virginia", 0.25)];
    assert OccursAt("West Virginia", "Virginia", 5);
    assert LastMatch("Virginia", readings) == Some(1);
  }

  /** Reading `j` is the last for exactly `state`. */
  predicate LastEqual(readings: seq<Reading>, state: string, j: int) {
    0 <= j < |readings| && readings[j].state == state
    && forall l :: j < l < |readings| ==> readings[l].state != state
  }

  /** The last reading for exactly the row's label. */
  function LastExactMatch(state: string, readings: seq<Reading>): (r: Option<nat>)
    ensures r.None? <==> forall j :: 0 <= j < |readings| ==> readings[j].state != state
    ensures r.Some? ==> LastEqual(readings, state, r.value)
    decreases |readings|
  {
    if |readings| == 0 then None
    else if readings[|readings| - 1].state == state then Some(|readings| - 1)
    else
      assert forall j :: 0 <= j < |readings| - 1 ==> readings[..|readings| - 1][j] == readings[j];
      LastExactMatch(state, readings[..|readings| - 1])
  }

  /** The fill the long table needs, now that its `state` column holds the same
      labels as the readings: match on equality. */
  function FillRowExact(row: MapRow, readings: seq<Reading>): MapRow {
    match LastExactMatch(row.state, readings)
    case None => row
    case Some(j) => row.(toPlot := Some(readings[j].percentage * 100.0), popUp := Some(readings[j].state))
  }

  /** With exact matching a row only ever shows a reading of its own label, and
      shows one whenever the readings hold its label. */
  lemma FillRowExactOwnLabel(row: MapRow, readings: seq<Reading>)
    ensures var r := FillRowExact(row, readings);
      r.state == row.state && r.singleState == row.singleState && r.abbrev == row.abbrev
    ensures FillRowExact(row, readings).popUp != row.popUp ==> FillRowExact(row, readings).popUp == Some(row.state)
    ensures forall j :: LastEqual(readings, row.state, j) ==>
      FillRowExact(row, readings).popUp == Some(row.state) && FillRowExact(row, readings).toPlot == Some(readings[j].percentage * 100.0)
  {
  }

  /** The reading for the row's label, when there is exactly one with that label. */
  lemma FillRowExactUnique(row: MapRow, readings: seq<Reading>, j: nat)
    requires j < |readings| && readings[j].state == row.state
    requires forall l :: 0 <= l < |readings| && l != j ==> readings[l].state != row.state
    ensures FillRowExact(row, readings).toPlot == Some(readings[j].percentage * 100.0)
  {
  }

  /** A row selects an opinion when question, sub-question and outcome agree. */
  predicate Chosen(o: OpinionRow, question: string, subQuestion: string, outcome: string) {
    o.question == question && o.subQuestion == subQuestion && o.outcome == outcome
  }

  /** The mask `opinions[(question) & (sub_question) & (outcome)]`. */
  function ChosenBy(question: string, subQuestion: string, outcome: string): OpinionRow -> bool {
    (o: OpinionRow) => Chosen(o, question, subQuestion, outcome)
  }

  /** The opinion rows `add_opinions_data` keeps: question `"q" + question`,
      the sub-question and the outcome, as readings, in table order. */
  function OpinionReadings(opinions: seq<OpinionRow>, question: string, subQuestion: string, outcome: string): (rs: seq<Reading>)
    requires forall i :: 0 <= i < |opinions| ==> opinions[i].state.Some?
    ensures forall x :: x in rs <==> exists i ::
      0 <= i < |opinions| && Chosen(opinions[i], "q" + question, subQuestion, outcome)
      && x == Reading(opinions[i].state.value, opinions[i].percentage)
    ensures var chosen := Filter(opinions, ChosenBy("q" + question, subQuestion, outcome));
      |rs| == |chosen|
      && forall k :: 0 <= k < |rs| ==> chosen[k].state.Some? && rs[k] == Reading(chosen[k].state.value, chosen[k].percentage)
    decreases |opinions|
  {
    if |opinions| == 0 then []
    else
      var init := opinions[..|opinions| - 1];
      var o := opinions[|opinions| - 1];
      assert forall i :: 0 <= i < |init| ==> init[i] == opinions[i];
      OpinionReadings(init, question, subQuestion, outcome)
        + (if Chosen(o, "q" + question, subQuestion, outcome) then [Reading(o.state.value, o.percentage)] else [])
  }

  /** The mask `impacts["number_of_impacts"] == number_of_impacts`. */
  function ForImpacts(numberOfImpacts: int): ImpactRow -> bool {
    (o: ImpactRow) => o.numImpacts == numberOfImpacts
  }

  /** The impact rows `add_impacts_data` keeps: those for the number of
      impacts, as readings, in table order. */
  function ImpactReadings(impacts: seq<ImpactRow>, numberOfImpacts: int): (rs: seq<Reading>)
    ensures forall x :: x in rs <==> exists i ::
      0 <= i < |impacts| && impacts[i].numImpacts == numberOfImpacts
      && x == Reading(impacts[i].state, impacts[i].percentage)
    ensures var chosen := Filter(impacts, ForImpacts(numberOfImpacts));
      |rs| == |chosen| && forall k :: 0 <= k < |rs| ==> rs[k] == Reading(chosen[k].state, chosen[k].percentage)
    decreases |impacts|
  {
    if |impacts| == 0 then []
    else
      var init := impacts[..|impacts| - 1];
      var o := impacts[|impacts| - 1];
      assert forall i :: 0 <= i < |init| ==> init[i] == impacts[i];
      ImpactReadings(init, numberOfImpacts)
        + (if o.numImpacts == numberOfImpacts then [Reading(o.state, o.percentage)] else [])
  }

  /** `add_opinions_data`. */
  method AddOpinionsData(rows: array<MapRow>, question: string, subQuestion: string, outcome: string, opinions: seq<OpinionRow>)
    requires forall i :: 0 <= i < |opinions| ==> opinions[i].state.Some?
    modifies rows
    ensures forall i :: 0 <= i < rows.Length ==>
      rows[i] == FillRow(old(rows[i]), OpinionReadings(opinions, question, subQuestion, outcome))
  {
    FillToPlot(rows, OpinionReadings(opinions, question, subQuestion, outcome));
  }

  /** `add_impacts_data`. */
  method AddImpactsData(rows: array<MapRow>, numberOfImpacts: int, impacts: seq<ImpactRow>)
    modifies rows
    ensures forall i :: 0 <= i < rows.Length ==> rows[i] == FillRow(old(rows[i]), ImpactReadings(impacts, numberOfImpacts))
  {
    FillToPlot(rows, ImpactReadings(impacts, numberOfImpacts));
  }

  // ---------------------------------------------------------------------------
  // Outlining the clicked state
  // ---------------------------------------------------------------------------

  /** The layers this code adds to a figure; everything else about a figure is
      opaque. */
  datatype Layer = Opaque(id: nat) | Outline(locations: seq<string>)

  datatype Figure = Figure(layers: seq<Layer>, title: Option<string>)

  const LookingAt: string := "You're looking at data for "

  /** The abbreviations of the long table's rows whose abbreviation is one of
      `abbrevs`, in row order. */
  function AbbrevsIn(long: seq<MapRow>, abbrevs: seq<string>): (r: seq<string>)
    ensures forall a :: a in r <==> a in abbrevs && exists i :: 0 <= i < |long| && long[i].abbrev == a
    decreases |long|
  {
    if |long| == 0 then []
    else
      var init := long[..|long| - 1];
      var row := long[|long| - 1];
      assert forall i :: 0 <= i < |init| ==> init[i] == long[i];
      AbbrevsIn(init, abbrevs) + (if row.abbrev in abbrevs then [row.abbrev] else [])
  }

  /** Cluster `i` is the last whose abbreviations hold `clicked`. */
  predicate LastHolding(clusters: Dict<seq<string>>, clicked: string, i: int) {
    0 <= i < |clusters| && clicked in clusters[i].1
    && forall l :: i < l < |clusters| ==> clicked !in clusters[l].1
  }

  /** The last cluster whose abbreviations hold the clicked one. */
  function ClusterOf(clicked: string, clusters: Dict<seq<string>>): (r: Option<(string, seq<string>)>)
    ensures r.None? <==> forall i :: 0 <= i < |clusters| ==> clicked !in clusters[i].1
    decreases |clusters|
  {
    if |clusters| == 0 then None
    else if clicked in clusters[|clusters| - 1].1 then Some(clusters[|clusters| - 1])
    else
      var init := clusters[..|clusters| - 1];
      assert forall i :: 0 <= i < |init| ==> init[i] == clusters[i];
      ClusterOf(clicked, init)
  }

  /** A cluster found is the last one holding the clicked abbreviation. */
  lemma {:induction false} ClusterOfLast(clicked: string, clusters: Dict<seq<string>>)
    requires ClusterOf(clicked, clusters).Some?
    ensures exists i :: LastHolding(clusters, clicked, i) && clusters[i] == ClusterOf(clicked, clusters).value
    decreases |clusters|
  {
    var n := |clusters| - 1;
    if clicked in clusters[n].1 {
      assert LastHolding(clusters, clicked, n);
    } else {
      var init := clusters[..n];
      assert ClusterOf(clicked, clusters) == ClusterOf(clicked, init);
      ClusterOfLast(clicked, init);
      var i :| LastHolding(init, clicked, i) && init[i] == ClusterOf(clicked, init).value;
      forall l | i < l < |clusters| ensures clicked !in clusters[l].1 {
        if l < n { assert clusters[l] == init[l]; }
      }
    }
  }

  /** The abbreviations outlined and the region named under the map. */
  function Highlight(clicked: string, long: seq<MapRow>, clusters: Dict<seq<string>>): (seq<string>, string) {
    match ClusterOf(clicked, clusters)
    case None => (AbbrevsIn(long, [clicked]), clicked)
    case Some((name, abbrevs)) => (AbbrevsIn(long, abbrevs), name)
  }

  /** `outline_clicked_state`: a falsy click leaves the figure as it is;
      otherwise one outline layer is added and the title names the region. */
  method OutlineClickedState(clicked: Option<string>, long: seq<MapRow>, fig: Figure, clusters: Dict<seq<string>>)
    returns (r: Figure)
    ensures !Truthy(clicked) ==> r == fig
    ensures Truthy(clicked) ==> var h := Highlight(clicked.value, long, clusters);
      r == Figure(fig.layers + [Outline(h.0)], Some(LookingAt + h.1))
  {
    if !Truthy(clicked) {
      return fig;
    }
    var c := clicked.value;
    var subset := AbbrevsIn(long, [c]);
    var text := LookingAt + c;
    for i := 0 to |clusters|
      invariant ClusterOf(c, clusters[..i]).None? ==> subset == AbbrevsIn(long, [c]) && text == LookingAt + c
      invariant ClusterOf(c, clusters[..i]).Some? ==> var h := ClusterOf(c, clusters[..i]).value;
        subset == AbbrevsIn(long, h.1) && text == LookingAt + h.0
    {
      assert clusters[..i + 1][..i] == clusters[..i];
      var (cluster, states) := clusters[i];
      if c in states {
        subset := AbbrevsIn(long, states);
        text := LookingAt + cluster;
      }
    }
    assert clusters[..|clusters|] == clusters;
    r := Figure(fig.layers + [Outline(subset)], Some(text));
  }

  /** A click inside a cluster outlines every abbreviation of that cluster that
      the long table holds; a click outside any cluster outlines the rows of
      that abbreviation alone. */
  lemma HighlightCoversCluster(clicked: string, long: seq<MapRow>, clusters: Dict<seq<string>>, i: nat)
    requires LastHolding(clusters, clicked, i)
    ensures forall a :: a in Highlight(clicked, long, clusters).0 <==>
      a in clusters[i].1 && exists k :: 0 <= k < |long| && long[k].abbrev == a
    ensures Highlight(clicked, long, clusters).1 == clusters[i].0
  {
    var r := ClusterOf(clicked, clusters);
    ClusterOfLast(clicked, clusters);
    var j :| LastHolding(clusters, clicked, j) && clusters[j] == r.value;
    assert j == i;
  }

  lemma HighlightOutsideClusters(clicked: string, long: seq<MapRow>, clusters: Dict<seq<string>>)
    requires forall i :: 0 <= i < |clusters| ==> clicked !in clusters[i].1
    ensures forall a :: a in Highlight(clicked, long, clusters).0 <==>
      a == clicked && exists k :: 0 <= k < |long| && long[k].abbrev == a
    ensures Highlight(clicked, long, clusters).1 == clicked
  {
  }

  // ---------------------------------------------------------------------------
  // The newer map builder: selection and colour range
  // ---------------------------------------------------------------------------

  /** A row of `df_to_plot`: percentages out of 100. */
  datatype PlotRow = PlotRow(state: string, opinion: real, impact: Option<real>)

  datatype Gradient = OpinionGradient | ImpactGradient

  /** What the figure's layers are built from: the rows, the gradient column,
      its range (`None` for pandas' NaN of an empty column) and the rows of the
      clicked region. */
  datatype MapSelection = MapSelection(rows: seq<PlotRow>, gradient: Gradient, vmin: Option<real>, vmax: Option<real>, clicked: seq<PlotRow>)

  /** The opinion rows equal on question, sub-question and outcome. */
  function SelectOpinions(opinions: seq<OpinionRow>, question: string, subQuestion: string, outcome: string): (r: seq<OpinionRow>)
    ensures forall x :: x in r <==> x in opinions && Chosen(x, question, subQuestion, outcome)
    decreases |opinions|
  {
    if |opinions| == 0 then []
    else
      var o := opinions[|opinions| - 1];
      var init := opinions[..|opinions| - 1];
      assert opinions == init + [o];
      SelectOpinions(init, question, subQuestion, outcome) + (if Chosen(o, question, subQuestion, outcome) then [o] else [])
  }

  /** A sample-description row reports the impact when its variable is the
      impact and its category is "Yes". */
  predicate Reports(d: SampleDescRow, impact: string) {
    d.demographicVariable == impact && d.category == "Yes"
  }

  /** The sample-description rows that report the impact. */
  function SelectImpacts(sampledesc: seq<SampleDescRow>, impact: string): (r: seq<SampleDescRow>)
    ensures forall x :: x in r <==> x in sampledesc && Reports(x, impact)
    decreases |sampledesc|
  {
    if |sampledesc| == 0 then []
    else
      var d := sampledesc[|sampledesc| - 1];
      var init := sampledesc[..|sampledesc| - 1];
      assert sampledesc == init + [d];
      SelectImpacts(init, impact) + (if Reports(d, impact) then [d] else [])
  }

  /** The opinion rows as plot rows, percentages times 100. */
  function OpinionPlotRows(rows: seq<OpinionRow>): (r: seq<PlotRow>)
    requires forall i :: 0 <= i < |rows| ==> rows[i].state.Some?
    ensures |r| == |rows|
    ensures forall i :: 0 <= i < |r| ==> r[i].state == rows[i].state.value && r[i].opinion == rows[i].percentage * 100.0
    ensures forall i :: 0 <= i < |r| ==> r[i].impact.None?
  {
    seq(|rows|, i requires 0 <= i < |rows| && rows[i].state.Some? => PlotRow(rows[i].state.value, rows[i].percentage * 100.0, None))
  }

  /** The plot row with the impact of `d` attached, out of 100. */
  function WithImpact(row: PlotRow, d: SampleDescRow): PlotRow {
    row.(impact := Some(d.percentage * 100.0))
  }

  /** The impact rows that match one plot row's state, joined onto it. */
  function JoinRow(row: PlotRow, impacts: seq<SampleDescRow>): (r: seq<PlotRow>)
    ensures forall x :: x in r <==> exists d :: d in impacts && d.state == row.state && x == WithImpact(row, d)
    decreases |impacts|
  {
    if |impacts| == 0 then []
    else
      var d := impacts[|impacts| - 1];
      var init := impacts[..|impacts| - 1];
      assert impacts == init + [d];
      JoinRow(row, init) + (if d.state == row.state then [WithImpact(row, d)] else [])
  }

  /** `merge(on="state")`: an inner join, in the order of the left rows. */
  function JoinImpacts(rows: seq<PlotRow>, impacts: seq<SampleDescRow>): (r: seq<PlotRow>)
    ensures forall x :: x in r <==> exists row, d :: row in rows && d in impacts && d.state == row.state && x == WithImpact(row, d)
    decreases |rows|
  {
    if |rows| == 0 then []
    else
      var init := rows[..|rows| - 1];
      var last := rows[|rows| - 1];
      assert rows == init + [last];
      JoinImpacts(init, impacts) + JoinRow(last, impacts)
  }

  /** `impact is not None and show_impact_as_gradient` picks the impact column. */
  function GradientFor(impact: Option<string>, showImpactAsGradient: bool): (g: Gradient)
    ensures g == ImpactGradient <==> impact.Some? && showImpactAsGradient
  {
    if impact.Some? && showImpactAsGradient then ImpactGradient else OpinionGradient
  }

  /** A row's value in the gradient column. */
  function GradientValue(row: PlotRow, g: Gradient): real {
    if g == ImpactGradient && row.impact.Some? then row.impact.value else row.opinion
  }

  /** The gradient column. */
  function GradientValues(rows: seq<PlotRow>, g: Gradient): (vs: seq<real>)
    ensures |vs| == |rows|
    ensures forall i :: 0 <= i < |rows| ==> vs[i] == GradientValue(rows[i], g)
  {
    seq(|rows|, i requires 0 <= i < |rows| => GradientValue(rows[i], g))
  }

  /** `Series.min()`, with `None` for an empty column. */
  function MinOf(vs: seq<real>): (r: Option<real>)
    ensures r.None? <==> |vs| == 0
    ensures r.Some? ==> r.value in vs && forall i :: 0 <= i < |vs| ==> r.value <= vs[i]
    decreases |vs|
  {
    if |vs| == 0 then None
    else
      match MinOf(vs[..|vs| - 1])
      case None => Some(vs[|vs| - 1])
      case Some(m) => Some(if vs[|vs| - 1] < m then vs[|vs| - 1] else m)
  }

  /** `Series.max()`, with `None` for an empty column. */
  function MaxOf(vs: seq<real>): (r: Option<real>)
    ensures r.None? <==> |vs| == 0
    ensures r.Some? ==> r.value in vs && forall i :: 0 <= i < |vs| ==> vs[i] <= r.value
    decreases |vs|
  {
    if |vs| == 0 then None
    else
      match MaxOf(vs[..|vs| - 1])
      case None => Some(vs[|vs| - 1])
      case Some(m) => Some(if vs[|vs| - 1] > m then vs[|vs| - 1] else m)
  }

  /** `df_to_plot[df_to_plot["state"] == clicked_state]`. */
  function ClickedRows(rows: seq<PlotRow>, clicked: Option<string>): (r: seq<PlotRow>)
    ensures forall x :: x in r <==> x in rows && clicked == Some(x.state)
    decreases |rows|
  {
    if |rows| == 0 then []
    else
      var init := rows[..|rows| - 1];
      var last := rows[|rows| - 1];
      assert rows == init + [last];
      ClickedRows(init, clicked) + (if clicked == Some(last.state) then [last] else [])
  }

  /** The rows `make_map2` plots: the chosen opinions, joined with the impact's
      rows when an impact is asked for. */
  function PlotRows(opinions: seq<OpinionRow>, sampledesc: seq<SampleDescRow>,
                    question: string, subQuestion: string, outcome: string, impact: Option<string>): seq<PlotRow>
    requires forall i :: 0 <= i < |opinions| ==> opinions[i].state.Some?
  {
    var selected := SelectOpinions(opinions, question, subQuestion, outcome);
    assert forall i :: 0 <= i < |selected| ==> selected[i] in opinions;
    var base := OpinionPlotRows(selected);
    if impact.Some? then JoinImpacts(base, SelectImpacts(sampledesc, impact.value)) else base
  }

  /** The plot row shows the opinion row's state and percentage. */
  predicate OpinionOf(o: OpinionRow, x: PlotRow) {
    o.state == Some(x.state) && x.opinion == o.percentage * 100.0
  }

  /** The plot row shows the impact row's percentage for the same state. */
  predicate ImpactOf(d: SampleDescRow, x: PlotRow) {
    d.state == x.state && x.impact == Some(d.percentage * 100.0)
  }

  /** Every plotted row is one chosen opinion of a state, out of 100, with the
      impact of that same state attached exactly when an impact is asked for. */
  lemma PlotRowsProvenance(opinions: seq<OpinionRow>, sampledesc: seq<SampleDescRow>,
                           question: string, subQuestion: string, outcome: string, impact: Option<string>, x: PlotRow)
    requires forall i :: 0 <= i < |opinions| ==> opinions[i].state.Some?
    requires x in PlotRows(opinions, sampledesc, question, subQuestion, outcome, impact)
    ensures exists o :: o in opinions && Chosen(o, question, subQuestion, outcome) && OpinionOf(o, x)
    ensures impact.None? ==> x.impact.None?
    ensures impact.Some? ==> exists d :: d in sampledesc && Reports(d, impact.value) && ImpactOf(d, x)
  {
    var selected := SelectOpinions(opinions, question, subQuestion, outcome);
    assert forall i :: 0 <= i < |selected| ==> selected[i] in opinions;
    var base := OpinionPlotRows(selected);
    var row := x;
    if impact.Some? {
      var r, d :| r in base && d in SelectImpacts(sampledesc, impact.value) && d.state == r.state && x == WithImpact(r, d);
      assert ImpactOf(d, x);
      row := r;
    }
    var k :| 0 <= k < |base| && base[k] == row;
    var o := selected[k];
    assert o in opinions && Chosen(o, question, subQuestion, outcome);
    assert OpinionOf(o, row);
    assert OpinionOf(o, x);
  }

  /** An opinion row whose state also reports the impact is plotted. */
  lemma PlotRowsComplete(opinions: seq<OpinionRow>, sampledesc: seq<SampleDescRow>,
                         question: string, subQuestion: string, outcome: string, impact: string, o: OpinionRow, d: SampleDescRow)
    requires forall i :: 0 <= i < |opinions| ==> opinions[i].state.Some?
    requires o in opinions && Chosen(o, question, subQuestion, outcome)
    requires d in sampledesc && Reports(d, impact) && o.state == Some(d.state)
    ensures PlotRow(d.state, o.percentage * 100.0, Some(d.percentage * 100.0))
      in PlotRows(opinions, sampledesc, question, subQuestion, outcome, Some(impact))
  {
    var selected := SelectOpinions(opinions, question, subQuestion, outcome);
    assert forall i :: 0 <= i < |selected| ==> selected[i] in opinions;
    var base := OpinionPlotRows(selected);
    var k :| 0 <= k < |selected| && selected[k] == o;
    assert WithImpact(base[k], d) == PlotRow(d.state, o.percentage * 100.0, Some(d.percentage * 100.0));
  }

  /** The data side of `make_map2`. */
  function SelectMapData(
    opinions: seq<OpinionRow>, sampledesc: seq<SampleDescRow>,
    question: string, subQuestion: string, outcome: string, clicked: Option<string>,
    impact: Option<string>, showImpactAsGradient: bool): (r: Result<MapSelection, MapError>)
    requires forall i :: 0 <= i < |opinions| ==> opinions[i].state.Some?
    ensures r.Failure? <==>
      |SelectOpinions(opinions, question, subQuestion, outcome)| == 0
      || (impact.Some? && |SelectImpacts(sampledesc, impact.value)| == 0)
    ensures r.Failure? && |SelectOpinions(opinions, question, subQuestion, outcome)| == 0 ==> r.error == NoOpinionData
    ensures r.Failure? && |SelectOpinions(opinions, question, subQuestion, outcome)| > 0 ==> r.error == NoImpactData
    ensures r.Success? ==> r.value.rows == PlotRows(opinions, sampledesc, question, subQuestion, outcome, impact)
    ensures r.Success? ==> (r.value.gradient == ImpactGradient <==> impact.Some? && showImpactAsGradient)
    ensures r.Success? ==> (r.value.vmin.None? <==> |r.value.rows| == 0) && (r.value.vmax.None? <==> |r.value.rows| == 0)
    ensures r.Success? ==> r.value.vmin == MinOf(GradientValues(r.value.rows, r.value.gradient))
    ensures r.Success? ==> r.value.vmax == MaxOf(GradientValues(r.value.rows, r.value.gradient))
    ensures r.Success? && r.value.vmin.Some? ==> forall x :: x in r.value.rows ==>
      r.value.vmin.value <= GradientValue(x, r.value.gradient) <= r.value.vmax.value
    ensures r.Success? ==> forall x :: x in r.value.clicked <==> x in r.value.rows && clicked == Some(x.state)
  {
    if |SelectOpinions(opinions, question, subQuestion, outcome)| == 0 then Failure(NoOpinionData)
    else if impact.Some? && |SelectImpacts(sampledesc, impact.value)| == 0 then Failure(NoImpactData)
    else
      var rows := PlotRows(opinions, sampledesc, question, subQuestion, outcome, impact);
      var g := GradientFor(impact, showImpactAsGradient);
      var vs := GradientValues(rows, g);
      var vmin := MinOf(vs);
      var vmax := MaxOf(vs);
      assert forall x :: x in rows ==> GradientValue(x, g) in vs;
      Success(MapSelection(rows, g, vmin, vmax, ClickedRows(rows, clicked)))
  }
}
