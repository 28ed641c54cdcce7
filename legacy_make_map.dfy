/** The older map script's long-format table. Its `state` column holds one
    state name per row, cut at the first "(" rather than at " (", so the last
    member of a cluster keeps a trailing space. Its cluster dictionary, value
    fill and outline are the same code as the newer map's and are modelled by
    the members of `SurveyMap`. */
module LegacySurveyMap {
  import opened Wrappers
  import opened Text
  import opened SurveyData
  import opened SurveyMap

  /** `state.split("(")[0].replace("(", "")`: a piece of the label cut at its
      first "(" (the replace then has nothing left to remove). */
  function LegacyName(piece: string): (name: string)
    ensures !Contains(name, "(")
    ensures OccursAt(piece, name, 0)
  {
    SplitHeadPrefix(piece, "(");
    SplitPartsSeparated(piece, "(");
    assert Split(piece, "(")[0] in Split(piece, "(");
    Split(piece, "(")[0]
  }

  /** The state names one label contributes: its ", "-separated pieces, each
      cut at "(". */
  function LegacyNames(region: string): (names: seq<string>)
    ensures |names| == |Split(region, ", ")|
    ensures forall k :: 0 <= k < |names| ==> names[k] == LegacyName(Split(region, ", ")[k])
  {
    var pieces := Split(region, ", ");
    seq(|pieces|, k requires 0 <= k < |pieces| => LegacyName(pieces[k]))
  }

  /** Each name a label contributes occurs in that label, so the label's own
      reading always matches the name's row. */
  lemma LegacyNameInLabel(region: string, k: nat)
    requires k < |LegacyNames(region)|
    ensures Contains(region, LegacyNames(region)[k])
  {
    var pieces := Split(region, ", ");
    JoinSplit(region, ", ");
    OccursInJoin(pieces, ", ", k);
    var j: nat :| OccursAt(region, pieces[k], j);
    OccursWithin(region, pieces[k], LegacyName(pieces[k]), j, 0);
    OccursContains(region, LegacyNames(region)[k], j);
  }

  /** A label without ", " and "(" is a single state: its name is itself. */
  lemma LegacySingleState(region: string)
    requires !Contains(region, ", ") && !Contains(region, "(")
    ensures LegacyNames(region) == [region]
  {
    SplitWithoutSeparator(region, ", ");
    SplitWithoutSeparator(region, "(");
  }

  /** The last piece of a cluster label, "New Mexico (Cluster E)", is cut just
      before the "(", so its name keeps the space in front of it. */
  lemma LegacyNameTrailingSpace(name: string, tail: string)
    requires '(' !in name
    ensures LegacyName(name + " (" + tail) == name + " "
  {
    assert '(' !in name + " ";
    assert name + " (" + tail == (name + " ") + ['('] + tail;
    SplitAtFirstChar(name + " ", '(', tail);
  }

  /** The `states` list. */
  function LegacyStateColumn(table: seq<AbbrevRow>): seq<string>
    decreases |table|
  {
    if |table| == 0 then [] else LegacyStateColumn(table[..|table| - 1]) + LegacyNames(table[|table| - 1].state)
  }

  /** Every name in the `states` list occurs in the label of some row. */
  lemma {:induction false} LegacyStateColumnInLabels(table: seq<AbbrevRow>, i: nat)
    requires i < |LegacyStateColumn(table)|
    ensures exists j :: 0 <= j < |table| && Contains(table[j].state, LegacyStateColumn(table)[i])
    decreases |table|
  {
    var init := table[..|table| - 1];
    var col := LegacyStateColumn(init);
    if i < |col| {
      LegacyStateColumnInLabels(init, i);
      var j :| 0 <= j < |init| && Contains(init[j].state, col[i]);
      assert table[j] == init[j];
    } else {
      LegacyNameInLabel(table[|table| - 1].state, i - |col|);
    }
  }

  /** The long table, or the error `np.array` raises on columns of different
      lengths; the older table has no `single_state` column. */
  function LegacyLongFormat(table: seq<AbbrevRow>): (r: Result<seq<MapRow>, MapError>)
    ensures r.Failure? <==> |LegacyStateColumn(table)| != |AbbrevColumn(table)|
    ensures r.Success? ==> |r.value| == |LegacyStateColumn(table)|
    ensures r.Success? ==> forall i :: 0 <= i < |r.value| ==>
      r.value[i].state == LegacyStateColumn(table)[i] && r.value[i].abbrev == AbbrevColumn(table)[i]
    ensures r.Success? ==> forall i :: 0 <= i < |r.value| ==>
      r.value[i].singleState.None? && r.value[i].toPlot.None? && r.value[i].popUp.None?
  {
    var states := LegacyStateColumn(table);
    var abbrevs := AbbrevColumn(table);
    if |states| != |abbrevs| then Failure(RaggedColumns)
    else Success(LegacyZip(states, abbrevs))
  }

  /** The two columns side by side, none of the cells filled yet. */
  function LegacyZip(states: seq<string>, abbrevs: seq<string>): (rows: seq<MapRow>)
    requires |states| == |abbrevs|
    ensures |rows| == |states|
    ensures forall i :: 0 <= i < |rows| ==> rows[i] == MapRow(states[i], None, abbrevs[i], None, None)
  {
    seq(|states|, i requires 0 <= i < |states| => MapRow(states[i], None, abbrevs[i], None, None))
  }

  /** `get_state_abbrevs_in_long_format` of the older script: one append per
      piece and per abbreviation. */
  method LegacyGetStateAbbrevsInLongFormat(table: seq<AbbrevRow>) returns (r: Result<seq<MapRow>, MapError>)
    ensures r == LegacyLongFormat(table)
  {
    var states: seq<string> := [];
    var abbrevs: seq<string> := [];
    for i := 0 to |table|
      invariant states == LegacyStateColumn(table[..i])
      invariant abbrevs == AbbrevColumn(table[..i])
    {
      assert table[..i + 1][..i] == table[..i];
      var row := table[i];
      states := AppendNames(states, row.state);
      abbrevs := AppendEach(abbrevs, AbbrevList(row));
    }
    assert table[..|table|] == table;
    if |states| != |abbrevs| {
      return Failure(RaggedColumns);
    }
    var rows := LegacyRows(states, abbrevs);
    return Success(rows);
  }

  /** The inner loop over one label's pieces: each cut at "(" and appended. */
  method AppendNames(states: seq<string>, region: string) returns (out: seq<string>)
    ensures out == states + LegacyNames(region)
  {
    var pieces := Split(region, ", ");
    out := states;
    for k := 0 to |pieces|
      invariant out == states + LegacyNames(region)[..k]
    {
      assert LegacyNames(region)[..k + 1] == LegacyNames(region)[..k] + [LegacyName(pieces[k])];
      out := out + [Split(pieces[k], "(")[0]];
    }
    assert LegacyNames(region)[..|pieces|] == LegacyNames(region);
  }

  /** The inner loop over one row's abbreviations, one append each. */
  method AppendEach(xs: seq<string>, ys: seq<string>) returns (out: seq<string>)
    ensures out == xs + ys
  {
    out := xs;
    for k := 0 to |ys|
      invariant out == xs + ys[..k]
    {
      assert ys[..k + 1] == ys[..k] + [ys[k]];
      out := out + [ys[k]];
    }
    assert ys[..|ys|] == ys;
  }

  /** The rows of the `DataFrame` built from the two columns. */
  method LegacyRows(states: seq<string>, abbrevs: seq<string>) returns (rows: seq<MapRow>)
    requires |states| == |abbrevs|
    ensures rows == LegacyZip(states, abbrevs)
  {
    rows := [];
    for i := 0 to |states|
      invariant |rows| == i
      invariant forall k :: 0 <= k < i ==> rows[k] == MapRow(states[k], None, abbrevs[k], None, None)
    {
      rows := rows + [MapRow(states[i], None, abbrevs[i], None, None)];
    }
  }

  /** In the older table every row's name occurs in the label it came from, so
      a row is filled from that label's reading unless a later reading's label
      also contains the name. */
  lemma LegacyRowsMatchOwnLabel(table: seq<AbbrevRow>, i: nat)
    requires LegacyLongFormat(table).Success? && i < |LegacyLongFormat(table).value|
    ensures exists j :: 0 <= j < |table| && Contains(table[j].state, LegacyLongFormat(table).value[i].state)
  {
    LegacyStateColumnInLabels(table, i);
  }
}
