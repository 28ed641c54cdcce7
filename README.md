# US climate emotions map — a Dafny model

The US climate emotions map is a Dash dashboard. It shows a national survey of
young people's climate emotions: a choropleth map of the states and state
clusters, and stacked bar charts of every question's answers. The charts can be
shown for the whole sample, for one state, or split by political party, and
either with every response level or thresholded at a default outcome. Two
offline scripts support the dashboard:

- one writes the GeoJSON of the survey's regions, merging the states of a
  cluster into one feature;
- one prerenders the bar charts of every view the app can ask for.

The older command-line versions of the map and the bar charts (`code/`) are
modelled beside the dashboard's own modules.

Modules (one file each):

- `Wrappers`: `Option` and `Result`.
- `Text`: Python's `split`, `join`, `in`, `find`, `rfind`, and the facts about them.
- `Seqs`: filters, sums, stable sorts and deduplication of sequences.
- `SurveyData`: the rows of the survey's tables, the cluster test (`"Cluster" in label`) and Python truthiness.
- `Utility`: the dropdown options and the decoding of a question option's value.
- `SurveyMap`: the map's long-format table, the cluster dictionary, the fill of the value to plot, the outline of a clicked state, and the data selection of the newer map builder.
- `LegacySurveyMap`: the older map script's long-format table.
- `StackedBar`: the dashboard's stacked bar charts.
- `LegacyStackedBar`: the older bar script, with outcome aggregation and "NA" filling.
- `SurveyGeoJson`: the survey GeoJSON builder.
- `App`: the decision logic of the dashboard's callbacks.
- `Prerender`: the offline prerendering of the bar charts.

Loops in the source are methods with loop invariants, each proved equal to a
specification function. The properties are proved about those functions.

- The map's in-place fill of `to_plot` and `pop_up` works on an `array` of rows.
- `plot_bars` mutates the figure keywords' height, and `make_stacked_bar`
  deep-copies them first. The keywords are a class, `StackedBar.FigureKeywords`.
- Features the GeoJSON builder mutates through shared references are values in
  a map keyed by feature name. They are read back at the end, in the order the
  references were appended.

## Model

| member | source | states |
|---|---|---|
| Utility.StateOptions | climate_emotions_map/utility.py:6-12 | one option per sample-size row, in row order; each option's label and value are that row's state |
| Utility.ExtractQuestionSubquestion | climate_emotions_map/utility.py:50-53 | fails exactly when splitting on "_" does not give two parts; on success, joining the two parts with "_" gives the value back, and neither part holds "_" |
| Utility.ExtractRoundTrip | climate_emotions_map/utility.py:50-53 | decoding `"{question}_{sub_question}"` gives back the question and the sub-question whenever neither holds "_" |
| Utility.ExtractWithoutUnderscore | climate_emotions_map/utility.py:52 | a value without "_" fails to unpack, with one part |
| Utility.ExtractTwoUnderscores | climate_emotions_map/utility.py:52 | a value with two or more "_" fails to unpack |
| Utility.Items | climate_emotions_map/utility.py:29-36 | one item per sub-question of the group, in order, labelled with its text and valued `"{question}_{sub_question}"` |
| Utility.GetQuestionOptions | climate_emotions_map/utility.py:15-47 | the loop computes the specified options, or the `get_group` KeyError of the first question without sub-questions |
| Utility.QuestionOptionsSpec | climate_emotions_map/utility.py:22-45 | the options fail exactly when some question has no sub-question; otherwise there is one group per question, in dictionary order |
| Utility.QuestionGroupShape | climate_emotions_map/utility.py:26-43 | several sub-questions give a group labelled with the question's text and one item per sub-question; one sub-question gives an unlabelled group with the single item `"{question}_1"`; none is a KeyError |
| Utility.OptionsDecode | climate_emotions_map/utility.py:34-52 | every option value decodes to its own question and to a sub-question of the dictionary or "1", as long as no identifier holds "_" |
| App.UpdateSelection | climate_emotions_map/app.py:86-123 | a map click is cancelled exactly when the party switch is on; selecting a state always unchecks and disables the switch; the switch toggle clears the state and locks the dropdown while on; a dropdown change disables the switch exactly when a state is chosen |
| App.MapClickOutcome | climate_emotions_map/app.py:98-116 | a click without custom data, or on the selected state, deselects; a click on another state selects it |
| App.StepCoherent | climate_emotions_map/app.py:86-123 | every user action keeps the controls coherent: a selected state goes with the switch off and disabled, and the switch on goes with no state and a disabled dropdown |
| App.StepsCoherent | climate_emotions_map/app.py:86-123 | any sequence of actions from coherent controls keeps them coherent |
| App.ReachableCoherent | climate_emotions_map/app.py:86-123 | every state of the controls reachable from the start is coherent |
| App.DrawerToggle | climate_emotions_map/app.py:132-134 | the drawer's new state is the opposite of the old one |
| App.DrawerToggleTwice | climate_emotions_map/app.py:132-134 | two toggles restore the drawer |
| App.DrawerState | climate_emotions_map/app.py:141-145 | the all-states label without a state; otherwise "State: " followed by a text that gives the state back |
| App.DrawerStateInjective | climate_emotions_map/app.py:141-145 | distinct states give distinct drawer texts |
| App.TitlesAgree | climate_emotions_map/app.py:290-318 | the selected question's title, the all-questions title and the drawer text all name the same selection: the state, or the all-states label |
| App.SampleSize | climate_emotions_map/app.py:152-158 | the national size without a state; otherwise the `n` of the first row of that state, or an error exactly when no row has it |
| App.FirstSize | climate_emotions_map/app.py:158 | the first row from a position on with the state gives the size; it fails exactly when no row has the state |
| App.MapTitleLabel | climate_emotions_map/app.py:191-197 | the label of the first option valued with the impact; None exactly when no impact is chosen or no option has it |
| App.FirstLabel | climate_emotions_map/app.py:193-196 | `next(...)` over the options: the first match's label, None exactly when nothing matches |
| App.SelectedQuestionDisplay | climate_emotions_map/app.py:302-306 | the selected question's plot is hidden exactly when an impact is selected |
| App.Threshold | climate_emotions_map/app.py:336-339 | no threshold exactly when all responses are shown, the default outcome otherwise |
| App.LookupFiguresSpec | climate_emotions_map/app.py:341-354 | the lookup succeeds exactly when there are no outputs or the key and every output's question are present; it gives one figure per output, the key's figure for that question |
| App.UpdateStackedBarPlots | climate_emotions_map/app.py:330-354 | the loop appends exactly the specified figures, or fails with the first missing key or question |
| Prerender.Unique | code/create_prerendered_figures.py:15-20 | `unique().tolist()`: distinct values, the same set as the column, in order of first appearance |
| Prerender.BuildEach | code/create_prerendered_figures.py:29-32 | the comprehension succeeds exactly when every question's figure builds; it then maps each question to its figure; otherwise it raises the exception of the first question, in order, whose figure raises |
| Prerender.FullSetOfBarplots | code/create_prerendered_figures.py:24-32 | succeeds exactly when every question's figure builds, for sub-question "all" under the key's state, stratify flag and threshold; it then holds one figure per question; otherwise it raises the exception of the first unique question whose figure raises |
| Prerender.Candidates | code/create_prerendered_figures.py:44 | every state in order, then None for the whole sample |
| Prerender.ThresholdKeys | code/create_prerendered_figures.py:49-50 | one key per threshold, in order |
| Prerender.MakeAllFigures | code/create_prerendered_figures.py:35-52 | the loops compute the figures of every prerender key, in loop order, or stop at the first exception a figure raises |
| Prerender.StateFigures | code/create_prerendered_figures.py:45-51 | one state's loops add its keys for both flags, skipping the party split of a state, or stop at the first exception |
| Prerender.ThresholdFigures | code/create_prerendered_figures.py:49-51 | the innermost loop adds one figure set per threshold, or stops at the first exception |
| Prerender.RenderAll | code/create_prerendered_figures.py:42-52 | a complete run holds one entry per key |
| Prerender.RenderAllSucceeds | code/create_prerendered_figures.py:42-52 | the run completes exactly when every key's full set builds, and then holds each key with its full set, in loop order |
| Prerender.RenderAllFails | code/create_prerendered_figures.py:42-52 | an aborted run raises the exception of the first key, in loop order, whose full set raises |
| Prerender.RenderAllAborted | code/create_prerendered_figures.py:42-52 | after an exception, later keys change nothing: the script has stopped |
| Prerender.CandidateKeys | code/create_prerendered_figures.py:44-50 | a state gets two keys, without the party split; the whole sample gets four |
| Prerender.LoopKeysMembership | code/create_prerendered_figures.py:44-50 | a key is made exactly when its state is a candidate, it does not split a state by party, and its threshold is None or the default outcome |
| Prerender.FlagKeysMembership | code/create_prerendered_figures.py:45-50 | a candidate's keys are its own, without a state's party split, under either threshold |
| Prerender.PrerenderKeysMembership | code/create_prerendered_figures.py:44-51 | no key pairs a state with the party split; every state and the whole sample appear unsplit under both thresholds; only the whole sample appears split |
| Prerender.LoopKeysCountStates | code/create_prerendered_figures.py:44-51 | the loops make two keys per state |
| Prerender.PrerenderKeysCount | code/create_prerendered_figures.py:44-51 | there are 2·(number of states) + 4 keys |
| Prerender.LoopKeysDistinct | code/create_prerendered_figures.py:44-51 | over distinct candidates the keys are distinct, so no dict assignment overwrites another |
| Prerender.FlagKeysDistinct | code/create_prerendered_figures.py:45-50 | one candidate's keys are distinct |
| Prerender.PrerenderKeysDistinct | code/create_prerendered_figures.py:44-51 | over the deduplicated state column the keys are distinct and there are 2·(number of states) + 4 of them |
| Prerender.AppViewsPrerendered | code/create_prerendered_figures.py:44-51 | every view the dashboard's controls can reach was prerendered: its (state, stratify, threshold) is a prerender key whenever its state is one of the table's states |
| SurveyMap.MemberNames | climate_emotions_map/make_map.py:26 | a label names at least one member state |
| SurveyMap.MemberNamesSeparated | climate_emotions_map/make_map.py:26 | no member name holds ", " |
| SurveyMap.MemberNamesJoin | climate_emotions_map/make_map.py:26 | joining the members with ", " gives back the label's text before its first " (" |
| SurveyMap.SingleStateMembers | climate_emotions_map/make_map.py:26 | a label without " (" and ", " is a single state whose only member is itself |
| SurveyMap.AbbrevList | climate_emotions_map/make_map.py:28 | a label has at least one abbreviation |
| SurveyMap.StateColumn | climate_emotions_map/make_map.py:30 | one entry per member state, each the label of some input row |
| SurveyMap.SingleStateColumn | climate_emotions_map/make_map.py:27 | one entry per member state |
| SurveyMap.Zip | climate_emotions_map/make_map.py:31-34 | row i holds the i-th entry of each column, with nothing filled |
| SurveyMap.ZipRows | climate_emotions_map/make_map.py:31-34 | the `DataFrame` construction builds those rows |
| SurveyMap.LongFormat | climate_emotions_map/make_map.py:18-35 | fails exactly when the abbreviation count differs from the member count (the ragged `np.array`); otherwise one row per member state, each keeping an input label, nothing filled |
| SurveyMap.GetStateAbbrevsInLongFormat | climate_emotions_map/make_map.py:18-35 | the loop computes the specified long table |
| SurveyMap.ColumnsOfWellFormed | climate_emotions_map/make_map.py:25-34 | when every label has as many members as abbreviations, the columns line up with the per-label expansion |
| SurveyMap.LongFormatWellFormed | climate_emotions_map/make_map.py:25-34 | then the long table is each label's members paired in order with its abbreviations |
| SurveyMap.AndPosition | climate_emotions_map/make_map.py:43 | the position just after the last comma, or 0 when there is none |
| SurveyMap.DisplayName | climate_emotions_map/make_map.py:44 | the label with " and" inserted after its last comma |
| SurveyMap.DisplayNameInverse | climate_emotions_map/make_map.py:43-44 | removing the inserted " and" gives the label back |
| SurveyMap.ClusterDict | climate_emotions_map/make_map.py:38-46 | the dictionary's keys are distinct |
| SurveyMap.GetClusters | climate_emotions_map/make_map.py:38-46 | the loop computes the specified dictionary |
| SurveyMap.ClusterDictKeys | climate_emotions_map/make_map.py:42-45 | a key exists exactly when some cluster label has it as display name |
| SurveyMap.ClusterDictLookup | climate_emotions_map/make_map.py:45 | a key maps to the abbreviations of the last cluster row with that display name |
| SurveyMap.LastMatchSpec | climate_emotions_map/make_map.py:64-70 | no reading matches exactly when no reading's label contains the row's; otherwise the match is the last reading whose label does |
| SurveyMap.FillRowStep | climate_emotions_map/make_map.py:66-70 | a reading whose label contains the row's overwrites `to_plot` and `pop_up`; any other leaves the row alone |
| SurveyMap.FillOne | climate_emotions_map/make_map.py:65-70 | the inner loop fills row i and changes no other row |
| SurveyMap.FillToPlot | climate_emotions_map/make_map.py:64-70 | the nested loops fill every row of the table in place |
| SurveyMap.FillRowSpec | climate_emotions_map/make_map.py:64-70 | filling keeps the label, member and abbreviation; an unmatched row is unchanged; a matched row shows 100× the value and the label of the last reading whose label contains its own |
| SurveyMap.FillRowUnmatched | climate_emotions_map/make_map.py:64-70 | a row no reading matches is unchanged |
| SurveyMap.FillRowLast | climate_emotions_map/make_map.py:64-70 | a matched row shows the last matching reading |
| SurveyMap.SubstringMatchMislabels | climate_emotions_map/make_map.py:66 | as written: the Virginia row shows West Virginia's value and label when that reading comes later |
| SurveyMap.LastExactMatch | climate_emotions_map/make_map.py:66 | corrected match: None exactly when no reading has the row's label, otherwise the last reading that has it |
| SurveyMap.FillRowExactOwnLabel | climate_emotions_map/make_map.py:64-70 | with exact matching a row only ever shows a reading of its own label, and shows the last one whenever there is one |
| SurveyMap.FillRowExactUnique | climate_emotions_map/make_map.py:64-70 | with exactly one reading of the row's label, the row shows that reading's value |
| SurveyMap.OpinionReadings | climate_emotions_map/make_map.py:56-65 | the readings are the opinion rows of question `"q{question}"`, the sub-question and the outcome, one per row, in table order |
| SurveyMap.ImpactReadings | climate_emotions_map/make_map.py:79-86 | the readings are the impact rows for the number of impacts, one per row, in table order |
| SurveyMap.AddOpinionsData | climate_emotions_map/make_map.py:49-71 | every row of the table is filled from the selected opinion readings |
| SurveyMap.AddImpactsData | climate_emotions_map/make_map.py:74-92 | every row of the table is filled from the selected impact readings |
| SurveyMap.AbbrevsIn | climate_emotions_map/make_map.py:129-140 | the subset's abbreviations are exactly those in the list that occur in the long table |
| SurveyMap.ClusterOf | climate_emotions_map/make_map.py:136-141 | no cluster is found exactly when none holds the clicked abbreviation |
| SurveyMap.ClusterOfLast | climate_emotions_map/make_map.py:136-141 | the cluster found is the last one holding the clicked abbreviation, since later matches overwrite earlier ones |
| SurveyMap.OutlineClickedState | climate_emotions_map/make_map.py:124-168 | a falsy click leaves the figure unchanged; otherwise one outline layer is added and the title names the region |
| SurveyMap.HighlightCoversCluster | climate_emotions_map/make_map.py:136-141 | a click inside a cluster outlines every abbreviation of that cluster present in the table, and the title names the cluster |
| SurveyMap.HighlightOutsideClusters | climate_emotions_map/make_map.py:129-132 | a click outside every cluster outlines that abbreviation alone, and the title names it |
| SurveyMap.SelectOpinions | climate_emotions_map/make_map.py:227-231 | exactly the opinion rows equal on question, sub-question and outcome |
| SurveyMap.SelectImpacts | climate_emotions_map/make_map.py:245-248 | exactly the sample-description rows of the impact with category "Yes" |
| SurveyMap.OpinionPlotRows | climate_emotions_map/make_map.py:240-241 | one plot row per opinion row, out of 100, with no impact |
| SurveyMap.JoinRow | climate_emotions_map/make_map.py:254-260 | one joined row per impact row of the same state |
| SurveyMap.JoinImpacts | climate_emotions_map/make_map.py:254-260 | the inner join on state: a joined row exists exactly for each pair of rows with equal states |
| SurveyMap.GradientFor | climate_emotions_map/make_map.py:262-267 | the impact column is the gradient exactly when an impact is chosen and shown as gradient |
| SurveyMap.GradientValues | climate_emotions_map/make_map.py:262-267 | one gradient value per row |
| SurveyMap.MinOf | climate_emotions_map/make_map.py:270 | the least value of the column, None (NaN) exactly when it is empty |
| SurveyMap.MaxOf | climate_emotions_map/make_map.py:271 | the greatest value of the column, None (NaN) exactly when it is empty |
| SurveyMap.ClickedRows | climate_emotions_map/make_map.py:291 | exactly the plotted rows of the clicked state |
| SurveyMap.PlotRowsProvenance | climate_emotions_map/make_map.py:227-260 | every plotted row is a chosen opinion of a state, out of 100, with that state's impact attached exactly when an impact is asked for |
| SurveyMap.PlotRowsComplete | climate_emotions_map/make_map.py:227-260 | a chosen opinion whose state reports the impact is plotted |
| SurveyMap.SelectMapData | climate_emotions_map/make_map.py:201-291 | fails exactly on no chosen opinion (NoOpinionData) or, with opinions present, no impact data (NoImpactData); otherwise the gradient column follows the request, the range is the least and greatest plotted gradient value, and the clicked subset is the clicked state's rows |
| LegacySurveyMap.LegacyName | code/make_map.py:38 | the name is a prefix of the piece and holds no "(" |
| LegacySurveyMap.LegacyNames | code/make_map.py:36-38 | one name per ", "-separated piece of the label |
| LegacySurveyMap.LegacyNameInLabel | code/make_map.py:36-38 | each name occurs in its own label |
| LegacySurveyMap.LegacySingleState | code/make_map.py:36-38 | a label without ", " and "(" names only itself |
| LegacySurveyMap.LegacyNameTrailingSpace | code/make_map.py:38 | the last member of a cluster label keeps the space before " (" |
| LegacySurveyMap.LegacyStateColumnInLabels | code/make_map.py:35-38 | every name of the `states` list occurs in some row's label |
| LegacySurveyMap.LegacyLongFormat | code/make_map.py:30-47 | fails exactly when the two columns differ in length; otherwise row i pairs the i-th name with the i-th abbreviation |
| LegacySurveyMap.LegacyZip | code/make_map.py:42-45 | row i holds the i-th name and abbreviation, with nothing filled |
| LegacySurveyMap.LegacyGetStateAbbrevsInLongFormat | code/make_map.py:30-47 | the loops compute the specified table |
| LegacySurveyMap.AppendNames | code/make_map.py:36-38 | the inner loop appends the label's names |
| LegacySurveyMap.AppendEach | code/make_map.py:39-41 | the inner loop appends the row's abbreviations |
| LegacySurveyMap.LegacyRows | code/make_map.py:42-45 | the `DataFrame` construction builds the zipped rows |
| LegacySurveyMap.LegacyRowsMatchOwnLabel | code/make_map.py:76-82 | every row's name occurs in some row's label |
| StackedBar.LoadDf | climate_emotions_map/make_stacked_bar_plots.py:73-81 | the whole-sample table exactly without state and party split, the state table exactly with a state, the party table exactly for the national party split |
| StackedBar.SubquestionRows | climate_emotions_map/make_stacked_bar_plots.py:372-382 | "all" keeps every row; any other sub-question keeps exactly its own rows |
| StackedBar.StateRows | climate_emotions_map/make_stacked_bar_plots.py:390-396 | a falsy state keeps every row; otherwise exactly the state's rows |
| StackedBar.InvertAll | climate_emotions_map/make_stacked_bar_plots.py:112-114 | each row's complement: 1 minus the percentage, outcome "not3+" |
| StackedBar.FillNaPercentage | climate_emotions_map/make_stacked_bar_plots.py:107-117 | every row is followed by its "not3+" complement, the two adding up to 1 and agreeing on question, sub-question, state and party |
| StackedBar.ThresholdShape | climate_emotions_map/make_stacked_bar_plots.py:418-425 | filling and the categorical sort put the threshold's rows first, in order, then their complements in the same order |
| StackedBar.ThresholdFilters | climate_emotions_map/make_stacked_bar_plots.py:418-425 | after filling, each category holds exactly the rows or the complements, and no row falls outside both |
| StackedBar.PairFilters | climate_emotions_map/make_stacked_bar_plots.py:112-117 | a row and its complement fall one into each category |
| StackedBar.ScaleAll | climate_emotions_map/make_stacked_bar_plots.py:148 | each row's percentage times 100 |
| StackedBar.PlotBars | climate_emotions_map/make_stacked_bar_plots.py:132-170 | the plotted chart, with the keywords' height multiplied by the number of facets |
| StackedBar.NarrowedSelected | climate_emotions_map/make_stacked_bar_plots.py:363-396 | the narrowed rows are exactly the rows of the chosen table for the question, the sub-question unless "all", and the state when one is given |
| StackedBar.ChartOf | climate_emotions_map/make_stacked_bar_plots.py:408-454 | the threshold or plain branch and `plot_bars` compute the specified chart |
| StackedBar.MakeStackedBar | climate_emotions_map/make_stacked_bar_plots.py:358-454 | the specified chart, and the caller's keywords keep their height (the deep copy) |
| StackedBar.StackedBarChart | climate_emotions_map/make_stacked_bar_plots.py:363-454 | past the sub-question order check, the chart is drawn from the narrowed rows |
| StackedBar.StackedBarFails | climate_emotions_map/make_stacked_bar_plots.py:372-441 | fails exactly on a missing sub-question order for "all", a missing binary palette or a "not3+" threshold, or a number of outcomes without a palette |
| StackedBar.ThresholdChartRows | climate_emotions_map/make_stacked_bar_plots.py:408-427 | the threshold chart plots the threshold's rows and then their complements, out of 100, with the binary palette |
| StackedBar.ThresholdChartRowsFrom | climate_emotions_map/make_stacked_bar_plots.py:408-427 | every threshold-chart row is a rescaled narrowed row or the rescaled complement of one |
| StackedBar.PlainChartRowsFrom | climate_emotions_map/make_stacked_bar_plots.py:428-441 | every row of a chart without threshold is a rescaled narrowed row |
| StackedBar.StackedBarRowsSelected | climate_emotions_map/make_stacked_bar_plots.py:369-396 | every plotted row belongs to the question, to the sub-question unless "all", and to the state when one is given |
| StackedBar.ThresholdChartShape | climate_emotions_map/make_stacked_bar_plots.py:408-427 | twice as many rows as the threshold has; each complement reads 100 minus its partner |
| StackedBar.BinarizedLayout | climate_emotions_map/make_stacked_bar_plots.py:112-117 | the rescaled rows, then complements reading 100 minus their partners |
| StackedBar.ScaledLabels | climate_emotions_map/make_stacked_bar_plots.py:148-162 | rescaling and reordering keep the number of distinct outcomes and sub-questions |
| StackedBar.PlainChartShape | climate_emotions_map/make_stacked_bar_plots.py:428-441 | no "3+"/"4+" row; the rows are the others, out of 100, as a permutation, sorted by outcome descending; the palette fits the number of outcomes shown |
| StackedBar.GrowIsProduct | climate_emotions_map/make_stacked_bar_plots.py:163 | stacking facets multiplies the height by their number |
| StackedBar.BarsHeight | climate_emotions_map/make_stacked_bar_plots.py:162-163 | the chart's height is the given height times the number of distinct sub-questions plotted |
| StackedBar.PlotRowsPermutation | climate_emotions_map/make_stacked_bar_plots.py:167-170 | sorting keeps every rescaled row |
| StackedBar.ChartHeight | climate_emotions_map/make_stacked_bar_plots.py:162-221 | any chart's height is per facet, and its axis and party order are the ones given |
| StackedBar.StackedBarHeight | climate_emotions_map/make_stacked_bar_plots.py:358-453 | the height is the base, times 1.75 when stratified, times the distinct sub-questions; the party axis, in party order, exactly when stratified |
| StackedBar.WrapColumnText | climate_emotions_map/make_stacked_bar_plots.py:92-104 | values of rows under 50 per cent are wrapped, the others kept |
| StackedBar.FigureKeywords.constructor | climate_emotions_map/make_stacked_bar_plots.py:358 | the copy starts with the height it is given |
| LegacyStackedBar.PartyValues | code/climate_emotions_map/make_stacked_bar_plots.py:57-81 | exactly the parties that occur in the rows |
| LegacyStackedBar.Parties | code/climate_emotions_map/make_stacked_bar_plots.py:57-81 | the groups: the parties that occur, strictly ascending |
| LegacyStackedBar.GroupRows | code/climate_emotions_map/make_stacked_bar_plots.py:55-60 | one row per group, in group order, carrying the group's value |
| LegacyStackedBar.GroupRowOfParty | code/climate_emotions_map/make_stacked_bar_plots.py:81-82 | a party's mask selects that party's group row alone |
| LegacyStackedBar.GroupTotalsSum | code/climate_emotions_map/make_stacked_bar_plots.py:55-60 | the group totals add up to the total of the grouped rows |
| LegacyStackedBar.PartiesCover | code/climate_emotions_map/make_stacked_bar_plots.py:55-60 | the groups cover every row that has a party |
| LegacyStackedBar.AggRows | code/climate_emotions_map/make_stacked_bar_plots.py:51-64 | every appended row has outcome "agg" |
| LegacyStackedBar.AggregatedRows | code/climate_emotions_map/make_stacked_bar_plots.py:66-70 | no aggregated outcome is left; every row is an input row or an "agg" row |
| LegacyStackedBar.AggregatedOther | code/climate_emotions_map/make_stacked_bar_plots.py:66-70 | the rows of any other outcome are kept, in order |
| LegacyStackedBar.AggregateOutcomes | code/climate_emotions_map/make_stacked_bar_plots.py:49-72 | aggregating fails exactly on an empty frame (`unique()[0]`); otherwise the above two hold |
| LegacyStackedBar.AggregateTotal | code/climate_emotions_map/make_stacked_bar_plots.py:49-72 | aggregating keeps the total percentage, except that, stratified, aggregated rows without a party are dropped with their share |
| LegacyStackedBar.AggRowsTotal | code/climate_emotions_map/make_stacked_bar_plots.py:51-64 | the "agg" rows carry the total of the aggregated rows, less the rows without a party when stratified |
| LegacyStackedBar.NaRows | code/climate_emotions_map/make_stacked_bar_plots.py:77-86 | every row appended by the filling has outcome "NA" |
| Seqs.SortDescByCorrect | climate_emotions_map/make_stacked_bar_plots.py:167-168 | the descending sort on outcome orders the rows and is a permutation of them |
| LegacyStackedBar.FillNaKeeps | code/climate_emotions_map/make_stacked_bar_plots.py:75-88 | filling fails exactly on an empty frame; otherwise the rows stay in front and any outcome other than "NA" keeps its rows |
| LegacyStackedBar.FilledRows | code/climate_emotions_map/make_stacked_bar_plots.py:84-87 | every row after filling is an input row or an "NA" row |
| LegacyStackedBar.FillNaPartyTotal | code/climate_emotions_map/make_stacked_bar_plots.py:81-87 | stratified, each party's percentages add up to 1 after filling |
| LegacyStackedBar.FillNaTotals | code/climate_emotions_map/make_stacked_bar_plots.py:75-88 | after filling the percentages add up to 1: over the frame, or within each party when stratified |
| LegacyStackedBar.Rank | code/climate_emotions_map/make_stacked_bar_plots.py:208 | an outcome's position among the categories; an outcome outside them (NaN) ranks last |
| LegacyStackedBar.ByCategorySorted | code/climate_emotions_map/make_stacked_bar_plots.py:208-209 | grouping by distinct categories puts the rows in rank order |
| LegacyStackedBar.ByCategoryRows | code/climate_emotions_map/make_stacked_bar_plots.py:208-209 | grouping keeps exactly the rows of the categories, each once |
| LegacyStackedBar.ByCategoryFirst | code/climate_emotions_map/make_stacked_bar_plots.py:208-209 | the rows of the first category come first, in order |
| LegacyStackedBar.CategoricalWithin | code/climate_emotions_map/make_stacked_bar_plots.py:208-209 | when every outcome is a category, the categorical sort is the grouping by category |
| LegacyStackedBar.CategoricalOrderSpec | code/climate_emotions_map/make_stacked_bar_plots.py:208-209 | the categorical sort is a permutation into rank order |
| LegacyStackedBar.Thresholded | code/climate_emotions_map/make_stacked_bar_plots.py:170-211 | the threshold branch fails only with the empty-frame error |
| LegacyStackedBar.Filled | code/climate_emotions_map/make_stacked_bar_plots.py:177-206 | the branch before the sort fails only with the empty-frame error |
| LegacyStackedBar.Run | code/climate_emotions_map/make_stacked_bar_plots.py:122-222 | the checks and filters of `run` compute the specified chart or error |
| LegacyStackedBar.ThresholdLabels | code/climate_emotions_map/make_stacked_bar_plots.py:32-35 | a threshold is neither one of its lower levels nor an added label |
| LegacyStackedBar.CategoriesDistinct | code/climate_emotions_map/make_stacked_bar_plots.py:199-206 | the categories are distinct |
| LegacyStackedBar.KeptOutcomes | code/climate_emotions_map/make_stacked_bar_plots.py:180-188 | the outcome filter keeps the threshold's rows and nothing outside the included outcomes |
| LegacyStackedBar.PooledOutcomes | code/climate_emotions_map/make_stacked_bar_plots.py:190-194 | aggregating leaves the threshold's rows alone, and only category outcomes |
| LegacyStackedBar.FilledOutcomes | code/climate_emotions_map/make_stacked_bar_plots.py:177-206 | before the sort, the threshold's rows are kept in order and every outcome is a category |
| LegacyStackedBar.ThresholdedByCategory | code/climate_emotions_map/make_stacked_bar_plots.py:199-209 | no row falls outside the categories, so the sort is the grouping by category |
| LegacyStackedBar.ThresholdedShape | code/climate_emotions_map/make_stacked_bar_plots.py:199-209 | every outcome is a category, ranks never decrease, the threshold's rows come first and unchanged, and the sort is a permutation |
| LegacyStackedBar.RunThresholdShape | code/climate_emotions_map/make_stacked_bar_plots.py:170-211 | with a threshold the plotted rows are out of 100, in categorical order, with the threshold's own rows first |
| LegacyStackedBar.RunChartThresholded | code/climate_emotions_map/make_stacked_bar_plots.py:170-222 | with a threshold the chart plots the thresholded selection, out of 100, in the order given |
| LegacyStackedBar.ScaledShape | code/climate_emotions_map/make_stacked_bar_plots.py:103 | rescaling keeps the outcomes, hence the category order and the leading rows |
| LegacyStackedBar.RunNoThreshold | code/climate_emotions_map/make_stacked_bar_plots.py:213-216 | without a threshold no "3+"/"4+" row is plotted; the others are plotted out of 100, as a permutation, sorted by outcome descending |
| LegacyStackedBar.RunChecks | code/climate_emotions_map/make_stacked_bar_plots.py:136-173 | `run` stops at the first failed assertion, in source order: question, sub-question, state, party column, threshold |
| LegacyStackedBar.RunSucceeds | code/climate_emotions_map/make_stacked_bar_plots.py:136-173 | a chart is drawn only from a non-empty selection, with a party column when stratified and a known threshold; its bars are per party exactly when stratified |
| LegacyStackedBar.RunEmptyFrame | code/climate_emotions_map/make_stacked_bar_plots.py:63-86 | the empty-frame error arises only in the threshold branch |
| SurveyGeoJson.Polygons | code/create_survey_geojson.py:127-146 | a Polygon contributes its rings as one polygon; a MultiPolygon contributes all of its polygons |
| SurveyGeoJson.IndexByName | code/create_survey_geojson.py:72-74 | every feature's name is a key, and each key maps to an input feature of that name |
| SurveyGeoJson.IndexByNameLastWins | code/create_survey_geojson.py:72-74 | a later feature with the same name replaces an earlier one |
| SurveyGeoJson.Rename | code/create_survey_geojson.py:78 | a KeyError exactly when the old name is absent; otherwise the feature moves to the new name and every other entry is kept |
| SurveyGeoJson.ApplyRenamesFailure | code/create_survey_geojson.py:77-78 | the first failed rename is the failure of the whole loop |
| SurveyGeoJson.Clusters | code/create_survey_geojson.py:81-83 | only input labels holding "Cluster" |
| SurveyGeoJson.SinglesAgainst | code/create_survey_geojson.py:84-88 | only input labels not in the cluster list |
| SurveyGeoJson.NonClusters | code/create_survey_geojson.py:84-88 | the labels without "Cluster" |
| SurveyGeoJson.ClusterMembership | code/create_survey_geojson.py:81-83 | a label is in the cluster list exactly when it is an input label holding "Cluster" |
| SurveyGeoJson.SinglesAgainstNonClusters | code/create_survey_geojson.py:84-88 | testing against the cluster list is the same as testing for "Cluster" |
| SurveyGeoJson.SinglesAreNonClusters | code/create_survey_geojson.py:84-88 | the single states are exactly the labels without "Cluster", in order |
| SurveyGeoJson.ClusterPartition | code/create_survey_geojson.py:81-88 | every label lands in exactly one of the two lists |
| SurveyGeoJson.SurveyPartition | code/create_survey_geojson.py:81-88 | the singles and the clusters together hold every input label once |
| SurveyGeoJson.MatchPrefix | code/create_survey_geojson.py:108 | the pattern fails exactly when no line holds " (Cluster" |
| SurveyGeoJson.ClusterMembers | code/create_survey_geojson.py:106-113 | a parse failure is the RuntimeError for that region; a parsed cluster has at least one member |
| SurveyGeoJson.ClusterMembersOneLine | code/create_survey_geojson.py:106-113 | on a one-line region, parsing fails exactly without " (Cluster"; the members joined with ", " are the text before its last occurrence |
| SurveyGeoJson.AddSingle | code/create_survey_geojson.py:97-99 | fails exactly on a missing state or an absent density; otherwise only that feature changes: its id is set and its density deleted |
| SurveyGeoJson.AddSingles | code/create_survey_geojson.py:95-100 | on success every single state was present and the keys are unchanged |
| SurveyGeoJson.AddSinglesFailure | code/create_survey_geojson.py:95-100 | the first failure is the failure of the whole loop |
| SurveyGeoJson.ClusterHead | code/create_survey_geojson.py:121-131 | the head is named and identified by the cluster; its geometry becomes a MultiPolygon of its polygons |
| SurveyGeoJson.ExtendCluster | code/create_survey_geojson.py:134-146 | fails exactly on a missing member; otherwise only the head's geometry changes |
| SurveyGeoJson.ExtendClusterFailure | code/create_survey_geojson.py:134-146 | the first missing member is the failure of the whole loop |
| SurveyGeoJson.AddCluster | code/create_survey_geojson.py:103-149 | on success the first member's feature becomes the cluster's, with id and name the cluster and density deleted; no other feature changes |
| SurveyGeoJson.AddClusters | code/create_survey_geojson.py:103-149 | one appended feature per cluster, each a key of the map |
| SurveyGeoJson.AddClustersFailure | code/create_survey_geojson.py:103-149 | the first failed cluster is the failure of the whole loop |
| SurveyGeoJson.AddSinglesTagged | code/create_survey_geojson.py:97-100 | every single state's feature carries its id and no density |
| SurveyGeoJson.AddClusterTagged | code/create_survey_geojson.py:123-148 | processing a cluster leaves the features already appended alone |
| SurveyGeoJson.AddClustersTagged | code/create_survey_geojson.py:103-149 | every appended cluster feature carries the cluster's id and name and no density |
| SurveyGeoJson.SurveyGeoJsonFeatures | code/create_survey_geojson.py:95-154 | on success there is one feature per input label: the singles first, then the clusters, each with its label as id; no feature keeps a density |
| SurveyGeoJson.GatheredFeatures | code/create_survey_geojson.py:151-154 | reading the appended references in the final map gives that layout |
| SurveyGeoJson.MemberPolygons | code/create_survey_geojson.py:127-146 | the members' polygons, as many as they contribute |
| SurveyGeoJson.MemberPolygonsSnoc | code/create_survey_geojson.py:136-146 | one more member appends its polygons |
| SurveyGeoJson.ExtendClusterGeometry | code/create_survey_geojson.py:134-146 | extending gives the head's polygons followed by the later members' polygons, when the head is not listed again among them |
| SurveyGeoJson.AddClusterGeometry | code/create_survey_geojson.py:127-146 | a cluster's geometry is a MultiPolygon of all its members' polygons, in member order, when the first member is not listed again among the later members |
| SurveyGeoJson.BuildIndex | code/create_survey_geojson.py:72-74 | the comprehension computes the specified index |
| SurveyGeoJson.RenameAll | code/create_survey_geojson.py:77-78 | the rename loop computes the specified renames |
| SurveyGeoJson.SplitRegions | code/create_survey_geojson.py:81-88 | the two comprehensions compute the cluster and single lists |
| SurveyGeoJson.AddSingleStates | code/create_survey_geojson.py:95-100 | the loop over single states computes the specified updates |
| SurveyGeoJson.AddOneCluster | code/create_survey_geojson.py:105-149 | one iteration of the cluster loop computes the specified update |
| SurveyGeoJson.ExtendHead | code/create_survey_geojson.py:117-146 | the member loop computes the specified extension |
| SurveyGeoJson.AddAllClusters | code/create_survey_geojson.py:103-149 | the cluster loop computes the specified updates |
| SurveyGeoJson.Collect | code/create_survey_geojson.py:151-154 | the features are read in the final state, in append order |
| SurveyGeoJson.CreateSurveyGeoJson | code/create_survey_geojson.py:27-158 | the whole function computes the specified collection or exception |

## Left out

- Figures, their traces, hover text, colour scales, layout and annotations are opaque. `StackedBar.BarPlot` and `SurveyMap.Figure` keep only the rows, settings and layers the code computes.
- Floating-point rounding is not modelled: percentages are `real`. This covers `.round(3)` in the older `plot_bars` (code/climate_emotions_map/make_stacked_bar_plots.py:103), the `decimals` argument, and number formatting (the thousands separator of the sample size, percentage text).
- `create_map_title`, `create_question_subtitle` and `get_subquestion_text` are not part of this model. `App.MapTitleLabel` stops at the label they receive.
- `textwrap.wrap` is the parameter `wrap` of `StackedBar.WrapColumnText`.
- File and network I/O, JSON and pickle reading and writing, CSV loading, `print`, and the module-level example runs are left out. The tables, dictionaries, input features and prerendered figures are parameters.
- Dash wiring is reduced to parameters: `ctx.triggered_id` is `App.Trigger`, `no_update` is `App.Update.NoUpdate`, `PreventUpdate` is `App.Callback.Prevent`, and `ctx.outputs_list` is the list of output questions.
- Several callbacks hand their work to code outside this model:
  - `update_sample_descriptive_plot` (make_descriptive_plots.py is not part of this model);
  - `update_map`, `update_selected_question_bar_plot` and `update_map_subtitle`, apart from the helpers they call, which are modelled;
  - `reset_impact_select`, which always returns None.
- The app's `update_map` passes keyword arguments (`colormap_range_padding`, `margins`, `decimals`) that the newer `make_map2` in climate_emotions_map/make_map.py does not take; that call is not modelled.
- The legacy map script's `get_clusters`, `add_opinions_data`, `add_impacts_data` and `outline_clicked_state` (code/make_map.py:50-104, 136-180) are the same code as the newer ones. They are modelled by `SurveyMap.ClusterDict`, `SurveyMap.AddOpinionsData`, `SurveyMap.AddImpactsData` and `SurveyMap.OutlineClickedState`.
- `make_base_map`, `make_map` (the fixed-input demo) and the hover-data merges of `make_map2` only build figures and are not modelled.
- The older `load_df` is the same rule as the dashboard's and is modelled by `StackedBar.LoadDf`. Its final `return None` cannot be reached.
- Seqs.SortDescBy: `sort_values` is modelled as a stable descending sort. Pandas' default quicksort is not stable, so rows with equal outcomes may appear in another order. `Seqs.SortDescByCorrect` (sorted, a permutation) holds for any sort; the exact order of equal rows is the stable one.
- StackedBar.FillNaPercentage, StackedBar.ThresholdShape, StackedBar.ThresholdChartShape, LegacyStackedBar.CategoricalOrderSpec, LegacyStackedBar.ThresholdedShape and LegacyStackedBar.RunThresholdShape assume that `sort_index` and the categorical `sort_values` keep rows with equal keys in their input order. Pandas' default quicksort does not promise this. Their statements that a row keeps its place among equal keys, or is followed by its own complement, are therefore stronger than what pandas guarantees. Which rows fall in each category does not depend on this.
- The `"ascending"` sort order of both `plot_bars` functions is never requested by their callers and is not modelled.
- In `make_stacked_bar`, the `KeyError` raised for a number of outcomes without a palette is caught and printed, leaving `palette` unbound. The model reports it as `UnboundPalette`.
- Figure keywords other than the height are not modelled.
- NaN handling is not modelled: an empty column's minimum and maximum are `None`, and a missing cell is `None`.
- Column dtypes are not modelled: `str(sub_question)` and the other comparisons are on strings throughout.
- `SurveyGeoJson.MatchPrefix` models regex `.` as stopping at line breaks. Other regex details are left out.
- In the prerender script, `make_stacked_bar` is the parameter `build`: it returns the figure or the exception it raises. The script itself stops at the first exception, and the model says which one.
- Prerender.AppViewsPrerendered: the prerender script builds 3-tuple keys (state, stratify, threshold), while the app looks figures up with a fourth component, `NUM_DECIMALS`. The lemma states that the app's key without its decimals is prerendered. It does not claim the 4-tuple lookup succeeds, which it would not against the script's 3-tuple keys.
- SurveyGeoJson.AddClusterGeometry and SurveyGeoJson.ExtendClusterGeometry state the member-order concatenation only when the first member is not listed again among the later members. For a label such as "A, B, A (Cluster X)", `extend` reads A's polygons after they have already been extended. The geometry then becomes A, B, A, B. `ExtendCluster` and `ExtendHead` model that behaviour as written.
- `NUM_DECIMALS` and `DEFAULT_QUESTION` are used by the prerender script but not defined there. `SUBQUESTION_ORDER`, `NATIONAL_SAMPLE_SIZE`, `ALL_STATES_LABEL`, `SECTION_TITLES` and `PRERENDERED_BARPLOTS` come from modules outside this model. All are parameters.
- LegacyStackedBar.RunChecks: whether a table has a `party` column is a property of the table files. It is the parameter `partyColumn`, the set of tables that have one.
- SurveyMap.AddOpinionsData and SurveyMap.AddImpactsData model the code as written, with substring matching. The corrected exact match is stated separately (see Findings).

## Findings

| source | as written | input that shows it | evidently intended | confidence | as-written member | corrected member |
|---|---|---|---|---|---|---|
| climate_emotions_map/make_map.py:66 (also code/make_map.py:78,99) | a row takes every reading whose label *contains* its own label (`row_states["state"] in row_opinions.state`), the last one winning | row "Virginia" with readings "Virginia" (0.5) then "West Virginia" (0.25): the Virginia row shows 25.0 and the pop-up "West Virginia" | a row takes the reading of its own label | not executed | SurveyMap.SubstringMatchMislabels | SurveyMap.FillRowExactOwnLabel |
