/** The decision logic of the app's callbacks. Each callback is a function of
    its inputs; the input that fired it is passed in as a `Trigger`, and the
    framework's "leave this output alone" and "cancel the update" answers are
    the `NoUpdate` and `Prevent` values. Constants the app imports but that
    are not part of this model (the all-states label, the default outcome,
    the section title, the prerendered figures) are parameters. */
module App {
  import opened Wrappers
  import opened SurveyData
  import opened Utility

  /** Which input fired the selection callback. */
  datatype Trigger = MapClick | PartySwitch | StateSelect

  /** One output of a callback: a new value or `no_update`. */
  datatype Update<T> = NoUpdate | Set(value: T)

  /** What a callback does: cancel (`PreventUpdate`), raise, or emit outputs. */
  datatype Callback<T> = Prevent | Raised(error: AppError) | Emit(outputs: T)

  datatype AppError =
    | NoClickedPoint                       // `figure["points"][0]` or `["customdata"][0]` on an empty list
    | NoSampleSize(state: string)          // `.values[0]` on no matching row
    | MissingFigureKey                     // the prerendered figures lack the lookup key
    | MissingQuestion(question: string)    // the key's figures lack the question

  /** A point of the map's click data; `customdata` is absent after a second
      click on the same point. */
  datatype ClickPoint = ClickPoint(customdata: Option<seq<string>>)

  /** The four outputs of the selection callback: the state dropdown's value
      and disabled flag, the party switch's checked and disabled flags. */
  datatype SelectionOutputs = SelectionOutputs(
    stateValue: Update<Option<string>>,
    stateDisabled: Update<bool>,
    switchChecked: Update<bool>,
    switchDisabled: Update<bool>)

  /** The outputs of a deselection: no state, the switch unchecked and enabled. */
  const Deselect: SelectionOutputs := SelectionOutputs(Set(None), NoUpdate, Set(false), Set(false))

  // ---------------------------------------------------------------------------
  // update_state_and_disable_state_select_and_party_switch_interaction
  // ---------------------------------------------------------------------------

  /** The selection callback. A map click is ignored while the party switch
      is on; otherwise it deselects when it hits the selected state (or lacks
      its custom data) and selects the clicked state otherwise. Toggling the
      switch clears the state and locks the dropdown while the switch is on.
      A dropdown change locks the switch exactly when a state is chosen. */
  function UpdateSelection(trigger: Trigger, points: seq<ClickPoint>, partyChecked: bool, selected: Option<string>)
    : (r: Callback<SelectionOutputs>)
    ensures r.Prevent? <==> trigger == MapClick && partyChecked
    ensures r.Raised? ==> trigger == MapClick
    ensures r.Emit? ==> r.outputs.switchChecked != Set(true)
    ensures r.Emit? && r.outputs.stateValue.Set? && r.outputs.stateValue.value.Some? ==>
      r.outputs.switchChecked == Set(false) && r.outputs.switchDisabled == Set(true)
      && trigger == MapClick && r.outputs.stateValue != Set(selected)
    ensures r.Emit? && trigger == MapClick ==> r.outputs.stateDisabled == NoUpdate
    ensures trigger == PartySwitch ==> r == Emit(SelectionOutputs(Set(None), Set(partyChecked), NoUpdate, NoUpdate))
    ensures trigger == StateSelect ==>
      r == Emit(SelectionOutputs(NoUpdate, NoUpdate, Set(false), Set(selected.Some?)))
  {
    match trigger
    case MapClick =>
      if partyChecked then Prevent
      else if |points| == 0 then Raised(NoClickedPoint)
      else (
        match points[0].customdata
        case None => Emit(Deselect)
        case Some(data) =>
          if |data| == 0 then Raised(NoClickedPoint)
          else if Some(data[0]) == selected then Emit(Deselect)
          else Emit(SelectionOutputs(Set(Some(data[0])), NoUpdate, Set(false), Set(true))))
    case PartySwitch =>
      Emit(SelectionOutputs(Set(None), Set(partyChecked), NoUpdate, NoUpdate))
    case StateSelect =>
      if selected.Some? then Emit(SelectionOutputs(NoUpdate, NoUpdate, Set(false), Set(true)))
      else Emit(SelectionOutputs(NoUpdate, NoUpdate, Set(false), Set(false)))
  }

  /** A click on the selected state, or one without custom data, deselects
      it; a click on another state selects that one. */
  lemma MapClickOutcome(points: seq<ClickPoint>, selected: Option<string>)
    requires |points| > 0
    ensures points[0].customdata.None? ==> UpdateSelection(MapClick, points, false, selected) == Emit(Deselect)
    ensures points[0].customdata.Some? && |points[0].customdata.value| > 0 ==>
      var s := points[0].customdata.value[0];
      UpdateSelection(MapClick, points, false, selected)
        == if Some(s) == selected then Emit(Deselect)
           else Emit(SelectionOutputs(Set(Some(s)), NoUpdate, Set(false), Set(true)))
  {
  }

  // ---------------------------------------------------------------------------
  // The selection as a state machine
  // ---------------------------------------------------------------------------

  /** What the selection controls show. */
  datatype Ui = Ui(state: Option<string>, stateDisabled: bool, switchChecked: bool, switchDisabled: bool)

  /** What a user can do to the selection controls. */
  datatype UiEvent = ClickMap(points: seq<ClickPoint>) | ToggleSwitch | PickState(state: Option<string>)

  function Apply<T>(current: T, u: Update<T>): T {
    if u.Set? then u.value else current
  }

  /** The controls after the callback's outputs; a cancelled or failed
      callback changes nothing. */
  function Settle(ui: Ui, c: Callback<SelectionOutputs>): Ui {
    if c.Emit? then
      Ui(Apply(ui.state, c.outputs.stateValue), Apply(ui.stateDisabled, c.outputs.stateDisabled),
         Apply(ui.switchChecked, c.outputs.switchChecked), Apply(ui.switchDisabled, c.outputs.switchDisabled))
    else ui
  }

  /** One user action and the callback it fires. A disabled control does not
      react. */
  function Step(ui: Ui, ev: UiEvent): Ui {
    match ev
    case ClickMap(points) => Settle(ui, UpdateSelection(MapClick, points, ui.switchChecked, ui.state))
    case ToggleSwitch =>
      if ui.switchDisabled then ui
      else
        var u := ui.(switchChecked := !ui.switchChecked);
        Settle(u, UpdateSelection(PartySwitch, [], u.switchChecked, u.state))
    case PickState(s) =>
      if ui.stateDisabled then ui
      else
        var u := ui.(state := s);
        Settle(u, UpdateSelection(StateSelect, [], u.switchChecked, s))
  }

  /** A state is never selected together with the party split: a selected
      state locks the switch off, and the switch on locks the dropdown empty. */
  predicate Coherent(ui: Ui) {
    (ui.state.Some? ==> !ui.switchChecked && ui.switchDisabled)
    && (ui.switchChecked ==> ui.stateDisabled && ui.state.None?)
  }

  const Initial: Ui := Ui(None, false, false, false)

  function Steps(ui: Ui, evs: seq<UiEvent>): Ui
    decreases |evs|
  {
    if |evs| == 0 then ui else Steps(Step(ui, evs[0]), evs[1..])
  }

  /** Every user action keeps the controls coherent. */
  lemma StepCoherent(ui: Ui, ev: UiEvent)
    requires Coherent(ui)
    ensures Coherent(Step(ui, ev))
  {
    match ev
    case ClickMap(points) =>
      var c := UpdateSelection(MapClick, points, ui.switchChecked, ui.state);
      if c.Emit? {
        assert !ui.switchChecked;
        assert c.outputs.switchChecked == Set(false);
      }
    case ToggleSwitch =>
    case PickState(s) =>
  }

  /** From the initial controls, no sequence of actions makes them incoherent. */
  lemma {:induction false} StepsCoherent(ui: Ui, evs: seq<UiEvent>)
    requires Coherent(ui)
    ensures Coherent(Steps(ui, evs))
    decreases |evs|
  {
    if |evs| > 0 {
      StepCoherent(ui, evs[0]);
      StepsCoherent(Step(ui, evs[0]), evs[1..]);
    }
  }

  /** The initial controls are coherent, so every reachable one is. */
  lemma ReachableCoherent(evs: seq<UiEvent>)
    ensures Coherent(Steps(Initial, evs))
  {
    StepsCoherent(Initial, evs);
  }

  // ---------------------------------------------------------------------------
  // Drawer and title callbacks
  // ---------------------------------------------------------------------------

  /** `drawer_toggle` (its `opened` argument is `isOpen` here). */
  function DrawerToggle(isOpen: bool): (r: bool)
    ensures r != isOpen
  {
    !isOpen
  }

  /** Two toggles leave the drawer as it was. */
  lemma DrawerToggleTwice(isOpen: bool)
    ensures DrawerToggle(DrawerToggle(isOpen)) == isOpen
  {
  }

  /** `update_drawer_state`: the all-states label without a state. */
  function DrawerState(value: Option<string>, allStatesLabel: string): (r: string)
    ensures value.None? ==> r == allStatesLabel
    ensures value.Some? ==> r == "State: " + value.value && r[|"State: "|..] == value.value
  {
    if value.None? then allStatesLabel else "State: " + value.value
  }

  /** Distinct states give distinct drawer texts. */
  lemma DrawerStateInjective(a: string, b: string, allStatesLabel: string)
    requires DrawerState(Some(a), allStatesLabel) == DrawerState(Some(b), allStatesLabel)
    ensures a == b
  {
    assert DrawerState(Some(a), allStatesLabel)[|"State: "|..] == a;
  }

  /** `update_drawer_sample_size` before formatting: the national size
      without a state, else `n` of the first row of that state. */
  function SampleSize(sizes: seq<SampleSizeRow>, value: Option<string>, national: nat): (r: Result<nat, AppError>)
    ensures value.None? ==> r == Success(national)
    ensures value.Some? ==> (r.Failure? <==> forall i :: 0 <= i < |sizes| ==> sizes[i].state != value.value)
    ensures value.Some? && r.Success? ==>
      exists i :: 0 <= i < |sizes| && sizes[i].state == value.value && r.value == sizes[i].n
        && forall j :: 0 <= j < i ==> sizes[j].state != value.value
    ensures r.Failure? ==> r.error == NoSampleSize(value.value)
  {
    if value.None? then Success(national) else FirstSize(sizes, value.value, 0)
  }

  /** The sample size of the first row from `from` on with the state. */
  function FirstSize(sizes: seq<SampleSizeRow>, state: string, from: nat): (r: Result<nat, AppError>)
    requires from <= |sizes|
    requires forall j :: 0 <= j < from ==> sizes[j].state != state
    ensures r.Failure? <==> forall i :: 0 <= i < |sizes| ==> sizes[i].state != state
    ensures r.Success? ==>
      exists i :: from <= i < |sizes| && sizes[i].state == state && r.value == sizes[i].n
        && forall j :: 0 <= j < i ==> sizes[j].state != state
    ensures r.Failure? ==> r.error == NoSampleSize(state)
    decreases |sizes| - from
  {
    if from == |sizes| then Failure(NoSampleSize(state))
    else if sizes[from].state == state then Success(sizes[from].n)
    else FirstSize(sizes, state, from + 1)
  }

  /** `update_map_title` up to `create_map_title`: the label of the first
      option whose value is the selected impact, or None. */
  function MapTitleLabel(impact: Option<string>, options: seq<SelectItem>): (r: Option<string>)
    ensures r.None? <==> impact.None? || forall i :: 0 <= i < |options| ==> options[i].value != impact.value
    ensures r.Some? ==>
      exists i :: 0 <= i < |options| && options[i].value == impact.value && r.value == options[i].caption
        && forall j :: 0 <= j < i ==> options[j].value != impact.value
  {
    if impact.None? then None else FirstLabel(impact.value, options, 0)
  }

  function FirstLabel(impact: string, options: seq<SelectItem>, from: nat): (r: Option<string>)
    requires from <= |options|
    requires forall j :: 0 <= j < from ==> options[j].value != impact
    ensures r.None? <==> forall i :: 0 <= i < |options| ==> options[i].value != impact
    ensures r.Some? ==>
      exists i :: from <= i < |options| && options[i].value == impact && r.value == options[i].caption
        && forall j :: 0 <= j < i ==> options[j].value != impact
    decreases |options| - from
  {
    if from == |options| then None
    else if options[from].value == impact then Some(options[from].caption)
    else FirstLabel(impact, options, from + 1)
  }

  /** `update_selected_question_title`. */
  function SelectedQuestionTitle(state: Option<string>, allStatesLabel: string): string {
    match state
    case None => allStatesLabel
    case Some(s) => s
  }

  /** `toggle_selected_question_bar_plot_visibility`: the selected question's
      plot is hidden while an impact is selected. */
  function SelectedQuestionDisplay(impact: Option<string>): (r: string)
    ensures r == "none" <==> impact.Some?
    ensures r == "flex" <==> impact.None?
  {
    if impact.Some? then "none" else "flex"
  }

  /** `update_all_questions_title`: the section title, then the state or the
      all-states label. */
  function AllQuestionsTitle(state: Option<string>, sectionTitle: string, allStatesLabel: string): string {
    if state.None? then sectionTitle + ": " + allStatesLabel else sectionTitle + ": " + state.value
  }

  /** The three texts that follow the state dropdown agree: the selected
      question's title names the selection (the state, or the all-states
      label), the all-questions title is the section title followed by that
      same name, and the drawer shows the all-states label or "State: " before
      the state. */
  lemma TitlesAgree(state: Option<string>, sectionTitle: string, allStatesLabel: string)
    ensures var name := SelectedQuestionTitle(state, allStatesLabel);
      (state.None? ==> name == allStatesLabel) && (state.Some? ==> name == state.value)
      && AllQuestionsTitle(state, sectionTitle, allStatesLabel) == sectionTitle + ": " + name
      && DrawerState(state, allStatesLabel) == if state.None? then name else "State: " + name
  {
  }

  // ---------------------------------------------------------------------------
  // Threshold mapping and update_stacked_bar_plots
  // ---------------------------------------------------------------------------

  /** The threshold the bar plots use: none when all responses are shown,
      the default outcome otherwise. */
  function Threshold(showAllResponses: bool, defaultOutcome: string): (r: Option<string>)
    ensures r.None? <==> showAllResponses
    ensures r.Some? ==> r.value == defaultOutcome
  {
    if showAllResponses then None else Some(defaultOutcome)
  }

  /** The key of the prerendered figures. */
  datatype FigureKey = FigureKey(state: Option<string>, stratify: bool, threshold: Option<string>, decimals: int)

  /** The figures of the outputs' questions, in output order. The key is
      looked up once per output, so with no outputs nothing is looked up. */
  function LookupFigures<F>(prerendered: map<FigureKey, map<string, F>>, key: FigureKey, questions: seq<string>)
    : Result<seq<F>, AppError>
    decreases |questions|
  {
    if |questions| == 0 then Success([])
    else
      var init :- LookupFigures(prerendered, key, questions[..|questions| - 1]);
      var q := questions[|questions| - 1];
      if key !in prerendered then Failure(MissingFigureKey)
      else if q !in prerendered[key] then Failure(MissingQuestion(q))
      else Success(init + [prerendered[key][q]])
  }

  /** The lookup succeeds exactly when there is nothing to look up or the key
      and every question are present; then it gives one figure per output,
      each the key's figure for that output's question. */
  lemma {:induction false} LookupFiguresSpec<F>(prerendered: map<FigureKey, map<string, F>>, key: FigureKey, questions: seq<string>)
    ensures LookupFigures(prerendered, key, questions).Success? <==>
      questions == [] || (key in prerendered && forall q :: q in questions ==> q in prerendered[key])
    ensures LookupFigures(prerendered, key, questions).Success? ==>
      var figs := LookupFigures(prerendered, key, questions).value;
      |figs| == |questions| && forall i :: 0 <= i < |questions| ==> figs[i] == prerendered[key][questions[i]]
    decreases |questions|
  {
    if |questions| > 0 {
      var init := questions[..|questions| - 1];
      var q := questions[|questions| - 1];
      LookupFiguresSpec(prerendered, key, init);
      assert questions == init + [q];
      assert forall x :: x in questions <==> x in init || x == q;
    }
  }

  /** `update_stacked_bar_plots`: one figure appended per output. */
  method UpdateStackedBarPlots<F>(
    prerendered: map<FigureKey, map<string, F>>, decimals: int, defaultOutcome: string,
    state: Option<string>, stratify: bool, showAllResponses: bool, outputs: seq<string>)
    returns (r: Result<seq<F>, AppError>)
    ensures r == LookupFigures(prerendered, FigureKey(state, stratify, Threshold(showAllResponses, defaultOutcome), decimals), outputs)
  {
    var threshold := if showAllResponses then None else Some(defaultOutcome);
    var key := FigureKey(state, stratify, threshold, decimals);
    var figures: seq<F> := [];
    for i := 0 to |outputs|
      invariant LookupFigures(prerendered, key, outputs[..i]) == Success(figures)
    {
      assert outputs[..i + 1][..i] == outputs[..i];
      var question := outputs[i];
      if key !in prerendered {
        LookupFailsOn(prerendered, key, outputs, i + 1);
        return Failure(MissingFigureKey);
      }
      if question !in prerendered[key] {
        LookupFailsOn(prerendered, key, outputs, i + 1);
        return Failure(MissingQuestion(question));
      }
      figures := figures + [prerendered[key][question]];
    }
    assert outputs[..|outputs|] == outputs;
    return Success(figures);
  }

  /** A failure on a prefix of the outputs is the failure of the whole. */
  lemma {:induction false} LookupFailsOn<F>(prerendered: map<FigureKey, map<string, F>>, key: FigureKey, questions: seq<string>, n: nat)
    requires n <= |questions| && LookupFigures(prerendered, key, questions[..n]).Failure?
    ensures LookupFigures(prerendered, key, questions) == LookupFigures(prerendered, key, questions[..n])
    decreases |questions| - n
  {
    if n < |questions| {
      assert questions[..n + 1][..n] == questions[..n];
      LookupFailsOn(prerendered, key, questions, n + 1);
    } else {
      assert questions[..n] == questions;
    }
  }
}
