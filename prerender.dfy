/** The offline script that prerenders the bar plots of every question for
    every view the app can ask for: each state without the party split, and
    the whole sample with and without it, each under both thresholds. The
    figure builder is a parameter. */
module Prerender {
  import opened Wrappers
  import App

  /** A key of the prerendered figures: (state, stratify, threshold). */
  datatype PrerenderKey = PrerenderKey(state: Option<string>, stratify: bool, threshold: Option<string>)

  // ---------------------------------------------------------------------------
  // unique().tolist()
  // ---------------------------------------------------------------------------

  predicate Distinct<T(==)>(xs: seq<T>) {
    forall i, j :: 0 <= i < j < |xs| ==> xs[i] != xs[j]
  }

  /** The position of the first occurrence of `x`. */
  function FirstIndex<T(==)>(xs: seq<T>, x: T): (k: nat)
    requires x in xs
    ensures k < |xs| && xs[k] == x && x !in xs[..k]
  {
    if xs[0] == x then 0
    else
      var k := FirstIndex(xs[1..], x);
      assert xs[1..][..k] == xs[1..k + 1];
      assert xs[..k + 1] == [xs[0]] + xs[1..k + 1];
      k + 1
  }

  /** An occurrence with no earlier one is the first occurrence. */
  lemma FirstIndexUnique<T>(xs: seq<T>, x: T, k: nat)
    requires k < |xs| && xs[k] == x && x !in xs[..k]
    ensures FirstIndex(xs, x) == k
  {
    var f := FirstIndex(xs, x);
    assert forall i :: 0 <= i < k ==> xs[..k][i] == xs[i];
    assert forall i :: 0 <= i < f ==> xs[..f][i] == xs[i];
  }

  /** The first occurrence of a value in a prefix is its first occurrence in
      the whole sequence. */
  lemma FirstIndexPrefix<T>(xs: seq<T>, m: nat, x: T)
    requires m <= |xs| && x in xs[..m]
    ensures FirstIndex(xs, x) == FirstIndex(xs[..m], x) < m
  {
    var k := FirstIndex(xs[..m], x);
    assert xs[..m][..k] == xs[..k];
    FirstIndexUnique(xs, x, k);
  }

  /** `Series.unique().tolist()`: each value once, in order of first
      appearance. */
  function Unique(xs: seq<string>): (r: seq<string>)
    ensures Distinct(r)
    ensures forall x :: x in r <==> x in xs
    ensures forall i, j :: 0 <= i < j < |r| ==> FirstIndex(xs, r[i]) < FirstIndex(xs, r[j])
    decreases |xs|
  {
    if |xs| == 0 then []
    else
      var front := xs[..|xs| - 1];
      var init := Unique(front);
      var last := xs[|xs| - 1];
      assert xs == front + [last];
      assert forall y | y in front :: FirstIndex(xs, y) == FirstIndex(front, y) < |xs| - 1 by {
        forall y | y in front ensures FirstIndex(xs, y) == FirstIndex(front, y) < |xs| - 1 {
          FirstIndexPrefix(xs, |xs| - 1, y);
        }
      }
      if last in init then init
      else
        FirstIndexUnique(xs, last, |xs| - 1);
        init + [last]
  }

  // ---------------------------------------------------------------------------
  // make_full_set_of_barplots
  // ---------------------------------------------------------------------------

  /** `make_stacked_bar(question, "all", *key, ...)`: the figure of one
      question under one key, or the exception the builder raises. */
  function Built<F, E>(
    build: (string, string, Option<string>, bool, Option<string>) -> Result<F, E>, q: string, key: PrerenderKey)
    : Result<F, E>
  {
    build(q, "all", key.state, key.stratify, key.threshold)
  }

  /** The `i`-th question is the first whose figure raises, with `e`. */
  ghost predicate FirstFailure<F, E>(
    questions: seq<string>, build: (string, string, Option<string>, bool, Option<string>) -> Result<F, E>,
    key: PrerenderKey, i: int, e: E)
  {
    0 <= i < |questions| && Built(build, questions[i], key) == Failure(e)
    && forall j :: 0 <= j < i ==> Built(build, questions[j], key).Success?
  }

  /** The dict comprehension over `questions`, evaluated in order: the first
      exception aborts it. */
  function BuildEach<F, E>(
    questions: seq<string>, build: (string, string, Option<string>, bool, Option<string>) -> Result<F, E>,
    key: PrerenderKey)
    : (r: Result<map<string, F>, E>)
    ensures r.Success? <==> forall i :: 0 <= i < |questions| ==> Built(build, questions[i], key).Success?
    ensures r.Success? ==> forall q :: q in r.value <==> q in questions
    ensures r.Success? ==> forall q :: q in r.value ==> Built(build, q, key) == Success(r.value[q])
    ensures r.Failure? ==> exists i :: FirstFailure(questions, build, key, i, r.error)
    decreases |questions|
  {
    if |questions| == 0 then Success(map[])
    else
      var rest := questions[1..];
      assert forall i :: 0 < i < |questions| ==> questions[i] == rest[i - 1];
      match Built(build, questions[0], key)
      case Failure(e) =>
        assert FirstFailure(questions, build, key, 0, e);
        Failure(e)
      case Success(f) =>
        match BuildEach(rest, build, key)
        case Failure(e) =>
          assert exists i :: FirstFailure(questions, build, key, i, e) by {
            var i :| FirstFailure(rest, build, key, i, e);
            assert FirstFailure(questions, build, key, i + 1, e);
          }
          Failure(e)
        case Success(m) =>
          assert forall q :: q in questions <==> q == questions[0] || q in rest by {
            assert questions == [questions[0]] + rest;
          }
          Success(m[questions[0] := f])
  }

  /** `make_full_set_of_barplots`: every question's figure for one key, each
      built for the sub-question "all"; the first question whose figure
      raises, in the order of the unique questions, aborts it. */
  function FullSetOfBarplots<F, E>(
    questionColumn: seq<string>, build: (string, string, Option<string>, bool, Option<string>) -> Result<F, E>,
    key: PrerenderKey)
    : (r: Result<map<string, F>, E>)
    ensures r.Success? <==> forall q :: q in questionColumn ==> Built(build, q, key).Success?
    ensures r.Success? ==> forall q :: q in r.value <==> q in questionColumn
    ensures r.Success? ==> forall q :: q in r.value ==> Built(build, q, key) == Success(r.value[q])
    ensures r.Failure? ==> exists i :: FirstFailure(Unique(questionColumn), build, key, i, r.error)
  {
    var qs := Unique(questionColumn);
    var r := BuildEach(qs, build, key);
    assert r.Success? <==> forall q :: q in questionColumn ==> Built(build, q, key).Success? by {
      SameMembersAllSucceed(qs, questionColumn, build, key);
    }
    r
  }

  /** Every question of a column builds exactly when every question of a
      sequence with the same members does. */
  lemma SameMembersAllSucceed<F, E>(
    qs: seq<string>, column: seq<string>,
    build: (string, string, Option<string>, bool, Option<string>) -> Result<F, E>, key: PrerenderKey)
    requires forall q :: q in qs <==> q in column
    ensures (forall i :: 0 <= i < |qs| ==> Built(build, qs[i], key).Success?)
      <==> (forall q :: q in column ==> Built(build, q, key).Success?)
  {
  }

  // ---------------------------------------------------------------------------
  // make_all_figures
  // ---------------------------------------------------------------------------

  /** `UNIQUE_STATES + [None]`. */
  function Candidates(states: seq<string>): (r: seq<Option<string>>)
    ensures |r| == |states| + 1 && r[|states|] == None
    ensures forall i :: 0 <= i < |states| ==> r[i] == Some(states[i])
  {
    seq(|states|, i requires 0 <= i < |states| => Some(states[i])) + [None]
  }

  const StratifyFlags: seq<bool> := [false, true]

  function Thresholds(defaultOutcome: string): seq<Option<string>> {
    [None, Some(defaultOutcome)]
  }

  /** The keys of one state and one stratify flag, in threshold order; a
      state is never split by party. */
  function FlagKeys(state: Option<string>, flags: seq<bool>, defaultOutcome: string): seq<PrerenderKey>
    decreases |flags|
  {
    if |flags| == 0 then []
    else
      var stratify := flags[|flags| - 1];
      FlagKeys(state, flags[..|flags| - 1], defaultOutcome)
        + (if state.Some? && stratify then []
           else ThresholdKeys(state, stratify, Thresholds(defaultOutcome)))
  }

  function ThresholdKeys(state: Option<string>, stratify: bool, thresholds: seq<Option<string>>): (r: seq<PrerenderKey>)
    ensures |r| == |thresholds|
    ensures forall i :: 0 <= i < |r| ==> r[i] == PrerenderKey(state, stratify, thresholds[i])
    decreases |thresholds|
  {
    if |thresholds| == 0 then []
    else ThresholdKeys(state, stratify, thresholds[..|thresholds| - 1]) + [PrerenderKey(state, stratify, thresholds[|thresholds| - 1])]
  }

  /** The keys in the order of the three nested loops. */
  function LoopKeys(candidates: seq<Option<string>>, defaultOutcome: string): seq<PrerenderKey>
    decreases |candidates|
  {
    if |candidates| == 0 then []
    else LoopKeys(candidates[..|candidates| - 1], defaultOutcome) + FlagKeys(candidates[|candidates| - 1], StratifyFlags, defaultOutcome)
  }

  /** The keys `make_all_figures` fills, in order. */
  function PrerenderKeys(states: seq<string>, defaultOutcome: string): seq<PrerenderKey> {
    LoopKeys(Candidates(states), defaultOutcome)
  }

  /** `make_full_set_of_barplots(*key)`, as a function of the key. */
  function Plots<F, E>(
    questionColumn: seq<string>, build: (string, string, Option<string>, bool, Option<string>) -> Result<F, E>)
    : PrerenderKey -> Result<map<string, F>, E>
  {
    key => FullSetOfBarplots(questionColumn, build, key)
  }

  /** The figures hold, in order, each key with its full set of bar plots. */
  ghost predicate Rendered<M, E>(
    figures: seq<(PrerenderKey, M)>, keys: seq<PrerenderKey>, plots: PrerenderKey -> Result<M, E>)
  {
    |figures| == |keys|
    && forall i :: 0 <= i < |figures| ==> plots(keys[i]).Success? && figures[i] == (keys[i], plots(keys[i]).value)
  }

  /** The `i`-th key is the first whose full set raises, with `e`. */
  ghost predicate AbortsAt<M, E>(keys: seq<PrerenderKey>, plots: PrerenderKey -> Result<M, E>, i: int, e: E) {
    0 <= i < |keys| && plots(keys[i]) == Failure(e)
    && forall j :: 0 <= j < i ==> plots(keys[j]).Success?
  }

  /** The figures of `keys`, filled in order; the first key whose full set
      raises aborts the script with that exception. */
  function RenderAll<M, E>(keys: seq<PrerenderKey>, plots: PrerenderKey -> Result<M, E>)
    : (r: Result<seq<(PrerenderKey, M)>, E>)
    ensures r.Success? ==> |r.value| == |keys|
    decreases |keys|
  {
    if |keys| == 0 then Success([])
    else
      var n := |keys| - 1;
      match RenderAll(keys[..n], plots)
      case Failure(e) => Failure(e)
      case Success(figures) =>
        match plots(keys[n])
        case Failure(e) => Failure(e)
        case Success(m) => Success(figures + [(keys[n], m)])
  }

  /** The figures are complete exactly when every key's full set builds, and
      then each key holds its full set, in loop order. */
  lemma {:induction false} RenderAllSucceeds<M, E>(keys: seq<PrerenderKey>, plots: PrerenderKey -> Result<M, E>)
    ensures RenderAll(keys, plots).Success? <==> forall i :: 0 <= i < |keys| ==> plots(keys[i]).Success?
    ensures RenderAll(keys, plots).Success? ==> Rendered(RenderAll(keys, plots).value, keys, plots)
    decreases |keys|
  {
    if |keys| > 0 {
      var n := |keys| - 1;
      var init := keys[..n];
      RenderAllSucceeds(init, plots);
      assert forall i :: 0 <= i < n ==> keys[i] == init[i];
      var r := RenderAll(keys, plots);
      if r.Success? {
        var figures := RenderAll(init, plots).value;
        assert r.value == figures + [(keys[n], plots(keys[n]).value)];
        assert forall i :: 0 <= i < n ==> r.value[i] == figures[i];
      }
    }
  }

  /** An aborted run raises the exception of the first key whose full set
      raises. */
  lemma {:induction false} RenderAllFails<M, E>(keys: seq<PrerenderKey>, plots: PrerenderKey -> Result<M, E>)
    ensures RenderAll(keys, plots).Failure? ==> exists i :: AbortsAt(keys, plots, i, RenderAll(keys, plots).error)
    decreases |keys|
  {
    var r := RenderAll(keys, plots);
    if |keys| > 0 && r.Failure? {
      var n := |keys| - 1;
      var init := keys[..n];
      RenderAllFails(init, plots);
      RenderAllSucceeds(init, plots);
      assert forall i :: 0 <= i < n ==> keys[i] == init[i];
      var s := RenderAll(init, plots);
      if s.Failure? {
        var i :| AbortsAt(init, plots, i, s.error);
        assert AbortsAt(keys, plots, i, r.error);
      } else {
        assert AbortsAt(keys, plots, n, r.error);
      }
    }
  }

  /** Once a key has raised, later keys are never built. */
  lemma {:induction false} RenderAllAborted<M, E>(keys: seq<PrerenderKey>, more: seq<PrerenderKey>, plots: PrerenderKey -> Result<M, E>)
    requires keys <= more
    requires RenderAll(keys, plots).Failure?
    ensures RenderAll(more, plots) == RenderAll(keys, plots)
    decreases |more|
  {
    if |more| > |keys| {
      var init := more[..|more| - 1];
      assert keys <= init by {
        assert init[..|keys|] == more[..|keys|];
      }
      RenderAllAborted(keys, init, plots);
    } else {
      assert more == keys;
    }
  }

  /** One more key: its full set is appended, or its exception aborts. */
  lemma RenderAllSnoc<M, E>(keys: seq<PrerenderKey>, key: PrerenderKey, plots: PrerenderKey -> Result<M, E>)
    ensures RenderAll(keys + [key], plots) ==
      match RenderAll(keys, plots)
      case Failure(e) => Failure(e)
      case Success(figures) =>
        match plots(key)
        case Failure(e) => Failure(e)
        case Success(m) => Success(figures + [(key, m)])
  {
    assert (keys + [key])[..|keys|] == keys;
  }

  /** `make_all_figures`, for the states' column and the questions' column:
      the keys in loop order, each with its full set of bar plots, or the
      first exception a figure raises. */
  method MakeAllFigures<F, E>(
    questionColumn: seq<string>, stateColumn: seq<string>, defaultOutcome: string,
    build: (string, string, Option<string>, bool, Option<string>) -> Result<F, E>)
    returns (r: Result<seq<(PrerenderKey, map<string, F>)>, E>)
    ensures r == RenderAll(PrerenderKeys(Unique(stateColumn), defaultOutcome), Plots(questionColumn, build))
  {
    var candidates := Candidates(Unique(stateColumn));
    var figures := [];
    ghost var keys: seq<PrerenderKey> := [];
    for i := 0 to |candidates|
      invariant keys == LoopKeys(candidates[..i], defaultOutcome)
      invariant RenderAll(keys, Plots(questionColumn, build)) == Success(figures)
    {
      assert candidates[..i + 1][..i] == candidates[..i];
      var s := StateFigures(figures, keys, candidates[i], questionColumn, defaultOutcome, build);
      keys := keys + FlagKeys(candidates[i], StratifyFlags, defaultOutcome);
      if s.Failure? {
        LoopKeysPrefix(candidates, i + 1, defaultOutcome);
        RenderAllAborted(keys, LoopKeys(candidates, defaultOutcome), Plots(questionColumn, build));
        return s;
      }
      figures := s.value;
    }
    assert candidates[..|candidates|] == candidates;
    r := Success(figures);
  }

  /** The two inner loops of `make_all_figures` for one state: both stratify
      flags, skipping the party split of a state. */
  method StateFigures<F, E>(
    figures: seq<(PrerenderKey, map<string, F>)>, ghost keys: seq<PrerenderKey>, state: Option<string>,
    questionColumn: seq<string>, defaultOutcome: string,
    build: (string, string, Option<string>, bool, Option<string>) -> Result<F, E>)
    returns (r: Result<seq<(PrerenderKey, map<string, F>)>, E>)
    requires RenderAll(keys, Plots(questionColumn, build)) == Success(figures)
    ensures r == RenderAll(keys + FlagKeys(state, StratifyFlags, defaultOutcome), Plots(questionColumn, build))
  {
    var acc := figures;
    ghost var done := keys;
    assert keys + FlagKeys(state, StratifyFlags[..0], defaultOutcome) == keys;
    for j := 0 to |StratifyFlags|
      invariant done == keys + FlagKeys(state, StratifyFlags[..j], defaultOutcome)
      invariant RenderAll(done, Plots(questionColumn, build)) == Success(acc)
    {
      FlagKeysStep(keys, state, j, defaultOutcome);
      var stratify := StratifyFlags[j];
      if state.Some? && stratify {
        assert done + [] == done;
        continue;
      }
      var s := ThresholdFigures(acc, done, state, stratify, questionColumn, defaultOutcome, build);
      done := done + ThresholdKeys(state, stratify, Thresholds(defaultOutcome));
      if s.Failure? {
        FlagKeysPrefix(keys, state, StratifyFlags, j + 1, defaultOutcome);
        RenderAllAborted(done, keys + FlagKeys(state, StratifyFlags, defaultOutcome), Plots(questionColumn, build));
        return s;
      }
      acc := s.value;
    }
    assert StratifyFlags[..|StratifyFlags|] == StratifyFlags;
    r := Success(acc);
  }

  /** The innermost loop: one figure set per threshold. */
  method ThresholdFigures<F, E>(
    figures: seq<(PrerenderKey, map<string, F>)>, ghost keys: seq<PrerenderKey>, state: Option<string>, stratify: bool,
    questionColumn: seq<string>, defaultOutcome: string,
    build: (string, string, Option<string>, bool, Option<string>) -> Result<F, E>)
    returns (r: Result<seq<(PrerenderKey, map<string, F>)>, E>)
    requires RenderAll(keys, Plots(questionColumn, build)) == Success(figures)
    ensures r == RenderAll(keys + ThresholdKeys(state, stratify, Thresholds(defaultOutcome)), Plots(questionColumn, build))
  {
    var acc := figures;
    var thresholds := Thresholds(defaultOutcome);
    assert keys + ThresholdKeys(state, stratify, thresholds[..0]) == keys;
    for t := 0 to |thresholds|
      invariant RenderAll(keys + ThresholdKeys(state, stratify, thresholds[..t]), Plots(questionColumn, build)) == Success(acc)
    {
      var key := PrerenderKey(state, stratify, thresholds[t]);
      ThresholdKeysStep(keys, state, stratify, thresholds, t);
      RenderAllSnoc(keys + ThresholdKeys(state, stratify, thresholds[..t]), key, Plots(questionColumn, build));
      var plots := FullSetOfBarplots(questionColumn, build, key);
      assert Plots(questionColumn, build)(key) == plots;
      if plots.Failure? {
        ThresholdKeysPrefix(keys, state, stratify, thresholds, t + 1);
        RenderAllAborted(keys + ThresholdKeys(state, stratify, thresholds[..t + 1]),
                         keys + ThresholdKeys(state, stratify, thresholds), Plots(questionColumn, build));
        return Failure(plots.error);
      }
      acc := acc + [(key, plots.value)];
    }
    assert thresholds[..|thresholds|] == thresholds;
    r := Success(acc);
  }

  lemma FlagKeysStep(keys: seq<PrerenderKey>, state: Option<string>, j: nat, defaultOutcome: string)
    requires j < |StratifyFlags|
    ensures keys + FlagKeys(state, StratifyFlags[..j + 1], defaultOutcome)
      == keys + FlagKeys(state, StratifyFlags[..j], defaultOutcome)
         + (if state.Some? && StratifyFlags[j] then []
            else ThresholdKeys(state, StratifyFlags[j], Thresholds(defaultOutcome)))
  {
    assert StratifyFlags[..j + 1][..j] == StratifyFlags[..j];
  }

  lemma ThresholdKeysStep(keys: seq<PrerenderKey>, state: Option<string>, stratify: bool, thresholds: seq<Option<string>>, t: nat)
    requires t < |thresholds|
    ensures keys + ThresholdKeys(state, stratify, thresholds[..t + 1])
      == keys + ThresholdKeys(state, stratify, thresholds[..t]) + [PrerenderKey(state, stratify, thresholds[t])]
  {
    assert thresholds[..t + 1][..t] == thresholds[..t];
  }

  /** The keys of fewer thresholds come first. */
  lemma ThresholdKeysPrefix(keys: seq<PrerenderKey>, state: Option<string>, stratify: bool, thresholds: seq<Option<string>>, t: nat)
    requires t <= |thresholds|
    ensures keys + ThresholdKeys(state, stratify, thresholds[..t]) <= keys + ThresholdKeys(state, stratify, thresholds)
  {
    var a := ThresholdKeys(state, stratify, thresholds[..t]);
    var b := ThresholdKeys(state, stratify, thresholds);
    assert b[..t] == a;
    assert (keys + b)[..|keys + a|] == keys + a;
  }

  /** The keys of fewer stratify flags come first. */
  lemma {:induction false} FlagKeysPrefix(keys: seq<PrerenderKey>, state: Option<string>, flags: seq<bool>, j: nat, defaultOutcome: string)
    requires j <= |flags|
    ensures keys + FlagKeys(state, flags[..j], defaultOutcome) <= keys + FlagKeys(state, flags, defaultOutcome)
    decreases |flags|
  {
    if j < |flags| {
      var init := flags[..|flags| - 1];
      assert init[..j] == flags[..j];
      FlagKeysPrefix(keys, state, init, j, defaultOutcome);
      var a := keys + FlagKeys(state, init, defaultOutcome);
      var b := keys + FlagKeys(state, flags, defaultOutcome);
      assert b[..|a|] == a;
    } else {
      assert flags[..j] == flags;
    }
  }

  /** The keys of fewer candidates come first. */
  lemma {:induction false} LoopKeysPrefix(candidates: seq<Option<string>>, i: nat, defaultOutcome: string)
    requires i <= |candidates|
    ensures LoopKeys(candidates[..i], defaultOutcome) <= LoopKeys(candidates, defaultOutcome)
    decreases |candidates|
  {
    if i < |candidates| {
      var init := candidates[..|candidates| - 1];
      assert init[..i] == candidates[..i];
      LoopKeysPrefix(init, i, defaultOutcome);
      var a := LoopKeys(init, defaultOutcome);
      assert LoopKeys(candidates, defaultOutcome)[..|a|] == a;
    } else {
      assert candidates[..i] == candidates;
    }
  }

  // ---------------------------------------------------------------------------
  // Properties of the keys
  // ---------------------------------------------------------------------------

  /** The keys of one candidate: two for a state, four for the whole sample. */
  lemma CandidateKeys(state: Option<string>, defaultOutcome: string)
    ensures var t := Thresholds(defaultOutcome);
      FlagKeys(state, StratifyFlags, defaultOutcome)
        == if state.Some? then ThresholdKeys(state, false, t)
           else ThresholdKeys(state, false, t) + ThresholdKeys(state, true, t)
  {
    assert StratifyFlags[..1] == [false];
    assert [false][..0] == [];
  }

  /** A key belongs to the loops exactly when its state is a candidate, it
      does not split a state by party, and its threshold is one of the two. */
  lemma {:induction false} LoopKeysMembership(candidates: seq<Option<string>>, defaultOutcome: string, k: PrerenderKey)
    ensures k in LoopKeys(candidates, defaultOutcome) <==>
      k.state in candidates && !(k.state.Some? && k.stratify) && k.threshold in Thresholds(defaultOutcome)
    decreases |candidates|
  {
    if |candidates| > 0 {
      var init := candidates[..|candidates| - 1];
      var last := candidates[|candidates| - 1];
      LoopKeysMembership(init, defaultOutcome, k);
      FlagKeysMembership(last, defaultOutcome, k);
      LastSplit(candidates, k.state);
    }
  }

  /** The keys of one candidate are those of its state, without the party
      split of a state, under either threshold. */
  lemma FlagKeysMembership(state: Option<string>, defaultOutcome: string, k: PrerenderKey)
    ensures k in FlagKeys(state, StratifyFlags, defaultOutcome) <==>
      k.state == state && !(k.state.Some? && k.stratify) && k.threshold in Thresholds(defaultOutcome)
  {
    CandidateKeys(state, defaultOutcome);
    var t := Thresholds(defaultOutcome);
    assert k in ThresholdKeys(state, false, t) <==> k.state == state && !k.stratify && k.threshold in t;
    assert k in ThresholdKeys(state, true, t) <==> k.state == state && k.stratify && k.threshold in t;
  }

  lemma LastSplit<T>(s: seq<T>, x: T)
    requires |s| > 0
    ensures x in s <==> x in s[..|s| - 1] || x == s[|s| - 1]
  {
    assert s == s[..|s| - 1] + [s[|s| - 1]];
  }

  /** No key pairs a state with the party split; every state and the whole
      sample appear without it under both thresholds, and only the whole
      sample also appears with it. */
  lemma PrerenderKeysMembership(states: seq<string>, defaultOutcome: string, k: PrerenderKey)
    ensures k in PrerenderKeys(states, defaultOutcome) <==>
      (k.state.None? || k.state.value in states) && !(k.state.Some? && k.stratify)
      && (k.threshold.None? || k.threshold == Some(defaultOutcome))
  {
    var c := Candidates(states);
    LoopKeysMembership(c, defaultOutcome, k);
    if k.state.Some? && k.state.value in states {
      var i :| 0 <= i < |states| && states[i] == k.state.value;
      assert c[i] == k.state;
    }
  }

  /** The loops make two keys per state. */
  lemma {:induction false} LoopKeysCountStates(candidates: seq<Option<string>>, defaultOutcome: string)
    requires forall i :: 0 <= i < |candidates| ==> candidates[i].Some?
    ensures |LoopKeys(candidates, defaultOutcome)| == 2 * |candidates|
    decreases |candidates|
  {
    if |candidates| > 0 {
      LoopKeysCountStates(candidates[..|candidates| - 1], defaultOutcome);
      CandidateKeys(candidates[|candidates| - 1], defaultOutcome);
    }
  }

  /** For the states of the table there are 2 keys per state and 4 for the
      whole sample. */
  lemma PrerenderKeysCount(states: seq<string>, defaultOutcome: string)
    ensures |PrerenderKeys(states, defaultOutcome)| == 2 * |states| + 4
  {
    var c := Candidates(states);
    var init := c[..|states|];
    LoopKeysCountStates(init, defaultOutcome);
    CandidateKeys(None, defaultOutcome);
    assert LoopKeys(c, defaultOutcome) == LoopKeys(init, defaultOutcome) + FlagKeys(None, StratifyFlags, defaultOutcome);
  }

  /** Over distinct states the keys are distinct, so the dict holds one entry
      per key. */
  lemma {:induction false} LoopKeysDistinct(candidates: seq<Option<string>>, defaultOutcome: string)
    requires Distinct(candidates)
    ensures Distinct(LoopKeys(candidates, defaultOutcome))
    decreases |candidates|
  {
    if |candidates| > 0 {
      var init := candidates[..|candidates| - 1];
      var last := candidates[|candidates| - 1];
      LoopKeysDistinct(init, defaultOutcome);
      var a := LoopKeys(init, defaultOutcome);
      var b := FlagKeys(last, StratifyFlags, defaultOutcome);
      FlagKeysDistinct(last, defaultOutcome);
      forall x | x in a ensures x !in b {
        LoopKeysMembership(init, defaultOutcome, x);
        FlagKeysMembership(last, defaultOutcome, x);
      }
      ConcatDistinct(a, b);
    }
  }

  lemma FlagKeysDistinct(state: Option<string>, defaultOutcome: string)
    ensures Distinct(FlagKeys(state, StratifyFlags, defaultOutcome))
  {
    CandidateKeys(state, defaultOutcome);
    assert None != Some(defaultOutcome);
  }

  lemma ConcatDistinct<T>(a: seq<T>, b: seq<T>)
    requires Distinct(a) && Distinct(b)
    requires forall x :: x in a ==> x !in b
    ensures Distinct(a + b)
  {
    forall i, j | 0 <= i < j < |a + b| ensures (a + b)[i] != (a + b)[j] {
      if i < |a| && j >= |a| {
        assert (a + b)[i] in a && (a + b)[j] == b[j - |a|];
      }
    }
  }

  /** The keys of the deduplicated states are distinct and there are
      2·|states| + 4 of them. */
  lemma PrerenderKeysDistinct(stateColumn: seq<string>, defaultOutcome: string)
    ensures Distinct(PrerenderKeys(Unique(stateColumn), defaultOutcome))
    ensures |PrerenderKeys(Unique(stateColumn), defaultOutcome)| == 2 * |Unique(stateColumn)| + 4
  {
    var states := Unique(stateColumn);
    var c := Candidates(states);
    assert Distinct(c);
    LoopKeysDistinct(c, defaultOutcome);
    assert PrerenderKeys(states, defaultOutcome) == LoopKeys(c, defaultOutcome);
    PrerenderKeysCount(states, defaultOutcome);
  }

  /** Every view the app can reach has been prerendered: the app's lookup
      key, less its number of decimals, is a prerendered key whenever the
      selected state is one of the states, since a reachable view never
      splits a state by party. */
  lemma AppViewsPrerendered(states: seq<string>, defaultOutcome: string, evs: seq<App.UiEvent>, showAllResponses: bool)
    requires var ui := App.Steps(App.Initial, evs); ui.state.None? || ui.state.value in states
    ensures var ui := App.Steps(App.Initial, evs);
      PrerenderKey(ui.state, ui.switchChecked, App.Threshold(showAllResponses, defaultOutcome))
        in PrerenderKeys(states, defaultOutcome)
  {
    var ui := App.Steps(App.Initial, evs);
    App.ReachableCoherent(evs);
    PrerenderKeysMembership(states, defaultOutcome,
      PrerenderKey(ui.state, ui.switchChecked, App.Threshold(showAllResponses, defaultOutcome)));
  }
}
