/** The dropdown options of the app: one option per state, the sub-questions
    grouped by question, and the decoding of a sub-question option's value
    `"{question}_{sub_question}"` back into its two parts. */
module Utility {
  import opened Wrappers
  import opened Text
  import opened Seqs
  import opened SurveyData

  /** A dropdown item: its `label` (a reserved word here) is `caption`. */
  datatype SelectItem = SelectItem(caption: string, value: string)

  /** A labelled group of dropdown items. */
  datatype SelectGroup = SelectGroup(group: string, items: seq<SelectItem>)

  datatype UtilityError =
    | MissingGroup(question: string)  // `get_group` raises KeyError
    | UnpackMismatch(parts: nat)      // tuple unpacking of a split without exactly two parts

  const Underscore: char := '_'

  // ---------------------------------------------------------------------------
  // get_state_options
  // ---------------------------------------------------------------------------

  /** `get_state_options`: one item per row of the sample sizes table, in row
      order, labelled and valued with the state. */
  function StateOptions(sizes: seq<SampleSizeRow>): (r: seq<SelectItem>)
    ensures |r| == |sizes|
    ensures forall i :: 0 <= i < |r| ==> r[i].caption == r[i].value == sizes[i].state
    decreases |sizes|
  {
    if |sizes| == 0 then []
    else StateOptions(sizes[..|sizes| - 1]) + [SelectItem(sizes[|sizes| - 1].state, sizes[|sizes| - 1].state)]
  }

  // ---------------------------------------------------------------------------
  // extract_question_subquestion
  // ---------------------------------------------------------------------------

  /** The value of the option of a sub-question. */
  function OptionValue(question: string, subQuestion: string): string {
    question + [Underscore] + subQuestion
  }

  /** `question, sub_question = value.split("_")`. */
  function ExtractQuestionSubquestion(value: string): (r: Result<(string, string), UtilityError>)
    ensures r.Failure? <==> |Split(value, [Underscore])| != 2
    ensures r.Success? ==> OptionValue(r.value.0, r.value.1) == value
    ensures r.Success? ==> Underscore !in r.value.0 && Underscore !in r.value.1
  {
    var parts := Split(value, [Underscore]);
    if |parts| != 2 then Failure(UnpackMismatch(|parts|))
    else
      JoinSplit(value, [Underscore]);
      SplitPartsSeparated(value, [Underscore]);
      assert parts[0] in parts && parts[1] in parts;
      assert parts[1..] == [parts[1]];
      ContainsUnderscore(parts[0]);
      ContainsUnderscore(parts[1]);
      Success((parts[0], parts[1]))
  }

  /** `"_" in s` is the same as the character occurring in `s`. */
  lemma ContainsUnderscore(s: string)
    ensures Contains(s, [Underscore]) <==> Underscore in s
  {
    if Underscore in s {
      var j :| 0 <= j < |s| && s[j] == Underscore;
      assert s[j..j + 1] == [Underscore];
      OccursContains(s, [Underscore], j);
    } else {
      NoCharNoOccurrence(s, Underscore);
    }
  }

  /** Decoding undoes the encoding whenever neither part holds "_". */
  lemma ExtractRoundTrip(question: string, subQuestion: string)
    requires Underscore !in question && Underscore !in subQuestion
    ensures ExtractQuestionSubquestion(OptionValue(question, subQuestion)) == Success((question, subQuestion))
  {
    SplitAtFirstChar(question, Underscore, subQuestion);
    NoCharNoOccurrence(subQuestion, Underscore);
    SplitWithoutSeparator(subQuestion, [Underscore]);
  }

  /** A value with no "_" cannot be unpacked. */
  lemma ExtractWithoutUnderscore(value: string)
    requires Underscore !in value
    ensures ExtractQuestionSubquestion(value) == Failure(UnpackMismatch(1))
  {
    NoCharNoOccurrence(value, Underscore);
    SplitWithoutSeparator(value, [Underscore]);
  }

  /** A value with two "_" or more cannot be unpacked either. */
  lemma ExtractTwoUnderscores(a: string, b: string, c: string)
    requires Underscore !in a && Underscore !in b
    ensures ExtractQuestionSubquestion(a + [Underscore] + b + [Underscore] + c).Failure?
  {
    var tail := b + [Underscore] + c;
    assert a + [Underscore] + b + [Underscore] + c == a + [Underscore] + tail;
    SplitAtFirstChar(a, Underscore, tail);
    SplitAtFirstChar(b, Underscore, c);
  }

  // ---------------------------------------------------------------------------
  // get_question_options
  // ---------------------------------------------------------------------------

  /** `subquestions_grouped.get_group(question)`: the sub-questions of a
      question, in dictionary order. */
  function GroupOf(subs: seq<SubquestionEntry>, question: string): seq<SubquestionEntry> {
    Filter(subs, (e: SubquestionEntry) => e.question == question)
  }

  /** The items of a question with several sub-questions. */
  function Items(question: string, group: seq<SubquestionEntry>): (r: seq<SelectItem>)
    ensures |r| == |group|
    ensures forall k :: 0 <= k < |r| ==> r[k] == SelectItem(group[k].fullText, OptionValue(question, group[k].subQuestion))
    decreases |group|
  {
    if |group| == 0 then []
    else
      var last := group[|group| - 1];
      Items(question, group[..|group| - 1]) + [SelectItem(last.fullText, OptionValue(question, last.subQuestion))]
  }

  /** The group of one row of the question dictionary. */
  function QuestionGroup(entry: QuestionEntry, subs: seq<SubquestionEntry>): Result<SelectGroup, UtilityError> {
    var group := GroupOf(subs, entry.question);
    if |group| == 0 then Failure(MissingGroup(entry.question))
    else if |group| > 1 then Success(SelectGroup(entry.fullText, Items(entry.question, group)))
    else Success(SelectGroup("", [SelectItem(entry.fullText, OptionValue(entry.question, "1"))]))
  }

  /** The groups of the question dictionary's rows, in order; the first
      question without sub-questions stops it. */
  function QuestionOptions(questions: seq<QuestionEntry>, subs: seq<SubquestionEntry>): Result<seq<SelectGroup>, UtilityError>
    decreases |questions|
  {
    if |questions| == 0 then Success([])
    else
      var init :- QuestionOptions(questions[..|questions| - 1], subs);
      var g :- QuestionGroup(questions[|questions| - 1], subs);
      Success(init + [g])
  }

  /** Every question of the dictionary has sub-questions. */
  predicate AllGrouped(questions: seq<QuestionEntry>, subs: seq<SubquestionEntry>) {
    forall i :: 0 <= i < |questions| ==> GroupOf(subs, questions[i].question) != []
  }

  /** `get_question_options`: one group per question, each item appended in
      turn. */
  method GetQuestionOptions(questions: seq<QuestionEntry>, subs: seq<SubquestionEntry>)
    returns (r: Result<seq<SelectGroup>, UtilityError>)
    ensures r == QuestionOptions(questions, subs)
  {
    var data: seq<SelectGroup> := [];
    for i := 0 to |questions|
      invariant QuestionOptions(questions[..i], subs) == Success(data)
    {
      assert questions[..i + 1][..i] == questions[..i];
      var question := questions[i].question;
      var questionLabel := questions[i].fullText;
      var group := GroupOf(subs, question);
      if |group| == 0 {
        assert QuestionOptions(questions[..i + 1], subs) == Failure(MissingGroup(question));
        PrefixFailure(questions, subs, i + 1);
        return Failure(MissingGroup(question));
      }
      var dataGroup: SelectGroup;
      if |group| > 1 {
        dataGroup := SelectGroup(questionLabel, []);
        for k := 0 to |group|
          invariant dataGroup == SelectGroup(questionLabel, Items(question, group[..k]))
        {
          assert group[..k + 1][..k] == group[..k];
          dataGroup := dataGroup.(items := dataGroup.items + [SelectItem(group[k].fullText, OptionValue(question, group[k].subQuestion))]);
        }
        assert group[..|group|] == group;
      } else {
        dataGroup := SelectGroup("", [SelectItem(questionLabel, OptionValue(question, "1"))]);
      }
      data := data + [dataGroup];
    }
    assert questions[..|questions|] == questions;
    return Success(data);
  }

  /** Once a prefix fails, the whole dictionary fails the same way. */
  lemma {:induction false} PrefixFailure(questions: seq<QuestionEntry>, subs: seq<SubquestionEntry>, n: nat)
    requires n <= |questions| && QuestionOptions(questions[..n], subs).Failure?
    ensures QuestionOptions(questions, subs) == QuestionOptions(questions[..n], subs)
    decreases |questions| - n
  {
    if n < |questions| {
      assert questions[..n + 1][..n] == questions[..n];
      PrefixFailure(questions, subs, n + 1);
    } else {
      assert questions[..n] == questions;
    }
  }

  /** The options fail exactly when a question of the dictionary has no
      sub-question; otherwise there is one group per question, in order. */
  lemma {:induction false} QuestionOptionsSpec(questions: seq<QuestionEntry>, subs: seq<SubquestionEntry>)
    ensures QuestionOptions(questions, subs).Success? <==> AllGrouped(questions, subs)
    ensures QuestionOptions(questions, subs).Success? ==>
      |QuestionOptions(questions, subs).value| == |questions|
      && forall i :: 0 <= i < |questions| ==>
        QuestionOptions(questions, subs).value[i] == QuestionGroup(questions[i], subs).value
    decreases |questions|
  {
    if |questions| > 0 {
      var init := questions[..|questions| - 1];
      QuestionOptionsSpec(init, subs);
      assert AllGrouped(questions, subs) <==>
        AllGrouped(init, subs) && GroupOf(subs, questions[|questions| - 1].question) != [] by {
        if AllGrouped(init, subs) && GroupOf(subs, questions[|questions| - 1].question) != [] {
          forall i | 0 <= i < |questions| ensures GroupOf(subs, questions[i].question) != [] {
            if i < |init| {
              assert questions[i] == init[i];
            }
          }
        }
        if AllGrouped(questions, subs) {
          forall i | 0 <= i < |init| ensures GroupOf(subs, init[i].question) != [] {
            assert init[i] == questions[i];
          }
        }
      }
    }
  }

  /** The shape of a question's group: several sub-questions give a group
      labelled with the question's text and one item per sub-question, in
      order, each valued `"{question}_{sub_question}"`; a single one gives an
      unlabelled group with one item valued `"{question}_1"` and labelled
      with the question's text. */
  lemma QuestionGroupShape(entry: QuestionEntry, subs: seq<SubquestionEntry>)
    ensures var group := GroupOf(subs, entry.question);
      QuestionGroup(entry, subs).Failure? <==> group == []
    ensures var group := GroupOf(subs, entry.question);
      |group| > 1 ==>
        var g := QuestionGroup(entry, subs).value;
        g.group == entry.fullText && |g.items| == |group|
        && forall k :: 0 <= k < |group| ==>
          g.items[k].caption == group[k].fullText
          && group[k].question == entry.question
          && g.items[k].value == OptionValue(entry.question, group[k].subQuestion)
    ensures var group := GroupOf(subs, entry.question);
      |group| == 1 ==>
        QuestionGroup(entry, subs).value == SelectGroup("", [SelectItem(entry.fullText, OptionValue(entry.question, "1"))])
  {
    var group := GroupOf(subs, entry.question);
    FilterMembershipAll(subs, (e: SubquestionEntry) => e.question == entry.question);
    assert forall k :: 0 <= k < |group| ==> group[k] in group;
  }

  /** Every option value decodes back to its own question, and to a
      sub-question of the dictionary or "1", as long as no identifier holds
      "_". */
  lemma OptionsDecode(questions: seq<QuestionEntry>, subs: seq<SubquestionEntry>, i: nat, k: nat)
    requires forall e :: e in questions ==> Underscore !in e.question
    requires forall e :: e in subs ==> Underscore !in e.subQuestion
    requires QuestionOptions(questions, subs).Success?
    requires i < |questions| && i < |QuestionOptions(questions, subs).value|
    requires k < |QuestionOptions(questions, subs).value[i].items|
    ensures var d := ExtractQuestionSubquestion(QuestionOptions(questions, subs).value[i].items[k].value);
      d.Success? && d.value.0 == questions[i].question
      && (d.value.1 == "1" || exists e :: e in subs && e.question == d.value.0 && e.subQuestion == d.value.1)
  {
    QuestionOptionsSpec(questions, subs);
    var entry := questions[i];
    var group := GroupOf(subs, entry.question);
    QuestionGroupShape(entry, subs);
    FilterMembershipAll(subs, (e: SubquestionEntry) => e.question == entry.question);
    if |group| > 1 {
      assert group[k] in subs;
      ExtractRoundTrip(entry.question, group[k].subQuestion);
    } else {
      ExtractRoundTrip(entry.question, "1");
    }
  }
}
