/** The questionnaire scoring loop of the user page, extracted as pure
    functions: the strict variant of app_u.py and the skipping variant of
    app2.py. */
module Scoring {
  import opened Results
  import opened Seqs

  /** One row of the options table as the user page reads it; `caption` is the
      `label` column (`label` is a reserved word in Dafny). */
  datatype OptionRow = OptionRow(id: int, caption: string, weight: int)

  /** A question as the loop sees it: its text, its options in storage order,
      and the label the respondent picked on the radio control. */
  datatype AnsweredQuestion = AnsweredQuestion(text: string, options: seq<OptionRow>, selected: string)

  /** What the loop accumulates: the running score and the answers mapping
      from question text to selected label. */
  datatype Tally = Tally(score: int, answers: map<string, string>)

  /** Python's `next` on a generator with no match raises StopIteration,
      which ends the page script; the question whose lookup failed is kept. */
  datatype ScoreError = NoMatchingOption(question: string)

  /** Some option of `q` carries the selected label. */
  predicate Answerable(q: AnsweredQuestion) {
    exists i :: 0 <= i < |q.options| && q.options[i].caption == q.selected
  }

  predicate AllAnswerable(qs: seq<AnsweredQuestion>) {
    forall i :: 0 <= i < |qs| ==> Answerable(qs[i])
  }

  /** The option the weight lookup settles on: the first one whose label
      equals the selection, so a duplicated label resolves to its first copy. */
  function SelectedIndex(q: AnsweredQuestion): (r: Option<nat>)
    ensures r.Some? <==> Answerable(q)
    ensures r.Some? ==> r.value < |q.options| && q.options[r.value].caption == q.selected
    ensures r.Some? ==> forall j :: 0 <= j < r.value ==> q.options[j].caption != q.selected
  {
    FirstIndex(q.options, (o: OptionRow) => o.caption == q.selected)
  }

  /** The weight a question contributes once its selection resolves. */
  function SelectedWeight(q: AnsweredQuestion): int
    requires Answerable(q)
  {
    q.options[SelectedIndex(q).value].weight
  }

  /** Reference definition of the score: the sum over the questions of each
      selected option's weight. */
  function SumSelected(qs: seq<AnsweredQuestion>): int
    requires AllAnswerable(qs)
    decreases |qs|
  {
    if |qs| == 0 then 0
    else
      assert forall i :: 0 <= i < |qs| - 1 ==> qs[1..][i] == qs[i + 1];
      SelectedWeight(qs[0]) + SumSelected(qs[1..])
  }

  /** No later question has the same text as question i. */
  predicate LastWithText(qs: seq<AnsweredQuestion>, i: int)
    requires 0 <= i < |qs|
  {
    forall j :: i < j < |qs| ==> qs[j].text != qs[i].text
  }

  /** The texts of the questions in a run. */
  function Texts(qs: seq<AnsweredQuestion>): set<string> {
    set i | 0 <= i < |qs| :: qs[i].text
  }

  /** `answers` has a key for every question text and maps each text to the
      selection made on the last question carrying that text. */
  predicate RecordsLastSelections(qs: seq<AnsweredQuestion>, answers: map<string, string>) {
    && answers.Keys == Texts(qs)
    && forall i :: 0 <= i < |qs| && LastWithText(qs, i) ==> answers[qs[i].text] == qs[i].selected
  }

  /** The score is additive over consecutive runs of questions. */
  lemma {:induction false} SumSelectedConcat(a: seq<AnsweredQuestion>, b: seq<AnsweredQuestion>)
    requires AllAnswerable(a) && AllAnswerable(b)
    ensures AllAnswerable(a + b)
    ensures SumSelected(a + b) == SumSelected(a) + SumSelected(b)
    decreases |a|
  {
    assert forall i :: 0 <= i < |a + b| ==> (a + b)[i] == if i < |a| then a[i] else b[i - |a|];
    if |a| == 0 {
      assert a + b == b;
    } else {
      assert (a + b)[1..] == a[1..] + b;
      assert forall i :: 0 <= i < |a| - 1 ==> a[1..][i] == a[i + 1];
      SumSelectedConcat(a[1..], b);
    }
  }

  /** The score of a non-empty run is the score without its last question
      plus that question's weight. */
  lemma {:induction false} SumSelectedLast(qs: seq<AnsweredQuestion>)
    requires |qs| > 0 && AllAnswerable(qs)
    ensures AllAnswerable(qs[..|qs| - 1])
    ensures SumSelected(qs) == SumSelected(qs[..|qs| - 1]) + SelectedWeight(qs[|qs| - 1])
    decreases |qs|
  {
    var p, q := qs[..|qs| - 1], qs[|qs| - 1];
    assert forall i :: 0 <= i < |p| ==> p[i] == qs[i];
    assert AllAnswerable([q]);
    assert [q][1..] == [];
    SumSelectedConcat(p, [q]);
    assert p + [q] == qs;
  }

  /** Appending one question to the loop's input extends its answers the way
      `answers[q_text] = selected_option` does. */
  lemma {:induction false} RecordsLastSelectionsStep(qs: seq<AnsweredQuestion>, answers: map<string, string>)
    requires |qs| > 0 && RecordsLastSelections(qs[..|qs| - 1], answers)
    ensures RecordsLastSelections(qs, answers[qs[|qs| - 1].text := qs[|qs| - 1].selected])
  {
    var p, q := qs[..|qs| - 1], qs[|qs| - 1];
    var a := answers[q.text := q.selected];
    TextsStep(qs);
    forall i | 0 <= i < |qs| && LastWithText(qs, i)
      ensures a[qs[i].text] == qs[i].selected
    {
      if i < |p| {
        assert qs[i] == p[i];
        assert qs[|p|].text != qs[i].text;
        assert LastWithText(p, i) by {
          forall j | i < j < |p| ensures p[j].text != p[i].text {
            assert p[j] == qs[j];
          }
        }
      }
    }
  }

  /** The texts of a non-empty run are those of its prefix plus the last one. */
  lemma TextsStep(qs: seq<AnsweredQuestion>)
    requires |qs| > 0
    ensures Texts(qs) == Texts(qs[..|qs| - 1]) + {qs[|qs| - 1].text}
  {
    var p := qs[..|qs| - 1];
    assert forall i :: 0 <= i < |p| ==> qs[i] == p[i];
    var before := set i | 0 <= i < |p| :: p[i].text;
    var after := set i | 0 <= i < |qs| :: qs[i].text;
    forall x | x in before ensures x in after {
      var i :| 0 <= i < |p| && p[i].text == x;
      assert qs[i].text == x;
    }
    assert qs[|p|].text in after;
  }

  /** One pass of the loop body: once the loop has stopped it stays stopped;
      otherwise the question's selected weight is added to the score and its
      selection stored under its text, or the lookup raises. */
  function Step(acc: Result<Tally, ScoreError>, q: AnsweredQuestion): Result<Tally, ScoreError> {
    match acc
    case Err(e) => Err(e)
    case Ok(t) =>
      match SelectedIndex(q)
      case None => Err(NoMatchingOption(q.text))
      case Some(k) => Ok(Tally(t.score + q.options[k].weight, t.answers[q.text := q.selected]))
  }

  /** The loop of app_u.py: every question adds the weight of the first
      option whose label equals the selection and records the selection under
      the question's text. */
  function TallyStrict(qs: seq<AnsweredQuestion>): Result<Tally, ScoreError>
    decreases |qs|
  {
    if |qs| == 0 then Ok(Tally(0, map[]))
    else Step(TallyStrict(qs[..|qs| - 1]), qs[|qs| - 1])
  }

  /** What app_u.py's loop computes. It completes exactly when every
      selection matches an option; then the score is the sum of the selected
      weights and the answers map each question text to the selection made on
      the last question with that text. Otherwise it stops at the first
      unmatched question, as any question without options is. */
  lemma {:induction false} TallyStrictMeaning(qs: seq<AnsweredQuestion>)
    ensures TallyStrict(qs).Ok? <==> AllAnswerable(qs)
    ensures TallyStrict(qs).Err? ==>
              exists i :: 0 <= i < |qs| && !Answerable(qs[i]) && AllAnswerable(qs[..i])
                          && TallyStrict(qs).error == NoMatchingOption(qs[i].text)
    ensures (exists i :: 0 <= i < |qs| && |qs[i].options| == 0) ==> TallyStrict(qs).Err?
    ensures TallyStrict(qs).Ok? ==> TallyStrict(qs).value.score == SumSelected(qs)
    ensures TallyStrict(qs).Ok? ==> RecordsLastSelections(qs, TallyStrict(qs).value.answers)
  {
    TallyStrictOutcome(qs);
    TallyStrictScore(qs);
    TallyStrictAnswers(qs);
  }

  lemma {:induction false} TallyStrictOutcome(qs: seq<AnsweredQuestion>)
    ensures TallyStrict(qs).Ok? <==> AllAnswerable(qs)
    ensures TallyStrict(qs).Err? ==>
              exists i :: 0 <= i < |qs| && !Answerable(qs[i]) && AllAnswerable(qs[..i])
                          && TallyStrict(qs).error == NoMatchingOption(qs[i].text)
    decreases |qs|
  {
    if |qs| > 0 {
      var p := qs[..|qs| - 1];
      var q := qs[|qs| - 1];
      TallyStrictOutcome(p);
      assert forall i :: 0 <= i < |p| ==> qs[i] == p[i];
      if TallyStrict(p).Err? {
        var i :| 0 <= i < |p| && !Answerable(p[i]) && AllAnswerable(p[..i])
                 && TallyStrict(p).error == NoMatchingOption(p[i].text);
        assert qs[..i] == p[..i];
      } else {
        assert qs[..|p|] == p;
      }
    }
  }

  lemma {:induction false} TallyStrictScore(qs: seq<AnsweredQuestion>)
    ensures TallyStrict(qs).Ok? ==> AllAnswerable(qs) && TallyStrict(qs).value.score == SumSelected(qs)
    decreases |qs|
  {
    TallyStrictOutcome(qs);
    if |qs| > 0 && TallyStrict(qs).Ok? {
      TallyStrictScore(qs[..|qs| - 1]);
      SumSelectedLast(qs);
    }
  }

  lemma {:induction false} TallyStrictAnswers(qs: seq<AnsweredQuestion>)
    ensures TallyStrict(qs).Ok? ==> RecordsLastSelections(qs, TallyStrict(qs).value.answers)
    decreases |qs|
  {
    if |qs| > 0 && TallyStrict(qs).Ok? {
      var p := qs[..|qs| - 1];
      TallyStrictAnswers(p);
      RecordsLastSelectionsStep(qs, TallyStrict(p).value.answers);
    }
  }

  /** The questions that have at least one option, in their original order. */
  function WithOptions(qs: seq<AnsweredQuestion>): seq<AnsweredQuestion>
    decreases |qs|
  {
    if |qs| == 0 then []
    else
      var p := qs[..|qs| - 1];
      var q := qs[|qs| - 1];
      if |q.options| == 0 then WithOptions(p) else WithOptions(p) + [q]
  }

  /** The filter keeps exactly the questions that have options. */
  lemma {:induction false} WithOptionsMembers(qs: seq<AnsweredQuestion>)
    ensures forall q :: q in WithOptions(qs) ==> q in qs && |q.options| > 0
    ensures forall i :: 0 <= i < |qs| && |qs[i].options| > 0 ==> qs[i] in WithOptions(qs)
    decreases |qs|
  {
    if |qs| > 0 {
      var p := qs[..|qs| - 1];
      var q := qs[|qs| - 1];
      WithOptionsMembers(p);
      assert forall i :: 0 <= i < |p| ==> qs[i] == p[i];
      assert forall x :: x in p ==> x in qs;
    }
  }

  /** Filtering distributes over concatenation. */
  lemma {:induction false} WithOptionsConcat(a: seq<AnsweredQuestion>, b: seq<AnsweredQuestion>)
    ensures WithOptions(a + b) == WithOptions(a) + WithOptions(b)
    decreases |b|
  {
    if |b| == 0 {
      assert a + b == a;
    } else {
      var b' := b[..|b| - 1];
      assert (a + b)[..|a + b| - 1] == a + b';
      assert (a + b)[|a + b| - 1] == b[|b| - 1];
      WithOptionsConcat(a, b');
    }
  }

  /** When every question has options, filtering keeps them all. */
  lemma {:induction false} WithOptionsKeepsAll(qs: seq<AnsweredQuestion>)
    requires forall i :: 0 <= i < |qs| ==> |qs[i].options| > 0
    ensures WithOptions(qs) == qs
    decreases |qs|
  {
    if |qs| > 0 {
      var p := qs[..|qs| - 1];
      WithOptionsKeepsAll(p);
      assert p + [qs[|qs| - 1]] == qs;
    }
  }

  /** The loop of app2.py: a question without options is passed over with a
      warning; every other question is scored as in app_u.py. */
  function TallySkipping(qs: seq<AnsweredQuestion>): Result<Tally, ScoreError>
    decreases |qs|
  {
    if |qs| == 0 then Ok(Tally(0, map[]))
    else
      var p := qs[..|qs| - 1];
      var q := qs[|qs| - 1];
      if |q.options| == 0 then TallySkipping(p) else Step(TallySkipping(p), q)
  }

  /** app2.py's loop is app_u.py's loop run on the questions that have
      options, so everything TallyStrictMeaning states carries over to the filtered
      questions (the score sums their selected weights, for one). */
  lemma {:induction false} SkippingIsStrictOnFiltered(qs: seq<AnsweredQuestion>)
    ensures TallySkipping(qs) == TallyStrict(WithOptions(qs))
    decreases |qs|
  {
    if |qs| > 0 {
      SkippingIsStrictOnFiltered(qs[..|qs| - 1]);
      FilteredStep(qs);
    }
  }

  /** Running the strict loop on the filtered questions advances exactly when
      the last question has options. */
  lemma FilteredStep(qs: seq<AnsweredQuestion>)
    requires |qs| > 0
    ensures var p, q := qs[..|qs| - 1], qs[|qs| - 1];
            (TallyStrict(WithOptions(qs))
             == if |q.options| == 0 then TallyStrict(WithOptions(p)) else Step(TallyStrict(WithOptions(p)), q))
  {
    var p, q := qs[..|qs| - 1], qs[|qs| - 1];
    if |q.options| > 0 {
      var w := WithOptions(p) + [q];
      assert w[..|w| - 1] == WithOptions(p);
    }
  }

  /** The texts of the filtered questions are the texts of the questions
      that have options. */
  lemma FilteredTexts(qs: seq<AnsweredQuestion>)
    ensures Texts(WithOptions(qs))
         == (set i | 0 <= i < |qs| && |qs[i].options| > 0 :: qs[i].text)
  {
    WithOptionsMembers(qs);
    var w := WithOptions(qs);
    var lhs := set i | 0 <= i < |w| :: w[i].text;
    var rhs := set i | 0 <= i < |qs| && |qs[i].options| > 0 :: qs[i].text;
    forall x | x in lhs ensures x in rhs {
      var i :| 0 <= i < |w| && w[i].text == x;
      assert w[i] in w;
      var j :| 0 <= j < |qs| && qs[j] == w[i];
    }
    forall x | x in rhs ensures x in lhs {
      var i :| 0 <= i < |qs| && |qs[i].options| > 0 && qs[i].text == x;
      assert qs[i] in w;
      var j :| 0 <= j < |w| && w[j] == qs[i];
    }
  }

  /** The answers of app2.py's loop are keyed by exactly the texts of the
      questions that have options. */
  lemma SkippingAnswerKeys(qs: seq<AnsweredQuestion>)
    ensures TallySkipping(qs).Ok? ==>
              TallySkipping(qs).value.answers.Keys == set i | 0 <= i < |qs| && |qs[i].options| > 0 :: qs[i].text
  {
    SkippingIsStrictOnFiltered(qs);
    TallyStrictMeaning(WithOptions(qs));
    FilteredTexts(qs);
  }

  /** A question without options changes nothing in app2.py's result,
      wherever it stands: it adds no weight and no answer. */
  lemma SkippedQuestionIsInvisible(a: seq<AnsweredQuestion>, q: AnsweredQuestion, b: seq<AnsweredQuestion>)
    requires |q.options| == 0
    ensures TallySkipping(a + [q] + b) == TallySkipping(a + b)
  {
    SkippingIsStrictOnFiltered(a + [q] + b);
    SkippingIsStrictOnFiltered(a + b);
    WithOptionsConcat(a + [q], b);
    WithOptionsConcat(a, [q]);
    WithOptionsConcat(a, b);
    assert WithOptions([q]) == [];
  }

  /** When no question lacks options, the two pages score alike. */
  lemma SkippingAgreesWithStrict(qs: seq<AnsweredQuestion>)
    requires forall i :: 0 <= i < |qs| ==> |qs[i].options| > 0
    ensures TallySkipping(qs) == TallyStrict(qs)
  {
    WithOptionsKeepsAll(qs);
    SkippingIsStrictOnFiltered(qs);
  }

  /** With a duplicated label the first option's weight is the one counted. */
  lemma DuplicateLabelFirstWins()
    ensures var q := AnsweredQuestion("Q", [OptionRow(1, "Yes", 2), OptionRow(2, "Yes", 5)], "Yes");
            Answerable(q) && SelectedWeight(q) == 2
  {
    var q := AnsweredQuestion("Q", [OptionRow(1, "Yes", 2), OptionRow(2, "Yes", 5)], "Yes");
    assert q.options[0].caption == q.selected;
  }

  /** Two questions sharing a text both count towards the score, while the
      answers keep only the later selection. */
  lemma DuplicateTextLaterSelectionWins()
    ensures TallyStrict([AnsweredQuestion("Q", [OptionRow(1, "a", 3)], "a"),
                         AnsweredQuestion("Q", [OptionRow(2, "b", 4)], "b")])
         == Ok(Tally(7, map["Q" := "b"]))
  {
    var q1 := AnsweredQuestion("Q", [OptionRow(1, "a", 3)], "a");
    var q2 := AnsweredQuestion("Q", [OptionRow(2, "b", 4)], "b");
    assert q1.options[0].caption == q1.selected;
    assert q2.options[0].caption == q2.selected;
    assert [q1, q2][..1] == [q1];
    assert [q1][..0] == [];
    assert SelectedIndex(q1) == Some(0);
    assert SelectedIndex(q2) == Some(0);
    assert TallyStrict([q1]) == Step(TallyStrict([]), q1) == Ok(Tally(3, map["Q" := "a"]));
    assert TallyStrict([q1, q2]) == Step(TallyStrict([q1]), q2);
    assert map["Q" := "a"]["Q" := "b"] == map["Q" := "b"];
  }
}
