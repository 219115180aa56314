/** The admin page of app_u.py: generating template questions for a passage
    and saving the passage with its questions and weighted options. The
    database is not modelled; a save is the sequence of inserts it issues. */
module Admin {
  import opened Results
  import Generator

  /** The admin page's validation messages. */
  datatype AdminError =
    | MissingPassageText   // "Please enter passage text first."
    | MissingTitleOrText   // "Passage title and text are required."

  /** The generate button: refused on an empty passage, otherwise the five
      template questions for it. */
  function GenerateOnRequest(passageText: string, wide: set<char>): (r: Result<seq<string>, AdminError>)
    ensures r.Err? <==> passageText == ""
    ensures r.Err? ==> r.error == MissingPassageText
    ensures r.Ok? ==> |r.value| == 5 && r.value == Generator.GenerateQuestions(passageText, wide)
  {
    if passageText == "" then Err(MissingPassageText)
    else Ok(Generator.GenerateQuestions(passageText, wide))
  }

  /** The weights the admin form's picker offers. */
  type PickedWeight = w: int | 1 <= w <= 5 witness 1

  /** An option as the admin enters it; `caption` is the label. */
  datatype OptionEntry = OptionEntry(caption: string, weight: int)

  /** One question of the form with the options entered under it. */
  datatype QuestionBlock = QuestionBlock(text: string, options: seq<OptionEntry>)

  /** What the form can produce for a question: five options, each weighted
      1 to 5. */
  predicate FromForm(b: QuestionBlock) {
    |b.options| == 5 && forall j :: 0 <= j < 5 ==> 1 <= b.options[j].weight <= 5
  }

  /** The form's blocks: for the i-th (possibly edited) question text, the
      five option inputs j = 0..4 with their caption and picked weight. */
  function BuildBlocks(texts: seq<string>, captions: (nat, nat) -> string, weights: (nat, nat) -> PickedWeight)
    : (blocks: seq<QuestionBlock>)
    ensures |blocks| == |texts|
    ensures forall i :: 0 <= i < |blocks| ==> blocks[i].text == texts[i] && FromForm(blocks[i])
    ensures forall i, j :: 0 <= i < |blocks| && 0 <= j < |blocks[i].options| ==>
              blocks[i].options[j] == OptionEntry(captions(i, j), weights(i, j))
  {
    seq(|texts|, i requires 0 <= i < |texts| =>
      QuestionBlock(texts[i], seq(5, j requires 0 <= j < 5 => OptionEntry(captions(i, j), weights(i, j)))))
  }

  /** One database write. A parent is named by the position, within the same
      save, of the insert whose new row id (`lastrowid`) the write uses. */
  datatype Insert =
    | InsertPassage(title: string, text: string)
    | InsertQuestion(passage: nat, text: string)
    | InsertOptions(question: nat, options: seq<OptionEntry>)

  /** The writes for the question blocks, the first of them standing at
      position `at` of the save: a question under the passage at position 0,
      then its options under that question. */
  function QuestionInserts(blocks: seq<QuestionBlock>, at: nat): (r: seq<Insert>)
    ensures |r| == 2 * |blocks|
    decreases |blocks|
  {
    if |blocks| == 0 then []
    else [InsertQuestion(0, blocks[0].text), InsertOptions(at, blocks[0].options)] + QuestionInserts(blocks[1..], at + 2)
  }

  /** Block k's two writes sit at offsets 2k and 2k + 1, the options pointing
      back at the question. */
  lemma {:induction false} InsertsOfBlock(blocks: seq<QuestionBlock>, at: nat, k: nat)
    requires k < |blocks|
    ensures QuestionInserts(blocks, at)[2 * k] == InsertQuestion(0, blocks[k].text)
    ensures QuestionInserts(blocks, at)[2 * k + 1] == InsertOptions(at + 2 * k, blocks[k].options)
    decreases |blocks|
  {
    UnfoldInserts(blocks, at);
    if k > 0 {
      InsertsOfBlock(blocks[1..], at + 2, k - 1);
      assert QuestionInserts(blocks, at)[2 * k] == QuestionInserts(blocks[1..], at + 2)[2 * (k - 1)];
    }
  }

  /** The save button: refused unless title and text are both non-empty;
      otherwise one passage, then per block in order one question followed by
      its options. */
  function SaveQuestionnaire(title: string, text: string, blocks: seq<QuestionBlock>): (r: Result<seq<Insert>, AdminError>)
    ensures r.Err? <==> title == "" || text == ""
    ensures r.Err? ==> r.error == MissingTitleOrText
    ensures r.Ok? ==> |r.value| == 1 + 2 * |blocks| && r.value[0] == InsertPassage(title, text)
    ensures r.Ok? ==> forall k :: 0 <= k < |blocks| ==>
              r.value[1 + 2 * k] == InsertQuestion(0, blocks[k].text)
              && r.value[2 + 2 * k] == InsertOptions(1 + 2 * k, blocks[k].options)
  {
    if title == "" || text == "" then Err(MissingTitleOrText)
    else
      var plan := [InsertPassage(title, text)] + QuestionInserts(blocks, 1);
      assert forall k :: 0 <= k < |blocks| ==>
               plan[1 + 2 * k] == InsertQuestion(0, blocks[k].text)
               && plan[2 + 2 * k] == InsertOptions(1 + 2 * k, blocks[k].options) by {
        forall k | 0 <= k < |blocks|
          ensures plan[1 + 2 * k] == InsertQuestion(0, blocks[k].text)
          ensures plan[2 + 2 * k] == InsertOptions(1 + 2 * k, blocks[k].options)
        {
          InsertsOfBlock(blocks, 1, k);
        }
      }
      Ok(plan)
  }

  /** Every parent reference names an earlier insert of the right kind, and
      only the first write creates a passage. */
  predicate WellLinked(plan: seq<Insert>) {
    && |plan| > 0 && plan[0].InsertPassage?
    && forall n :: 0 < n < |plan| ==>
         match plan[n]
         case InsertPassage(_, _) => false
         case InsertQuestion(p, _) => p < n && plan[p].InsertPassage?
         case InsertOptions(q, _) => q < n && plan[q].InsertQuestion?
  }

  lemma SavedPlanIsWellLinked(title: string, text: string, blocks: seq<QuestionBlock>)
    requires title != "" && text != ""
    ensures WellLinked(SaveQuestionnaire(title, text, blocks).value)
  {
    var plan := SaveQuestionnaire(title, text, blocks).value;
    forall n | 0 < n < |plan|
      ensures match plan[n]
              case InsertPassage(_, _) => false
              case InsertQuestion(p, _) => p < n && plan[p].InsertPassage?
              case InsertOptions(q, _) => q < n && plan[q].InsertQuestion?
    {
      var k := (n - 1) / 2;
      if n == 1 + 2 * k {
        assert plan[1 + 2 * k] == InsertQuestion(0, blocks[k].text);
      } else {
        assert plan[2 + 2 * k] == InsertOptions(1 + 2 * k, blocks[k].options);
        assert plan[1 + 2 * k] == InsertQuestion(0, blocks[k].text);
      }
    }
  }

  /** Blocks that come from the form are saved with exactly five options per
      question, each weighted 1 to 5. */
  lemma FormSavesFiveWeightedOptions(title: string, text: string, texts: seq<string>,
                                     captions: (nat, nat) -> string, weights: (nat, nat) -> PickedWeight)
    requires title != "" && text != ""
    ensures var plan := SaveQuestionnaire(title, text, BuildBlocks(texts, captions, weights)).value;
            forall n :: 0 <= n < |plan| && plan[n].InsertOptions? ==>
              |plan[n].options| == 5 && forall j :: 0 <= j < 5 ==> 1 <= plan[n].options[j].weight <= 5
  {
    var blocks := BuildBlocks(texts, captions, weights);
    var plan := SaveQuestionnaire(title, text, blocks).value;
    forall n | 0 <= n < |plan| && plan[n].InsertOptions?
      ensures |plan[n].options| == 5 && forall j :: 0 <= j < 5 ==> 1 <= plan[n].options[j].weight <= 5
    {
      var k := (n - 1) / 2;
      assert plan[2 + 2 * k] == InsertOptions(1 + 2 * k, blocks[k].options);
      assert FromForm(blocks[k]);
    }
  }

  /** Reading back what a save wrote, the way the user page does: the
      positions of the question inserts under passage `p` (positions counted
      from `base`), in write order. */
  function QuestionRows(plan: seq<Insert>, p: nat, base: nat): seq<nat>
    decreases |plan|
  {
    if |plan| == 0 then []
    else (if plan[0].InsertQuestion? && plan[0].passage == p then [base] else [])
         + QuestionRows(plan[1..], p, base + 1)
  }

  /** The options written under the question insert at position `q`. */
  function OptionsFor(plan: seq<Insert>, q: nat): seq<OptionEntry>
    decreases |plan|
  {
    if |plan| == 0 then []
    else (if plan[0].InsertOptions? && plan[0].question == q then plan[0].options else [])
         + OptionsFor(plan[1..], q)
  }

  lemma {:induction false} QuestionRowsOfInserts(blocks: seq<QuestionBlock>, at: nat)
    ensures QuestionRows(QuestionInserts(blocks, at), 0, at) == seq(|blocks|, k => at + 2 * k)
    decreases |blocks|
  {
    if |blocks| > 0 {
      QuestionRowsStep(blocks, at);
      QuestionRowsOfInserts(blocks[1..], at + 2);
      var later := seq(|blocks| - 1, k => (at + 2) + 2 * k);
      assert [at] + later == seq(|blocks|, k => at + 2 * k) by {
        forall k | 0 <= k < |blocks|
          ensures ([at] + later)[k] == at + 2 * k
        {
          if k > 0 {
            assert ([at] + later)[k] == later[k - 1];
          }
        }
      }
    }
  }

  /** Reading questions across the writes of a non-empty run of blocks: the
      first write is a question, the second is not. */
  lemma QuestionRowsStep(blocks: seq<QuestionBlock>, at: nat)
    requires |blocks| > 0
    ensures QuestionRows(QuestionInserts(blocks, at), 0, at)
         == [at] + QuestionRows(QuestionInserts(blocks[1..], at + 2), 0, at + 2)
  {
    var r := QuestionInserts(blocks, at);
    UnfoldInserts(blocks, at);
    assert QuestionRows(r, 0, at) == [at] + QuestionRows(r[1..], 0, at + 1);
  }

  /** The first two writes for a non-empty run of blocks. */
  lemma UnfoldInserts(blocks: seq<QuestionBlock>, at: nat)
    requires |blocks| > 0
    ensures var r := QuestionInserts(blocks, at);
            && r[0] == InsertQuestion(0, blocks[0].text)
            && r[1..][0] == InsertOptions(at, blocks[0].options)
            && r[1..][1..] == QuestionInserts(blocks[1..], at + 2)
  {
    var rest := QuestionInserts(blocks[1..], at + 2);
    var r := [InsertQuestion(0, blocks[0].text), InsertOptions(at, blocks[0].options)] + rest;
    assert r[1..][1..] == rest;
  }

  /** Reading options across the writes of a non-empty run of blocks: only
      the first options write can match before the rest is reached. */
  lemma OptionsForStep(blocks: seq<QuestionBlock>, at: nat, q: nat)
    requires |blocks| > 0
    ensures OptionsFor(QuestionInserts(blocks, at), q)
         == (if q == at then blocks[0].options else []) + OptionsFor(QuestionInserts(blocks[1..], at + 2), q)
  {
    var r := QuestionInserts(blocks, at);
    UnfoldInserts(blocks, at);
    assert OptionsFor(r, q) == OptionsFor(r[1..], q);
  }

  lemma {:induction false} NoOptionsBefore(blocks: seq<QuestionBlock>, at: nat, q: nat)
    requires q < at
    ensures OptionsFor(QuestionInserts(blocks, at), q) == []
    decreases |blocks|
  {
    if |blocks| > 0 {
      OptionsForStep(blocks, at, q);
      NoOptionsBefore(blocks[1..], at + 2, q);
    }
  }

  lemma {:induction false} OptionsOfInserts(blocks: seq<QuestionBlock>, at: nat, k: nat)
    requires k < |blocks|
    ensures OptionsFor(QuestionInserts(blocks, at), at + 2 * k) == blocks[k].options
    decreases |blocks|
  {
    if k == 0 {
      OptionsOfFirstBlock(blocks, at);
    } else {
      OptionsOfInserts(blocks[1..], at + 2, k - 1);
      OptionsOfLaterBlock(blocks, at, k);
    }
  }

  /** The first block's options are the only ones under its question. */
  lemma OptionsOfFirstBlock(blocks: seq<QuestionBlock>, at: nat)
    requires |blocks| > 0
    ensures OptionsFor(QuestionInserts(blocks, at), at) == blocks[0].options
  {
    OptionsForStep(blocks, at, at);
    NoOptionsBefore(blocks[1..], at + 2, at);
  }

  /** Block k > 0's options are found past the first block's two writes. */
  lemma OptionsOfLaterBlock(blocks: seq<QuestionBlock>, at: nat, k: nat)
    requires 0 < k < |blocks|
    requires OptionsFor(QuestionInserts(blocks[1..], at + 2), (at + 2) + 2 * (k - 1)) == blocks[1..][k - 1].options
    ensures OptionsFor(QuestionInserts(blocks, at), at + 2 * k) == blocks[k].options
  {
    OptionsForStep(blocks, at, at + 2 * k);
  }

  /** Round trip of a save: reading the questions of the new passage and the
      options of each question returns the blocks that were saved, in order. */
  lemma SavedQuestionnaireReadsBack(title: string, text: string, blocks: seq<QuestionBlock>)
    requires title != "" && text != ""
    ensures var plan := SaveQuestionnaire(title, text, blocks).value;
            var rows := QuestionRows(plan, 0, 0);
            && plan[0] == InsertPassage(title, text)
            && |rows| == |blocks|
            && forall k :: 0 <= k < |blocks| ==>
                 rows[k] < |plan| && plan[rows[k]] == InsertQuestion(0, blocks[k].text)
                 && OptionsFor(plan, rows[k]) == blocks[k].options
  {
    var head := InsertPassage(title, text);
    assert SaveQuestionnaire(title, text, blocks).value == [head] + QuestionInserts(blocks, 1);
    PlanReadsBack(head, blocks);
  }

  /** The read-back of a plan that starts with a passage write and goes on
      with the writes for `blocks`. */
  lemma PlanReadsBack(head: Insert, blocks: seq<QuestionBlock>)
    requires head.InsertPassage?
    ensures var plan := [head] + QuestionInserts(blocks, 1);
            var rows := QuestionRows(plan, 0, 0);
            && |rows| == |blocks|
            && forall k :: 0 <= k < |blocks| ==>
                 rows[k] < |plan| && plan[rows[k]] == InsertQuestion(0, blocks[k].text)
                 && OptionsFor(plan, rows[k]) == blocks[k].options
  {
    var plan := [head] + QuestionInserts(blocks, 1);
    var rows := QuestionRows(plan, 0, 0);
    ReadBackRows(head, blocks);
    forall k | 0 <= k < |blocks|
      ensures rows[k] < |plan| && plan[rows[k]] == InsertQuestion(0, blocks[k].text)
      ensures OptionsFor(plan, rows[k]) == blocks[k].options
    {
      ReadBackBlock(head, blocks, k);
    }
  }

  /** The questions of passage 0 sit at the odd positions of the plan. */
  lemma {:induction false} ReadBackRows(head: Insert, blocks: seq<QuestionBlock>)
    requires head.InsertPassage?
    ensures QuestionRows([head] + QuestionInserts(blocks, 1), 0, 0) == seq(|blocks|, k => 1 + 2 * k)
  {
    QuestionRowsOfInserts(blocks, 1);
    QuestionRowsPastPassage(head, QuestionInserts(blocks, 1));
  }

  /** Block k is read back from position 1 + 2k of the plan. */
  lemma ReadBackBlock(head: Insert, blocks: seq<QuestionBlock>, k: nat)
    requires head.InsertPassage? && k < |blocks|
    ensures var plan := [head] + QuestionInserts(blocks, 1);
            && 1 + 2 * k < |plan|
            && plan[1 + 2 * k] == InsertQuestion(0, blocks[k].text)
            && OptionsFor(plan, 1 + 2 * k) == blocks[k].options
  {
    var tail := QuestionInserts(blocks, 1);
    InsertsOfBlock(blocks, 1, k);
    OptionsOfInserts(blocks, 1, k);
    OptionsForPastPassage(head, tail, 1 + 2 * k);
  }

  /** A passage write lists no questions of passage 0 and holds no options. */
  lemma QuestionRowsPastPassage(head: Insert, tail: seq<Insert>)
    requires head.InsertPassage?
    ensures QuestionRows([head] + tail, 0, 0) == QuestionRows(tail, 0, 1)
  {
    assert ([head] + tail)[1..] == tail;
  }

  lemma OptionsForPastPassage(head: Insert, tail: seq<Insert>, q: nat)
    requires head.InsertPassage?
    ensures OptionsFor([head] + tail, q) == OptionsFor(tail, q)
  {
    assert ([head] + tail)[1..] == tail;
  }
}
