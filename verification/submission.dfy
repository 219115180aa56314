/** The user page: choosing a passage by title and turning the answered
    questionnaire into a stored response. app_u.py checks the respondent's
    name before saving; app2.py saves without that check and skips
    questions that have no options. */
module Submission {
  import opened Results
  import opened Seqs
  import opened Empathy
  import opened Scoring

  /** One row of the passages table. */
  datatype PassageRow = PassageRow(id: int, title: string, text: string)

  /** The passage shown for a title picked in the drop-down: the first
      passage carrying that title. */
  function SelectPassage(passages: seq<PassageRow>, title: string): (r: Option<PassageRow>)
    ensures r.Some? <==> exists i :: 0 <= i < |passages| && passages[i].title == title
    ensures r.Some? ==> r.value.title == title
    ensures r.Some? ==> exists i :: 0 <= i < |passages| && passages[i] == r.value
                                    && forall j :: 0 <= j < i ==> passages[j].title != title
  {
    match FirstIndex(passages, (p: PassageRow) => p.title == title)
    case Some(i) => Some(passages[i])
    case None => None
  }

  /** With distinct ids, a passage whose title repeats an earlier passage's
      title is never shown, whatever title is picked. */
  lemma ShadowedPassageUnreachable(passages: seq<PassageRow>, i: nat, j: nat, title: string)
    requires i < j < |passages|
    requires passages[i].title == passages[j].title
    requires forall a, b :: 0 <= a < b < |passages| ==> passages[a].id != passages[b].id
    ensures SelectPassage(passages, title) != Some(passages[j])
  {
  }

  /** A row of the responses table. The stored answers are the JSON encoding
      of `answers`; the encoding is not modelled. */
  datatype Response = Response(passageId: int, userName: string, score: int, tier: Tier, answers: map<string, string>)

  /** Why no response is stored. */
  datatype SubmitError =
    | NoQuestions          // "No questions found for this passage."; no submit button
    | Raised(ScoreError)   // the scoring loop stopped the page
    | MissingName          // "Please enter your name."

  /** The stored tier is the classification of the stored score. */
  predicate TierMatchesScore(resp: Response) {
    resp.tier == Classify(resp.score)
  }

  /** Submission on app_u.py's page: no button without questions; the
      scoring loop runs before the button can be pressed; an empty name is
      refused; otherwise the response holds the score, its tier and the
      answers. */
  function SubmitChecked(passageId: int, userName: string, qs: seq<AnsweredQuestion>): (r: Result<Response, SubmitError>)
    ensures |qs| == 0 ==> r == Err(NoQuestions)
    ensures |qs| > 0 && !AllAnswerable(qs) ==> r.Err? && r.error.Raised?
    ensures |qs| > 0 && AllAnswerable(qs) && userName == "" ==> r == Err(MissingName)
    ensures r.Ok? <==> |qs| > 0 && AllAnswerable(qs) && userName != ""
    ensures r.Ok? ==> && r.value.passageId == passageId && r.value.userName == userName
                      && r.value.score == SumSelected(qs) && TierMatchesScore(r.value)
                      && RecordsLastSelections(qs, r.value.answers)
  {
    if |qs| == 0 then Err(NoQuestions)
    else
      TallyStrictMeaning(qs);
      match TallyStrict(qs)
      case Err(e) => Err(Raised(e))
      case Ok(t) =>
        if userName == "" then Err(MissingName)
        else Ok(Response(passageId, userName, t.score, Classify(t.score), t.answers))
  }

  /** Submission on app2.py's page: questions without options are skipped
      and the response is stored whatever the name, even an empty one. */
  function SubmitUnchecked(passageId: int, userName: string, qs: seq<AnsweredQuestion>): (r: Result<Response, SubmitError>)
    ensures |qs| == 0 ==> r == Err(NoQuestions)
    ensures |qs| > 0 && !AllAnswerable(WithOptions(qs)) ==> r.Err? && r.error.Raised?
    ensures r.Ok? <==> |qs| > 0 && AllAnswerable(WithOptions(qs))
    ensures r.Ok? ==> r.value.passageId == passageId && r.value.userName == userName
    ensures r.Ok? ==> r.value.score == SumSelected(WithOptions(qs)) && TierMatchesScore(r.value)
    ensures r.Ok? ==> RecordsLastSelections(WithOptions(qs), r.value.answers)
  {
    if |qs| == 0 then Err(NoQuestions)
    else
      SkippingIsStrictOnFiltered(qs);
      TallyStrictMeaning(WithOptions(qs));
      match TallySkipping(qs)
      case Err(e) => Err(Raised(e))
      case Ok(t) => Ok(Response(passageId, userName, t.score, Classify(t.score), t.answers))
  }

  /** When every question has options, the two pages disagree only on the
      name check: app2.py stores what app_u.py stores, and also stores it
      under an empty name, which app_u.py refuses. Questions without options
      are a second difference (app2.py skips them, app_u.py stops), which
      the requires sets aside. */
  lemma PagesAgreeExceptNameWhenAllHaveOptions(passageId: int, userName: string, qs: seq<AnsweredQuestion>)
    requires |qs| > 0 && forall i :: 0 <= i < |qs| ==> |qs[i].options| > 0
    ensures userName != "" ==> SubmitChecked(passageId, userName, qs) == SubmitUnchecked(passageId, userName, qs)
    ensures userName == "" && AllAnswerable(qs) ==>
              SubmitChecked(passageId, userName, qs) == Err(MissingName) && SubmitUnchecked(passageId, userName, qs).Ok?
  {
    SkippingAgreesWithStrict(qs);
    WithOptionsKeepsAll(qs);
    TallyStrictMeaning(qs);
  }
}
