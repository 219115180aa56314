# Empathy survey: scoring, tiers and question templates

This is a Dafny model of the logic inside two Streamlit pages of an empathy survey tool. In the app, an admin writes a *passage* (a short situation). The admin attaches questions to it, and each question has options that carry integer *weights*. A respondent picks one option per question. The page adds up the weights of the chosen options to get an *empathy score*, then files that score into one of three *tiers*. `app_u.py` is the full page, with an admin mode and a user mode. `app2.py` is a second, user-only page. The two pages score questionnaires in almost the same way.

The model has one module per component:

- `Results`: the `Option` and `Result` types used for the page's error paths.
- `Seqs`: `FirstIndex`, the "first element that matches" search. It models Python's `next(x for x in xs if p(x))`, which both pages use to look up an option's weight and to find a passage.
- `Empathy`: the `Tier` enum (Low < Moderate < High) and `get_empathy_level`, the classifier that maps a score to a tier.
- `Scoring`: the questionnaire loop, pulled out of the page into pure functions.
  - `TallyStrict` is app_u.py's loop. A selection that matches no option makes `next` raise `StopIteration`, and a question with no options always does this.
  - `TallySkipping` is app2.py's loop, which skips questions that have no options.
  - Both loops are related to independent reference definitions: `SumSelected` for the score and `RecordsLastSelections` for the answers map.
- `Generator`: `generate_questions_from_passage`. It finds the leftmost match of `\b[A-Za-z]{4,}\b` and puts that word into the first of five fixed templates.
- `Admin`: the admin page's two guards (generate and save) and the form's five-options-per-question blocks. Saving is modelled as the sequence of inserts it issues, and the model proves that reading those inserts back returns what was saved.
- `Submission`: picking a passage by its title, and the two submit paths. app_u.py requires a name before saving. app2.py saves without checking the name.

## Model

| member | source | states |
|---|---|---|
| Seqs.FirstIndex | app_u.py:220 | It returns the position of the first element that satisfies the predicate, and no earlier element satisfies it. It returns None exactly when no element does, which is where `next` raises StopIteration. |
| Empathy.Classify | app_u.py:109-115 | A score classifies as Low iff it is below 6, as Moderate iff it is between 6 and 10 inclusive, and as High iff it is above 10. This holds for every integer. |
| Empathy.ReachesTierIffAboveThreshold | app_u.py:109-115 | A score's tier is at least tier t exactly when the score reaches t's lower threshold. Moderate starts at 6, High starts at 11, and Low has no lower bound. |
| Empathy.ClassifyMonotone | app_u.py:109-115 | A larger score never gives a lower tier. |
| Empathy.ClassifyBoundaries | app2.py:53-59 | app2.py uses the same thresholds: 5 is Low, 6 and 10 are Moderate, and 11 is High. |
| Scoring.SelectedIndex | app_u.py:217-220 | The weight lookup picks the first option whose label equals the selection, so a duplicated label resolves to its first copy. The lookup succeeds iff some option carries the selected label. |
| Scoring.SumSelectedConcat | app_u.py:211-221 | The reference score is additive: the score of two runs of questions placed one after the other is the sum of their scores. |
| Scoring.TallyStrict | app_u.py:210-222 | The loop of the page, one question at a time. It has no contract of its own; `Scoring.TallyStrictMeaning` states what it computes. |
| Scoring.SumSelectedLast | app_u.py:213-221 | Adding one more question to the end adds exactly that question's selected weight to the reference score. This is the step the loop's running total takes. |
| Scoring.TallyStrictMeaning | app_u.py:210-222 | The loop completes iff every selection matches an option. On completion, the score is the sum of the selected weights in question order. The answers have a key for each question text, and each key maps to the selection made on the last question with that text. Otherwise, the loop stops at the first unmatched question and reports its text. Any question without options stops it. |
| Scoring.WithOptionsMembers | app2.py:99-101 | It keeps every question that has at least one option, and keeps no others. |
| Scoring.WithOptionsConcat | app2.py:95-101 | The skip decision is made per question, so filtering two runs placed one after the other gives the two filtered runs in the same order. |
| Scoring.TallySkipping | app2.py:92-109 | app2.py's loop, which skips questions without options. It has no contract of its own; `Scoring.SkippingIsStrictOnFiltered` states what it computes. |
| Scoring.SkippingIsStrictOnFiltered | app2.py:92-109 | app2.py's loop gives the same result as app_u.py's loop run on only the questions that have options. So the score is the sum of those questions' selected weights, and a duplicated text keeps the last selection. |
| Scoring.SkippingAnswerKeys | app2.py:95-109 | The keys of app2.py's answers are exactly the texts of the questions that have options. |
| Scoring.SkippedQuestionIsInvisible | app2.py:99-101 | A question without options, in any position, adds nothing to app2.py's score and no entry to its answers. |
| Scoring.SkippingAgreesWithStrict | app2.py:103-108 | When every question has options, the two pages' loops give identical results. |
| Scoring.DuplicateLabelFirstWins | app_u.py:220 | If two options share the selected label, the first option's weight (2, not 5) is the one counted. |
| Scoring.DuplicateTextLaterSelectionWins | app_u.py:213-222 | If two questions share a text, both weights count (3 + 4), and the answers keep only the later selection. |
| Generator.TokenEndsAtRunEnd | app_u.py:95 | A match of the pattern that starts at i ends exactly where the run of ASCII letters from i ends, because there is no word boundary inside a run of letters. |
| Generator.FindToken | app_u.py:95 | The scan returns a match of `\b[A-Za-z]{4,}\b`, and no match starts at an earlier position. It returns None iff no match starts at or after the starting point. |
| Generator.FirstToken | app_u.py:95-96 | The word `re.findall` lists first is the leftmost match, and there is none exactly when the pattern matches nowhere. |
| Generator.Focus | app_u.py:95-96 | If the pattern matches nowhere, the focus is "the person". Otherwise the focus is the text of a match, and no match starts earlier. |
| Generator.GenerateQuestions | app_u.py:94-104 | It always returns exactly five questions. The first one puts the focus word (or "the person") into the fixed opening and closing text, and the other four are the fixed questions. |
| Generator.OnlyFirstQuestionVaries | app_u.py:100-103 | Questions 2 to 5 are the same for every passage. |
| Generator.FirstQuestionDeterminesFocus | app_u.py:99 | The first question is the focus word between a fixed opening and a fixed closing, and two focus words give equal first questions only if they are equal. So the template loses no information about the focus. |
| Generator.ThreeLetterWordsGiveFallback | app_u.py:95-96 | For "A Big Dog ran" the focus is "the person", because three-letter words do not match. |
| Generator.DigitBlocksBoundary | app_u.py:95 | A digit is a word character, so "test1" does not match and "Maria" is taken instead. |
| Generator.NonAsciiLetterBlocksBoundary | app_u.py:95 | When the sharp s is a word character, "Stra" followed by it does not match, and the next word is taken. |
| Admin.GenerateOnRequest | app_u.py:137-141 | Generation is refused iff the passage text is empty. Otherwise the result is the five template questions for that passage. |
| Admin.BuildBlocks | app_u.py:145-164 | The form gives one block per question text, and each block has exactly five options. Option j of block i carries the caption and picked weight of form input (i, j), and every weight is between 1 and 5. |
| Admin.QuestionInserts | app_u.py:173-175 | It issues two writes per block. |
| Admin.InsertsOfBlock | app_u.py:173-175 | For block k, in order, it writes the question under the new passage and then, next, that block's options under that question. |
| Admin.SaveQuestionnaire | app_u.py:167-175 | A save is refused iff the title or the text is empty. Otherwise it writes the passage first, then for block k the question at position 1+2k and its options at position 2+2k, pointing back to that question. |
| Admin.SavedPlanIsWellLinked | app_u.py:171-175 | A save creates exactly one passage. Every question points to an earlier passage insert, and every options insert points to an earlier question insert. |
| Admin.FormSavesFiveWeightedOptions | app_u.py:151-162 | When the saved blocks come from the form, every options write has exactly five options, each weighted 1 to 5. |
| Admin.QuestionRows | app_u.py:25-31 | The `get_questions` read over the writes of a save: the positions of the question writes under a passage, in write order. It has no contract of its own; `Admin.SavedQuestionnaireReadsBack` states what it returns after a save. |
| Admin.OptionsFor | app_u.py:33-42 | The `get_options` read over the writes of a save: the options written under a question. It has no contract of its own; `Admin.SavedQuestionnaireReadsBack` states what it returns after a save. |
| Admin.SavedQuestionnaireReadsBack | app_u.py:171-175 | Round trip: after a save, listing the new passage's questions and each question's options gives back the saved blocks in order. |
| Submission.SelectPassage | app_u.py:193-197 | The passage shown for a chosen title is the first passage with that title. There is one iff some passage has that title. |
| Submission.ShadowedPassageUnreachable | app_u.py:196 | With distinct ids, a passage whose title repeats an earlier passage's title can never be shown. |
| Submission.SubmitChecked | app_u.py:202-239 | With no questions, nothing can be submitted. An unmatched selection stops the page, and an empty name is refused. Otherwise the stored response has the chosen passage, the name, the sum of the selected weights, the classification of that score, and the last selection for each question text. |
| Submission.SubmitUnchecked | app2.py:84-117 | With no questions, nothing can be submitted. Only the questions that have options are scored: if a selection on one of them matches no option, the page stops. Otherwise a response is stored for any name, including an empty one. It holds the sum of those questions' selected weights, the classification of that score, and the last selection for each of their texts. |
| Submission.PagesAgreeExceptNameWhenAllHaveOptions | app2.py:113-117 | When every question has options, the two pages store the same response for a non-empty name. For an empty name, app_u.py refuses the submission and app2.py stores it. |

## Behaviours of the code worth noting

- **Short words never become the focus.** `\b[A-Za-z]{4,}\b` needs four ASCII letters, so "A Big Dog ran" falls back to "the person" (`Generator.ThreeLetterWordsGiveFallback`).
- **A token needs a word boundary on each side.** A run of ASCII letters glued to a digit, to `_` or to a non-ASCII word character is not matched, so "test1" is passed over (`Generator.DigitBlocksBoundary`, `Generator.NonAsciiLetterBlocksBoundary`).
- **Option order can matter.** Weights are looked up by label and the first match wins, so with duplicated labels the option order decides which weight counts (`Scoring.DuplicateLabelFirstWins`).
- **The save is not atomic and does not check parents.** Each insert is committed on its own, and a question or options row is written with whatever parent id the page holds. The model adds neither a transaction nor a parent check.

## Left out

- **Page rendering.** Streamlit widgets, layout, messages, the sidebar mode switch and session state are not modelled. A widget's value is an input to the function that uses it: the selected radio label, the picked title, the form texts and weights, and the name.
- **Database access.** SQLite (`get_connection`, the `get_*`, `add_*` and `save_response` functions) is not modelled. Rows are read as input sequences, and a save is modelled as the list of inserts it issues.
  - Row ids are not modelled. A parent is named by the position, within the same save, of the insert whose `lastrowid` the page uses.
  - A failing connection or write is not modelled.
- **The answers encoding.** `json.dumps` of the answers is not modelled. A response carries the answers as a map from question text to label.
- **Tier display strings.** The display strings and their emoji are replaced by the `Tier` enum. A comment on `Tier` gives the mapping.
- **Unicode word characters.** Python's Unicode tables for `\w` are not modelled. On ASCII, the word-character test is exact: letters, digits and `_`. For other characters, the caller passes in the set of non-ASCII characters that count as word characters.
- **Name check on whitespace.** Python treats only the empty string as false. The model therefore refuses only an empty name, and a name made of spaces is accepted, as it is on the page.
- **Radio default.** On the page, the radio always pre-selects the first option, so only a question without options can fail the weight lookup. The model takes the selected label as an arbitrary input: it covers that case and also a selection that names no option of a question that has options.
