/** The rule-based question generator of the admin page
    (`generate_questions_from_passage`): it picks a focus word out of the
    passage with the pattern `\b[A-Za-z]{4,}\b` and fills five templates. */
module Generator {
  import opened Results

  predicate IsAsciiLetter(c: char) {
    'A' <= c <= 'Z' || 'a' <= c <= 'z'
  }

  predicate IsAsciiDigit(c: char) {
    '0' <= c <= '9'
  }

  /** Python 3's `\w` for a str pattern. On ASCII it is exactly letters,
      digits and underscore. Beyond ASCII it follows Unicode's alphanumeric
      classes, which are not modelled: `wide` is the set of non-ASCII
      characters that count as word characters. */
  predicate IsWordChar(c: char, wide: set<char>) {
    if c as int < 128 then IsAsciiLetter(c) || IsAsciiDigit(c) || c == '_'
    else c in wide
  }

  /** `\b` at position p: exactly one of the characters on either side of p
      is a word character (a string edge counts as a non-word side). */
  predicate BoundaryAt(s: string, p: nat, wide: set<char>)
    requires p <= |s|
  {
    (p > 0 && IsWordChar(s[p - 1], wide)) != (p < |s| && IsWordChar(s[p], wide))
  }

  /** The pattern `\b[A-Za-z]{4,}\b` matches s[i..j]. */
  predicate IsTokenAt(s: string, i: nat, j: nat, wide: set<char>) {
    && i + 4 <= j <= |s|
    && (forall k :: i <= k < j ==> IsAsciiLetter(s[k]))
    && BoundaryAt(s, i, wide)
    && BoundaryAt(s, j, wide)
  }

  /** End of the run of ASCII letters that starts at i. */
  function RunEnd(s: string, i: nat): (e: nat)
    requires i <= |s|
    ensures i <= e <= |s|
    ensures forall k :: i <= k < e ==> IsAsciiLetter(s[k])
    ensures e == |s| || !IsAsciiLetter(s[e])
    decreases |s| - i
  {
    if i < |s| && IsAsciiLetter(s[i]) then RunEnd(s, i + 1) else i
  }

  /** A match starting at i can only end where the letter run from i ends:
      every letter is a word character, so there is no boundary inside it. */
  lemma TokenEndsAtRunEnd(s: string, i: nat, j: nat, wide: set<char>)
    requires IsTokenAt(s, i, j, wide)
    ensures j == RunEnd(s, i)
  {
    var e := RunEnd(s, i);
    if e > j {
      assert IsAsciiLetter(s[j - 1]) && IsAsciiLetter(s[j]);
      assert IsWordChar(s[j - 1], wide) && IsWordChar(s[j], wide);
    }
  }

  /** The regex scan from position `from`: the first position at which the
      pattern matches, with the extent of the match. */
  function FindToken(s: string, from: nat, wide: set<char>): (r: Option<(nat, nat)>)
    requires from <= |s|
    ensures r.Some? ==> from <= r.value.0 && IsTokenAt(s, r.value.0, r.value.1, wide)
    ensures r.Some? ==> forall i, j :: from <= i < r.value.0 ==> !IsTokenAt(s, i, j, wide)
    ensures r.None? ==> forall i, j :: from <= i ==> !IsTokenAt(s, i, j, wide)
    decreases |s| - from
  {
    if from == |s| then None
    else
      var e := RunEnd(s, from);
      if from + 4 <= e && BoundaryAt(s, from, wide) && BoundaryAt(s, e, wide) then Some((from, e))
      else
        NoTokenAt(s, from, wide);
        FindToken(s, from + 1, wide)
  }

  /** When the letter run from `from` fails the length or boundary test, no
      match starts at `from`. */
  lemma NoTokenAt(s: string, from: nat, wide: set<char>)
    requires from < |s|
    requires !(from + 4 <= RunEnd(s, from) && BoundaryAt(s, from, wide) && BoundaryAt(s, RunEnd(s, from), wide))
    ensures forall j :: !IsTokenAt(s, from, j, wide)
  {
    forall j | IsTokenAt(s, from, j, wide) ensures false {
      TokenEndsAtRunEnd(s, from, j, wide);
    }
  }

  /** The first word `re.findall` returns: the leftmost match, None when
      there is none. */
  function FirstToken(s: string, wide: set<char>): (r: Option<string>)
    ensures r.Some? ==> exists i: nat, j: nat :: IsTokenAt(s, i, j, wide) && r.value == s[i..j]
                                        && forall i': nat, j': nat :: i' < i ==> !IsTokenAt(s, i', j', wide)
    ensures r.None? <==> forall i, j :: !IsTokenAt(s, i, j, wide)
  {
    match FindToken(s, 0, wide)
    case Some((i, j)) => Some(s[i..j])
    case None => None
  }

  const FallbackFocus: string := "the person"

  /** The word the first question asks about. */
  function Focus(s: string, wide: set<char>): (r: string)
    ensures (forall i, j :: !IsTokenAt(s, i, j, wide)) ==> r == FallbackFocus
    ensures (exists i, j :: IsTokenAt(s, i, j, wide)) ==>
              exists i: nat, j: nat :: IsTokenAt(s, i, j, wide) && r == s[i..j]
                                    && forall i': nat, j': nat :: i' < i ==> !IsTokenAt(s, i', j', wide)
  {
    FirstToken(s, wide).GetOr(FallbackFocus)
  }

  const Opening: string := "How would you emotionally respond to "
  const Closing: string := " in this situation?"

  /** The four questions that never depend on the passage. */
  const FixedQuestions: seq<string> := [
    "What would be your immediate action after understanding the situation?",
    "How would you communicate with the person involved empathetically?",
    "What kind of support would you offer considering the circumstances?",
    "How would you handle similar situations in the future?"
  ]

  /** The five generated questions: the first embeds the focus word, the
      other four are fixed. */
  function GenerateQuestions(passage: string, wide: set<char>): (qs: seq<string>)
    ensures |qs| == 5
    ensures qs[0] == Opening + Focus(passage, wide) + Closing
    ensures qs[1..] == FixedQuestions
  {
    [Opening + Focus(passage, wide) + Closing] + FixedQuestions
  }

  /** Only the first question depends on the passage. */
  lemma OnlyFirstQuestionVaries(p1: string, w1: set<char>, p2: string, w2: set<char>)
    ensures GenerateQuestions(p1, w1)[1..] == GenerateQuestions(p2, w2)[1..]
  {
  }

  /** The first question determines the focus: the template around it is
      fixed, so different focus words yield different first questions. */
  lemma {:induction false} FirstQuestionDeterminesFocus(f1: string, f2: string)
    requires Opening + f1 + Closing == Opening + f2 + Closing
    ensures f1 == f2
  {
    var q1, q2 := Opening + f1 + Closing, Opening + f2 + Closing;
    assert q1[|Opening|..|q1| - |Closing|] == f1;
    assert q2[|Opening|..|q2| - |Closing|] == f2;
  }

  /** Words of three letters are too short: the example passage yields the
      fallback focus. */
  lemma ThreeLetterWordsGiveFallback(wide: set<char>)
    ensures Focus("A Big Dog ran", wide) == FallbackFocus
  {
    var s := "A Big Dog ran";
    assert s[1] == ' ' && s[5] == ' ' && s[9] == ' ';
    forall i: nat, j: nat ensures !IsTokenAt(s, i, j, wide) {
      if i + 4 <= j <= |s| {
        // every window of four positions covers one of the spaces at 1, 5 and 9
        var k := if i <= 1 then 1 else if i <= 5 then 5 else 9;
        assert i <= k < j && !IsAsciiLetter(s[k]);
      }
    }
  }

  /** A letter run glued to a digit has no boundary after it, so "test1" is
      skipped and the next qualifying word is taken. */
  lemma DigitBlocksBoundary(wide: set<char>)
    ensures Focus("test1 Maria", wide) == "Maria"
  {
    var s := "test1 Maria";
    assert IsTokenAt(s, 6, 11, wide);
    assert s[6..11] == "Maria";
    forall i: nat, j: nat | i < 6 ensures !IsTokenAt(s, i, j, wide) {
      if j == 4 {
        // "test" is followed by the word character '1': no boundary
        assert IsWordChar(s[3], wide) && IsWordChar(s[4], wide);
      } else if i + 4 <= j <= |s| {
        // any other match before position 6 would cover the digit at 4 or the space at 5
        var k := if i <= 4 then 4 else 5;
        assert i <= k < j && !IsAsciiLetter(s[k]);
      }
    }
  }

  /** A non-ASCII letter is a word character, so an ASCII run that runs into
      one has no boundary after it and is passed over. */
  lemma NonAsciiLetterBlocksBoundary(wide: set<char>)
    requires '\U{DF}' in wide
    ensures Focus("Stra\U{DF}e Maria", wide) == "Maria"
  {
    var s := "Stra\U{DF}e Maria";
    assert IsTokenAt(s, 7, 12, wide);
    assert s[7..12] == "Maria";
    forall i: nat, j: nat | i < 7 ensures !IsTokenAt(s, i, j, wide) {
      if j == 4 {
        assert IsWordChar(s[3], wide) && IsWordChar(s[4], wide);
      } else if i + 4 <= j <= |s| {
        var k := if i <= 4 then 4 else 6;
        assert i <= k < j && !IsAsciiLetter(s[k]);
      }
    }
  }
}
