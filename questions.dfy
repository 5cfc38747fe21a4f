/**
 * Question identifiers in column headers: the anchored pattern `^Q\d+`
 * applied to a column name, whose whole match is the question id.
 */
module Questions {
  import opened Optional
  import opened Text

  type QuestionId = string

  /**
   * The independent description of a match: `id` is a prefix of `name`,
   * made of `Q` and at least one digit, and the digit run cannot be
   * extended (the greedy `\d+`).
   */
  ghost predicate IsQuestionPrefix(name: string, id: string) {
    && id <= name
    && |id| >= 2
    && id[0] == 'Q'
    && (forall i :: 1 <= i < |id| ==> IsDigit(id[i]))
    && (|id| < |name| ==> !IsDigit(name[|id|]))
  }

  /**
   * `re.match(r'^Q\d+', name)`: the matched text, or None when the name
   * does not start with `Q` followed by a digit.
   */
  function QuestionIdOf(name: string): (r: Option<QuestionId>)
    ensures r.Some? <==> |name| >= 2 && name[0] == 'Q' && IsDigit(name[1])
    ensures r.Some? ==> IsQuestionPrefix(name, r.value)
  {
    if |name| >= 2 && name[0] == 'Q' && IsDigit(name[1]) then
      var digits := LeadingDigits(name[1..]);
      assert forall i :: 1 <= i < |['Q'] + digits| ==> (['Q'] + digits)[i] == digits[i - 1];
      Some(['Q'] + digits)
    else
      None
  }

  /** The extracted id is exactly the prefix the description singles out. */
  lemma QuestionIdCharacterized(name: string, id: string)
    ensures QuestionIdOf(name) == Some(id) <==> IsQuestionPrefix(name, id)
  {
    if IsQuestionPrefix(name, id) {
      var tail := id[1..];
      assert tail <= name[1..];
      assert forall i :: 0 <= i < |tail| ==> IsDigit(tail[i]) by {
        forall i | 0 <= i < |tail| ensures IsDigit(tail[i]) {
          assert tail[i] == id[i + 1];
        }
      }
      assert |tail| < |name[1..]| ==> name[1..][|tail|] == name[|id|];
      LeadingDigitsUnique(name[1..], tail);
      assert id == ['Q'] + tail;
    }
  }

  /** What the pattern makes of typical headers, the student-name column included. */
  lemma Examples()
    ensures QuestionIdOf("Q1") == Some("Q1")
    ensures QuestionIdOf("Q10") == Some("Q10")
    ensures QuestionIdOf("Q1 (D1)") == Some("Q1")
    ensures QuestionIdOf("Q10 (D14)") == Some("Q10")
    ensures QuestionIdOf("Q1Q2") == Some("Q1")
    ensures QuestionIdOf("ALUNO") == None
    ensures QuestionIdOf("q1") == None
    ensures QuestionIdOf("Q") == None
    ensures QuestionIdOf("Q (D1)") == None
  {
    QuestionIdCharacterized("Q1 (D1)", "Q1");
    QuestionIdCharacterized("Q10 (D14)", "Q10");
    QuestionIdCharacterized("Q1Q2", "Q1");
    QuestionIdCharacterized("Q10", "Q10");
    QuestionIdCharacterized("Q1", "Q1");
  }
}
