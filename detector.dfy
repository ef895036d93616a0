// The gate at the top of `detectAndParseQuiz` (ChatInterface.jsx): a reply is
// parsed only when it mentions a quiz keyword or looks like a numbered question.

module QuizDetection {
  import opened Common
  import opened Text

  /** The keywords searched for, English then Arabic. They are written in lower
      case, so the source's `keyword.toLowerCase()` leaves them as they are. */
  const Keywords: seq<string> := [
    "quiz", "question", "multiple choice", "test", "exam", "assessment", "mcq", "correct answer",
    "اختبار", "سؤال", "أسئلة", "اختيار متعدد", "امتحان", "تقييم", "الإجابة الصحيحة", "إجابة صحيحة"
  ]

  /** Some keyword occurs in the lower-cased reply (`KeywordsCounted` ties this
      to the source's count of found keywords). */
  predicate HasKeyword(text: string)
  {
    exists i :: 0 <= i < |Keywords| && Contains(Lower(text), Keywords[i])
  }

  /** `hasQuizKeywords`: the keywords found in the lower-cased reply are
      counted, and the count is positive exactly when some keyword occurs. */
  lemma KeywordsCounted(text: string)
    ensures Count((k: string) => Contains(Lower(text), k), Keywords) > 0 <==> HasKeyword(text)
  {
    CountPositive((k: string) => Contains(Lower(text), k), Keywords);
  }

  /** `/\d+\.\s*.*\?/` matches with its last digit at `i` and its `?` at `j`:
      `\s*` takes the spaces after the dot (it may cross line ends) and `.*`
      the rest up to the `?`, which must stay on one line. */
  predicate NumberedQuestionAt(s: string, i: nat, j: nat)
    requires i + 2 <= j < |s|
  {
    IsDigit(s[i]) && s[i + 1] == '.' && s[j] == '?'
    && NoLineTerminatorIn(s, Min(i + 2 + SpaceRun(s, i + 2), j), j)
  }

  /** `/\d+\.\s*.*\?/.test(text)`. */
  predicate HasNumberedQuestion(text: string)
  {
    exists i: nat, j: nat :: i + 2 <= j < |text| && NumberedQuestionAt(text, i, j)
  }

  /** The gate: `hasQuizKeywords || hasNumberedQuestions`. */
  predicate PassesGate(text: string)
  {
    HasKeyword(text) || HasNumberedQuestion(text)
  }

  /** The structural check recognises the Latin `?` only: a reply whose questions
      end in the Arabic `؟` passes the gate only through a keyword. */
  lemma ArabicMarkNeedsKeyword(text: string)
    requires '?' !in text
    ensures PassesGate(text) <==> HasKeyword(text)
  {
  }

  /** A digit, a dot, and a question ending in `?` on the same line pass the gate,
      whatever the rest of the reply says. */
  lemma NumberedLinePasses(pre: string, body: string, post: string, d: char)
    requires IsDigit(d) && NoLineTerminator(body)
    ensures PassesGate(pre + [d, '.'] + body + ['?'] + post)
  {
    var s := pre + [d, '.'] + body + ['?'] + post;
    var i := |pre|;
    var j := |pre| + 2 + |body|;
    assert s[i] == d && s[i + 1] == '.' && s[j] == '?';
    forall m | i + 2 <= m < j ensures !IsLineTerminator(s[m]) {
      assert s[m] == body[m - i - 2];
    }
    assert NumberedQuestionAt(s, i, j);
  }
}
