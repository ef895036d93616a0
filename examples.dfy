// The reply formats that the quiz prompt (ChatInterface.jsx) asks the model to
// follow, run through the line parser: the multiple-choice format yields its
// questions with their options and answers, the text-answer format keeps only
// questions that end in a question mark, and the mixed format, whose question
// lines end in a parenthesised type, yields no question at all.

module PromptExamples {
  import opened Common
  import opened Text
  import opened QuizData
  import opened LinePatterns
  import opened LineParser

  // ---------------------------------------------------------------------------
  // Lines of the prompt's formats

  /** `1. What is …?`: a digit, a dot, a space and the question. */
  function QuestionLine(d: char, q: string): string
  {
    [d, '.', ' '] + q
  }

  /** `a) London`: an option letter, a parenthesis, a space and the option. */
  function OptionLine(x: char, o: string): string
  {
    [x, ')', ' '] + o
  }

  /** `Correct Answer: c)`. */
  function CorrectLine(x: char): string
  {
    "Correct Answer: " + [x, ')']
  }

  /** `Answer: …`. */
  function AnswerLine(a: string): string
  {
    "Answer: " + a
  }

  /** A question text as the format writes it: it ends in a question mark and
      has no surrounding spaces. */
  predicate IsQuestionText(q: string)
  {
    |q| >= 1 && !IsSpace(q[0]) && IsQuestionMark(q[|q| - 1]) && NoLineTerminator(q)
  }

  /** A word or phrase as an option or answer: no surrounding spaces, no line
      end, and none of the characters the answer patterns look for. */
  predicate IsPlainText(o: string)
  {
    |o| >= 1 && !IsSpace(o[0]) && !IsSpace(o[|o| - 1]) && !IsQuestionMark(o[|o| - 1])
    && NoLineTerminator(o) && ':' !in o && '\U{2705}' !in o
  }

  // ---------------------------------------------------------------------------
  // Facts about single lines

  lemma NotSkipped(line: string)
    requires |line| >= 1 && line[0] != '#' && line[0] != '*' && line[0] != '-'
    ensures !IsSkipped(line)
  {
    assert !StartsWith(line, "#") by { assert "#"[0] == '#'; }
    assert !StartsWith(line, "**Instructions") by { assert "**Instructions"[0] == '*'; }
    assert !StartsWith(line, "**How did you do") by { assert "**How did you do"[0] == '*'; }
    assert line != "---" by { assert "---"[0] == '-'; }
  }

  /** A numbered line ending in a question mark starts a question with that text. */
  lemma QuestionLineStarts(d: char, q: string)
    requires IsDigit(d) && IsQuestionText(q)
    ensures !IsSkipped(QuestionLine(d, q))
    ensures QuestionStart(QuestionLine(d, q)) == Some(q)
  {
    var line := QuestionLine(d, q);
    NotSkipped(line);
    assert DigitRun(line, 1) == 0;
    assert DigitRun(line, 0) == 1;
    SpaceRunIs(line, 2, 3);
    BackSpaceRunIs(line, 2, |line|, |line|);
    forall k | 3 <= k < |line| ensures !IsLineTerminator(line[k]) {
      assert line[k] == q[k - 3];
    }
    assert NoLineTerminatorIn(line, Min(3, |line| - 2), |line| - 1);
    assert line[3..|line|] == q;
    assert QuestionPattern(0, line) == Some(q);
  }

  /** An option line lists its option and is nothing else. */
  lemma OptionLineLists(x: char, o: string)
    requires IsLatinOptionLetter(x) && IsPlainText(o)
    ensures Classify(OptionLine(x, o)) == LineInfo(false, None, None, None, Some(o))
  {
    OptionLineNoAnswer(x, o);
    OptionLineText(x, o);
  }

  lemma OptionLineNoAnswer(x: char, o: string)
    requires IsLatinOptionLetter(x) && IsPlainText(o)
    ensures !IsSkipped(OptionLine(x, o)) && QuestionStart(OptionLine(x, o)).None?
    ensures TextAnswer(OptionLine(x, o)).None? && LetteredAnswer(OptionLine(x, o)).None?
  {
    var line := OptionLine(x, o);
    NotSkipped(line);
    NoMarkNoQuestion(line);
    assert ':' !in line && '\U{2705}' !in line;
    TextAnswerNeedsColon(line);
    LetteredNeedsColonOrCheck(line);
  }

  lemma OptionLineText(x: char, o: string)
    requires IsLatinOptionLetter(x) && IsPlainText(o)
    ensures OptionText(OptionLine(x, o)) == Some(o)
  {
    var line := OptionLine(x, o);
    SpaceRunIs(line, 2, 3);
    BackSpaceRunIs(line, 3, |line|, |line|);
    forall k | 3 <= k < |line| ensures !IsLineTerminator(line[k]) {
      assert line[k] == o[k - 3];
    }
    assert NoLineTerminatorIn(line, Min(3, |line| - 1), |line|);
    assert line[3..|line|] == o;
    assert OptionPattern(0, line) == Some(o);
  }

  /** A label ending in a colon ends at a colon of the line. */
  lemma FoldedLabelColon(s: string, i: nat, tag: string)
    requires CharsAtFolded(s, i, tag) && |tag| >= 1 && tag[|tag| - 1] == ':'
    ensures s[i + |tag| - 1] == ':'
  {
    assert FoldCase(s[i + |tag| - 1]) == ':';
  }

  /** A label that starts with a character other than a lower-case ASCII letter
      starts with that very character in the line. */
  lemma FoldedLabelFirst(s: string, i: nat, tag: string)
    requires CharsAtFolded(s, i, tag) && |tag| >= 1 && !('a' <= tag[0] <= 'z')
    ensures s[i] == tag[0] && s[i] in s
  {
    assert FoldCase(s[i + 0]) == tag[0];
  }

  lemma LabelFirst(s: string, i: nat, tag: string)
    requires CharsAt(s, i, tag) && |tag| >= 1
    ensures s[i] == tag[0] && s[i] in s
  {
    assert s[i..i + |tag|][0] == s[i];
  }

  /** The Arabic lettered patterns need an alef in the line. */
  lemma NoAlefNoArabicLetter(s: string, j: nat)
    requires '\U{0627}' !in s && '\U{0625}' !in s
    ensures ArabicFullLabelAt(s, j).None? && ArabicShortLabelAt(s, j).None?
    ensures ArabicCorrectAt(s, j).None? && ArabicAnswerAt(s, j).None?
  {
    assert "الإجابة"[0] == '\U{0627}' && "إجابة"[0] == '\U{0625}';
    assert "الصحيحة:"[0] == '\U{0627}' && "الإجابة:"[0] == '\U{0627}';
    if CharsAt(s, j, "الإجابة") { LabelFirst(s, j, "الإجابة"); }
    if CharsAt(s, j, "إجابة") { LabelFirst(s, j, "إجابة"); }
    if CharsAtFolded(s, j, "الصحيحة:") { FoldedLabelFirst(s, j, "الصحيحة:"); }
    if CharsAtFolded(s, j, "الإجابة:") { FoldedLabelFirst(s, j, "الإجابة:"); }
  }

  /** The check-mark patterns need a check mark in the line. */
  lemma NoCheckNoCheckedLetter(s: string, j: nat)
    requires '\U{2705}' !in s
    ensures CheckedCorrectAnswerAt(s, j).None? && CheckedLetterAt(s, j).None?
  {
    if j < |s| { assert s[j] in s; }
  }

  /** The only colon of `s` is at `c`. */
  predicate OnlyColonAt(s: string, c: nat)
  {
    forall k :: 0 <= k < |s| && s[k] == ':' ==> k == c
  }

  /** In an English line whose one colon is not preceded by `correct`, the
      lettered patterns after `Answer:` find nothing. */
  lemma LatePatternsNone(s: string, c: nat)
    requires c < |s| && OnlyColonAt(s, c) && (c < 7 || FoldCase(s[c - 7]) != 'c')
    requires '\U{2705}' !in s && '\U{0627}' !in s && '\U{0625}' !in s
    ensures forall k :: 3 <= k < LetterPatternCount ==> LeftmostLetter(k, s, 0).None?
  {
    assert "correct:"[7] == ':' && "correct:"[0] == 'c';
    forall k | 3 <= k < LetterPatternCount ensures LeftmostLetter(k, s, 0).None? {
      forall j | 0 <= j <= |s| ensures LetterPatternAt(k, s, j).None? {
        NoAlefNoArabicLetter(s, j);
        NoCheckNoCheckedLetter(s, j);
        if CharsAtFolded(s, j, "correct:") {
          FoldedLabelColon(s, j, "correct:");
        }
      }
      LeftmostLetterSpec(k, s, 0);
    }
  }

  /** The leftmost match of a lettered pattern is its first matching position. */
  lemma {:induction false} LeftmostLetterAt(k: nat, s: string, i: nat, p: nat)
    requires k < LetterPatternCount && i <= p <= |s|
    requires forall j :: i <= j < p ==> LetterPatternAt(k, s, j).None?
    requires LetterPatternAt(k, s, p).Some?
    ensures LeftmostLetter(k, s, i) == LetterPatternAt(k, s, p)
    decreases p - i
  {
    if i < p {
      LeftmostLetterAt(k, s, i + 1, p);
    }
  }

  /** When the `Answer:` pattern is the last to match, its letter sets the index. */
  lemma AnswerPatternDecides(s: string, x: char)
    requires forall k :: 3 <= k < LetterPatternCount ==> LeftmostLetter(k, s, 0).None?
    requires LeftmostLetter(2, s, 0) == Some(x) && IsLatinOptionLetter(x)
    ensures LetteredAnswer(s) == Some(LetterIndex(x))
  {
    assert LeftmostLetter(8, s, 0).None? && LeftmostLetter(7, s, 0).None? && LeftmostLetter(6, s, 0).None?;
    assert LeftmostLetter(5, s, 0).None? && LeftmostLetter(4, s, 0).None? && LeftmostLetter(3, s, 0).None?;
    assert LastLetterMatch(s, 3) == Some(LetterIndex(x));
    assert LastLetterMatch(s, 5) == LastLetterMatch(s, 3);
    assert LastLetterMatch(s, 7) == LastLetterMatch(s, 5);
    assert LastLetterMatch(s, 9) == LastLetterMatch(s, 7);
  }

  /** A line with `Answer: x)` at `p` and no other colon, no check mark, no
      Arabic label and no `Correct:` names option `x`. */
  lemma AnswerLabelNames(s: string, p: nat, x: char)
    requires p + 10 <= |s| && CharsAtFolded(s, p, "answer:") && IsLatinOptionLetter(x)
    requires s[p + 7] == ' ' && s[p + 8] == x && s[p + 9] == ')'
    requires OnlyColonAt(s, p + 6) && (p < 1 || FoldCase(s[p - 1]) != 'c')
    requires '\U{2705}' !in s && '\U{0627}' !in s && '\U{0625}' !in s
    ensures LetteredAnswer(s) == Some(LetterIndex(x))
  {
    LatePatternsNone(s, p + 6);
    assert "answer:"[6] == ':';
    forall j | 0 <= j < p ensures LetterPatternAt(2, s, j).None? {
      if CharsAtFolded(s, j, "answer:") { FoldedLabelColon(s, j, "answer:"); }
    }
    SpaceRunIs(s, p + 7, p + 8);
    assert LetterPatternAt(2, s, p) == Some(x);
    LeftmostLetterAt(2, s, 0, p);
    AnswerPatternDecides(s, x);
  }

  /** The characters of `Correct Answer: x)` that the patterns look at. */
  lemma CorrectLineShape(x: char)
    requires IsLatinOptionLetter(x)
    ensures var s := CorrectLine(x);
      |s| == 18 && s[0] == 'C' && s[6] != ':' && s[7] == ' ' && s[15] == ' ' && s[16] == x && s[17] == ')'
      && OnlyColonAt(s, 14) && CharsAtFolded(s, 8, "answer:")
  {
    var s := CorrectLine(x);
    var pre := "Correct Answer";
    assert s == pre + [':', ' ', x, ')'];
    forall k | 0 <= k < 14 ensures s[k] != ':' {
      assert s[k] == pre[k];
    }
    CorrectLineLabel(x);
  }

  lemma CorrectLineLacks(x: char)
    requires IsLatinOptionLetter(x)
    ensures var s := CorrectLine(x);
      '\U{2705}' !in s && '\U{0627}' !in s && '\U{0625}' !in s
  {
    var s := CorrectLine(x);
    var pre := "Correct Answer: ";
    assert s == pre + [x, ')'];
    assert '\U{2705}' !in pre && '\U{0627}' !in pre && '\U{0625}' !in pre;
  }

  lemma CorrectLineLabel(x: char)
    ensures CharsAtFolded(CorrectLine(x), 8, "answer:")
  {
    var s := CorrectLine(x);
    forall k | 0 <= k < 7 ensures FoldCase(s[8 + k]) == "answer:"[k] {
      assert s[8 + k] == "Answer:"[k];
    }
  }

  /** `Correct Answer: x)` names option `x` and is nothing else. */
  lemma CorrectLineNames(x: char)
    requires IsLatinOptionLetter(x)
    ensures var line := CorrectLine(x);
      !IsSkipped(line) && QuestionStart(line).None? && TextAnswer(line).None?
      && LetteredAnswer(line) == Some(LetterIndex(x))
  {
    var s := CorrectLine(x);
    CorrectLineShape(x);
    CorrectLineLacks(x);
    AnswerLabelNames(s, 8, x);
    NotSkipped(s);
    NoMarkNoQuestion(s);
    CorrectLineNoText(s);
  }

  lemma CorrectLineNoText(s: string)
    requires |s| >= 7 && s[0] == 'C' && s[6] != ':'
    ensures TextAnswer(s).None?
  {
    assert "الإجابة:"[0] == '\U{0627}' && "إجابة:"[0] == '\U{0625}';
    assert "answer:"[6] == ':';
    assert forall k :: 0 <= k < TextPatternCount ==> TextPattern(k, s).None?;
    LastTextMatchSpec(s, TextPatternCount);
  }

  // ---------------------------------------------------------------------------
  // Runs over blocks of lines

  /** The option lines `x) o` for the letters and options given pairwise. */
  function OptionLines(letters: string, opts: seq<string>): seq<string>
    requires |letters| == |opts|
  {
    seq(|opts|, i requires 0 <= i < |opts| => OptionLine(letters[i], opts[i]))
  }

  /** A question of the multiple-choice format: the numbered question, its
      option lines and its `Correct Answer:` line. */
  function Block(d: char, q: string, letters: string, opts: seq<string>, x: char): seq<string>
    requires |letters| == |opts|
  {
    [QuestionLine(d, q)] + OptionLines(letters, opts) + [CorrectLine(x)]
  }

  /** Letters and options as the format writes them. */
  predicate WellWrittenOptions(letters: string, opts: seq<string>)
  {
    |letters| == |opts| && forall i :: 0 <= i < |opts| ==> IsLatinOptionLetter(letters[i]) && IsPlainText(opts[i])
  }

  lemma RunCons(st: ParseState, line: string, rest: seq<string>)
    ensures Run(st, [line] + rest) == Run(Step(st, line), rest)
  {
    assert ([line] + rest)[0] == line && ([line] + rest)[1..] == rest;
  }

  lemma OptionLinesCons(letters: string, opts: seq<string>, rest: seq<string>)
    requires |letters| == |opts| >= 1
    ensures OptionLines(letters, opts) + rest
         == [OptionLine(letters[0], opts[0])] + (OptionLines(letters[1..], opts[1..]) + rest)
  {
    assert OptionLines(letters, opts) == [OptionLine(letters[0], opts[0])] + OptionLines(letters[1..], opts[1..]);
  }

  /** An option line on an open question appends its option. */
  lemma StepLists(st: ParseState, x: char, o: string)
    requires st.current.Some? && st.collecting && !st.found
    requires IsLatinOptionLetter(x) && IsPlainText(o)
    ensures Step(st, OptionLine(x, o)) == st.(current := Some(st.current.value.(options := st.current.value.options + [o])))
  {
    OptionLineLists(x, o);
  }

  lemma AppendFirst<T>(a: seq<T>, b: seq<T>)
    requires |b| >= 1
    ensures a + [b[0]] + b[1..] == a + b
  {
  }

  /** Option lines on an open question append their options in order. */
  lemma {:induction false} RunOptions(st: ParseState, letters: string, opts: seq<string>, rest: seq<string>)
    requires st.current.Some? && st.collecting && !st.found && WellWrittenOptions(letters, opts)
    ensures Run(st, OptionLines(letters, opts) + rest)
         == Run(st.(current := Some(st.current.value.(options := st.current.value.options + opts))), rest)
    decreases |opts|
  {
    var q := st.current.value;
    if opts == [] {
      assert OptionLines(letters, opts) + rest == rest;
      assert q.options + opts == q.options;
    } else {
      OptionLinesCons(letters, opts, rest);
      StepLists(st, letters[0], opts[0]);
      RunCons(st, OptionLine(letters[0], opts[0]), OptionLines(letters[1..], opts[1..]) + rest);
      var st' := st.(current := Some(q.(options := q.options + [opts[0]])));
      RunOptions(st', letters[1..], opts[1..], rest);
      AppendFirst(q.options, opts);
    }
  }

  lemma BlockCons(d: char, q: string, letters: string, opts: seq<string>, x: char, rest: seq<string>)
    requires |letters| == |opts|
    ensures Block(d, q, letters, opts, x) + rest == [QuestionLine(d, q)] + (OptionLines(letters, opts) + ([CorrectLine(x)] + rest))
  {
  }

  /** A numbered question line closes the current question and opens its own. */
  lemma StepStarts(st: ParseState, d: char, q: string)
    requires IsDigit(d) && IsQuestionText(q)
    ensures Step(st, QuestionLine(d, q)) == ParseState(Flush(st), Some(ParsedQuestion(q, [], -1, Untyped)), true, false)
  {
    QuestionLineStarts(d, q);
  }

  /** A `Correct Answer:` line on an open question with options sets the index. */
  lemma StepNames(st: ParseState, x: char)
    requires st.current.Some? && !st.found && |st.current.value.options| >= 1 && IsLatinOptionLetter(x)
    ensures Step(st, CorrectLine(x))
         == ParseState(st.questions, Some(st.current.value.(correctAnswer := LetterIndex(x), kind := MultipleChoiceKind)), false, true)
  {
    CorrectLineNames(x);
  }

  /** A block of the multiple-choice format closes the question before it and
      leaves its own question, with every option and the named index, answered. */
  lemma BlockRun(st: ParseState, d: char, q: string, letters: string, opts: seq<string>, x: char, rest: seq<string>)
    requires IsDigit(d) && IsQuestionText(q) && WellWrittenOptions(letters, opts) && |opts| >= 1
    requires IsLatinOptionLetter(x)
    ensures Run(st, Block(d, q, letters, opts, x) + rest)
         == Run(ParseState(Flush(st), Some(ParsedQuestion(q, opts, LetterIndex(x), MultipleChoiceKind)), false, true), rest)
  {
    var tail := [CorrectLine(x)] + rest;
    var ol := OptionLines(letters, opts);
    BlockCons(d, q, letters, opts, x, rest);
    StepStarts(st, d, q);
    RunCons(st, QuestionLine(d, q), ol + tail);
    var st1 := ParseState(Flush(st), Some(ParsedQuestion(q, [], -1, Untyped)), true, false);
    assert Run(st, Block(d, q, letters, opts, x) + rest) == Run(st1, ol + tail);
    RunOptions(st1, letters, opts, tail);
    assert [] + opts == opts;
    var st2 := ParseState(Flush(st), Some(ParsedQuestion(q, opts, -1, Untyped)), true, false);
    assert Run(st1, ol + tail) == Run(st2, tail);
    StepNames(st2, x);
    RunCons(st2, CorrectLine(x), rest);
  }

  // ---------------------------------------------------------------------------
  // Text answers

  /** An answer as the text-answer format writes it: no surrounding spaces, no
      line end, no closing parenthesis, and it does not end in a question mark. */
  predicate IsAnswerText(a: string)
  {
    |a| >= 1 && !IsSpace(a[0]) && !IsSpace(a[|a| - 1]) && !IsQuestionMark(a[|a| - 1])
    && NoLineTerminator(a) && ')' !in a
  }

  /** Every lettered pattern ends in a letter followed by `)`. */
  lemma NoParenNoLetter(s: string)
    requires ')' !in s
    ensures LetteredAnswer(s).None?
  {
    forall p: nat, letters: LetterSet ensures LetterThenParen(s, p, letters).None? {
      if p + 1 < |s| { assert s[p + 1] in s; }
    }
    forall j: nat ensures LazyLetter(s, j).None? {
      NoParenNoLazyLetter(s, j);
    }
    forall k | 0 <= k < LetterPatternCount ensures LeftmostLetter(k, s, 0).None? {
      LeftmostLetterSpec(k, s, 0);
    }
    LastLetterMatchNone(s, LetterPatternCount);
  }

  lemma {:induction false} NoParenNoLazyLetter(s: string, j: nat)
    requires ')' !in s
    ensures LazyLetter(s, j).None?
    decreases |s| - j
  {
    if j + 1 < |s| { assert s[j + 1] in s; }
    if j < |s| { NoParenNoLazyLetter(s, j + 1); }
  }

  /** `Answer: a` gives the answer `a` as its text answer. */
  lemma AnswerLineText(a: string)
    requires |a| >= 1 && !IsSpace(a[0]) && !IsSpace(a[|a| - 1]) && NoLineTerminator(a)
    ensures TextAnswer(AnswerLine(a)) == Some(a)
  {
    var s := AnswerLine(a);
    AnswerLineLabel(a);
    AnswerLineRest(a);
    assert "الإجابة:"[0] == '\U{0627}' && "إجابة:"[0] == '\U{0625}' && s[0] == 'A';
    assert TextPattern(1, s).None? && TextPattern(2, s).None?;
    assert TextPattern(0, s) == Some(a);
    assert LastTextMatch(s, 1) == Some(a);
    assert LastTextMatch(s, 3) == LastTextMatch(s, 2) == LastTextMatch(s, 1);
  }

  lemma AnswerLineLabel(a: string)
    ensures CharsAtFolded(AnswerLine(a), 0, "answer:") && AnswerLine(a)[7] == ' '
  {
    var s := AnswerLine(a);
    forall k | 0 <= k < 7 ensures FoldCase(s[k]) == "answer:"[k] {
      assert s[k] == "Answer:"[k];
    }
  }

  lemma AnswerLineRest(a: string)
    requires |a| >= 1 && !IsSpace(a[0]) && !IsSpace(a[|a| - 1]) && NoLineTerminator(a)
    ensures RestOfLine(AnswerLine(a), 7) == Some(a)
  {
    var s := AnswerLine(a);
    assert s[7] == ' ' && s[8] == a[0];
    SpaceRunIs(s, 7, 8);
    BackSpaceRunIs(s, 8, |s|, |s|);
    forall k | 8 <= k < |s| ensures !IsLineTerminator(s[k]) {
      assert s[k] == a[k - 8];
    }
    assert NoLineTerminatorIn(s, Min(8, |s| - 1), |s|);
    assert s[8..|s|] == a;
  }

  /** `Answer: a` on an open question without an answer makes it a text-answer
      question whose only option, the correct one, is `a`. */
  lemma StepAnswers(st: ParseState, a: string)
    requires st.current.Some? && !st.found && IsAnswerText(a)
    ensures Step(st, AnswerLine(a))
         == ParseState(st.questions, Some(st.current.value.(options := [a], correctAnswer := 0, kind := TextAnswerKind)), false, true)
  {
    var s := AnswerLine(a);
    AnswerLineText(a);
    assert ')' !in s by { assert s == "Answer: " + a; }
    NoParenNoLetter(s);
    NotSkipped(s);
    NoMarkNoQuestion(s);
  }

  /** A question of the text-answer format: the numbered question and its answer. */
  lemma TextBlockRun(st: ParseState, d: char, q: string, a: string, rest: seq<string>)
    requires IsDigit(d) && IsQuestionText(q) && IsAnswerText(a)
    ensures Run(st, [QuestionLine(d, q), AnswerLine(a)] + rest)
         == Run(ParseState(Flush(st), Some(ParsedQuestion(q, [a], 0, TextAnswerKind)), false, true), rest)
  {
    assert [QuestionLine(d, q), AnswerLine(a)] + rest == [QuestionLine(d, q)] + ([AnswerLine(a)] + rest);
    StepStarts(st, d, q);
    RunCons(st, QuestionLine(d, q), [AnswerLine(a)] + rest);
    var st1 := ParseState(Flush(st), Some(ParsedQuestion(q, [], -1, Untyped)), true, false);
    StepAnswers(st1, a);
    RunCons(st1, AnswerLine(a), rest);
  }

  // ---------------------------------------------------------------------------
  // `Answer: x)`: a text answer and a lettered answer on one line

  /** `Answer: x)` is both a text answer, `x)`, and a lettered answer naming `x`. */
  lemma AnswerLetterLine(x: char)
    requires IsLatinOptionLetter(x)
    ensures var s := AnswerLine([x, ')']);
      !IsSkipped(s) && QuestionStart(s).None?
      && TextAnswer(s) == Some([x, ')']) && LetteredAnswer(s) == Some(LetterIndex(x))
  {
    var s := AnswerLine([x, ')']);
    AnswerLetterShape(x);
    AnswerLineLabel([x, ')']);
    AnswerLabelNames(s, 0, x);
    AnswerLineText([x, ')']);
    NotSkipped(s);
    NoMarkNoQuestion(s);
  }

  lemma AnswerLetterShape(x: char)
    requires IsLatinOptionLetter(x)
    ensures var s := AnswerLine([x, ')']);
      |s| == 10 && s[8] == x && s[9] == ')' && OnlyColonAt(s, 6)
      && '\U{2705}' !in s && '\U{0627}' !in s && '\U{0625}' !in s
  {
    var s := AnswerLine([x, ')']);
    var pre := "Answer";
    assert s == pre + [':', ' ', x, ')'];
    assert ':' !in pre && '\U{2705}' !in pre && '\U{0627}' !in pre && '\U{0625}' !in pre;
    forall k | 0 <= k < 6 ensures s[k] != ':' {
      assert s[k] == pre[k];
    }
  }

  /** A question answered by `Answer: x)` gets `x)` as its only option and the
      index of `x` as its answer, so it is kept only when `x` is `a` or `A`:
      any other letter points past its single option. */
  lemma AnswerLetterKeptOnlyForA(d: char, q: string, x: char)
    requires IsDigit(d) && IsQuestionText(q) && IsLatinOptionLetter(x)
    ensures Parse([QuestionLine(d, q), AnswerLine([x, ')'])])
         == if x == 'a' || x == 'A' then [ParsedQuestion(q, [[x, ')']], 0, MultipleChoiceKind)] else []
  {
    var lines := [QuestionLine(d, q), AnswerLine([x, ')'])];
    assert lines == [QuestionLine(d, q)] + ([AnswerLine([x, ')'])] + []);
    StepStarts(Start, d, q);
    RunCons(Start, QuestionLine(d, q), [AnswerLine([x, ')'])] + []);
    var st1 := ParseState([], Some(ParsedQuestion(q, [], -1, Untyped)), true, false);
    AnswerLetterLine(x);
    RunCons(st1, AnswerLine([x, ')']), []);
    var st2 := ParseState([], Some(ParsedQuestion(q, [[x, ')']], LetterIndex(x), MultipleChoiceKind)), false, true);
    assert Step(st1, AnswerLine([x, ')'])) == st2;
  }

  // ---------------------------------------------------------------------------
  // From reply text to lines

  /** A line as the formats write it: non-empty, trimmed, with no line end and
      no backtick. */
  predicate IsCleanLine(l: string)
  {
    l != [] && !IsSpace(l[0]) && !IsSpace(l[|l| - 1]) && '\n' !in l && '`' !in l
  }

  /** Lines joined with line ends, each trimmed or empty, come back as the
      non-empty ones. */
  lemma LinesOfJoin(pieces: seq<string>)
    requires |pieces| >= 1
    requires forall i :: 0 <= i < |pieces| ==> pieces[i] == [] || IsCleanLine(pieces[i])
    ensures Lines(Join(pieces, '\n')) == Filter(NonEmptyLine, pieces)
  {
    SplitJoin(pieces, '\n');
    var t := seq(|pieces|, i requires 0 <= i < |pieces| => Trim(pieces[i]));
    forall i | 0 <= i < |pieces| ensures t[i] == pieces[i] {
      TrimOfTrimmed(pieces[i]);
    }
    assert t == pieces;
  }

  /** Every line of a block of the multiple-choice format is clean. */
  lemma BlockClean(d: char, q: string, letters: string, opts: seq<string>, x: char)
    requires IsDigit(d) && IsQuestionText(q) && '`' !in q && WellWrittenOptions(letters, opts)
    requires forall i :: 0 <= i < |opts| ==> '`' !in opts[i]
    requires IsLatinOptionLetter(x)
    ensures forall i :: 0 <= i < |Block(d, q, letters, opts, x)| ==> IsCleanLine(Block(d, q, letters, opts, x)[i])
  {
    var b := Block(d, q, letters, opts, x);
    assert '\n' !in q by { assert forall k :: 0 <= k < |q| ==> q[k] != '\n'; }
    assert IsCleanLine(QuestionLine(d, q));
    forall i | 0 <= i < |opts| ensures IsCleanLine(OptionLine(letters[i], opts[i])) {
      var o := opts[i];
      assert '\n' !in o by { assert forall k :: 0 <= k < |o| ==> o[k] != '\n'; }
    }
    assert '\n' !in "Correct Answer: " && '`' !in "Correct Answer: ";
    assert IsCleanLine(CorrectLine(x));
    forall i | 0 <= i < |b| ensures IsCleanLine(b[i]) {
      if 0 < i < |b| - 1 {
        assert b[i] == OptionLines(letters, opts)[i - 1];
      }
    }
  }
}
