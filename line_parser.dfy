// The line-by-line parser of `detectAndParseQuiz` (ChatInterface.jsx): a state
// machine over the trimmed, non-empty lines of a reply that collects numbered
// questions, their lettered options and their answer lines.

module LineParser {
  import opened Common
  import opened Text
  import opened QuizData
  import opened LinePatterns

  /** The parser's variables between two lines: the questions kept so far,
      `currentQuestion`, `collectingOptions` and `correctAnswerFound`. */
  datatype ParseState = ParseState(
    questions: seq<ParsedQuestion>,
    current: Option<ParsedQuestion>,
    collecting: bool,
    found: bool)

  const Start: ParseState := ParseState([], None, false, false)

  /** The validity check applied before a question is kept. Its first two
      disjuncts are special cases of the last two, so the kind does not matter
      (`CompleteIgnoresKind`). */
  predicate IsComplete(q: ParsedQuestion)
  {
    (q.kind == TextAnswerKind && |q.options| == 1 && q.correctAnswer == 0)
    || (q.kind == MultipleChoiceKind && |q.options| >= 2 && q.correctAnswer != -1)
    || (|q.options| == 1 && q.correctAnswer == 0)
    || (|q.options| >= 2 && q.correctAnswer != -1)
  }

  lemma CompleteIgnoresKind(q: ParsedQuestion)
    ensures IsComplete(q) <==> (|q.options| == 1 && q.correctAnswer == 0) || (|q.options| >= 2 && q.correctAnswer != -1)
  {
  }

  /** The kept questions with the current one added when it is complete: what a
      new question start and the end of the input do. */
  function Flush(st: ParseState): (r: seq<ParsedQuestion>)
    ensures st.current.Some? && IsComplete(st.current.value) ==> r == st.questions + [st.current.value]
    ensures !(st.current.Some? && IsComplete(st.current.value)) ==> r == st.questions
  {
    if st.current.Some? && IsComplete(st.current.value) then st.questions + [st.current.value] else st.questions
  }

  /** A fresh question as a question-start line creates it. */
  function NewQuestion(text: string): ParsedQuestion
  {
    ParsedQuestion(text, [], -1, Untyped)
  }

  /** What the patterns make of one line: whether it is skipped, the question
      it starts, its text answer, the option index its lettered answer names,
      and the option it lists. */
  datatype LineInfo = LineInfo(
    skipped: bool,
    start: Option<string>,
    text: Option<string>,
    letter: Option<int>,
    option: Option<string>)

  function Classify(line: string): LineInfo
  {
    LineInfo(IsSkipped(line), QuestionStart(line), TextAnswer(line), LetteredAnswer(line), OptionText(line))
  }

  /** The answer step on the current question, when no answer has been found yet:
      a text answer replaces the options by the answer text; then, if there is
      at least one option, a lettered answer sets the correct index. Returns the
      question and whether an answer was found. */
  function AnswerStep(q: ParsedQuestion, info: LineInfo): (r: (ParsedQuestion, bool))
    ensures r.0.text == q.text
    ensures r.1 <==> info.text.Some? || (info.letter.Some? && (info.text.Some? || |q.options| > 0))
  {
    var q1 := if info.text.Some? then q.(options := [info.text.value], correctAnswer := 0, kind := TextAnswerKind) else q;
    var l := if |q1.options| > 0 then info.letter else None;
    var q2 := if l.Some? then q1.(correctAnswer := l.value, kind := MultipleChoiceKind) else q1;
    (q2, info.text.Some? || l.Some?)
  }

  /** What a classified line does to the state, in the source's order: skipped
      lines, question starts, answers, options. */
  function Apply(st: ParseState, info: LineInfo): ParseState
  {
    if info.skipped then st
    else if info.start.Some? then ParseState(Flush(st), Some(NewQuestion(info.start.value)), true, false)
    else if st.current.Some? && !st.found then
      var (q, found) := AnswerStep(st.current.value, info);
      var collecting := st.collecting && !found;
      var option := if collecting then info.option else None;
      var q' := if option.Some? then q.(options := q.options + [option.value]) else q;
      ParseState(st.questions, Some(q'), collecting, found)
    else st
  }

  /** What one line does to the state. */
  function Step(st: ParseState, line: string): ParseState
  {
    Apply(st, Classify(line))
  }

  /** The state after the lines `lines`, starting from `st`. */
  function Run(st: ParseState, lines: seq<string>): ParseState
    decreases |lines|
  {
    if lines == [] then st else Run(Step(st, lines[0]), lines[1..])
  }

  /** The questions the parser keeps from `lines`: the run from the initial
      state, then the last question if it is complete. */
  function Parse(lines: seq<string>): seq<ParsedQuestion>
  {
    Flush(Run(Start, lines))
  }

  /** The filter `line => line`: an empty string is falsy. */
  predicate NonEmptyLine(l: string)
  {
    l != []
  }

  /** `responseText.split('\n').map(line => line.trim()).filter(line => line)`. */
  function Lines(text: string): (r: seq<string>)
    ensures forall i :: 0 <= i < |r| ==> r[i] != [] && !IsSpace(r[i][0]) && !IsSpace(r[i][|r[i]| - 1])
  {
    var pieces := Split(text, '\n');
    Filter(NonEmptyLine, seq(|pieces|, i requires 0 <= i < |pieces| => Trim(pieces[i])))
  }

  // ---------------------------------------------------------------------------
  // The imperative parser

  /** The loop over the question patterns, stopping at the first match. */
  method MatchQuestion(line: string) returns (m: Option<string>)
    ensures m == QuestionStart(line)
  {
    var k := 0;
    while k < QuestionPatternCount
      invariant 0 <= k <= QuestionPatternCount
      invariant FirstQuestionMatch(line, k) == QuestionStart(line)
      decreases QuestionPatternCount - k
    {
      m := QuestionPattern(k, line);
      if m.Some? {
        return;
      }
      k := k + 1;
    }
    m := None;
  }

  /** The loop over the text-answer patterns; every match overwrites the answer. */
  method MatchTextAnswer(line: string) returns (m: Option<string>)
    ensures m == TextAnswer(line)
  {
    m := None;
    var k := 0;
    while k < TextPatternCount
      invariant 0 <= k <= TextPatternCount
      invariant m == LastTextMatch(line, k)
    {
      var t := TextPattern(k, line);
      if t.Some? {
        m := t;
      }
      k := k + 1;
    }
  }

  /** The loop over the lettered patterns: each match whose letter maps into
      0..3 overwrites the index. */
  method MatchLetter(line: string) returns (index: Option<int>)
    ensures index == LetteredAnswer(line)
  {
    index := None;
    var k := 0;
    while k < LetterPatternCount
      invariant 0 <= k <= LetterPatternCount
      invariant index == LastLetterMatch(line, k)
    {
      var m := LeftmostLetter(k, line, 0);
      if m.Some? {
        var n := LetterIndex(m.value);
        if 0 <= n <= 3 {
          index := Some(n);
        }
      }
      k := k + 1;
    }
  }

  /** The loop over the option patterns, stopping at the first match. */
  method MatchOption(line: string) returns (m: Option<string>)
    ensures m == OptionText(line)
  {
    var k := 0;
    while k < OptionPatternCount
      invariant 0 <= k <= OptionPatternCount
      invariant FirstOptionMatch(line, k) == OptionText(line)
      decreases OptionPatternCount - k
    {
      m := OptionPattern(k, line);
      if m.Some? {
        return;
      }
      k := k + 1;
    }
    m := None;
  }

  /** The loop body for one line, updating the parser's variables in place. */
  method ParseLine(st: ParseState, line: string) returns (st': ParseState)
    ensures st' == Step(st, line)
  {
    st' := st;
    if IsSkipped(line) {
      return;
    }
    var start := MatchQuestion(line);
    if start.Some? {
      if st'.current.Some? && IsComplete(st'.current.value) {
        st' := st'.(questions := st'.questions + [st'.current.value]);
      }
      st' := st'.(current := Some(NewQuestion(start.value)), collecting := true, found := false);
      return;
    }
    if st'.current.Some? && !st'.found {
      var q := st'.current.value;
      var text := MatchTextAnswer(line);
      if text.Some? {
        q := q.(options := [text.value], correctAnswer := 0, kind := TextAnswerKind);
        st' := st'.(found := true, collecting := false);
      }
      if |q.options| > 0 {
        var index := MatchLetter(line);
        if index.Some? {
          q := q.(correctAnswer := index.value, kind := MultipleChoiceKind);
          st' := st'.(found := true, collecting := false);
        }
      }
      if st'.collecting && !st'.found {
        var option := MatchOption(line);
        if option.Some? {
          q := q.(options := q.options + [option.value]);
        }
      }
      st' := st'.(current := Some(q));
    }
  }

  /** The parsing loop over all lines and the final check of the last question. */
  method ParseLines(lines: seq<string>) returns (questions: seq<ParsedQuestion>)
    ensures questions == Parse(lines)
  {
    var st := Start;
    var i := 0;
    while i < |lines|
      invariant 0 <= i <= |lines|
      invariant Run(st, lines[i..]) == Run(Start, lines)
    {
      assert lines[i..] == [lines[i]] + lines[i + 1..];
      st := ParseLine(st, lines[i]);
      i := i + 1;
    }
    assert lines[i..] == [];
    if st.current.Some? && IsComplete(st.current.value) {
      st := st.(questions := st.questions + [st.current.value]);
    }
    questions := st.questions;
  }

  // ---------------------------------------------------------------------------
  // What the parser guarantees

  /** A question as the parser may hold it: its text ends in a question mark and
      its index is -1 or one of the four option positions. */
  predicate WellFormed(q: ParsedQuestion)
  {
    |q.text| >= 1 && IsQuestionMark(q.text[|q.text| - 1]) && -1 <= q.correctAnswer <= 3
  }

  /** A question as the parser surfaces it: complete, with an index in 0..3. */
  predicate Surfaced(q: ParsedQuestion)
  {
    WellFormed(q) && 0 <= q.correctAnswer <= 3
    && ((|q.options| == 1 && q.correctAnswer == 0) || |q.options| >= 2)
  }

  /** The invariant of the loop: kept questions are surfaced ones; a found answer
      or the collecting flag imply a current question, and a found answer set
      its index. */
  predicate Inv(st: ParseState)
  {
    (forall i :: 0 <= i < |st.questions| ==> Surfaced(st.questions[i]))
    && (st.current.Some? ==> WellFormed(st.current.value))
    && (st.found ==> st.current.Some? && st.current.value.correctAnswer != -1)
    && (st.collecting ==> st.current.Some? && !st.found)
  }

  lemma FlushSurfaced(st: ParseState)
    requires Inv(st)
    ensures forall i :: 0 <= i < |Flush(st)| ==> Surfaced(Flush(st)[i])
  {
  }

  lemma ApplyPreservesInv(st: ParseState, info: LineInfo)
    requires Inv(st)
    requires info.start.Some? ==> |info.start.value| >= 1 && IsQuestionMark(info.start.value[|info.start.value| - 1])
    requires info.letter.Some? ==> 0 <= info.letter.value <= 3
    ensures Inv(Apply(st, info))
  {
    if !info.skipped && info.start.Some? {
      FlushSurfaced(st);
    }
  }

  lemma StepPreservesInv(st: ParseState, line: string)
    requires Inv(st)
    ensures Inv(Step(st, line))
  {
    var start := QuestionStart(line);
    var letter := LetteredAnswer(line);
    assert start.Some? ==> |start.value| >= 1 && IsQuestionMark(start.value[|start.value| - 1]);
    assert letter.Some? ==> 0 <= letter.value <= 3;
    ApplyPreservesInv(st, Classify(line));
  }

  lemma {:induction false} RunPreservesInv(st: ParseState, lines: seq<string>)
    requires Inv(st)
    ensures Inv(Run(st, lines))
    decreases |lines|
  {
    if lines != [] {
      StepPreservesInv(st, lines[0]);
      RunPreservesInv(Step(st, lines[0]), lines[1..]);
    }
  }

  /** Every question the parser returns is complete — one option with index 0,
      or at least two options with an index other than -1 — its index is one
      of 0..3, and its text ends in `?` or `؟`. */
  lemma ParsedQuestionsSurfaced(lines: seq<string>)
    ensures forall i :: 0 <= i < |Parse(lines)| ==> Surfaced(Parse(lines)[i]) && IsComplete(Parse(lines)[i])
  {
    RunPreservesInv(Start, lines);
    FlushSurfaced(Run(Start, lines));
  }

  /** Once an answer is found, answer and option lines change nothing until the
      next question start. */
  lemma {:induction false} AnswerFreezesQuestion(st: ParseState, lines: seq<string>)
    requires st.found
    requires forall i :: 0 <= i < |lines| ==> IsSkipped(lines[i]) || QuestionStart(lines[i]).None?
    ensures Run(st, lines) == st
    decreases |lines|
  {
    if lines != [] {
      assert Step(st, lines[0]) == st;
      AnswerFreezesQuestion(st, lines[1..]);
    }
  }

  /** A line that does not end in `?` or `؟` never starts a question, so it
      never changes the list of kept questions. */
  lemma NoMarkKeepsQuestions(st: ParseState, line: string)
    requires |line| >= 1 && !IsSpace(line[|line| - 1]) && !IsQuestionMark(line[|line| - 1])
    ensures Step(st, line).questions == st.questions
  {
    NoMarkNoQuestion(line);
  }

  /** Lines none of which ends in a question mark yield no question at all. */
  lemma {:induction false} NoMarkNoQuestions(st: ParseState, lines: seq<string>)
    requires st.current.None? && !st.found && !st.collecting
    requires forall i :: 0 <= i < |lines| ==> |lines[i]| >= 1 && !IsSpace(lines[i][|lines[i]| - 1]) && !IsQuestionMark(lines[i][|lines[i]| - 1])
    ensures Run(st, lines) == st
    decreases |lines|
  {
    if lines != [] {
      NoMarkNoQuestion(lines[0]);
      assert Step(st, lines[0]) == st;
      NoMarkNoQuestions(st, lines[1..]);
    }
  }

  /** A lettered answer needs an option: on a question without options, a line
      that is no text answer leaves the index unset, whatever letter it names. */
  lemma LetteredNeedsOptions(st: ParseState, line: string)
    requires st.current.Some? && st.current.value.options == [] && !st.found
    requires TextAnswer(line).None?
    ensures Step(st, line).current.Some?
    ensures Step(st, line).current.value.correctAnswer == st.current.value.correctAnswer || QuestionStart(line).Some?
  {
  }

  /** A text answer on an open question replaces its options by the trimmed
      answer, sets index 0 and ends option collection; a lettered pattern on the
      same line then overrides the index. */
  lemma TextAnswerSetsOption(st: ParseState, line: string, answer: string)
    requires st.current.Some? && !st.found && !IsSkipped(line) && QuestionStart(line).None?
    requires TextAnswer(line) == Some(answer)
    ensures var st' := Step(st, line);
      && st'.found && !st'.collecting && st'.questions == st.questions
      && st'.current.Some? && st'.current.value.options == [answer]
      && st'.current.value.text == st.current.value.text
      && (LetteredAnswer(line).None? ==> st'.current.value.correctAnswer == 0 && st'.current.value.kind == TextAnswerKind)
      && (LetteredAnswer(line).Some? ==> st'.current.value.correctAnswer == LetteredAnswer(line).value)
  {
  }
}
