// Whole replies written in the formats the quiz prompt (ChatInterface.jsx) asks
// for, through `detectAndParseQuiz`: every question of the multiple-choice and
// text-answer formats comes back as written, a numbered line that does not end
// in a question mark is absorbed, and a reply none of whose lines ends in a
// question mark, as in the prompt's mixed format, yields no quiz.

module ReplyFormats {
  import opened Common
  import opened Text
  import opened QuizData
  import opened Settings
  import opened LinePatterns
  import opened QuizDetection
  import opened JsonFastPath
  import opened LineParser
  import opened QuizParser
  import opened PromptExamples

  /** One question of a reply as the prompt's formats write it. */
  datatype FormatQuestion =
    | Choice(number: char, text: string, options: seq<string>, letter: char)
      // `1. …?`, the lines `a) …` to `d) …`, `Correct Answer: x)`
    | Written(number: char, text: string, answer: string)
      // `1. …?`, `Answer: …`
    | Unmarked(number: char, text: string, answer: string)
      // `2. … .`, `Answer: …`: a numbered line without a question mark

  const OptionLetters: string := "abcd"

  /** What the format asks of each part, as predicates of the line patterns. */
  predicate WellWritten(f: FormatQuestion)
  {
    IsDigit(f.number) && '`' !in f.text
    && match f
       case Choice(_, text, options, letter) =>
         IsQuestionText(text) && 2 <= |options| <= 4 && IsLatinOptionLetter(letter)
         && forall i :: 0 <= i < |options| ==> IsPlainText(options[i]) && '`' !in options[i]
       case Written(_, text, answer) =>
         IsQuestionText(text) && IsAnswerText(answer) && '`' !in answer
       case Unmarked(_, text, answer) =>
         |text| >= 1 && !IsSpace(text[0]) && !IsSpace(text[|text| - 1]) && !IsQuestionMark(text[|text| - 1])
         && NoLineTerminator(text) && IsAnswerText(answer) && '`' !in answer
  }

  /** The lines of one question. */
  function FormatLines(f: FormatQuestion): seq<string>
  {
    match f
    case Choice(number, text, options, letter) =>
      if |options| <= 4 then Block(number, text, OptionLetters[..|options|], options, letter) else []
    case Written(number, text, answer) => [QuestionLine(number, text), AnswerLine(answer)]
    case Unmarked(number, text, answer) => [QuestionLine(number, text), AnswerLine(answer)]
  }

  /** The lines of a reply, as `Lines` returns them. */
  function ReplyLines(fs: seq<FormatQuestion>): seq<string>
  {
    if fs == [] then [] else FormatLines(fs[0]) + ReplyLines(fs[1..])
  }

  /** The pieces of a reply between its line ends: each question followed by an
      empty line. */
  function ReplyPieces(fs: seq<FormatQuestion>): seq<string>
  {
    if fs == [] then [] else FormatLines(fs[0]) + [""] + ReplyPieces(fs[1..])
  }

  function Reply(fs: seq<FormatQuestion>): string
  {
    Join(ReplyPieces(fs), '\n')
  }

  /** The question one part of a reply is meant to produce, if any. */
  function Meant(f: FormatQuestion): (r: seq<ParsedQuestion>)
    ensures |r| == if f.Unmarked? then 0 else 1
  {
    match f
    case Choice(_, text, options, letter) => [ParsedQuestion(text, options, LetterIndex(letter), MultipleChoiceKind)]
    case Written(_, text, answer) => [ParsedQuestion(text, [answer], 0, TextAnswerKind)]
    case Unmarked(_, _, _) => []
  }

  /** The questions a reply is meant to produce, in order. */
  function Intended(fs: seq<FormatQuestion>): seq<ParsedQuestion>
  {
    if fs == [] then [] else Meant(fs[0]) + Intended(fs[1..])
  }

  // ---------------------------------------------------------------------------
  // Running the parser over a reply

  /** A state in which lines that start no question change nothing: an answer
      was found, or no question has started yet. */
  predicate Settled(st: ParseState)
  {
    st.found || (st.current.None? && !st.collecting)
  }

  lemma SettledStays(st: ParseState, line: string)
    requires Settled(st) && QuestionStart(line).None?
    ensures Step(st, line) == st
  {
  }

  lemma ChoiceLetters(n: nat, options: seq<string>)
    requires 2 <= n <= 4 && |options| == n
    requires forall i :: 0 <= i < |options| ==> IsPlainText(options[i])
    ensures WellWrittenOptions(OptionLetters[..n], options)
  {
    forall i | 0 <= i < n ensures IsLatinOptionLetter(OptionLetters[..n][i]) {
      assert OptionLetters[..n][i] == OptionLetters[i];
      assert i == 0 || i == 1 || i == 2 || i == 3;
    }
  }

  /** The state after the lines of one question, from a settled state. */
  function After(st: ParseState, f: FormatQuestion): ParseState
  {
    if f.Unmarked? then st else ParseState(Flush(st), Some(Meant(f)[0]), false, true)
  }

  /** Each question of the formats is complete, so the next flush keeps it. */
  lemma AfterSettles(st: ParseState, f: FormatQuestion)
    requires WellWritten(f)
    ensures Flush(After(st, f)) == Flush(st) + Meant(f)
    ensures Settled(st) ==> Settled(After(st, f))
  {
    if f.Unmarked? {
      assert Flush(st) + [] == Flush(st);
    } else {
      assert IsComplete(Meant(f)[0]);
      assert Meant(f) == [Meant(f)[0]];
    }
  }

  /** One question with the lines after it: a question of the multiple-choice or
      text-answer format leaves itself answered and the question before it
      flushed; a numbered line without a question mark and its answer change
      nothing. */
  lemma FormatRun(st: ParseState, f: FormatQuestion, rest: seq<string>)
    requires WellWritten(f) && Settled(st)
    ensures Run(st, FormatLines(f) + rest) == Run(After(st, f), rest)
  {
    match f
    case Choice(number, text, options, letter) =>
      ChoiceLetters(|options|, options);
      BlockRun(st, number, text, OptionLetters[..|options|], options, letter, rest);
    case Written(number, text, answer) =>
      TextBlockRun(st, number, text, answer, rest);
    case Unmarked(number, text, answer) =>
      var l1, l2 := QuestionLine(number, text), AnswerLine(answer);
      assert [l1, l2] + rest == [l1] + ([l2] + rest);
      NoMarkNoQuestion(l1);
      NoMarkNoQuestion(l2);
      SettledStays(st, l1);
      SettledStays(st, l2);
      RunCons(st, l1, [l2] + rest);
      RunCons(st, l2, rest);
  }

  lemma ReplyLinesCons(fs: seq<FormatQuestion>)
    requires |fs| >= 1
    ensures ReplyLines(fs) == FormatLines(fs[0]) + ReplyLines(fs[1..])
    ensures Intended(fs) == Meant(fs[0]) + Intended(fs[1..])
  {
  }

  /** The parser keeps, in order, exactly the questions the reply is meant to
      produce, after the ones it held before. */
  lemma {:induction false} ReplyRun(st: ParseState, fs: seq<FormatQuestion>)
    requires Settled(st) && forall i :: 0 <= i < |fs| ==> WellWritten(fs[i])
    ensures Flush(Run(st, ReplyLines(fs))) == Flush(st) + Intended(fs)
    decreases |fs|
  {
    if fs == [] {
      assert Flush(st) + [] == Flush(st);
    } else {
      AfterSettles(st, fs[0]);
      ReplyRun(After(st, fs[0]), fs[1..]);
      ReplyRunStep(st, fs);
    }
  }

  lemma ReplyRunStep(st: ParseState, fs: seq<FormatQuestion>)
    requires |fs| >= 1 && Settled(st) && WellWritten(fs[0])
    requires Flush(Run(After(st, fs[0]), ReplyLines(fs[1..]))) == Flush(After(st, fs[0])) + Intended(fs[1..])
    ensures Flush(Run(st, ReplyLines(fs))) == Flush(st) + Intended(fs)
  {
    RunHead(st, fs);
    AfterSettles(st, fs[0]);
    IntendedCons(fs, Flush(st));
  }

  /** The first question's lines take the parser from `st` to `After(st, fs[0])`. */
  lemma RunHead(st: ParseState, fs: seq<FormatQuestion>)
    requires |fs| >= 1 && Settled(st) && WellWritten(fs[0])
    ensures Run(st, ReplyLines(fs)) == Run(After(st, fs[0]), ReplyLines(fs[1..]))
  {
    ReplyLinesCons(fs);
    FormatRun(st, fs[0], ReplyLines(fs[1..]));
  }

  lemma IntendedCons(fs: seq<FormatQuestion>, prefix: seq<ParsedQuestion>)
    requires |fs| >= 1
    ensures prefix + Meant(fs[0]) + Intended(fs[1..]) == prefix + Intended(fs)
  {
    ReplyLinesCons(fs);
  }

  /** The questions parsed from a reply's lines are its intended questions. */
  lemma ReplyParsed(fs: seq<FormatQuestion>)
    requires forall i :: 0 <= i < |fs| ==> WellWritten(fs[i])
    ensures Parse(ReplyLines(fs)) == Intended(fs)
  {
    ReplyRun(Start, fs);
    assert Flush(Start) == [];
    assert [] + Intended(fs) == Intended(fs);
  }

  // ---------------------------------------------------------------------------
  // From the reply text to its lines, and through `detectAndParseQuiz`

  /** Every line of a well-written question is trimmed, non-empty, on one line
      and free of backticks. */
  lemma FormatClean(f: FormatQuestion)
    requires WellWritten(f)
    ensures forall i :: 0 <= i < |FormatLines(f)| ==> IsCleanLine(FormatLines(f)[i])
  {
    match f
    case Choice(number, text, options, letter) =>
      ChoiceLetters(|options|, options);
      BlockClean(number, text, OptionLetters[..|options|], options, letter);
    case Written(number, text, answer) =>
      TextLinesClean(number, text, answer);
    case Unmarked(number, text, answer) =>
      TextLinesClean(number, text, answer);
  }

  lemma TextLinesClean(d: char, q: string, a: string)
    requires IsDigit(d) && |q| >= 1 && !IsSpace(q[|q| - 1]) && NoLineTerminator(q) && '`' !in q
    requires IsAnswerText(a) && '`' !in a
    ensures IsCleanLine(QuestionLine(d, q)) && IsCleanLine(AnswerLine(a))
  {
    assert '\n' !in q by { assert forall k :: 0 <= k < |q| ==> q[k] != '\n'; }
    assert '\n' !in a by { assert forall k :: 0 <= k < |a| ==> a[k] != '\n'; }
    assert QuestionLine(d, q)[|QuestionLine(d, q)| - 1] == q[|q| - 1];
    assert AnswerLine(a)[|AnswerLine(a)| - 1] == a[|a| - 1];
  }

  /** The pieces between line ends: the empty separators drop out and the
      rest are the reply's lines. */
  lemma {:induction false} ReplyPiecesFilter(fs: seq<FormatQuestion>)
    requires forall i :: 0 <= i < |fs| ==> WellWritten(fs[i])
    ensures Filter(NonEmptyLine, ReplyPieces(fs)) == ReplyLines(fs)
    decreases |fs|
  {
    if fs != [] {
      var head := FormatLines(fs[0]);
      FormatClean(fs[0]);
      FilterAllOrNone(NonEmptyLine, head);
      FilterAllOrNone(NonEmptyLine, [""]);
      FilterAppend(NonEmptyLine, head, [""]);
      FilterAppend(NonEmptyLine, head + [""], ReplyPieces(fs[1..]));
      ReplyPiecesFilter(fs[1..]);
      assert head + [] == head;
    }
  }

  lemma {:induction false} ReplyPiecesClean(fs: seq<FormatQuestion>)
    requires forall i :: 0 <= i < |fs| ==> WellWritten(fs[i])
    ensures forall i :: 0 <= i < |ReplyPieces(fs)| ==> ReplyPieces(fs)[i] == [] || IsCleanLine(ReplyPieces(fs)[i])
    decreases |fs|
  {
    if fs != [] {
      FormatClean(fs[0]);
      ReplyPiecesClean(fs[1..]);
      var head, tail := FormatLines(fs[0]), ReplyPieces(fs[1..]);
      forall i | 0 <= i < |ReplyPieces(fs)| ensures ReplyPieces(fs)[i] == [] || IsCleanLine(ReplyPieces(fs)[i]) {
        if i < |head| {
          assert ReplyPieces(fs)[i] == head[i];
        } else if i > |head| {
          assert ReplyPieces(fs)[i] == tail[i - |head| - 1];
        }
      }
    }
  }

  /** The reply text comes back as its lines, and holds no backtick. */
  lemma ReplyText(fs: seq<FormatQuestion>)
    requires |fs| >= 1 && forall i :: 0 <= i < |fs| ==> WellWritten(fs[i])
    ensures Lines(Reply(fs)) == ReplyLines(fs)
    ensures '`' !in Reply(fs)
  {
    ReplyPiecesClean(fs);
    ReplyPiecesFilter(fs);
    LinesOfJoin(ReplyPieces(fs));
    NotInJoin(ReplyPieces(fs), '\n', '`');
  }

  /** A reply whose first question ends in the Latin `?` passes the gate. */
  lemma ReplyGate(fs: seq<FormatQuestion>)
    requires |fs| >= 1 && WellWritten(fs[0])
    requires !fs[0].Unmarked? && |fs[0].text| >= 1 && fs[0].text[|fs[0].text| - 1] == '?'
    ensures PassesGate(Reply(fs))
  {
    var f := fs[0];
    var pieces := ReplyPieces(fs);
    var first := QuestionLine(f.number, f.text);
    FirstPiece(fs);
    JoinCons(first, pieces[1..], '\n');
    assert [first] + pieces[1..] == pieces;
    var tail := ['\n'] + Join(pieces[1..], '\n');
    assert Reply(fs) == first + tail;
    QuestionLinePasses(f.number, f.text, tail);
  }

  lemma FirstPiece(fs: seq<FormatQuestion>)
    requires |fs| >= 1 && WellWritten(fs[0]) && !fs[0].Unmarked?
    ensures |ReplyPieces(fs)| >= 2 && ReplyPieces(fs)[0] == QuestionLine(fs[0].number, fs[0].text)
  {
  }

  lemma QuestionLinePasses(d: char, q: string, tail: string)
    requires IsDigit(d) && |q| >= 1 && q[|q| - 1] == '?' && NoLineTerminator(q)
    ensures PassesGate(QuestionLine(d, q) + tail)
  {
    var body := [' '] + q[..|q| - 1];
    forall k | 0 <= k < |body| ensures !IsLineTerminator(body[k]) {
      if k > 0 { assert body[k] == q[k - 1]; }
    }
    NumberedLinePasses([], body, tail, d);
    assert QuestionLine(d, q) + tail == [] + [d, '.'] + body + ['?'] + tail;
  }

  /** What `detectAndParseQuiz` makes of a reply in the prompt's formats: no
      fenced block can be found, so a reply that passes the gate and is meant
      to hold a question becomes the quiz of exactly its intended questions,
      and any other reply yields nothing. */
  lemma ReplyDetected(
    fs: seq<FormatQuestion>,
    decode: string -> Option<Json>,
    config: Option<SubmittedConfig>,
    storedLanguage: Option<string>,
    legacyLanguage: Option<string>,
    inferred: InferredMetadata)
    requires |fs| >= 1 && forall i :: 0 <= i < |fs| ==> WellWritten(fs[i])
    ensures DetectAndParseQuiz(Reply(fs), decode, config, storedLanguage, legacyLanguage, inferred)
      == if PassesGate(Reply(fs)) && Intended(fs) != []
         then Some(Assemble(Intended(fs), config, StoredPreference(storedLanguage, legacyLanguage, "en") == "ar", inferred))
         else None
  {
    ReplyText(fs);
    FenceNeedsBacktick(Reply(fs));
    ReplyParsed(fs);
  }
}
