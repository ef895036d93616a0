// The regular expressions that the quiz line parser applies to one trimmed line,
// written out as functions over characters. Each function returns what the
// source reads from the match: the captured group it uses, or nothing.
//
// Greedy quantifiers are resolved the way a backtracking matcher resolves them.
// Where a quantified run is followed by a character that the run cannot contain
// (a digit after `\s*`, `c` after `\*?`), giving characters back cannot produce a
// match, so the greedy choice is the only one and is computed directly. The two
// places where backtracking matters, `\s*(.+)$` and `\s*(.+[؟?])\s*$`, come
// with lemmas relating the computed choice to the regex's own definition.

module LinePatterns {
  import opened Common
  import opened Text

  /** `[؟?]`: the Latin or the Arabic question mark. */
  predicate IsQuestionMark(c: char)
  {
    c == '?' || c == '\U{061F}'
  }

  /** The option letters of the Latin patterns, `[a-dA-D]`. */
  predicate IsLatinOptionLetter(c: char)
  {
    'a' <= c <= 'd' || 'A' <= c <= 'D'
  }

  /** The option letters of the Arabic patterns, `[أبجد]`. */
  predicate IsArabicOptionLetter(c: char)
  {
    c == '\U{0623}' || c == '\U{0628}' || c == '\U{062C}' || c == '\U{062F}'
  }

  /** Which letters a character class admits. */
  datatype LetterSet = LatinLetters | ArabicLetters | AnyLetters

  predicate InLetterSet(c: char, letters: LetterSet)
  {
    match letters
    case LatinLetters => IsLatinOptionLetter(c)
    case ArabicLetters => IsArabicOptionLetter(c)
    case AnyLetters => IsLatinOptionLetter(c) || IsArabicOptionLetter(c)
  }

  // ---------------------------------------------------------------------------
  // `\s*(.+)$` and `\s*(.+[؟?])\s*$`, applied to the rest of a line from position `p`

  /** A way for `\s*(.+)$` to match the rest of `line` from `p`: `\s*` takes the
      spaces up to `j` and `.+` the rest, which must be non-empty and free of line
      terminators. */
  ghost predicate RestSplit(line: string, p: nat, j: nat)
    requires p <= |line|
  {
    p <= j <= p + SpaceRun(line, p) && j < |line| && NoLineTerminatorIn(line, j, |line|)
  }

  /** `\s*(.+)$` on the rest of `line` from `p`, returning the captured group
      trimmed: the rest without its leading and trailing spaces. */
  function RestOfLine(line: string, p: nat): (g: Option<string>)
    requires p <= |line|
    ensures g.Some? ==> g.value == [] || (!IsSpace(g.value[0]) && !IsSpace(g.value[|g.value| - 1]))
  {
    if p == |line| then None
    else
      var a := p + SpaceRun(line, p);
      if NoLineTerminatorIn(line, Min(a, |line| - 1), |line|) then
        Some(line[a..|line| - BackSpaceRun(line, a, |line|)])
      else None
  }

  /** `RestOfLine` matches exactly when the regex has some way to match. */
  lemma RestOfLineSpec(line: string, p: nat)
    requires p <= |line|
    ensures RestOfLine(line, p).Some? <==> exists j :: RestSplit(line, p, j)
  {
    if p < |line| {
      var j := Min(p + SpaceRun(line, p), |line| - 1);
      if NoLineTerminatorIn(line, j, |line|) {
        assert RestSplit(line, p, j);
      }
    }
  }

  /** What `RestOfLine` captures is the trim of the group `.+` captures, whichever
      split the regex takes. */
  lemma RestOfLineTrim(line: string, p: nat, j: nat)
    requires p <= |line| && RestSplit(line, p, j)
    ensures RestOfLine(line, p) == Some(Trim(line[j..]))
  {
    var a := p + SpaceRun(line, p);
    var e := |line| - BackSpaceRun(line, a, |line|);
    TrimSlice(line, j, a, e, |line|);
    assert line[j..|line|] == line[j..];
    assert NoLineTerminatorIn(line, Min(a, |line| - 1), |line|);
    assert RestOfLine(line, p) == Some(line[a..e]);
  }

  /** A way for `\s*(.+[؟?])\s*$` to match the rest of `line` from `p`: spaces up to
      `j`, then a run without line terminators that ends in a question mark at
      `e - 1` and is at least two characters long, then only spaces. */
  ghost predicate TailSplit(line: string, p: nat, j: nat, e: nat)
    requires p <= |line|
  {
    p <= j <= p + SpaceRun(line, p) && j + 2 <= e <= |line| && IsQuestionMark(line[e - 1])
    && NoLineTerminatorIn(line, j, e - 1) && forall k :: e <= k < |line| ==> IsSpace(line[k])
  }

  /** `\s*(.+[؟?])\s*$` on the rest of `line` from `p`, returning the question
      group trimmed. The question mark must be the last non-space character. */
  function QuestionTail(line: string, p: nat): (g: Option<string>)
    requires p <= |line|
    ensures g.Some? ==> |g.value| >= 1 && !IsSpace(g.value[0]) && IsQuestionMark(g.value[|g.value| - 1])
  {
    var e := |line| - BackSpaceRun(line, p, |line|);
    if e < p + 2 || !IsQuestionMark(line[e - 1]) then None
    else
      var a := p + SpaceRun(line, p);
      if NoLineTerminatorIn(line, Min(a, e - 2), e - 1) then Some(line[a..e]) else None
  }

  /** `QuestionTail` matches exactly when the regex has some way to match. */
  lemma QuestionTailSpec(line: string, p: nat)
    requires p <= |line|
    ensures QuestionTail(line, p).Some? <==> exists j, e :: TailSplit(line, p, j, e)
  {
    var e := |line| - BackSpaceRun(line, p, |line|);
    var a := p + SpaceRun(line, p);
    if exists j, e' :: TailSplit(line, p, j, e') {
      var j: nat, e': nat :| TailSplit(line, p, j, e');
      // the mark is the last non-space character, so `e'` is `e`
      assert !IsSpace(line[e' - 1]);
      BackSpaceRunIs(line, p, e', |line|);
    }
    if QuestionTail(line, p).Some? {
      assert TailSplit(line, p, Min(a, e - 2), e);
    }
  }

  /** What `QuestionTail` captures is the trim of the group the regex captures. */
  lemma QuestionTailTrim(line: string, p: nat, j: nat, e: nat)
    requires p <= |line| && TailSplit(line, p, j, e)
    ensures QuestionTail(line, p) == Some(Trim(line[j..e]))
  {
    var a := p + SpaceRun(line, p);
    assert !IsSpace(line[e - 1]);
    BackSpaceRunIs(line, p, e, |line|);
    assert a < e;
    assert NoLineTerminatorIn(line, Min(a, e - 2), e - 1);
    TrimSlice(line, j, a, e, e);
    assert QuestionTail(line, p) == Some(line[a..e]);
  }

  // ---------------------------------------------------------------------------
  // Question starts

  /** `(\d+)\.?` followed by the question tail, with the digits starting at `p`:
      the digit run is tried from `k` characters down to one and, for each
      length, with the dot before without it. Only the full run can be followed
      by a dot. */
  function NumberedFrom(line: string, p: nat, k: nat): (g: Option<string>)
    requires p + k <= |line|
    ensures g.Some? ==> |g.value| >= 1 && IsQuestionMark(g.value[|g.value| - 1])
    decreases k
  {
    if k == 0 then None
    else
      var withDot := if p + k < |line| && line[p + k] == '.' then QuestionTail(line, p + k + 1) else None;
      if withDot.Some? then withDot
      else
        var without := QuestionTail(line, p + k);
        if without.Some? then without else NumberedFrom(line, p, k - 1)
  }

  /** `^(\d+)\.\s*(.+[؟?])\s*$`: a number, a mandatory dot, the question. */
  function NumberDotQuestion(line: string): (g: Option<string>)
    ensures g.Some? ==> |g.value| >= 1 && IsQuestionMark(g.value[|g.value| - 1])
  {
    var d := DigitRun(line, 0);
    if d >= 1 && d < |line| && line[d] == '.' then QuestionTail(line, d + 1) else None
  }

  /** `^Q(\d+)\.?\s*(.+[؟?])\s*$/i`. */
  function QNumberQuestion(line: string): (g: Option<string>)
    ensures g.Some? ==> |g.value| >= 1 && IsQuestionMark(g.value[|g.value| - 1])
  {
    if |line| >= 1 && FoldCase(line[0]) == 'q' then NumberedFrom(line, 1, DigitRun(line, 1)) else None
  }

  /** `^Question\s*(\d+)\.?\s*(.+[؟?])\s*$/i`. */
  function WordNumberQuestion(line: string): (g: Option<string>)
    ensures g.Some? ==> |g.value| >= 1 && IsQuestionMark(g.value[|g.value| - 1])
  {
    if CharsAtFolded(line, 0, "question") then
      var p := 8 + SpaceRun(line, 8);
      NumberedFrom(line, p, DigitRun(line, p))
    else None
  }

  /** `^سؤال\s*(\d+)\.?\s*(.+[؟?])\s*$/i`. */
  function ArabicWordNumberQuestion(line: string): (g: Option<string>)
    ensures g.Some? ==> |g.value| >= 1 && IsQuestionMark(g.value[|g.value| - 1])
  {
    if CharsAt(line, 0, "سؤال") then
      var p := 4 + SpaceRun(line, 4);
      NumberedFrom(line, p, DigitRun(line, p))
    else None
  }

  /** Number of question-start patterns that can fire. The source lists a fifth,
      for `#### **1. Question?**`, second in its order; it requires a leading `#`,
      and every such line is skipped before the patterns are tried, so it never
      matches and is not part of this list. */
  const QuestionPatternCount: nat := 4

  /** The `k`-th question-start pattern, in the order they are tried. */
  function QuestionPattern(k: nat, line: string): (g: Option<string>)
    requires k < QuestionPatternCount
    ensures g.Some? ==> |g.value| >= 1 && IsQuestionMark(g.value[|g.value| - 1])
  {
    if k == 0 then NumberDotQuestion(line)
    else if k == 1 then QNumberQuestion(line)
    else if k == 2 then WordNumberQuestion(line)
    else ArabicWordNumberQuestion(line)
  }

  /** The first of the question patterns `k`, `k + 1`, … that matches: the loop
      over the patterns stops at the first match. */
  function FirstQuestionMatch(line: string, k: nat): (g: Option<string>)
    requires k <= QuestionPatternCount
    ensures g.Some? ==> |g.value| >= 1 && IsQuestionMark(g.value[|g.value| - 1])
    decreases QuestionPatternCount - k
  {
    if k == QuestionPatternCount then None
    else
      var m := QuestionPattern(k, line);
      if m.Some? then m else FirstQuestionMatch(line, k + 1)
  }

  /** The question patterns from `k` on find nothing exactly when none of them
      matches. */
  lemma {:induction false} FirstQuestionMatchNone(line: string, k: nat)
    requires k <= QuestionPatternCount
    ensures FirstQuestionMatch(line, k).None? <==> forall k' :: k <= k' < QuestionPatternCount ==> QuestionPattern(k', line).None?
    decreases QuestionPatternCount - k
  {
    if k < QuestionPatternCount {
      FirstQuestionMatchNone(line, k + 1);
      if FirstQuestionMatch(line, k).None? {
        forall k' | k <= k' < QuestionPatternCount ensures QuestionPattern(k', line).None? {
          if k' == k { }
        }
      }
    }
  }

  /** The question text of a question-start line, if it is one. */
  function QuestionStart(line: string): (g: Option<string>)
    ensures g.Some? ==> |g.value| >= 1 && IsQuestionMark(g.value[|g.value| - 1])
  {
    FirstQuestionMatch(line, 0)
  }

  /** A question tail anywhere in a line needs the line's last character to be a
      question mark, unless that character is a space. */
  lemma TailNeedsMark(line: string, x: nat)
    requires x <= |line| && |line| >= 1 && !IsSpace(line[|line| - 1]) && !IsQuestionMark(line[|line| - 1])
    ensures QuestionTail(line, x) == None
  {
    var n := BackSpaceRun(line, x, |line|);
    assert n == 0;
  }

  lemma {:induction false} NumberedNeedsMark(line: string, p: nat, k: nat)
    requires p + k <= |line| && |line| >= 1 && !IsSpace(line[|line| - 1]) && !IsQuestionMark(line[|line| - 1])
    ensures NumberedFrom(line, p, k) == None
    decreases k
  {
    if k > 0 {
      if p + k < |line| { TailNeedsMark(line, p + k + 1); }
      TailNeedsMark(line, p + k);
      NumberedNeedsMark(line, p, k - 1);
    }
  }

  /** A line that does not end in `?` or `؟` never starts a question. */
  lemma NoMarkNoQuestion(line: string)
    requires |line| >= 1 && !IsSpace(line[|line| - 1]) && !IsQuestionMark(line[|line| - 1])
    ensures QuestionStart(line) == None
  {
    var d := DigitRun(line, 0);
    if d < |line| { TailNeedsMark(line, d + 1); }
    if |line| >= 1 { NumberedNeedsMark(line, 1, DigitRun(line, 1)); }
    if CharsAtFolded(line, 0, "question") { NumberedNeedsMark(line, 8 + SpaceRun(line, 8), DigitRun(line, 8 + SpaceRun(line, 8))); }
    if CharsAt(line, 0, "سؤال") { NumberedNeedsMark(line, 4 + SpaceRun(line, 4), DigitRun(line, 4 + SpaceRun(line, 4))); }
    assert forall k :: 0 <= k < QuestionPatternCount ==> QuestionPattern(k, line) == None;
    FirstQuestionMatchNone(line, 0);
  }

  // ---------------------------------------------------------------------------
  // Text answers

  /** `^Answer:\s*(.+)$/i`. */
  function AnswerText(line: string): Option<string>
  {
    if CharsAtFolded(line, 0, "answer:") then RestOfLine(line, 7) else None
  }

  /** `^<label>\s*(.+)$` for an Arabic label ending in a colon. */
  function LabelledText(line: string, tag: string): Option<string>
  {
    if CharsAt(line, 0, tag) then RestOfLine(line, |tag|) else None
  }

  const TextPatternCount: nat := 3

  /** The `k`-th text-answer pattern, in the order they are tried. */
  function TextPattern(k: nat, line: string): Option<string>
    requires k < TextPatternCount
  {
    if k == 0 then AnswerText(line)
    else if k == 1 then LabelledText(line, "الإجابة:")
    else LabelledText(line, "إجابة:")
  }

  /** The last of the text-answer patterns `0 .. k - 1` that matches: the loop
      over these patterns does not stop, and each match overwrites the last. */
  function LastTextMatch(line: string, k: nat): (g: Option<string>)
    requires k <= TextPatternCount
  {
    if k == 0 then None
    else if TextPattern(k - 1, line).Some? then TextPattern(k - 1, line)
    else LastTextMatch(line, k - 1)
  }

  /** The text patterns `0 .. k - 1` set no answer exactly when none of them
      matches, and the answer they set is one of their captures. */
  lemma {:induction false} LastTextMatchSpec(line: string, k: nat)
    requires k <= TextPatternCount
    ensures LastTextMatch(line, k).None? <==> forall k' :: 0 <= k' < k ==> TextPattern(k', line).None?
    ensures LastTextMatch(line, k).Some? ==> exists k' :: 0 <= k' < k && TextPattern(k', line) == LastTextMatch(line, k)
  {
    if k > 0 {
      LastTextMatchSpec(line, k - 1);
      if TextPattern(k - 1, line).Some? {
        assert TextPattern(k - 1, line) == LastTextMatch(line, k);
      } else if LastTextMatch(line, k).None? {
        forall k' | 0 <= k' < k ensures TextPattern(k', line).None? {
          if k' == k - 1 { }
        }
      }
    }
  }

  /** The answer text of a text-answer line, if it is one. */
  function TextAnswer(line: string): Option<string>
  {
    LastTextMatch(line, TextPatternCount)
  }

  /** Each text-answer pattern needs a colon in the line. */
  lemma TextAnswerNeedsColon(line: string)
    requires ':' !in line
    ensures TextAnswer(line) == None
  {
    NoColonNoFoldedLabel(line, 0, "answer:");
    NoColonNoLabel(line, 0, "الإجابة:");
    NoColonNoLabel(line, 0, "إجابة:");
    assert forall k :: 0 <= k < TextPatternCount ==> TextPattern(k, line).None?;
    LastTextMatchSpec(line, TextPatternCount);
  }

  // ---------------------------------------------------------------------------
  // Lettered answers (unanchored: the leftmost position where the pattern matches)

  /** Position after an optional `c` at `i` (`\c?`). */
  function SkipOptional(s: string, i: nat, c: char): (j: nat)
    ensures j == i || j == i + 1
  {
    if i < |s| && s[i] == c then i + 1 else i
  }

  /** Position after the run of spaces at `i` (`\s*`). */
  function SkipSpaces(s: string, i: nat): (j: nat)
    ensures j >= i
    ensures j <= |s| || j == i
  {
    if i <= |s| then i + SpaceRun(s, i) else i
  }

  /** `([class])\)` at `i`: the letter, when one of the letters is followed by `)`. */
  function LetterThenParen(s: string, i: nat, letters: LetterSet): (g: Option<char>)
    ensures g.Some? ==> InLetterSet(g.value, letters)
  {
    if i + 1 < |s| && InLetterSet(s[i], letters) && s[i + 1] == ')' then Some(s[i]) else None
  }

  /** `correct\s+answer:\s*([a-dA-D])\)/i` at `i`. */
  function CorrectAnswerAt(s: string, i: nat): (g: Option<char>)
    ensures g.Some? ==> InLetterSet(g.value, LatinLetters)
  {
    if CharsAtFolded(s, i, "correct") then
      var w := SpaceRun(s, i + 7);
      if w >= 1 && CharsAtFolded(s, i + 7 + w, "answer:") then
        LetterThenParen(s, SkipSpaces(s, i + 14 + w), LatinLetters)
      else None
    else None
  }

  /** `\*?\*?Correct\s+Answer:\s*([a-dA-D])\)/i` at `i`. */
  function StarredCorrectAnswerAt(s: string, i: nat): (g: Option<char>)
    ensures g.Some? ==> InLetterSet(g.value, LatinLetters)
  {
    CorrectAnswerAt(s, SkipOptional(s, SkipOptional(s, i, '*'), '*'))
  }

  /** `✅\s*\*?\*?Correct\s+Answer:\s*([a-dA-D])\)/i` at `i`. */
  function CheckedCorrectAnswerAt(s: string, i: nat): (g: Option<char>)
    ensures g.Some? ==> InLetterSet(g.value, LatinLetters)
  {
    if i < |s| && s[i] == '\U{2705}' then StarredCorrectAnswerAt(s, SkipSpaces(s, i + 1)) else None
  }

  /** `<tag>\s*([class])\)/i` at `i`, for a label ending in a colon. */
  function LabelLetterAt(s: string, i: nat, tag: string, letters: LetterSet): (g: Option<char>)
    ensures g.Some? ==> InLetterSet(g.value, letters)
  {
    if CharsAtFolded(s, i, tag) then LetterThenParen(s, SkipSpaces(s, i + |tag|), letters) else None
  }

  /** `Answer:\s*([a-dA-D])\)/i` at `i`. */
  function AnswerLetterAt(s: string, i: nat): (g: Option<char>)
    ensures g.Some? ==> InLetterSet(g.value, LatinLetters)
  {
    LabelLetterAt(s, i, "answer:", LatinLetters)
  }

  /** `Correct:\s*([a-dA-D])\)/i` at `i`. */
  function CorrectLetterAt(s: string, i: nat): (g: Option<char>)
    ensures g.Some? ==> InLetterSet(g.value, LatinLetters)
  {
    LabelLetterAt(s, i, "correct:", LatinLetters)
  }

  /** `.*?([a-dA-D])\)` from `j`: the first letter followed by `)` that is reached
      without crossing a line terminator. */
  function LazyLetter(s: string, j: nat): (g: Option<char>)
    ensures g.Some? ==> InLetterSet(g.value, LatinLetters)
    decreases |s| - j
  {
    if j + 1 < |s| && IsLatinOptionLetter(s[j]) && s[j + 1] == ')' then Some(s[j])
    else if j < |s| && !IsLineTerminator(s[j]) then LazyLetter(s, j + 1)
    else None
  }

  /** `✅.*?([a-dA-D])\)/i` at `i`. */
  function CheckedLetterAt(s: string, i: nat): (g: Option<char>)
    ensures g.Some? ==> InLetterSet(g.value, LatinLetters)
  {
    if i < |s| && s[i] == '\U{2705}' then LazyLetter(s, i + 1) else None
  }

  /** `<first>\s+<second>\s*([a-dA-Dأبجد])\)` at `i`, for the two-word Arabic labels. */
  function ArabicPhraseLetterAt(s: string, i: nat, first: string, second: string): (g: Option<char>)
    ensures g.Some? ==> InLetterSet(g.value, AnyLetters)
  {
    if CharsAt(s, i, first) then
      var w := SpaceRun(s, i + |first|);
      if w >= 1 then LabelLetterAt(s, i + |first| + w, second, AnyLetters) else None
    else None
  }

  /** `الإجابة\s+الصحيحة:\s*([a-dA-Dأبجد])\)`. */
  function ArabicFullLabelAt(s: string, i: nat): (g: Option<char>)
    ensures g.Some? ==> InLetterSet(g.value, AnyLetters)
  {
    ArabicPhraseLetterAt(s, i, "الإجابة", "الصحيحة:")
  }

  /** `إجابة\s+صحيحة:\s*([a-dA-Dأبجد])\)`. */
  function ArabicShortLabelAt(s: string, i: nat): (g: Option<char>)
    ensures g.Some? ==> InLetterSet(g.value, AnyLetters)
  {
    ArabicPhraseLetterAt(s, i, "إجابة", "صحيحة:")
  }

  /** `الصحيحة:\s*([a-dA-Dأبجد])\)`. */
  function ArabicCorrectAt(s: string, i: nat): (g: Option<char>)
    ensures g.Some? ==> InLetterSet(g.value, AnyLetters)
  {
    LabelLetterAt(s, i, "الصحيحة:", AnyLetters)
  }

  /** `الإجابة:\s*([a-dA-Dأبجد])\)`. */
  function ArabicAnswerAt(s: string, i: nat): (g: Option<char>)
    ensures g.Some? ==> InLetterSet(g.value, AnyLetters)
  {
    LabelLetterAt(s, i, "الإجابة:", AnyLetters)
  }

  const LetterPatternCount: nat := 9

  /** The `k`-th lettered-answer pattern tried at position `i`, in the order the
      patterns are tried. */
  function LetterPatternAt(k: nat, s: string, i: nat): (g: Option<char>)
    requires k < LetterPatternCount
    ensures g.Some? ==> InLetterSet(g.value, AnyLetters)
  {
    if k == 0 then CheckedCorrectAnswerAt(s, i)
    else if k == 1 then StarredCorrectAnswerAt(s, i)
    else if k == 2 then AnswerLetterAt(s, i)
    else if k == 3 then CorrectLetterAt(s, i)
    else if k == 4 then CheckedLetterAt(s, i)
    else if k == 5 then ArabicFullLabelAt(s, i)
    else if k == 6 then ArabicShortLabelAt(s, i)
    else if k == 7 then ArabicCorrectAt(s, i)
    else ArabicAnswerAt(s, i)
  }

  /** `line.match(pattern)` for the unanchored `k`-th lettered pattern: the letter
      captured at the leftmost position `i, i + 1, …` where it matches. */
  function LeftmostLetter(k: nat, s: string, i: nat): (g: Option<char>)
    requires k < LetterPatternCount
    ensures g.Some? ==> InLetterSet(g.value, AnyLetters)
    decreases |s| + 1 - i
  {
    if i > |s| then None
    else if LetterPatternAt(k, s, i).Some? then LetterPatternAt(k, s, i)
    else LeftmostLetter(k, s, i + 1)
  }

  /** `LeftmostLetter` finds nothing exactly when the pattern matches at no
      position from `i` on, and what it finds is the capture at one of them. */
  lemma {:induction false} LeftmostLetterSpec(k: nat, s: string, i: nat)
    requires k < LetterPatternCount
    ensures LeftmostLetter(k, s, i).None? <==> forall j :: i <= j <= |s| ==> LetterPatternAt(k, s, j).None?
    ensures LeftmostLetter(k, s, i).Some? ==> exists j :: i <= j <= |s| && LetterPatternAt(k, s, j) == LeftmostLetter(k, s, i)
    decreases |s| + 1 - i
  {
    if i <= |s| && LetterPatternAt(k, s, i).None? {
      LeftmostLetterSpec(k, s, i + 1);
      if LeftmostLetter(k, s, i).None? {
        forall j | i <= j <= |s| ensures LetterPatternAt(k, s, j).None? {
          if j == i { } 
        }
      }
    }
  }

  /** `answerLetter.toLowerCase()` mapped to an option index: `a`–`d` to 0–3 by
      character code, the Arabic letters by table, anything else to -1. */
  function LetterIndex(c: char): (n: int)
    ensures -1 <= n <= 3
    ensures n == 0 <==> c == 'a' || c == 'A' || c == '\U{0623}'
    ensures n == 1 <==> c == 'b' || c == 'B' || c == '\U{0628}'
    ensures n == 2 <==> c == 'c' || c == 'C' || c == '\U{062C}'
    ensures n == 3 <==> c == 'd' || c == 'D' || c == '\U{062F}'
    ensures n == -1 <==> !InLetterSet(c, AnyLetters)
  {
    var l := FoldCase(c);
    if 'a' <= l <= 'd' then l as int - 'a' as int
    else if l == '\U{0623}' then 0
    else if l == '\U{0628}' then 1
    else if l == '\U{062C}' then 2
    else if l == '\U{062F}' then 3
    else -1
  }

  /** The option index set by the lettered patterns `0 .. k - 1`: every pattern
      that matches with a letter mapping into 0..3 overwrites the previous one,
      so the last such match counts. */
  function LastLetterMatch(s: string, k: nat): (g: Option<int>)
    requires k <= LetterPatternCount
    ensures g.Some? ==> 0 <= g.value <= 3
  {
    if k == 0 then None
    else
      var m := LeftmostLetter(k - 1, s, 0);
      if m.Some? && 0 <= LetterIndex(m.value) <= 3 then Some(LetterIndex(m.value))
      else LastLetterMatch(s, k - 1)
  }

  /** Every letter the patterns capture maps into 0..3, so the lettered patterns
      set no index exactly when none of them matches. */
  lemma {:induction false} LastLetterMatchNone(s: string, k: nat)
    requires k <= LetterPatternCount
    ensures LastLetterMatch(s, k).None? <==> forall k' :: 0 <= k' < k ==> LeftmostLetter(k', s, 0).None?
  {
    if k > 0 {
      LastLetterMatchNone(s, k - 1);
      var m := LeftmostLetter(k - 1, s, 0);
      if m.Some? {
        assert LetterIndex(m.value) != -1;
        assert LastLetterMatch(s, k).Some?;
        assert LeftmostLetter(k - 1, s, 0).Some?;
      } else if LastLetterMatch(s, k).None? {
        forall k' | 0 <= k' < k ensures LeftmostLetter(k', s, 0).None? {
          if k' == k - 1 { assert m.None?; }
        }
      }
    }
  }

  /** The option index named by a lettered-answer line, if it is one. */
  function LetteredAnswer(s: string): (g: Option<int>)
    ensures g.Some? ==> 0 <= g.value <= 3
  {
    LastLetterMatch(s, LetterPatternCount)
  }

  /** A label ending in a colon does not occur in a line without a colon. */
  lemma NoColonNoFoldedLabel(s: string, i: nat, tag: string)
    requires ':' !in s && |tag| >= 1 && tag[|tag| - 1] == ':'
    ensures !CharsAtFolded(s, i, tag)
  {
    var k := i + |tag| - 1;
    if k < |s| {
      assert s[k] in s;
      assert FoldCase(s[k]) != tag[|tag| - 1];
    }
  }

  lemma NoColonNoLabel(s: string, i: nat, tag: string)
    requires ':' !in s && |tag| >= 1 && tag[|tag| - 1] == ':'
    ensures !CharsAt(s, i, tag)
  {
    var k := i + |tag| - 1;
    if k < |s| {
      assert s[k] in s;
      assert i + |tag| <= |s| ==> s[i..i + |tag|][|tag| - 1] == s[k];
    }
  }

  /** At any one position, the English lettered patterns need a colon or a
      check mark in the line. */
  lemma NoColonNoLatinLetterAt(s: string, i: nat)
    requires ':' !in s && '\U{2705}' !in s && i <= |s|
    ensures CheckedCorrectAnswerAt(s, i).None? && StarredCorrectAnswerAt(s, i).None?
    ensures AnswerLetterAt(s, i).None? && CorrectLetterAt(s, i).None? && CheckedLetterAt(s, i).None?
  {
    assert "answer:"[6] == ':' && "correct:"[7] == ':';
    if i < |s| { assert s[i] in s; }
    var i' := SkipOptional(s, SkipOptional(s, i, '*'), '*');
    if CharsAtFolded(s, i', "correct") {
      NoColonNoFoldedLabel(s, i' + 7 + SpaceRun(s, i' + 7), "answer:");
    }
    NoColonNoFoldedLabel(s, i, "answer:");
    NoColonNoFoldedLabel(s, i, "correct:");
  }

  /** At any one position, the Arabic lettered patterns need a colon. */
  lemma NoColonNoArabicLetterAt(s: string, i: nat)
    requires ':' !in s && i <= |s|
    ensures ArabicFullLabelAt(s, i).None? && ArabicShortLabelAt(s, i).None?
    ensures ArabicCorrectAt(s, i).None? && ArabicAnswerAt(s, i).None?
  {
    assert "الصحيحة:"[7] == ':' && "الإجابة:"[7] == ':' && "صحيحة:"[5] == ':';
    NoColonNoFoldedLabel(s, i, "الصحيحة:");
    NoColonNoFoldedLabel(s, i, "الإجابة:");
    if CharsAt(s, i, "الإجابة") {
      NoColonNoFoldedLabel(s, i + 7 + SpaceRun(s, i + 7), "الصحيحة:");
    }
    if CharsAt(s, i, "إجابة") {
      NoColonNoFoldedLabel(s, i + 5 + SpaceRun(s, i + 5), "صحيحة:");
    }
  }

  /** No lettered pattern matches a line without a colon or a check mark. */
  lemma LetteredNeedsColonOrCheck(s: string)
    requires ':' !in s && '\U{2705}' !in s
    ensures LetteredAnswer(s) == None
  {
    forall k | 0 <= k < LetterPatternCount ensures LeftmostLetter(k, s, 0).None? {
      forall j | 0 <= j <= |s| ensures LetterPatternAt(k, s, j).None? {
        NoColonNoLatinLetterAt(s, j);
        NoColonNoArabicLetterAt(s, j);
      }
      LeftmostLetterSpec(k, s, 0);
    }
    LastLetterMatchNone(s, LetterPatternCount);
  }

  // ---------------------------------------------------------------------------
  // Options

  /** `^([class])\)\s*(.+)$`. */
  function ParenOption(line: string, letters: LetterSet): Option<string>
  {
    if |line| >= 2 && InLetterSet(line[0], letters) && line[1] == ')' then RestOfLine(line, 2) else None
  }

  /** `^([class])\.?\s*(.+)$`: with the dot if that matches, else without it. */
  function DotOption(line: string, letters: LetterSet): Option<string>
  {
    if |line| >= 1 && InLetterSet(line[0], letters) then
      var withDot := if |line| >= 2 && line[1] == '.' then RestOfLine(line, 2) else None;
      if withDot.Some? then withDot else RestOfLine(line, 1)
    else None
  }

  /** `^<bullet>\s*([class])\)\s*(.+)$`. */
  function BulletOption(line: string, bullet: char, letters: LetterSet): Option<string>
  {
    if |line| >= 1 && line[0] == bullet then
      var p := SkipSpaces(line, 1);
      if p + 1 < |line| && InLetterSet(line[p], letters) && line[p + 1] == ')' then RestOfLine(line, p + 2) else None
    else None
  }

  const OptionPatternCount: nat := 8

  /** The `k`-th option pattern, in the order they are tried. */
  function OptionPattern(k: nat, line: string): Option<string>
    requires k < OptionPatternCount
  {
    if k == 0 then ParenOption(line, LatinLetters)
    else if k == 1 then DotOption(line, LatinLetters)
    else if k == 2 then BulletOption(line, '-', LatinLetters)
    else if k == 3 then BulletOption(line, '*', LatinLetters)
    else if k == 4 then ParenOption(line, ArabicLetters)
    else if k == 5 then DotOption(line, ArabicLetters)
    else if k == 6 then BulletOption(line, '-', ArabicLetters)
    else BulletOption(line, '*', ArabicLetters)
  }

  /** The first of the option patterns `k`, `k + 1`, … that matches: the loop
      over the patterns stops at the first match. */
  function FirstOptionMatch(line: string, k: nat): (g: Option<string>)
    requires k <= OptionPatternCount
    decreases OptionPatternCount - k
  {
    if k == OptionPatternCount then None
    else if OptionPattern(k, line).Some? then OptionPattern(k, line)
    else FirstOptionMatch(line, k + 1)
  }

  /** The option patterns from `k` on find nothing exactly when none of them
      matches. */
  lemma {:induction false} FirstOptionMatchNone(line: string, k: nat)
    requires k <= OptionPatternCount
    ensures FirstOptionMatch(line, k).None? <==> forall k' :: k <= k' < OptionPatternCount ==> OptionPattern(k', line).None?
    decreases OptionPatternCount - k
  {
    if k < OptionPatternCount {
      FirstOptionMatchNone(line, k + 1);
      if FirstOptionMatch(line, k).None? {
        forall k' | k <= k' < OptionPatternCount ensures OptionPattern(k', line).None? {
          if k' == k { }
        }
      }
    }
  }

  /** The option text of an option line, if it is one. */
  function OptionText(line: string): Option<string>
  {
    FirstOptionMatch(line, 0)
  }

  /** Lines that the parser skips before trying any pattern: Markdown headings,
      instruction and self-assessment banners, and horizontal rules. */
  predicate IsSkipped(line: string)
  {
    StartsWith(line, "#") || StartsWith(line, "**Instructions") || line == "---"
    || StartsWith(line, "**How did you do")
  }
}
