# Cubic quiz chat — a Dafny model

Cubic is a React application in which a user configures a quiz (type,
difficulty, number of questions, language, an optional PDF document). The
application asks a DeepSeek chat model for the quiz, recognises a quiz in the
model's reply (`detectAndParseQuiz`), stores it in the chat history and runs
it: one question at a time, with an optional countdown, a score and a grade.
The sidebar lists the history with a search and a "quizzes" section, and a
context provides the dark/light theme, the English/Arabic interface language
and the interface texts.

This project models that core in Dafny:

- `QuizDetection`, `JsonFastPath`, `LinePatterns`, `LineParser`, `QuizParser`
  — `detectAndParseQuiz`: the keyword and numbered-question gate, the fenced
  JSON fast path (on an already decoded value), every line regex written out
  as a function over characters with lemmas tying it to the regex's own
  definition, the line-by-line parser as a method proved against a fold
  (`Run`/`Parse`), and the assembly of the quiz record.
- `PromptExamples`, `ReplyFormats` — the reply formats the prompt asks for and
  what the parser makes of them: a reply in the multiple-choice or text-answer
  format yields exactly the questions it is meant to.
- `PdfExcerpt`, `PromptComposer`, `ApiErrors`, `Markdown`, `ChatHistory`,
  `QuizSubmit` — the rest of the quiz request in the chat: the document
  excerpt, the prompt, the model, the API errors and the notices shown for
  them, `parseMarkdown`, the history written to storage, and the submit
  handler from the reply to the quiz on screen.
- `QuizRunner` — the quiz runner as a class whose methods are its handlers.
- `QuizConfigForm` — the configuration form: its record, the PDF text
  extraction loop and cleanup, and the subject suggested from a file name.
- `AppShell`, `SidebarView`, `Theme` — the application shell, the sidebar and
  the theme/language context, each a class over its state.

Storage, the clock, random identifiers, `JSON.parse`, the network reply, the
PDF library and the system colour preference are parameters of the
operations that read them.

Quirks of the code that the model follows:

- The `continue` statements at ChatInterface.jsx:691 and :745 sit inside the
  loops over the pattern arrays, so they only move to the next pattern. After
  a text answer (`Answer: ...`) the lettered patterns still run on the same
  line, and among the lettered patterns the last one that matches decides.
  `Answer: x)` therefore keeps a question only for `x` = `a`/`A`
  (`PromptExamples.AnswerLetterKeptOnlyForA`).
- The second question pattern (`#### **1. ...?**`) can never fire: every line
  starting with `#` was skipped before.
- The mixed-format reply the prompt asks for ends its question lines in
  `(Multiple Choice)` / `(Text Answer)`, not in a question mark, so it yields
  no quiz (`QuizParser.NoMarkNoQuiz`).
- The default time limit `Math.max(questions.length * 60, 300)` is counted in
  seconds, but the runner multiplies `timeLimit` by 60 as minutes; a
  configured limit of 0 gives this default (`||`).
- `toLowerCase` in the keyword test and the sidebar search is modelled on
  ASCII letters; the Arabic keywords have no case.
- The sidebar sorts by `b.timestamp - a.timestamp`; every timestamp the
  application writes is an ISO string, so the difference is NaN, which the
  sort treats as equal, and the stable sort keeps the stored order.
- Saving a generated quiz puts it in front without the 50-entry cap that
  saving a chat applies; a chat at place 50 can then be cut off when it is
  next saved (`ChatHistory.QuizSavePushesChatOut`).
- Completing a quiz attaches the results to every stored quiz entry with the
  same title and no results, not only the one on screen.
- `handleNewChat` does not clear the current quiz; it stays, hidden.
- The Arabic text of `s` is empty, and `t` falls back to the key for an
  empty text, so the Arabic result count reads with a Latin `s`
  (`Theme.ArabicCountSuffix`).
- The runner's mount effect resets the elapsed time that the results were
  opened with.
- The countdown's interval calls the `handleSubmit` of the render in which
  the timer started, so a timed-out quiz reports the answers and elapsed time
  of that moment, and the score of those answers: a run whose answers were
  all given after the start reports none of them and a score of 0
  (`QuizRunner.TimedOutRun`).
- The App renders the runner without a `key`, so selecting another quiz in
  the sidebar keeps it mounted: the new quiz and results replace the old, the
  state is reset only when the title changes, and a running timer whose limit
  is unchanged keeps the old quiz's submit handler, so a timeout then reports
  to the old quiz (`QuizRunner.SwitchedThenTimedOut`).
- `pdfContent.length` and `substring(0, 8000)` count UTF-16 code units, in
  which a character outside the Basic Multilingual Plane takes two; the
  excerpt is measured in those units (`Text.Units`).
- A reply whose message has no text content (null, absent or not a string)
  is returned by the call, and the detector's first use of it as text throws
  a TypeError; the user sees that error's own message
  (`QuizSubmit.NonTextShowsTypeError`). Only a body without a message gives
  "Invalid response from API".

## Model

| member | source | states |
|---|---|---|
| Common.OrElse | Cubic/src/contexts/ThemeContext.jsx:198 | `a \|\| b` on stored strings: the first when it is a non-empty string, else the second |
| Common.StoredPreference | Cubic/src/contexts/ThemeContext.jsx:207-208 | the value under the current key when non-empty, else under the legacy key when non-empty, else the default |
| Common.Filter | Cubic/src/components/ChatInterface.jsx:537-545 | `filter`: kept elements are exactly those of the input that satisfy the predicate, no more of them |
| Common.FilterAppend | Cubic/src/components/ChatInterface.jsx:537-545 | filtering a concatenation filters each part: the kept elements keep their relative order |
| Common.FilterAllOrNone | Cubic/src/components/ChatInterface.jsx:537-545 | a filter keeping everything is the identity; one keeping nothing gives `[]` |
| Common.Count | Cubic/src/components/ChatInterface.jsx:504-509 | `filter(p).length`: the number of kept elements, at most the length |
| Common.CountPositive | Cubic/src/components/ChatInterface.jsx:504-509 | the count is positive exactly when some element satisfies the predicate |
| QuizData.Member | Cubic/src/components/ChatInterface.jsx:535-544 | property read on a decoded value: present exactly when it is an object with that key, and then that field |
| QuizData.OrJson | Cubic/src/components/ChatInterface.jsx:549-554 | `a \|\| b` on a property read: `a` when truthy, else `b` |
| QuizData.OptionCount | Cubic/src/components/QuizInterface.jsx:137 | a parsed question has as many options as its list |
| QuizDetection.ArabicMarkNeedsKeyword | Cubic/src/components/ChatInterface.jsx:504-524 | with no Latin `?` in the reply, the gate passes exactly when a keyword occurs |
| QuizDetection.NumberedLinePasses | Cubic/src/components/ChatInterface.jsx:512-524 | a digit, a dot and a one-line text ending in `?` pass the gate whatever surrounds them |
| QuizDetection.KeywordsCounted | Cubic/src/components/ChatInterface.jsx:504-509 | `foundKeywords.length > 0` exactly when some keyword occurs in the lower-cased reply |
| JsonFastPath.CloseFrom | Cubic/src/components/ChatInterface.jsx:531 | the lazy group ends at the first place where spaces and three backticks follow |
| JsonFastPath.FenceRoundTrip | Cubic/src/components/ChatInterface.jsx:531 | a body without backticks and without outer spaces, fenced as a json code block, is captured back exactly |
| JsonFastPath.FenceOpens | Cubic/src/components/ChatInterface.jsx:531 | the opening fence with its json tag and its line end are matched at the start of such a block |
| JsonFastPath.FenceCloses | Cubic/src/components/ChatInterface.jsx:531 | the lazy group of such a block ends right after its body |
| JsonFastPath.FenceNeedsBacktick | Cubic/src/components/ChatInterface.jsx:531-532 | a reply without a backtick has no fenced block |
| JsonFastPath.NoBacktickNoFenceFrom | Cubic/src/components/ChatInterface.jsx:531 | the fence search from any position finds nothing in a text without backticks |
| JsonFastPath.NoCloseWithin | Cubic/src/components/ChatInterface.jsx:531 | no close can start inside a backtick-free stretch that ends in a non-space |
| JsonFastPath.CloseFromSkips | Cubic/src/components/ChatInterface.jsx:531 | the close search skips such a stretch |
| JsonFastPath.SubjectOrType | Cubic/src/components/ChatInterface.jsx:549-550 | `config.subject \|\| config.type` |
| JsonFastPath.ConfigOr | Cubic/src/components/ChatInterface.jsx:552-554 | `config?.f \|\| fallback`: the configured string when there is a non-empty one, else the fallback |
| JsonFastPath.DecodedQuiz | Cubic/src/components/ChatInterface.jsx:548-556 | the quiz holds the kept entries in order, scores one point each, category "AI Generated", no time limit |
| JsonFastPath.QuizFromJsonKeepsValid | Cubic/src/components/ChatInterface.jsx:535-556 | a fast-path quiz holds, in order, exactly the entries that pass the validity filter, at least one, and maxScore is their number |
| JsonFastPath.QuizFromJsonNone | Cubic/src/components/ChatInterface.jsx:533-561 | the fast path gives up exactly when there is no non-empty `questions` array, an entry is `null` (the filter throws) or no entry is valid |
| QuizParser.QuizMetadata | Cubic/src/components/ChatInterface.jsx:575-606 | with a configuration: subject is subject-or-type and the configured difficulty; without: the inferred difficulty or "medium" |
| QuizParser.DefaultTimeLimit | Cubic/src/components/ChatInterface.jsx:834 | `max(60n, 300)`: at least both, and one of them |
| QuizParser.Assemble | Cubic/src/components/ChatInterface.jsx:811-839 | the quiz holds the parsed questions in order, maxScore their number, the configured non-zero time limit or the default, and the configured subject and difficulty |
| QuizParser.DetectAndParseQuiz | Cubic/src/components/ChatInterface.jsx:489-852 | no quiz unless the gate passes; a quiz has at least one question and maxScore equal to their number |
| QuizParser.QuizFromJsonSize | Cubic/src/components/ChatInterface.jsx:547-556 | a fast-path quiz has at least one question and maxScore equal to their number |
| QuizParser.DetectAndParseQuizCases | Cubic/src/components/ChatInterface.jsx:522-843 | a quiz exactly when the gate passes and the fast path or the line parser yields one; the fast path wins; otherwise the questions are the parsed ones, complete, with an index in 0..3 |
| QuizParser.NoMarkNoQuiz | Cubic/src/components/ChatInterface.jsx:611-843 | without a fenced quiz, a reply none of whose lines ends in `?` or `؟` yields no quiz |
| LinePatterns.RestOfLine | Cubic/src/components/ChatInterface.jsx:674 | `\s*(.+)$` captures a trimmed group |
| LinePatterns.RestOfLineSpec | Cubic/src/components/ChatInterface.jsx:674 | it matches exactly when the regex has some way to match |
| LinePatterns.RestOfLineTrim | Cubic/src/components/ChatInterface.jsx:674-685 | what it returns is the trim of the regex's group, whichever way the regex splits |
| LinePatterns.QuestionTail | Cubic/src/components/ChatInterface.jsx:623-627 | `\s*(.+[؟?])\s*$` captures a text starting with a non-space and ending in a question mark |
| LinePatterns.QuestionTailSpec | Cubic/src/components/ChatInterface.jsx:623-627 | it matches exactly when the regex has some way to match |
| LinePatterns.QuestionTailTrim | Cubic/src/components/ChatInterface.jsx:623-657 | what it returns is the trim of the regex's group |
| LinePatterns.NumberedFrom | Cubic/src/components/ChatInterface.jsx:623-627 | `(\d+)\.?` and the tail: a question text ending in a question mark |
| LinePatterns.NumberDotQuestion | Cubic/src/components/ChatInterface.jsx:623 | `^(\d+)\.\s*(.+[؟?])\s*$` captures a text ending in a question mark |
| LinePatterns.QNumberQuestion | Cubic/src/components/ChatInterface.jsx:625 | `^Q(\d+)\.?...` likewise |
| LinePatterns.WordNumberQuestion | Cubic/src/components/ChatInterface.jsx:626 | `^Question\s*(\d+)\.?...` likewise |
| LinePatterns.ArabicWordNumberQuestion | Cubic/src/components/ChatInterface.jsx:627 | `^سؤال\s*(\d+)\.?...` likewise |
| LinePatterns.QuestionPattern | Cubic/src/components/ChatInterface.jsx:622-628 | each live question pattern captures a text ending in a question mark |
| LinePatterns.FirstQuestionMatch | Cubic/src/components/ChatInterface.jsx:630-634 | the first matching pattern's text ends in a question mark |
| LinePatterns.FirstQuestionMatchNone | Cubic/src/components/ChatInterface.jsx:630-634 | the loop finds nothing exactly when no pattern matches |
| LinePatterns.QuestionStart | Cubic/src/components/ChatInterface.jsx:622-657 | a question-start line yields a text ending in a question mark |
| LinePatterns.TailNeedsMark | Cubic/src/components/ChatInterface.jsx:623-627 | a line whose last character is neither a space nor a question mark has no tail |
| LinePatterns.NumberedNeedsMark | Cubic/src/components/ChatInterface.jsx:623-627 | nor a numbered question |
| LinePatterns.NoMarkNoQuestion | Cubic/src/components/ChatInterface.jsx:622-636 | such a line never starts a question |
| LinePatterns.LastTextMatchSpec | Cubic/src/components/ChatInterface.jsx:679-693 | the text-answer loop sets nothing exactly when no pattern matches, else the value of one that does |
| LinePatterns.TextAnswerNeedsColon | Cubic/src/components/ChatInterface.jsx:673-677 | no text answer in a line without a colon |
| LinePatterns.SkipOptional | Cubic/src/components/ChatInterface.jsx:625-627 | `\.?` consumes at most one character |
| LinePatterns.SkipSpaces | Cubic/src/components/ChatInterface.jsx:699-708 | `\s*` never moves backwards |
| LinePatterns.LetterThenParen | Cubic/src/components/ChatInterface.jsx:699-708 | `([class])\)` captures a letter of its class |
| LinePatterns.CorrectAnswerAt | Cubic/src/components/ChatInterface.jsx:700 | `Correct\s+Answer:\s*([a-dA-D])\)` captures a Latin option letter |
| LinePatterns.StarredCorrectAnswerAt | Cubic/src/components/ChatInterface.jsx:700 | with optional leading stars, likewise |
| LinePatterns.CheckedCorrectAnswerAt | Cubic/src/components/ChatInterface.jsx:699 | after a check mark, likewise |
| LinePatterns.LabelLetterAt | Cubic/src/components/ChatInterface.jsx:701-708 | a label ending in a colon then a letter of its class |
| LinePatterns.AnswerLetterAt | Cubic/src/components/ChatInterface.jsx:701 | `Answer:\s*([a-dA-D])\)` captures a Latin option letter |
| LinePatterns.CorrectLetterAt | Cubic/src/components/ChatInterface.jsx:702 | `Correct:\s*([a-dA-D])\)` likewise |
| LinePatterns.LazyLetter | Cubic/src/components/ChatInterface.jsx:703 | `.*?([a-dA-D])\)` captures a Latin option letter |
| LinePatterns.CheckedLetterAt | Cubic/src/components/ChatInterface.jsx:703 | `✅.*?([a-dA-D])\)` likewise |
| LinePatterns.ArabicPhraseLetterAt | Cubic/src/components/ChatInterface.jsx:705-706 | two Arabic words, a colon and a Latin or Arabic option letter |
| LinePatterns.ArabicFullLabelAt | Cubic/src/components/ChatInterface.jsx:705 | `الإجابة\s+الصحيحة:` and an option letter |
| LinePatterns.ArabicShortLabelAt | Cubic/src/components/ChatInterface.jsx:706 | `إجابة\s+صحيحة:` and an option letter |
| LinePatterns.ArabicCorrectAt | Cubic/src/components/ChatInterface.jsx:707 | `الصحيحة:` and an option letter |
| LinePatterns.ArabicAnswerAt | Cubic/src/components/ChatInterface.jsx:708 | `الإجابة:` and an option letter |
| LinePatterns.LetterPatternAt | Cubic/src/components/ChatInterface.jsx:697-709 | each lettered pattern captures an option letter |
| LinePatterns.LeftmostLetter | Cubic/src/components/ChatInterface.jsx:712 | `line.match` of an unanchored pattern captures an option letter |
| LinePatterns.LeftmostLetterSpec | Cubic/src/components/ChatInterface.jsx:712 | it finds nothing exactly when the pattern matches nowhere, else the match at some position |
| LinePatterns.LetterIndex | Cubic/src/components/ChatInterface.jsx:715-737 | a/A/أ → 0, b/B/ب → 1, c/C/ج → 2, d/D/د → 3, anything else −1 |
| LinePatterns.LastLetterMatch | Cubic/src/components/ChatInterface.jsx:711-750 | the index the lettered loop sets is in 0..3 |
| LinePatterns.LastLetterMatchNone | Cubic/src/components/ChatInterface.jsx:711-750 | it sets nothing exactly when no lettered pattern matches |
| LinePatterns.LetteredAnswer | Cubic/src/components/ChatInterface.jsx:696-750 | a lettered answer line names an index in 0..3 |
| LinePatterns.NoColonNoFoldedLabel | Cubic/src/components/ChatInterface.jsx:699-708 | a case-folded label ending in a colon needs a colon in the line |
| LinePatterns.NoColonNoLabel | Cubic/src/components/ChatInterface.jsx:705-708 | so does an exact one |
| LinePatterns.NoColonNoLatinLetterAt | Cubic/src/components/ChatInterface.jsx:699-703 | the Latin lettered patterns need a colon or a check mark |
| LinePatterns.NoColonNoArabicLetterAt | Cubic/src/components/ChatInterface.jsx:705-708 | the Arabic lettered patterns need a colon |
| LinePatterns.LetteredNeedsColonOrCheck | Cubic/src/components/ChatInterface.jsx:697-750 | no lettered answer in a line without a colon or a check mark |
| LinePatterns.FirstOptionMatchNone | Cubic/src/components/ChatInterface.jsx:769-773 | the option loop finds nothing exactly when no option pattern matches |
| LineParser.CompleteIgnoresKind | Cubic/src/components/ChatInterface.jsx:641-645 | the validity check reduces to one option with index 0, or two or more with an index other than −1 |
| LineParser.Flush | Cubic/src/components/ChatInterface.jsx:641-655 | the current question is kept exactly when it is complete |
| LineParser.AnswerStep | Cubic/src/components/ChatInterface.jsx:671-752 | the question text is kept; an answer is found exactly for a text answer or a lettered one on a question with options |
| LineParser.Lines | Cubic/src/components/ChatInterface.jsx:565 | split at line feeds, trimmed, empty lines dropped: every line is non-empty with no outer space |
| LineParser.MatchQuestion | Cubic/src/components/ChatInterface.jsx:630-634 | the pattern loop finds the question start of the line |
| LineParser.MatchTextAnswer | Cubic/src/components/ChatInterface.jsx:679-693 | the text-answer loop finds the text answer of the line |
| LineParser.MatchLetter | Cubic/src/components/ChatInterface.jsx:711-750 | the lettered loop finds the lettered answer of the line |
| LineParser.MatchOption | Cubic/src/components/ChatInterface.jsx:769-773 | the option loop finds the option text of the line |
| LineParser.ParseLine | Cubic/src/components/ChatInterface.jsx:611-785 | the loop body changes the parser's variables as one step of the fold |
| LineParser.ParseLines | Cubic/src/components/ChatInterface.jsx:611-805 | the loop and the final check keep exactly the questions of `Parse` |
| LineParser.FlushSurfaced | Cubic/src/components/ChatInterface.jsx:641-655 | under the loop invariant every kept question is surfaced |
| LineParser.ApplyPreservesInv | Cubic/src/components/ChatInterface.jsx:636-784 | each branch of the loop body keeps the invariant |
| LineParser.StepPreservesInv | Cubic/src/components/ChatInterface.jsx:611-785 | every line keeps the invariant |
| LineParser.RunPreservesInv | Cubic/src/components/ChatInterface.jsx:611-785 | every run of lines keeps the invariant |
| LineParser.ParsedQuestionsSurfaced | Cubic/src/components/ChatInterface.jsx:789-805 | every returned question is complete, with a text ending in a question mark and an index in 0..3 |
| LineParser.AnswerFreezesQuestion | Cubic/src/components/ChatInterface.jsx:671-755 | once an answer is found, lines that start no question change nothing |
| LineParser.NoMarkKeepsQuestions | Cubic/src/components/ChatInterface.jsx:622-636 | a line not ending in a question mark keeps the kept questions |
| LineParser.NoMarkNoQuestions | Cubic/src/components/ChatInterface.jsx:611-668 | from the start, such lines change nothing at all |
| LineParser.LetteredNeedsOptions | Cubic/src/components/ChatInterface.jsx:696 | a lettered answer on a question without options sets nothing |
| LineParser.TextAnswerSetsOption | Cubic/src/components/ChatInterface.jsx:685-689 | a text answer makes the trimmed answer the only option, index 0, text-answer kind |
| PromptExamples.NotSkipped | Cubic/src/components/ChatInterface.jsx:616 | a line not starting with `#`, `*` or `-` is not skipped |
| PromptExamples.QuestionLineStarts | Cubic/src/components/ChatInterface.jsx:616-657 | `1. What ...?` starts a question with that text |
| PromptExamples.OptionLineLists | Cubic/src/components/ChatInterface.jsx:754-784 | `a) London` is an option line and nothing else |
| PromptExamples.OptionLineNoAnswer | Cubic/src/components/ChatInterface.jsx:622-750 | it is no question start, text answer or lettered answer |
| PromptExamples.OptionLineText | Cubic/src/components/ChatInterface.jsx:758 | its option text is the option |
| PromptExamples.FoldedLabelColon | Cubic/src/components/ChatInterface.jsx:699-708 | a matched label ending in a colon puts a colon in the line |
| PromptExamples.FoldedLabelFirst | Cubic/src/components/ChatInterface.jsx:699-708 | a matched label starting with a non-lower-case letter puts that character in the line |
| PromptExamples.LabelFirst | Cubic/src/components/ChatInterface.jsx:705-708 | likewise for an exact label |
| PromptExamples.NoAlefNoArabicLetter | Cubic/src/components/ChatInterface.jsx:705-708 | the Arabic lettered patterns need an alef |
| PromptExamples.NoCheckNoCheckedLetter | Cubic/src/components/ChatInterface.jsx:699-703 | the check-mark patterns need a check mark |
| PromptExamples.LatePatternsNone | Cubic/src/components/ChatInterface.jsx:702-708 | in an English line with one colon not preceded by "correct", patterns 4 to 9 do not match |
| PromptExamples.LeftmostLetterAt | Cubic/src/components/ChatInterface.jsx:712 | the leftmost match is the first matching position |
| PromptExamples.AnswerPatternDecides | Cubic/src/components/ChatInterface.jsx:701-745 | when `Answer:` is the last pattern to match, its letter sets the index |
| PromptExamples.AnswerLabelNames | Cubic/src/components/ChatInterface.jsx:697-745 | `Answer: x)` as the only colon names option x |
| PromptExamples.CorrectLineShape | Cubic/src/components/ChatInterface.jsx:172 | the characters of `Correct Answer: x)` the patterns look at |
| PromptExamples.CorrectLineLacks | Cubic/src/components/ChatInterface.jsx:172 | it has no check mark, alef or second colon |
| PromptExamples.CorrectLineLabel | Cubic/src/components/ChatInterface.jsx:172 | `answer:` occurs in it after `Correct ` |
| PromptExamples.CorrectLineNames | Cubic/src/components/ChatInterface.jsx:697-745 | `Correct Answer: x)` names option x and is nothing else |
| PromptExamples.CorrectLineNoText | Cubic/src/components/ChatInterface.jsx:674-676 | it is not a text answer |
| PromptExamples.RunCons | Cubic/src/components/ChatInterface.jsx:611 | the loop takes lines in order |
| PromptExamples.OptionLinesCons | Cubic/src/components/ChatInterface.jsx:168-171 | the option lines split into the first and the rest |
| PromptExamples.StepLists | Cubic/src/components/ChatInterface.jsx:775-780 | an option line on an open question appends its option |
| PromptExamples.RunOptions | Cubic/src/components/ChatInterface.jsx:754-784 | option lines append their options in order |
| PromptExamples.BlockCons | Cubic/src/components/ChatInterface.jsx:167-172 | a multiple-choice block is its question line, option lines and answer line |
| PromptExamples.StepStarts | Cubic/src/components/ChatInterface.jsx:636-667 | a question line flushes the current question and opens a fresh one |
| PromptExamples.StepNames | Cubic/src/components/ChatInterface.jsx:739-745 | a `Correct Answer:` line on a question with options sets the index and the multiple-choice kind |
| PromptExamples.BlockRun | Cubic/src/components/ChatInterface.jsx:611-785 | a multiple-choice block closes the previous question and leaves its own question complete |
| PromptExamples.NoParenNoLetter | Cubic/src/components/ChatInterface.jsx:697-709 | no lettered answer in a line without `)` |
| PromptExamples.NoParenNoLazyLetter | Cubic/src/components/ChatInterface.jsx:703 | nor a lazy letter |
| PromptExamples.AnswerLineText | Cubic/src/components/ChatInterface.jsx:674 | `Answer: a` gives the text answer a |
| PromptExamples.AnswerLineLabel | Cubic/src/components/ChatInterface.jsx:674 | it starts with `answer:` folded and a space |
| PromptExamples.AnswerLineRest | Cubic/src/components/ChatInterface.jsx:674 | the rest after the label is the answer |
| PromptExamples.StepAnswers | Cubic/src/components/ChatInterface.jsx:679-693 | `Answer: a` on an open question makes it a text-answer question with option a |
| PromptExamples.TextBlockRun | Cubic/src/components/ChatInterface.jsx:192-193 | a text-answer block leaves its question complete |
| PromptExamples.AnswerLetterLine | Cubic/src/components/ChatInterface.jsx:674-701 | `Answer: x)` is both the text answer `x)` and a lettered answer naming x |
| PromptExamples.AnswerLetterShape | Cubic/src/components/ChatInterface.jsx:701 | its characters as the patterns read them |
| PromptExamples.AnswerLetterKeptOnlyForA | Cubic/src/components/ChatInterface.jsx:671-752 | the question is kept exactly for x = a/A: one option `x)`, index of x |
| PromptExamples.LinesOfJoin | Cubic/src/components/ChatInterface.jsx:565 | clean lines joined by line feeds come back with the empty ones dropped |
| PromptExamples.BlockClean | Cubic/src/components/ChatInterface.jsx:167-172 | every line of a multiple-choice block is clean |
| ReplyFormats.Meant | Cubic/src/components/ChatInterface.jsx:161-202 | a written question is meant to give one question, an unmarked one none |
| ReplyFormats.SettledStays | Cubic/src/components/ChatInterface.jsx:671-784 | after an answer, lines that start no question change nothing |
| ReplyFormats.ChoiceLetters | Cubic/src/components/ChatInterface.jsx:162 | two to four options lettered a), b), … are well written |
| ReplyFormats.AfterSettles | Cubic/src/components/ChatInterface.jsx:641-655 | after a written question the next flush adds what it is meant to give |
| ReplyFormats.FormatRun | Cubic/src/components/ChatInterface.jsx:611-785 | a question's lines take the parser to its state after that question |
| ReplyFormats.ReplyLinesCons | Cubic/src/components/ChatInterface.jsx:161-202 | a reply's lines and intended questions split at the first question |
| ReplyFormats.ReplyRun | Cubic/src/components/ChatInterface.jsx:611-805 | the run over a reply's lines adds exactly its intended questions |
| ReplyFormats.ReplyRunStep | Cubic/src/components/ChatInterface.jsx:611-805 | the induction step of that run |
| ReplyFormats.RunHead | Cubic/src/components/ChatInterface.jsx:611-785 | the first question's lines come first in the run |
| ReplyFormats.IntendedCons | Cubic/src/components/ChatInterface.jsx:161-202 | the intended questions split at the first question |
| ReplyFormats.ReplyParsed | Cubic/src/components/ChatInterface.jsx:565-805 | the questions parsed from a reply in the prompt's formats are its intended questions, in order |
| ReplyFormats.FormatClean | Cubic/src/components/ChatInterface.jsx:161-202 | every line of a well-written question is clean |
| ReplyFormats.TextLinesClean | Cubic/src/components/ChatInterface.jsx:192-196 | a text-answer question's lines are clean |
| ReplyFormats.ReplyPiecesFilter | Cubic/src/components/ChatInterface.jsx:565 | dropping the empty pieces of a reply gives its lines |
| ReplyFormats.ReplyPiecesClean | Cubic/src/components/ChatInterface.jsx:565 | every piece of a reply is empty or clean |
| ReplyFormats.ReplyText | Cubic/src/components/ChatInterface.jsx:531-565 | the reply text comes back as its lines and holds no backtick |
| ReplyFormats.ReplyGate | Cubic/src/components/ChatInterface.jsx:512-524 | a reply whose first question ends in `?` passes the gate |
| ReplyFormats.FirstPiece | Cubic/src/components/ChatInterface.jsx:565 | the reply's first piece is its first question line |
| ReplyFormats.QuestionLinePasses | Cubic/src/components/ChatInterface.jsx:512 | a numbered question line ending in `?` passes the gate |
| ReplyFormats.ReplyDetected | Cubic/src/components/ChatInterface.jsx:489-852 | a reply in the prompt's formats gives a quiz exactly when it passes the gate and means some question, with exactly its intended questions |
| PdfExcerpt.MarkerEnd | Cubic/src/components/ChatInterface.jsx:96 | a `--- Page N ---` match is at least 14 characters long |
| PdfExcerpt.PagesFrom | Cubic/src/components/ChatInterface.jsx:96 | `split` yields at least one piece |
| PdfExcerpt.Pages | Cubic/src/components/ChatInterface.jsx:96 | likewise for the whole text |
| PdfExcerpt.Concat | Cubic/src/components/ChatInterface.jsx:100-104 | the concatenated pages are as long, in code units, as their total |
| PdfExcerpt.FitCount | Cubic/src/components/ChatInterface.jsx:100-108 | the loop takes at most all pages |
| PdfExcerpt.ChunkExcerpt | Cubic/src/components/ChatInterface.jsx:89-111 | the chunking loop, counting code units, computes the excerpt |
| PdfExcerpt.ConcatSnoc | Cubic/src/components/ChatInterface.jsx:102-103 | adding one more page appends it |
| PdfExcerpt.ConcatAppend | Cubic/src/components/ChatInterface.jsx:102-103 | concatenation distributes over `+` |
| PdfExcerpt.FitCountLongest | Cubic/src/components/ChatInterface.jsx:100-108 | the loop takes the longest run of leading pages within the limit |
| PdfExcerpt.TotalAtLeastFirst | Cubic/src/components/ChatInterface.jsx:100-108 | the total is at least the first page |
| PdfExcerpt.ExcerptBound | Cubic/src/components/ChatInterface.jsx:89-111 | the excerpt never exceeds 8000 UTF-16 code units, content within the limit is used as it is, and the cut of last resort keeps at least 7999 units |
| PdfExcerpt.BmpUnits | Cubic/src/components/ChatInterface.jsx:94 | for text within the Basic Multilingual Plane the code units are its characters |
| PdfExcerpt.NoMarkerOnePage | Cubic/src/components/ChatInterface.jsx:96 | text without a marker is a single page |
| PdfExcerpt.NoMarkerFrom | Cubic/src/components/ChatInterface.jsx:96 | with no marker ahead, the rest is one piece |
| PdfExcerpt.MarkerSplits | Cubic/src/components/ChatInterface.jsx:96 | a marker after a hyphen-free text splits it off |
| PdfExcerpt.HyphenFreeNoMarker | Cubic/src/components/ChatInterface.jsx:96 | no marker starts inside hyphen-free text |
| PdfExcerpt.MarkerShape | Cubic/src/components/ChatInterface.jsx:96 | `--- Page N ---` is a marker ending where it is written |
| PdfExcerpt.SkipNoMarker | Cubic/src/components/ChatInterface.jsx:96 | the search skips positions without a marker |
| PdfExcerpt.DigitRunIs | Cubic/src/components/ChatInterface.jsx:96 | `\d+` takes the whole digit run |
| PdfExcerpt.DigitRunShift | Cubic/src/components/ChatInterface.jsx:96 | the digit run does not depend on what precedes it |
| PdfExcerpt.MarkerAtShift | Cubic/src/components/ChatInterface.jsx:96 | nor does a marker |
| PdfExcerpt.PagesFromShift | Cubic/src/components/ChatInterface.jsx:96 | nor does the split |
| PdfExcerpt.MarkerEndShift | Cubic/src/components/ChatInterface.jsx:96 | nor does where a marker ends |
| PdfExcerpt.SliceShift | Cubic/src/components/ChatInterface.jsx:96 | a slice of the second part is a slice of the whole, shifted |
| PdfExcerpt.CharsAtShift | Cubic/src/components/ChatInterface.jsx:96 | nor does a literal match |
| PdfExcerpt.ShiftAtMarker | Cubic/src/components/ChatInterface.jsx:96 | the split shifts over a marker |
| PdfExcerpt.ShiftPastPosition | Cubic/src/components/ChatInterface.jsx:96 | the split shifts over a position without a marker |
| PdfExcerpt.SplitOff | Cubic/src/components/ChatInterface.jsx:96 | a first marker splits off the text before it |
| Text.Width | Cubic/src/components/ChatInterface.jsx:94 | a character takes one UTF-16 code unit, two exactly outside the Basic Multilingual Plane |
| Text.NoLineTerminatorByMembership | Cubic/src/components/ChatInterface.jsx:512 | a string without `\n`, `\r`, U+2028 and U+2029 has no line terminator, so `.` may cross all of it |
| Text.SpaceRun | Cubic/src/components/ChatInterface.jsx:622 | `\s*` takes the whole run of spaces from a position: all spaces, and the next character is not one |
| Text.BackSpaceRun | Cubic/src/components/ChatInterface.jsx:622 | the run of spaces that ends at a position, counted backwards, stops at a non-space |
| Text.SpaceRunIs | Cubic/src/components/ChatInterface.jsx:622 | a maximal run of spaces is the run `SpaceRun` counts |
| Text.BackSpaceRunIs | Cubic/src/components/ChatInterface.jsx:622 | likewise backwards |
| Text.Trim | Cubic/src/components/ChatInterface.jsx:565 | `trim()`: no longer than the string, and it starts and ends with a non-space |
| Text.TrimIsCore | Cubic/src/components/ChatInterface.jsx:565 | the trim is exactly the slice between the leading and the trailing spaces |
| Text.TrimOfTrimmed | Cubic/src/components/ChatInterface.jsx:565 | a string without outer spaces is its own trim |
| Text.TrimIdempotent | Cubic/src/components/ChatInterface.jsx:565 | trimming twice is trimming once |
| Text.TrimSlice | Cubic/src/components/ChatInterface.jsx:657 | the trim of a captured slice is the slice of the line between its spaces |
| Text.DigitRun | Cubic/src/components/ChatInterface.jsx:96 | `\d+` takes the whole run of digits from a position |
| Text.IndexOf | Cubic/src/components/QuizInterface.jsx:120-124 | where the displayed time's colon is: the first occurrence, or −1 exactly when there is none |
| Text.IndexFrom | Cubic/src/components/ChatInterface.jsx:565 | the first separator at or after a position, or −1 exactly when there is none |
| Text.IndexFromIs | Cubic/src/components/ChatInterface.jsx:565 | the first separator found is the one that comes first |
| Text.Split | Cubic/src/components/ChatInterface.jsx:565 | `split('\n')` gives at least one piece |
| Text.JoinSplit | Cubic/src/components/ChatInterface.jsx:565 | joining the pieces of a split with the separator gives the string back |
| Text.JoinSplitFrom | Cubic/src/components/ChatInterface.jsx:565 | likewise for the pieces after a position |
| Text.JoinCons | Cubic/src/components/ChatInterface.jsx:565 | joining a first piece and the rest puts the separator between them |
| Text.SplitJoin | Cubic/src/components/ChatInterface.jsx:565 | splitting a join of separator-free pieces gives the pieces back |
| Text.NoSeparatorNoSplit | Cubic/src/components/ChatInterface.jsx:565 | a string without the separator is one piece |
| Text.SplitAfterFirst | Cubic/src/components/ChatInterface.jsx:565 | a separator-free first piece splits off as one piece |
| Text.IndexFromShift | Cubic/src/components/ChatInterface.jsx:565 | searching past a prefix finds what searching the rest finds, shifted |
| Text.SplitFromShift | Cubic/src/components/ChatInterface.jsx:565 | splitting past a prefix gives the pieces of the rest |
| Text.NotInJoin | Cubic/src/components/ChatInterface.jsx:565 | a character in no piece and other than the separator is not in the join |
| Text.NatToString | Cubic/src/components/QuizConfig.jsx:121 | the decimal form of a page number: at least one digit, digits only |
| Text.NatToStringValue | Cubic/src/components/QuizConfig.jsx:121 | the decimal form reads back as the number |
| Text.UnitsBounds | Cubic/src/components/ChatInterface.jsx:94 | a string has between one and two code units per character, one each exactly within the Basic Multilingual Plane |
| Text.UnitsAppend | Cubic/src/components/ChatInterface.jsx:101-103 | the code units of a concatenation add up |
| Text.TakeUnits | Cubic/src/components/ChatInterface.jsx:110 | `substring(0, n)`: the longest prefix of whole characters within n code units |
| Text.TakeUnitsFull | Cubic/src/components/ChatInterface.jsx:110 | of a longer string that prefix has at least n − 1 code units |
| PromptComposer.ModelFor | Cubic/src/components/ChatInterface.jsx:251 | the reasoning model exactly in quality mode, else the chat model |
| PromptComposer.OpeningKinds | Cubic/src/components/ChatInterface.jsx:112-152 | the opening holds only opening parts |
| PromptComposer.DocumentOpens | Cubic/src/components/ChatInterface.jsx:112-135 | the document instructions come first, exactly when the document is used, carrying an excerpt of at most 8000 code units, the whole document when it fits |
| PromptComposer.TopicWithoutDocument | Cubic/src/components/ChatInterface.jsx:136-152 | the subject sentence and the quality hint appear exactly without the document (the subject only when non-empty) |
| PromptComposer.LanguageOnce | Cubic/src/components/ChatInterface.jsx:154-159 | one language note right after the opening, Arabic exactly for 'arabic' |
| PromptComposer.FormatFollows | Cubic/src/components/ChatInterface.jsx:161-232 | the format example follows the language note exactly for the three quiz types |
| PromptComposer.DurationAndAdditional | Cubic/src/components/ChatInterface.jsx:233-239 | the time sentence exactly for a positive limit, the extra requirements exactly when given |
| ApiErrors.StatusMessage | Cubic/src/components/ChatInterface.jsx:459-471 | the error thrown for a failed response is never empty |
| ApiErrors.MissingCharNotContained | Cubic/src/components/ChatInterface.jsx:312-317 | a phrase with a character absent from the message is not found in it |
| ApiErrors.PrefixContained | Cubic/src/components/ChatInterface.jsx:312-317 | a message starting with a phrase contains it |
| ApiErrors.MissingKeyNotice | Cubic/src/components/ChatInterface.jsx:433-434 | a missing key is shown as the key notice |
| ApiErrors.UnauthorizedNotice | Cubic/src/components/ChatInterface.jsx:463-464 | a 401 is shown as the authentication notice |
| ApiErrors.RateLimitedNotice | Cubic/src/components/ChatInterface.jsx:465-466 | a 429 is shown as the rate-limit notice |
| ApiErrors.ServerErrorNotice | Cubic/src/components/ChatInterface.jsx:467-468 | a status from 500 up is shown with the server message |
| ApiErrors.ServerMessagePlain | Cubic/src/components/ChatInterface.jsx:312-318 | the server message holds none of the three phrases |
| ChatHistory.FindIndex | Cubic/src/components/ChatInterface.jsx:414 | `findIndex`: the first entry with the id, or −1 when none has it |
| ChatHistory.Capped | Cubic/src/components/ChatInterface.jsx:422 | at most 50 entries are kept |
| ChatHistory.SaveChatToHistory | Cubic/src/components/ChatInterface.jsx:401-428 | a known id is replaced in place, a new one goes in front, at most 50 are kept; the entry is returned |
| ChatHistory.SavedChatKept | Cubic/src/components/ChatInterface.jsx:413-422 | the saved chat is in the history unless its old place is past the cap, and then no entry of its id is |
| ChatHistory.QuizSavePushesChatOut | Cubic/src/components/ChatInterface.jsx:272-275 | with 50 entries, saving a quiz makes 51, and saving the last chat again then drops it |
| QuizSubmit.Call | Cubic/src/components/ChatInterface.jsx:429-485 | the message content exactly for an ok response with a text message, passed on as not text when it is not; a failed status gives its status message, a body without a message the invalid-response message |
| QuizSubmit.SubmitReady | Cubic/src/components/ChatInterface.jsx:244-305 | the quiz starts exactly when the call answers, a quiz is detected and it can start; the entry is saved in front |
| QuizSubmit.UnreadReplyShowsFailure | Cubic/src/components/ChatInterface.jsx:293-305 | a reply that fails the gate shows the failure message |
| QuizSubmit.FailureShowsNotice | Cubic/src/components/ChatInterface.jsx:307-330 | a failed call shows the notice for its message |
| QuizSubmit.MissingKeyShown | Cubic/src/components/ChatInterface.jsx:312-313 | no key shows the key notice |
| QuizSubmit.UnauthorizedShown | Cubic/src/components/ChatInterface.jsx:314-315 | a 401 shows the authentication notice |
| QuizSubmit.RateLimitedShown | Cubic/src/components/ChatInterface.jsx:316-317 | a 429 shows the rate-limit notice |
| QuizSubmit.ServerErrorShown | Cubic/src/components/ChatInterface.jsx:467-468 | a status from 500 up shows the server message |
| QuizSubmit.NoMessageShown | Cubic/src/components/ChatInterface.jsx:476-479 | a body without a message shows "Invalid response from API" |
| QuizSubmit.NonTextShowsTypeError | Cubic/src/components/ChatInterface.jsx:482-491 | content that is not text gets through the call and the TypeError of its first text use is shown with its own message |
| ApiErrors.InvalidResponseNotice | Cubic/src/components/ChatInterface.jsx:307-330 | the invalid-response message holds none of the phrases and is shown as it is |
| QuizSubmit.FormattedReplySubmitted | Cubic/src/components/ChatInterface.jsx:252-293 | a reply in the prompt's formats starts a quiz exactly when it passes the gate and means a question, with its intended questions, saved in front |
| QuizSubmit.CapitalPlain | Cubic/src/components/ChatInterface.jsx:167 | the example's first question has no line end or backtick |
| QuizSubmit.PlanetPlain | Cubic/src/components/ChatInterface.jsx:174 | nor its second |
| QuizSubmit.PlainQuestionText | Cubic/src/components/ChatInterface.jsx:167-174 | such a question is a question text |
| QuizSubmit.CapitalQuestionText | Cubic/src/components/ChatInterface.jsx:167 | the first is a question text |
| QuizSubmit.PlanetQuestionText | Cubic/src/components/ChatInterface.jsx:174 | the second too |
| QuizSubmit.WordText | Cubic/src/components/ChatInterface.jsx:168-178 | a word of letters is an option text |
| QuizSubmit.CapitalOptionsText | Cubic/src/components/ChatInterface.jsx:168-171 | the first question's options are option texts |
| QuizSubmit.PlanetOptionsText | Cubic/src/components/ChatInterface.jsx:175-178 | the second's too |
| QuizSubmit.ChoiceExampleWellWritten | Cubic/src/components/ChatInterface.jsx:167-179 | both example questions are well written |
| QuizSubmit.ChoiceExampleStarts | Cubic/src/components/ChatInterface.jsx:161-185 | a reply copying the multiple-choice example starts a quiz with its two questions, answers c and b |
| Markdown.CloseFrom | Cubic/src/components/ChatInterface.jsx:16 | the lazy group stops at the first `**`, on the same line |
| Markdown.NoStarsUnchanged | Cubic/src/components/ChatInterface.jsx:12-18 | a text without `*` is returned as it is |
| Markdown.StarFreePrefix | Cubic/src/components/ChatInterface.jsx:16-17 | a star-free prefix is copied and does not change the rest |
| Markdown.Emphasised | Cubic/src/components/ChatInterface.jsx:16-17 | `**b**` becomes `<strong>b</strong>` |
| Markdown.CloseAfter | Cubic/src/components/ChatInterface.jsx:16 | the close of `**b**` is found after b |
| Markdown.EmphasisedInside | Cubic/src/components/ChatInterface.jsx:12-18 | a whole text with one emphasised phrase is bolded there and nowhere else |
| QuizRunner.DisplayedOptionCount | Cubic/src/components/QuizInterface.jsx:80-90 | the question's options, or the one placeholder option for a question without an options array |
| QuizRunner.Clamp | Cubic/src/components/QuizInterface.jsx:77 | the index is kept in range, unchanged when already in it |
| QuizRunner.CorrectUpTo | Cubic/src/components/QuizInterface.jsx:199-207 | the count of correct answers is at most the questions counted |
| QuizRunner.Score | Cubic/src/components/QuizInterface.jsx:192-212 | the score is at most the number of questions |
| QuizRunner.FullMarks | Cubic/src/components/QuizInterface.jsx:199-211 | full marks exactly when every question is answered correctly |
| QuizRunner.NoMarks | Cubic/src/components/QuizInterface.jsx:199-211 | no marks exactly when none is |
| QuizRunner.PadTwo | Cubic/src/components/QuizInterface.jsx:123 | `padStart(2, '0')` |
| QuizRunner.FormatTimeReads | Cubic/src/components/QuizInterface.jsx:120-124 | the displayed time reads back as the seconds it shows |
| QuizRunner.ReadFields | Cubic/src/components/QuizInterface.jsx:120-124 | minutes, a colon and two digits read back as their value |
| QuizRunner.ReadTimeAt | Cubic/src/components/QuizInterface.jsx:120-124 | likewise, given the colon's place |
| QuizRunner.TimeShape | Cubic/src/components/QuizInterface.jsx:123 | the displayed time has one colon, three places from the end |
| QuizRunner.SecondsField | Cubic/src/components/QuizInterface.jsx:122-123 | the seconds field has two digits reading back as the seconds |
| QuizRunner.TimeRemaining | Cubic/src/components/QuizInterface.jsx:95-99 | never negative; the limit in seconds minus the elapsed time while within it, else 0 |
| QuizRunner.TimeUpWhenLimitReached | Cubic/src/components/QuizInterface.jsx:95-100 | time is up exactly when there is a limit and the elapsed seconds reach it |
| QuizRunner.GradeFor | Cubic/src/components/QuizInterface.jsx:226-290 | A+ exactly from 90 %, F exactly below 60 % |
| QuizRunner.GradeMonotone | Cubic/src/components/QuizInterface.jsx:226-290 | a higher score never gets a lower grade |
| QuizRunner.QuizSession.constructor | Cubic/src/components/QuizInterface.jsx:45-51 | the initial state from the quiz and the results it is opened with; a timer started now closes over this quiz and these answers and time |
| QuizRunner.QuizSession.Reopen | Cubic/src/components/QuizInterface.jsx:54-74 | the reset effect (after mounting and on a new title) resets the state and reopens the results when there are some; a timer seeing the reset state starts exactly when the results view closes, otherwise the running timer is kept |
| QuizRunner.QuizSession.Rerender | Cubic/src/components/QuizInterface.jsx:63-117 | another quiz passed to the mounted runner: the quiz, limit and saved score are replaced; the state is reset exactly when the title changed, and kept otherwise; the timer restarts with the new quiz and the old answers when the limit changed outside the results view, restarts with the reset state when the results view closed, and otherwise keeps the old quiz |
| QuizRunner.DepsOf | Cubic/src/components/QuizInterface.jsx:94-95 | the timer's dependencies: seconds exactly when there is a limit |
| QuizRunner.SameDepsSameCountdown | Cubic/src/components/QuizInterface.jsx:94-117 | unchanged dependencies mean the same countdown; two positive limits have the same dependencies exactly when equal |
| QuizRunner.QuizSession.Displayed | Cubic/src/components/QuizInterface.jsx:77 | the question on screen is always a question of the quiz |
| QuizRunner.QuizSession.AnswerSelect | Cubic/src/components/QuizInterface.jsx:127-146 | an answer is stored only outside the results and review views, for a real question and a displayed option |
| QuizRunner.QuizSession.Next | Cubic/src/components/QuizInterface.jsx:149-158 | moves one question on when there is one, hiding the explanation |
| QuizRunner.QuizSession.Previous | Cubic/src/components/QuizInterface.jsx:161-170 | moves one question back when there is one |
| QuizRunner.QuizSession.CalculateScore | Cubic/src/components/QuizInterface.jsx:192-212 | the saved score of the given render when there is one, else the score of its answers against its questions |
| QuizRunner.QuizSession.HandleSubmit | Cubic/src/components/QuizInterface.jsx:173-189 | the results view opens; the score, count, time and answers of the render whose handler runs are reported, for that render's quiz |
| QuizRunner.QuizSession.Submit | Cubic/src/components/QuizInterface.jsx:173-189 | the submit button: the current answers, time and their score are reported for the quiz on screen |
| QuizRunner.QuizSession.Tick | Cubic/src/components/QuizInterface.jsx:103-117 | one second passes outside the results view; submission is due exactly when the limit is reached; the timer keeps the state it started with |
| QuizRunner.QuizSession.AutoSubmit | Cubic/src/components/QuizInterface.jsx:103-117 | the timeout calls the handler captured when the timer started: the answers, time, score and quiz of that moment are reported |
| QuizRunner.QuizSession.Restart | Cubic/src/components/QuizInterface.jsx:215-222 | everything is reset to a fresh run; leaving the results view starts a timer that sees the fresh state |
| QuizRunner.QuizSession.Review | Cubic/src/components/QuizInterface.jsx:301-306 | review starts at the first question with explanations; leaving the results view starts a timer that sees the answers kept |
| QuizRunner.QuizSession.BackToResults | Cubic/src/components/QuizInterface.jsx:548-552 | back to the results view, answers kept |
| QuizRunner.SubmitNeedsEveryAnswer | Cubic/src/components/QuizInterface.jsx:573 | submitting is enabled exactly when every question is answered |
| QuizRunner.SubsetSize | Cubic/src/components/QuizInterface.jsx:573 | a subset is no larger, a proper one smaller |
| QuizRunner.Indices | Cubic/src/components/QuizInterface.jsx:573 | the question indices 0..n−1, n of them |
| QuizRunner.TimedOutRun | Cubic/src/components/QuizInterface.jsx:100-117 | a run that answers the first question correctly after the timer started and then times out reports no answers, no time and a score of 0, while its screen shows the answer |
| QuizRunner.SwitchToCompleted | Cubic/src/App.jsx:19-44 | selecting a completed quiz while another runs opens its results with the score stored in them |
| QuizRunner.SwitchedThenTimedOut | Cubic/src/components/QuizInterface.jsx:63-117 | after switching to a quiz with the same limit, the old timer times out and reports to the old quiz, with its question count and no answers |
| QuizConfigForm.UpdateTouchesOnlyItsKey | Cubic/src/components/QuizConfig.jsx:67-69 | an update sets its own field and leaves every other one |
| QuizConfigForm.FieldsDetermineRecord | Cubic/src/components/QuizConfig.jsx:11-22 | the fields determine the record |
| QuizConfigForm.BatchesPartition | Cubic/src/components/QuizConfig.jsx:97-99 | batch k covers pages 5k+1 to min(5k+5, total): runs of at most five covering every page once |
| QuizConfigForm.BatchesFromShape | Cubic/src/components/QuizConfig.jsx:97-99 | the batches from any batch start on |
| QuizConfigForm.AssemblePages | Cubic/src/components/QuizConfig.jsx:93-124 | the page loop gives the text of all pages in page order |
| QuizConfigForm.AppendBatch | Cubic/src/components/QuizConfig.jsx:102-123 | one batch appends its pages in ascending order |
| QuizConfigForm.AppendPage | Cubic/src/components/QuizConfig.jsx:119-122 | one page appends its marker and text when its text is not empty |
| QuizConfigForm.Collapse | Cubic/src/components/QuizConfig.jsx:128 | every run of spaces becomes one plain space |
| QuizConfigForm.LastIn | Cubic/src/components/QuizConfig.jsx:129 | a found line feed lies in the range |
| QuizConfigForm.NoLineEndNothingDropped | Cubic/src/components/QuizConfig.jsx:129 | without line feeds the blank-line replacement changes nothing |
| QuizConfigForm.CleanupShape | Cubic/src/components/QuizConfig.jsx:127-130 | the cleaned text has no line end, single plain spaces only, no outer space |
| QuizConfigForm.TrimmedCollapse | Cubic/src/components/QuizConfig.jsx:128-130 | trimming keeps the collapsed shape |
| QuizConfigForm.SliceKeepsSpaces | Cubic/src/components/QuizConfig.jsx:128-130 | a slice keeps the collapsed shape |
| QuizConfigForm.CollapseKeepsWords | Cubic/src/components/QuizConfig.jsx:128 | text with no space is left as it is |
| QuizConfigForm.DropFirstPdf | Cubic/src/components/QuizConfig.jsx:138 | removes `.pdf` once or nothing |
| QuizConfigForm.DropPdfFrom | Cubic/src/components/QuizConfig.jsx:138 | likewise from a position |
| QuizConfigForm.Separators | Cubic/src/components/QuizConfig.jsx:138 | every `_` and `-` becomes a space, nothing else changes |
| QuizConfigForm.FileSubjectOfPdfName | Cubic/src/components/QuizConfig.jsx:137-139 | `my_notes.pdf` suggests its base name with separators as spaces |
| QuizConfigForm.NoPdfBefore | Cubic/src/components/QuizConfig.jsx:138 | the search for `.pdf` skips a dot-free prefix |
| QuizConfigForm.QuizConfigState.constructor | Cubic/src/components/QuizConfig.jsx:11-24 | the form starts with the default record and no text |
| QuizConfigForm.QuizConfigState.UpdateConfig | Cubic/src/components/QuizConfig.jsx:67-69 | the record with one field replaced |
| QuizConfigForm.QuizConfigState.Submitted | Cubic/src/components/QuizConfig.jsx:55-65 | the settings, and the extracted text exactly when the document is in use |
| QuizConfigForm.QuizConfigState.ProcessPdf | Cubic/src/components/QuizConfig.jsx:72-165 | success keeps the cleaned text, uses the file and fills an empty subject; failure clears the document |
| QuizConfigForm.QuizConfigState.UsePdf | Cubic/src/components/QuizConfig.jsx:132-140 | the success path |
| QuizConfigForm.QuizConfigState.ClearPdf | Cubic/src/components/QuizConfig.jsx:159-161 | the failure path |
| QuizConfigForm.QuizConfigState.FileUpload | Cubic/src/components/QuizConfig.jsx:167-173 | only a PDF is processed; any other file changes nothing |
| QuizConfigForm.QuizConfigState.RemovePdf | Cubic/src/components/QuizConfig.jsx:186-191 | the document and the subject are cleared |
| AppShell.AttachResults | Cubic/src/App.jsx:84-95 | same entries, same order; matching entries get these results and the time, the others are unchanged |
| AppShell.App.constructor | Cubic/src/App.jsx:12-15 | no chat, chat view, no quiz |
| AppShell.App.Shown | Cubic/src/App.jsx:127-141 | a valid state never renders nothing; the quiz screen exactly in the quiz view with a quiz |
| AppShell.App.ChatSelect | Cubic/src/App.jsx:19-44 | a quiz entry opens its quiz with its results, any other the chat view |
| AppShell.App.NewChat | Cubic/src/App.jsx:46-54 | no current chat, chat view, results cleared, quiz kept |
| AppShell.App.ChatUpdate | Cubic/src/App.jsx:56-62 | the saved chat becomes current, nothing else changes |
| AppShell.App.StartQuiz | Cubic/src/App.jsx:64-77 | the quiz view shows the new quiz without results |
| AppShell.App.BackToChat | Cubic/src/App.jsx:106-110 | the chat view, quiz closed |
| AppShell.App.QuizComplete | Cubic/src/App.jsx:79-104 | the stored history with the results attached for the quiz on screen |
| AppShell.AttachTwice | Cubic/src/App.jsx:84-95 | completing again changes nothing: earlier results are never overwritten |
| AppShell.SavedQuizCompleted | Cubic/src/App.jsx:79-104 | a saved quiz completed gets the results at the front, and older matching entries too |
| SidebarView.Visible | Cubic/src/components/Sidebar.jsx:31-36 | the listed entries are exactly those of the history the filter keeps |
| SidebarView.ContainsEmpty | Cubic/src/components/Sidebar.jsx:32 | every title contains the empty search |
| SidebarView.EmptySearchListsAll | Cubic/src/components/Sidebar.jsx:31-36 | with no search term, 'all' lists the whole history |
| SidebarView.QuizzesWithinAll | Cubic/src/components/Sidebar.jsx:33-35 | the quizzes section lists part of 'all'; any other section lists the same as 'all' |
| SidebarView.QuizCount | Cubic/src/components/Sidebar.jsx:144 | the badge counts quiz entries: at most all, 0 exactly without quizzes |
| SidebarView.Without | Cubic/src/components/Sidebar.jsx:46 | exactly the entries of another id remain |
| SidebarView.WithoutAbsent | Cubic/src/components/Sidebar.jsx:46 | deleting an absent id changes nothing |
| SidebarView.WithoutQuizCount | Cubic/src/components/Sidebar.jsx:46 | deleting removes exactly the quizzes of that id from the count |
| SidebarView.DateLabelFor | Cubic/src/components/Sidebar.jsx:57-73 | "just now" exactly without a timestamp; time of day within 24 h; month and day for an unreadable date |
| SidebarView.OlderIsCoarser | Cubic/src/components/Sidebar.jsx:62-72 | an older entry is never labelled more finely |
| SidebarView.Sidebar.constructor | Cubic/src/components/Sidebar.jsx:11-13 | empty search, 'all', empty list |
| SidebarView.Sidebar.LoadChatHistory | Cubic/src/components/Sidebar.jsx:20-25 | the stored list, in stored order |
| SidebarView.Sidebar.FilteredChats | Cubic/src/components/Sidebar.jsx:31-36 | the shown entries are exactly the kept ones |
| SidebarView.Sidebar.SetSearchTerm | Cubic/src/components/Sidebar.jsx:11 | the search term changes, nothing else |
| SidebarView.Sidebar.SetActiveSection | Cubic/src/components/Sidebar.jsx:12 | the section changes, nothing else |
| SidebarView.Sidebar.DeleteChat | Cubic/src/components/Sidebar.jsx:44-55 | every entry of the id leaves the list, which is stored; a new chat exactly when it was the current one |
| Theme.InitialDark | Cubic/src/contexts/ThemeContext.jsx:196-203 | a stored theme decides, else the system preference |
| Theme.InitialLanguage | Cubic/src/contexts/ThemeContext.jsx:205-209 | a stored language, else English; never empty |
| Theme.ThemeRoundTrip | Cubic/src/contexts/ThemeContext.jsx:196-222 | the written theme is read back at the next start |
| Theme.LanguageRoundTrip | Cubic/src/contexts/ThemeContext.jsx:205-237 | the written language is read back |
| Theme.NextLanguage | Cubic/src/contexts/ThemeContext.jsx:243-245 | English becomes Arabic, anything else English |
| Theme.ToggleTwice | Cubic/src/contexts/ThemeContext.jsx:243-245 | two toggles restore en or ar; any other language ends as ar |
| Theme.Translate | Cubic/src/contexts/ThemeContext.jsx:247-249 | throws (None) exactly for a language not in the table; else a non-empty text or the key |
| Theme.EmptyTextShowsKey | Cubic/src/contexts/ThemeContext.jsx:187-248 | an empty text shows its key |
| Theme.ArabicCountSuffix | Cubic/src/components/Sidebar.jsx:159 | in Arabic a count other than one ends in a Latin `s` |
| Theme.ThemeState.ThemeEffect | Cubic/src/contexts/ThemeContext.jsx:211-222 | storage and the document class follow the theme |
| Theme.ThemeState.LanguageEffect | Cubic/src/contexts/ThemeContext.jsx:224-237 | storage, direction and language follow the language |
| Theme.ThemeState.constructor | Cubic/src/contexts/ThemeContext.jsx:196-237 | the initial theme and language, with storage and document in sync |
| Theme.ThemeState.ToggleTheme | Cubic/src/contexts/ThemeContext.jsx:239-241 | the theme flips and everything stays in sync |
| Theme.ThemeState.ToggleLanguage | Cubic/src/contexts/ThemeContext.jsx:243-245 | the next language, in sync; right-to-left exactly after English |
| Theme.ThemeState.T | Cubic/src/contexts/ThemeContext.jsx:247-249 | never throws while the language is en or ar and both are in the table |

## Left out

- Storage, the clock, random ids, the network, `JSON.parse`, the PDF library and `matchMedia` are parameters; what they do is not modelled.
- Timers (`setTimeout`, `setInterval`, animation delays): a handler is modelled as its effect after the delay; `Tick` is one interval callback.
- Rendering, icons, CSS classes and the cosmetic state (`isAnimating`, loading flags, the settings panel) are not modelled.
- The calls into the chat component (`clearChat`, `loadChat`, `refreshChatList`) are not modelled.
- The no-configuration title, subject and difficulty regexes (ChatInterface.jsx:592-605) are given as an inferred-metadata parameter.
- `toLowerCase` is modelled on ASCII letters only.
- ChatHistory.QuizEntryTitle: a truthy quiz title that is not a string is treated as absent.
- AppShell.Completes: titles are compared as decoded values; reference equality of object titles is not modelled.
- The mixed-format example is not modelled line by line; `QuizParser.NoMarkNoQuiz` covers every reply of its shape.
- Sorting by numeric timestamps is not modelled; the application only writes ISO strings.
- Quiz titles, descriptions and the Arabic texts of the assembled record are carried as values, with no property proved about their wording.
- QuizMessage.jsx and QuizCard.jsx are not part of this model.
- PromptComposer.Prompt: the prompt's fixed wording is not modelled; each part records only the values it interpolates and its place in the prompt.
- QuizRunner.QuizSession.Rerender: a quiz without questions passed to the mounted runner is not modelled; the guard returns before the hooks, which React rejects. Titles are compared as decoded values, not by reference, and the restarted interval's phase within the second is not modelled.
- PdfExcerpt.Excerpt: when the 8000-unit cut of last resort falls inside a surrogate pair, the source keeps a lone high surrogate; the model's strings hold whole characters, so it stops one code unit short (`ExcerptBound` states this).
- QuizSubmit.NonTextShowsTypeError: the TypeError's text is chosen by the JavaScript engine, so it is a parameter of the response.
