// `detectAndParseQuiz` (ChatInterface.jsx) as a whole: the gate, the JSON fast
// path, the line parser and the quiz record built from the questions it keeps.

module QuizParser {
  import opened Common
  import opened Text
  import opened QuizData
  import opened Settings
  import opened LinePatterns
  import opened QuizDetection
  import opened JsonFastPath
  import opened LineParser

  /** What the metadata regexes find in a reply when no configuration is given:
      a title, a subject and a difficulty, each absent when its regex does not
      match. Those regexes search the whole reply and are inputs here. */
  datatype InferredMetadata = InferredMetadata(title: Option<string>, subject: Option<string>, difficulty: Option<string>)

  /** The quiz metadata the line parser's result carries. */
  datatype Metadata = Metadata(title: string, subject: string, difficulty: string)

  /** Arabic name of a quiz type, used in a title when the subject is empty. */
  function ArabicTypeName(quizType: string): string
  {
    if quizType == "multiple-choice" then "اختيار متعدد"
    else if quizType == "text-answer" then "إجابة نصية"
    else "مختلط"
  }

  /** `difficultyArabic[d] || 'متوسط'`. */
  function ArabicDifficulty(d: string): string
  {
    if d == "easy" then "سهل"
    else if d == "medium" then "متوسط"
    else if d == "hard" then "صعب"
    else if d == "expert" then "خبير"
    else "متوسط"
  }

  /** Title, subject and difficulty: from the configuration when one is given,
      else from what the reply itself names, else fixed defaults in the
      interface language. */
  function QuizMetadata(config: Option<SubmittedConfig>, arabic: bool, inferred: InferredMetadata): (m: Metadata)
    ensures config.Some? ==> m.subject == SubjectOrType(config.value) && m.difficulty == config.value.settings.difficulty
    ensures config.None? ==> m.difficulty == (if inferred.difficulty.Some? then inferred.difficulty.value else "medium")
  {
    match config
    case Some(c) =>
      var title :=
        if arabic then
          if c.settings.subject != "" then "اختبار " + c.settings.subject else "اختبار " + ArabicTypeName(c.settings.quizType)
        else
          if c.settings.subject != "" then c.settings.subject + " Quiz" else c.settings.quizType + " Quiz";
      Metadata(title, SubjectOrType(c), c.settings.difficulty)
    case None =>
      Metadata(
        if inferred.title.Some? then inferred.title.value else if arabic then "اختبار مُولد" else "Generated Quiz",
        if inferred.subject.Some? then inferred.subject.value else if arabic then "معرفة عامة" else "General Knowledge",
        if inferred.difficulty.Some? then inferred.difficulty.value else "medium")
  }

  /** `Math.max(questions.length * 60, 300)`. */
  function DefaultTimeLimit(n: nat): (t: int)
    ensures t >= 300 && t >= 60 * n
    ensures t == 300 || t == 60 * n
  {
    if 60 * n >= 300 then 60 * n else 300
  }

  /** The quiz record built from the questions the line parser kept. */
  function Assemble(questions: seq<ParsedQuestion>, config: Option<SubmittedConfig>, arabic: bool, inferred: InferredMetadata): (quiz: Quiz)
    ensures |quiz.questions| == |questions| && quiz.maxScore == |questions|
    ensures forall i :: 0 <= i < |questions| ==> quiz.questions[i] == Parsed(questions[i])
    ensures quiz.timeLimit.Some?
    ensures config.Some? && config.value.settings.timeLimit != 0 ==> quiz.timeLimit.value == config.value.settings.timeLimit
    ensures (config.None? || config.value.settings.timeLimit == 0) ==> quiz.timeLimit.value == DefaultTimeLimit(|questions|)
    ensures config.Some? ==> quiz.subject == JString(SubjectOrType(config.value)) && quiz.difficulty == JString(config.value.settings.difficulty)
  {
    var m := QuizMetadata(config, arabic, inferred);
    var description :=
      if arabic then "اختبار مُولد بالذكاء الاصطناعي بمستوى " + ArabicDifficulty(m.difficulty) + " حول " + m.subject
      else "AI-generated " + m.difficulty + " difficulty quiz about " + m.subject;
    var timeLimit :=
      if config.Some? && config.value.settings.timeLimit != 0 then config.value.settings.timeLimit
      else DefaultTimeLimit(|questions|);
    Quiz(
      JString(m.title),
      JString(description),
      seq(|questions|, i requires 0 <= i < |questions| => Parsed(questions[i])),
      JString(m.difficulty),
      if arabic then "مُولد بالذكاء الاصطناعي" else "AI Generated",
      JString(m.subject),
      |questions|,
      Some(timeLimit))
  }

  /** `detectAndParseQuiz(responseText, config)`. `decode` is `JSON.parse`
      (`None` where it throws); the interface language is read from the two
      stored language keys; `inferred` is what the metadata regexes find. */
  function DetectAndParseQuiz(
    text: string,
    decode: string -> Option<Json>,
    config: Option<SubmittedConfig>,
    storedLanguage: Option<string>,
    legacyLanguage: Option<string>,
    inferred: InferredMetadata): (r: Option<Quiz>)
    ensures !PassesGate(text) ==> r.None?
    ensures r.Some? ==> |r.value.questions| >= 1 && r.value.maxScore == |r.value.questions|
  {
    if !PassesGate(text) then None
    else
      var fast := FastPath(text, decode, config);
      if fast.Some? then
        QuizFromJsonSize(text, decode, config);
        fast
      else
        var questions := Parse(Lines(text));
        if |questions| == 0 then None
        else
          var arabic := StoredPreference(storedLanguage, legacyLanguage, "en") == "ar";
          Some(Assemble(questions, config, arabic, inferred))
  }

  lemma QuizFromJsonSize(text: string, decode: string -> Option<Json>, config: Option<SubmittedConfig>)
    requires FastPath(text, decode, config).Some?
    ensures |FastPath(text, decode, config).value.questions| >= 1
    ensures FastPath(text, decode, config).value.maxScore == |FastPath(text, decode, config).value.questions|
  {
    var body := FencedJson(text);
    QuizFromJsonKeepsValid(decode(body.value).value, config);
  }

  /** Where the result comes from: no quiz unless the gate passes; the fast path
      when it yields a quiz; otherwise the line parser, which gives a quiz
      exactly when it keeps a question, and then only complete questions with
      an index in 0..3. */
  lemma DetectAndParseQuizCases(
    text: string,
    decode: string -> Option<Json>,
    config: Option<SubmittedConfig>,
    storedLanguage: Option<string>,
    legacyLanguage: Option<string>,
    inferred: InferredMetadata)
    ensures var r := DetectAndParseQuiz(text, decode, config, storedLanguage, legacyLanguage, inferred);
      && (r.Some? <==> PassesGate(text) && (FastPath(text, decode, config).Some? || |Parse(Lines(text))| > 0))
      && (PassesGate(text) && FastPath(text, decode, config).Some? ==> r == FastPath(text, decode, config))
      && (PassesGate(text) && FastPath(text, decode, config).None? && r.Some? ==>
            |r.value.questions| == |Parse(Lines(text))|
            && forall i :: 0 <= i < |r.value.questions| ==>
                 r.value.questions[i] == Parsed(Parse(Lines(text))[i])
                 && IsComplete(Parse(Lines(text))[i]) && 0 <= Parse(Lines(text))[i].correctAnswer <= 3)
  {
    ParsedQuestionsSurfaced(Lines(text));
  }

  /** A reply without a fenced quiz none of whose trimmed lines ends in a
      question mark yields no quiz, whatever keywords pass the gate. The mixed
      format of the prompt, whose question lines end in `(Multiple Choice)` or
      `(Text Answer)`, is such a reply. */
  lemma NoMarkNoQuiz(
    text: string,
    decode: string -> Option<Json>,
    config: Option<SubmittedConfig>,
    storedLanguage: Option<string>,
    legacyLanguage: Option<string>,
    inferred: InferredMetadata)
    requires FastPath(text, decode, config).None?
    requires forall i :: 0 <= i < |Lines(text)| ==> !IsQuestionMark(Lines(text)[i][|Lines(text)[i]| - 1])
    ensures DetectAndParseQuiz(text, decode, config, storedLanguage, legacyLanguage, inferred).None?
  {
    NoMarkNoQuestions(Start, Lines(text));
  }
}
