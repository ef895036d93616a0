// The request `handleQuizConfigSubmit` (ChatInterface.jsx) sends for a submitted
// configuration: the prompt, part by part, and the model it goes to. The prompt's
// fixed wording is not modelled; each part records the values it interpolates.

module PromptComposer {
  import opened Common
  import opened Settings
  import opened PdfExcerpt
  import opened Text

  /** The difficulty sentence of the quality requirements. */
  datatype DifficultyHint = BasicConcepts | IntermediateUnderstanding | AdvancedAnalysis

  /** The worked example that shows the reply format. */
  datatype FormatGuide = ChoiceGuide | TextGuide | MixedGuide

  datatype PromptPart =
    | DocumentOnly(excerpt: string, questionCount: int, quizType: string, difficulty: string, arabic: bool)
      // the instructions to use the document alone, with its excerpt
    | Request(quizType: string, questionCount: int, difficulty: string)
    | Topic(subject: string)
    | Quality(hint: DifficultyHint)
    | LanguageNote(arabic: bool)
    | Format(guide: FormatGuide)
    | Duration(minutes: int)
    | Additional(requirements: string)

  /** The document branch is taken when there is extracted text and the
      document is in use. */
  predicate UsesDocument(c: SubmittedConfig)
  {
    c.pdfContent.Some? && c.pdfContent.value != "" && c.settings.useCustomPDF
  }

  function HintFor(difficulty: string): DifficultyHint
  {
    if difficulty == "easy" then BasicConcepts
    else if difficulty == "medium" then IntermediateUnderstanding
    else AdvancedAnalysis
  }

  function GuideFor(quizType: string): Option<FormatGuide>
  {
    if quizType == "multiple-choice" then Some(ChoiceGuide)
    else if quizType == "text-answer" then Some(TextGuide)
    else if quizType == "mixed" then Some(MixedGuide)
    else None
  }

  /** The opening: the document instructions, or the plain request with the
      optional topic and the quality requirements. */
  function Opening(c: SubmittedConfig): seq<PromptPart>
  {
    var s := c.settings;
    if UsesDocument(c) then
      [DocumentOnly(Excerpt(c.pdfContent.value), s.questionCount, s.quizType, s.difficulty, s.quizLanguage == "arabic")]
    else
      [Request(s.quizType, s.questionCount, s.difficulty)]
      + (if s.subject != "" then [Topic(s.subject)] else [])
      + [Quality(HintFor(s.difficulty))]
  }

  /** The whole prompt, in the order its parts are appended. */
  function Prompt(c: SubmittedConfig): seq<PromptPart>
  {
    Opening(c) + Closing(c.settings)
  }

  /** What follows the opening in both branches: the language note, the
      format example, the time and the extra requirements. */
  function Closing(s: QuizSettings): seq<PromptPart>
  {
    [LanguageNote(s.quizLanguage == "arabic")] + Extras(s)
  }

  function Extras(s: QuizSettings): seq<PromptPart>
  {
    (if GuideFor(s.quizType).Some? then [Format(GuideFor(s.quizType).value)] else [])
    + (if s.timeLimit > 0 then [Duration(s.timeLimit)] else [])
    + (if s.customPrompt != "" then [Additional(s.customPrompt)] else [])
  }

  /** The model: the reasoning model in quality mode, the chat model otherwise. */
  function ModelFor(processingMode: string): (model: string)
    ensures model == "deepseek-reasoner" || model == "deepseek-chat"
    ensures model == "deepseek-reasoner" <==> processingMode == "quality"
  {
    if processingMode == "quality" then "deepseek-reasoner" else "deepseek-chat"
  }

  /** Parts only the opening has. */
  predicate OpeningKind(p: PromptPart)
  {
    p.DocumentOnly? || p.Request? || p.Topic? || p.Quality?
  }

  lemma OpeningKinds(c: SubmittedConfig)
    ensures forall i :: 0 <= i < |Opening(c)| ==> OpeningKind(Opening(c)[i])
  {
  }

  /** The document instructions come first exactly when the document is used,
      nowhere else, and carry an excerpt of at most 8000 UTF-16 code units (a
      document within that limit whole). */
  lemma DocumentOpens(c: SubmittedConfig)
    ensures forall i :: 0 <= i < |Prompt(c)| && Prompt(c)[i].DocumentOnly? ==> i == 0 && UsesDocument(c)
    ensures UsesDocument(c) ==> (Prompt(c)[0].DocumentOnly?
      && Units(Prompt(c)[0].excerpt) <= MaxChunkSize
      && (Units(c.pdfContent.value) <= MaxChunkSize ==> Prompt(c)[0].excerpt == c.pdfContent.value))
  {
    var r := Prompt(c);
    OpeningKinds(c);
    assert forall i :: 0 <= i < |Closing(c.settings)| ==> !Closing(c.settings)[i].DocumentOnly?;
    if UsesDocument(c) {
      ExcerptBound(c.pdfContent.value);
    }
  }

  /** Without the document, the prompt names the subject when there is one
      and states the quality requirements for the difficulty; with it, it
      does neither. */
  lemma TopicWithoutDocument(c: SubmittedConfig)
    ensures Topic(c.settings.subject) in Prompt(c) <==> !UsesDocument(c) && c.settings.subject != ""
    ensures Quality(HintFor(c.settings.difficulty)) in Prompt(c) <==> !UsesDocument(c)
  {
    var s := c.settings;
    assert Topic(s.subject) !in Closing(s) && Quality(HintFor(s.difficulty)) !in Closing(s);
  }

  /** The language note follows the opening, is the only one, and asks for
      Arabic exactly when Arabic is chosen. */
  lemma LanguageOnce(c: SubmittedConfig)
    ensures var k := |Opening(c)|;
      && k < |Prompt(c)| && Prompt(c)[k] == LanguageNote(c.settings.quizLanguage == "arabic")
      && forall i :: 0 <= i < |Prompt(c)| && Prompt(c)[i].LanguageNote? ==> i == k
  {
    var r := Prompt(c);
    OpeningKinds(c);
    assert r == Opening(c) + [LanguageNote(c.settings.quizLanguage == "arabic")] + Extras(c.settings);
  }

  /** The format example follows the language note exactly for the three
      known quiz types, matches the type, and is the only one. */
  lemma FormatFollows(c: SubmittedConfig)
    ensures forall i :: 0 <= i < |Prompt(c)| && Prompt(c)[i].Format? ==>
      i == |Opening(c)| + 1 && GuideFor(c.settings.quizType) == Some(Prompt(c)[i].guide)
    ensures forall g :: Format(g) in Prompt(c) <==> GuideFor(c.settings.quizType) == Some(g)
  {
    var r := Prompt(c);
    var s := c.settings;
    var format := if GuideFor(s.quizType).Some? then [Format(GuideFor(s.quizType).value)] else [];
    var rest := (if s.timeLimit > 0 then [Duration(s.timeLimit)] else [])
      + (if s.customPrompt != "" then [Additional(s.customPrompt)] else []);
    assert Extras(s) == format + rest;
    assert r == Opening(c) + [LanguageNote(s.quizLanguage == "arabic")] + format + rest;
    OpeningKinds(c);
  }

  /** The time is mentioned exactly when a limit is set, and the extra
      requirements exactly when there are any. */
  lemma DurationAndAdditional(c: SubmittedConfig)
    ensures Duration(c.settings.timeLimit) in Prompt(c) <==> c.settings.timeLimit > 0
    ensures forall m :: Duration(m) in Prompt(c) ==> m == c.settings.timeLimit
    ensures Additional(c.settings.customPrompt) in Prompt(c) <==> c.settings.customPrompt != ""
  {
    var s := c.settings;
    OpeningKinds(c);
    assert Prompt(c) == Opening(c) + [LanguageNote(s.quizLanguage == "arabic")] + Extras(s);
  }
}
