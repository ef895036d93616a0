// `handleQuizConfigSubmit` (ChatInterface.jsx) from the reply on: the outcome of
// the call to the model (`callDeepSeekAPI`), the quiz read from the reply, the
// entry saved for it in front of the history, or the message shown instead.

module QuizSubmit {
  import opened Common
  import opened Text
  import opened QuizData
  import opened Settings
  import opened LinePatterns
  import opened QuizDetection
  import opened QuizParser
  import opened PromptExamples
  import opened ReplyFormats
  import opened PromptComposer
  import opened ApiErrors
  import opened ChatHistory

  /** What the request to the model comes to. The network is not modelled:
      the response is a parameter. */
  datatype Response =
    | NoKey                                  // no usable key configured
    | NotOk(status: int, detail: Option<string>) // a status outside 200-299 and the body's error message
    | NoMessage                              // an ok response without `choices[0].message`
    | Answered(content: string)              // an ok response whose first message has text content
    | NonText(typeError: string)
      // an ok response whose first message has content that is null, absent or
      // not a string; `typeError` is the message of the TypeError the engine
      // throws when the detector first reads that content as text
    | Thrown(message: string)                // fetch itself failed

  /** The value `callDeepSeekAPI` returns or the message of the error it throws. */
  datatype CallResult = Content(text: string) | NonTextContent | Failure(message: string)

  /** The call fails on a missing key, a status that is not ok, a body without
      a message and a failed fetch; it returns the message's content as it is,
      text or not. */
  function Call(response: Response): (r: CallResult)
    ensures response.NotOk? ==> r == Failure(StatusMessage(response.status, response.detail))
    ensures response.NoMessage? ==> r == Failure(InvalidResponseMessage)
    ensures r.Content? <==> response.Answered?
    ensures r.Content? ==> r.text == response.content
    ensures r.NonTextContent? <==> response.NonText?
  {
    match response
    case NoKey => Failure(MissingKeyMessage)
    case NotOk(status, detail) => Failure(StatusMessage(status, detail))
    case NoMessage => Failure(InvalidResponseMessage)
    case Answered(content) => Content(content)
    case NonText(_) => NonTextContent
    case Thrown(message) => Failure(message)
  }

  /** The request sent for a configuration: its prompt and its model. */
  datatype ModelRequest = ModelRequest(prompt: seq<PromptPart>, model: string)

  function RequestFor(c: SubmittedConfig): ModelRequest
  {
    ModelRequest(Prompt(c), ModelFor(c.settings.processingMode))
  }

  const NoQuizMessage: string := "Failed to generate quiz. Please try again with different settings."

  datatype Outcome =
    | QuizReady(quiz: Quiz, entry: ChatEntry, history: seq<ChatEntry>)
      // the quiz starts, and its entry is saved in front of the history
    | ErrorShown(text: string)
      // an assistant message is appended to the chat

  /** The handler after the call. `canStart` says whether the chat was given
      the callback that starts a quiz; `existing` is the stored history,
      `quizId` and `now` the generated id and timestamp of the entry. */
  function Submit(
    c: SubmittedConfig,
    response: Response,
    decode: string -> Option<Json>,
    storedLanguage: Option<string>,
    legacyLanguage: Option<string>,
    inferred: InferredMetadata,
    canStart: bool,
    existing: seq<ChatEntry>,
    quizId: string,
    now: string): (o: Outcome)
  {
    match Call(response)
    case Failure(message) => ErrorShown(NoticeText(NoticeFor(message)))
    case NonTextContent => ErrorShown(NoticeText(NoticeFor(response.typeError)))
    case Content(text) =>
      var quiz := DetectAndParseQuiz(text, decode, Some(c), storedLanguage, legacyLanguage, inferred);
      if quiz.Some? && canStart then
        var entry := QuizEntry(quizId, quiz.value, c.settings, now);
        QuizReady(quiz.value, entry, SaveQuiz(existing, entry))
      else ErrorShown(NoQuizMessage)
  }

  /** A quiz starts exactly when the model answered with a reply the detector
      reads as a quiz (and the chat can start one); the quiz is the one read,
      its entry carries it without results, and the history gains exactly that
      entry in front. */
  lemma SubmitReady(
    c: SubmittedConfig, response: Response, decode: string -> Option<Json>,
    storedLanguage: Option<string>, legacyLanguage: Option<string>, inferred: InferredMetadata,
    canStart: bool, existing: seq<ChatEntry>, quizId: string, now: string)
    ensures var o := Submit(c, response, decode, storedLanguage, legacyLanguage, inferred, canStart, existing, quizId, now);
      && (o.QuizReady? <==>
            canStart && response.Answered?
            && DetectAndParseQuiz(response.content, decode, Some(c), storedLanguage, legacyLanguage, inferred).Some?)
      && (o.QuizReady? ==>
            && Some(o.quiz) == DetectAndParseQuiz(response.content, decode, Some(c), storedLanguage, legacyLanguage, inferred)
            && o.entry.id == quizId && o.entry.kind == "quiz"
            && o.entry.quiz == Some(o.quiz) && o.entry.results.None?
            && |o.history| == |existing| + 1 && o.history[0] == o.entry && o.history[1..] == existing
            && |o.quiz.questions| >= 1)
  {
    var o := Submit(c, response, decode, storedLanguage, legacyLanguage, inferred, canStart, existing, quizId, now);
    if o.QuizReady? {
      assert o.history[1..] == existing;
    }
  }

  /** A reply that the detector cannot read shows the fixed failure text,
      which is none of the error notices. */
  lemma UnreadReplyShowsFailure(
    c: SubmittedConfig, text: string, decode: string -> Option<Json>,
    storedLanguage: Option<string>, legacyLanguage: Option<string>, inferred: InferredMetadata,
    canStart: bool, existing: seq<ChatEntry>, quizId: string, now: string)
    requires !PassesGate(text)
    ensures Submit(c, Answered(text), decode, storedLanguage, legacyLanguage, inferred, canStart, existing, quizId, now)
      == ErrorShown(NoQuizMessage)
  {
  }

  /** A failed call never starts a quiz: the chat shows the notice for the
      error's message. */
  lemma FailureShowsNotice(
    c: SubmittedConfig, response: Response, decode: string -> Option<Json>,
    storedLanguage: Option<string>, legacyLanguage: Option<string>, inferred: InferredMetadata,
    canStart: bool, existing: seq<ChatEntry>, quizId: string, now: string)
    requires Call(response).Failure?
    ensures Submit(c, response, decode, storedLanguage, legacyLanguage, inferred, canStart, existing, quizId, now)
      == ErrorShown(NoticeText(NoticeFor(Call(response).message)))
  {
  }

  /** A missing key shows the key notice. */
  lemma MissingKeyShown(
    c: SubmittedConfig, decode: string -> Option<Json>,
    storedLanguage: Option<string>, legacyLanguage: Option<string>, inferred: InferredMetadata,
    canStart: bool, existing: seq<ChatEntry>, quizId: string, now: string)
    ensures Submit(c, NoKey, decode, storedLanguage, legacyLanguage, inferred, canStart, existing, quizId, now) == ErrorShown(NoticeText(KeyNotice))
  {
    MissingKeyNotice();
  }

  /** A 401 shows the authentication notice. */
  lemma UnauthorizedShown(
    detail: Option<string>,
    c: SubmittedConfig, decode: string -> Option<Json>,
    storedLanguage: Option<string>, legacyLanguage: Option<string>, inferred: InferredMetadata,
    canStart: bool, existing: seq<ChatEntry>, quizId: string, now: string)
    ensures Submit(c, NotOk(401, detail), decode, storedLanguage, legacyLanguage, inferred, canStart, existing, quizId, now) == ErrorShown(NoticeText(AuthNotice))
  {
    UnauthorizedNotice(detail);
  }

  /** A 429 shows the rate-limit notice. */
  lemma RateLimitedShown(
    detail: Option<string>,
    c: SubmittedConfig, decode: string -> Option<Json>,
    storedLanguage: Option<string>, legacyLanguage: Option<string>, inferred: InferredMetadata,
    canStart: bool, existing: seq<ChatEntry>, quizId: string, now: string)
    ensures Submit(c, NotOk(429, detail), decode, storedLanguage, legacyLanguage, inferred, canStart, existing, quizId, now) == ErrorShown(NoticeText(RateNotice))
  {
    RateLimitedNotice(detail);
  }

  /** A server error shows its own message. */
  lemma ServerErrorShown(
    status: int, detail: Option<string>,
    c: SubmittedConfig, decode: string -> Option<Json>,
    storedLanguage: Option<string>, legacyLanguage: Option<string>, inferred: InferredMetadata,
    canStart: bool, existing: seq<ChatEntry>, quizId: string, now: string)
    requires status >= 500
    ensures Submit(c, NotOk(status, detail), decode, storedLanguage, legacyLanguage, inferred, canStart, existing, quizId, now) == ErrorShown(ServerMessage)
  {
    ServerErrorNotice(status, detail);
  }

  /** A response without a message shows the invalid-response text. */
  lemma NoMessageShown(
    c: SubmittedConfig, decode: string -> Option<Json>,
    storedLanguage: Option<string>, legacyLanguage: Option<string>, inferred: InferredMetadata,
    canStart: bool, existing: seq<ChatEntry>, quizId: string, now: string)
    ensures Submit(c, NoMessage, decode, storedLanguage, legacyLanguage, inferred, canStart, existing, quizId, now) == ErrorShown(InvalidResponseMessage)
  {
    InvalidResponseNotice();
  }

  /** Content that is not text gets through the call, and the TypeError the
      detector then throws is shown with its own message, which is not the
      invalid-response text when it says something else. */
  lemma NonTextShowsTypeError(
    typeError: string,
    c: SubmittedConfig, decode: string -> Option<Json>,
    storedLanguage: Option<string>, legacyLanguage: Option<string>, inferred: InferredMetadata,
    canStart: bool, existing: seq<ChatEntry>, quizId: string, now: string)
    requires typeError != "" && !Contains(typeError, KeyPhrase) && !Contains(typeError, AuthPhrase) && !Contains(typeError, RatePhrase)
    ensures Call(NonText(typeError)) == NonTextContent
    ensures Submit(c, NonText(typeError), decode, storedLanguage, legacyLanguage, inferred, canStart, existing, quizId, now) == ErrorShown(typeError)
  {
  }

  /** A reply written in the prompt's formats starts a quiz exactly when it
      passes the gate and holds a question meant to be kept; the quiz then
      holds exactly those questions, in order. */
  lemma FormattedReplySubmitted(
    c: SubmittedConfig, fs: seq<FormatQuestion>, decode: string -> Option<Json>,
    storedLanguage: Option<string>, legacyLanguage: Option<string>, inferred: InferredMetadata,
    existing: seq<ChatEntry>, quizId: string, now: string)
    requires |fs| >= 1 && forall i :: 0 <= i < |fs| ==> WellWritten(fs[i])
    ensures var o := Submit(c, Answered(Reply(fs)), decode, storedLanguage, legacyLanguage, inferred, true, existing, quizId, now);
      && (o.QuizReady? <==> PassesGate(Reply(fs)) && Intended(fs) != [])
      && (o.QuizReady? ==>
            && |o.quiz.questions| == |Intended(fs)|
            && (forall i :: 0 <= i < |Intended(fs)| ==> o.quiz.questions[i] == Parsed(Intended(fs)[i]))
            && o.history == [o.entry] + existing)
  {
    ReplyDetected(fs, decode, Some(c), storedLanguage, legacyLanguage, inferred);
  }

  // ---------------------------------------------------------------------------
  // The multiple-choice example the prompt shows, sent back as the reply

  const CapitalQuestion: string := "What is " + "the capital " + "of France?"
  const PlanetQuestion: string := "Which planet " + "is closest " + "to the Sun?"
  const CapitalOptions: seq<string> := ["London", "Berlin", "Paris", "Madrid"]
  const PlanetOptions: seq<string> := ["Venus", "Mercury", "Earth", "Mars"]

  const ChoiceExample: seq<FormatQuestion> :=
    [Choice('1', CapitalQuestion, CapitalOptions, 'c'), Choice('2', PlanetQuestion, PlanetOptions, 'b')]

  /** The characters a text of the format must not hold, absent from `s`. */
  predicate Plain(s: string)
  {
    '\n' !in s && '\r' !in s && '\U{2028}' !in s && '\U{2029}' !in s && '`' !in s
  }

  lemma CapitalPlain()
    ensures Plain(CapitalQuestion)
  {
    assert Plain("What is ") && Plain("the capital ") && Plain("of France?");
  }

  lemma PlanetPlain()
    ensures Plain(PlanetQuestion)
  {
    assert Plain("Which planet ") && Plain("is closest ") && Plain("to the Sun?");
  }

  lemma PlainQuestionText(q: string)
    requires Plain(q) && |q| >= 1 && q[0] == 'W' && q[|q| - 1] == '?'
    ensures IsQuestionText(q) && '`' !in q
  {
    NoLineTerminatorByMembership(q);
  }

  lemma CapitalQuestionText()
    ensures IsQuestionText(CapitalQuestion) && '`' !in CapitalQuestion
  {
    CapitalPlain();
    PlainQuestionText(CapitalQuestion);
  }

  lemma PlanetQuestionText()
    ensures IsQuestionText(PlanetQuestion) && '`' !in PlanetQuestion
  {
    PlanetPlain();
    PlainQuestionText(PlanetQuestion);
  }

  /** A word of Latin letters is an option as the format writes it. */
  lemma WordText(o: string)
    requires |o| >= 1 && forall i :: 0 <= i < |o| ==> 'A' <= o[i] <= 'Z' || 'a' <= o[i] <= 'z'
    ensures IsPlainText(o) && '`' !in o
  {
    assert Plain(o);
    NoLineTerminatorByMembership(o);
  }

  lemma CapitalOptionsText()
    ensures forall i :: 0 <= i < |CapitalOptions| ==> IsPlainText(CapitalOptions[i]) && '`' !in CapitalOptions[i]
  {
    WordText("London");
    WordText("Berlin");
    WordText("Paris");
    WordText("Madrid");
  }

  lemma PlanetOptionsText()
    ensures forall i :: 0 <= i < |PlanetOptions| ==> IsPlainText(PlanetOptions[i]) && '`' !in PlanetOptions[i]
  {
    WordText("Venus");
    WordText("Mercury");
    WordText("Earth");
    WordText("Mars");
  }

  lemma ChoiceExampleWellWritten()
    ensures forall i :: 0 <= i < |ChoiceExample| ==> WellWritten(ChoiceExample[i])
  {
    CapitalQuestionText();
    PlanetQuestionText();
    CapitalOptionsText();
    PlanetOptionsText();
  }

  /** The example reply starts a quiz of its two questions, with the third and
      the second option marked correct. */
  lemma ChoiceExampleStarts(
    c: SubmittedConfig, decode: string -> Option<Json>,
    storedLanguage: Option<string>, legacyLanguage: Option<string>, inferred: InferredMetadata,
    existing: seq<ChatEntry>, quizId: string, now: string)
    ensures var o := Submit(c, Answered(Reply(ChoiceExample)), decode, storedLanguage, legacyLanguage, inferred, true, existing, quizId, now);
      && o.QuizReady?
      && o.quiz.questions == [
           Parsed(ParsedQuestion(CapitalQuestion, CapitalOptions, 2, MultipleChoiceKind)),
           Parsed(ParsedQuestion(PlanetQuestion, PlanetOptions, 1, MultipleChoiceKind))]
  {
    ChoiceExampleWellWritten();
    ReplyGate(ChoiceExample);
    var expected := [
      ParsedQuestion(CapitalQuestion, CapitalOptions, 2, MultipleChoiceKind),
      ParsedQuestion(PlanetQuestion, PlanetOptions, 1, MultipleChoiceKind)];
    assert Intended(ChoiceExample[1..]) == [expected[1]];
    assert Intended(ChoiceExample) == expected;
    FormattedReplySubmitted(c, ChoiceExample, decode, storedLanguage, legacyLanguage, inferred, existing, quizId, now);
  }
}
