// The values that flow between the components: decoded JSON, the quiz record that the
// chat produces and the runner consumes, and its questions.

module QuizData {
  import opened Common

  /** A value produced by `JSON.parse`. Numbers are reals; a number too large
      for a double, which `JSON.parse` reads as an infinity, is left to the
      decoder that produces these values. */
  datatype Json =
    | JNull
    | JBool(b: bool)
    | JNumber(n: real)
    | JString(s: string)
    | JArray(items: seq<Json>)
    | JObject(fields: map<string, Json>)

  /** JavaScript truthiness of a decoded value. */
  predicate Truthy(v: Json)
  {
    match v
    case JNull => false
    case JBool(b) => b
    case JNumber(n) => n != 0.0
    case JString(s) => s != ""
    case JArray(_) => true
    case JObject(_) => true
  }

  /** Truthiness of a property read, where `None` is `undefined`. */
  predicate TruthyMember(v: Option<Json>)
  {
    v.Some? && Truthy(v.value)
  }

  /** Property access `v.key` on a value other than `null` (reading a property of
      `null` throws, and callers handle that case first). Only objects carry
      named properties; on anything else the read is `undefined`. */
  function Member(v: Json, key: string): (r: Option<Json>)
    requires !v.JNull?
    ensures r.Some? <==> v.JObject? && key in v.fields
    ensures r.Some? ==> r.value == v.fields[key]
  {
    if v.JObject? && key in v.fields then Some(v.fields[key]) else None
  }

  /** JavaScript `a || b` where `a` is a property read and `b` a fallback value. */
  function OrJson(a: Option<Json>, b: Json): (r: Json)
    ensures TruthyMember(a) ==> Some(r) == a
    ensures !TruthyMember(a) ==> r == b
  {
    if TruthyMember(a) then a.value else b
  }

  /** How an answer line classified a question produced by the line parser. */
  datatype Kind = Untyped | TextAnswerKind | MultipleChoiceKind

  /** A question assembled by the line parser: its text, its options, the index of
      the correct option (-1 until an answer line is seen) and its kind. Its
      `explanation` is always `null` and is not represented. */
  datatype ParsedQuestion = ParsedQuestion(text: string, options: seq<string>, correctAnswer: int, kind: Kind)

  /** A quiz question: either an entry of a decoded `questions` array, kept as
      it was decoded, or a question built by the line parser. */
  datatype Question =
    | Decoded(raw: Json)
    | Parsed(q: ParsedQuestion)

  /** `question.options.length`; a decoded entry without an options array has none. */
  function OptionCount(q: Question): (n: nat)
    ensures q.Parsed? ==> n == |q.q.options|
  {
    match q
    case Parsed(p) => |p.options|
    case Decoded(raw) =>
      if raw.JObject? && "options" in raw.fields && raw.fields["options"].JArray?
      then |raw.fields["options"].items| else 0
  }

  /** `answer === question.correctAnswer` for a chosen option index. */
  predicate IsCorrectChoice(q: Question, answer: int)
  {
    match q
    case Parsed(p) => p.correctAnswer == answer
    case Decoded(raw) =>
      raw.JObject? && "correctAnswer" in raw.fields && raw.fields["correctAnswer"] == JNumber(answer as real)
  }

  /** The quiz record. The metadata fields copied from decoded JSON may hold any
      JSON value; those the line parser builds are strings. `timeLimit` is absent
      on quizzes that come from a JSON block. */
  datatype Quiz = Quiz(
    title: Json,
    description: Json,
    questions: seq<Question>,
    difficulty: Json,
    category: string,
    subject: Json,
    maxScore: nat,
    timeLimit: Option<int>)
}
