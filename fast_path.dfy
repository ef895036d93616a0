// The first parsing stage of `detectAndParseQuiz` (ChatInterface.jsx): a reply that
// carries a ```json fenced block whose `questions` array holds well-formed
// entries becomes a quiz made of exactly those entries.

module JsonFastPath {
  import opened Common
  import opened Text
  import opened QuizData
  import opened Settings

  /** The end of the lazy group `[\s\S]*?` in `/```json\s*([\s\S]*?)\s*```/`,
      searched from `k`: the first position from which spaces and then three
      backticks follow. */
  function CloseFrom(s: string, k: nat): (e: Option<nat>)
    requires k <= |s|
    ensures e.Some? ==> k <= e.value <= |s| && ClosesAt(s, e.value)
    decreases |s| - k
  {
    if ClosesAt(s, k) then Some(k)
    else if k == |s| then None
    else CloseFrom(s, k + 1)
  }

  /** `\s*```` matches at `k`. */
  predicate ClosesAt(s: string, k: nat)
    requires k <= |s|
  {
    var q := k + SpaceRun(s, k);
    q + 3 <= |s| && s[q] == '`' && s[q + 1] == '`' && s[q + 2] == '`'
  }

  /** The captured group of the fence regex, searching for the opening ```json
      from position `i` on: the regex engine tries each start in turn. */
  function FencedFrom(s: string, i: nat): (g: Option<string>)
    decreases |s| + 1 - i
  {
    if i + 7 > |s| then None
    else if CharsAt(s, i, "```json") then
      var a := i + 7 + SpaceRun(s, i + 7);
      var e := CloseFrom(s, a);
      if e.Some? then Some(s[a..e.value]) else FencedFrom(s, i + 1)
    else FencedFrom(s, i + 1)
  }

  /** `responseText.match(/```json\s*([\s\S]*?)\s*```/)?.[1]`. */
  function FencedJson(s: string): Option<string>
  {
    FencedFrom(s, 0)
  }

  /** A block written as ```json, a line end, a body without backticks that
      starts and ends with a non-space, a line end and ``` yields that body. */
  lemma FenceRoundTrip(body: string)
    requires '`' !in body && |body| >= 1 && !IsSpace(body[0]) && !IsSpace(body[|body| - 1])
    ensures FencedJson("```json\n" + body + "\n```") == Some(body)
  {
    var s := "```json\n" + body + "\n```";
    FenceOpens(s, body);
    FenceCloses(s, body);
    assert s[8..8 + |body|] == body;
  }

  /** The opening ```json and its line end are matched at the start. */
  lemma FenceOpens(s: string, body: string)
    requires |body| >= 1 && !IsSpace(body[0])
    requires s == "```json\n" + body + "\n```"
    ensures CharsAt(s, 0, "```json") && SpaceRun(s, 7) == 1
  {
    assert s[..7] == "```json";
    assert s[7] == '\n' && !IsSpace(s[8]);
    SpaceRunIs(s, 7, 8);
  }

  /** The lazy group stops at the line end before the closing backticks. */
  lemma FenceCloses(s: string, body: string)
    requires '`' !in body && |body| >= 1 && !IsSpace(body[|body| - 1])
    requires s == "```json\n" + body + "\n```"
    ensures CloseFrom(s, 8) == Some(8 + |body|)
  {
    var n := |body|;
    assert s[8 + n] == '\n' && s[9 + n] == '`' && s[10 + n] == '`' && s[11 + n] == '`';
    SpaceRunIs(s, 8 + n, 9 + n);
    assert CloseFrom(s, 8 + n) == Some(8 + n);
    forall m | 8 <= m < 8 + n ensures s[m] != '`' {
      assert s[m] == body[m - 8];
      assert body[m - 8] in body;
    }
    assert s[8 + n - 1] == body[n - 1];
    CloseFromSkips(s, 8, 8 + n);
  }

  /** A reply without a backtick has no fenced block. */
  lemma FenceNeedsBacktick(s: string)
    requires '`' !in s
    ensures FencedJson(s) == None
  {
    NoBacktickNoFenceFrom(s, 0);
  }

  lemma {:induction false} NoBacktickNoFenceFrom(s: string, i: nat)
    requires '`' !in s
    ensures FencedFrom(s, i) == None
    decreases |s| + 1 - i
  {
    if i + 7 <= |s| {
      assert s[i..i + 7][0] == s[i] && s[i] in s && "```json"[0] == '`';
      NoBacktickNoFenceFrom(s, i + 1);
    }
  }

  /** Inside a stretch without backticks that ends with a non-space no close can
      start: the spaces from any of its positions stop at one of its characters. */
  lemma NoCloseWithin(s: string, lo: nat, hi: nat, m: nat)
    requires lo <= m < hi <= |s| && !IsSpace(s[hi - 1])
    requires forall k :: lo <= k < hi ==> s[k] != '`'
    ensures !ClosesAt(s, m)
  {
    var r := SpaceRun(s, m);
    assert m + r < hi;
  }

  /** Searching for the close from inside such a stretch finds the first close
      after it. */
  lemma {:induction false} CloseFromSkips(s: string, lo: nat, hi: nat)
    requires lo <= hi <= |s| && (lo < hi ==> !IsSpace(s[hi - 1]))
    requires forall k :: lo <= k < hi ==> s[k] != '`'
    ensures CloseFrom(s, lo) == CloseFrom(s, hi)
    decreases hi - lo
  {
    if lo < hi {
      NoCloseWithin(s, lo, hi, lo);
      CloseFromSkips(s, lo + 1, hi);
    }
  }

  /** The filter of the fast path: a non-null entry with a truthy `question`, an
      `options` array of at least two elements and a numeric `correctAnswer`
      that indexes into it. Numbers are compared as numbers, so a fractional
      index within range passes. */
  predicate IsValidEntry(q: Json)
  {
    !q.JNull?
    && TruthyMember(Member(q, "question"))
    && var o := Member(q, "options");
    && TruthyMember(o) && o.value.JArray? && |o.value.items| >= 2
    && var c := Member(q, "correctAnswer");
    && c.Some? && c.value.JNumber? && c.value.n >= 0.0 && c.value.n < |o.value.items| as real
  }

  /** `config.subject || config.type`. */
  function SubjectOrType(c: SubmittedConfig): (r: string)
    ensures c.settings.subject != "" ==> r == c.settings.subject
    ensures c.settings.subject == "" ==> r == c.settings.quizType
  {
    if c.settings.subject != "" then c.settings.subject else c.settings.quizType
  }

  /** `config?.f || fallback` for a string field of the configuration. */
  function ConfigOr(config: Option<SubmittedConfig>, field: SubmittedConfig -> string, fallback: Json): (r: Json)
    ensures config.Some? && field(config.value) != "" ==> r == JString(field(config.value))
    ensures (config.None? || field(config.value) == "") ==> r == fallback
  {
    if config.Some? && field(config.value) != "" then JString(field(config.value)) else fallback
  }

  /** The quiz built from the kept entries. Its metadata falls back from the
      decoded object to the configuration to fixed English defaults. */
  function DecodedQuiz(data: Json, valid: seq<Json>, config: Option<SubmittedConfig>): (quiz: Quiz)
    requires !data.JNull?
    ensures quiz.questions == seq(|valid|, i requires 0 <= i < |valid| => Decoded(valid[i]))
    ensures quiz.maxScore == |valid| && quiz.category == "AI Generated" && quiz.timeLimit.None?
  {
    var fallbackTitle :=
      if config.Some? then SubjectOrType(config.value) + " Quiz" else "Generated Quiz";
    var fallbackDescription :=
      if config.Some?
      then "AI-generated " + config.value.settings.difficulty + " difficulty quiz about " + SubjectOrType(config.value)
      else "AI-generated quiz based on your request";
    Quiz(
      OrJson(Member(data, "title"), JString(fallbackTitle)),
      OrJson(Member(data, "description"), JString(fallbackDescription)),
      seq(|valid|, i requires 0 <= i < |valid| => Decoded(valid[i])),
      ConfigOr(config, (c: SubmittedConfig) => c.settings.difficulty, OrJson(Member(data, "difficulty"), JString("medium"))),
      "AI Generated",
      ConfigOr(config, (c: SubmittedConfig) => c.settings.subject, OrJson(Member(data, "subject"), JString("General Knowledge"))),
      |valid|,
      None)
  }

  /** The fast path on an already decoded fenced body. `None` means that the
      line parser takes over: the body is `null` (reading its `questions`
      throws), has no non-empty `questions` array, holds a `null` entry (the
      filter throws on it), or keeps no entry. */
  function QuizFromJson(data: Json, config: Option<SubmittedConfig>): (r: Option<Quiz>)
  {
    if data.JNull? then None
    else
      var qs := Member(data, "questions");
      if !(TruthyMember(qs) && qs.value.JArray? && |qs.value.items| > 0) then None
      else if JNull in qs.value.items then None
      else
        var valid := Filter(IsValidEntry, qs.value.items);
        if |valid| == 0 then None else Some(DecodedQuiz(data, valid, config))
  }

  /** The whole fast path: find the fenced block, decode it with `decode` (the
      source's `JSON.parse`, `None` when it throws) and build the quiz. */
  function FastPath(text: string, decode: string -> Option<Json>, config: Option<SubmittedConfig>): Option<Quiz>
  {
    var body := FencedJson(text);
    if body.None? then None
    else
      var data := decode(body.value);
      if data.None? then None else QuizFromJson(data.value, config)
  }

  /** What the fast path promises: the quiz holds, in their original order,
      exactly the entries of the `questions` array that pass the filter, at
      least one of them, and scores one point per question. */
  lemma QuizFromJsonKeepsValid(data: Json, config: Option<SubmittedConfig>)
    requires QuizFromJson(data, config).Some?
    ensures var quiz := QuizFromJson(data, config).value;
      && data.JObject? && "questions" in data.fields && data.fields["questions"].JArray?
      && var items := data.fields["questions"].items;
      && |quiz.questions| == |Filter(IsValidEntry, items)| >= 1
      && (forall i :: 0 <= i < |quiz.questions| ==> quiz.questions[i] == Decoded(Filter(IsValidEntry, items)[i]))
      && (forall i :: 0 <= i < |quiz.questions| ==> IsValidEntry(quiz.questions[i].raw))
      && quiz.maxScore == |quiz.questions|
  {
  }

  /** The fast path gives up, and leaves the reply to the line parser, exactly
      when no entry survives or the block cannot be read as such an object. */
  lemma QuizFromJsonNone(data: Json, config: Option<SubmittedConfig>)
    ensures QuizFromJson(data, config).None? <==>
      data.JNull? || !data.JObject? || "questions" !in data.fields
      || !data.fields["questions"].JArray? || |data.fields["questions"].items| == 0
      || JNull in data.fields["questions"].items
      || forall x :: x in data.fields["questions"].items ==> !IsValidEntry(x)
  {
    if !data.JNull? && data.JObject? && "questions" in data.fields && data.fields["questions"].JArray? {
      var items := data.fields["questions"].items;
      if |items| > 0 && JNull !in items {
        var valid := Filter(IsValidEntry, items);
        if |valid| == 0 {
          assert forall x :: x in items ==> !IsValidEntry(x);
        } else {
          assert valid[0] in items;
        }
      }
    }
  }
}
