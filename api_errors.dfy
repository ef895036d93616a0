// How a failed request to the model becomes the message the chat shows:
// `callDeepSeekAPI` turns an HTTP status into an error message, and the
// `catch` of `handleQuizConfigSubmit` (ChatInterface.jsx) picks the notice
// shown for it by looking for known phrases in that message.

module ApiErrors {
  import opened Common
  import opened Text

  const KeyPhrase: string := "API key not configured"
  const AuthPhrase: string := "Authentication failed"
  const RatePhrase: string := "Rate limit exceeded"

  /** The error thrown when no usable key is configured. */
  const MissingKeyMessage: string := KeyPhrase + ". Please add your DeepSeek API key to the .env file."
  const AuthMessage: string := AuthPhrase + ". Please check your API key in the .env file."
  const RateMessage: string := RatePhrase + ". Please try again later."
  const ServerMessage: string := "Server error. Please try again later."
  const InvalidResponseMessage: string := "Invalid response from API"
  const FallbackNotice: string := "Sorry, I encountered an error while generating your quiz. Please try again."

  /** The message of the error thrown for a response that is not ok. `detail`
      is `errorData.error?.message` (`None` when the body has none). */
  function StatusMessage(status: int, detail: Option<string>): (m: string)
    ensures m != ""
  {
    if status == 401 then AuthMessage
    else if status == 429 then RateMessage
    else if status >= 500 then ServerMessage
    else "API error: " + IntToString(status) + " - " + (if detail.Some? && detail.value != "" then detail.value else "Unknown error")
  }

  /** The notice the chat shows for an error message. */
  datatype Notice = KeyNotice | AuthNotice | RateNotice | Shown(text: string)

  /** The `catch` block: the known phrases are looked for in this order; any
      other message is shown as it is, an empty one as the fallback text. */
  function NoticeFor(message: string): (n: Notice)
  {
    if Contains(message, KeyPhrase) then KeyNotice
    else if Contains(message, AuthPhrase) then AuthNotice
    else if Contains(message, RatePhrase) then RateNotice
    else Shown(if message != "" then message else FallbackNotice)
  }

  /** The texts of the three special notices. */
  function NoticeText(n: Notice): string
  {
    match n
    case KeyNotice => "\U{1F511} API key not configured. Please add your DeepSeek API key to the .env file and restart the server."
    case AuthNotice => "\U{1F510} Authentication failed. Please check your API key in the .env file."
    case RateNotice => "⏱️ Rate limit exceeded. Please wait a moment and try again."
    case Shown(text) => text
  }

  /** A phrase one of whose characters is missing from `s` does not occur in it. */
  lemma MissingCharNotContained(s: string, k: string, i: nat)
    requires i < |k| && k[i] !in s
    ensures !Contains(s, k)
  {
    forall p | 0 <= p <= |s| ensures !CharsAt(s, p, k) {
      if p + |k| <= |s| {
        assert s[p..p + |k|][i] == s[p + i];
      }
    }
  }

  /** A message that starts with a phrase contains it. */
  lemma PrefixContained(phrase: string, rest: string)
    ensures Contains(phrase + rest, phrase)
  {
    assert (phrase + rest)[0..|phrase|] == phrase;
    assert CharsAt(phrase + rest, 0, phrase);
  }

  /** A missing key is reported as such. */
  lemma MissingKeyNotice()
    ensures NoticeFor(MissingKeyMessage) == KeyNotice
  {
    PrefixContained(KeyPhrase, ". Please add your DeepSeek API key to the .env file.");
  }

  /** A 401 is reported as an authentication failure: its message does not
      contain the missing-key phrase, which has a `g`. */
  lemma UnauthorizedNotice(detail: Option<string>)
    ensures NoticeFor(StatusMessage(401, detail)) == AuthNotice
  {
    var m := StatusMessage(401, detail);
    assert m == AuthMessage;
    assert KeyPhrase[17] == 'g';
    assert 'g' !in AuthPhrase && 'g' !in ". Please check your API key in the .env file.";
    MissingCharNotContained(AuthMessage, KeyPhrase, 17);
    PrefixContained(AuthPhrase, ". Please check your API key in the .env file.");
  }

  /** A 429 is reported as a rate limit: its message has no `f`, which both
      earlier phrases have. */
  lemma RateLimitedNotice(detail: Option<string>)
    ensures NoticeFor(StatusMessage(429, detail)) == RateNotice
  {
    assert KeyPhrase[15] == 'f' && AuthPhrase[15] == 'f';
    assert 'f' !in RatePhrase && 'f' !in ". Please try again later.";
    MissingCharNotContained(RateMessage, KeyPhrase, 15);
    MissingCharNotContained(RateMessage, AuthPhrase, 15);
    PrefixContained(RatePhrase, ". Please try again later.");
  }

  /** A server error is shown with its own message: it has no `A`, `f` or
      `R` and so none of the phrases. */
  lemma ServerErrorNotice(status: int, detail: Option<string>)
    requires status >= 500
    ensures NoticeFor(StatusMessage(status, detail)) == Shown(ServerMessage)
  {
    var m := StatusMessage(status, detail);
    assert m == ServerMessage;
    ServerMessagePlain();
  }

  lemma ServerMessagePlain()
    ensures !Contains(ServerMessage, KeyPhrase) && !Contains(ServerMessage, AuthPhrase)
    ensures !Contains(ServerMessage, RatePhrase)
  {
    assert 'A' !in ServerMessage && 'R' !in ServerMessage;
    assert KeyPhrase[0] == 'A' && AuthPhrase[0] == 'A' && RatePhrase[0] == 'R';
    MissingCharNotContained(ServerMessage, KeyPhrase, 0);
    MissingCharNotContained(ServerMessage, AuthPhrase, 0);
    MissingCharNotContained(ServerMessage, RatePhrase, 0);
  }

  /** The text for a body without a message holds none of the phrases (it has
      no `t`), so it is shown as it is. */
  lemma InvalidResponseNotice()
    ensures NoticeFor(InvalidResponseMessage) == Shown(InvalidResponseMessage)
  {
    assert KeyPhrase[10] == 't' && AuthPhrase[2] == 't' && RatePhrase[2] == 't';
    assert 't' !in InvalidResponseMessage;
    MissingCharNotContained(InvalidResponseMessage, KeyPhrase, 10);
    MissingCharNotContained(InvalidResponseMessage, AuthPhrase, 2);
    MissingCharNotContained(InvalidResponseMessage, RatePhrase, 2);
  }
}
