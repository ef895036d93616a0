// The conversation history kept in storage under `cubic_chats` (and the legacy
// `pquiz_chats`): `saveChatToHistory` and the quiz entry that
// `handleQuizConfigSubmit` adds (ChatInterface.jsx). Storage is the list read
// before and written after each operation.

module ChatHistory {
  import opened Common
  import opened Text
  import opened QuizData
  import opened Settings
  import opened QuizRunner

  datatype Message = Message(text: string, role: string)

  /** One history entry. `kind` is the `type` field ('chat' or 'quiz'); chats
      carry messages, quizzes the quiz and, once taken, its results. */
  datatype ChatEntry = ChatEntry(
    id: string,
    title: string,
    kind: string,
    timestamp: string,
    messages: seq<Message>,
    quiz: Option<Quiz>,
    results: Option<QuizResults>)

  const HistoryCap: nat := 50

  /** `chats.findIndex(chat => chat.id === id)`. */
  function FindIndex(chats: seq<ChatEntry>, id: string): (r: int)
    ensures -1 <= r < |chats|
    ensures r >= 0 ==> chats[r].id == id
    ensures forall k :: 0 <= k < |chats| && (r == -1 || k < r) ==> chats[k].id != id
  {
    if chats == [] then -1
    else if chats[0].id == id then 0
    else
      var r := FindIndex(chats[1..], id);
      if r == -1 then -1 else r + 1
  }

  /** The first entry with the entry's id overwritten in place, or the entry
      put in front when there is none. */
  function Upserted(chats: seq<ChatEntry>, entry: ChatEntry): seq<ChatEntry>
  {
    var i := FindIndex(chats, entry.id);
    if i >= 0 then chats[i := entry] else [entry] + chats
  }

  /** `chats.slice(0, 50)`. */
  function Capped(chats: seq<ChatEntry>): (r: seq<ChatEntry>)
    ensures |r| <= HistoryCap
  {
    chats[..Min(HistoryCap, |chats|)]
  }

  /** `saveChatToHistory`: the chat's entry, and the history written back.
      `now` is the timestamp the entry gets. A known id keeps the length and
      changes only the first entry with that id; a new id is put in front of
      all the others; at most 50 entries are kept. */
  method SaveChatToHistory(existing: seq<ChatEntry>, chatId: string, title: string, messages: seq<Message>, now: string)
    returns (stored: seq<ChatEntry>, chatData: ChatEntry)
    ensures chatData == ChatEntry(chatId, title, "chat", now, messages, None, None)
    ensures stored == Capped(Upserted(existing, chatData))
    ensures var i := FindIndex(existing, chatId);
      && |stored| == Min(HistoryCap, if i >= 0 then |existing| else |existing| + 1)
      && (i == -1 ==> stored == ([chatData] + existing)[..|stored|])
      && (i >= 0 ==> forall k :: 0 <= k < |stored| ==> stored[k] == if k == i then chatData else existing[k])
  {
    chatData := ChatEntry(chatId, title, "chat", now, messages, None, None);
    var chats := existing;
    var chatIndex := FindIndex(chats, chatId);
    if chatIndex >= 0 {
      chats := chats[chatIndex := chatData];
    } else {
      chats := [chatData] + chats;
    }
    stored := chats[..Min(HistoryCap, |chats|)];
  }

  /** A saved chat is in the written history unless it was updated at a place
      the cap cuts off; then no entry with its id is kept at all. */
  lemma SavedChatKept(existing: seq<ChatEntry>, entry: ChatEntry)
    ensures FindIndex(existing, entry.id) < HistoryCap ==> entry in Capped(Upserted(existing, entry))
    ensures FindIndex(existing, entry.id) >= HistoryCap ==>
      forall k :: 0 <= k < |Capped(Upserted(existing, entry))| ==> Capped(Upserted(existing, entry))[k].id != entry.id
  {
    var stored := Capped(Upserted(existing, entry));
    var i := FindIndex(existing, entry.id);
    if i == -1 {
      assert stored[0] == entry;
    } else if i < HistoryCap {
      assert stored[i] == entry;
    } else {
      forall k | 0 <= k < |stored| ensures stored[k].id != entry.id {
        assert stored[k] == existing[k];
      }
    }
  }

  /** The sidebar title of a generated quiz: its own title when that is a
      non-empty string, else the subject, else the quiz type. */
  function QuizEntryTitle(quiz: Quiz, s: QuizSettings): string
  {
    "Quiz: " + (if quiz.title.JString? && quiz.title.s != "" then quiz.title.s
                else if s.subject != "" then s.subject
                else s.quizType)
  }

  /** The entry saved for a generated quiz, without results yet. */
  function QuizEntry(id: string, quiz: Quiz, s: QuizSettings, now: string): ChatEntry
  {
    ChatEntry(id, QuizEntryTitle(quiz, s), "quiz", now, [], Some(quiz), None)
  }

  /** Saving a generated quiz puts it in front and, unlike saving a chat, keeps
      every older entry: the history can grow past 50 this way. */
  function SaveQuiz(existing: seq<ChatEntry>, entry: ChatEntry): seq<ChatEntry>
  {
    [entry] + existing
  }

  /** Consequence of the two save paths together: with 50 entries stored, a
      generated quiz pushes the last chat to place 50, and saving that chat
      again then drops it from the history. */
  lemma QuizSavePushesChatOut(existing: seq<ChatEntry>, quizEntry: ChatEntry, chat: ChatEntry)
    requires |existing| == HistoryCap && FindIndex(existing, chat.id) == HistoryCap - 1
    requires quizEntry.id != chat.id
    ensures |SaveQuiz(existing, quizEntry)| == HistoryCap + 1
    ensures var after := Capped(Upserted(SaveQuiz(existing, quizEntry), chat));
      forall k :: 0 <= k < |after| ==> after[k].id != chat.id
  {
    var saved := SaveQuiz(existing, quizEntry);
    assert saved[1..] == existing;
    assert FindIndex(saved, chat.id) == HistoryCap;
    SavedChatKept(saved, chat);
  }
}
