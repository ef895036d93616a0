// The application shell (App.jsx): which chat is current, whether the chat or
// the quiz view is shown, the quiz on screen with its stored results, and the
// results written back into the stored history when a quiz is completed.

module AppShell {
  import opened Common
  import opened QuizData
  import opened QuizRunner
  import opened Settings
  import opened ChatHistory

  /** What the main area renders. */
  datatype Screen =
    | ChatScreen
    | QuizScreen(quiz: Quiz, results: Option<QuizResults>)
    | Blank

  /** An entry that completing the quiz titled `title` updates: a quiz entry
      with that quiz title and no results yet. */
  predicate Completes(entry: ChatEntry, title: Json)
  {
    entry.kind == "quiz" && entry.quiz.Some? && entry.quiz.value.title == title && entry.results.None?
  }

  /** One entry of `handleQuizComplete`'s map. */
  function Completed(entry: ChatEntry, title: Json, results: QuizResults, now: string): ChatEntry
  {
    if Completes(entry, title) then entry.(results := Some(results), timestamp := now) else entry
  }

  /** The history written back after a quiz titled `title` is completed: the
      same entries in the same order, where only the results and timestamp of
      matching entries change, and they get exactly these. */
  function AttachResults(chats: seq<ChatEntry>, title: Json, results: QuizResults, now: string): (r: seq<ChatEntry>)
    ensures |r| == |chats|
    ensures forall i :: 0 <= i < |r| ==>
      r[i].id == chats[i].id && r[i].kind == chats[i].kind && r[i].title == chats[i].title
      && r[i].quiz == chats[i].quiz && r[i].messages == chats[i].messages
    ensures forall i :: 0 <= i < |r| && Completes(chats[i], title) ==> r[i].results == Some(results) && r[i].timestamp == now
    ensures forall i :: 0 <= i < |r| && !Completes(chats[i], title) ==> r[i] == chats[i]
  {
    seq(|chats|, i requires 0 <= i < |chats| => Completed(chats[i], title, results, now))
  }

  class App {
    var currentChatId: Option<string>
    var currentView: string
    var currentQuiz: Option<Quiz>
    var currentQuizResults: Option<QuizResults>

    /** The view is one of the two, and the quiz view always has a quiz. */
    predicate Valid()
      reads this
    {
      (currentView == "chat" || currentView == "quiz")
      && (currentView == "quiz" ==> currentQuiz.Some?)
    }

    constructor ()
      ensures Valid()
      ensures currentChatId.None? && currentView == "chat" && currentQuiz.None? && currentQuizResults.None?
    {
      currentChatId := None;
      currentView := "chat";
      currentQuiz := None;
      currentQuizResults := None;
    }

    /** The render: the chat in the chat view, the quiz with its results in
        the quiz view when there is a quiz, nothing otherwise. */
    function Shown(): (s: Screen)
      reads this
      ensures Valid() ==> !s.Blank?
      ensures s.QuizScreen? <==> currentView == "quiz" && currentQuiz.Some?
      ensures s.QuizScreen? ==> s.quiz == currentQuiz.value && s.results == currentQuizResults
    {
      if currentView == "chat" then ChatScreen
      else if currentView == "quiz" && currentQuiz.Some? then QuizScreen(currentQuiz.value, currentQuizResults)
      else Blank
    }

    /** `handleChatSelect`: the entry becomes current; a quiz entry opens its
        quiz with the results it has, any other entry the chat view. */
    method ChatSelect(chat: ChatEntry)
      modifies this
      ensures Valid()
      ensures currentChatId == Some(chat.id)
      ensures chat.kind == "quiz" && chat.quiz.Some? ==>
        currentView == "quiz" && currentQuiz == chat.quiz && currentQuizResults == chat.results
      ensures !(chat.kind == "quiz" && chat.quiz.Some?) ==>
        currentView == "chat" && currentQuiz.None? && currentQuizResults.None?
    {
      currentQuiz := None;
      currentQuizResults := None;
      currentChatId := Some(chat.id);
      if chat.kind == "quiz" && chat.quiz.Some? {
        currentView := "quiz";
        currentQuiz := chat.quiz;
        currentQuizResults := chat.results;
      } else {
        currentView := "chat";
      }
    }

    /** `handleNewChat`: no chat is current and the chat view is shown; the
        quiz is kept, hidden behind the chat view. */
    method NewChat()
      modifies this
      ensures Valid()
      ensures currentChatId.None? && currentView == "chat" && currentQuizResults.None?
      ensures currentQuiz == old(currentQuiz)
    {
      currentChatId := None;
      currentView := "chat";
      currentQuizResults := None;
    }

    /** `handleChatUpdate`: the chat just saved becomes current. */
    method ChatUpdate(chatData: ChatEntry)
      modifies this
      ensures currentChatId == Some(chatData.id)
      ensures currentView == old(currentView) && currentQuiz == old(currentQuiz)
      ensures currentQuizResults == old(currentQuizResults)
    {
      currentChatId := Some(chatData.id);
    }

    /** `handleStartQuiz`: the new quiz is shown without results. */
    method StartQuiz(quiz: Quiz)
      modifies this
      ensures Valid()
      ensures currentView == "quiz" && currentQuiz == Some(quiz) && currentQuizResults.None?
      ensures currentChatId == old(currentChatId)
    {
      currentQuiz := None;
      currentQuizResults := None;
      currentQuiz := Some(quiz);
      currentView := "quiz";
    }

    /** `handleBackToChat`: back to the chat view, the quiz closed. */
    method BackToChat()
      modifies this
      ensures Valid()
      ensures currentView == "chat" && currentQuiz.None? && currentQuizResults.None?
      ensures currentChatId == old(currentChatId)
    {
      currentView := "chat";
      currentQuiz := None;
      currentQuizResults := None;
    }

    /** `handleQuizComplete`: the stored history with the results attached to
        every entry of the quiz on screen that has none yet. The handler is
        only reachable from the quiz view, which has a quiz. */
    method QuizComplete(stored: seq<ChatEntry>, results: QuizResults, now: string) returns (updated: seq<ChatEntry>)
      requires currentQuiz.Some?
      ensures updated == AttachResults(stored, currentQuiz.value.title, results, now)
    {
      updated := AttachResults(stored, currentQuiz.value.title, results, now);
    }
  }

  /** Completing again changes nothing: every entry it would match already
      has results, so a later completion never overwrites earlier ones. */
  lemma AttachTwice(chats: seq<ChatEntry>, title: Json, first: QuizResults, second: QuizResults, now: string, later: string)
    ensures AttachResults(AttachResults(chats, title, first, now), title, second, later)
      == AttachResults(chats, title, first, now)
  {
    var once := AttachResults(chats, title, first, now);
    assert forall i :: 0 <= i < |once| ==> !Completes(once[i], title);
  }

  /** A quiz saved by the chat and then completed has its entry, at the front
      of the history, carry the results. Older entries of a quiz with the
      same title and no results receive them too. */
  lemma SavedQuizCompleted(existing: seq<ChatEntry>, id: string, quiz: Quiz, s: QuizSettings, saved: string,
                           results: QuizResults, now: string)
    ensures var r := AttachResults(SaveQuiz(existing, QuizEntry(id, quiz, s, saved)), quiz.title, results, now);
      && r[0].id == id && r[0].results == Some(results) && r[0].timestamp == now
      && (forall i :: 0 <= i < |existing| && Completes(existing[i], quiz.title) ==> r[i + 1].results == Some(results))
  {
    var h := SaveQuiz(existing, QuizEntry(id, quiz, s, saved));
    assert forall i :: 0 <= i < |existing| ==> h[i + 1] == existing[i];
  }
}
