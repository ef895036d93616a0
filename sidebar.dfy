// The sidebar (Sidebar.jsx): the history it lists, the search and section
// filter, the quiz count, deleting an entry and the date label of an entry.

module SidebarView {
  import opened Common
  import opened Text
  import opened ChatHistory

  /** `chat.title.toLowerCase().includes(searchTerm.toLowerCase())`. */
  predicate MatchesSearch(chat: ChatEntry, searchTerm: string)
  {
    Contains(Lower(chat.title), Lower(searchTerm))
  }

  /** Whether the filter keeps an entry: the search must match, and in the
      quizzes section the title must also mention "quiz"; any other section
      behaves like 'all'. */
  predicate Shows(chat: ChatEntry, searchTerm: string, section: string)
  {
    MatchesSearch(chat, searchTerm) && (section == "quizzes" ==> Contains(Lower(chat.title), "quiz"))
  }

  /** `filteredChats`: the entries the list shows, in history order. */
  function Visible(chats: seq<ChatEntry>, searchTerm: string, section: string): (r: seq<ChatEntry>)
    ensures |r| <= |chats|
    ensures forall i :: 0 <= i < |r| ==> Shows(r[i], searchTerm, section)
    ensures forall c :: c in r <==> c in chats && Shows(c, searchTerm, section)
  {
    Filter((c: ChatEntry) => Shows(c, searchTerm, section), chats)
  }

  /** Every string contains the empty one. */
  lemma ContainsEmpty(s: string)
    ensures Contains(s, "")
  {
    assert CharsAt(s, 0, "");
  }

  /** With no search term, the 'all' section lists the whole history. */
  lemma EmptySearchListsAll(chats: seq<ChatEntry>)
    ensures Visible(chats, "", "all") == chats
  {
    assert Lower("") == "";
    forall i | 0 <= i < |chats|
      ensures Shows(chats[i], "", "all")
    {
      ContainsEmpty(Lower(chats[i].title));
    }
    FilterAllOrNone((c: ChatEntry) => Shows(c, "", "all"), chats);
  }

  /** The quizzes section lists part of what the 'all' section lists, and an
      unknown section lists the same as 'all'. */
  lemma {:induction false} QuizzesWithinAll(chats: seq<ChatEntry>, searchTerm: string, other: string)
    requires other != "quizzes"
    ensures forall c :: c in Visible(chats, searchTerm, "quizzes") ==> c in Visible(chats, searchTerm, "all")
    ensures Visible(chats, searchTerm, other) == Visible(chats, searchTerm, "all")
  {
    if chats != [] {
      QuizzesWithinAll(chats[1..], searchTerm, other);
    }
  }

  /** The badge of the quizzes section: the entries of type 'quiz'. */
  function QuizCount(chats: seq<ChatEntry>): (n: nat)
    ensures n <= |chats|
    ensures n == 0 <==> forall i :: 0 <= i < |chats| ==> chats[i].kind != "quiz"
  {
    if chats == [] then 0
    else (if chats[0].kind == "quiz" then 1 else 0) + QuizCount(chats[1..])
  }

  /** The history without the entries of one id. */
  function Without(chats: seq<ChatEntry>, id: string): (r: seq<ChatEntry>)
    ensures |r| <= |chats|
    ensures forall i :: 0 <= i < |r| ==> r[i].id != id
    ensures forall c :: c in r <==> c in chats && c.id != id
  {
    Filter((c: ChatEntry) => c.id != id, chats)
  }

  /** Deleting an id that is not in the history changes nothing. */
  lemma WithoutAbsent(chats: seq<ChatEntry>, id: string)
    requires forall i :: 0 <= i < |chats| ==> chats[i].id != id
    ensures Without(chats, id) == chats
  {
    FilterAllOrNone((c: ChatEntry) => c.id != id, chats);
  }

  /** Deleting never adds quizzes to the count, and removes exactly the
      quizzes of the deleted id. */
  lemma {:induction false} WithoutQuizCount(chats: seq<ChatEntry>, id: string)
    ensures QuizCount(Without(chats, id)) + QuizCount(OfId(chats, id)) == QuizCount(chats)
  {
    if chats != [] {
      WithoutQuizCount(chats[1..], id);
      if chats[0].id != id {
        assert Without(chats, id)[1..] == Without(chats[1..], id);
      } else {
        assert OfId(chats, id)[1..] == OfId(chats[1..], id);
      }
    }
  }

  /** The entries of one id. */
  function OfId(chats: seq<ChatEntry>, id: string): seq<ChatEntry>
  {
    Filter((c: ChatEntry) => c.id == id, chats)
  }

  /** How an entry's date is written: its time within a day, its weekday
      within a week, its month and day otherwise; an entry without a
      timestamp is "just now". */
  datatype DateLabel = JustNow | TimeOfDay | Weekday | MonthDay

  const MillisPerHour: int := 1000 * 60 * 60

  /** `formatDate`: `elapsed` is `now - date` in milliseconds, `None` when
      the timestamp is not a date (the difference is then NaN, every
      comparison fails and the last branch is taken). */
  function DateLabelFor(timestamp: string, elapsed: Option<int>): (l: DateLabel)
    ensures l == JustNow <==> timestamp == ""
    ensures timestamp != "" && elapsed.Some? && elapsed.value < 24 * MillisPerHour ==> l == TimeOfDay
    ensures timestamp != "" && elapsed.None? ==> l == MonthDay
  {
    if timestamp == "" then JustNow
    else if elapsed.Some? && elapsed.value < 24 * MillisPerHour then TimeOfDay
    else if elapsed.Some? && elapsed.value < 168 * MillisPerHour then Weekday
    else MonthDay
  }

  function Coarseness(l: DateLabel): nat
  {
    match l
    case JustNow => 0
    case TimeOfDay => 1
    case Weekday => 2
    case MonthDay => 3
  }

  /** An older entry is never written more finely than a newer one. */
  lemma OlderIsCoarser(timestamp: string, newer: int, older: int)
    requires timestamp != "" && newer <= older
    ensures Coarseness(DateLabelFor(timestamp, Some(newer))) <= Coarseness(DateLabelFor(timestamp, Some(older)))
    ensures Coarseness(DateLabelFor(timestamp, Some(newer))) >= 1
  {
  }

  class Sidebar {
    var searchTerm: string
    var activeSection: string
    var chatHistory: seq<ChatEntry>

    constructor ()
      ensures searchTerm == "" && activeSection == "all" && chatHistory == []
    {
      searchTerm := "";
      activeSection := "all";
      chatHistory := [];
    }

    /** `loadChatHistory`: the stored list. Every timestamp the application
        writes is an ISO date string, so the comparator's difference of two
        of them is NaN, which the sort reads as "equal"; being stable, the
        sort keeps the stored order. */
    method LoadChatHistory(stored: seq<ChatEntry>)
      modifies this
      ensures chatHistory == stored
      ensures searchTerm == old(searchTerm) && activeSection == old(activeSection)
    {
      chatHistory := stored;
    }

    function FilteredChats(): (r: seq<ChatEntry>)
      reads this
      ensures forall c :: c in r <==> c in chatHistory && Shows(c, searchTerm, activeSection)
    {
      Visible(chatHistory, searchTerm, activeSection)
    }

    method SetSearchTerm(term: string)
      modifies this
      ensures searchTerm == term
      ensures activeSection == old(activeSection) && chatHistory == old(chatHistory)
    {
      searchTerm := term;
    }

    method SetActiveSection(section: string)
      modifies this
      ensures activeSection == section
      ensures searchTerm == old(searchTerm) && chatHistory == old(chatHistory)
    {
      activeSection := section;
    }

    /** `handleDeleteChat`: every entry of the id leaves the list, which is
        also what is stored; the application is sent to a new chat exactly
        when the deleted entry was the current one. */
    method DeleteChat(chatId: string, currentChatId: Option<string>) returns (stored: seq<ChatEntry>, redirect: bool)
      modifies this
      ensures chatHistory == Without(old(chatHistory), chatId) && stored == chatHistory
      ensures redirect <==> currentChatId == Some(chatId)
      ensures searchTerm == old(searchTerm) && activeSection == old(activeSection)
    {
      chatHistory := Without(chatHistory, chatId);
      stored := chatHistory;
      redirect := currentChatId == Some(chatId);
    }
  }
}
