/**
 * The chat sidebar: which title each session shows and which session is
 * highlighted.
 */
module ChatHistory {
  import opened Wrappers
  import opened I18n

  const NewChatKey := "chat.sidebar.newChat"
  const HistoryKey := "chat.sidebar.history"

  datatype Role = User | Assistant

  /** One chat message; dates are opaque timestamps and the optional metrics are kept as given. */
  datatype ChatMessage = ChatMessage(
    id: string, role: Role, content: string, timestamp: int,
    confidence: Option<real>, sourcesUsed: Option<int>, rephrasedQuery: Option<string>)

  datatype ChatSession = ChatSession(id: string, title: string, messages: seq<ChatMessage>, createdAt: int, updatedAt: int)

  /** Titles that stand for "no title yet": the empty one and the default titles in both locales. */
  predicate IsPlaceholderTitle(title: string)
  {
    title == "" || title == "New Chat" || title == "Новый чат"
  }

  /** The title a session entry shows. */
  function DisplayTitle(title: string): (shown: Text)
    ensures IsPlaceholderTitle(title) <==> shown == Translated(NewChatKey)
    ensures !IsPlaceholderTitle(title) ==> shown == Literal(title)
  {
    if title != "" && title != "New Chat" && title != "Новый чат" then Literal(title) else Translated(NewChatKey)
  }

  /** A session is highlighted when it is the current one. */
  predicate IsHighlighted(current: Option<string>, session: ChatSession)
  {
    current == Some(session.id)
  }

  datatype Entry = Entry(sessionId: string, title: Text, highlighted: bool, messageCount: nat)

  datatype Sidebar = Placeholder(text: Text) | Entries(entries: seq<Entry>)

  /** The session list as rendered. */
  function SessionList(sessions: seq<ChatSession>, current: Option<string>): (view: Sidebar)
    ensures sessions == [] <==> view == Placeholder(Translated(HistoryKey))
    ensures view.Entries? ==> |view.entries| == |sessions|
    ensures view.Entries? ==> forall i :: 0 <= i < |sessions| ==>
      view.entries[i] == Entry(sessions[i].id, DisplayTitle(sessions[i].title),
                               IsHighlighted(current, sessions[i]), |sessions[i].messages|)
  {
    if sessions == [] then Placeholder(Translated(HistoryKey))
    else Entries(seq(|sessions|, i requires 0 <= i < |sessions| =>
      Entry(sessions[i].id, DisplayTitle(sessions[i].title), IsHighlighted(current, sessions[i]), |sessions[i].messages|)))
  }

  predicate UniqueIds(sessions: seq<ChatSession>)
  {
    forall i, j :: 0 <= i < j < |sessions| ==> sessions[i].id != sessions[j].id
  }

  /** With distinct ids at most one entry is highlighted, and none without a current session. */
  lemma AtMostOneHighlighted(sessions: seq<ChatSession>, current: Option<string>)
    requires UniqueIds(sessions)
    ensures SessionList(sessions, current).Entries? ==>
      var es := SessionList(sessions, current).entries;
      forall i, j :: 0 <= i < |es| && 0 <= j < |es| && es[i].highlighted && es[j].highlighted ==> i == j
    ensures SessionList(sessions, None).Entries? ==>
      forall e :: e in SessionList(sessions, None).entries ==> !e.highlighted
  {
  }

  /** The current session, when it is listed, is the one highlighted entry. */
  lemma CurrentIsHighlighted(sessions: seq<ChatSession>, k: int)
    requires 0 <= k < |sessions|
    ensures SessionList(sessions, Some(sessions[k].id)).entries[k].highlighted
  {
  }
}
