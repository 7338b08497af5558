/**
 * The conversation store of the chatbot: sessions holding an append-only
 * list of messages and a question counter, a manager holding the sessions
 * by id in insertion order, and a chatbot holding a pointer to the current
 * session. Timestamps are an opaque clock value and are not modelled.
 */
module Chat {
  import opened Wrappers
  import opened Text

  datatype Role = User | Assistant | System

  /** A source citation as the API layer attaches it to an answer. */
  datatype Source = Source(
    id: int, filename: string, filepath: string, chunkIndex: int,
    caseName: string, relevance: real, location: string)

  datatype Message = Message(role: Role, content: string, sources: seq<Source>)

  /** A role/content pair handed to the language model. */
  datatype Turn = Turn(role: Role, content: string)

  /** One entry of the conversation history; `sources` is absent when they were not asked for. */
  datatype HistoryEntry = HistoryEntry(role: Role, content: string, sources: Option<seq<Source>>)

  datatype SessionSummary = SessionSummary(sessionId: string, title: string, messageCount: nat, questionCount: nat)

  datatype QaPair = QaPair(question: string, answer: string, sources: seq<Source>, confidence: real)

  const DefaultTitle := "New Chat"
  const DefaultMaxContextMessages := 10
  const SourcesHeader := "\n\n**Sources:**\n"

  // ---------------------------------------------------------------------------
  // Functions over message lists

  /** How many of the messages are from the user. */
  function UserCount(msgs: seq<Message>): nat {
    if msgs == [] then 0
    else UserCount(msgs[..|msgs| - 1]) + if msgs[|msgs| - 1].role == User then 1 else 0
  }

  lemma UserCountSnoc(msgs: seq<Message>, m: Message)
    ensures UserCount(msgs + [m]) == UserCount(msgs) + if m.role == User then 1 else 0
  {
    assert (msgs + [m])[..|msgs|] == msgs;
  }

  function Entry(m: Message, includeSources: bool): HistoryEntry {
    HistoryEntry(m.role, m.content, if includeSources then Some(m.sources) else None)
  }

  function Turns(msgs: seq<Message>): (r: seq<Turn>)
    ensures |r| == |msgs|
  {
    seq(|msgs|, i requires 0 <= i < |msgs| => Turn(msgs[i].role, msgs[i].content))
  }

  /** Python's `s[k:]`, negative `k` counting from the end. */
  function SliceFrom<T>(s: seq<T>, k: int): seq<T> {
    if k < 0 then (if |s| + k <= 0 then s else s[|s| + k..])
    else if k <= |s| then s[k..] else []
  }

  /** `messages[-n:] if len(messages) > n else messages`. */
  function Recent(msgs: seq<Message>, n: int): seq<Message> {
    if |msgs| > n then SliceFrom(msgs, -n) else msgs
  }

  /**
   * For `n >= 1` the recent messages are the last `min(n, |msgs|)`, in order.
   * For `n == 0` the slice `[-0:]` is the whole list, and a negative `n` drops
   * the first `-n` messages.
   */
  lemma RecentIsLast(msgs: seq<Message>, n: int)
    ensures n >= 1 ==> Recent(msgs, n) == msgs[|msgs| - if n < |msgs| then n else |msgs|..]
    ensures n >= 1 ==> |Recent(msgs, n)| == if n < |msgs| then n else |msgs|
    ensures n == 0 ==> Recent(msgs, n) == msgs
    ensures n < 0 ==> Recent(msgs, n) == if -n <= |msgs| then msgs[-n..] else []
  {
  }

  /** The content of the most recent user message. */
  function LastUserContent(msgs: seq<Message>): Option<string> {
    if msgs == [] then None
    else if msgs[|msgs| - 1].role == User then Some(msgs[|msgs| - 1].content)
    else LastUserContent(msgs[..|msgs| - 1])
  }

  /** `None` exactly when no message is from the user; otherwise the content of the user message that no later user message follows. */
  lemma {:induction false} LastUserContentIsLatest(msgs: seq<Message>)
    ensures LastUserContent(msgs).None? <==> forall i :: 0 <= i < |msgs| ==> msgs[i].role != User
    ensures LastUserContent(msgs).Some? ==>
      exists i :: 0 <= i < |msgs| && msgs[i].role == User && msgs[i].content == LastUserContent(msgs).value
        && forall j :: i < j < |msgs| ==> msgs[j].role != User
  {
    if msgs != [] && msgs[|msgs| - 1].role != User {
      var init := msgs[..|msgs| - 1];
      LastUserContentIsLatest(init);
      assert forall i :: 0 <= i < |init| ==> init[i] == msgs[i];
      if LastUserContent(init).Some? {
        var i :| 0 <= i < |init| && init[i].role == User && init[i].content == LastUserContent(init).value
          && forall j :: i < j < |init| ==> init[j].role != User;
        assert msgs[i].role == User;
      }
    }
  }

  /** A user message at `i` immediately followed by an assistant message. */
  predicate IsQaAt(msgs: seq<Message>, i: nat) {
    i + 1 < |msgs| && msgs[i].role == User && msgs[i + 1].role == Assistant
  }

  function PairAt(msgs: seq<Message>, i: nat): QaPair
    requires i + 1 < |msgs|
  {
    QaPair(msgs[i].content, msgs[i + 1].content, msgs[i + 1].sources, 0.0)
  }

  /** The question/answer pairs starting before position `k`, in order. */
  function QaPairsUpTo(msgs: seq<Message>, k: nat): seq<QaPair>
    requires k <= |msgs|
  {
    if k == 0 then []
    else QaPairsUpTo(msgs, k - 1) + if IsQaAt(msgs, k - 1) then [PairAt(msgs, k - 1)] else []
  }

  function QaPairs(msgs: seq<Message>): seq<QaPair> {
    QaPairsUpTo(msgs, |msgs|)
  }

  /** A pair is exported exactly for a user message immediately followed by an assistant message. */
  lemma {:induction false} QaPairsUpToMembers(msgs: seq<Message>, k: nat)
    requires k <= |msgs|
    ensures forall p :: p in QaPairsUpTo(msgs, k) <==> exists i :: 0 <= i < k && IsQaAt(msgs, i) && p == PairAt(msgs, i)
  {
    if k > 0 {
      QaPairsUpToMembers(msgs, k - 1);
    }
  }

  /** Pairs cannot overlap, so at most half the messages make pairs. */
  lemma {:induction false} QaPairsUpToCount(msgs: seq<Message>, k: nat)
    requires k <= |msgs|
    ensures 2 * |QaPairsUpTo(msgs, k)| <= k + if k > 0 && IsQaAt(msgs, k - 1) then 1 else 0
  {
    if k > 0 {
      QaPairsUpToCount(msgs, k - 1);
    }
  }

  /**
   * The exported pairs are exactly the user messages immediately followed by
   * an assistant message, with the assistant's sources and confidence 0, and
   * there are at most half as many as messages.
   */
  lemma QaPairsAreAdjacent(msgs: seq<Message>)
    ensures forall p :: p in QaPairs(msgs) <==> exists i :: IsQaAt(msgs, i) && p == PairAt(msgs, i)
    ensures 2 * |QaPairs(msgs)| <= |msgs|
  {
    QaPairsUpToMembers(msgs, |msgs|);
    QaPairsUpToCount(msgs, |msgs|);
  }

  /** The citation line `- [id] location (case name)` of one source. */
  function CitationLine(s: Source): string {
    "- [" + IntToString(s.id) + "] " + s.location + (if s.caseName != "" then " (" + s.caseName + ")" else "") + "\n"
  }

  function CitationLines(sources: seq<Source>): (r: seq<string>)
    ensures |r| == |sources|
    ensures forall i :: 0 <= i < |sources| ==> r[i] == CitationLine(sources[i])
  {
    seq(|sources|, i requires 0 <= i < |sources| => CitationLine(sources[i]))
  }

  /** The loop of `format_response_with_sources` that renders the sources. */
  method CitationBlock(sources: seq<Source>) returns (citations: string)
    ensures citations == SourcesHeader + Concat(CitationLines(sources))
  {
    ghost var lines := CitationLines(sources);
    citations := SourcesHeader;
    for i := 0 to |sources|
      invariant citations == SourcesHeader + Concat(lines[..i])
    {
      var line := CitationLine(sources[i]);
      ConcatSnoc(lines, i);
      AppendAssoc(SourcesHeader, Concat(lines[..i]), line);
      citations := citations + line;
    }
    assert lines[..|sources|] == lines;
  }

  function FormattedResponse(enabled: bool, response: string, sources: seq<Source>): string {
    if !enabled || sources == [] then response
    else response + SourcesHeader + Concat(CitationLines(sources))
  }

  /**
   * The response is kept as it is, exactly when citations are disabled or
   * there are no sources; otherwise the sources header and one line per
   * source follow it.
   */
  lemma FormattedResponseKeeps(enabled: bool, response: string, sources: seq<Source>)
    ensures FormattedResponse(enabled, response, sources) == response <==> !enabled || sources == []
    ensures FormattedResponse(enabled, response, sources)[..|response|] == response
  {
    if enabled && sources != [] {
      assert |FormattedResponse(enabled, response, sources)| > |response|;
    }
  }

  /** Dropping the first occurrence of `k` from a list without repeats. */
  function Without(order: seq<string>, k: string): (r: seq<string>)
    ensures forall x :: x in r <==> x in order && x != k
  {
    if order == [] then []
    else if order[0] == k then Without(order[1..], k)
    else [order[0]] + Without(order[1..], k)
  }

  lemma {:induction false} WithoutKeepsDistinct(order: seq<string>, k: string)
    requires NoDuplicates(order)
    ensures NoDuplicates(Without(order, k))
  {
    if order != [] {
      var tail := order[1..];
      assert forall i :: 0 <= i < |tail| ==> tail[i] == order[i + 1];
      WithoutKeepsDistinct(tail, k);
      var w := Without(tail, k);
      assert order[0] !in w;
      if order[0] != k {
        var r := [order[0]] + w;
        assert forall j :: 0 < j < |r| ==> r[j] == w[j - 1];
      }
    }
  }

  // ---------------------------------------------------------------------------
  // Sessions

  class ChatSession {
    const sessionId: string
    var title: string
    var messages: seq<Message>
    var questionCount: nat
    var documentCount: nat

    /** The question counter counts the user messages. */
    predicate Valid()
      reads this
    {
      questionCount == UserCount(messages)
    }

    function Summary(): SessionSummary
      reads this
    {
      SessionSummary(sessionId, title, |messages|, questionCount)
    }

    constructor (sessionId: string, title: string)
      ensures this.sessionId == sessionId && this.title == title
      ensures messages == [] && questionCount == 0 && documentCount == 0
      ensures Valid()
    {
      this.sessionId := sessionId;
      this.title := title;
      messages := [];
      questionCount := 0;
      documentCount := 0;
    }

    /** `add_message`: append, and count it when it is a question. */
    method AddMessage(m: Message)
      modifies this
      ensures messages == old(messages) + [m]
      ensures questionCount == old(questionCount) + if m.role == User then 1 else 0
      ensures title == old(title) && documentCount == old(documentCount)
      ensures old(Valid()) ==> Valid()
    {
      UserCountSnoc(messages, m);
      messages := messages + [m];
      if m.role == User {
        questionCount := questionCount + 1;
      }
    }

    method AddUserMessage(content: string) returns (m: Message)
      modifies this
      ensures m == Message(User, content, [])
      ensures messages == old(messages) + [m]
      ensures questionCount == old(questionCount) + 1
      ensures title == old(title) && documentCount == old(documentCount)
      ensures old(Valid()) ==> Valid()
    {
      m := Message(User, content, []);
      AddMessage(m);
    }

    /** An assistant message keeps the given sources, or none when `None` is passed. */
    method AddAssistantMessage(content: string, sources: Option<seq<Source>>) returns (m: Message)
      modifies this
      ensures m == Message(Assistant, content, sources.GetOr([]))
      ensures messages == old(messages) + [m]
      ensures questionCount == old(questionCount)
      ensures title == old(title) && documentCount == old(documentCount)
      ensures old(Valid()) ==> Valid()
    {
      m := Message(Assistant, content, sources.GetOr([]));
      AddMessage(m);
    }

    /** `get_conversation_history`: one entry per message, in order, sources only when asked for. */
    method GetConversationHistory(includeSources: bool) returns (history: seq<HistoryEntry>)
      ensures |history| == |messages|
      ensures forall i :: 0 <= i < |messages| ==>
        history[i].role == messages[i].role && history[i].content == messages[i].content
        && history[i].sources == if includeSources then Some(messages[i].sources) else None
    {
      history := [];
      for i := 0 to |messages|
        invariant |history| == i
        invariant forall k :: 0 <= k < i ==> history[k] == Entry(messages[k], includeSources)
      {
        history := history + [Entry(messages[i], includeSources)];
      }
    }

    /** `get_last_user_message`: the scan from the newest message back. */
    method GetLastUserMessage() returns (r: Option<string>)
      ensures r == LastUserContent(messages)
    {
      var i := |messages|;
      assert messages[..i] == messages;
      while i > 0
        invariant 0 <= i <= |messages|
        invariant LastUserContent(messages) == LastUserContent(messages[..i])
      {
        assert messages[..i][..i - 1] == messages[..i - 1];
        if messages[i - 1].role == User {
          return Some(messages[i - 1].content);
        }
        i := i - 1;
      }
      return None;
    }

    /** `get_context_for_llm`: the recent messages as role/content pairs. */
    method ContextForLlm(maxMessages: int) returns (context: seq<Turn>)
      ensures context == Turns(Recent(messages, maxMessages))
    {
      var recent := if |messages| > maxMessages then SliceFrom(messages, -maxMessages) else messages;
      context := [];
      for i := 0 to |recent|
        invariant context == Turns(recent[..i])
      {
        context := context + [Turn(recent[i].role, recent[i].content)];
      }
      assert recent[..|recent|] == recent;
    }
  }

  // ---------------------------------------------------------------------------
  // The session manager

  /** The sessions by id; `order` is the dictionary's insertion order. */
  class ChatSessionManager {
    var sessions: map<string, ChatSession>
    var order: seq<string>

    ghost predicate Valid()
      reads this
    {
      && NoDuplicates(order)
      && (forall k :: k in sessions <==> k in order)
      && (forall k :: k in sessions ==> sessions[k].sessionId == k)
    }

    constructor ()
      ensures sessions == map[] && order == [] && Valid()
    {
      sessions := map[];
      order := [];
    }

    function GetSession(sessionId: string): Option<ChatSession>
      reads this
    {
      if sessionId in sessions then Some(sessions[sessionId]) else None
    }

    /** `create_session`: a fresh empty session under the id, replacing any earlier one in its place. */
    method CreateSession(sessionId: string, title: string) returns (s: ChatSession)
      requires Valid()
      modifies this
      ensures Valid()
      ensures fresh(s) && s.sessionId == sessionId && s.title == title
      ensures s.messages == [] && s.questionCount == 0 && s.documentCount == 0 && s.Valid()
      ensures sessions == old(sessions)[sessionId := s]
      ensures GetSession(sessionId) == Some(s)
      ensures order == if sessionId in old(sessions) then old(order) else old(order) + [sessionId]
    {
      s := new ChatSession(sessionId, title);
      if sessionId !in sessions {
        order := order + [sessionId];
      }
      sessions := sessions[sessionId := s];
    }

    /** `delete_session`: true and removed exactly when the id is present; otherwise nothing changes. */
    method DeleteSession(sessionId: string) returns (deleted: bool)
      requires Valid()
      modifies this
      ensures Valid()
      ensures deleted <==> sessionId in old(sessions)
      ensures sessions == old(sessions) - {sessionId}
      ensures !deleted ==> order == old(order)
      ensures deleted ==> order == Without(old(order), sessionId)
      ensures GetSession(sessionId) == None
    {
      if sessionId in sessions {
        WithoutKeepsDistinct(order, sessionId);
        sessions := sessions - {sessionId};
        order := Without(order, sessionId);
        return true;
      }
      return false;
    }

    /** `list_sessions`: one summary per stored session, in insertion order. */
    method ListSessions() returns (r: seq<SessionSummary>)
      requires Valid()
      ensures |r| == |order|
      ensures forall i :: 0 <= i < |order| ==>
        var s := sessions[order[i]];
        r[i] == SessionSummary(s.sessionId, s.title, |s.messages|, s.questionCount)
    {
      r := [];
      for i := 0 to |order|
        invariant |r| == i
        invariant forall k :: 0 <= k < i ==> r[k] == sessions[order[k]].Summary()
      {
        r := r + [sessions[order[i]].Summary()];
      }
    }
  }

  // ---------------------------------------------------------------------------
  // The chatbot

  class Chatbot {
    const enableSourceCitations: bool
    const maxContextMessages: int
    const manager: ChatSessionManager
    var current: ChatSession?

    constructor (enableSourceCitations: bool, maxContextMessages: int)
      ensures this.enableSourceCitations == enableSourceCitations && this.maxContextMessages == maxContextMessages
      ensures fresh(manager) && manager.Valid() && manager.sessions == map[] && current == null
    {
      this.enableSourceCitations := enableSourceCitations;
      this.maxContextMessages := maxContextMessages;
      manager := new ChatSessionManager();
      current := null;
    }

    /** `start_new_session`: create the session and make it current. */
    method StartNewSession(sessionId: string, title: string) returns (s: ChatSession)
      requires manager.Valid()
      modifies this, manager
      ensures manager.Valid()
      ensures fresh(s) && s.sessionId == sessionId && s.title == title
      ensures s.messages == [] && s.questionCount == 0 && s.documentCount == 0 && s.Valid()
      ensures manager.sessions == old(manager.sessions)[sessionId := s]
      ensures current == s
    {
      s := manager.CreateSession(sessionId, title);
      current := s;
    }

    /** `load_session`: the current session moves only when the id is found. */
    method LoadSession(sessionId: string) returns (r: Option<ChatSession>)
      modifies this
      ensures r == manager.GetSession(sessionId)
      ensures current == if sessionId in manager.sessions then manager.sessions[sessionId] else old(current)
    {
      r := manager.GetSession(sessionId);
      if r.Some? {
        current := r.value;
      }
    }

    /** `add_user_message`: nothing without a current session. */
    method AddUserMessage(content: string) returns (m: Option<Message>)
      modifies current
      ensures current == null ==> m == None
      ensures current != null ==>
        && m == Some(Message(User, content, []))
        && current.messages == old(current.messages) + [m.value]
        && current.questionCount == old(current.questionCount) + 1
        && current.title == old(current.title) && current.documentCount == old(current.documentCount)
        && (old(current.Valid()) ==> current.Valid())
    {
      if current == null {
        return None;
      }
      var msg := current.AddUserMessage(content);
      return Some(msg);
    }

    /** `add_assistant_response`: nothing without a current session. */
    method AddAssistantResponse(content: string, sources: Option<seq<Source>>) returns (m: Option<Message>)
      modifies current
      ensures current == null ==> m == None
      ensures current != null ==>
        && m == Some(Message(Assistant, content, sources.GetOr([])))
        && current.messages == old(current.messages) + [m.value]
        && current.questionCount == old(current.questionCount)
        && current.title == old(current.title) && current.documentCount == old(current.documentCount)
        && (old(current.Valid()) ==> current.Valid())
    {
      if current == null {
        return None;
      }
      var msg := current.AddAssistantMessage(content, sources);
      return Some(msg);
    }

    /** `format_response_with_sources`. */
    method FormatResponseWithSources(response: string, sources: seq<Source>) returns (r: string)
      ensures r == FormattedResponse(enableSourceCitations, response, sources)
    {
      if !enableSourceCitations || sources == [] {
        return response;
      }
      var citations := CitationBlock(sources);
      r := response + citations;
    }

    /** `prepare_context_for_llm`: the recent turns of the current session, none without one. */
    method PrepareContextForLlm() returns (context: seq<Turn>)
      ensures current == null ==> context == []
      ensures current != null ==> context == Turns(Recent(current.messages, maxContextMessages))
    {
      if current == null {
        return [];
      }
      context := current.ContextForLlm(maxContextMessages);
    }

    /** `get_session_summary`. */
    function SessionSummaryOf(): (r: Option<SessionSummary>)
      reads this, current
      ensures r.None? <==> current == null
      ensures r.Some? ==> r.value.messageCount == |current.messages| && r.value.questionCount == current.questionCount
    {
      if current == null then None else Some(current.Summary())
    }

    /** `export_qa_pairs`: the enumerate loop over the current session's messages. */
    method ExportQaPairs() returns (pairs: seq<QaPair>)
      ensures current == null ==> pairs == []
      ensures current != null ==> pairs == QaPairs(current.messages)
    {
      if current == null {
        return [];
      }
      var msgs := current.messages;
      pairs := [];
      for i := 0 to |msgs|
        invariant pairs == QaPairsUpTo(msgs, i)
      {
        if msgs[i].role == User && i + 1 < |msgs| {
          var next := msgs[i + 1];
          if next.role == Assistant {
            pairs := pairs + [QaPair(msgs[i].content, next.content, next.sources, 0.0)];
          }
        }
      }
    }
  }
}
