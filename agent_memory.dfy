/**
 * AgentMemory in agent-memory.js: conversations, their messages and the
 * saved state of each agent, kept in three SQLite tables. Each table is
 * modelled by its rows in insertion (rowid) order, the agent-state table by
 * a map from its primary key. Generated ids and the clock readings the SQL
 * takes with strftime('%s', 'now') or the code with Date.now() are
 * parameters.
 *
 * SQLite behaviour the model fixes: a LIMIT below zero means no limit,
 * foreign keys are not enforced (the connection never turns them on), a
 * NOT NULL column refuses NULL before the primary key is checked, and rows
 * that ORDER BY finds equal come out in insertion order.
 */
module AgentMemoryStore {
  import opened Wrappers
  import opened Seqs

  datatype DbError =
    | NotNullViolation(column: string)
    | PrimaryKeyConflict(table: string)

  /** A row of the conversations table. */
  datatype ConversationRow = ConversationRow(
    id: string,
    title: Option<string>,
    model: string,
    createdAt: int,
    updatedAt: int,
    metadata: string)

  /** A row of the messages table. */
  datatype MessageRow = MessageRow(
    id: string,
    conversationId: string,
    role: string,
    content: string,
    model: Option<string>,
    tokens: Option<int>,
    cost: Option<real>,
    createdAt: int)

  /** A row of the agent_state table, less its key. */
  datatype AgentStateRow = AgentStateRow(state: string, context: string, updatedAt: int)

  /** What getConversation resolves with: the conversation and its messages. */
  datatype ConversationView = ConversationView(conversation: ConversationRow, messages: seq<MessageRow>)

  /** A row of getRecentConversations: the conversation and its message count. */
  datatype ConversationSummary = ConversationSummary(conversation: ConversationRow, messageCount: nat)

  /** A row of getContext: the two selected columns. */
  datatype ContextLine = ContextLine(role: string, content: string)

  /** What getAgentState resolves with. */
  datatype AgentState = AgentState(agentId: string, state: string, context: string, updatedAt: int)

  /** What getStats resolves with, less the floating-point cost total. */
  datatype Stats = Stats(totalConversations: nat, totalMessages: nat, totalTokens: Option<int>, uniqueModels: nat)

  // The values of the methods' default arguments, taken when the argument is left out (None).
  const DefaultMessageLimit := 50
  const DefaultRecentLimit := 10
  const DefaultContextSize := 10
  const DefaultCleanupDays := 30

  const SecondsPerDay := 24 * 60 * 60

  // ------------------------------------------------------------ the tables

  /** No two conversations share an id (the primary key). */
  ghost predicate UniqueConversationIds(cs: seq<ConversationRow>) {
    DistinctBy(cs, ConversationId())
  }

  /** The key of the conversations table. */
  function ConversationId(): ConversationRow -> string {
    (c: ConversationRow) => c.id
  }

  /** No two messages share an id (the primary key). */
  ghost predicate UniqueMessageIds(ms: seq<MessageRow>) {
    DistinctBy(ms, MessageId())
  }

  /** The key of the messages table. */
  function MessageId(): MessageRow -> string {
    (m: MessageRow) => m.id
  }

  predicate HasConversation(cs: seq<ConversationRow>, id: string) {
    exists c :: c in cs && c.id == id
  }

  predicate HasMessage(ms: seq<MessageRow>, id: string) {
    exists m :: m in ms && m.id == id
  }

  /** `SELECT * FROM conversations WHERE id = ?`: the first row with the id. */
  function FindConversation(cs: seq<ConversationRow>, id: string): (r: Option<ConversationRow>)
    ensures r.None? <==> !HasConversation(cs, id)
    ensures r.Some? ==> r.value in cs && r.value.id == id
  {
    if cs == [] then None
    else if cs[0].id == id then Some(cs[0])
    else
      var r := FindConversation(cs[1..], id);
      assert forall c :: c in cs[1..] ==> c in cs;
      assert HasConversation(cs, id) ==> HasConversation(cs[1..], id) by {
        if HasConversation(cs, id) {
          var c :| c in cs && c.id == id;
          assert c != cs[0];
          assert cs == [cs[0]] + cs[1..];
        }
      }
      r
  }

  /** With unique ids, the row found is the only row with that id. */
  lemma FindConversationUnique(cs: seq<ConversationRow>, id: string, c: ConversationRow)
    requires UniqueConversationIds(cs)
    requires c in cs && c.id == id
    ensures FindConversation(cs, id) == Some(c)
  {
    var found := FindConversation(cs, id).value;
    var i :| 0 <= i < |cs| && cs[i] == c;
    var j :| 0 <= j < |cs| && cs[j] == found;
    assert i == j;
  }

  /** `UPDATE conversations SET updated_at = now WHERE id = ?`, row by row. */
  function TouchRow(c: ConversationRow, id: string, now: int): ConversationRow {
    if c.id == id then c.(updatedAt := now) else c
  }

  function Touched(cs: seq<ConversationRow>, id: string, now: int): (r: seq<ConversationRow>)
    ensures |r| == |cs|
    ensures forall i :: 0 <= i < |cs| ==> r[i] == TouchRow(cs[i], id, now)
  {
    seq(|cs|, i requires 0 <= i < |cs| => TouchRow(cs[i], id, now))
  }

  /**
   * The update dates the conversation with that id now and changes nothing
   * else: no other column, no other row, not the order or the ids.
   */
  lemma TouchedEffect(cs: seq<ConversationRow>, id: string, now: int)
    ensures forall i :: 0 <= i < |cs| ==> Touched(cs, id, now)[i].id == cs[i].id
    ensures forall i :: 0 <= i < |cs| && cs[i].id == id ==>
      Touched(cs, id, now)[i] == cs[i].(updatedAt := now) && Touched(cs, id, now)[i].updatedAt == now
    ensures forall i :: 0 <= i < |cs| && cs[i].id != id ==> Touched(cs, id, now)[i] == cs[i]
    ensures UniqueConversationIds(cs) ==> UniqueConversationIds(Touched(cs, id, now))
    ensures !HasConversation(cs, id) ==> Touched(cs, id, now) == cs
  {
    var r := Touched(cs, id, now);
    if !HasConversation(cs, id) {
      forall i | 0 <= i < |cs| ensures r[i] == cs[i] {
        assert cs[i] in cs;
      }
    }
  }

  // ------------------------------------------------------- message queries

  function InConversation(id: string): MessageRow -> bool {
    (m: MessageRow) => m.conversationId == id
  }

  /** Sorting by this key, smallest first, is ORDER BY created_at ASC. */
  function OldestMessageFirst(): MessageRow -> int {
    (m: MessageRow) => m.createdAt
  }

  /** Sorting by this key, smallest first, is ORDER BY created_at DESC. */
  function NewestMessageFirst(): MessageRow -> int {
    (m: MessageRow) => 0 - m.createdAt
  }

  /** The messages of one conversation, in insertion order. */
  function MessagesOf(ms: seq<MessageRow>, id: string): seq<MessageRow> {
    Keep(ms, InConversation(id))
  }

  /** `COUNT(m.id)` of the LEFT JOIN for one conversation. */
  function MessageCount(ms: seq<MessageRow>, id: string): nat {
    |MessagesOf(ms, id)|
  }

  /** `... WHERE conversation_id = ? ORDER BY created_at ASC LIMIT ?`. */
  /**
   * The messages getConversation returns: messages of that conversation, in
   * chronological order, as many as the limit allows.
   */
  function ConversationMessages(ms: seq<MessageRow>, id: string, limit: int): (r: seq<MessageRow>)
    ensures SortedBy(r, OldestMessageFirst())
    ensures |r| == LimitLength(MessageCount(ms, id), limit)
    ensures forall m :: m in r ==> m in ms && m.conversationId == id
  {
    LimitOfSortOf(MessagesOf(ms, id), limit, OldestMessageFirst());
    Limit(SortBy(MessagesOf(ms, id), OldestMessageFirst()), limit)
  }

  /** The messages getConversation returns are the earliest ones: no message left out is older than one returned. */
  lemma ConversationMessagesAreEarliest(ms: seq<MessageRow>, id: string, limit: int)
    ensures TopBy(ConversationMessages(ms, id, limit), MessagesOf(ms, id), limit, OldestMessageFirst())
  {
    LimitOfSortIsTop(MessagesOf(ms, id), limit, OldestMessageFirst());
  }

  /** The rows getContext selects, before rows.reverse(): the newest n messages, newest first. */
  function LatestMessages(ms: seq<MessageRow>, id: string, n: int): seq<MessageRow> {
    Limit(SortBy(MessagesOf(ms, id), NewestMessageFirst()), n)
  }

  /**
   * The rows getContext returns: the newest n, put back in chronological
   * order. They are messages of that conversation, as many as n allows.
   */
  function ContextRows(ms: seq<MessageRow>, id: string, n: int): (r: seq<MessageRow>)
    ensures SortedBy(r, OldestMessageFirst())
    ensures |r| == LimitLength(MessageCount(ms, id), n)
    ensures forall m :: m in r ==> m in ms && m.conversationId == id
  {
    var latest := LatestMessages(ms, id, n);
    LimitOfSortOf(MessagesOf(ms, id), n, NewestMessageFirst());
    ReversedLatest(latest, ms, id);
    Reverse(latest)
  }

  /** Reversing newest-first messages of a conversation gives its messages in chronological order. */
  lemma ReversedLatest(latest: seq<MessageRow>, ms: seq<MessageRow>, id: string)
    requires SortedBy(latest, NewestMessageFirst())
    requires forall m :: m in latest ==> m in MessagesOf(ms, id)
    ensures SortedBy(Reverse(latest), OldestMessageFirst())
    ensures forall m :: m in Reverse(latest) ==> m in ms && m.conversationId == id
  {
    ReverseNewestFirst(latest);
    var r := Reverse(latest);
    forall m | m in r ensures m in latest {
      var i :| 0 <= i < |r| && r[i] == m;
      assert m == latest[|latest| - 1 - i];
    }
  }

  /** Reversing a newest-first sequence puts it in chronological order. */
  lemma ReverseNewestFirst(s: seq<MessageRow>)
    requires SortedBy(s, NewestMessageFirst())
    ensures SortedBy(Reverse(s), OldestMessageFirst())
  {
    var r := Reverse(s);
    forall i, j | 0 <= i < j < |r| ensures r[i].createdAt <= r[j].createdAt {
      assert r[i] == s[|s| - 1 - i] && r[j] == s[|s| - 1 - j];
      assert NewestMessageFirst()(s[|s| - 1 - j]) <= NewestMessageFirst()(s[|s| - 1 - i]);
    }
  }

  /**
   * getContext returns the latest messages of the conversation: no message
   * of the conversation left out is newer than one returned.
   */
  lemma ContextIsLatestInOrder(ms: seq<MessageRow>, id: string, n: int)
    ensures multiset(ContextRows(ms, id, n)) <= multiset(MessagesOf(ms, id))
    ensures forall x, y ::
      (x in ContextRows(ms, id, n) && y in multiset(MessagesOf(ms, id)) - multiset(ContextRows(ms, id, n)))
      ==> y.createdAt <= x.createdAt
  {
    var pool := MessagesOf(ms, id);
    var latest := LatestMessages(ms, id, n);
    LimitOfSortOf(pool, n, NewestMessageFirst());
    LimitOfSortIsTop(pool, n, NewestMessageFirst());
    ReverseMultiset(latest);
    forall x, y | x in ContextRows(ms, id, n) && y in multiset(pool) - multiset(ContextRows(ms, id, n))
      ensures y.createdAt <= x.createdAt
    {
      assert x in multiset(ContextRows(ms, id, n));
      assert x in latest;
      assert NewestMessageFirst()(x) <= NewestMessageFirst()(y);
    }
  }

  function ToContextLine(m: MessageRow): ContextLine {
    ContextLine(m.role, m.content)
  }

  // -------------------------------------------------- conversation queries

  /** Sorting by this key, smallest first, is ORDER BY updated_at DESC. */
  function RecentlyUpdatedFirst(): ConversationRow -> int {
    (c: ConversationRow) => 0 - c.updatedAt
  }

  /**
   * The conversations getRecentConversations lists, in its order: rows of
   * the table, most recently updated first, as many as the limit allows.
   */
  function RecentRows(cs: seq<ConversationRow>, limit: int): (r: seq<ConversationRow>)
    ensures SortedBy(r, RecentlyUpdatedFirst())
    ensures |r| == LimitLength(|cs|, limit)
    ensures forall c :: c in r ==> c in cs
  {
    LimitOfSortOf(cs, limit, RecentlyUpdatedFirst());
    Limit(SortBy(cs, RecentlyUpdatedFirst()), limit)
  }

  /** The listed conversations are the most recently updated ones: none left out is more recent than one listed. */
  lemma RecentRowsAreNewest(cs: seq<ConversationRow>, limit: int)
    ensures TopBy(RecentRows(cs, limit), cs, limit, RecentlyUpdatedFirst())
  {
    var sorted := SortBy(cs, RecentlyUpdatedFirst());
    SortBySorted(cs, RecentlyUpdatedFirst());
    LimitOfSortIsTop(cs, limit, RecentlyUpdatedFirst());
    assert RecentRows(cs, limit) == sorted[..|RecentRows(cs, limit)|];
  }

  function Summaries(rows: seq<ConversationRow>, ms: seq<MessageRow>): (r: seq<ConversationSummary>)
    ensures |r| == |rows|
    ensures forall i :: 0 <= i < |rows| ==>
      r[i].conversation == rows[i] && r[i].messageCount == |Keep(ms, InConversation(rows[i].id))|
  {
    seq(|rows|, i requires 0 <= i < |rows| => ConversationSummary(rows[i], MessageCount(ms, rows[i].id)))
  }

  // ------------------------------------------------------------ agent state

  /** getAgentState over the agent_state table. */
  function LookupState(states: map<string, AgentStateRow>, agentId: string): (r: Option<AgentState>)
    ensures r.None? <==> agentId !in states
    ensures r.Some? ==> r.value.agentId == agentId
  {
    if agentId in states then
      var row := states[agentId];
      Some(AgentState(agentId, row.state, row.context, row.updatedAt))
    else None
  }

  /** A saved state is what a following lookup of that agent returns; other agents are unaffected. */
  lemma LookupAfterSave(states: map<string, AgentStateRow>, agentId: string, row: AgentStateRow, other: string)
    ensures LookupState(states[agentId := row], agentId) == Some(AgentState(agentId, row.state, row.context, row.updatedAt))
    ensures other != agentId ==> LookupState(states[agentId := row], other) == LookupState(states, other)
  {
  }

  /** A second save of the same agent replaces the first. */
  lemma SecondSaveReplaces(states: map<string, AgentStateRow>, agentId: string, first: AgentStateRow, second: AgentStateRow)
    ensures states[agentId := first][agentId := second] == states[agentId := second]
    ensures LookupState(states[agentId := first][agentId := second], agentId)
         == Some(AgentState(agentId, second.state, second.context, second.updatedAt))
  {
    LookupAfterSave(states[agentId := first], agentId, second, agentId);
  }

  // ------------------------------------------------------------------ stats

  /** `SUM(tokens) ... WHERE tokens IS NOT NULL`: NULL (None) when no message has a token count. */
  function TokenTotal(ms: seq<MessageRow>): (r: Option<int>)
    ensures r.None? <==> forall m :: m in ms ==> m.tokens.None?
  {
    if ms == [] then None
    else
      var rest := TokenTotal(ms[..|ms| - 1]);
      var last := ms[|ms| - 1];
      assert ms == ms[..|ms| - 1] + [last];
      match (rest, last.tokens)
      case (None, None) => None
      case (None, Some(t)) => Some(t)
      case (Some(s), None) => Some(s)
      case (Some(s), Some(t)) => Some(s + t)
  }

  /** The token counts added up from the first message on, a missing count adding nothing. */
  function TokenSum(ms: seq<MessageRow>): int {
    if ms == [] then 0 else ms[0].tokens.GetOr(0) + TokenSum(ms[1..])
  }

  lemma {:induction false} TokenSumAppend(ms: seq<MessageRow>, m: MessageRow)
    ensures TokenSum(ms + [m]) == TokenSum(ms) + m.tokens.GetOr(0)
  {
    if ms == [] {
      assert ms + [m] == [m];
    } else {
      assert (ms + [m])[1..] == ms[1..] + [m];
      TokenSumAppend(ms[1..], m);
    }
  }

  /** When some message has a token count, the total is the sum of the counts. */
  lemma {:induction false} TokenTotalIsSum(ms: seq<MessageRow>)
    ensures TokenTotal(ms).Some? ==> TokenTotal(ms).value == TokenSum(ms)
  {
    if ms != [] {
      var init := ms[..|ms| - 1];
      TokenTotalIsSum(init);
      TokenSumAppend(init, ms[|ms| - 1]);
      assert init + [ms[|ms| - 1]] == ms;
      if TokenTotal(init).None? {
        assert forall m :: m in init ==> m.tokens.None?;
        TokenSumOfNone(init);
      }
    }
  }

  lemma {:induction false} TokenSumOfNone(ms: seq<MessageRow>)
    requires forall m :: m in ms ==> m.tokens.None?
    ensures TokenSum(ms) == 0
  {
    if ms != [] {
      assert ms[0] in ms;
      assert forall m :: m in ms[1..] ==> m in ms;
      TokenSumOfNone(ms[1..]);
    }
  }

  /** The models the conversations use, for COUNT(DISTINCT model). */
  function Models(cs: seq<ConversationRow>): set<string> {
    set c | c in cs :: c.model
  }

  function StatsOf(cs: seq<ConversationRow>, ms: seq<MessageRow>): (r: Stats)
    ensures r.totalConversations == |cs| && r.totalMessages == |ms|
    ensures r.totalTokens.None? <==> forall m :: m in ms ==> m.tokens.None?
    ensures r.totalTokens.Some? ==> r.totalTokens.value == TokenSum(ms)
    ensures r.uniqueModels == |Models(cs)|
    ensures r.uniqueModels <= r.totalConversations
  {
    ModelsBound(cs);
    TokenTotalIsSum(ms);
    Stats(|cs|, |ms|, TokenTotal(ms), |Models(cs)|)
  }

  /** There are no more distinct models than conversations. */
  lemma {:induction false} ModelsBound(cs: seq<ConversationRow>)
    ensures |Models(cs)| <= |cs|
  {
    if cs != [] {
      ModelsBound(cs[1..]);
      assert Models(cs) == {cs[0].model} + Models(cs[1..]) by {
        assert forall c :: c in cs <==> c == cs[0] || c in cs[1..];
      }
    }
  }

  // ---------------------------------------------------------------- cleanup

  /**
   * `Math.floor(Date.now() / 1000) - daysOld * 24 * 60 * 60`: daysOld days
   * before the current second, that second rounded down.
   */
  function Cutoff(nowMs: int, daysOld: int): (r: int)
    ensures (r + daysOld * SecondsPerDay) * 1000 <= nowMs < (r + daysOld * SecondsPerDay) * 1000 + 1000
  {
    nowMs / 1000 - daysOld * SecondsPerDay
  }

  function IsStale(cutoff: int): ConversationRow -> bool {
    (c: ConversationRow) => c.updatedAt < cutoff
  }

  function IsCurrent(cutoff: int): ConversationRow -> bool {
    (c: ConversationRow) => !(c.updatedAt < cutoff)
  }

  /** `SELECT id FROM conversations WHERE updated_at < ?`. */
  function StaleIds(cs: seq<ConversationRow>, cutoff: int): set<string> {
    set c | c in cs && c.updatedAt < cutoff :: c.id
  }

  function OutsideOf(ids: set<string>): MessageRow -> bool {
    (m: MessageRow) => m.conversationId !in ids
  }

  /** The conversations that survive cleanup, and the number it reports deleted. */
  lemma CleanupCounts(cs: seq<ConversationRow>, cutoff: int)
    ensures |Keep(cs, IsStale(cutoff))| + |Keep(cs, IsCurrent(cutoff))| == |cs|
    ensures forall c :: c in Keep(cs, IsCurrent(cutoff)) <==> c in cs && c.updatedAt >= cutoff
  {
    KeepSplit(cs, IsCurrent(cutoff), IsStale(cutoff));
  }

  /**
   * Cleanup keeps every message of a conversation it keeps, drops every
   * message of a conversation it drops, and keeps messages whose
   * conversation does not exist.
   */
  lemma CleanupMessages(cs: seq<ConversationRow>, ms: seq<MessageRow>, cutoff: int)
    requires UniqueConversationIds(cs)
    ensures forall m, c :: m in ms && c in cs && c.id == m.conversationId ==>
      (m in Keep(ms, OutsideOf(StaleIds(cs, cutoff))) <==> c.updatedAt >= cutoff)
    ensures forall m :: m in ms && !HasConversation(cs, m.conversationId) ==>
      m in Keep(ms, OutsideOf(StaleIds(cs, cutoff)))
  {
    var stale := StaleIds(cs, cutoff);
    forall m, c | m in ms && c in cs && c.id == m.conversationId
      ensures m.conversationId in stale <==> c.updatedAt < cutoff
    {
      if m.conversationId in stale {
        var d :| d in cs && d.updatedAt < cutoff && d.id == m.conversationId;
        var i :| 0 <= i < |cs| && cs[i] == c;
        var j :| 0 <= j < |cs| && cs[j] == d;
        assert i == j;
      }
    }
  }

  // ------------------------------------------------------------- the store

  class AgentMemory {
    var conversations: seq<ConversationRow>
    var messages: seq<MessageRow>
    var agentStates: map<string, AgentStateRow>

    /** The primary keys hold. */
    ghost predicate Valid()
      reads this
    {
      UniqueConversationIds(conversations) && UniqueMessageIds(messages)
    }

    /** A store over a new, empty database. */
    constructor ()
      ensures Valid()
      ensures conversations == [] && messages == [] && agentStates == map[]
    {
      conversations := [];
      messages := [];
      agentStates := map[];
    }

    /**
     * A store over an existing database file: CREATE TABLE IF NOT EXISTS
     * leaves the file's rows in place, so the tables start as they were.
     */
    constructor Open(cs: seq<ConversationRow>, ms: seq<MessageRow>, states: map<string, AgentStateRow>)
      requires UniqueConversationIds(cs) && UniqueMessageIds(ms)
      ensures Valid()
      ensures conversations == cs && messages == ms && agentStates == states
    {
      conversations := cs;
      messages := ms;
      agentStates := states;
    }

    /** createConversation: an INSERT of a new row under a fresh id. */
    method CreateConversation(id: string, model: Option<string>, title: Option<string>, metadata: string, nowSec: int)
      returns (r: Result<ConversationRow, DbError>)
      requires Valid()
      modifies this
      ensures Valid()
      ensures model.None? ==> r == Err(NotNullViolation("model")) && conversations == old(conversations)
      ensures model.Some? && HasConversation(old(conversations), id) ==>
        r == Err(PrimaryKeyConflict("conversations")) && conversations == old(conversations)
      ensures model.Some? && !HasConversation(old(conversations), id) ==>
        r == Ok(ConversationRow(id, title, model.value, nowSec, nowSec, metadata))
        && conversations == old(conversations) + [r.value]
      ensures messages == old(messages) && agentStates == old(agentStates)
    {
      if model.None? {
        return Err(NotNullViolation("model"));
      }
      if HasConversation(conversations, id) {
        return Err(PrimaryKeyConflict("conversations"));
      }
      var row := ConversationRow(id, title, model.value, nowSec, nowSec, metadata);
      conversations := conversations + [row];
      r := Ok(row);
    }

    /**
     * The UPDATE that addMessage runs after a successful insert, as a pass
     * over the rows.
     */
    method Touch(id: string, nowSec: int)
      requires Valid()
      modifies this
      ensures Valid()
      ensures conversations == Touched(old(conversations), id, nowSec)
      ensures messages == old(messages) && agentStates == old(agentStates)
    {
      var updated: seq<ConversationRow> := [];
      var i := 0;
      while i < |conversations|
        invariant 0 <= i <= |conversations|
        invariant |updated| == i
        invariant forall k :: 0 <= k < i ==> updated[k] == TouchRow(conversations[k], id, nowSec)
      {
        updated := updated + [TouchRow(conversations[i], id, nowSec)];
        i := i + 1;
      }
      TouchedEffect(conversations, id, nowSec);
      conversations := updated;
    }

    /**
     * addMessage: an INSERT into messages and, once it succeeded, the update
     * of the conversation's updated_at. Foreign keys are not enforced, so a
     * message for an unknown conversation is stored and dates nothing.
     */
    method AddMessage(id: string, conversationId: string, role: Option<string>, content: Option<string>,
                      model: Option<string>, tokens: Option<int>, cost: Option<real>, nowSec: int)
      returns (r: Result<MessageRow, DbError>)
      requires Valid()
      modifies this
      ensures Valid()
      ensures role.None? ==> r == Err(NotNullViolation("role"))
      ensures role.Some? && content.None? ==> r == Err(NotNullViolation("content"))
      ensures role.Some? && content.Some? && HasMessage(old(messages), id) ==>
        r == Err(PrimaryKeyConflict("messages"))
      ensures r.Err? ==> conversations == old(conversations) && messages == old(messages)
      ensures role.Some? && content.Some? && !HasMessage(old(messages), id) ==>
        r == Ok(MessageRow(id, conversationId, role.value, content.value, model, tokens, cost, nowSec))
        && messages == old(messages) + [r.value]
        && conversations == Touched(old(conversations), conversationId, nowSec)
      ensures agentStates == old(agentStates)
    {
      if role.None? {
        return Err(NotNullViolation("role"));
      }
      if content.None? {
        return Err(NotNullViolation("content"));
      }
      if HasMessage(messages, id) {
        return Err(PrimaryKeyConflict("messages"));
      }
      var row := MessageRow(id, conversationId, role.value, content.value, model, tokens, cost, nowSec);
      assert UniqueMessageIds(messages + [row]) by {
        var ms := messages + [row];
        forall i, j | 0 <= i < j < |ms| ensures ms[i].id != ms[j].id {
          if j == |ms| - 1 {
            assert ms[i] in messages;
          }
        }
      }
      messages := messages + [row];
      Touch(conversationId, nowSec);
      r := Ok(row);
    }

    /** getConversation: None (null) for an unknown id; the limit is 50 when left out. */
    function GetConversation(conversationId: string, limit: Option<int>): (r: Option<ConversationView>)
      reads this
      ensures r.None? <==> !HasConversation(conversations, conversationId)
      ensures r.Some? ==> r.value.conversation in conversations && r.value.conversation.id == conversationId
      ensures r.Some? ==> r.value.messages == ConversationMessages(messages, conversationId, limit.GetOr(DefaultMessageLimit))
    {
      match FindConversation(conversations, conversationId)
      case None => None
      case Some(c) => Some(ConversationView(c, ConversationMessages(messages, conversationId, limit.GetOr(DefaultMessageLimit))))
    }

    /** getRecentConversations; the limit is 10 when left out. */
    function GetRecentConversations(limit: Option<int>): (r: seq<ConversationSummary>)
      reads this
      ensures |r| == LimitLength(|conversations|, limit.GetOr(DefaultRecentLimit))
      ensures forall i :: 0 <= i < |r| ==> r[i].conversation == RecentRows(conversations, limit.GetOr(DefaultRecentLimit))[i]
      ensures forall i :: 0 <= i < |r| ==> r[i].messageCount == MessageCount(messages, r[i].conversation.id)
    {
      Summaries(RecentRows(conversations, limit.GetOr(DefaultRecentLimit)), messages)
    }

    /** getContext: role and content of the latest messages, oldest first; the count is 10 when left out. */
    function GetContext(conversationId: string, messageCount: Option<int>): (r: seq<ContextLine>)
      reads this
      ensures |r| == LimitLength(MessageCount(messages, conversationId), messageCount.GetOr(DefaultContextSize))
      ensures forall i :: 0 <= i < |r| ==>
        r[i] == ToContextLine(ContextRows(messages, conversationId, messageCount.GetOr(DefaultContextSize))[i])
    {
      var rows := ContextRows(messages, conversationId, messageCount.GetOr(DefaultContextSize));
      seq(|rows|, i requires 0 <= i < |rows| => ToContextLine(rows[i]))
    }

    /** saveAgentState: INSERT OR REPLACE, so a saved state replaces any earlier one. */
    method SaveAgentState(agentId: string, state: Option<string>, context: string, nowSec: int)
      returns (r: Result<AgentState, DbError>)
      modifies this
      ensures state.None? ==> r == Err(NotNullViolation("state")) && agentStates == old(agentStates)
      ensures state.Some? ==>
        r == Ok(AgentState(agentId, state.value, context, nowSec))
        && agentStates == old(agentStates)[agentId := AgentStateRow(state.value, context, nowSec)]
      ensures conversations == old(conversations) && messages == old(messages)
    {
      if state.None? {
        return Err(NotNullViolation("state"));
      }
      agentStates := agentStates[agentId := AgentStateRow(state.value, context, nowSec)];
      r := Ok(AgentState(agentId, state.value, context, nowSec));
    }

    /** getAgentState: None (null) for an agent never saved. */
    function GetAgentState(agentId: string): (r: Option<AgentState>)
      reads this
      ensures r == LookupState(agentStates, agentId)
      ensures r.None? <==> agentId !in agentStates
    {
      LookupState(agentStates, agentId)
    }

    /** getStats. */
    function GetStats(): (r: Stats)
      reads this
      ensures r.totalConversations == |conversations| && r.totalMessages == |messages|
      ensures r.totalTokens.None? <==> forall m :: m in messages ==> m.tokens.None?
      ensures r.totalTokens.Some? ==> r.totalTokens.value == TokenSum(messages)
      ensures r.uniqueModels == |Models(conversations)| <= |conversations|
    {
      StatsOf(conversations, messages)
    }

    /**
     * cleanup: deletes the messages of the conversations last updated before
     * the cutoff, then those conversations, and reports how many
     * conversations it deleted. daysOld is 30 when left out.
     */
    method Cleanup(daysOld: Option<int>, nowMs: int) returns (deleted: nat)
      requires Valid()
      modifies this
      ensures Valid()
      ensures messages == Keep(old(messages), OutsideOf(StaleIds(old(conversations), Cutoff(nowMs, daysOld.GetOr(DefaultCleanupDays)))))
      ensures conversations == Keep(old(conversations), IsCurrent(Cutoff(nowMs, daysOld.GetOr(DefaultCleanupDays))))
      ensures deleted == |Keep(old(conversations), IsStale(Cutoff(nowMs, daysOld.GetOr(DefaultCleanupDays))))|
      ensures deleted + |conversations| == |old(conversations)|
      ensures agentStates == old(agentStates)
    {
      var cutoff := Cutoff(nowMs, daysOld.GetOr(DefaultCleanupDays));
      var stale := StaleIds(conversations, cutoff);
      KeepDistinctBy(messages, OutsideOf(stale), MessageId());
      messages := Keep(messages, OutsideOf(stale));
      var before := conversations;
      KeepDistinctBy(conversations, IsCurrent(cutoff), ConversationId());
      conversations := Keep(conversations, IsCurrent(cutoff));
      CleanupCounts(before, cutoff);
      deleted := |before| - |conversations|;
    }
  }
}
