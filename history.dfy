/**
 * The conversation-history endpoints of server.js: the module-level list
 * conversationHistory, the filtered and paginated listing of GET
 * /api/history, lookup by id, delete by id and clear-all.
 *
 * Query parameters arrive as strings; an absent parameter and the empty
 * string are both falsy in the source and both appear here as "".
 */
module History {
  import opened Wrappers
  import opened Text
  import opened Seqs
  import TimeAgo

  datatype Conversation = Conversation(id: string, title: string, model: string, timestamp: int, preview: string)

  /** The query of GET /api/history: page and limit are None when absent (then 1 and 10). */
  datatype HistoryQuery = HistoryQuery(search: string, filter: string, model: string, page: Option<nat>, limit: Option<nat>)

  datatype HistoryItem = HistoryItem(conversation: Conversation, timeAgo: string)

  /**
   * The response body. totalPages is None where the source divides by a zero
   * limit (Infinity or NaN, which JSON writes as null). statsTotal and
   * statsToday describe the whole list, not the filtered one.
   */
  datatype HistoryPage = HistoryPage(
    conversations: seq<HistoryItem>,
    total: nat,
    page: nat,
    totalPages: Option<nat>,
    statsTotal: nat,
    statsToday: nat)

  const DayMs := 86400000
  const WeekMs := 604800000
  const MonthMs := 2592000000

  /** The window that the date filter keeps; None for no filter or an unknown value. */
  function FilterWindow(filter: string): Option<int> {
    if filter == "today" then Some(DayMs)
    else if filter == "week" then Some(WeekMs)
    else if filter == "month" then Some(MonthMs)
    else None
  }

  predicate SearchMatches(c: Conversation, search: string) {
    Contains(Lower(c.title), Lower(search)) || Contains(Lower(c.preview), Lower(search))
  }

  predicate ModelMatches(c: Conversation, model: string) {
    c.model == model
  }

  predicate NewerThan(c: Conversation, nowMs: int, windowMs: int) {
    c.timestamp > nowMs - windowMs
  }

  function SearchFilter(search: string): Conversation -> bool {
    c => SearchMatches(c, search)
  }

  function ModelFilter(model: string): Conversation -> bool {
    c => ModelMatches(c, model)
  }

  function DateFilter(nowMs: int, windowMs: int): Conversation -> bool {
    c => NewerThan(c, nowMs, windowMs)
  }

  /** The filter chain of GET /api/history, one filter after another as the handler applies them. */
  function Filtered(entries: seq<Conversation>, q: HistoryQuery, nowMs: int): (r: seq<Conversation>)
    ensures |r| <= |entries|
    ensures forall c :: c in r ==> c in entries
  {
    var bySearch := if q.search != "" then Keep(entries, SearchFilter(q.search)) else entries;
    var byModel := if q.model != "" && q.model != "all" then Keep(bySearch, ModelFilter(q.model)) else bySearch;
    match FilterWindow(q.filter)
    case None => byModel
    case Some(w) => Keep(byModel, DateFilter(nowMs, w))
  }

  predicate SearchActiveMatches(c: Conversation, q: HistoryQuery) {
    q.search != "" ==> SearchMatches(c, q.search)
  }

  predicate ModelActiveMatches(c: Conversation, q: HistoryQuery) {
    q.model != "" && q.model != "all" ==> ModelMatches(c, q.model)
  }

  predicate DateActiveMatches(c: Conversation, q: HistoryQuery, nowMs: int) {
    FilterWindow(q.filter).Some? ==> NewerThan(c, nowMs, FilterWindow(q.filter).value)
  }

  /** An entry passes every filter the query switches on. */
  predicate MatchesAll(c: Conversation, q: HistoryQuery, nowMs: int) {
    SearchActiveMatches(c, q) && ModelActiveMatches(c, q) && DateActiveMatches(c, q, nowMs)
  }

  function MatchesAllFilter(q: HistoryQuery, nowMs: int): Conversation -> bool {
    c => MatchesAll(c, q, nowMs)
  }

  /** The filter chain keeps exactly the entries that match every active filter, in their original order. */
  lemma {:induction false} FilteredIsConjunction(entries: seq<Conversation>, q: HistoryQuery, nowMs: int)
    ensures Filtered(entries, q, nowMs) == Keep(entries, MatchesAllFilter(q, nowMs))
  {
    var search: Conversation -> bool := c => SearchActiveMatches(c, q);
    var searchModel: Conversation -> bool := c => SearchActiveMatches(c, q) && ModelActiveMatches(c, q);
    var model: Conversation -> bool := c => ModelActiveMatches(c, q);
    var date: Conversation -> bool := c => DateActiveMatches(c, q, nowMs);

    var bySearch := if q.search != "" then Keep(entries, SearchFilter(q.search)) else entries;
    if q.search != "" {
      KeepSame(entries, SearchFilter(q.search), search);
    } else {
      KeepAll(entries, search);
    }
    assert bySearch == Keep(entries, search);

    var byModel := if q.model != "" && q.model != "all" then Keep(bySearch, ModelFilter(q.model)) else bySearch;
    if q.model != "" && q.model != "all" {
      KeepKeep(entries, search, ModelFilter(q.model), searchModel);
    } else {
      KeepKeep(entries, search, model, searchModel);
      KeepAll(bySearch, model);
    }
    assert byModel == Keep(entries, searchModel);

    match FilterWindow(q.filter)
    case None =>
      KeepKeep(entries, searchModel, date, MatchesAllFilter(q, nowMs));
      KeepAll(byModel, date);
    case Some(w) =>
      KeepKeep(entries, searchModel, DateFilter(nowMs, w), MatchesAllFilter(q, nowMs));
  }

  /** An entry is listed exactly when it is in the list and matches every active filter. */
  lemma FilteredMembers(entries: seq<Conversation>, q: HistoryQuery, nowMs: int, c: Conversation)
    ensures c in Filtered(entries, q, nowMs) <==> c in entries && MatchesAll(c, q, nowMs)
  {
    FilteredIsConjunction(entries, q, nowMs);
  }

  /** The filter chain distributes over concatenation, so it never reorders entries. */
  lemma FilteredAppend(a: seq<Conversation>, b: seq<Conversation>, q: HistoryQuery, nowMs: int)
    ensures Filtered(a + b, q, nowMs) == Filtered(a, q, nowMs) + Filtered(b, q, nowMs)
  {
    FilteredIsConjunction(a + b, q, nowMs);
    FilteredIsConjunction(a, q, nowMs);
    FilteredIsConjunction(b, q, nowMs);
    KeepAppend(a, b, MatchesAllFilter(q, nowMs));
  }

  // ------------------------------------------------------------ pagination

  /** The index the page starts at. */
  function PageStart(page: nat, limit: nat): (start: int)
    ensures page >= 1 ==> start >= 0
    ensures page == 0 ==> start == -(limit as int)
  {
    (page - 1) * limit
  }

  /** filtered.slice(start, start + limit) with start = (page - 1) * limit, page and limit being numbers. */
  function PageSlice(filtered: seq<Conversation>, page: nat, limit: nat): (r: seq<Conversation>)
    ensures |r| <= limit
    ensures page >= 1 ==>
      var start := PageStart(page, limit);
      |r| == if start >= |filtered| then 0 else Min(limit, |filtered| - start)
  {
    var start := PageStart(page, limit);
    JsSlice(filtered, start, start + limit)
  }

  /**
   * Page p (from 1) holds the entries from index (p - 1) * limit on, at most
   * limit of them; page 0 starts at a negative index that slice counts from
   * the end, yet still ends at index 0, so it is empty.
   */
  lemma PageSliceWindow(filtered: seq<Conversation>, page: nat, limit: nat)
    ensures page >= 1 ==>
      var start := PageStart(page, limit);
      PageSlice(filtered, page, limit) == filtered[Min(start, |filtered|)..Min(start + limit, |filtered|)]
    ensures |PageSlice(filtered, page, limit)| <= limit
    ensures page == 0 ==> PageSlice(filtered, page, limit) == []
    ensures forall i :: 0 <= i < |PageSlice(filtered, page, limit)| ==>
      && page >= 1
      && PageStart(page, limit) + i < |filtered|
      && PageSlice(filtered, page, limit)[i] == filtered[PageStart(page, limit) + i]
  {
  }

  /**
   * The slice as written when limit comes from the query string: the
   * product (page - 1) * limit is a number, but start + limit then joins the
   * decimal text of start and the text of limit, and slice reads that
   * joined text back as its end index.
   */
  function PageSliceAsWritten(filtered: seq<Conversation>, page: nat, limitText: string): (r: seq<Conversation>)
    requires AllDigits(limitText)
    ensures |r| <= |filtered|
    ensures forall c :: c in r ==> c in filtered
  {
    var start := PageStart(page, DigitsValue(limitText));
    match ParseInt(IntToString(start) + limitText)
    case Some(end) =>
      JsSliceOf(filtered, start, end, (c: Conversation) => c.timestamp);
      JsSlice(filtered, start, end)
    case None => []
  }

  /**
   * With `?page=2&limit=1` over four entries, the page as written holds three
   * entries where the numeric page holds one: the end index is "1" + "1",
   * that is 11.
   */
  lemma StringLimitOverfillsPage(filtered: seq<Conversation>)
    requires |filtered| == 4
    ensures |PageSliceAsWritten(filtered, 2, "1")| == 3
    ensures |PageSlice(filtered, 2, 1)| == 1
  {
    var one := "1";
    assert AllDigits(one) && DigitsValue(one) == 1 by {
      assert one[..0] == [];
    }
    assert IntToString(1) == one;
    var joined := IntToString(1) + one;
    assert joined == "11";
    assert AllDigits(joined) && DigitsValue(joined) == 11 by {
      assert joined[..1] == one && one[..0] == [];
    }
    assert ParseInt(joined) == Some(11);
  }

  /** Math.ceil(total / limit); None where the division is by zero. */
  function TotalPages(total: nat, limit: nat): (r: Option<nat>)
    ensures r.None? <==> limit == 0
    ensures r.Some? ==> r.value * limit >= total && (r.value == 0 || (r.value - 1) * limit < total)
  {
    if limit == 0 then None
    else
      var p := (total + limit - 1) / limit;
      assert p * limit <= total + limit - 1 < (p + 1) * limit;
      Some(p)
  }


  function WithTimeAgo(page: seq<Conversation>, nowMs: int): (r: seq<HistoryItem>)
    ensures |r| == |page|
    ensures forall i :: 0 <= i < |page| ==> r[i] == HistoryItem(page[i], TimeAgo.TimeAgo(nowMs, page[i].timestamp))
  {
    seq(|page|, i requires 0 <= i < |page| => HistoryItem(page[i], TimeAgo.TimeAgo(nowMs, page[i].timestamp)))
  }

  /** The response of GET /api/history for the list `entries` at the instant nowMs. */
  function ListHistory(entries: seq<Conversation>, q: HistoryQuery, nowMs: int): (r: HistoryPage)
    ensures r.total == |Filtered(entries, q, nowMs)|
    ensures r.page == q.page.GetOr(1)
    ensures r.totalPages == TotalPages(r.total, q.limit.GetOr(10))
    ensures |r.conversations| <= q.limit.GetOr(10)
    ensures q.page.GetOr(1) >= 1 ==>
      var start := PageStart(q.page.GetOr(1), q.limit.GetOr(10));
      |r.conversations| == if start >= r.total then 0 else Min(q.limit.GetOr(10), r.total - start)
    ensures q.page.GetOr(1) == 0 ==> r.conversations == []
    ensures forall i :: 0 <= i < |r.conversations| ==>
      var start := PageStart(q.page.GetOr(1), q.limit.GetOr(10));
      && start >= 0
      && start + i < r.total
      && r.conversations[i].conversation == Filtered(entries, q, nowMs)[start + i]
      && r.conversations[i].timeAgo == TimeAgo.TimeAgo(nowMs, r.conversations[i].conversation.timestamp)
    ensures r.statsTotal == |entries|
    ensures r.statsToday == |Keep(entries, DateFilter(nowMs, DayMs))|
  {
    var page := q.page.GetOr(1);
    var limit := q.limit.GetOr(10);
    var filtered := Filtered(entries, q, nowMs);
    var shown := PageSlice(filtered, page, limit);
    PageSliceWindow(filtered, page, limit);
    HistoryPage(
      WithTimeAgo(shown, nowMs),
      |filtered|,
      page,
      TotalPages(|filtered|, limit),
      |entries|,
      |Keep(entries, DateFilter(nowMs, DayMs))|)
  }

  // ------------------------------------------------------ lookup by id

  /** Array.prototype.findIndex by id: the first index holding the id, if any. */
  function FirstIndex(entries: seq<Conversation>, id: string): (r: Option<nat>)
    ensures r.Some? ==> r.value < |entries| && entries[r.value].id == id
    ensures r.Some? ==> forall j :: 0 <= j < r.value ==> entries[j].id != id
    ensures r.None? ==> forall j :: 0 <= j < |entries| ==> entries[j].id != id
  {
    if entries == [] then None
    else if entries[0].id == id then Some(0)
    else match FirstIndex(entries[1..], id)
      case None => None
      case Some(k) => Some(k + 1)
  }

  /** The list after splice(findIndex(id), 1): the first entry with the id removed, if there is one. */
  function RemoveFirst(entries: seq<Conversation>, id: string): (r: seq<Conversation>)
    ensures |r| == |entries| - (if FirstIndex(entries, id).Some? then 1 else 0)
    ensures forall c :: c in r ==> c in entries
    ensures FirstIndex(entries, id).Some? ==>
      var k := FirstIndex(entries, id).value;
      r == entries[..k] + entries[k + 1..]
  {
    match FirstIndex(entries, id)
    case None => entries
    case Some(k) => entries[..k] + entries[k + 1..]
  }

  function HasId(id: string): Conversation -> bool {
    (c: Conversation) => c.id == id
  }

  function LacksId(id: string): Conversation -> bool {
    (c: Conversation) => c.id != id
  }

  lemma KeepOne<T(!new)>(x: T, p: T -> bool)
    ensures Keep([x], p) == if p(x) then [x] else []
  {
    assert [x][1..] == [];
  }

  /** Deleting an id leaves every entry with another id where it was, in order. */
  lemma RemoveFirstKeepsOthers(entries: seq<Conversation>, id: string)
    ensures Keep(RemoveFirst(entries, id), LacksId(id)) == Keep(entries, LacksId(id))
  {
    match FirstIndex(entries, id)
    case None =>
    case Some(k) =>
      var p := LacksId(id);
      var before, at, after := entries[..k], entries[k], entries[k + 1..];
      assert entries == (before + [at]) + after;
      assert RemoveFirst(entries, id) == before + after;
      KeepAppend(before + [at], after, p);
      KeepAppend(before, [at], p);
      KeepOne(at, p);
      assert Keep([at], p) == [];
      assert Keep(before + [at], p) == Keep(before, p);
      KeepAppend(before, after, p);
  }

  /** Deleting an id removes exactly one entry carrying it when there is one, and nothing otherwise. */
  lemma RemoveFirstRemovesOne(entries: seq<Conversation>, id: string)
    ensures |Keep(RemoveFirst(entries, id), HasId(id))|
         == |Keep(entries, HasId(id))| - (if FirstIndex(entries, id).Some? then 1 else 0)
    ensures |RemoveFirst(entries, id)| == |entries| - (if FirstIndex(entries, id).Some? then 1 else 0)
    ensures FirstIndex(entries, id).None? ==> RemoveFirst(entries, id) == entries
  {
    match FirstIndex(entries, id)
    case None =>
    case Some(k) =>
      var before, after := entries[..k], entries[k + 1..];
      assert entries == before + [entries[k]] + after;
      KeepAppend(before + [entries[k]], after, HasId(id));
      KeepAppend(before, [entries[k]], HasId(id));
      KeepOne(entries[k], HasId(id));
      KeepAppend(before, after, HasId(id));
  }

  /** GET /api/history/:id: the first entry with the id, or None for the 404 response. */
  function FindById(entries: seq<Conversation>, id: string): (r: Option<Conversation>)
    ensures r.Some? ==> r.value in entries && r.value.id == id
    ensures r.Some? ==> exists k :: 0 <= k < |entries| && entries[k] == r.value && forall j :: 0 <= j < k ==> entries[j].id != id
    ensures r.None? <==> forall c :: c in entries ==> c.id != id
  {
    match FirstIndex(entries, id)
    case None => None
    case Some(k) => Some(entries[k])
  }

  // --------------------------------------------------------- the store

  const FibonacciTitle := "Python Fibonacci Implementation"
  const ApiTitle := "API Architecture Design"
  const ReactTitle := "React Component Optimization"
  const MigrationTitle := "Database Migration Strategy"
  const FibonacciPreview := "Write a Python function that calculates the Fibonacci sequence using dynamic programming..."
  const ApiPreview := "Design a RESTful API architecture for a multi-tenant SaaS platform..."
  const ReactPreview := "Help me optimize this React component for better performance..."
  const MigrationPreview := "Plan a zero-downtime migration from PostgreSQL to CockroachDB..."

  /** The four sample conversations the list starts with, dated relative to server start. */
  function SeedHistory(startMs: int): (r: seq<Conversation>)
    ensures |r| == 4
    ensures forall i, j :: 0 <= i < j < |r| ==> r[i].id != r[j].id && r[j].timestamp < r[i].timestamp < startMs
  {
    [ Conversation("1", FibonacciTitle, "claude-sonnet-4", startMs - 7200000, FibonacciPreview),
      Conversation("2", ApiTitle, "claude-sonnet-4", startMs - 18000000, ApiPreview),
      Conversation("3", ReactTitle, "llama-3-70b", startMs - 86400000, ReactPreview),
      Conversation("4", MigrationTitle, "claude-sonnet-4", startMs - 172800000, MigrationPreview) ]
  }

  /** The module-level conversationHistory array, changed in place by the delete handlers. */
  class HistoryStore {
    var entries: seq<Conversation>

    constructor (startMs: int)
      ensures entries == SeedHistory(startMs)
    {
      entries := SeedHistory(startMs);
    }

    /** DELETE /api/history/:id, which reports success whether or not the id was present. */
    method Delete(id: string) returns (success: bool)
      modifies this
      ensures entries == RemoveFirst(old(entries), id)
      ensures success
    {
      var index := FirstIndex(entries, id);
      if index.Some? {
        entries := entries[..index.value] + entries[index.value + 1..];
      }
      success := true;
    }

    /** DELETE /api/history (conversationHistory.length = 0), which always reports success. */
    method Clear() returns (success: bool)
      modifies this
      ensures entries == []
      ensures success
    {
      entries := [];
      success := true;
    }
  }
}
