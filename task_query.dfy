/**
 * The SQL text and parameter list that GET /api/tasks builds before asking
 * its SQLite database of tasks: a clause and its parameter are added together for each
 * filter that is switched on. Running the query is not part of this model.
 */
module TaskQuery {
  import opened Text

  const SelectAll: string := "SELECT * FROM tasks WHERE 1=1"
  const PriorityClause: string := " AND priority = ?"
  const StatusClause: string := " AND status = ?"
  const OrderByPriority: string := OrderByCase + UrgentFirst + ThenHighMedium + ThenNewest
  const OrderByCase := " ORDER BY CASE priority"
  const UrgentFirst := " WHEN \"urgent\" THEN 1"
  const ThenHighMedium := " WHEN \"high\" THEN 2 WHEN \"medium\" THEN 3"
  const ThenNewest := " ELSE 4 END, created_at DESC"

  /** The priority filter is on for a non-empty priority other than "all". */
  predicate FiltersPriority(priority: string) {
    priority != "" && priority != "all"
  }

  /** The status filter is on for any non-empty status. */
  predicate FiltersStatus(status: string) {
    status != ""
  }

  lemma OrderByCaseHasNoQuestionMark() ensures '?' !in OrderByCase { }
  lemma UrgentFirstHasNoQuestionMark() ensures '?' !in UrgentFirst { }
  lemma ThenHighMediumHasNoQuestionMark() ensures '?' !in ThenHighMedium { }
  lemma ThenNewestHasNoQuestionMark() ensures '?' !in ThenNewest { }

  lemma OrderByHasNoQuestionMark()
    ensures '?' !in OrderByPriority
  {
    OrderByCaseHasNoQuestionMark();
    UrgentFirstHasNoQuestionMark();
    ThenHighMediumHasNoQuestionMark();
    ThenNewestHasNoQuestionMark();
  }

  lemma SelectAllHasNoQuestionMark()
    ensures '?' !in SelectAll
  {
  }

  /** Text and one placeholder after it hold one placeholder. */
  lemma OnePlaceholderAtEnd(head: string)
    requires '?' !in head
    ensures CountChar(head + "?", '?') == 1
  {
    CountCharAbsent(head, '?');
    CountCharAppend(head, "?", '?');
  }

  lemma PriorityClauseHasOnePlaceholder()
    ensures CountChar(PriorityClause, '?') == 1
  {
    var head := PriorityClause[..|PriorityClause| - 1];
    assert PriorityClause == head + "?";
    assert '?' !in head;
    OnePlaceholderAtEnd(head);
  }

  lemma StatusClauseHasOnePlaceholder()
    ensures CountChar(StatusClause, '?') == 1
  {
    var head := StatusClause[..|StatusClause| - 1];
    assert StatusClause == head + "?";
    assert '?' !in head;
    OnePlaceholderAtEnd(head);
  }

  /**
   * A query assembled from its fixed head, a clause per filter that is on,
   * and its fixed tail.
   */
  function Assemble(head: string, first: string, second: string, tail: string, useFirst: bool, useSecond: bool): string {
    if useFirst && useSecond then head + first + second + tail
    else if useFirst then head + first + tail
    else if useSecond then head + second + tail
    else head + tail
  }

  /**
   * An assembled query whose fixed parts hold no placeholder and whose
   * clauses hold one each has one placeholder per clause it uses.
   */
  lemma AssemblePlaceholders(head: string, first: string, second: string, tail: string, useFirst: bool, useSecond: bool)
    requires '?' !in head && '?' !in tail
    requires CountChar(first, '?') == 1 && CountChar(second, '?') == 1
    ensures CountChar(Assemble(head, first, second, tail, useFirst, useSecond), '?')
         == (if useFirst then 1 else 0) + (if useSecond then 1 else 0)
  {
    CountCharAbsent(head, '?');
    CountCharAbsent(tail, '?');
    var text := head;
    if useFirst {
      CountCharAppend(text, first, '?');
      text := text + first;
    }
    if useSecond {
      CountCharAppend(text, second, '?');
      text := text + second;
    }
    CountCharAppend(text, tail, '?');
  }

  /**
   * The query text for the filters that are on: a clause per filter, in the
   * order priority then status, between the fixed head and the ordering.
   * It holds one placeholder per filter that is on.
   */
  function QueryText(byPriority: bool, byStatus: bool): (q: string)
    ensures CountChar(q, '?') == (if byPriority then 1 else 0) + (if byStatus then 1 else 0)
  {
    SelectAllHasNoQuestionMark();
    OrderByHasNoQuestionMark();
    PriorityClauseHasOnePlaceholder();
    StatusClauseHasOnePlaceholder();
    AssemblePlaceholders(SelectAll, PriorityClause, StatusClause, OrderByPriority, byPriority, byStatus);
    Assemble(SelectAll, PriorityClause, StatusClause, OrderByPriority, byPriority, byStatus)
  }

  /**
   * Builds the query as the handler does, appending to the text and to the
   * parameters in step. Every placeholder has exactly one parameter.
   */
  method BuildTaskQuery(priority: string, status: string) returns (query: string, params: seq<string>)
    ensures query == QueryText(FiltersPriority(priority), FiltersStatus(status))
    ensures params == (if FiltersPriority(priority) then [priority] else [])
                    + (if FiltersStatus(status) then [status] else [])
    ensures CountChar(query, '?') == |params|
  {
    query := SelectAll;
    params := [];
    if FiltersPriority(priority) {
      query := query + PriorityClause;
      params := params + [priority];
    }
    if FiltersStatus(status) {
      query := query + StatusClause;
      params := params + [status];
    }
    query := query + OrderByPriority;
  }
}
