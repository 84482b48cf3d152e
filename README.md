# BlackRoad AI Platform core, modelled in Dafny

This project models the core of the BlackRoad AI Platform's back end and of one of its test utilities, and proves properties of the model:

- **The in-memory handlers of the Express server** (`server.js`):
  - the relative time text `getTimeAgo`;
  - the conversation history: the filtered, paginated listing, lookup by id, delete by id and clear-all;
  - the SQL text and parameter list of GET /api/tasks;
  - the shallow merge of the settings;
  - the canned answer of simulation mode (`generateSimulatedResponse`);
  - the entries of the recent-memory listing, with their type, title and preview;
  - the agent chat's message list.
- **`AgentMemory`** (`agent-memory.js`): conversations, their messages and the saved state of each agent. It is modelled over three abstract tables, not over a SQLite driver.
  - Conversations and messages are sequences of rows in insertion order.
  - Agent state is a map keyed by agent id.
  - Each SQL statement is stated as the operation it performs on those tables.
- **`TestReporter`** (`tests/custom-reporting.spec.ts`): a counter per status, kept next to the list of recorded tests.

What the code takes from outside becomes a parameter:

- the clock: `Date.now()`, `new Date()` and `strftime('%s', 'now')`;
- generated ids;
- the memory directory's listing, with each file's modification time and content;
- `process.platform`.

Stateful parts are classes whose methods state the whole new state:

- `History.HistoryStore`, `Settings.SettingsStore` and `Chat.ChatLog`, for the module-level variables of `server.js`;
- `AgentMemoryStore.AgentMemory`;
- `Reporting.TestReporter`.

The rest is functions and lemmas.

Files:

- `wrappers.dfy`: Option and Result.
- `seqs.dfy`: the sequence operations:
  - filter;
  - JavaScript `slice`;
  - SQL `LIMIT`;
  - a stable sort by key (ORDER BY as well as `Array.prototype.sort`);
  - reverse;
  - distinct keys;
  - and their lemmas.
- `text.dfy`: lower case, `includes`, `endsWith`, character replace and count, and decimal rendering and parsing.
- The rest are one file per endpoint group or class:
  - `time_ago.dfy`;
  - `history.dfy`;
  - `task_query.dfy`;
  - `settings.dfy`;
  - `simulated_response.dfy`;
  - `memory_files.dfy`;
  - `chat.dfy`;
  - `agent_memory.dfy`;
  - `test_reporter.dfy`.

## Model

| member | source | states |
|---|---|---|
| TimeAgo.Bucket | server.js:799-805 | These ages are plain seconds: below 60 s, negative ages included. The other ranges are minutes from 60 s to below 3600 s, hours from 3600 s to below 86400 s, and days from 86400 s on. The count is the number of whole units, rounded down, with bounds stating that floor. |
| TimeAgo.RenderRoundTrip | server.js:801-804 | The text "N unit ago" determines both the count N and the unit. Negative counts are included. |
| TimeAgo.TimeAgo | server.js:799-805 | Reading getTimeAgo's text back gives the bucket of the elapsed whole seconds. |
| Text.Lower | server.js:726-730 | Lower case keeps the length and lower-cases each character. |
| Text.Contains | server.js:729-731 | The empty string is in every string, and no string is in a shorter one. |
| Text.LowerIdempotent | server.js:726-730 | Lower-casing twice is lower-casing once. |
| Text.ContainsIff | server.js:729-730 | `includes` holds exactly when the substring occurs at some index. |
| Text.ReplaceChar | server.js:304 | Every dash becomes a space, and every other character stays in place. |
| Text.IntToStringRoundTrip | server.js:801-804 | The decimal text of an integer parses back to it, and it contains no space. |
| History.FilteredIsConjunction | server.js:725-744 | The chain of filters equals one filter keeping the entries that match every active filter, in their original order. Search is active when non-empty; model when neither absent nor "all"; date only for "today", "week" or "month". |
| History.FilteredMembers | server.js:725-744 | An entry is listed exactly when it is in the list and matches every active filter. |
| History.FilteredAppend | server.js:725-744 | Filtering distributes over concatenation, so entries keep their relative order. |
| History.Filtered | server.js:725-744 | The filtered list is no longer than the list, and holds only its entries. |
| History.PageStart | server.js:747 | For pages from 1 on, the start index is not negative. Page 0 starts at minus the limit. |
| History.PageSlice | server.js:746-748 | A page holds at most limit entries. From page 1 on it holds min(limit, length - start) of them, none when start is past the end. |
| History.PageSliceAsWritten | server.js:746-748 | The slice as written holds only entries of the list, and no more than the list holds. |
| History.PageSliceWindow | server.js:746-748 | Page p holds the filtered entries from (p - 1) * limit on, at most limit of them. Page 0 is empty. |
| History.TotalPages | server.js:757 | This is the ceiling of total / limit: the smallest page count covering total. None stands for division by zero. |
| History.WithTimeAgo | server.js:751-754 | Each listed conversation is paired with getTimeAgo of its timestamp, in order. |
| History.ListHistory | server.js:722-764 | total is the filtered length, and page and limit default to 1 and 10. From page 1 on, the page holds min(limit, total - start) entries, none when start is past the end; page 0 is empty. Each listed entry is the filtered entry at start + i, with its time text. totalPages is the ceiling. The stats count the whole list and its entries of the last day. |
| History.FirstIndex | server.js:775 | This is the first index holding the id; None when no entry holds it. |
| History.RemoveFirstKeepsOthers | server.js:774-780 | Deleting an id leaves every entry with another id, in order. |
| History.RemoveFirstRemovesOne | server.js:774-780 | Deleting removes exactly one entry with that id when there is one, and is a no-op when there is none. |
| History.RemoveFirst | server.js:774-780 | Deleting removes the entry at the first index holding the id, and only that entry, keeping the others in order. It shortens the list by one exactly when the id is present. |
| History.FindById | server.js:766-772 | This returns the first entry with the id, or None (the 404) exactly when no entry has it. |
| History.StringLimitOverfillsPage | server.js:746-748 | As written, `?page=2&limit=1` over four entries returns three entries where the numeric page returns one. |
| History.SeedHistory | server.js:715-720 | There are four sample conversations with distinct ids, each older than start-up and than the one before it. |
| History.HistoryStore.constructor | server.js:715-720 | The list starts as the four sample conversations, dated relative to start-up. |
| History.HistoryStore.Delete | server.js:774-780 | The list loses its first entry with the id, if any. Success is always reported. |
| History.HistoryStore.Clear | server.js:792-795 | The list is empty, and the reply reports success. |
| TaskQuery.SelectAllHasNoQuestionMark | server.js:428 | The fixed head of the query has no placeholder. |
| TaskQuery.PriorityClauseHasOnePlaceholder | server.js:432 | The priority clause has exactly one placeholder. |
| TaskQuery.StatusClauseHasOnePlaceholder | server.js:436 | The status clause has exactly one placeholder. |
| TaskQuery.OrderByHasNoQuestionMark | server.js:440 | The ORDER BY tail has no placeholder. |
| TaskQuery.AssemblePlaceholders | server.js:428-440 | A query built from placeholder-free fixed parts and one-placeholder clauses has one placeholder per clause used. |
| TaskQuery.QueryText | server.js:428-440 | The query of GET /api/tasks has one placeholder per filter that is on. |
| TaskQuery.BuildTaskQuery | server.js:425-440 | The priority clause is added exactly when priority is non-empty and not "all". The status clause is added exactly when status is non-empty. The parameters are those values in that order, and the placeholders equal the parameters in number. |
| Settings.Merge | server.js:680 | The keys are the union of both key sets. Body keys take the body's value; every other key keeps its current value. |
| Settings.MergeEmpty | server.js:680 | An empty body changes nothing. |
| Settings.MergeIdempotent | server.js:680 | Posting the same body twice equals posting it once. |
| Settings.MergeSequence | server.js:680 | Two posts in a row equal one post of the second body merged over the first. |
| Settings.Defaults | server.js:661-673 | Every default value is a flag, a number or a text; none is null or nested. |
| Settings.SettingsStore.Current | server.js:675-677 | GET returns the current settings, which still hold every default key. |
| Settings.SettingsStore.constructor | server.js:661-673 | The settings start as the eleven defaults, so all default keys are present. |
| Settings.SettingsStore.Update | server.js:679-682 | The settings become the merge of the old settings with the body, and still hold every default key. The reply carries them and success. |
| SimulatedResponse.IsCodeRelatedIgnoresCase | server.js:877-879 | Whether a prompt is about code does not depend on letter case. |
| SimulatedResponse.IsCodeRelatedIff | server.js:877-879 | A prompt is about code exactly when "code", "function" or "implement" occurs in its lower-cased text. |
| SimulatedResponse.BodiesDiffer | server.js:829-875 | The code body and the general body differ. |
| SimulatedResponse.UnframeFramed | server.js:881 | The framing by heading and footer is undone by Unframe. |
| SimulatedResponse.FramedMentions | server.js:881 | A framed text contains "# Response from " followed by the model, and contains the platform footer. |
| SimulatedResponse.Response | server.js:828-882 | The response is the chosen body between the heading for its model and the footer. |
| SimulatedResponse.CodeBodyIffCodeRelated | server.js:877-881 | The framed body is the code example exactly when the prompt is about code. |
| SimulatedResponse.ResponseMentions | server.js:881 | The response names the model after "# Response from " and carries the footer. |
| MemoryFiles.EffectiveLimit | server.js:278 | An absent, non-numeric or zero limit gives 20. Any other value is used as given, negative values included. |
| MemoryFiles.EntryTypeOf | server.js:297-299 | The type is code, decisions, agents or context, by the first of "code", "decision", "agent" the name contains. |
| MemoryFiles.StripExtension | server.js:304 | The stripped name is a prefix of the name, strictly shorter for a memory file. |
| MemoryFiles.Preview | server.js:305 | The preview is the first min(300, length) characters. |
| MemoryFiles.StripExtensionSplits | server.js:304 | A memory file's name is its stripped name followed by ".md" or ".json". |
| MemoryFiles.Title | server.js:304 | A title has the stripped name's length. Each dash becomes a space and every other character stays in place, so no dash remains. |
| MemoryFiles.SliceFromStartIsLimit | server.js:293 | `slice(0, n)` with n not negative takes the first n. |
| MemoryFiles.SelectedIsLimit | server.js:285-293 | With a positive limit, the selection is the first limit memory files, newest first. |
| MemoryFiles.SelectedAreNewest | server.js:285-293 | With a positive limit, the selection is the limit newest memory files: no memory file left out is newer than one selected. |
| MemoryFiles.Selected | server.js:285-293 | The selection is newest first, and it holds only .md and .json files of the listing. |
| MemoryFiles.NegativeLimitDropsOldest | server.js:278-293 | A negative limit -k selects all memory files but the k oldest. |
| MemoryFiles.Entries | server.js:295-309 | There is one entry per selected file, in order, each built from that file. |
| MemoryFiles.ToEntry | server.js:297-308 | An entry is identified by the file name and dated by its modification time. Its type is EntryTypeOf of the name and its title is Title of the name; it is typed code exactly when the name mentions code, and its title has no dash. Its content is the preview of the file, and its time text reads back as the file's age. |
| MemoryFiles.PushEntries | server.js:295-309 | The forEach loop pushes exactly those entries. |
| MemoryFiles.RecentEntries | server.js:277-316 | The response's entries are the entries of the selected files. |
| Chat.SenderName | server.js:530 | An empty or absent sender is shown as "You"; any other sender as given. |
| Chat.LastWindow | server.js:522 | This gives the last min(50, n) messages, oldest first. |
| Chat.LastWindowEndsWithLatest | server.js:521-535 | After a send, the history ends with the message just sent. |
| Chat.LastWindowAfterSend | server.js:521-535 | A send appends to the window and drops the oldest message of a full window. |
| Chat.ChatLog.constructor | server.js:519 | The message list starts empty. |
| Chat.ChatLog.History | server.js:521-523 | At most fifty messages are returned, the last ones. |
| Chat.ChatLog.Send | server.js:525-535 | The user's message is appended with its id, sender, avatar, text and time, and returned with success. |
| Seqs.Keep | server.js:727-743 | The filter keeps exactly the elements that pass, and keeps no more than it was given. |
| Seqs.KeepKeep | server.js:733-743 | Two filters in a row are one filter by their conjunction. |
| Seqs.KeepSplit | agent-memory.js:277-290 | What a filter keeps and what its negation keeps add up to the whole. |
| Seqs.KeepDistinctBy | agent-memory.js:277-290 | Deleting rows keeps the primary key unique. |
| Seqs.Limit | agent-memory.js:136 | LIMIT n takes the first n rows; a negative n means no limit. |
| Seqs.JsSlice | server.js:748 | `slice(start, end)` with 0 <= start <= end is the subsequence clipped to the length. |
| Seqs.JsSliceOf | server.js:285-293 | A slice holds only elements of its sequence, and it keeps the sequence sorted if it was. |
| Seqs.Reverse | agent-memory.js:186 | `reverse` puts element length - 1 - i at index i. |
| Seqs.SortBySorted | agent-memory.js:136 | ORDER BY returns a permutation of its rows, in key order. |
| Seqs.LimitOfSortOf | agent-memory.js:136 | The first n rows of an ORDER BY are ordered and are rows of the table. |
| Seqs.LimitOfSortIsTop | agent-memory.js:181-182 | ORDER BY then LIMIT n gives n rows of the pool with the smallest keys: no row left out has a smaller key. |
| AgentMemoryStore.FindConversation | agent-memory.js:127-132 | This finds a conversation with that id, or None exactly when there is none. |
| AgentMemoryStore.FindConversationUnique | agent-memory.js:127-132 | With a unique key, the row found is the only row with that id. |
| AgentMemoryStore.Touched | agent-memory.js:112-115 | The UPDATE applied to every row. |
| AgentMemoryStore.TouchedEffect | agent-memory.js:112-115 | The UPDATE dates the conversation with that id now and changes no other row or column, nor the order. It keeps the keys unique, and is the identity when the id is absent. |
| AgentMemoryStore.ConversationMessages | agent-memory.js:135-137 | The messages returned are messages of that conversation, in ascending created_at order, as many as the limit allows. |
| AgentMemoryStore.ConversationMessagesAreEarliest | agent-memory.js:135-137 | The messages returned are the earliest of the conversation: none left out is older than one returned. |
| AgentMemoryStore.ReverseNewestFirst | agent-memory.js:186 | Reversing a newest-first list gives chronological order. |
| AgentMemoryStore.ContextRows | agent-memory.js:176-190 | The context holds min(n, count) messages of the conversation, in chronological order. |
| AgentMemoryStore.ContextIsLatestInOrder | agent-memory.js:176-190 | The context is a sub-multiset of the conversation's messages. No message of the conversation left out is newer than one returned. |
| AgentMemoryStore.RecentRowsAreNewest | agent-memory.js:156-163 | The conversations listed are the most recently updated ones: none left out is more recent than one listed. |
| AgentMemoryStore.RecentRows | agent-memory.js:156-163 | The conversations listed are rows of the table, ordered by updated_at descending, as many as the limit allows. |
| AgentMemoryStore.Summaries | agent-memory.js:157-160 | Each listed conversation carries the number of messages with its id. |
| AgentMemoryStore.LookupState | agent-memory.js:232-244 | The lookup returns None (null) exactly for an agent never saved. |
| AgentMemoryStore.LookupAfterSave | agent-memory.js:212-248 | After a save, the lookup returns the saved state and context; other agents are unaffected. |
| AgentMemoryStore.SecondSaveReplaces | agent-memory.js:212-248 | A second save of the same agent replaces the first. |
| AgentMemoryStore.TokenTotal | agent-memory.js:257 | SUM(tokens) is NULL exactly when no message has a token count. |
| AgentMemoryStore.TokenTotalIsSum | agent-memory.js:257 | Otherwise it is the sum of the counts present. |
| AgentMemoryStore.StatsOf | agent-memory.js:254-259 | The stats are the table sizes, the token total, and the distinct model count, which is at most the conversation count. |
| AgentMemoryStore.ModelsBound | agent-memory.js:259 | There are no more distinct models than conversations. |
| AgentMemoryStore.Cutoff | agent-memory.js:273 | The cutoff is daysOld days before the current second, the milliseconds rounded down. |
| AgentMemoryStore.CleanupCounts | agent-memory.js:284-289 | Conversations deleted plus conversations kept make the table. The kept ones are exactly those updated at or after the cutoff. |
| AgentMemoryStore.CleanupMessages | agent-memory.js:277-281 | A message survives exactly when its conversation survives. Messages of conversations that do not exist survive. |
| AgentMemoryStore.AgentMemory.constructor | agent-memory.js:11-80 | A store over a new database file has empty tables. |
| AgentMemoryStore.AgentMemory.Open | agent-memory.js:11-80 | A store over an existing database file starts with that file's rows, since the tables are only created when missing; the keys are unique. |
| AgentMemoryStore.AgentMemory.CreateConversation | agent-memory.js:83-97 | On no model, NOT NULL is refused. On a duplicate id, the primary-key conflict is refused. Otherwise one row dated now is appended. The other tables are untouched. |
| AgentMemoryStore.AgentMemory.Touch | agent-memory.js:112-115 | The conversations table becomes the touched table. |
| AgentMemoryStore.AgentMemory.AddMessage | agent-memory.js:100-121 | NOT NULL role, then content, then the messages primary key, are each refused with nothing changed. Otherwise one message is appended and only its conversation's updated_at becomes now. |
| AgentMemoryStore.AgentMemory.GetConversation | agent-memory.js:124-151 | This returns null for an unknown id. Otherwise it returns that conversation and its messages in ascending created_at order, at most limit of them, the limit being 50 when left out. |
| AgentMemoryStore.AgentMemory.GetRecentConversations | agent-memory.js:154-173 | At most limit conversations (10 when left out) are returned, in updated_at descending order, each with its message count. |
| AgentMemoryStore.AgentMemory.GetContext | agent-memory.js:176-190 | The role and content of the latest messages are returned in chronological order, as many as the count (10 when left out) allows. |
| AgentMemoryStore.AgentMemory.SaveAgentState | agent-memory.js:212-227 | NULL state is refused. Otherwise the state stored under the agent id is replaced; the other tables are untouched. |
| AgentMemoryStore.AgentMemory.GetAgentState | agent-memory.js:230-248 | This returns the stored state, or null for an agent never saved. |
| AgentMemoryStore.AgentMemory.GetStats | agent-memory.js:251-268 | total_conversations and total_messages are the table sizes. total_tokens is NULL exactly when no message has a count, and otherwise their sum. unique_models is the distinct model count. |
| AgentMemoryStore.AgentMemory.Cleanup | agent-memory.js:271-294 | The messages of conversations updated before the cutoff (30 days when left out) are deleted, then those conversations. The count deleted is reported; agent state is untouched; the keys stay unique. |
| Reporting.CountStatusAppend | tests/custom-reporting.spec.ts:59-66 | Status counts over a concatenation add up. |
| Reporting.StatusCountsSum | tests/custom-reporting.spec.ts:8 | The three status counts add up to the number of records. |
| Reporting.PassRate | tests/custom-reporting.spec.ts:71 | The pass rate is between 0 and 100. It is positive exactly when a test passed and 100 exactly when all passed. It is NaN (None) before any test. |
| Reporting.TestReporter.constructor | tests/custom-reporting.spec.ts:37-57 | A new reporter has no records, all counters zero, no end time, and the given environment. |
| Reporting.TestReporter.AddTest | tests/custom-reporting.spec.ts:59-66 | The record is appended and the total rises by one. Exactly its status's counter rises by one; the other fields are unchanged; the counters keep agreeing with the records. |
| Reporting.TestReporter.Finalize | tests/custom-reporting.spec.ts:68-72 | This stamps the end time, the elapsed time and the pass rate. The records and counters are unchanged. |
| Reporting.TestReporter.GetReport | tests/custom-reporting.spec.ts:80-82 | In the report, totalTests equals the number of records and passed + failed + skipped, and each counter equals its status count. |
| Reporting.TestReporter.RecordCases | tests/custom-reporting.spec.ts:328-344 | One record per case is appended, in order. There is one pass per completed case and one failure per throwing case; nothing is skipped. |
| Reporting.MetricsFor | tests/custom-reporting.spec.ts:329-343 | A completed case passes with its duration. A throwing case fails with duration 0 and the error's message. |
| Reporting.MetricsOfCounts | tests/custom-reporting.spec.ts:328-344 | The records of the cases count their completions as passes and the rest as failures. |
| Reporting.CompletionsPositive | tests/custom-reporting.spec.ts:352 | Some case completed exactly when the completion count is positive. |
| Reporting.RunSuite | tests/custom-reporting.spec.ts:296-352 | The report shows one test per case, with the pass rate defined once a case ran. It is positive exactly when some case completed. |

## Left out

- AI generation (server.js:81-191): network calls to the Anthropic SDK and to Ollama. Only its simulation fallback is modelled.
- The memory stats, search, command and log endpoints (server.js:196-273, 319-380): shell pipelines and file system reads. The recent-memory listing takes the directory listing as a parameter; reading the files is not modelled.
- The SQLite-backed handlers for agents, tasks and traffic lights (server.js:385-573): driver callbacks. Only the query text and parameters of GET /api/tasks are modelled, besides the in-memory chat handlers (server.js:521-535), which are modelled in Chat.
- The agent reply of the chat (server.js:538-555): a `setTimeout` with `Math.random`.
- The analytics endpoints (server.js:595-657): floating-point totals and averages with rounding.
- The test-key endpoint (server.js:684-710): network calls.
- The start-up banner, `app.listen`, and the timing middleware, which is registered after the routes.
- The export endpoint of the history (server.js:782-790): a constant reply with a time-stamped URL.
- History.ListHistory: page and limit are numbers, not the query strings the handler receives. The string arithmetic this glosses over is under Findings.
  - A negative page such as `?page=-1` is numeric in the source (`slice(-20, -10)`, reported as page -1) but cannot be written as a `nat`. Over the four sample conversations that page is empty either way.
- MemoryFiles.Preview: counts 300 Unicode scalar values, where `substring(0, 300)` counts UTF-16 code units. The two differ for characters outside the Basic Multilingual Plane, such as emoji.
- History.ListHistory: takes one clock reading. The handler reads the clock separately for the date filter, for each `getTimeAgo` and for the stats.
- MemoryFiles.RecentEntries: takes one clock reading for every entry, where `getTimeAgo` reads the clock once per file.
- Reporting.TestReporter.GetReport: returns a copy of the report. The source returns its `report` object itself, so later `addTest` or `finalize` calls show through it, and a caller can change it.
- The `messages: []` field of each sample conversation (server.js:715-719) is not modelled. It is always empty and nothing reads it.
- The constant `stats.totalTokens: '847K'` of the history response (server.js:761) is not modelled.
- Text.Lower: lower-cases the ASCII letters A to Z only. The full Unicode case mapping of `toLowerCase` is not modelled.
- Timestamps as ISO text (`toISOString`) are left as given parameters, or as the millisecond value they render.
- The JSON conversions are not modelled: `JSON.stringify` of metadata, state and context, and `JSON.parse` of them on read. The model stores and returns the text or value as given; key order of objects is not modelled.
- Ids made from `Date.now()` and `Math.random()` are parameters of the model.
- AgentMemoryStore.AgentMemory.CreateConversation: returns the whole inserted row, where the source resolves with id, title, model and metadata only.
- AgentMemoryStore.AgentMemory.AddMessage: takes one clock reading for both the INSERT and the UPDATE, where SQLite reads it twice.
  - The source fires the UPDATE without waiting for it, ignores its error, and resolves before it completes. The model makes the INSERT and the UPDATE one atomic step.
  - The result is the whole inserted row, `createdAt` included, where the source resolves without `createdAt`.
  - The model also does not enforce the foreign key, since the connection never turns foreign keys on.
  - A null conversation id is not modelled.
- AgentMemoryStore.AgentMemory.SaveAgentState: the result carries `updatedAt`, where the source resolves with `agentId`, `state` and `context` only.
- AgentMemoryStore.TokenTotal: the sum is unbounded. SQLite's integer SUM fails with an overflow error past 64-bit signed range; this error path is not modelled.
- AgentMemoryStore.AgentMemory.GetStats: total_cost, a floating-point SUM, is not modelled.
- `searchMessages` (agent-memory.js:193-209): depends on SQLite's LIKE matching rules.
- The `memory_embeddings` table and `close`: nothing modelled reads or writes them.
- The constructor's file path and `init`: opening the file is not modelled. The existing file's rows are the parameters of `AgentMemoryStore.AgentMemory.Open`.
- Rows equal under ORDER BY are assumed to come out in insertion order (the stable sort). SQLite does not promise this order.
- The pass rate is an exact rational, not a floating-point number, and its `toFixed` rendering is not modelled.
- `generateHTML`, `saveReport` and `saveHTMLReport` of the reporter, which render markup and write files.
- The Playwright page actions of the reporting test.

## Findings

| source | as written | input that shows it | evidently intended | confidence | as-written member | corrected member |
|---|---|---|---|---|---|---|
| server.js:746-748 | `start + limit` adds a number to the `limit` query string, which joins their texts, and `slice` reads the result as its end index | `GET /api/history?page=2&limit=1` over the four sample conversations: end index "1" + "1" = 11, so three conversations come back | a page of at most `limit` entries starting at `(page - 1) * limit` | not executed | History.StringLimitOverfillsPage | History.PageSliceWindow |
