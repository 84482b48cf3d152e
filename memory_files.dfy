/**
 * GET /api/memory/recent in server.js: the newest memory files, each turned
 * into an entry with a type guessed from its name, a title derived from its
 * name and the start of its content. The directory listing, with each
 * file's modification time and content, is the parameter `files`; the clock
 * reading is the parameter nowMs.
 */
module MemoryFiles {
  import opened Wrappers
  import opened Text
  import opened Seqs
  import TimeAgo

  /** A file of the memory directory as the handler sees it. */
  datatype MemoryFile = MemoryFile(name: string, mtimeMs: int, content: string)

  datatype EntryType = Code | Decisions | Agents | Context

  /** One entry of the response; the timestamp is the modification time in milliseconds. */
  datatype MemoryEntry = MemoryEntry(
    id: string,
    entryType: EntryType,
    title: string,
    content: string,
    timestampMs: int,
    timeAgo: string)

  /** The number of characters of content an entry carries. */
  const PreviewLength := 300

  /** The entry count when the limit parameter is absent, not a number or zero. */
  const DefaultLimit := 20

  /**
   * `parseInt(req.query.limit) || 20`: limitParam is the result of parseInt,
   * None standing for NaN. NaN and 0 are falsy and give the default.
   */
  function EffectiveLimit(limitParam: Option<int>): (n: int)
    ensures limitParam.None? ==> n == DefaultLimit
    ensures limitParam.Some? && limitParam.value == 0 ==> n == DefaultLimit
    ensures limitParam.Some? && limitParam.value != 0 ==> n == limitParam.value
    ensures n != 0
  {
    match limitParam
    case None => DefaultLimit
    case Some(v) => if v == 0 then DefaultLimit else v
  }

  /** Only Markdown and JSON files are memory entries. */
  predicate IsMemoryFile(name: string) {
    EndsWith(name, ".md") || EndsWith(name, ".json")
  }

  function MemoryFileFilter(): MemoryFile -> bool {
    (f: MemoryFile) => IsMemoryFile(f.name)
  }

  /** The type of an entry: the first of "code", "decision", "agent" its name mentions. */
  function EntryTypeOf(name: string): (t: EntryType)
    ensures t == Code <==> Contains(name, "code")
    ensures t == Decisions <==> !Contains(name, "code") && Contains(name, "decision")
    ensures t == Agents <==> !Contains(name, "code") && !Contains(name, "decision") && Contains(name, "agent")
    ensures t == Context <==> !Contains(name, "code") && !Contains(name, "decision") && !Contains(name, "agent")
  {
    if Contains(name, "code") then Code
    else if Contains(name, "decision") then Decisions
    else if Contains(name, "agent") then Agents
    else Context
  }

  /** The name without a final ".md" or ".json" (the replace of /\.(md|json)$/). */
  function StripExtension(name: string): (r: string)
    ensures |r| <= |name| && r == name[..|r|]
    ensures IsMemoryFile(name) ==> |r| < |name|
  {
    if EndsWith(name, ".md") then name[..|name| - 3]
    else if EndsWith(name, ".json") then name[..|name| - 5]
    else name
  }

  /**
   * The title of an entry: the name without its extension, dashes turned into
   * spaces. It has no dash, and keeps every other character of the stripped
   * name in place.
   */
  function Title(name: string): (t: string)
    ensures '-' !in t
    ensures |t| == |StripExtension(name)|
    ensures forall i :: 0 <= i < |t| && StripExtension(name)[i] != '-' ==> t[i] == StripExtension(name)[i]
    ensures forall i :: 0 <= i < |t| && StripExtension(name)[i] == '-' ==> t[i] == ' '
  {
    ReplaceChar(StripExtension(name), '-', ' ')
  }

  /** `content.substring(0, 300)`. */
  function Preview(content: string): (p: string)
    ensures |p| == Min(PreviewLength, |content|)
    ensures p == content[..|p|]
  {
    if |content| <= PreviewLength then content else content[..PreviewLength]
  }

  /** Sorting by this key, smallest first, puts the newest file first. */
  function NewestFirst(): MemoryFile -> int {
    (f: MemoryFile) => 0 - f.mtimeMs
  }

  /**
   * The files the handler reports on: memory files, newest first, cut by
   * `slice(0, limit)`. They are memory files of the listing, newest first.
   */
  function Selected(files: seq<MemoryFile>, limitParam: Option<int>): (r: seq<MemoryFile>)
    ensures SortedBy(r, NewestFirst())
    ensures forall f :: f in r ==> f in files && IsMemoryFile(f.name)
  {
    var pool := Keep(files, MemoryFileFilter());
    SliceOfSortOf(pool, 0, EffectiveLimit(limitParam), NewestFirst());
    JsSlice(SortBy(pool, NewestFirst()), 0, EffectiveLimit(limitParam))
  }

  /** The entry for one file: named by the file, typed and titled from the name, dated by its modification time. */
  function ToEntry(f: MemoryFile, nowMs: int): (e: MemoryEntry)
    ensures e.id == f.name && e.timestampMs == f.mtimeMs
    ensures e.entryType == EntryTypeOf(f.name) && e.title == Title(f.name)
    ensures e.entryType == Code <==> Contains(f.name, "code")
    ensures '-' !in e.title
    ensures e.content == f.content[..Min(PreviewLength, |f.content|)]
    ensures TimeAgo.ParseAgo(e.timeAgo) == Some(TimeAgo.Bucket(TimeAgo.ElapsedSeconds(nowMs, f.mtimeMs)))
  {
    MemoryEntry(f.name, EntryTypeOf(f.name), Title(f.name), Preview(f.content), f.mtimeMs,
      TimeAgo.TimeAgo(nowMs, f.mtimeMs))
  }

  /** One entry per file, in the order of the files. */
  function Entries(chosen: seq<MemoryFile>, nowMs: int): (r: seq<MemoryEntry>)
    ensures |r| == |chosen|
    ensures forall i :: 0 <= i < |chosen| ==> r[i] == ToEntry(chosen[i], nowMs)
  {
    MapSeq(chosen, EntryOf(nowMs))
  }

  function EntryOf(nowMs: int): MemoryFile -> MemoryEntry {
    (f: MemoryFile) => ToEntry(f, nowMs)
  }

  /** The forEach over the selected files, pushing one entry per file. */
  method PushEntries(chosen: seq<MemoryFile>, nowMs: int) returns (entries: seq<MemoryEntry>)
    ensures entries == Entries(chosen, nowMs)
  {
    entries := [];
    var i := 0;
    while i < |chosen|
      invariant 0 <= i <= |chosen|
      invariant entries == Entries(chosen[..i], nowMs)
    {
      assert chosen[..i + 1][..i] == chosen[..i];
      entries := entries + [ToEntry(chosen[i], nowMs)];
      i := i + 1;
    }
    assert chosen[..i] == chosen;
  }

  /** GET /api/memory/recent over a directory listing. */
  method RecentEntries(files: seq<MemoryFile>, limitParam: Option<int>, nowMs: int)
    returns (entries: seq<MemoryEntry>)
    ensures entries == Entries(Selected(files, limitParam), nowMs)
  {
    var chosen := Selected(files, limitParam);
    entries := PushEntries(chosen, nowMs);
  }

  // ---------------------------------------------------------------- properties

  /** A memory file's name is its stripped name followed by its extension. */
  lemma StripExtensionSplits(name: string)
    requires IsMemoryFile(name)
    ensures StripExtension(name) + ".md" == name || StripExtension(name) + ".json" == name
  {
    if EndsWith(name, ".md") {
      assert name == name[..|name| - 3] + name[|name| - 3..];
    } else {
      assert name == name[..|name| - 5] + name[|name| - 5..];
    }
  }

  /** `slice(0, n)` with n not negative is SQL-like LIMIT n. */
  lemma SliceFromStartIsLimit<T>(s: seq<T>, n: int)
    requires n >= 0
    ensures JsSlice(s, 0, n) == Limit(s, n)
  {
  }

  /** With a positive limit the selection is the first `limit` memory files, newest first. */
  lemma SelectedIsLimit(files: seq<MemoryFile>, limitParam: Option<int>)
    requires EffectiveLimit(limitParam) > 0
    ensures Selected(files, limitParam)
         == Limit(SortBy(Keep(files, MemoryFileFilter()), NewestFirst()), EffectiveLimit(limitParam))
  {
    SliceFromStartIsLimit(SortBy(Keep(files, MemoryFileFilter()), NewestFirst()), EffectiveLimit(limitParam));
  }

  /**
   * With a positive limit the handler reports the newest memory files: as
   * many as the limit allows, and no memory file left out is newer than one
   * reported.
   */
  lemma SelectedAreNewest(files: seq<MemoryFile>, limitParam: Option<int>)
    requires EffectiveLimit(limitParam) > 0
    ensures TopBy(Selected(files, limitParam), Keep(files, MemoryFileFilter()), EffectiveLimit(limitParam), NewestFirst())
  {
    SelectedIsLimit(files, limitParam);
    LimitOfSortIsTop(Keep(files, MemoryFileFilter()), EffectiveLimit(limitParam), NewestFirst());
  }

  /**
   * A negative limit, as `slice(0, -k)` does, reports all memory files but the
   * k oldest.
   */
  lemma NegativeLimitDropsOldest(files: seq<MemoryFile>, k: int)
    requires k > 0
    ensures var sorted := SortBy(Keep(files, MemoryFileFilter()), NewestFirst());
      Selected(files, Some(0 - k)) == if k >= |sorted| then [] else sorted[..|sorted| - k]
    ensures |SortBy(Keep(files, MemoryFileFilter()), NewestFirst())| == |Keep(files, MemoryFileFilter())|
  {
    SortBySorted(Keep(files, MemoryFileFilter()), NewestFirst());
  }
}
