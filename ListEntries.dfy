/**
 * The day feed of frontend/js/controllers/list-entries-controller.js: the time
 * entries and moments of today, entries enriched with their task's project, merged
 * into one list sorted newest first with a moment ahead of an entry at the same time.
 */
module ListEntries {
  import opened Common
  import opened Sorting

  /** `{ startMs, endMs }` of `getTodayWindowMs`. */
  datatype Window = Window(startMs: int, endMs: int)

  /**
   * `getTodayWindowMs`: from today's local midnight up to, not including, the next
   * one. Both are given, because `setDate(getDate() + 1)` follows the local calendar
   * and the day is 23 or 25 hours long when daylight saving changes.
   */
  function TodayWindow(midnightMs: int, nextMidnightMs: int): (w: Window)
    ensures forall ms :: InWindow(ms, w) <==> midnightMs <= ms < nextMidnightMs
  {
    Window(midnightMs, nextMidnightMs)
  }

  predicate InWindow(ms: int, w: Window) {
    ms >= w.startMs && ms < w.endMs
  }

  /** A stored time entry, with its start already read as milliseconds. */
  datatype Entry = Entry(id: string, taskId: string, startedAtMs: int)

  /** A stored moment. */
  datatype Moment = Moment(id: string, timestampMs: int)

  /** A task and a project as far as the feed reads them; a missing property is `None`. */
  datatype Task = Task(id: string, projectId: Option<string>, category: Option<string>)
  datatype Project = Project(id: string, name: Option<string>, color: Option<string>)

  function TodayEntries(entries: seq<Entry>, w: Window): (r: seq<Entry>)
    ensures |r| <= |entries|
    ensures forall e :: e in r <==> e in entries && InWindow(e.startedAtMs, w)
  {
    if entries == [] then []
    else
      assert forall e :: e in entries <==> e == entries[0] || e in entries[1..];
      (if InWindow(entries[0].startedAtMs, w) then [entries[0]] else []) + TodayEntries(entries[1..], w)
  }

  /** `TodayEntries` of a list with a known head. */
  lemma TodayEntriesCons(x: Entry, t: seq<Entry>, w: Window)
    ensures TodayEntries([x] + t, w) == (if InWindow(x.startedAtMs, w) then [x] else []) + TodayEntries(t, w)
  {
    assert ([x] + t)[0] == x && ([x] + t)[1..] == t;
  }

  /** Filtering keeps order and multiplicity: it distributes over concatenation. */
  lemma {:induction false} TodayEntriesConcat(a: seq<Entry>, b: seq<Entry>, w: Window)
    ensures TodayEntries(a + b, w) == TodayEntries(a, w) + TodayEntries(b, w)
  {
    if a == [] {
      assert a + b == b;
    } else {
      var t := a[1..];
      var h := if InWindow(a[0].startedAtMs, w) then [a[0]] else [];
      calc {
        TodayEntries(a + b, w);
        { HeadTail(a, b); }
        TodayEntries([a[0]] + (t + b), w);
        { TodayEntriesCons(a[0], t + b, w); }
        h + TodayEntries(t + b, w);
        { TodayEntriesConcat(t, b, w); }
        h + (TodayEntries(t, w) + TodayEntries(b, w));
        { AppendAssoc(h, TodayEntries(t, w), TodayEntries(b, w)); }
        (h + TodayEntries(t, w)) + TodayEntries(b, w);
        { TodayEntriesCons(a[0], t, w); }
        TodayEntries(a, w) + TodayEntries(b, w);
      }
    }
  }

  /** A one-element list keeps its element exactly when it passes the test. */
  lemma TodayEntriesSingleton(x: Entry, w: Window)
    ensures TodayEntries([x], w) == (if InWindow(x.startedAtMs, w) then [x] else [])
  {
    TodayEntriesCons(x, [], w);
    assert [x] + [] == [x];
  }

  function TodayMoments(moments: seq<Moment>, w: Window): (r: seq<Moment>)
    ensures |r| <= |moments|
    ensures forall m :: m in r <==> m in moments && InWindow(m.timestampMs, w)
  {
    if moments == [] then []
    else
      assert forall m :: m in moments <==> m == moments[0] || m in moments[1..];
      (if InWindow(moments[0].timestampMs, w) then [moments[0]] else []) + TodayMoments(moments[1..], w)
  }

  /** `TodayMoments` of a list with a known head. */
  lemma TodayMomentsCons(x: Moment, t: seq<Moment>, w: Window)
    ensures TodayMoments([x] + t, w) == (if InWindow(x.timestampMs, w) then [x] else []) + TodayMoments(t, w)
  {
    assert ([x] + t)[0] == x && ([x] + t)[1..] == t;
  }

  /** Filtering keeps order and multiplicity: it distributes over concatenation. */
  lemma {:induction false} TodayMomentsConcat(a: seq<Moment>, b: seq<Moment>, w: Window)
    ensures TodayMoments(a + b, w) == TodayMoments(a, w) + TodayMoments(b, w)
  {
    if a == [] {
      assert a + b == b;
    } else {
      var t := a[1..];
      var h := if InWindow(a[0].timestampMs, w) then [a[0]] else [];
      calc {
        TodayMoments(a + b, w);
        { HeadTail(a, b); }
        TodayMoments([a[0]] + (t + b), w);
        { TodayMomentsCons(a[0], t + b, w); }
        h + TodayMoments(t + b, w);
        { TodayMomentsConcat(t, b, w); }
        h + (TodayMoments(t, w) + TodayMoments(b, w));
        { AppendAssoc(h, TodayMoments(t, w), TodayMoments(b, w)); }
        (h + TodayMoments(t, w)) + TodayMoments(b, w);
        { TodayMomentsCons(a[0], t, w); }
        TodayMoments(a, w) + TodayMoments(b, w);
      }
    }
  }

  /** A one-element list keeps its element exactly when it passes the test. */
  lemma TodayMomentsSingleton(x: Moment, w: Window)
    ensures TodayMoments([x], w) == (if InWindow(x.timestampMs, w) then [x] else [])
  {
    TodayMomentsCons(x, [], w);
    assert [x] + [] == [x];
  }

  /** The index of the last row whose id is `k`, or -1 when there is none. */
  function LastIndex<T>(rows: seq<T>, id: T -> string, k: string): (i: int)
    ensures -1 <= i < |rows|
    ensures i >= 0 ==> id(rows[i]) == k && forall j :: i < j < |rows| ==> id(rows[j]) != k
    ensures i == -1 ==> forall j :: 0 <= j < |rows| ==> id(rows[j]) != k
  {
    if rows == [] then -1
    else if id(rows[|rows| - 1]) == k then |rows| - 1
    else LastIndex(rows[..|rows| - 1], id, k)
  }

  /**
   * `new Map(rows.map((r) => [r.id, r]))`: every id present in `rows` is a key,
   * mapped to the LAST row carrying it.
   */
  function IndexById<T>(rows: seq<T>, id: T -> string): (r: map<string, T>)
    ensures forall k :: k in r <==> LastIndex(rows, id, k) >= 0
    ensures forall k | k in r :: r[k] == rows[LastIndex(rows, id, k)]
  {
    if rows == [] then map[]
    else
      var init := rows[..|rows| - 1];
      var last := rows[|rows| - 1];
      var m := IndexById(init, id);
      assert forall k :: k != id(last) ==> LastIndex(rows, id, k) == LastIndex(init, id, k);
      assert forall i :: 0 <= i < |init| ==> init[i] == rows[i];
      m[id(last) := last]
  }

  /** `x || null` on an optional string. */
  function OrNull(x: Option<string>): (r: Option<string>)
    ensures r.Some? <==> x.Some? && x.value != ""
    ensures r.Some? ==> r == x
  {
    if x.Some? && x.value != "" then x else None
  }

  /** An entry with the four properties the feed adds to it. */
  datatype EnrichedEntry = EnrichedEntry(
    entry: Entry, category: Option<string>, projectId: Option<string>,
    projectName: Option<string>, projectColor: Option<string>)

  /** The `entriesWithProject` mapping of one entry. */
  function Enrich(e: Entry, taskMap: map<string, Task>, projectMap: map<string, Project>): (r: EnrichedEntry)
    ensures r.entry == e
    ensures e.taskId !in taskMap ==> r.category.None? && r.projectId.None?
    ensures e.taskId in taskMap ==>
      r.category == OrNull(taskMap[e.taskId].category) && r.projectId == OrNull(taskMap[e.taskId].projectId)
    ensures (r.projectName.Some? || r.projectColor.Some?) ==> (
      e.taskId in taskMap && r.projectId.Some? && r.projectId.value in projectMap)
    ensures e.taskId in taskMap && r.projectId.Some? && r.projectId.value in projectMap ==>
      var p := projectMap[r.projectId.value];
      r.projectName == OrNull(p.name) && r.projectColor == OrNull(p.color)
  {
    var task := if e.taskId in taskMap then Some(taskMap[e.taskId]) else None;
    var project :=
      if task.Some? && OrNull(task.value.projectId).Some? && task.value.projectId.value in projectMap
      then Some(projectMap[task.value.projectId.value])
      else None;
    EnrichedEntry(
      e,
      if task.Some? then OrNull(task.value.category) else None,
      if task.Some? then OrNull(task.value.projectId) else None,
      if project.Some? then OrNull(project.value.name) else None,
      if project.Some? then OrNull(project.value.color) else None)
  }

  function EnrichAll(es: seq<Entry>, taskMap: map<string, Task>, projectMap: map<string, Project>): (r: seq<EnrichedEntry>)
    ensures |r| == |es|
    ensures forall i :: 0 <= i < |es| ==> r[i] == Enrich(es[i], taskMap, projectMap)
  {
    seq(|es|, i requires 0 <= i < |es| => Enrich(es[i], taskMap, projectMap))
  }

  /** One row of the feed, tagged with its kind. */
  datatype FeedItem = EntryItem(atMs: int, entry: EnrichedEntry) | MomentItem(atMs: int, moment: Moment)

  /**
   * The comparator as one integer key: times are doubled and a moment gets the odd
   * slot above, so a later time always ranks higher and, at the same time, a moment
   * ranks above an entry.
   */
  function FeedKey(x: FeedItem): int {
    2 * x.atMs + (if x.MomentItem? then 1 else 0)
  }

  /** `[...entries.map(...), ...moments.map(...)]`, entries first, before the sort. */
  function Merge(es: seq<EnrichedEntry>, ms: seq<Moment>): (r: seq<FeedItem>)
    ensures |r| == |es| + |ms|
    ensures forall i :: 0 <= i < |es| ==> r[i] == EntryItem(es[i].entry.startedAtMs, es[i])
    ensures forall i :: 0 <= i < |ms| ==> r[|es| + i] == MomentItem(ms[i].timestampMs, ms[i])
  {
    seq(|es|, i requires 0 <= i < |es| => EntryItem(es[i].entry.startedAtMs, es[i]))
      + seq(|ms|, i requires 0 <= i < |ms| => MomentItem(ms[i].timestampMs, ms[i]))
  }

  /** The `items` that `refresh` renders. */
  function Feed(entries: seq<Entry>, moments: seq<Moment>, tasks: seq<Task>, projects: seq<Project>, midnightMs: int, nextMidnightMs: int): (r: seq<FeedItem>)
    ensures var w := TodayWindow(midnightMs, nextMidnightMs);
      multiset(r) == multiset(Merge(EnrichAll(TodayEntries(entries, w), IndexById(tasks, (t: Task) => t.id),
        IndexById(projects, (p: Project) => p.id)), TodayMoments(moments, w)))
    ensures |r| == |TodayEntries(entries, TodayWindow(midnightMs, nextMidnightMs))| + |TodayMoments(moments, TodayWindow(midnightMs, nextMidnightMs))|
  {
    var w := TodayWindow(midnightMs, nextMidnightMs);
    var taskMap := IndexById(tasks, (t: Task) => t.id);
    var projectMap := IndexById(projects, (p: Project) => p.id);
    SortDesc(Merge(EnrichAll(TodayEntries(entries, w), taskMap, projectMap), TodayMoments(moments, w)), FeedKey)
  }

  /** The key order is the comparator's order: by time descending, then moments first. */
  lemma FeedKeyOrder(a: FeedItem, b: FeedItem)
    ensures FeedKey(a) >= FeedKey(b) <==> a.atMs > b.atMs || (a.atMs == b.atMs && (a.MomentItem? || b.EntryItem?))
  {
  }

  /**
   * The feed is newest first, and at equal times no entry stands before a moment;
   * every row lies in today's window.
   */
  lemma FeedSorted(entries: seq<Entry>, moments: seq<Moment>, tasks: seq<Task>, projects: seq<Project>, midnightMs: int, nextMidnightMs: int)
    ensures var r := Feed(entries, moments, tasks, projects, midnightMs, nextMidnightMs);
      (forall i, j :: 0 <= i < j < |r| ==> r[i].atMs >= r[j].atMs)
      && (forall i, j :: 0 <= i < j < |r| && r[i].atMs == r[j].atMs ==> !(r[i].EntryItem? && r[j].MomentItem?))
  {
    var w := TodayWindow(midnightMs, nextMidnightMs);
    var merged := Merge(EnrichAll(TodayEntries(entries, w), IndexById(tasks, (t: Task) => t.id),
      IndexById(projects, (p: Project) => p.id)), TodayMoments(moments, w));
    SortDescSorted(merged, FeedKey);
    var r := Feed(entries, moments, tasks, projects, midnightMs, nextMidnightMs);
    forall i, j | 0 <= i < j < |r| ensures r[i].atMs >= r[j].atMs {
      FeedKeyOrder(r[i], r[j]);
    }
    forall i, j | 0 <= i < j < |r| && r[i].atMs == r[j].atMs ensures !(r[i].EntryItem? && r[j].MomentItem?) {
      FeedKeyOrder(r[i], r[j]);
    }
  }

  /** Every row of the feed is an entry or a moment of today, and its time is in today's window. */
  lemma FeedInWindow(entries: seq<Entry>, moments: seq<Moment>, tasks: seq<Task>, projects: seq<Project>, midnightMs: int, nextMidnightMs: int)
    ensures var r := Feed(entries, moments, tasks, projects, midnightMs, nextMidnightMs);
      forall x :: x in r ==> (InWindow(x.atMs, TodayWindow(midnightMs, nextMidnightMs))
        && (x.EntryItem? ==> x.entry.entry in entries && x.atMs == x.entry.entry.startedAtMs)
        && (x.MomentItem? ==> x.moment in moments && x.atMs == x.moment.timestampMs))
  {
    var w := TodayWindow(midnightMs, nextMidnightMs);
    var es := TodayEntries(entries, w);
    var en := EnrichAll(es, IndexById(tasks, (t: Task) => t.id), IndexById(projects, (p: Project) => p.id));
    var ms := TodayMoments(moments, w);
    var merged := Merge(en, ms);
    var r := Feed(entries, moments, tasks, projects, midnightMs, nextMidnightMs);
    forall x | x in r
      ensures InWindow(x.atMs, w)
      ensures x.EntryItem? ==> x.entry.entry in entries && x.atMs == x.entry.entry.startedAtMs
      ensures x.MomentItem? ==> x.moment in moments && x.atMs == x.moment.timestampMs
    {
      assert x in multiset(r);
      assert x in multiset(merged);
      var k :| 0 <= k < |merged| && merged[k] == x;
      if k < |en| {
        assert en[k].entry == es[k];
        assert es[k] in es;
      } else {
        assert ms[k - |en|] in ms;
      }
    }
  }

  /** Rows of the same kind at the same time keep their stored order. */
  lemma FeedStable(entries: seq<Entry>, moments: seq<Moment>, tasks: seq<Task>, projects: seq<Project>, midnightMs: int, nextMidnightMs: int, k: int)
    ensures var w := TodayWindow(midnightMs, nextMidnightMs);
      WithKey(Feed(entries, moments, tasks, projects, midnightMs, nextMidnightMs), FeedKey, k)
        == WithKey(Merge(EnrichAll(TodayEntries(entries, w), IndexById(tasks, (t: Task) => t.id),
             IndexById(projects, (p: Project) => p.id)), TodayMoments(moments, w)), FeedKey, k)
  {
    var w := TodayWindow(midnightMs, nextMidnightMs);
    SortDescStable(Merge(EnrichAll(TodayEntries(entries, w), IndexById(tasks, (t: Task) => t.id),
      IndexById(projects, (p: Project) => p.id)), TodayMoments(moments, w)), FeedKey, k);
  }
}
