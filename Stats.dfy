/**
 * The statistics page of frontend/js/controllers/stats-controller.js: today's
 * tracked time grouped by normalised task title, sorted by time spent, and the
 * prime counts summed over all prime items.
 */
module Stats {
  import opened Common
  import opened Sorting
  import opened TimeUtils
  import opened TaskGroups
  import FrontendPrimeItem
  import RepetitionLog

  /** A stored timestamp: its text (for truthiness) and what `new Date(text).getTime()` reads (`None` for NaN). */
  datatype Stamp = Stamp(text: string, ms: Option<int>)

  /** A JavaScript number stored as a duration: finite, or `NaN`/`Infinity`/not a number at all. */
  datatype JsNumber = Finite(n: int) | NonFinite

  /** A time entry as the API or local storage returns it, in either key spelling. */
  datatype StatsEntry = StatsEntry(
    durationSeconds: Js<JsNumber>, duration_seconds: Js<JsNumber>,
    startedAt: Js<Stamp>, started_at: Js<Stamp>, endedAt: Js<Stamp>, ended_at: Js<Stamp>,
    taskTitle: Js<string>, task_title: Js<string>)

  predicate TruthyStamp(s: Js<Stamp>) {
    s.Val? && s.value.text != ""
  }

  /** `new Date(entry.startedAt ?? entry.started_at).getTime()`: `new Date(null)` is the epoch, `new Date(undefined)` NaN. */
  function StartMs(e: StatsEntry): (r: Option<int>)
    ensures e.startedAt.Val? ==> r == e.startedAt.value.ms
    ensures !e.startedAt.Val? && e.started_at.Null? ==> r == Some(0)
    ensures !e.startedAt.Val? && e.started_at.Undefined? ==> r.None?
  {
    match Coalesce(e.startedAt, e.started_at)
    case Undefined => None
    case Null => Some(0)
    case Val(s) => s.ms
  }

  /** `allEntries.filter(...)`: the entries whose start falls in `[startMs, endMs)`. */
  function TodayEntries(es: seq<StatsEntry>, startMs: int, endMs: int): (r: seq<StatsEntry>)
    ensures |r| <= |es|
    ensures forall e :: e in r <==> e in es && StartMs(e).Some? && startMs <= StartMs(e).value < endMs
  {
    if es == [] then []
    else
      assert forall e :: e in es <==> e == es[0] || e in es[1..];
      var keep := StartMs(es[0]).Some? && startMs <= StartMs(es[0]).value < endMs;
      (if keep then [es[0]] else []) + TodayEntries(es[1..], startMs, endMs)
  }

  /** `TodayEntries` of a list with a known head. */
  lemma TodayEntriesCons(x: StatsEntry, t: seq<StatsEntry>, startMs: int, endMs: int)
    ensures TodayEntries([x] + t, startMs, endMs) == (if StartMs(x).Some? && startMs <= StartMs(x).value < endMs then [x] else []) + TodayEntries(t, startMs, endMs)
  {
    assert ([x] + t)[0] == x && ([x] + t)[1..] == t;
  }

  /** Filtering keeps order and multiplicity: it distributes over concatenation. */
  lemma {:induction false} TodayEntriesConcat(a: seq<StatsEntry>, b: seq<StatsEntry>, startMs: int, endMs: int)
    ensures TodayEntries(a + b, startMs, endMs) == TodayEntries(a, startMs, endMs) + TodayEntries(b, startMs, endMs)
  {
    if a == [] {
      assert a + b == b;
    } else {
      var t := a[1..];
      var h := if StartMs(a[0]).Some? && startMs <= StartMs(a[0]).value < endMs then [a[0]] else [];
      calc {
        TodayEntries(a + b, startMs, endMs);
        { HeadTail(a, b); }
        TodayEntries([a[0]] + (t + b), startMs, endMs);
        { TodayEntriesCons(a[0], t + b, startMs, endMs); }
        h + TodayEntries(t + b, startMs, endMs);
        { TodayEntriesConcat(t, b, startMs, endMs); }
        h + (TodayEntries(t, startMs, endMs) + TodayEntries(b, startMs, endMs));
        { AppendAssoc(h, TodayEntries(t, startMs, endMs), TodayEntries(b, startMs, endMs)); }
        (h + TodayEntries(t, startMs, endMs)) + TodayEntries(b, startMs, endMs);
        { TodayEntriesCons(a[0], t, startMs, endMs); }
        TodayEntries(a, startMs, endMs) + TodayEntries(b, startMs, endMs);
      }
    }
  }

  /** A one-element list keeps its element exactly when it passes the test. */
  lemma TodayEntriesSingleton(x: StatsEntry, startMs: int, endMs: int)
    ensures TodayEntries([x], startMs, endMs) == (if StartMs(x).Some? && startMs <= StartMs(x).value < endMs then [x] else [])
  {
    TodayEntriesCons(x, [], startMs, endMs);
    assert [x] + [] == [x];
  }

  /**
   * `Math.round(ms / 1000)` computed on integers: adding half a second and flooring.
   * The quotient of an integer by 1000 is a half exactly when the true value is, so
   * floating point does not change the result.
   */
  function RoundedSeconds(ms: int): (r: int)
    ensures r * 1000 - 500 <= ms < r * 1000 + 500
  {
    (ms + 500) / 1000
  }

  /** The integer form agrees with `Math.round` on the exact quotient. */
  lemma RoundedSecondsIsJsRound(ms: int)
    ensures RoundedSeconds(ms) == JsRound(ms as real / 1000.0)
  {
    var r := RoundedSeconds(ms);
    var x := ms as real / 1000.0;
    assert (r * 1000 - 500) as real <= ms as real < (r * 1000 + 500) as real;
    assert r as real <= x + 0.5 < r as real + 1.0;
  }

  /**
   * `computeDurationSeconds(entry)`: a finite stored duration as it is (even negative);
   * otherwise, when both ends are truthy and readable, the rounded difference in
   * seconds if it is positive; otherwise 0.
   */
  function ComputeDurationSeconds(e: StatsEntry): (r: int)
    ensures var d := Coalesce(e.durationSeconds, e.duration_seconds);
      (d.Val? && d.value.Finite? ==> r == d.value.n)
      && (!(d.Val? && d.value.Finite?) ==> r >= 0)
    ensures var d := Coalesce(e.durationSeconds, e.duration_seconds);
      var s := Coalesce(e.startedAt, e.started_at);
      var f := Coalesce(e.endedAt, e.ended_at);
      !(d.Val? && d.value.Finite?) && r != 0 ==> (
        TruthyStamp(s) && TruthyStamp(f) && s.value.ms.Some? && f.value.ms.Some?
        && r == RoundedSeconds(f.value.ms.value - s.value.ms.value))
    ensures var d := Coalesce(e.durationSeconds, e.duration_seconds);
      var s := Coalesce(e.startedAt, e.started_at);
      var f := Coalesce(e.endedAt, e.ended_at);
      !(d.Val? && d.value.Finite?) && TruthyStamp(s) && TruthyStamp(f) && s.value.ms.Some? && f.value.ms.Some?
        && f.value.ms.value - s.value.ms.value >= 500 ==>
        r > 0
  {
    var d := Coalesce(e.durationSeconds, e.duration_seconds);
    if d.Val? && d.value.Finite? then d.value.n
    else
      var s := Coalesce(e.startedAt, e.started_at);
      var f := Coalesce(e.endedAt, e.ended_at);
      if TruthyStamp(s) && TruthyStamp(f) then
        if s.value.ms.Some? && f.value.ms.Some? then
          var diff := RoundedSeconds(f.value.ms.value - s.value.ms.value);
          if diff > 0 then diff else 0
        else 0
      else 0
  }

  const UntitledTask := "Untitled Task"
  const UntitledKey := "untitled task"

  /** `(entry.taskTitle ?? entry.task_title ?? "Untitled Task").trim() || "Untitled Task"` */
  function RawTitle(e: StatsEntry): (r: string)
    ensures r != ""
  {
    var title := Coalesce(e.taskTitle, e.task_title);
    // the fallback is already trimmed, so only a stored title needs trimming
    var t := if title.Val? then Trim(title.value) else UntitledTask;
    if t == "" then UntitledTask else t
  }

  /**
   * The raw title is trimmed; it is the trimmed stored title, or the fallback when
   * that is missing or blank (the fallback needs no trimming).
   */
  lemma RawTitleTrimmed(e: StatsEntry)
    ensures Trim(RawTitle(e)) == RawTitle(e)
    ensures var t := Coalesce(e.taskTitle, e.task_title);
      RawTitle(e) == (if !t.Val? || AllWhitespace(t.value) then UntitledTask else Trim(t.value))
    ensures RawTitle(e) == (var t := Trim(OrElse(Coalesce(e.taskTitle, e.task_title), UntitledTask));
      if t == "" then UntitledTask else t)
  {
    var t := Coalesce(e.taskTitle, e.task_title);
    TrimOfTrimmed(UntitledTask);
    if t.Val? {
      TrimIdempotent(t.value);
      TrimEmptyIffBlank(t.value);
    }
  }

  /** `normalizeTitle(title)`: `(title ?? "").trim().toLowerCase()` */
  function NormalizeTitle(title: Js<string>): (r: string)
    ensures Trim(r) == r && ToLower(r) == r
    ensures r == "" <==> AllWhitespace(OrElse(title, ""))
  {
    TrimEmptyIffBlank(OrElse(title, ""));
    NormalizeCategory(OrElse(title, ""))
  }

  /** `normalizeTitle(rawTitle) || "untitled task"` */
  function GroupKey(rawTitle: string): (r: string)
    ensures r != "" && Trim(r) == r && ToLower(r) == r
  {
    var n := NormalizeTitle(Val(rawTitle));
    if n == "" then UntitledKey
    else n
  }

  /**
   * Entries group by their normalised stored title; a missing or blank title
   * falls into the "untitled task" group.
   */
  lemma GroupKeyOfEntry(e: StatsEntry)
    ensures var t := Coalesce(e.taskTitle, e.task_title);
      (!t.Val? || AllWhitespace(t.value) ==> GroupKey(RawTitle(e)) == UntitledKey)
      && (t.Val? && !AllWhitespace(t.value) ==> GroupKey(RawTitle(e)) == NormalizeTitle(t))
  {
    var t := Coalesce(e.taskTitle, e.task_title);
    RawTitleTrimmed(e);
    if !t.Val? || AllWhitespace(t.value) {
      assert RawTitle(e) == UntitledTask;
      TrimOfTrimmed(UntitledTask);
      assert ToLower(UntitledTask) == UntitledKey;
    } else {
      TrimIdempotent(t.value);
      TrimEmptyIffBlank(t.value);
      assert RawTitle(e) == Trim(t.value);
    }
  }

  /** What the loop body computes from one entry before it touches the groups. */
  function ContributionOf(e: StatsEntry): (c: Contribution)
    ensures c.seconds == ComputeDurationSeconds(e) && c.title == RawTitle(e) && c.key == GroupKey(c.title)
  {
    var rawTitle := RawTitle(e);
    Contribution(ComputeDurationSeconds(e), rawTitle, GroupKey(rawTitle))
  }

  function Contributions(es: seq<StatsEntry>): (cs: seq<Contribution>)
    ensures |cs| == |es|
    ensures forall i :: 0 <= i < |es| ==> cs[i] == ContributionOf(es[i])
  {
    seq(|es|, i requires 0 <= i < |es| => ContributionOf(es[i]))
  }

  /** The loop of `refresh` over today's entries. */
  method GroupByTask(entries: seq<StatsEntry>) returns (r: Tally)
    ensures r == TallyOf(Contributions(entries))
  {
    r := Accumulate(Contributions(entries));
  }

  function GroupSeconds(g: Group): int {
    g.totalSeconds
  }

  /** `Array.from(groups.values()).sort((a, b) => b.totalSeconds - a.totalSeconds)` */
  function ByTask(gs: seq<Group>): (r: seq<Group>)
    ensures multiset(r) == multiset(gs)
  {
    SortDesc(gs, GroupSeconds)
  }

  /** `byTask` is ordered by time spent, most first, and groups with equal time keep their first-seen order. */
  lemma ByTaskOrdered(gs: seq<Group>, t: int)
    ensures forall i, j :: 0 <= i < j < |ByTask(gs)| ==> ByTask(gs)[i].totalSeconds >= ByTask(gs)[j].totalSeconds
    ensures WithKey(ByTask(gs), GroupSeconds, t) == WithKey(gs, GroupSeconds, t)
  {
    SortDescSorted(gs, GroupSeconds);
    SortDescStable(gs, GroupSeconds, t);
  }

  /** Groups with the same time stand in `byTask` in the order their keys were first counted. */
  lemma ByTaskTiesFirstSeen(entries: seq<StatsEntry>, t: int)
    ensures var cs := Contributions(entries);
      var b := WithKey(ByTask(GroupsOf(cs, |cs|)), GroupSeconds, t);
      forall i, j :: 0 <= i < j < |b| ==> FirstCounted(cs, |cs|, b[i].key) < FirstCounted(cs, |cs|, b[j].key)
  {
    var cs := Contributions(entries);
    var gs := GroupsOf(cs, |cs|);
    ByTaskOrdered(gs, t);
    GroupsInFirstSeenOrder(cs, |cs|);
    var rank := (g: Group) => FirstCounted(cs, |cs|, g.key);
    assert RankIncreasing(gs, rank);
    WithKeyKeepsRankOrder(gs, GroupSeconds, t, rank);
  }

  // ---------------------------------------------------------------------
  // Prime totals

  /** The local boundaries the count getters read: today, yesterday, this and last week's Sunday. */
  datatype Boundaries = Boundaries(yesterdayStart: int, todayStart: int, lastWeekStart: int, weekStart: int)

  /** The five sums the page shows. */
  datatype PrimeTotals = PrimeTotals(total: int, today: int, yesterday: int, week: int, lastWeek: int)

  /** The five sums over `items` (the specification of the loop). */
  function SumPrimes(items: seq<FrontendPrimeItem.PrimeItem>, b: Boundaries): PrimeTotals
    reads items
  {
    if items == [] then PrimeTotals(0, 0, 0, 0, 0)
    else
      var s := SumPrimes(items[..|items| - 1], b);
      var p := items[|items| - 1];
      PrimeTotals(
        s.total + p.GetTotalCount(), s.today + p.GetTodayCount(b.todayStart),
        s.yesterday + p.GetYesterdayCount(b.yesterdayStart, b.todayStart),
        s.week + p.GetThisWeekCount(b.weekStart), s.lastWeek + p.GetLastWeekCount(b.lastWeekStart, b.weekStart))
  }

  /** The prime loop of `refresh`. */
  method SumPrimeCounts(items: seq<FrontendPrimeItem.PrimeItem>, b: Boundaries) returns (t: PrimeTotals)
    ensures t == SumPrimes(items, b)
  {
    var totalPrimes, todayPrimes, yesterdayPrimes, weekPrimes, lastWeekPrimes := 0, 0, 0, 0, 0;
    var i := 0;
    while i < |items|
      invariant 0 <= i <= |items|
      invariant PrimeTotals(totalPrimes, todayPrimes, yesterdayPrimes, weekPrimes, lastWeekPrimes)
             == SumPrimes(items[..i], b)
    {
      var item := items[i];
      assert items[..i + 1][..i] == items[..i];
      totalPrimes := totalPrimes + item.GetTotalCount();
      todayPrimes := todayPrimes + item.GetTodayCount(b.todayStart);
      yesterdayPrimes := yesterdayPrimes + item.GetYesterdayCount(b.yesterdayStart, b.todayStart);
      weekPrimes := weekPrimes + item.GetThisWeekCount(b.weekStart);
      lastWeekPrimes := lastWeekPrimes + item.GetLastWeekCount(b.lastWeekStart, b.weekStart);
      i := i + 1;
    }
    assert items[..i] == items;
    t := PrimeTotals(totalPrimes, todayPrimes, yesterdayPrimes, weekPrimes, lastWeekPrimes);
  }

  /**
   * Without server-supplied counts, today's sum never exceeds this week's, and
   * yesterday plus today is at most the total.
   */
  lemma {:induction false} PrimeSumsNest(items: seq<FrontendPrimeItem.PrimeItem>, b: Boundaries)
    requires forall p | p in items :: p.todayCount.None? && p.thisWeekCount.None? && p.totalCount.None?
    requires b.yesterdayStart <= b.todayStart && b.weekStart <= b.todayStart
    ensures var s := SumPrimes(items, b); s.today <= s.week && s.yesterday + s.today <= s.total
  {
    if items != [] {
      var p := items[|items| - 1];
      assert forall q | q in items[..|items| - 1] :: q in items;
      PrimeSumsNest(items[..|items| - 1], b);
      FrontendPrimeItem.TodayNotAboveWeek(p, b.todayStart, b.weekStart);
      FrontendPrimeItem.YesterdayThenToday(p, b.yesterdayStart, b.todayStart);
      assert RepetitionLog.CountSince(p.primeTimestamps, b.yesterdayStart) <= |p.primeTimestamps|;
    }
  }

  // ---------------------------------------------------------------------
  // The page

  /** What `refresh` hands to the view (the review totals are not part of this model). */
  datatype StatsSummary = StatsSummary(totalSeconds: int, entryCount: nat, byTask: seq<Group>, primes: PrimeTotals)

  /** `refresh()`, with today's `[startMs, endMs)` window and the count boundaries given. */
  method Refresh(allEntries: seq<StatsEntry>, startMs: int, endMs: int,
                 primeItems: seq<FrontendPrimeItem.PrimeItem>, b: Boundaries) returns (s: StatsSummary)
    ensures var entries := TodayEntries(allEntries, startMs, endMs);
      s.entryCount == |entries|
      && s.totalSeconds == TotalOf(Contributions(entries), |entries|)
      && s.byTask == ByTask(GroupsOf(Contributions(entries), |entries|))
    ensures s.primes == SumPrimes(primeItems, b)
  {
    var entries := TodayEntries(allEntries, startMs, endMs);
    var tally := GroupByTask(entries);
    var primes := SumPrimeCounts(primeItems, b);
    s := StatsSummary(tally.total, |entries|, ByTask(tally.groups), primes);
  }

  /** The page's total is the sum of the listed per-task totals. */
  lemma SummaryTotalIsSumOfTasks(allEntries: seq<StatsEntry>, startMs: int, endMs: int)
    ensures var entries := TodayEntries(allEntries, startMs, endMs);
      var gs := GroupsOf(Contributions(entries), |entries|);
      SumTotals(ByTask(gs)) == SumTotals(gs) == TotalOf(Contributions(entries), |entries|)
  {
    var entries := TodayEntries(allEntries, startMs, endMs);
    var cs := Contributions(entries);
    var gs := GroupsOf(cs, |entries|);
    GroupSumIsTotal(cs, |entries|);
    SumTotalsOfPermutation(ByTask(gs), gs);
  }
}
