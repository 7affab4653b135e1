/**
 * The `PrimeItem` domain class of the frontend: a topic primed before study,
 * with its append-only log of priming timestamps (ms) and optional counts the
 * server computed, which take precedence over counting the log.
 */
module FrontendPrimeItem {
  import opened Common
  import opened RepetitionLog

  /** The object passed to the constructor; a missing property is `Undefined`. */
  datatype PrimeItemData = PrimeItemData(
    id: Js<string>, title: Js<string>, description: Js<string>, category: Js<string>,
    primeTimestamps: Js<seq<int>>,
    totalCount: Js<int>, todayCount: Js<int>, thisWeekCount: Js<int>, thisMonthCount: Js<int>,
    firstPrimedAt: Js<string>, lastPrimedAt: Js<string>,
    archived: Js<bool>, createdAt: Js<string>)

  /** The fields of a constructed item. */
  datatype PrimeItemFields = PrimeItemFields(
    id: string, title: string, description: string, category: string,
    primeTimestamps: seq<int>,
    totalCount: Option<int>, todayCount: Option<int>, thisWeekCount: Option<int>, thisMonthCount: Option<int>,
    firstPrimedAt: Option<string>, lastPrimedAt: Option<string>,
    archived: Option<bool>, createdAt: string)

  /** What `toJSON` writes: the cached counts and first/last values are not part of it. */
  datatype PrimeItemJson = PrimeItemJson(
    id: string, title: string, description: string, category: string,
    primeTimestamps: seq<int>, archived: Option<bool>, createdAt: string)

  /**
   * The constructor: defaults apply to `undefined` properties only, so a `null`
   * title, description, category or timestamp list throws a TypeError (as does a
   * missing title); `id` falls back to `freshId` and `createdAt` to `nowIso`.
   */
  function Construct(data: PrimeItemData, freshId: string, nowIso: string): (r: Result<PrimeItemFields>)
    ensures r.Ok? <==> data.title.Val? && !data.description.Null? && !data.category.Null? && !data.primeTimestamps.Null?
    ensures r.Ok? ==> var f := r.value;
      f.id == OrElse(data.id, freshId) && f.createdAt == OrElse(data.createdAt, nowIso)
      && f.title == Trim(data.title.value) && Trim(f.title) == f.title
      && f.description == Trim(OrElse(data.description, "")) && Trim(f.description) == f.description
      && f.category == ToLower(Trim(OrElse(data.category, ""))) && ToLower(Trim(f.category)) == f.category
      && f.primeTimestamps == OrElse(data.primeTimestamps, [])
      && f.totalCount == ToOption(data.totalCount) && f.todayCount == ToOption(data.todayCount)
      && f.thisWeekCount == ToOption(data.thisWeekCount) && f.thisMonthCount == ToOption(data.thisMonthCount)
      && f.firstPrimedAt == ToOption(data.firstPrimedAt) && f.lastPrimedAt == ToOption(data.lastPrimedAt)
      && f.archived == (if data.archived.Undefined? then Some(false) else ToOption(data.archived))
  {
    if !data.title.Val? || data.description.Null? || data.category.Null? || data.primeTimestamps.Null? then
      Err("TypeError")
    else
      TrimIdempotent(data.title.value);
      TrimIdempotent(OrElse(data.description, ""));
      Ok(PrimeItemFields(
        OrElse(data.id, freshId), Trim(data.title.value), Trim(OrElse(data.description, "")),
        NormalizeCategory(OrElse(data.category, "")), OrElse(data.primeTimestamps, []),
        ToOption(data.totalCount), ToOption(data.todayCount), ToOption(data.thisWeekCount),
        ToOption(data.thisMonthCount), ToOption(data.firstPrimedAt), ToOption(data.lastPrimedAt),
        ToOption(WithDefault(data.archived, false)), OrElse(data.createdAt, nowIso)))
  }

  /** The object `toJSON` produced, read back by `fromJSON`. */
  function DataOfJson(j: PrimeItemJson): PrimeItemData {
    PrimeItemData(Val(j.id), Val(j.title), Val(j.description), Val(j.category), Val(j.primeTimestamps),
      Undefined, Undefined, Undefined, Undefined, Undefined, Undefined, AsJs(j.archived), Val(j.createdAt))
  }

  class PrimeItem {
    var id: string
    var title: string
    var description: string
    var category: string
    var primeTimestamps: seq<int>
    var totalCount: Option<int>
    var todayCount: Option<int>
    var thisWeekCount: Option<int>
    var thisMonthCount: Option<int>
    var firstPrimedAt: Option<string>
    var lastPrimedAt: Option<string>
    var archived: Option<bool>
    var createdAt: string

    /** Text fields are kept in their normal form. */
    predicate Valid()
      reads this
    {
      Trim(title) == title && Trim(description) == description && ToLower(Trim(category)) == category
    }

    function Fields(): PrimeItemFields
      reads this
    {
      PrimeItemFields(id, title, description, category, primeTimestamps, totalCount, todayCount,
        thisWeekCount, thisMonthCount, firstPrimedAt, lastPrimedAt, archived, createdAt)
    }

    constructor (f: PrimeItemFields)
      ensures Fields() == f
    {
      id, title, description, category := f.id, f.title, f.description, f.category;
      primeTimestamps := f.primeTimestamps;
      totalCount, todayCount, thisWeekCount, thisMonthCount := f.totalCount, f.todayCount, f.thisWeekCount, f.thisMonthCount;
      firstPrimedAt, lastPrimedAt := f.firstPrimedAt, f.lastPrimedAt;
      archived, createdAt := f.archived, f.createdAt;
    }

    /** `new PrimeItem(data)`, or the TypeError it throws. */
    static method Create(data: PrimeItemData, freshId: string, nowIso: string) returns (r: Result<PrimeItem>)
      ensures r.Ok? <==> Construct(data, freshId, nowIso).Ok?
      ensures r.Ok? ==> fresh(r.value) && r.value.Fields() == Construct(data, freshId, nowIso).value && r.value.Valid()
    {
      var c := Construct(data, freshId, nowIso);
      if c.Err? {
        return Err(c.message);
      }
      var item := new PrimeItem(c.value);
      return Ok(item);
    }

    /** `logPrime()`: appends `now` to the log and changes nothing else. */
    method LogPrime(now: int)
      modifies this`primeTimestamps
      ensures primeTimestamps == old(primeTimestamps) + [now]
      ensures totalCount.None? ==> GetTotalCount() == old(GetTotalCount()) + 1
    {
      primeTimestamps := primeTimestamps + [now];
    }

    /** The server's total when it supplied one, else the length of the log. */
    function GetTotalCount(): (r: int)
      reads this
      ensures totalCount.Some? ==> r == totalCount.value
      ensures totalCount.None? ==> r == |primeTimestamps|
    {
      if totalCount.Some? then totalCount.value else |primeTimestamps|
    }

    /** The server's value when it supplied one, else the entries at or after local midnight. */
    function GetTodayCount(todayStart: int): (r: int)
      reads this
      ensures todayCount.Some? ==> r == todayCount.value
      ensures todayCount.None? ==> r == CountSince(primeTimestamps, todayStart) && 0 <= r <= |primeTimestamps|
    {
      if todayCount.Some? then todayCount.value else CountSince(primeTimestamps, todayStart)
    }

    /** Entries in `[yesterdayStart, todayStart)`; there is no server value for it. */
    function GetYesterdayCount(yesterdayStart: int, todayStart: int): (r: nat)
      reads this
      ensures r == CountBetween(primeTimestamps, yesterdayStart, todayStart) && r <= |primeTimestamps|
    {
      CountBetween(primeTimestamps, yesterdayStart, todayStart)
    }

    /** The server's value when it supplied one, else the entries since Sunday 00:00. */
    function GetThisWeekCount(weekStart: int): (r: int)
      reads this
      ensures thisWeekCount.Some? ==> r == thisWeekCount.value
      ensures thisWeekCount.None? ==> r == CountSince(primeTimestamps, weekStart) && 0 <= r <= |primeTimestamps|
    {
      if thisWeekCount.Some? then thisWeekCount.value else CountSince(primeTimestamps, weekStart)
    }

    /** Entries in `[lastWeekStart, thisWeekStart)`; there is no server value for it. */
    function GetLastWeekCount(lastWeekStart: int, thisWeekStart: int): (r: nat)
      reads this
      ensures r == CountBetween(primeTimestamps, lastWeekStart, thisWeekStart) && r <= |primeTimestamps|
    {
      CountBetween(primeTimestamps, lastWeekStart, thisWeekStart)
    }

    /** The server's value when it supplied one, else the entries since the first of the month. */
    function GetThisMonthCount(monthStart: int): (r: int)
      reads this
      ensures thisMonthCount.Some? ==> r == thisMonthCount.value
      ensures thisMonthCount.None? ==> r == CountSince(primeTimestamps, monthStart) && 0 <= r <= |primeTimestamps|
    {
      if thisMonthCount.Some? then thisMonthCount.value else CountSince(primeTimestamps, monthStart)
    }

    /** The earliest logged entry; with an empty log, a truthy `firstPrimedAt`; else `null`. */
    function GetFirstPrimeDate(): (r: Option<Instant>)
      reads this
      ensures primeTimestamps != [] ==>
        r.Some? && r.value.AtMs? && r.value.ms in primeTimestamps && forall t :: t in primeTimestamps ==> r.value.ms <= t
      ensures primeTimestamps == [] ==>
        (r.Some? <==> firstPrimedAt.Some? && firstPrimedAt.value != "")
        && (r.Some? ==> r.value == AtIso(firstPrimedAt.value))
    {
      if primeTimestamps != [] then Some(AtMs(Earliest(primeTimestamps).value))
      else if firstPrimedAt.Some? && firstPrimedAt.value != "" then Some(AtIso(firstPrimedAt.value))
      else None
    }

    /** The latest logged entry; with an empty log, a truthy `lastPrimedAt`; else `null`. */
    function GetLastPrimeDate(): (r: Option<Instant>)
      reads this
      ensures primeTimestamps != [] ==>
        r.Some? && r.value.AtMs? && r.value.ms in primeTimestamps && forall t :: t in primeTimestamps ==> t <= r.value.ms
      ensures primeTimestamps == [] ==>
        (r.Some? <==> lastPrimedAt.Some? && lastPrimedAt.value != "")
        && (r.Some? ==> r.value == AtIso(lastPrimedAt.value))
    {
      if primeTimestamps != [] then Some(AtMs(Latest(primeTimestamps).value))
      else if lastPrimedAt.Some? && lastPrimedAt.value != "" then Some(AtIso(lastPrimedAt.value))
      else None
    }

    /** Truthiness of `item.archived`: `null` and `false` both count as not archived. */
    predicate IsArchived()
      reads this
    {
      archived == Some(true)
    }

    method Archive()
      modifies this`archived
      ensures archived == Some(true)
    {
      archived := Some(true);
    }

    method Restore()
      modifies this`archived
      ensures archived == Some(false)
    {
      archived := Some(false);
    }

    /**
     * `update({ title, description, category })`: each provided property replaces
     * its field in normal form; an absent one leaves the field as it was.
     */
    method Update(newTitle: Option<string>, newDescription: Option<string>, newCategory: Option<string>)
      requires Valid()
      modifies this`title, this`description, this`category
      ensures Valid()
      ensures title == (if newTitle.Some? then Trim(newTitle.value) else old(title))
      ensures description == (if newDescription.Some? then Trim(newDescription.value) else old(description))
      ensures category == (if newCategory.Some? then ToLower(Trim(newCategory.value)) else old(category))
    {
      var t, d, c := title, description, category;
      if newTitle.Some? {
        t := Trim(newTitle.value);
        TrimIdempotent(newTitle.value);
      }
      if newDescription.Some? {
        d := Trim(newDescription.value);
        TrimIdempotent(newDescription.value);
      }
      if newCategory.Some? {
        c := NormalizeCategory(newCategory.value);
      }
      assert Trim(t) == t && Trim(d) == d && ToLower(Trim(c)) == c;
      title, description, category := t, d, c;
    }

    function ToJson(): (j: PrimeItemJson)
      reads this
      ensures j.id == id && j.title == title && j.description == description && j.category == category
      ensures j.primeTimestamps == primeTimestamps && j.archived == archived && j.createdAt == createdAt
    {
      PrimeItemJson(id, title, description, category, primeTimestamps, archived, createdAt)
    }
  }

  /** Entries before a fixed boundary can only be fewer the later that boundary starts. */
  lemma TodayNotAboveWeek(p: PrimeItem, todayStart: int, weekStart: int)
    requires p.todayCount.None? && p.thisWeekCount.None?
    requires weekStart <= todayStart
    ensures p.GetTodayCount(todayStart) <= p.GetThisWeekCount(weekStart)
  {
    CountSinceAntitone(p.primeTimestamps, weekStart, todayStart);
  }

  /** Yesterday's window and today's count together are the entries since yesterday's midnight. */
  lemma YesterdayThenToday(p: PrimeItem, yesterdayStart: int, todayStart: int)
    requires p.todayCount.None?
    requires yesterdayStart <= todayStart
    ensures p.GetYesterdayCount(yesterdayStart, todayStart) + p.GetTodayCount(todayStart)
         == CountSince(p.primeTimestamps, yesterdayStart)
  {
    CountBetweenIsDifference(p.primeTimestamps, yesterdayStart, todayStart);
  }

  /** Last week's window and this week's count together are the entries since last week's Sunday. */
  lemma LastWeekThenThisWeek(p: PrimeItem, lastWeekStart: int, thisWeekStart: int)
    requires p.thisWeekCount.None?
    requires lastWeekStart <= thisWeekStart
    ensures p.GetLastWeekCount(lastWeekStart, thisWeekStart) + p.GetThisWeekCount(thisWeekStart)
         == CountSince(p.primeTimestamps, lastWeekStart)
  {
    CountBetweenIsDifference(p.primeTimestamps, lastWeekStart, thisWeekStart);
  }

  /**
   * `PrimeItem.fromJSON(item.toJSON())` gives back every serialised field, and
   * the cached counts and first/last values, which are not serialised, become `null`.
   */
  lemma FromJsonOfToJson(x: PrimeItem, freshId: string, nowIso: string)
    requires x.Valid()
    ensures Construct(DataOfJson(x.ToJson()), freshId, nowIso)
      == Ok(x.Fields().(totalCount := None, todayCount := None, thisWeekCount := None, thisMonthCount := None,
                        firstPrimedAt := None, lastPrimedAt := None))
  {
    FieldsRoundTrip(x.Fields(), freshId, nowIso);
  }

  /** The round trip on the fields of a normalised item. */
  lemma FieldsRoundTrip(f: PrimeItemFields, freshId: string, nowIso: string)
    requires Trim(f.title) == f.title && Trim(f.description) == f.description
    requires ToLower(Trim(f.category)) == f.category
    ensures var j := PrimeItemJson(f.id, f.title, f.description, f.category, f.primeTimestamps, f.archived, f.createdAt);
      Construct(DataOfJson(j), freshId, nowIso)
      == Ok(PrimeItemFields(f.id, f.title, f.description, f.category, f.primeTimestamps,
              None, None, None, None, None, None, f.archived, f.createdAt))
  {
    var j := PrimeItemJson(f.id, f.title, f.description, f.category, f.primeTimestamps, f.archived, f.createdAt);
    var c := Construct(DataOfJson(j), freshId, nowIso);
    assert c.Ok?;
    var g := c.value;
    assert g.title == f.title && g.description == f.description && g.category == f.category;
    assert g.id == f.id && g.createdAt == f.createdAt && g.archived == f.archived;
    assert g.primeTimestamps == f.primeTimestamps;
    assert g.totalCount == None && g.todayCount == None && g.thisWeekCount == None && g.thisMonthCount == None;
    assert g.firstPrimedAt == None && g.lastPrimedAt == None;
  }
}
