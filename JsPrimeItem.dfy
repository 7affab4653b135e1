/**
 * The older `PrimeItem` domain class (js/domain/prime-item.js): the same
 * priming log as the frontend class, but without server-supplied counts or
 * first/last fallbacks, and with the category trimmed but not lower-cased.
 */
module JsPrimeItem {
  import opened Common
  import opened RepetitionLog

  /** The object passed to the constructor; a missing property is `Undefined`. */
  datatype PrimeItemData = PrimeItemData(
    id: Js<string>, title: Js<string>, description: Js<string>, category: Js<string>,
    primeTimestamps: Js<seq<int>>, archived: Js<bool>, createdAt: Js<string>)

  datatype PrimeItemFields = PrimeItemFields(
    id: string, title: string, description: string, category: string,
    primeTimestamps: seq<int>, archived: Option<bool>, createdAt: string)

  /**
   * The constructor: defaults apply to `undefined` only, so a `null` (or missing)
   * title, a `null` description, category or timestamp list throws a TypeError.
   */
  function Construct(data: PrimeItemData, freshId: string, nowIso: string): (r: Result<PrimeItemFields>)
    ensures r.Ok? <==> data.title.Val? && !data.description.Null? && !data.category.Null? && !data.primeTimestamps.Null?
    ensures r.Ok? ==> var f := r.value;
      f.id == OrElse(data.id, freshId) && f.createdAt == OrElse(data.createdAt, nowIso)
      && f.title == Trim(data.title.value) && Trim(f.title) == f.title
      && f.description == Trim(OrElse(data.description, "")) && Trim(f.description) == f.description
      && f.category == Trim(OrElse(data.category, "")) && Trim(f.category) == f.category
      && f.primeTimestamps == OrElse(data.primeTimestamps, [])
      && f.archived == (if data.archived.Undefined? then Some(false) else ToOption(data.archived))
  {
    if !data.title.Val? || data.description.Null? || data.category.Null? || data.primeTimestamps.Null? then
      Err("TypeError")
    else
      TrimIdempotent(data.title.value);
      TrimIdempotent(OrElse(data.description, ""));
      TrimIdempotent(OrElse(data.category, ""));
      Ok(PrimeItemFields(
        OrElse(data.id, freshId), Trim(data.title.value), Trim(OrElse(data.description, "")),
        Trim(OrElse(data.category, "")), OrElse(data.primeTimestamps, []),
        ToOption(WithDefault(data.archived, false)), OrElse(data.createdAt, nowIso)))
  }

  /** The category keeps its case: `" Math "` is stored as `"Math"`. */
  lemma CategoryKeepsCase(freshId: string, nowIso: string)
    ensures var data := PrimeItemData(Undefined, Val("t"), Undefined, Val(" Math "), Undefined, Undefined, Undefined);
      Construct(data, freshId, nowIso).Ok? && Construct(data, freshId, nowIso).value.category == "Math"
  {
    var c := " Math ";
    assert TrimStart(c) == "Math ";
    assert TrimEnd("Math ") == "Math";
  }

  class PrimeItem {
    var id: string
    var title: string
    var description: string
    var category: string
    var primeTimestamps: seq<int>
    var archived: Option<bool>
    var createdAt: string

    predicate Valid()
      reads this
    {
      Trim(title) == title && Trim(description) == description && Trim(category) == category
    }

    function Fields(): PrimeItemFields
      reads this
    {
      PrimeItemFields(id, title, description, category, primeTimestamps, archived, createdAt)
    }

    constructor (f: PrimeItemFields)
      ensures Fields() == f
    {
      id, title, description, category := f.id, f.title, f.description, f.category;
      primeTimestamps, archived, createdAt := f.primeTimestamps, f.archived, f.createdAt;
    }

    /** `new PrimeItem(data)`, or the TypeError it throws. */
    static method Create(data: PrimeItemData, freshId: string, nowIso: string) returns (r: Result<PrimeItem>)
      ensures r.Ok? <==> Construct(data, freshId, nowIso).Ok?
      ensures r.Ok? ==> fresh(r.value) && r.value.Fields() == Construct(data, freshId, nowIso).value && r.value.Valid()
    {
      var c := Construct(data, freshId, nowIso);
      if c.Err? {
        return Err(c.message);
      }
      var item := new PrimeItem(c.value);
      return Ok(item);
    }

    /** `logPrime()`: appends `now`; the total grows by one and no other field changes. */
    method LogPrime(now: int)
      modifies this`primeTimestamps
      ensures primeTimestamps == old(primeTimestamps) + [now]
      ensures GetTotalCount() == old(GetTotalCount()) + 1
    {
      primeTimestamps := primeTimestamps + [now];
    }

    /** The total is always the length of the log. */
    function GetTotalCount(): (r: nat)
      reads this
      ensures r == |primeTimestamps|
    {
      |primeTimestamps|
    }

    function GetTodayCount(todayStart: int): (r: nat)
      reads this
      ensures r == CountSince(primeTimestamps, todayStart) && r <= GetTotalCount()
    {
      CountSince(primeTimestamps, todayStart)
    }

    function GetThisWeekCount(weekStart: int): (r: nat)
      reads this
      ensures r == CountSince(primeTimestamps, weekStart) && r <= GetTotalCount()
    {
      CountSince(primeTimestamps, weekStart)
    }

    function GetThisMonthCount(monthStart: int): (r: nat)
      reads this
      ensures r == CountSince(primeTimestamps, monthStart) && r <= GetTotalCount()
    {
      CountSince(primeTimestamps, monthStart)
    }

    /** The earliest logged entry, `null` exactly when the log is empty. */
    function GetFirstPrimeDate(): (r: Option<int>)
      reads this
      ensures r.None? <==> primeTimestamps == []
      ensures r.Some? ==> r.value in primeTimestamps && forall t :: t in primeTimestamps ==> r.value <= t
    {
      Earliest(primeTimestamps)
    }

    /** The latest logged entry, `null` exactly when the log is empty. */
    function GetLastPrimeDate(): (r: Option<int>)
      reads this
      ensures r.None? <==> primeTimestamps == []
      ensures r.Some? ==> r.value in primeTimestamps && forall t :: t in primeTimestamps ==> t <= r.value
    {
      Latest(primeTimestamps)
    }

    method Archive()
      modifies this`archived
      ensures archived == Some(true)
    {
      archived := Some(true);
    }

    method Restore()
      modifies this`archived
      ensures archived == Some(false)
    {
      archived := Some(false);
    }

    /** `update({ title, description, category })`: provided properties are trimmed into place; the category keeps its case. */
    method Update(newTitle: Option<string>, newDescription: Option<string>, newCategory: Option<string>)
      requires Valid()
      modifies this`title, this`description, this`category
      ensures Valid()
      ensures title == (if newTitle.Some? then Trim(newTitle.value) else old(title))
      ensures description == (if newDescription.Some? then Trim(newDescription.value) else old(description))
      ensures category == (if newCategory.Some? then Trim(newCategory.value) else old(category))
    {
      var t, d, c := title, description, category;
      if newTitle.Some? {
        t := Trim(newTitle.value);
        TrimIdempotent(newTitle.value);
      }
      if newDescription.Some? {
        d := Trim(newDescription.value);
        TrimIdempotent(newDescription.value);
      }
      if newCategory.Some? {
        c := Trim(newCategory.value);
        TrimIdempotent(newCategory.value);
      }
      title, description, category := t, d, c;
    }
  }

  /** On a non-empty log the first entry is never after the last. */
  lemma FirstNotAfterLast(p: PrimeItem)
    requires p.primeTimestamps != []
    ensures p.GetFirstPrimeDate().value <= p.GetLastPrimeDate().value
  {
    EarliestNotAfterLatest(p.primeTimestamps);
  }

  /** The windowed counts nest: today within this week within this month, when the boundaries do. */
  lemma CountsNest(p: PrimeItem, monthStart: int, weekStart: int, todayStart: int)
    requires monthStart <= todayStart && weekStart <= todayStart
    ensures p.GetTodayCount(todayStart) <= p.GetThisWeekCount(weekStart)
    ensures p.GetTodayCount(todayStart) <= p.GetThisMonthCount(monthStart)
  {
    CountSinceAntitone(p.primeTimestamps, weekStart, todayStart);
    CountSinceAntitone(p.primeTimestamps, monthStart, todayStart);
  }
}
