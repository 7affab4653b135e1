/**
 * The `ReviewItem` domain class (js/domain/review-item.js): a topic under
 * review, with its append-only log of review timestamps (ms) and the moment it
 * was first studied, which the first review sets and no later review changes.
 */
module JsReviewItem {
  import opened Common
  import opened RepetitionLog

  /** The object passed to the constructor; a missing property is `Undefined`. */
  datatype ReviewItemData = ReviewItemData(
    id: Js<string>, title: Js<string>, description: Js<string>, category: Js<string>,
    reviewTimestamps: Js<seq<int>>, firstStudiedAt: Js<Instant>, archived: Js<bool>, createdAt: Js<string>)

  datatype ReviewItemFields = ReviewItemFields(
    id: string, title: string, description: string, category: string,
    reviewTimestamps: seq<int>, firstStudiedAt: Option<Instant>, archived: Option<bool>, createdAt: string)

  /**
   * The constructor: defaults apply to `undefined` only, so a `null` (or missing)
   * title, a `null` description, category or timestamp list throws a TypeError.
   */
  function Construct(data: ReviewItemData, freshId: string, nowIso: string): (r: Result<ReviewItemFields>)
    ensures r.Ok? <==> data.title.Val? && !data.description.Null? && !data.category.Null? && !data.reviewTimestamps.Null?
    ensures r.Ok? ==> var f := r.value;
      f.id == OrElse(data.id, freshId) && f.createdAt == OrElse(data.createdAt, nowIso)
      && f.title == Trim(data.title.value) && Trim(f.title) == f.title
      && f.description == Trim(OrElse(data.description, "")) && Trim(f.description) == f.description
      && f.category == ToLower(Trim(OrElse(data.category, ""))) && ToLower(Trim(f.category)) == f.category
      && f.reviewTimestamps == OrElse(data.reviewTimestamps, [])
      && f.firstStudiedAt == ToOption(data.firstStudiedAt)
      && f.archived == (if data.archived.Undefined? then Some(false) else ToOption(data.archived))
  {
    if !data.title.Val? || data.description.Null? || data.category.Null? || data.reviewTimestamps.Null? then
      Err("TypeError")
    else
      TrimIdempotent(data.title.value);
      TrimIdempotent(OrElse(data.description, ""));
      Ok(ReviewItemFields(
        OrElse(data.id, freshId), Trim(data.title.value), Trim(OrElse(data.description, "")),
        NormalizeCategory(OrElse(data.category, "")), OrElse(data.reviewTimestamps, []),
        ToOption(data.firstStudiedAt), ToOption(WithDefault(data.archived, false)), OrElse(data.createdAt, nowIso)))
  }

  class ReviewItem {
    var id: string
    var title: string
    var description: string
    var category: string
    var reviewTimestamps: seq<int>
    var firstStudiedAt: Option<Instant>
    var archived: Option<bool>
    var createdAt: string

    predicate Valid()
      reads this
    {
      Trim(title) == title && Trim(description) == description && ToLower(Trim(category)) == category
    }

    function Fields(): ReviewItemFields
      reads this
    {
      ReviewItemFields(id, title, description, category, reviewTimestamps, firstStudiedAt, archived, createdAt)
    }

    constructor (f: ReviewItemFields)
      ensures Fields() == f
    {
      id, title, description, category := f.id, f.title, f.description, f.category;
      reviewTimestamps, firstStudiedAt := f.reviewTimestamps, f.firstStudiedAt;
      archived, createdAt := f.archived, f.createdAt;
    }

    /** `new ReviewItem(data)`, or the TypeError it throws. */
    static method Create(data: ReviewItemData, freshId: string, nowIso: string) returns (r: Result<ReviewItem>)
      ensures r.Ok? <==> Construct(data, freshId, nowIso).Ok?
      ensures r.Ok? ==> fresh(r.value) && r.value.Fields() == Construct(data, freshId, nowIso).value && r.value.Valid()
    {
      var c := Construct(data, freshId, nowIso);
      if c.Err? {
        return Err(c.message);
      }
      var item := new ReviewItem(c.value);
      return Ok(item);
    }

    /** `logReview()`: appends `now`, and sets `firstStudiedAt` to `now` only if it was `null`. */
    method LogReview(now: int)
      modifies this`reviewTimestamps, this`firstStudiedAt
      ensures reviewTimestamps == old(reviewTimestamps) + [now]
      ensures firstStudiedAt == FirstStudiedAfter(old(firstStudiedAt), now)
      ensures GetTotalCount() == old(GetTotalCount()) + 1
      ensures GetLastReviewDate().value.ms
           == if old(reviewTimestamps) == [] then now else Max(now, old(GetLastReviewDate()).value.ms)
    {
      ghost var before := reviewTimestamps;
      reviewTimestamps := reviewTimestamps + [now];
      if firstStudiedAt.None? {
        firstStudiedAt := Some(AtMs(now));
      }
      LatestAppend(before, now);
    }

    /** The total is always the number of logged reviews. */
    function GetTotalCount(): (r: nat)
      reads this
      ensures r == |reviewTimestamps|
    {
      |reviewTimestamps|
    }

    function GetTodayCount(todayStart: int): (r: nat)
      reads this
      ensures r == CountSince(reviewTimestamps, todayStart) && r <= GetTotalCount()
    {
      CountSince(reviewTimestamps, todayStart)
    }

    function GetThisWeekCount(weekStart: int): (r: nat)
      reads this
      ensures r == CountSince(reviewTimestamps, weekStart) && r <= GetTotalCount()
    {
      CountSince(reviewTimestamps, weekStart)
    }

    function GetThisMonthCount(monthStart: int): (r: nat)
      reads this
      ensures r == CountSince(reviewTimestamps, monthStart) && r <= GetTotalCount()
    {
      CountSince(reviewTimestamps, monthStart)
    }

    /** The stored first-studied moment, `null` while none is stored. */
    function GetFirstStudiedDate(): (r: Option<Instant>)
      reads this
      ensures r == firstStudiedAt
    {
      firstStudiedAt
    }

    /** The latest review, `null` exactly when there is none. */
    function GetLastReviewDate(): (r: Option<Instant>)
      reads this
      ensures r.None? <==> reviewTimestamps == []
      ensures r.Some? ==>
        r.value.AtMs? && r.value.ms in reviewTimestamps && forall t :: t in reviewTimestamps ==> t <= r.value.ms
    {
      if reviewTimestamps == [] then None else Some(AtMs(Latest(reviewTimestamps).value))
    }

    /** `archive()` flips only `archived`. */
    method Archive()
      modifies this`archived
      ensures archived == Some(true)
    {
      archived := Some(true);
    }

    /** `restore()` flips only `archived`. */
    method Restore()
      modifies this`archived
      ensures archived == Some(false)
    {
      archived := Some(false);
    }

    /** `update({ title, description, category })`: provided properties replace their fields in normal form. */
    method Update(newTitle: Option<string>, newDescription: Option<string>, newCategory: Option<string>)
      requires Valid()
      modifies this`title, this`description, this`category
      ensures Valid()
      ensures title == (if newTitle.Some? then Trim(newTitle.value) else old(title))
      ensures description == (if newDescription.Some? then Trim(newDescription.value) else old(description))
      ensures category == (if newCategory.Some? then ToLower(Trim(newCategory.value)) else old(category))
    {
      var t, d, c := title, description, category;
      if newTitle.Some? {
        t := Trim(newTitle.value);
        TrimIdempotent(newTitle.value);
      }
      if newDescription.Some? {
        d := Trim(newDescription.value);
        TrimIdempotent(newDescription.value);
      }
      if newCategory.Some? {
        c := NormalizeCategory(newCategory.value);
      }
      title, description, category := t, d, c;
    }
  }
}
