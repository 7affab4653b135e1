/**
 * The `StudyItem` domain class of the frontend: a topic being studied, with
 * free-form notes stored as given, the log of study sessions (ms), the moment
 * it was first studied and the prime item it was converted from.
 */
module FrontendStudyItem {
  import opened Common
  import opened RepetitionLog

  /** The object passed to the constructor; a missing property is `Undefined`. */
  datatype StudyItemData = StudyItemData(
    id: Js<string>, title: Js<string>, description: Js<string>, category: Js<string>, notes: Js<string>,
    studyTimestamps: Js<seq<int>>, firstStudiedAt: Js<Instant>, archived: Js<bool>, createdAt: Js<string>,
    sourcePrimeItemId: Js<string>)

  /** The fields of a constructed item; `notes` is `None` when it was given as `null`. */
  datatype StudyItemFields = StudyItemFields(
    id: string, title: string, description: string, category: string, notes: Option<string>,
    studyTimestamps: seq<int>, firstStudiedAt: Option<Instant>, archived: Option<bool>, createdAt: string,
    sourcePrimeItemId: Option<string>)

  /** What `toJSON` writes: every field, including `firstStudiedAt` and `sourcePrimeItemId`. */
  datatype StudyItemJson = StudyItemJson(
    id: string, title: string, description: string, category: string, notes: Option<string>,
    studyTimestamps: seq<int>, firstStudiedAt: Option<Instant>, archived: Option<bool>, createdAt: string,
    sourcePrimeItemId: Option<string>)

  /**
   * The constructor: defaults apply to `undefined` only, so a `null` (or missing)
   * title, a `null` description, category or timestamp list throws a TypeError;
   * the notes are stored as given, untrimmed.
   */
  function Construct(data: StudyItemData, freshId: string, nowIso: string): (r: Result<StudyItemFields>)
    ensures r.Ok? <==> data.title.Val? && !data.description.Null? && !data.category.Null? && !data.studyTimestamps.Null?
    ensures r.Ok? ==> var f := r.value;
      f.id == OrElse(data.id, freshId) && f.createdAt == OrElse(data.createdAt, nowIso)
      && f.title == Trim(data.title.value) && Trim(f.title) == f.title
      && f.description == Trim(OrElse(data.description, "")) && Trim(f.description) == f.description
      && f.category == ToLower(Trim(OrElse(data.category, ""))) && ToLower(Trim(f.category)) == f.category
      && f.notes == ToOption(WithDefault(data.notes, ""))
      && f.studyTimestamps == OrElse(data.studyTimestamps, [])
      && f.firstStudiedAt == ToOption(data.firstStudiedAt)
      && f.sourcePrimeItemId == ToOption(data.sourcePrimeItemId)
      && f.archived == (if data.archived.Undefined? then Some(false) else ToOption(data.archived))
  {
    if !data.title.Val? || data.description.Null? || data.category.Null? || data.studyTimestamps.Null? then
      Err("TypeError")
    else
      TrimIdempotent(data.title.value);
      TrimIdempotent(OrElse(data.description, ""));
      Ok(StudyItemFields(
        OrElse(data.id, freshId), Trim(data.title.value), Trim(OrElse(data.description, "")),
        NormalizeCategory(OrElse(data.category, "")), ToOption(WithDefault(data.notes, "")),
        OrElse(data.studyTimestamps, []), ToOption(data.firstStudiedAt), ToOption(WithDefault(data.archived, false)),
        OrElse(data.createdAt, nowIso), ToOption(data.sourcePrimeItemId)))
  }

  /** The object `toJSON` produced, read back by `fromJSON`. */
  function DataOfJson(j: StudyItemJson): StudyItemData {
    StudyItemData(Val(j.id), Val(j.title), Val(j.description), Val(j.category), AsJs(j.notes),
      Val(j.studyTimestamps), AsJs(j.firstStudiedAt), AsJs(j.archived), Val(j.createdAt), AsJs(j.sourcePrimeItemId))
  }

  class StudyItem {
    var id: string
    var title: string
    var description: string
    var category: string
    var notes: Option<string>
    var studyTimestamps: seq<int>
    var firstStudiedAt: Option<Instant>
    var archived: Option<bool>
    var createdAt: string
    var sourcePrimeItemId: Option<string>

    predicate Valid()
      reads this
    {
      Trim(title) == title && Trim(description) == description && ToLower(Trim(category)) == category
    }

    function Fields(): StudyItemFields
      reads this
    {
      StudyItemFields(id, title, description, category, notes, studyTimestamps, firstStudiedAt, archived,
        createdAt, sourcePrimeItemId)
    }

    constructor (f: StudyItemFields)
      ensures Fields() == f
    {
      id, title, description, category, notes := f.id, f.title, f.description, f.category, f.notes;
      studyTimestamps, firstStudiedAt, archived := f.studyTimestamps, f.firstStudiedAt, f.archived;
      createdAt, sourcePrimeItemId := f.createdAt, f.sourcePrimeItemId;
    }

    /** `new StudyItem(data)`, or the TypeError it throws. */
    static method Create(data: StudyItemData, freshId: string, nowIso: string) returns (r: Result<StudyItem>)
      ensures r.Ok? <==> Construct(data, freshId, nowIso).Ok?
      ensures r.Ok? ==> fresh(r.value) && r.value.Fields() == Construct(data, freshId, nowIso).value && r.value.Valid()
    {
      var c := Construct(data, freshId, nowIso);
      if c.Err? {
        return Err(c.message);
      }
      var item := new StudyItem(c.value);
      return Ok(item);
    }

    /** `logStudy()`: appends `now`, and sets `firstStudiedAt` to `now` only if it was `null`. */
    method LogStudy(now: int)
      modifies this`studyTimestamps, this`firstStudiedAt
      ensures studyTimestamps == old(studyTimestamps) + [now]
      ensures firstStudiedAt == FirstStudiedAfter(old(firstStudiedAt), now)
      ensures GetTotalCount() == old(GetTotalCount()) + 1
    {
      studyTimestamps := studyTimestamps + [now];
      if firstStudiedAt.None? {
        firstStudiedAt := Some(AtMs(now));
      }
    }

    /** The total is always the number of logged sessions. */
    function GetTotalCount(): (r: nat)
      reads this
      ensures r == |studyTimestamps|
    {
      |studyTimestamps|
    }

    function GetTodayCount(todayStart: int): (r: nat)
      reads this
      ensures r == CountSince(studyTimestamps, todayStart) && r <= GetTotalCount()
    {
      CountSince(studyTimestamps, todayStart)
    }

    function GetThisWeekCount(weekStart: int): (r: nat)
      reads this
      ensures r == CountSince(studyTimestamps, weekStart) && r <= GetTotalCount()
    {
      CountSince(studyTimestamps, weekStart)
    }

    function GetThisMonthCount(monthStart: int): (r: nat)
      reads this
      ensures r == CountSince(studyTimestamps, monthStart) && r <= GetTotalCount()
    {
      CountSince(studyTimestamps, monthStart)
    }

    /** The stored first-studied moment, `null` while none is stored. */
    function GetFirstStudiedDate(): (r: Option<Instant>)
      reads this
      ensures r == firstStudiedAt
    {
      firstStudiedAt
    }

    /** The latest session, `null` exactly when there is none. */
    function GetLastStudyDate(): (r: Option<Instant>)
      reads this
      ensures r.None? <==> studyTimestamps == []
      ensures r.Some? ==>
        r.value.AtMs? && r.value.ms in studyTimestamps && forall t :: t in studyTimestamps ==> t <= r.value.ms
    {
      if studyTimestamps == [] then None else Some(AtMs(Latest(studyTimestamps).value))
    }

    method Archive()
      modifies this`archived
      ensures archived == Some(true)
    {
      archived := Some(true);
    }

    method Restore()
      modifies this`archived
      ensures archived == Some(false)
    {
      archived := Some(false);
    }

    /**
     * `update({ title, description, category, notes })`: each provided property
     * replaces its field, the text fields in normal form and the notes as given
     * (a `null` included); an absent one leaves its field as it was.
     */
    method Update(newTitle: Option<string>, newDescription: Option<string>, newCategory: Option<string>,
                  newNotes: Js<string>)
      requires Valid()
      modifies this`title, this`description, this`category, this`notes
      ensures Valid()
      ensures title == (if newTitle.Some? then Trim(newTitle.value) else old(title))
      ensures description == (if newDescription.Some? then Trim(newDescription.value) else old(description))
      ensures category == (if newCategory.Some? then ToLower(Trim(newCategory.value)) else old(category))
      ensures notes == (if newNotes.Undefined? then old(notes) else ToOption(newNotes))
    {
      var t, d, c := title, description, category;
      if newTitle.Some? {
        t := Trim(newTitle.value);
        TrimIdempotent(newTitle.value);
      }
      if newDescription.Some? {
        d := Trim(newDescription.value);
        TrimIdempotent(newDescription.value);
      }
      if newCategory.Some? {
        c := NormalizeCategory(newCategory.value);
      }
      title, description, category := t, d, c;
      if !newNotes.Undefined? {
        notes := ToOption(newNotes);
      }
    }

    function ToJson(): (j: StudyItemJson)
      reads this
      ensures j.id == id && j.title == title && j.description == description && j.category == category
      ensures j.notes == notes && j.studyTimestamps == studyTimestamps && j.firstStudiedAt == firstStudiedAt
      ensures j.archived == archived && j.createdAt == createdAt && j.sourcePrimeItemId == sourcePrimeItemId
    {
      StudyItemJson(id, title, description, category, notes, studyTimestamps, firstStudiedAt, archived,
        createdAt, sourcePrimeItemId)
    }
  }

  /** `StudyItem.fromJSON(item.toJSON())` gives back every field. */
  lemma FromJsonOfToJson(x: StudyItem, freshId: string, nowIso: string)
    requires x.Valid()
    ensures Construct(DataOfJson(x.ToJson()), freshId, nowIso) == Ok(x.Fields())
  {
    FieldsRoundTrip(x.Fields(), freshId, nowIso);
  }

  /** The round trip on the fields of a normalised item. */
  lemma FieldsRoundTrip(f: StudyItemFields, freshId: string, nowIso: string)
    requires Trim(f.title) == f.title && Trim(f.description) == f.description
    requires ToLower(Trim(f.category)) == f.category
    ensures var j := StudyItemJson(f.id, f.title, f.description, f.category, f.notes, f.studyTimestamps,
        f.firstStudiedAt, f.archived, f.createdAt, f.sourcePrimeItemId);
      Construct(DataOfJson(j), freshId, nowIso) == Ok(f)
  {
    var j := StudyItemJson(f.id, f.title, f.description, f.category, f.notes, f.studyTimestamps,
        f.firstStudiedAt, f.archived, f.createdAt, f.sourcePrimeItemId);
    var c := Construct(DataOfJson(j), freshId, nowIso);
    assert c.Ok?;
    var g := c.value;
    assert g.title == f.title && g.description == f.description && g.category == f.category;
    assert g.id == f.id && g.createdAt == f.createdAt && g.archived == f.archived;
    assert g.notes == f.notes && g.studyTimestamps == f.studyTimestamps;
    assert g.firstStudiedAt == f.firstStudiedAt && g.sourcePrimeItemId == f.sourcePrimeItemId;
  }
}
