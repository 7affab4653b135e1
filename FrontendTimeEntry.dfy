/**
 * The `TimeEntry` domain class of the frontend: one work session on a task,
 * active until it is finalised with an end time and a duration.
 */
module FrontendTimeEntry {
  import opened Common
  import opened Clock

  /** A break taken during the session. */
  datatype BreakRecord = BreakRecord(startedAt: string, endedAt: string)

  /** The object passed to the constructor; a missing property is `Undefined`. */
  datatype TimeEntryData = TimeEntryData(
    id: Js<string>, taskId: Js<string>, taskTitle: Js<string>, startedAt: Js<string>, endedAt: Js<string>,
    durationSeconds: Js<int>, notes: Js<string>, breaks: Js<seq<BreakRecord>>)

  /** The fields of an entry; a `null` end time, duration or note is `None`. */
  datatype TimeEntryFields = TimeEntryFields(
    id: string, taskId: string, taskTitle: string, startedAt: string, endedAt: Option<string>,
    durationSeconds: Option<int>, notes: Option<string>, breaks: seq<BreakRecord>, createdAt: string)

  const TaskIdRequired := "TimeEntry requires a taskId"
  const StartedAtRequired := "TimeEntry requires a startedAt timestamp"
  const AlreadyFinalized := "Cannot finalize an already finalized TimeEntry"
  const EndedAtRequired := "endedAt is required to finalize"
  const DurationInvalid := "durationSeconds must be a non-negative number"

  /**
   * The constructor: a falsy `taskId`, then a falsy `startedAt`, is rejected; a
   * `null` title cannot be trimmed; only `undefined` takes a default, and a
   * `breaks` value that is not an array becomes `[]`.
   */
  function Construct(data: TimeEntryData, freshId: string, nowIso: string): (r: Result<TimeEntryFields>)
    ensures !TruthyString(data.taskId) ==> r == Err(TaskIdRequired)
    ensures TruthyString(data.taskId) && !TruthyString(data.startedAt) ==> r == Err(StartedAtRequired)
    ensures r.Ok? <==> TruthyString(data.taskId) && TruthyString(data.startedAt) && !data.taskTitle.Null?
    ensures r.Ok? ==> var f := r.value;
      f.id == OrElse(data.id, freshId) && f.taskId == data.taskId.value && f.startedAt == data.startedAt.value
      && f.taskTitle == Trim(OrElse(data.taskTitle, "")) && f.endedAt == ToOption(data.endedAt)
      && f.durationSeconds == ToOption(WithDefault(data.durationSeconds, 0))
      && f.notes == ToOption(WithDefault(data.notes, ""))
      && f.breaks == OrElse(data.breaks, []) && f.createdAt == nowIso
  {
    if !TruthyString(data.taskId) then Err(TaskIdRequired)
    else if !TruthyString(data.startedAt) then Err(StartedAtRequired)
    else if data.taskTitle.Null? then Err("TypeError")
    else Ok(TimeEntryFields(
      OrElse(data.id, freshId), data.taskId.value, Trim(OrElse(data.taskTitle, "")), data.startedAt.value,
      ToOption(data.endedAt), ToOption(WithDefault(data.durationSeconds, 0)), ToOption(WithDefault(data.notes, "")),
      OrElse(data.breaks, []), nowIso))
  }

  class TimeEntry {
    var id: string
    var taskId: string
    var taskTitle: string
    var startedAt: string
    var endedAt: Option<string>
    var durationSeconds: Option<int>
    var notes: Option<string>
    var breaks: seq<BreakRecord>
    var createdAt: string

    function Fields(): TimeEntryFields
      reads this
    {
      TimeEntryFields(id, taskId, taskTitle, startedAt, endedAt, durationSeconds, notes, breaks, createdAt)
    }

    constructor (f: TimeEntryFields)
      ensures Fields() == f
    {
      id, taskId, taskTitle, startedAt, endedAt := f.id, f.taskId, f.taskTitle, f.startedAt, f.endedAt;
      durationSeconds, notes, breaks, createdAt := f.durationSeconds, f.notes, f.breaks, f.createdAt;
    }

    /** `new TimeEntry(data)`, or the error it throws. */
    static method Create(data: TimeEntryData, freshId: string, nowIso: string) returns (r: Result<TimeEntry>)
      ensures r.Ok? <==> Construct(data, freshId, nowIso).Ok?
      ensures r.Err? ==> r.message == Construct(data, freshId, nowIso).message
      ensures r.Ok? ==> fresh(r.value) && r.value.Fields() == Construct(data, freshId, nowIso).value
    {
      var c := Construct(data, freshId, nowIso);
      if c.Err? {
        return Err(c.message);
      }
      var e := new TimeEntry(c.value);
      return Ok(e);
    }

    /** `isActive`: the entry has no end time yet. */
    predicate IsActive()
      reads this
    {
      endedAt.None?
    }

    /**
     * `finalize({ endedAt, durationSeconds })`: refuses a finalised entry, a falsy end
     * time and a missing or negative duration, in that order; otherwise records both,
     * after which the entry is no longer active.
     */
    method Finalize(newEndedAt: Js<string>, newDuration: Js<int>) returns (error: Option<string>)
      modifies this`endedAt, this`durationSeconds
      ensures !old(IsActive()) ==> error == Some(AlreadyFinalized)
      ensures old(IsActive()) && !TruthyString(newEndedAt) ==> error == Some(EndedAtRequired)
      ensures old(IsActive()) && TruthyString(newEndedAt) && !(newDuration.Val? && newDuration.value >= 0) ==>
        error == Some(DurationInvalid)
      ensures error.None? <==> old(IsActive()) && TruthyString(newEndedAt) && newDuration.Val? && newDuration.value >= 0
      ensures error.None? ==> endedAt == Some(newEndedAt.value) && durationSeconds == Some(newDuration.value) && !IsActive()
      ensures error.Some? ==> endedAt == old(endedAt) && durationSeconds == old(durationSeconds)
    {
      if !IsActive() {
        return Some(AlreadyFinalized);
      }
      if !TruthyString(newEndedAt) {
        return Some(EndedAtRequired);
      }
      if !newDuration.Val? || newDuration.value < 0 {
        return Some(DurationInvalid);
      }
      endedAt := Some(newEndedAt.value);
      durationSeconds := Some(newDuration.value);
      error := None;
    }

    /** `addNotes(notes)` */
    method AddNotes(newNotes: Option<string>)
      modifies this`notes
      ensures notes == newNotes
    {
      notes := newNotes;
    }

    /** `addBreak(record)`: appends a record; `null` and `undefined` are ignored. */
    method AddBreak(breakRecord: Js<BreakRecord>)
      modifies this`breaks
      ensures breakRecord.Val? ==> breaks == old(breaks) + [breakRecord.value]
      ensures !breakRecord.Val? ==> breaks == old(breaks)
    {
      if !breakRecord.Val? {
        return;
      }
      breaks := breaks + [breakRecord.value];
    }

    /** `formattedDuration`: `HH:MM:SS` of the duration (`null` counts as 0 in the arithmetic). */
    function FormattedDuration(): string
      reads this
    {
      RenderHMS(SecondsToHMS(if durationSeconds.Some? then durationSeconds.value else 0))
    }
  }

  /** The formatted fields of a non-negative duration recombine to it, with minutes and seconds below 60. */
  lemma FormattedDurationFields(e: TimeEntry)
    requires e.durationSeconds.Some? && e.durationSeconds.value >= 0
    ensures var parts := Split(e.FormattedDuration(), ':');
      |parts| == 3
      && (forall k, i :: 0 <= k < 3 && 0 <= i < |parts[k]| ==> IsDigit(parts[k][i]))
      && DigitsValue(parts[0]) * 3600 + DigitsValue(parts[1]) * 60 + DigitsValue(parts[2]) == e.durationSeconds.value
      && DigitsValue(parts[1]) < 60 && DigitsValue(parts[2]) < 60
  {
    RenderHMSReadsBack(e.durationSeconds.value);
  }
}
