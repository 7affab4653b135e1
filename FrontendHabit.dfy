/**
 * The `Habit` domain class of the frontend: a recurring behaviour with daily,
 * weekly and monthly targets and progress counters. `createdAt` is held as
 * milliseconds since the epoch (`new Date(x)` and `toISOString` are abstracted
 * to that instant).
 */
module FrontendHabit {
  import opened Common

  datatype Targets = Targets(daily: Option<int>, weekly: Option<int>, monthly: Option<int>)
  datatype Counts = Counts(daily: int, weekly: int, monthly: int)

  /** The `counts` object passed to the constructor. */
  datatype CountsData = CountsData(daily: Js<int>, weekly: Js<int>, monthly: Js<int>)

  /** The object passed to the constructor; a missing property is `Undefined`. */
  datatype HabitData = HabitData(
    id: Js<string>, name: Js<string>,
    dailyTarget: Js<int>, weeklyTarget: Js<int>, monthlyTarget: Js<int>,
    isActive: Js<bool>, counts: Js<CountsData>, createdAt: Js<int>)

  /**
   * The fields of a habit, also the shape `toJSON` writes. A `null` target or
   * `isActive` is kept as `None`; `name` is stored as given, even `undefined`.
   */
  datatype HabitFields = HabitFields(
    id: string, name: Js<string>, targets: Targets, counts: Counts, isActive: Option<bool>, createdAt: int)

  /** A destructured default: `undefined` becomes `d`, `null` is kept as `None`. */
  function Defaulted<T>(a: Js<T>, d: T): (r: Option<T>)
    ensures a.Undefined? ==> r == Some(d)
    ensures a.Null? ==> r.None?
    ensures a.Val? ==> r == Some(a.value)
  {
    ToOption(WithDefault(a, d))
  }

  /**
   * The constructor: targets default to 0 and `isActive` to true only when they
   * are `undefined`; each count missing from `counts` is 0; a `null` `counts`
   * throws a TypeError; a `null` `createdAt` is the epoch and a missing one is `nowMs`.
   */
  function Construct(data: HabitData, freshId: string, nowMs: int): (r: Result<HabitFields>)
    ensures r.Ok? <==> !data.counts.Null?
    ensures r.Ok? ==> var f := r.value;
      f.id == OrElse(data.id, freshId) && f.name == data.name
      && f.targets == Targets(Defaulted(data.dailyTarget, 0), Defaulted(data.weeklyTarget, 0), Defaulted(data.monthlyTarget, 0))
      && (data.counts.Undefined? ==> f.counts == Counts(0, 0, 0))
      && (data.counts.Val? ==> f.counts == Counts(OrElse(data.counts.value.daily, 0),
            OrElse(data.counts.value.weekly, 0), OrElse(data.counts.value.monthly, 0)))
      && f.isActive == Defaulted(data.isActive, true)
      && f.createdAt == (if data.createdAt.Val? then data.createdAt.value else if data.createdAt.Null? then 0 else nowMs)
  {
    if data.counts.Null? then Err("TypeError")
    else
      var counts := OrElse(data.counts, CountsData(Undefined, Undefined, Undefined));
      Ok(HabitFields(
        OrElse(data.id, freshId), data.name,
        Targets(Defaulted(data.dailyTarget, 0), Defaulted(data.weeklyTarget, 0), Defaulted(data.monthlyTarget, 0)),
        Counts(OrElse(counts.daily, 0), OrElse(counts.weekly, 0), OrElse(counts.monthly, 0)),
        Defaulted(data.isActive, true),
        if data.createdAt.Val? then data.createdAt.value else if data.createdAt.Null? then 0 else nowMs))
  }

  /** `Habit.fromJSON(data)` on what `toJSON` wrote. */
  function FromJson(j: HabitFields, freshId: string, nowMs: int): Result<HabitFields> {
    Construct(HabitData(Val(j.id), j.name, AsJs(j.targets.daily), AsJs(j.targets.weekly), AsJs(j.targets.monthly),
      AsJs(j.isActive), Val(CountsData(Val(j.counts.daily), Val(j.counts.weekly), Val(j.counts.monthly))),
      Val(j.createdAt)), freshId, nowMs)
  }

  /** `Habit.fromJSON(h.toJSON())` gives back id, name, targets, counts, `isActive` and `createdAt`. */
  lemma FromJsonOfToJson(h: Habit, freshId: string, nowMs: int)
    ensures FromJson(h.ToJson(), freshId, nowMs) == Ok(h.Fields())
  {
    var j := h.ToJson();
    var r := FromJson(j, freshId, nowMs);
    assert r.Ok?;
    assert r.value.targets == j.targets && r.value.counts == j.counts;
  }

  /** `target > 0 && count >= target`; a `null` target is never met. */
  predicate Complete(target: Option<int>, count: int) {
    target.Some? && target.value > 0 && count >= target.value
  }

  class Habit {
    var id: string
    var name: Js<string>
    var targets: Targets
    var counts: Counts
    var isActive: Option<bool>
    var createdAt: int

    function Fields(): HabitFields
      reads this
    {
      HabitFields(id, name, targets, counts, isActive, createdAt)
    }

    constructor (f: HabitFields)
      ensures Fields() == f
    {
      id, name, targets, counts, isActive, createdAt := f.id, f.name, f.targets, f.counts, f.isActive, f.createdAt;
    }

    /** `new Habit(data)`, or the TypeError it throws. */
    static method Create(data: HabitData, freshId: string, nowMs: int) returns (r: Result<Habit>)
      ensures r.Ok? <==> Construct(data, freshId, nowMs).Ok?
      ensures r.Ok? ==> fresh(r.value) && r.value.Fields() == Construct(data, freshId, nowMs).value
    {
      var c := Construct(data, freshId, nowMs);
      if c.Err? {
        return Err(c.message);
      }
      var h := new Habit(c.value);
      return Ok(h);
    }

    /** Truthiness of `isActive`. */
    predicate Active()
      reads this
    {
      isActive == Some(true)
    }

    method Activate()
      modifies this`isActive
      ensures Active()
    {
      isActive := Some(true);
    }

    method Deactivate()
      modifies this`isActive
      ensures isActive == Some(false) && !Active()
    {
      isActive := Some(false);
    }

    /** `increment(amount)`: adds `amount` to all three counters, but only when active. */
    method Increment(amount: int)
      modifies this`counts
      ensures old(Active()) ==>
        counts == Counts(old(counts.daily) + amount, old(counts.weekly) + amount, old(counts.monthly) + amount)
      ensures !old(Active()) ==> counts == old(counts)
    {
      if !Active() {
        return;
      }
      counts := Counts(counts.daily + amount, counts.weekly + amount, counts.monthly + amount);
    }

    /** `increment()` with no argument: the amount defaults to 1. */
    method IncrementDefault()
      modifies this`counts
      ensures old(Active()) ==>
        counts == Counts(old(counts.daily) + 1, old(counts.weekly) + 1, old(counts.monthly) + 1)
      ensures !old(Active()) ==> counts == old(counts)
    {
      Increment(1);
    }

    /** `resetDaily()` zeroes the daily counter only. */
    method ResetDaily()
      modifies this`counts
      ensures counts == old(counts).(daily := 0)
    {
      counts := counts.(daily := 0);
    }

    /** `resetWeekly()` zeroes the weekly counter only. */
    method ResetWeekly()
      modifies this`counts
      ensures counts == old(counts).(weekly := 0)
    {
      counts := counts.(weekly := 0);
    }

    /** `resetMonthly()` zeroes the monthly counter only. */
    method ResetMonthly()
      modifies this`counts
      ensures counts == old(counts).(monthly := 0)
    {
      counts := counts.(monthly := 0);
    }

    function IsDailyComplete(): (b: bool)
      reads this
      ensures b <==> targets.daily.Some? && targets.daily.value > 0 && counts.daily >= targets.daily.value
    {
      Complete(targets.daily, counts.daily)
    }

    function IsWeeklyComplete(): (b: bool)
      reads this
      ensures b <==> targets.weekly.Some? && targets.weekly.value > 0 && counts.weekly >= targets.weekly.value
    {
      Complete(targets.weekly, counts.weekly)
    }

    function IsMonthlyComplete(): (b: bool)
      reads this
      ensures b <==> targets.monthly.Some? && targets.monthly.value > 0 && counts.monthly >= targets.monthly.value
    {
      Complete(targets.monthly, counts.monthly)
    }

    /** `toJSON()`: copies of the targets and counts with the other fields. */
    function ToJson(): (j: HabitFields)
      reads this
      ensures j == Fields()
    {
      HabitFields(id, name, targets, counts, isActive, createdAt)
    }
  }

  /** With a zero target a period is never complete, however large its count. */
  lemma ZeroTargetNeverComplete(count: int)
    ensures !Complete(Some(0), count) && !Complete(None, count)
  {
  }

  /** Once met, a positive target stays met as the count grows. */
  lemma CompleteIsUpwardClosed(target: Option<int>, count: int, more: nat)
    requires Complete(target, count)
    ensures Complete(target, count + more)
  {
  }
}
