/**
 * The storage layer of the frontend (frontend/js/data/storage.js), over JSON
 * values: the moments kept in `localStorage`, the normalisers that rename
 * properties between the frontend's camelCase and the API's snake_case, and
 * the payload `convertPrimeToReview` builds. The network calls are left out.
 */
module Storage {
  import opened Common
  import RepetitionLog
  import FrontendPrimeItem

  /** A JSON value as `JSON.parse` gives it; an object maps its property names to values. */
  datatype JVal = JNull | JBool(b: bool) | JNum(n: int) | JStr(s: string) | JArr(items: seq<JVal>) | JObj(fields: map<Prop, JVal>)

  /**
   * A property name: `Known(code)` for each name the storage code spells out
   * (the constants below, one code per name), `Other(name)` for every other name.
   */
  datatype Prop = Known(code: nat) | Other(name: string)

  const id: Prop := Known(0)
  const title: Prop := Known(1)
  const description: Prop := Known(2)
  const category: Prop := Known(3)
  const archived: Prop := Known(4)

  const task_title: Prop := Known(5)
  const taskTitle: Prop := Known(6)
  const started_at: Prop := Known(7)
  const startedAt: Prop := Known(8)
  const ended_at: Prop := Known(9)
  const endedAt: Prop := Known(10)
  const duration_seconds: Prop := Known(11)
  const durationSeconds: Prop := Known(12)

  const daily_target: Prop := Known(13)
  const dailyTarget: Prop := Known(14)
  const weekly_target: Prop := Known(15)
  const weeklyTarget: Prop := Known(16)
  const monthly_target: Prop := Known(17)
  const monthlyTarget: Prop := Known(18)

  const targets: Prop := Known(19)
  const counts: Prop := Known(20)
  const daily: Prop := Known(21)
  const weekly: Prop := Known(22)
  const monthly: Prop := Known(23)

  const daily_count: Prop := Known(24)
  const dailyCount: Prop := Known(25)
  const weekly_count: Prop := Known(26)
  const weeklyCount: Prop := Known(27)
  const monthly_count: Prop := Known(28)
  const monthlyCount: Prop := Known(29)

  const is_active: Prop := Known(30)
  const isActive: Prop := Known(31)
  const created_at: Prop := Known(32)
  const createdAt: Prop := Known(33)

  const prime_timestamps: Prop := Known(34)
  const primeTimestamps: Prop := Known(35)
  const review_timestamps: Prop := Known(36)
  const reviewTimestamps: Prop := Known(37)
  const first_studied_at: Prop := Known(38)
  const firstStudiedAt: Prop := Known(39)

  type Obj = map<Prop, JVal>

  /** `o.k`, with `None` for `undefined`. */
  function Lookup(o: Obj, k: Prop): (r: Option<JVal>)
    ensures r.Some? <==> k in o
    ensures r.Some? ==> r.value == o[k]
  {
    if k in o then Some(o[k]) else None
  }

  /** `a ?? b` */
  function Nullish(a: Option<JVal>, b: Option<JVal>): Option<JVal> {
    if a.Some? && a.value != JNull then a else b
  }

  /** A truthy value whose `typeof` is `"object"`: an object or an array. */
  predicate IsObject(v: JVal) {
    v.JObj? || v.JArr?
  }

  lemma NatToStringInjective()
    ensures forall i: nat, j: nat :: NatToString(i) == NatToString(j) ==> i == j
  {
    forall i: nat, j: nat | NatToString(i) == NatToString(j) ensures i == j {
      DigitsValueOfNatToString(i);
      DigitsValueOfNatToString(j);
    }
  }

  /** `{ ...v }`: an object's own properties; an array spreads into its index keys. */
  function Spread(v: JVal): Obj {
    match v
    case JObj(m) => m
    case JArr(items) =>
      NatToStringInjective();
      map i | 0 <= i < |items| :: Other(NatToString(i)) := items[i]
    case _ => map[]
  }

  /**
   * `o.outer?.inner`, or `undefined` when there is no such fallback; only an
   * object has the named properties used as fallbacks.
   */
  function NestedValue(o: Obj, nested: Option<(Prop, Prop)>): Option<JVal> {
    if nested.Some? && nested.value.0 in o && o[nested.value.0].JObj? then
      Lookup(o[nested.value.0].fields, nested.value.1)
    else None
  }

  // ---------------------------------------------------------------------
  // camelCase -> snake_case (the `normalize*Payload` functions)

  /**
   * One snake_case property of an API payload: its camelCase spelling, an
   * optional nested fallback `outer.inner`, and whether a number in it is
   * turned into an ISO date string.
   */
  datatype SnakeRule = SnakeRule(snake: Prop, camel: Prop, nested: Option<(Prop, Prop)>, toIso: bool)

  /** `snake ?? camel ?? outer?.inner`, converted; `None` is `undefined`, which sets nothing. */
  function Resolve(o: Obj, rule: SnakeRule, iso: int -> string): (r: Option<JVal>)
    ensures rule.toIso && r.Some? ==> !r.value.JNum?
  {
    var direct := Nullish(Lookup(o, rule.snake), Lookup(o, rule.camel));
    var v := if rule.nested.Some? then Nullish(direct, NestedValue(o, rule.nested)) else direct;
    if rule.toIso && v.Some? && v.value.JNum? then Some(JStr(iso(v.value.n))) else v
  }

  /** `if (v !== undefined) m.k = v` */
  function SetDefined(m: Obj, k: Prop, v: Option<JVal>): (r: Obj)
    ensures k in r || (v.None? && k !in m)
  {
    if v.Some? then m[k := v.value] else m
  }

  /** One more assignment takes the fold one rule further. */
  lemma AssignedStep(o: Obj, rules: seq<SnakeRule>, n: nat, base: Obj, iso: int -> string, m: Obj, k: Prop, v: Option<JVal>)
    requires n < |rules| && m == Assigned(o, rules, n, base, iso)
    requires k == rules[n].snake && v == Resolve(o, rules[n], iso)
    ensures SetDefined(m, k, v) == Assigned(o, rules, n + 1, base, iso)
  {
  }

  /** The assignments `if (x !== undefined) normalized.snake = x` of the first `n` rules, made on `base`. */
  function Assigned(o: Obj, rules: seq<SnakeRule>, n: nat, base: Obj, iso: int -> string): Obj
    requires n <= |rules|
  {
    if n == 0 then base
    else SetDefined(Assigned(o, rules, n - 1, base, iso), rules[n - 1].snake, Resolve(o, rules[n - 1], iso))
  }

  /** A normaliser: copy the payload, delete the `dropped` properties, then assign each rule's value. */
  function NormalizedPayload(v: JVal, rules: seq<SnakeRule>, dropped: set<Prop>, iso: int -> string): JVal {
    if !IsObject(v) then v else JObj(Assigned(Spread(v), rules, |rules|, Spread(v) - dropped, iso))
  }

  /** Distinct snake_case names outside `dropped`, every camelCase name and nested source inside it. */
  predicate RulesWellFormed(rules: seq<SnakeRule>, dropped: set<Prop>) {
    (forall i, j :: 0 <= i < j < |rules| ==> rules[i].snake != rules[j].snake)
    && forall i :: 0 <= i < |rules| ==>
      rules[i].snake !in dropped && rules[i].camel in dropped
      && (rules[i].nested.Some? ==> rules[i].nested.value.0 in dropped)
  }

  /** The last of the first `n` rules for property `k`, or -1. */
  function SnakeIndex(rules: seq<SnakeRule>, n: nat, k: Prop): (i: int)
    requires n <= |rules|
    ensures -1 <= i < n
    ensures i >= 0 ==> rules[i].snake == k
    ensures i == -1 ==> forall j :: 0 <= j < n ==> rules[j].snake != k
  {
    if n == 0 then -1 else if rules[n - 1].snake == k then n - 1 else SnakeIndex(rules, n - 1, k)
  }

  /** What a rule leaves in its snake_case property: the resolved value, or what the copy had. */
  function SnakeResult(o: Obj, base: Obj, rule: SnakeRule, iso: int -> string): Option<JVal> {
    var x := Resolve(o, rule, iso);
    if x.Some? then x else Lookup(base, rule.snake)
  }

  lemma {:induction false} AssignedAt(o: Obj, rules: seq<SnakeRule>, n: nat, base: Obj, iso: int -> string, k: Prop)
    requires n <= |rules|
    requires forall i, j :: 0 <= i < j < |rules| ==> rules[i].snake != rules[j].snake
    ensures var i := SnakeIndex(rules, n, k);
      Lookup(Assigned(o, rules, n, base, iso), k)
        == if i >= 0 then SnakeResult(o, base, rules[i], iso) else Lookup(base, k)
  {
    if n > 0 {
      AssignedAt(o, rules, n - 1, base, iso, k);
      var acc := Assigned(o, rules, n - 1, base, iso);
      if rules[n - 1].snake == k {
        assert SnakeIndex(rules, n - 1, k) == -1;
      } else {
        assert SnakeIndex(rules, n, k) == SnakeIndex(rules, n - 1, k);
        assert Lookup(Assigned(o, rules, n, base, iso), k) == Lookup(acc, k);
      }
    }
  }

  /** The value a normalised payload has for property `k`. */
  function PayloadValue(o: Obj, rules: seq<SnakeRule>, dropped: set<Prop>, iso: int -> string, k: Prop): Option<JVal> {
    var i := SnakeIndex(rules, |rules|, k);
    if i >= 0 then SnakeResult(o, o, rules[i], iso) else if k in dropped then None else Lookup(o, k)
  }

  /**
   * The normalised payload has none of the dropped (camelCase) properties; each
   * snake_case property holds the first non-nullish of its snake_case,
   * camelCase and nested sources, or keeps what it had; every other property is
   * copied unchanged.
   */
  lemma PayloadAt(v: JVal, rules: seq<SnakeRule>, dropped: set<Prop>, iso: int -> string, k: Prop)
    requires RulesWellFormed(rules, dropped) && IsObject(v)
    ensures NormalizedPayload(v, rules, dropped, iso).JObj?
    ensures Lookup(NormalizedPayload(v, rules, dropped, iso).fields, k) == PayloadValue(Spread(v), rules, dropped, iso, k)
  {
    var o := Spread(v);
    AssignedAt(o, rules, |rules|, o - dropped, iso, k);
    var i := SnakeIndex(rules, |rules|, k);
    if i >= 0 {
      assert Lookup(o - dropped, k) == Lookup(o, k);
    }
  }

  /** Dropped properties are gone, and a property no rule names is copied as it was. */
  lemma PayloadKeys(v: JVal, rules: seq<SnakeRule>, dropped: set<Prop>, iso: int -> string)
    requires RulesWellFormed(rules, dropped) && IsObject(v)
    ensures var r := NormalizedPayload(v, rules, dropped, iso);
      (r.JObj?
       && (forall k :: k in dropped ==> k !in r.fields)
       && (forall k :: k !in dropped && SnakeIndex(rules, |rules|, k) == -1 ==> Lookup(r.fields, k) == Lookup(Spread(v), k)))
  {
    var r := NormalizedPayload(v, rules, dropped, iso).fields;
    forall k | k in dropped
      ensures k !in r
    {
      PayloadAt(v, rules, dropped, iso, k);
      var i := SnakeIndex(rules, |rules|, k);
      if i >= 0 {
        assert rules[i].snake !in dropped;
      }
    }
    forall k | k !in dropped && SnakeIndex(rules, |rules|, k) == -1
      ensures Lookup(r, k) == Lookup(Spread(v), k)
    {
      PayloadAt(v, rules, dropped, iso, k);
    }
  }

  /** An existing non-null snake_case value wins over the camelCase one; otherwise the camelCase one is used. */
  lemma SnakeWins(o: Obj, rule: SnakeRule, iso: int -> string)
    requires !rule.toIso
    ensures rule.snake in o && o[rule.snake] != JNull ==> SnakeResult(o, o, rule, iso) == Some(o[rule.snake])
    ensures (rule.snake !in o || o[rule.snake] == JNull) && rule.camel in o && o[rule.camel] != JNull
      ==> SnakeResult(o, o, rule, iso) == Some(o[rule.camel])
  {
  }

  lemma {:induction false} AssignedUnchanged(r: Obj, rules: seq<SnakeRule>, n: nat, iso: int -> string)
    requires n <= |rules|
    requires forall i :: 0 <= i < n ==> var x := Resolve(r, rules[i], iso);
      x.Some? ==> rules[i].snake in r && r[rules[i].snake] == x.value
    ensures Assigned(r, rules, n, r, iso) == r
  {
    if n > 0 {
      AssignedUnchanged(r, rules, n - 1, iso);
    }
  }

  /** Normalising an already normalised payload changes nothing. */
  lemma PayloadIdempotent(v: JVal, rules: seq<SnakeRule>, dropped: set<Prop>, iso: int -> string)
    requires RulesWellFormed(rules, dropped)
    ensures var r := NormalizedPayload(v, rules, dropped, iso);
      NormalizedPayload(r, rules, dropped, iso) == r
  {
    if IsObject(v) {
      PayloadKeys(v, rules, dropped, iso);
      var o := Spread(v);
      var r := NormalizedPayload(v, rules, dropped, iso).fields;
      assert r - dropped == r;
      forall i | 0 <= i < |rules|
        ensures var x := Resolve(r, rules[i], iso); x.Some? ==> rules[i].snake in r && r[rules[i].snake] == x.value
      {
        assert rules[i].camel in dropped;
        assert NestedValue(r, rules[i].nested) == None;
        PayloadAt(v, rules, dropped, iso, rules[i].snake);
        assert SnakeIndex(rules, |rules|, rules[i].snake) == i;
      }
      AssignedUnchanged(r, rules, |rules|, iso);
    }
  }

  /** The date conversion of the payloads that have no date rule. */
  const NoDates: int -> string := (n: int) => ""

  function TimeEntryRules(): (r: seq<SnakeRule>)
    ensures RulesWellFormed(r, TimeEntryDropped())
  {
    [ SnakeRule(task_title, taskTitle, None, false),
      SnakeRule(started_at, startedAt, None, false),
      SnakeRule(ended_at, endedAt, None, false),
      SnakeRule(duration_seconds, durationSeconds, None, false) ]
  }

  function TimeEntryDropped(): set<Prop> {
    {taskTitle, startedAt, endedAt, durationSeconds}
  }

  /** `normalizeTimeEntryPayload(payload)` */
  method NormalizeTimeEntryPayload(payload: JVal) returns (r: JVal)
    ensures r == NormalizedPayload(payload, TimeEntryRules(), TimeEntryDropped(), NoDates)
    ensures NormalizedPayload(r, TimeEntryRules(), TimeEntryDropped(), NoDates) == r
    ensures !IsObject(payload) ==> r == payload
    ensures IsObject(payload) ==>
      r.JObj? && taskTitle !in r.fields && startedAt !in r.fields && endedAt !in r.fields && durationSeconds !in r.fields
  {
    if !IsObject(payload) {
      PayloadIdempotent(payload, TimeEntryRules(), TimeEntryDropped(), NoDates);
      return payload;
    }
    var rules := TimeEntryRules();
    var p := Spread(payload);
    var taskTitleValue := Nullish(Lookup(p, task_title), Lookup(p, taskTitle));
    var startedAtValue := Nullish(Lookup(p, started_at), Lookup(p, startedAt));
    var endedAtValue := Nullish(Lookup(p, ended_at), Lookup(p, endedAt));
    var durationSecondsValue := Nullish(Lookup(p, duration_seconds), Lookup(p, durationSeconds));

    var normalized := p;
    normalized := normalized - {taskTitle};
    normalized := normalized - {startedAt};
    normalized := normalized - {endedAt};
    normalized := normalized - {durationSeconds};
    ghost var base := p - TimeEntryDropped();
    assert normalized == base == Assigned(p, rules, 0, base, NoDates);

    assert Resolve(p, rules[0], NoDates) == taskTitleValue;
    normalized := SetDefined(normalized, task_title, taskTitleValue);
    assert normalized == Assigned(p, rules, 1, base, NoDates);
    assert Resolve(p, rules[1], NoDates) == startedAtValue;
    normalized := SetDefined(normalized, started_at, startedAtValue);
    assert normalized == Assigned(p, rules, 2, base, NoDates);
    assert Resolve(p, rules[2], NoDates) == endedAtValue;
    normalized := SetDefined(normalized, ended_at, endedAtValue);
    assert normalized == Assigned(p, rules, 3, base, NoDates);
    assert Resolve(p, rules[3], NoDates) == durationSecondsValue;
    normalized := SetDefined(normalized, duration_seconds, durationSecondsValue);
    assert normalized == Assigned(p, rules, 4, base, NoDates);
    r := JObj(normalized);
    PayloadIdempotent(payload, TimeEntryRules(), TimeEntryDropped(), NoDates);
    PayloadKeys(payload, TimeEntryRules(), TimeEntryDropped(), NoDates);
  }

  function HabitRules(): (r: seq<SnakeRule>)
    ensures RulesWellFormed(r, HabitDropped())
  {
    [ SnakeRule(daily_target, dailyTarget, Some((targets, daily)), false),
      SnakeRule(weekly_target, weeklyTarget, Some((targets, weekly)), false),
      SnakeRule(monthly_target, monthlyTarget, Some((targets, monthly)), false),
      SnakeRule(daily_count, dailyCount, Some((counts, daily)), false),
      SnakeRule(weekly_count, weeklyCount, Some((counts, weekly)), false),
      SnakeRule(monthly_count, monthlyCount, Some((counts, monthly)), false),
      SnakeRule(is_active, isActive, None, false),
      SnakeRule(created_at, createdAt, None, false) ]
  }

  function HabitDropped(): set<Prop> {
    {targets, counts, isActive, dailyTarget, weeklyTarget, monthlyTarget,
     dailyCount, weeklyCount, monthlyCount, createdAt}
  }

  /** `normalizeHabitPayload(payload)` */
  method NormalizeHabitPayload(payload: JVal) returns (r: JVal)
    ensures r == NormalizedPayload(payload, HabitRules(), HabitDropped(), NoDates)
    ensures NormalizedPayload(r, HabitRules(), HabitDropped(), NoDates) == r
    ensures !IsObject(payload) ==> r == payload
    ensures IsObject(payload) ==> r.JObj? && (forall k :: k in HabitDropped() ==> k !in r.fields)
  {
    if !IsObject(payload) {
      PayloadIdempotent(payload, HabitRules(), HabitDropped(), NoDates);
      return payload;
    }
    var rules := HabitRules();
    var p := Spread(payload);
    var dailyTargetValue := Resolve(p, rules[0], NoDates);
    var weeklyTargetValue := Resolve(p, rules[1], NoDates);
    var monthlyTargetValue := Resolve(p, rules[2], NoDates);
    var dailyCountValue := Resolve(p, rules[3], NoDates);
    var weeklyCountValue := Resolve(p, rules[4], NoDates);
    var monthlyCountValue := Resolve(p, rules[5], NoDates);
    var isActiveValue := Resolve(p, rules[6], NoDates);
    var createdAtValue := Resolve(p, rules[7], NoDates);
    // each value above is `snake ?? camel ?? outer?.inner` for the rule at that index
    var normalized := p - HabitDropped();
    ghost var base := normalized;
    assert normalized == Assigned(p, rules, 0, base, NoDates);

    AssignedStep(p, rules, 0, base, NoDates, normalized, daily_target, dailyTargetValue);
    normalized := SetDefined(normalized, daily_target, dailyTargetValue);
    AssignedStep(p, rules, 1, base, NoDates, normalized, weekly_target, weeklyTargetValue);
    normalized := SetDefined(normalized, weekly_target, weeklyTargetValue);
    AssignedStep(p, rules, 2, base, NoDates, normalized, monthly_target, monthlyTargetValue);
    normalized := SetDefined(normalized, monthly_target, monthlyTargetValue);
    AssignedStep(p, rules, 3, base, NoDates, normalized, daily_count, dailyCountValue);
    normalized := SetDefined(normalized, daily_count, dailyCountValue);
    AssignedStep(p, rules, 4, base, NoDates, normalized, weekly_count, weeklyCountValue);
    normalized := SetDefined(normalized, weekly_count, weeklyCountValue);
    AssignedStep(p, rules, 5, base, NoDates, normalized, monthly_count, monthlyCountValue);
    normalized := SetDefined(normalized, monthly_count, monthlyCountValue);
    AssignedStep(p, rules, 6, base, NoDates, normalized, is_active, isActiveValue);
    normalized := SetDefined(normalized, is_active, isActiveValue);
    AssignedStep(p, rules, 7, base, NoDates, normalized, created_at, createdAtValue);
    normalized := SetDefined(normalized, created_at, createdAtValue);
    r := JObj(normalized);
    PayloadIdempotent(payload, HabitRules(), HabitDropped(), NoDates);
    PayloadKeys(payload, HabitRules(), HabitDropped(), NoDates);
  }

  function PrimeRules(): (r: seq<SnakeRule>)
    ensures RulesWellFormed(r, PrimeDropped())
  {
    [ SnakeRule(prime_timestamps, primeTimestamps, None, false),
      SnakeRule(created_at, createdAt, None, false) ]
  }

  function PrimeDropped(): set<Prop> {
    {primeTimestamps, createdAt}
  }

  /** `normalizePrimeItemPayload(payload)` */
  method NormalizePrimeItemPayload(payload: JVal) returns (r: JVal)
    ensures r == NormalizedPayload(payload, PrimeRules(), PrimeDropped(), NoDates)
    ensures NormalizedPayload(r, PrimeRules(), PrimeDropped(), NoDates) == r
    ensures !IsObject(payload) ==> r == payload
    ensures IsObject(payload) ==> r.JObj? && primeTimestamps !in r.fields && createdAt !in r.fields
  {
    if !IsObject(payload) {
      PayloadIdempotent(payload, PrimeRules(), PrimeDropped(), NoDates);
      return payload;
    }
    var rules := PrimeRules();
    var p := Spread(payload);
    var primeTimestampsValue := Nullish(Lookup(p, prime_timestamps), Lookup(p, primeTimestamps));
    var createdAtValue := Nullish(Lookup(p, created_at), Lookup(p, createdAt));
    var normalized := p - {primeTimestamps};
    normalized := normalized - {createdAt};
    ghost var base := p - PrimeDropped();
    assert normalized == base == Assigned(p, rules, 0, base, NoDates);
    assert Resolve(p, rules[0], NoDates) == primeTimestampsValue;
    normalized := SetDefined(normalized, prime_timestamps, primeTimestampsValue);
    assert normalized == Assigned(p, rules, 1, base, NoDates);
    assert Resolve(p, rules[1], NoDates) == createdAtValue;
    normalized := SetDefined(normalized, created_at, createdAtValue);
    assert normalized == Assigned(p, rules, 2, base, NoDates);
    r := JObj(normalized);
    PayloadIdempotent(payload, PrimeRules(), PrimeDropped(), NoDates);
    PayloadKeys(payload, PrimeRules(), PrimeDropped(), NoDates);
  }

  function ReviewRules(): (r: seq<SnakeRule>)
    ensures RulesWellFormed(r, ReviewDropped())
  {
    [ SnakeRule(review_timestamps, reviewTimestamps, None, false),
      SnakeRule(first_studied_at, firstStudiedAt, None, true),
      SnakeRule(created_at, createdAt, None, false) ]
  }

  function ReviewDropped(): set<Prop> {
    {reviewTimestamps, firstStudiedAt, createdAt}
  }

  /**
   * `normalizeReviewItemPayload(payload)`; `iso` is `new Date(n).toISOString()`,
   * applied to a numeric `first_studied_at`.
   */
  method NormalizeReviewItemPayload(payload: JVal, iso: int -> string) returns (r: JVal)
    ensures r == NormalizedPayload(payload, ReviewRules(), ReviewDropped(), iso)
    ensures NormalizedPayload(r, ReviewRules(), ReviewDropped(), iso) == r
    ensures !IsObject(payload) ==> r == payload
    ensures IsObject(payload) ==>
      r.JObj? && reviewTimestamps !in r.fields && firstStudiedAt !in r.fields && createdAt !in r.fields
  {
    if !IsObject(payload) {
      PayloadIdempotent(payload, ReviewRules(), ReviewDropped(), iso);
      return payload;
    }
    var rules := ReviewRules();
    var p := Spread(payload);
    var reviewTimestampsValue := Nullish(Lookup(p, review_timestamps), Lookup(p, reviewTimestamps));
    var firstStudiedAtValue := Nullish(Lookup(p, first_studied_at), Lookup(p, firstStudiedAt));
    var createdAtValue := Nullish(Lookup(p, created_at), Lookup(p, createdAt));
    var normalized := p - {reviewTimestamps};
    normalized := normalized - {firstStudiedAt};
    normalized := normalized - {createdAt};
    ghost var base := p - ReviewDropped();
    assert normalized == base == Assigned(p, rules, 0, base, iso);
    assert Resolve(p, rules[0], iso) == reviewTimestampsValue;
    normalized := SetDefined(normalized, review_timestamps, reviewTimestampsValue);
    assert normalized == Assigned(p, rules, 1, base, iso);
    var normalizedFirstStudiedAt := firstStudiedAtValue;
    if normalizedFirstStudiedAt.Some? && normalizedFirstStudiedAt.value.JNum? {
      normalizedFirstStudiedAt := Some(JStr(iso(normalizedFirstStudiedAt.value.n)));
    }
    assert Resolve(p, rules[1], iso) == normalizedFirstStudiedAt;
    normalized := SetDefined(normalized, first_studied_at, normalizedFirstStudiedAt);
    assert normalized == Assigned(p, rules, 2, base, iso);
    assert Resolve(p, rules[2], iso) == createdAtValue;
    normalized := SetDefined(normalized, created_at, createdAtValue);
    assert normalized == Assigned(p, rules, 3, base, iso);
    r := JObj(normalized);
    PayloadIdempotent(payload, ReviewRules(), ReviewDropped(), iso);
    PayloadKeys(payload, ReviewRules(), ReviewDropped(), iso);
  }

  // ---------------------------------------------------------------------
  // snake_case -> camelCase (the `normalize*FromApi` functions)

  /** One camelCase property read from an API item: its snake_case spelling, a nested source, a default. */
  datatype CamelRule = CamelRule(camel: Prop, snake: Prop, nested: Option<(Prop, Prop)>, fallback: Option<JVal>)

  /** `camel ?? snake ?? outer?.inner ?? fallback`; `None` is `undefined`. */
  function ApiValue(o: Obj, rule: CamelRule): (r: Option<JVal>)
    ensures rule.fallback.Some? ==> r.Some?
  {
    var direct := Nullish(Lookup(o, rule.camel), Lookup(o, rule.snake));
    var v := if rule.nested.Some? then Nullish(direct, NestedValue(o, rule.nested)) else direct;
    if rule.fallback.Some? then Nullish(v, rule.fallback) else v
  }

  /** `{ ...item, camel: value, ... }` for the first `n` rules; a property set to `undefined` is absent. */
  function WithCamel(o: Obj, rules: seq<CamelRule>, n: nat): Obj
    requires n <= |rules|
  {
    if n == 0 then o
    else
      var acc := WithCamel(o, rules, n - 1);
      var v := ApiValue(o, rules[n - 1]);
      if v.Some? then acc[rules[n - 1].camel := v.value] else acc - {rules[n - 1].camel}
  }

  predicate CamelsDistinct(rules: seq<CamelRule>) {
    forall i, j :: 0 <= i < j < |rules| ==> rules[i].camel != rules[j].camel
  }

  /** The last of the first `n` rules for property `k`, or -1. */
  function CamelIndex(rules: seq<CamelRule>, n: nat, k: Prop): (i: int)
    requires n <= |rules|
    ensures -1 <= i < n
    ensures i >= 0 ==> rules[i].camel == k
    ensures i == -1 ==> forall j :: 0 <= j < n ==> rules[j].camel != k
  {
    if n == 0 then -1 else if rules[n - 1].camel == k then n - 1 else CamelIndex(rules, n - 1, k)
  }

  /** Each camelCase property holds its resolved value; every other property is copied. */
  lemma {:induction false} WithCamelAt(o: Obj, rules: seq<CamelRule>, n: nat, k: Prop)
    requires n <= |rules| && CamelsDistinct(rules)
    ensures var i := CamelIndex(rules, n, k);
      Lookup(WithCamel(o, rules, n), k) == if i >= 0 then ApiValue(o, rules[i]) else Lookup(o, k)
  {
    if n > 0 {
      WithCamelAt(o, rules, n - 1, k);
    }
  }

  function FromApi(item: JVal, rules: seq<CamelRule>): JVal {
    if !IsObject(item) then item else JObj(WithCamel(Spread(item), rules, |rules|))
  }

  function HabitApiRules(): (r: seq<CamelRule>)
    ensures CamelsDistinct(r)
  {
    [ CamelRule(dailyTarget, daily_target, Some((targets, daily)), None),
      CamelRule(weeklyTarget, weekly_target, Some((targets, weekly)), None),
      CamelRule(monthlyTarget, monthly_target, Some((targets, monthly)), None),
      CamelRule(isActive, is_active, None, Some(JBool(true))),
      CamelRule(createdAt, created_at, None, Some(JNull)) ]
  }

  /** `item.counts?.period ?? item.period_count ?? 0` */
  function CountValue(o: Obj, period: Prop, snake: Prop): (r: JVal)
    ensures r != JNull
    ensures (r == JNum(0)) || Nullish(NestedValue(o, Some((counts, period))), Lookup(o, snake)) == Some(r)
  {
    Nullish(Nullish(NestedValue(o, Some((counts, period))), Lookup(o, snake)), Some(JNum(0))).value
  }

  function HabitCounts(o: Obj): Obj {
    map[daily := CountValue(o, daily, daily_count),
        weekly := CountValue(o, weekly, weekly_count),
        monthly := CountValue(o, monthly, monthly_count)]
  }

  /**
   * `normalizeHabitFromApi(item)`: the camelCase targets, a `counts` object whose
   * counts default to 0, `isActiveValue` defaulting to true and `createdAtValue` to null.
   */
  function NormalizeHabitFromApi(item: JVal): (r: JVal)
    ensures !IsObject(item) ==> r == item
    ensures IsObject(item) ==> r.JObj? && (var o := Spread(item); var f := r.fields;
      counts in f && f[counts] == JObj(HabitCounts(o))
      && isActive in f && f[isActive] != JNull
      && (Nullish(Lookup(o, isActive), Lookup(o, is_active)).None? ==> f[isActive] == JBool(true))
      && (Lookup(o, isActive).Some? && o[isActive] != JNull ==> f[isActive] == o[isActive])
      && createdAt in f
      && (forall k :: k != counts && CamelIndex(HabitApiRules(), 5, k) == -1 ==> Lookup(f, k) == Lookup(o, k)))
  {
    if !IsObject(item) then item
    else
      var o := Spread(item);
      WithCamelAt(o, HabitApiRules(), 5, isActive);
      WithCamelAt(o, HabitApiRules(), 5, createdAt);
      assert forall k :: CamelIndex(HabitApiRules(), 5, k) == -1 ==> Lookup(WithCamel(o, HabitApiRules(), 5), k) == Lookup(o, k) by {
        forall k { WithCamelAt(o, HabitApiRules(), 5, k); }
      }
      JObj(WithCamel(o, HabitApiRules(), 5)[counts := JObj(HabitCounts(o))])
  }

  /** Every count of a read-back habit is a number or what the item carried, never null. */
  lemma HabitCountsNeverNull(item: JVal)
    requires IsObject(item)
    ensures var c := NormalizeHabitFromApi(item).fields[counts].fields;
      daily in c && weekly in c && monthly in c
      && c[daily] != JNull && c[weekly] != JNull && c[monthly] != JNull
      && (Nullish(NestedValue(Spread(item), Some((counts, daily))), Lookup(Spread(item), daily_count)).None? ==>
            c[daily] == JNum(0))
  {
  }

  function PrimeApiRules(): (r: seq<CamelRule>)
    ensures CamelsDistinct(r)
  {
    [ CamelRule(primeTimestamps, prime_timestamps, None, Some(JArr([]))),
      CamelRule(createdAt, created_at, None, Some(JNull)) ]
  }

  /** `normalizePrimeItemFromApi(item)`: `primeTimestampsValue` defaults to `[]`, `createdAtValue` to null. */
  function NormalizePrimeItemFromApi(item: JVal): (r: JVal)
    ensures !IsObject(item) ==> r == item
    ensures IsObject(item) ==> r.JObj? && (var o := Spread(item); var f := r.fields;
      primeTimestamps in f && f[primeTimestamps] != JNull
      && f[primeTimestamps] == Nullish(Nullish(Lookup(o, primeTimestamps), Lookup(o, prime_timestamps)), Some(JArr([]))).value
      && createdAt in f
      && f[createdAt] == Nullish(Nullish(Lookup(o, createdAt), Lookup(o, created_at)), Some(JNull)).value
      && (forall k :: k != primeTimestamps && k != createdAt ==> Lookup(f, k) == Lookup(o, k)))
  {
    if !IsObject(item) then item
    else
      var o := Spread(item);
      WithCamelAt(o, PrimeApiRules(), 2, primeTimestamps);
      WithCamelAt(o, PrimeApiRules(), 2, createdAt);
      assert forall k :: k != primeTimestamps && k != createdAt ==> Lookup(WithCamel(o, PrimeApiRules(), 2), k) == Lookup(o, k) by {
        forall k { WithCamelAt(o, PrimeApiRules(), 2, k); }
      }
      FromApi(item, PrimeApiRules())
  }

  function ReviewApiRules(): (r: seq<CamelRule>)
    ensures CamelsDistinct(r)
  {
    [ CamelRule(reviewTimestamps, review_timestamps, None, Some(JArr([]))),
      CamelRule(firstStudiedAt, first_studied_at, None, Some(JNull)),
      CamelRule(createdAt, created_at, None, Some(JNull)) ]
  }

  /** `normalizeReviewItemFromApi(item)`: `reviewTimestampsValue` defaults to `[]`, the dates to null. */
  function NormalizeReviewItemFromApi(item: JVal): (r: JVal)
    ensures !IsObject(item) ==> r == item
    ensures IsObject(item) ==> r.JObj? && (var o := Spread(item); var f := r.fields;
      reviewTimestamps in f && f[reviewTimestamps] != JNull
      && f[reviewTimestamps] == Nullish(Nullish(Lookup(o, reviewTimestamps), Lookup(o, review_timestamps)), Some(JArr([]))).value
      && firstStudiedAt in f
      && f[firstStudiedAt] == Nullish(Nullish(Lookup(o, firstStudiedAt), Lookup(o, first_studied_at)), Some(JNull)).value
      && createdAt in f
      && f[createdAt] == Nullish(Nullish(Lookup(o, createdAt), Lookup(o, created_at)), Some(JNull)).value
      && (forall k :: k != reviewTimestamps && k != firstStudiedAt && k != createdAt ==> Lookup(f, k) == Lookup(o, k)))
  {
    if !IsObject(item) then item
    else
      var o := Spread(item);
      WithCamelAt(o, ReviewApiRules(), 3, reviewTimestamps);
      WithCamelAt(o, ReviewApiRules(), 3, firstStudiedAt);
      WithCamelAt(o, ReviewApiRules(), 3, createdAt);
      assert forall k :: (k != reviewTimestamps && k != firstStudiedAt && k != createdAt ==>
        Lookup(WithCamel(o, ReviewApiRules(), 3), k) == Lookup(o, k)) by {
        forall k { WithCamelAt(o, ReviewApiRules(), 3, k); }
      }
      FromApi(item, ReviewApiRules())
  }

  /** At most one spelling of the property carries a non-null value. */
  predicate OneSpelling(o: Obj, a: Prop, b: Prop) {
    !(a in o && o[a] != JNull && b in o && o[b] != JNull)
  }

  /**
   * A prime item sent through the payload normaliser and read back by the API
   * normaliser shows the same timestamps and creation date as the item read
   * directly, unless it spelled a property both ways.
   */
  lemma PrimePayloadReadsBack(item: JVal)
    requires item.JObj?
    requires OneSpelling(item.fields, primeTimestamps, prime_timestamps)
    requires OneSpelling(item.fields, createdAt, created_at)
    ensures var back := NormalizePrimeItemFromApi(NormalizedPayload(item, PrimeRules(), PrimeDropped(), NoDates));
      var direct := NormalizePrimeItemFromApi(item);
      back.fields[primeTimestamps] == direct.fields[primeTimestamps]
      && back.fields[createdAt] == direct.fields[createdAt]
  {
    var o := item.fields;
    var sent := NormalizedPayload(item, PrimeRules(), PrimeDropped(), NoDates);
    PayloadAt(item, PrimeRules(), PrimeDropped(), NoDates, primeTimestamps);
    PayloadAt(item, PrimeRules(), PrimeDropped(), NoDates, prime_timestamps);
    PayloadAt(item, PrimeRules(), PrimeDropped(), NoDates, createdAt);
    PayloadAt(item, PrimeRules(), PrimeDropped(), NoDates, created_at);
    assert SnakeIndex(PrimeRules(), 2, prime_timestamps) == 0;
    assert SnakeIndex(PrimeRules(), 2, created_at) == 1;
    SpellingSwap(Lookup(o, prime_timestamps), Lookup(o, primeTimestamps), Lookup(sent.fields, prime_timestamps), JArr([]));
    SpellingSwap(Lookup(o, created_at), Lookup(o, createdAt), Lookup(sent.fields, created_at), JNull);
  }

  /**
   * Reading back `snake`, which the payload set to `snake ?? camel` (or left as
   * it was), gives `camel ?? snake ?? d` when at most one of the two is non-null.
   */
  lemma SpellingSwap(snake: Option<JVal>, camel: Option<JVal>, sent: Option<JVal>, d: JVal)
    requires !(snake.Some? && snake.value != JNull && camel.Some? && camel.value != JNull)
    requires sent == (var x := Nullish(snake, camel); if x.Some? then x else snake)
    ensures Nullish(Nullish(None, sent), Some(d)) == Nullish(Nullish(camel, snake), Some(d))
  {
  }

  // ---------------------------------------------------------------------
  // Conversion

  function Numbers(ts: seq<int>): (r: seq<JVal>)
    ensures |r| == |ts| && forall i :: 0 <= i < |ts| ==> r[i] == JNum(ts[i])
  {
    if ts == [] then [] else [JNum(ts[0])] + Numbers(ts[1..])
  }

  /** `Math.min(...primeTimestamps)` on a non-empty log, `null` on an empty one. */
  function FirstStudied(ts: seq<int>): (r: JVal)
    ensures ts == [] <==> r == JNull
    ensures r != JNull ==> r.JNum? && r.n in ts && forall t :: t in ts ==> r.n <= t
  {
    match RepetitionLog.Earliest(ts)
    case None => JNull
    case Some(m) => JNum(m)
  }

  /** The review item `convertPrimeToReview` builds from a prime item. */
  function ReviewPayloadOf(p: FrontendPrimeItem.PrimeItemFields, newId: string, nowIso: string): Obj {
    map[id := JStr(newId),
        title := JStr(p.title),
        description := JStr(p.description),
        category := JStr(p.category),
        reviewTimestamps := JArr(Numbers(p.primeTimestamps)),
        firstStudiedAt := FirstStudied(p.primeTimestamps),
        archived := JBool(false),
        createdAt := JStr(nowIso)]
  }

  /** What `convertPrimeToReview` sends: the new review item and the patch archiving the prime item. */
  datatype Conversion = Conversion(review: Obj, primePatch: Obj)

  function FindPrime(items: seq<FrontendPrimeItem.PrimeItemFields>, primeItemId: string): (i: int)
    ensures -1 <= i < |items|
    ensures i >= 0 ==> items[i].id == primeItemId && forall k :: 0 <= k < i ==> items[k].id != primeItemId
    ensures i == -1 ==> forall k :: 0 <= k < |items| ==> items[k].id != primeItemId
  {
    if items == [] then -1
    else if items[0].id == primeItemId then 0
    else
      var r := FindPrime(items[1..], primeItemId);
      if r == -1 then -1 else r + 1
  }

  /**
   * `convertPrimeToReview(primeItemId)` on the loaded prime items: `None` (null)
   * when no item has the id; otherwise the review item built from the first
   * item with that id, and the patch archiving that item.
   */
  function ConvertPrimeToReview(items: seq<FrontendPrimeItem.PrimeItemFields>, primeItemId: string, newId: string, nowIso: string)
    : (r: Option<Conversion>)
    ensures r.None? <==> forall k :: 0 <= k < |items| ==> items[k].id != primeItemId
    ensures r.Some? ==>
      r.value == Conversion(ReviewPayloadOf(items[FindPrime(items, primeItemId)], newId, nowIso), map[archived := JBool(true)])
  {
    var i := FindPrime(items, primeItemId);
    if i == -1 then None
    else Some(Conversion(ReviewPayloadOf(items[i], newId, nowIso), map[archived := JBool(true)]))
  }

  /**
   * The review item as the API receives it: the prime item's timestamps, first
   * studied at its earliest timestamp as an ISO date (null when it has none),
   * and created now.
   */
  lemma ConversionAsSent(p: FrontendPrimeItem.PrimeItemFields, newId: string, nowIso: string, iso: int -> string)
    ensures var sent := NormalizedPayload(JObj(ReviewPayloadOf(p, newId, nowIso)), ReviewRules(), ReviewDropped(), iso).fields;
      Lookup(sent, review_timestamps) == Some(JArr(Numbers(p.primeTimestamps)))
      && Lookup(sent, first_studied_at) == Some(if p.primeTimestamps == [] then JNull
                                                  else JStr(iso(RepetitionLog.Earliest(p.primeTimestamps).value)))
      && Lookup(sent, created_at) == Some(JStr(nowIso))
  {
    var v := JObj(ReviewPayloadOf(p, newId, nowIso));
    PayloadAt(v, ReviewRules(), ReviewDropped(), iso, review_timestamps);
    PayloadAt(v, ReviewRules(), ReviewDropped(), iso, first_studied_at);
    PayloadAt(v, ReviewRules(), ReviewDropped(), iso, created_at);
  }

  /** The sent review item keeps the prime item's title, is not archived, and has no camelCase spelling left. */
  lemma ConversionSentFields(p: FrontendPrimeItem.PrimeItemFields, newId: string, nowIso: string, iso: int -> string)
    ensures var sent := NormalizedPayload(JObj(ReviewPayloadOf(p, newId, nowIso)), ReviewRules(), ReviewDropped(), iso).fields;
      reviewTimestamps !in sent && firstStudiedAt !in sent && createdAt !in sent
      && Lookup(sent, id) == Some(JStr(newId))
      && Lookup(sent, title) == Some(JStr(p.title)) && Lookup(sent, archived) == Some(JBool(false))
  {
    var v := JObj(ReviewPayloadOf(p, newId, nowIso));
    PayloadAt(v, ReviewRules(), ReviewDropped(), iso, reviewTimestamps);
    PayloadAt(v, ReviewRules(), ReviewDropped(), iso, firstStudiedAt);
    PayloadAt(v, ReviewRules(), ReviewDropped(), iso, createdAt);
    PayloadAt(v, ReviewRules(), ReviewDropped(), iso, id);
    PayloadAt(v, ReviewRules(), ReviewDropped(), iso, title);
    PayloadAt(v, ReviewRules(), ReviewDropped(), iso, archived);
  }
}
