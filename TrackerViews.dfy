/**
 * The Django REST views of the tracker backend: every view set is scoped to the
 * requesting user, and the prime-item view set has a `log_prime` action that
 * appends the current time (ms) to an item's priming log.
 */
module TrackerViews {
  import opened Common

  type UserId = int

  /** A stored row of some table, with its primary key and owner. */
  datatype Record<T> = Record(pk: int, user: UserId, data: T)

  /** `get_queryset`: the rows owned by `user`, in table order. */
  function OwnedBy<T(!new)>(rows: seq<Record<T>>, user: UserId): (r: seq<Record<T>>)
    ensures |r| <= |rows|
  {
    if rows == [] then [] else (if rows[0].user == user then [rows[0]] else []) + OwnedBy(rows[1..], user)
  }

  /** The queryset holds exactly the user's rows. */
  lemma {:induction false} OwnedByMembers<T(!new)>(rows: seq<Record<T>>, user: UserId)
    ensures forall x :: x in OwnedBy(rows, user) <==> x in rows && x.user == user
  {
    if rows != [] {
      OwnedByMembers(rows[1..], user);
      assert forall x :: x in rows <==> x == rows[0] || x in rows[1..];
    }
  }

  /** `perform_create`: the new row is stamped with the requesting user. */
  function PerformCreate<T(!new)>(rows: seq<Record<T>>, pk: int, data: T, user: UserId): (r: seq<Record<T>>)
    ensures |r| == |rows| + 1 && r[..|rows|] == rows && r[|rows|] == Record(pk, user, data)
  {
    rows + [Record(pk, user, data)]
  }

  /** A created row shows up at the end of its creator's queryset and in no one else's. */
  lemma {:induction false} CreatedVisibleToCreatorOnly<T(!new)>(rows: seq<Record<T>>, pk: int, data: T, user: UserId, other: UserId)
    ensures OwnedBy(PerformCreate(rows, pk, data, user), user) == OwnedBy(rows, user) + [Record(pk, user, data)]
    ensures other != user ==> OwnedBy(PerformCreate(rows, pk, data, user), other) == OwnedBy(rows, other)
  {
    OwnedByAppend(rows, Record(pk, user, data), user);
    OwnedByAppend(rows, Record(pk, user, data), other);
  }

  /** `OwnedBy` of a table with a known first row. */
  lemma OwnedByCons<T(!new)>(a: Record<T>, t: seq<Record<T>>, user: UserId)
    ensures OwnedBy([a] + t, user) == (if a.user == user then [a] else []) + OwnedBy(t, user)
  {
    assert ([a] + t)[0] == a && ([a] + t)[1..] == t;
  }

  lemma {:induction false} OwnedByAppend<T(!new)>(rows: seq<Record<T>>, x: Record<T>, user: UserId)
    ensures OwnedBy(rows + [x], user) == OwnedBy(rows, user) + (if x.user == user then [x] else [])
  {
    if rows == [] {
      assert rows + [x] == [x] + [];
      OwnedByCons(x, [], user);
    } else {
      var t := rows[1..];
      assert rows + [x] == [rows[0]] + (t + [x]);
      assert rows == [rows[0]] + t;
      OwnedByAppend(t, x, user);
      OwnedByCons(rows[0], t + [x], user);
      OwnedByCons(rows[0], t, user);
    }
  }

  datatype ViewAction = List | Retrieve | Create | Update | PartialUpdate | Destroy | LogPrimeAction

  datatype SerializerKind = PrimeItemListSerializer | PrimeItemSerializer

  /**
   * `get_serializer_class`: the compact list serializer for a list without a truthy
   * `include_timestamps` query parameter and for `log_prime`; the full one otherwise.
   */
  function SerializerClass(action: ViewAction, includeTimestamps: Option<string>): (r: SerializerKind)
    ensures r == PrimeItemListSerializer
        <==> (action == List && (includeTimestamps.None? || includeTimestamps.value == "")) || action == LogPrimeAction
  {
    var includeTruthy := includeTimestamps.Some? && includeTimestamps.value != "";
    if action == List && !includeTruthy then PrimeItemListSerializer
    else if action == LogPrimeAction then PrimeItemListSerializer
    else PrimeItemSerializer
  }

  /** Python's `int(x)` on a float: truncation toward zero. */
  function TruncateToInt(x: real): (r: int)
    ensures x >= 0.0 ==> r as real <= x < r as real + 1.0
    ensures x < 0.0 ==> r as real - 1.0 < x <= r as real
  {
    if x >= 0.0 then x.Floor else -((-x).Floor)
  }

  /** A `PrimeItem` row: the fields `log_prime` reads and writes, and the rest of the row. */
  class PrimeItemRow {
    const pk: int
    const user: UserId
    var title: string
    var primeTimestamps: Option<seq<int>>
    /** `last_primed_at` as seconds since the epoch; `None` is SQL NULL. */
    var lastPrimedAt: Option<real>

    constructor (pk: int, user: UserId, title: string)
      ensures this.pk == pk && this.user == user && this.title == title
      ensures primeTimestamps == Some([]) && lastPrimedAt == None
    {
      this.pk, this.user, this.title := pk, user, title;
      primeTimestamps, lastPrimedAt := Some([]), None;
    }

    /**
     * The body of `log_prime`: a missing log counts as empty, the truncated
     * millisecond time is appended after every earlier entry, and `last_primed_at`
     * becomes that value in seconds; only those two fields are written.
     */
    method LogPrime(nowSeconds: real) returns (timestampMs: int)
      modifies this`primeTimestamps, this`lastPrimedAt
      ensures timestampMs == TruncateToInt(nowSeconds * 1000.0)
      ensures primeTimestamps == Some(OrEmpty(old(primeTimestamps)) + [timestampMs])
      ensures lastPrimedAt == Some(timestampMs as real / 1000.0)
    {
      timestampMs := TruncateToInt(nowSeconds * 1000.0);
      var log := if primeTimestamps.Some? then primeTimestamps.value else [];
      log := log + [timestampMs];
      primeTimestamps := Some(log);
      lastPrimedAt := Some(timestampMs as real / 1000.0);
    }
  }

  /** `item.prime_timestamps or []` */
  function OrEmpty(log: Option<seq<int>>): seq<int> {
    if log.Some? then log.value else []
  }

  /** `get_object`: the first row of the user's queryset with this key, 404 when there is none. */
  function GetObject(rows: seq<PrimeItemRow>, user: UserId, pk: int): (r: Option<PrimeItemRow>)
    ensures r.Some? ==> r.value in rows && r.value.user == user && r.value.pk == pk
    ensures r.None? <==> forall x :: x in rows ==> !(x.user == user && x.pk == pk)
  {
    if rows == [] then None
    else if rows[0].user == user && rows[0].pk == pk then Some(rows[0])
    else
      assert forall x :: x in rows ==> x == rows[0] || x in rows[1..];
      GetObject(rows[1..], user, pk)
  }

  /** The status the intended `log_prime` answers with: 200 exactly when the user owns an item with this key. */
  function LogPrimeStatus(rows: seq<PrimeItemRow>, user: UserId, pk: int): (status: int)
    ensures status == 200 <==> exists x :: x in rows && x.user == user && x.pk == pk
    ensures status == 404 <==> forall x :: x in rows ==> !(x.user == user && x.pk == pk)
  {
    if GetObject(rows, user, pk).Some? then 200 else 404
  }

  /**
   * The `log_prime` action as intended, with a UTC time zone that exists (the
   * `datetime.timezone.utc` the import commands fall back to): 404 when the user
   * owns no item with this key, otherwise that one item is logged and 200 is returned.
   */
  method LogPrimeView(rows: seq<PrimeItemRow>, user: UserId, pk: int, nowSeconds: real)
      returns (status: int, item: Option<PrimeItemRow>)
    modifies set x | x in rows
    ensures item == GetObject(rows, user, pk)
    ensures status == (if item.Some? then 200 else 404)
    ensures status == LogPrimeStatus(rows, user, pk)
    ensures item.Some? ==>
      var timestampMs := TruncateToInt(nowSeconds * 1000.0);
      item.value.primeTimestamps == Some(OrEmpty(old(item.value.primeTimestamps)) + [timestampMs])
      && item.value.lastPrimedAt == Some(timestampMs as real / 1000.0)
      && item.value.title == old(item.value.title)
    ensures forall x :: x in rows && Some(x) != item ==> unchanged(x)
  {
    item := GetObject(rows, user, pk);
    if item.None? {
      return 404, item;
    }
    var _ := item.value.LogPrime(nowSeconds);
    status := 200;
  }

  /**
   * The status `log_prime` answers with as written: 404 without the item, and
   * otherwise the 500 of an uncaught exception, so it never answers 200.
   */
  function AsWrittenLogPrimeStatus(rows: seq<PrimeItemRow>, user: UserId, pk: int): (status: int)
    ensures status == 500 <==> exists x :: x in rows && x.user == user && x.pk == pk
    ensures status == 404 <==> forall x :: x in rows ==> !(x.user == user && x.pk == pk)
    ensures status != 200
  {
    if GetObject(rows, user, pk).Some? then 500 else 404
  }

  /**
   * `log_prime` as written. `django.utils.timezone` has no attribute `UTC`, so
   * evaluating `tz=timezone.UTC` raises `AttributeError` once the new log has been
   * built on the fetched copy and before `item.save`. Django answers 500 and no
   * row is written, so this method changes nothing.
   */
  method LogPrimeViewAsWritten(rows: seq<PrimeItemRow>, user: UserId, pk: int, nowSeconds: real)
      returns (status: int, item: Option<PrimeItemRow>)
    ensures item == GetObject(rows, user, pk)
    ensures status == AsWrittenLogPrimeStatus(rows, user, pk)
  {
    item := GetObject(rows, user, pk);
    if item.None? {
      return 404, item;
    }
    status := 500;
  }

  /** On every item its owner may log, the code as written fails where the intended action succeeds. */
  lemma LogPrimeUtcFinding(rows: seq<PrimeItemRow>, user: UserId, pk: int)
    requires exists x :: x in rows && x.user == user && x.pk == pk
    ensures AsWrittenLogPrimeStatus(rows, user, pk) == 500
    ensures LogPrimeStatus(rows, user, pk) == 200
  {
  }
}
