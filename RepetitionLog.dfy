/**
 * The values derived from an append-only log of repetition timestamps
 * (milliseconds since the epoch), shared by prime, review and study items:
 * how many fall on or after a boundary, how many fall in a half-open window,
 * and the earliest and latest entries.
 */
module RepetitionLog {
  import opened Common

  /** `ts.filter((t) => t >= start)` */
  function Since(ts: seq<int>, start: int): (r: seq<int>)
    ensures |r| <= |ts|
  {
    if ts == [] then [] else (if ts[0] >= start then [ts[0]] else []) + Since(ts[1..], start)
  }

  /** `ts.filter((t) => t >= lo && t < hi)` */
  function Between(ts: seq<int>, lo: int, hi: int): (r: seq<int>)
    ensures |r| <= |ts|
  {
    if ts == [] then [] else (if lo <= ts[0] < hi then [ts[0]] else []) + Between(ts[1..], lo, hi)
  }

  /** The number of timestamps at or after `start`. */
  function CountSince(ts: seq<int>, start: int): nat {
    |Since(ts, start)|
  }

  /** The number of timestamps in `[lo, hi)`. */
  function CountBetween(ts: seq<int>, lo: int, hi: int): nat {
    |Between(ts, lo, hi)|
  }

  /** Appending one timestamp adds it to the filter exactly when it passes the boundary. */
  lemma {:induction false} SinceAppend(ts: seq<int>, x: int, start: int)
    ensures Since(ts + [x], start) == Since(ts, start) + (if x >= start then [x] else [])
  {
    var tail := if x >= start then [x] else [];
    if ts == [] {
      assert ts + [x] == [x];
      assert Since([x], start) == tail + Since([], start);
    } else {
      var u := ts + [x];
      var head := if ts[0] >= start then [ts[0]] else [];
      assert u[0] == ts[0] && u[1..] == ts[1..] + [x];
      assert Since(u, start) == head + Since(ts[1..] + [x], start);
      SinceAppend(ts[1..], x, start);
      assert Since(u, start) == head + (Since(ts[1..], start) + tail);
    }
  }

  /** Logging `now` adds one to every count whose boundary `now` reaches, and nothing to the others. */
  lemma CountSinceAppend(ts: seq<int>, now: int, start: int)
    ensures CountSince(ts + [now], start) == CountSince(ts, start) + (if now >= start then 1 else 0)
  {
    SinceAppend(ts, now, start);
  }

  /** A later boundary never counts more: the count is antitone in the boundary. */
  lemma {:induction false} CountSinceAntitone(ts: seq<int>, early: int, late: int)
    requires early <= late
    ensures CountSince(ts, late) <= CountSince(ts, early)
  {
    if ts != [] {
      CountSinceAntitone(ts[1..], early, late);
    }
  }

  /** The half-open window `[lo, hi)` holds exactly what is at or after `lo` but not at or after `hi`. */
  lemma {:induction false} CountBetweenIsDifference(ts: seq<int>, lo: int, hi: int)
    requires lo <= hi
    ensures CountBetween(ts, lo, hi) == CountSince(ts, lo) - CountSince(ts, hi)
  {
    if ts != [] {
      CountBetweenIsDifference(ts[1..], lo, hi);
    }
  }

  /** Adjacent windows `[a, b)` and `[b, c)` add up to `[a, c)`. */
  lemma AdjacentWindows(ts: seq<int>, a: int, b: int, c: int)
    requires a <= b <= c
    ensures CountBetween(ts, a, b) + CountBetween(ts, b, c) == CountBetween(ts, a, c)
  {
    CountBetweenIsDifference(ts, a, b);
    CountBetweenIsDifference(ts, b, c);
    CountBetweenIsDifference(ts, a, c);
  }

  /** `Math.max(...ts)` on a non-empty log, `None` on an empty one. */
  function Latest(ts: seq<int>): (r: Option<int>)
    ensures r.None? <==> ts == []
    ensures r.Some? ==> r.value in ts && forall t :: t in ts ==> t <= r.value
  {
    if ts == [] then None
    else
      assert forall t :: t in ts ==> t == ts[0] || t in ts[1..];
      match Latest(ts[1..])
      case None => Some(ts[0])
      case Some(m) => Some(Max(ts[0], m))
  }

  /** `Math.min(...ts)` on a non-empty log, `None` on an empty one. */
  function Earliest(ts: seq<int>): (r: Option<int>)
    ensures r.None? <==> ts == []
    ensures r.Some? ==> r.value in ts && forall t :: t in ts ==> r.value <= t
  {
    if ts == [] then None
    else
      assert forall t :: t in ts ==> t == ts[0] || t in ts[1..];
      match Earliest(ts[1..])
      case None => Some(ts[0])
      case Some(m) => Some(if ts[0] <= m then ts[0] else m)
  }

  /** On a non-empty log the earliest entry is never after the latest. */
  lemma EarliestNotAfterLatest(ts: seq<int>)
    requires ts != []
    ensures Earliest(ts).value <= Latest(ts).value
  {
  }

  /** The latest entry after an append is the larger of the new entry and the previous latest. */
  lemma LatestAppend(ts: seq<int>, x: int)
    ensures Latest(ts + [x]) == Some(if ts == [] then x else Max(x, Latest(ts).value))
  {
    var u := ts + [x];
    var m := if ts == [] then x else Max(x, Latest(ts).value);
    assert forall t :: t in u ==> t in ts || t == x;
    assert m in u;
  }

  /** After appending `now`, the latest entry is `now` if no earlier entry is later than it. */
  lemma LatestAfterAppend(ts: seq<int>, now: int)
    requires forall t :: t in ts ==> t <= now
    ensures Latest(ts + [now]) == Some(now)
  {
    assert now in ts + [now];
    var r := Latest(ts + [now]);
    assert forall t :: t in ts + [now] ==> t <= now;
  }

  /** Appending never changes the earliest entry of a non-empty log unless the new entry is smaller. */
  lemma EarliestAfterAppend(ts: seq<int>, x: int)
    requires ts != []
    ensures Earliest(ts + [x]) == Some(if x < Earliest(ts).value then x else Earliest(ts).value)
  {
    var e := Earliest(ts).value;
    var m := if x < e then x else e;
    assert m in ts + [m] && (m == x || m in ts);
    assert forall t :: t in ts + [x] ==> t in ts || t == x;
    assert m in ts + [x];
  }

  /** The first-studied value after one more session at `now`: set to `now` only while it is still `null`. */
  function FirstStudiedAfter(first: Option<Instant>, now: int): (r: Option<Instant>)
    ensures first.Some? ==> r == first
    ensures first.None? ==> r == Some(AtMs(now))
  {
    if first.None? then Some(AtMs(now)) else first
  }

  /** The first-studied value after sessions at each of `nows`, in order. */
  function FirstStudiedAfterAll(first: Option<Instant>, nows: seq<int>): Option<Instant>
    decreases nows
  {
    if nows == [] then first else FirstStudiedAfterAll(FirstStudiedAfter(first, nows[0]), nows[1..])
  }

  /**
   * Over any run of sessions, a first-studied value that was set never changes,
   * and one that was `null` becomes the time of the first session.
   */
  lemma {:induction false} FirstStudiedSetOnce(first: Option<Instant>, nows: seq<int>)
    ensures first.Some? ==> FirstStudiedAfterAll(first, nows) == first
    ensures first.None? && nows != [] ==> FirstStudiedAfterAll(first, nows) == Some(AtMs(nows[0]))
    ensures first.None? && nows == [] ==> FirstStudiedAfterAll(first, nows) == None
    decreases nows
  {
    if nows != [] {
      FirstStudiedSetOnce(FirstStudiedAfter(first, nows[0]), nows[1..]);
    }
  }
}
