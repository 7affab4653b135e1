/**
 * The `groups` map that the statistics page fills while it walks today's time
 * entries: one group per normalised title, in first-seen order, holding the
 * seconds and the number of the entries with that title.
 */
module TaskGroups {
  /** One value of the map: `{ title, totalSeconds, entryCount }`, with the key it is stored under. */
  datatype Group = Group(key: string, title: string, totalSeconds: int, entryCount: nat)

  /** What the loop body reads from one entry: its duration, its raw title and its group key. */
  datatype Contribution = Contribution(seconds: int, title: string, key: string)

  /** What the loop leaves behind: the running total and the groups in first-seen order. */
  datatype Tally = Tally(total: int, groups: seq<Group>)

  /** The position of the last of the first `n` groups with that key, or -1. */
  function FindIn(gs: seq<Group>, key: string, n: nat): (i: int)
    requires n <= |gs|
    ensures -1 <= i < n
    ensures i >= 0 ==> gs[i].key == key
    ensures i == -1 ==> forall j :: 0 <= j < n ==> gs[j].key != key
  {
    if n == 0 then -1
    else if gs[n - 1].key == key then n - 1
    else FindIn(gs, key, n - 1)
  }

  /** `groups.get(key)`: the position of the group with that key, or -1. */
  function FindGroup(gs: seq<Group>, key: string): (i: int)
    ensures -1 <= i < |gs|
    ensures i >= 0 ==> gs[i].key == key
    ensures i == -1 ==> forall j :: 0 <= j < |gs| ==> gs[j].key != key
  {
    FindIn(gs, key, |gs|)
  }

  /** A counted entry: a new group at the end, or the existing one grown by the entry. */
  function AddTo(gs: seq<Group>, key: string, title: string, d: int): seq<Group> {
    var j := FindGroup(gs, key);
    if j < 0 then gs + [Group(key, title, d, 1)]
    else gs[j := gs[j].(totalSeconds := gs[j].totalSeconds + d, entryCount := gs[j].entryCount + 1)]
  }
  /** The loop body for one entry: a falsy duration (`!durationSeconds`) is skipped. */
  function Step(gs: seq<Group>, c: Contribution): seq<Group> {
    if c.seconds == 0 then gs else AddTo(gs, c.key, c.title, c.seconds)
  }
  /** The groups after the loop has seen the first `n` entries. */
  function GroupsOf(cs: seq<Contribution>, n: nat): seq<Group>
    requires n <= |cs|
  {
    if n == 0 then [] else Step(GroupsOf(cs, n - 1), cs[n - 1])
  }

  /** The running total and the groups once the loop has seen every entry. */
  function TallyOf(cs: seq<Contribution>): Tally {
    Tally(TotalOf(cs, |cs|), GroupsOf(cs, |cs|))
  }

  /**
   * The `for (const entry of entries)` loop, given what its body reads from each
   * entry: skip a falsy duration, add it to the running total, then grow the
   * group stored under the key or create it.
   */
  method Accumulate(cs: seq<Contribution>) returns (r: Tally)
    ensures r == TallyOf(cs)
  {
    var total := 0;
    var groups := [];
    var i := 0;
    while i < |cs|
      invariant 0 <= i <= |cs|
      invariant total == TotalOf(cs, i) && groups == GroupsOf(cs, i)
    {
      var c := cs[i];
      if c.seconds != 0 {
        total := total + c.seconds;
        var existing := FindGroup(groups, c.key);
        if existing < 0 {
          groups := groups + [Group(c.key, c.title, c.seconds, 1)];
        } else {
          groups := groups[existing := groups[existing].(
            totalSeconds := groups[existing].totalSeconds + c.seconds,
            entryCount := groups[existing].entryCount + 1)];
        }
      }
      i := i + 1;
    }
    r := Tally(total, groups);
  }

  /** Whether an entry is counted in the group with key `k`. */
  predicate CountsFor(c: Contribution, k: string) {
    c.seconds != 0 && c.key == k
  }

  /** The seconds of the counted entries among the first `n` whose group key is `k`. */
  function KeyTotal(cs: seq<Contribution>, n: nat, k: string): int
    requires n <= |cs|
  {
    if n == 0 then 0 else KeyTotal(cs, n - 1, k) + (if CountsFor(cs[n - 1], k) then cs[n - 1].seconds else 0)
  }

  /** The number of counted entries among the first `n` whose group key is `k`. */
  function KeyCount(cs: seq<Contribution>, n: nat, k: string): nat
    requires n <= |cs|
  {
    if n == 0 then 0 else KeyCount(cs, n - 1, k) + (if CountsFor(cs[n - 1], k) then 1 else 0)
  }

  /** The sum of the totals of the first `n` groups. */
  function SumTo(gs: seq<Group>, n: nat): int
    requires n <= |gs|
  {
    if n == 0 then 0 else SumTo(gs, n - 1) + gs[n - 1].totalSeconds
  }

  function SumTotals(gs: seq<Group>): int {
    SumTo(gs, |gs|)
  }
  /** The running `totalSeconds` after the first `n` entries. */
  function TotalOf(cs: seq<Contribution>, n: nat): int
    requires n <= |cs|
  {
    if n == 0 then 0 else TotalOf(cs, n - 1) + cs[n - 1].seconds
  }
  /** Replacing one group changes the sum by the difference of the two totals. */
  lemma {:induction false} SumToUpdate(gs: seq<Group>, j: int, g: Group, n: nat)
    requires 0 <= j < |gs| && n <= |gs|
    ensures SumTo(gs[j := g], n) == SumTo(gs, n) - (if j < n then gs[j].totalSeconds - g.totalSeconds else 0)
  {
    if n > 0 {
      SumToUpdate(gs, j, g, n - 1);
    }
  }

  /** Appending a group leaves the sum of the earlier groups alone. */
  lemma {:induction false} SumToAppend(gs: seq<Group>, g: Group, n: nat)
    requires n <= |gs|
    ensures SumTo(gs + [g], n) == SumTo(gs, n)
  {
    if n > 0 {
      SumToAppend(gs, g, n - 1);
    }
  }

  /** No key is stored twice. */
  predicate KeysUnique(gs: seq<Group>) {
    forall i, j :: 0 <= i < j < |gs| ==> gs[i].key != gs[j].key
  }

  /** No key is in two groups. */
  lemma {:induction false} GroupKeysUnique(cs: seq<Contribution>, n: nat)
    requires n <= |cs|
    ensures KeysUnique(GroupsOf(cs, n))
  {
    if n > 0 {
      GroupKeysUnique(cs, n - 1);
      var gs := GroupsOf(cs, n - 1);
      var c := cs[n - 1];
      var r := GroupsOf(cs, n);
      if c.seconds != 0 {
        var found := FindGroup(gs, c.key);
        if found < 0 {
          var g := Group(c.key, c.title, c.seconds, 1);
          assert r == gs + [g];
          forall i, j | 0 <= i < j < |r| ensures r[i].key != r[j].key {
            assert r[i] == gs[i];
            if j == |gs| {
              assert r[j] == g;
              assert gs[i].key != c.key;
            } else {
              assert r[j] == gs[j];
            }
          }
        } else {
          var g := gs[found].(totalSeconds := gs[found].totalSeconds + c.seconds, entryCount := gs[found].entryCount + 1);
          assert r == gs[found := g];
          forall i, j | 0 <= i < j < |r| ensures r[i].key != r[j].key {
            assert r[i].key == gs[i].key && r[j].key == gs[j].key;
            assert gs[i].key != gs[j].key;
          }
        }
      }
    }
  }

  /** Exactly the keys of counted entries have a group. */
  lemma {:induction false} GroupKeysPresent(cs: seq<Contribution>, n: nat, k: string)
    requires n <= |cs|
    ensures KeyCount(cs, n, k) > 0 <==> FindGroup(GroupsOf(cs, n), k) >= 0
  {
    if n > 0 {
      GroupKeysPresent(cs, n - 1, k);
      var gs := GroupsOf(cs, n - 1);
      var c := cs[n - 1];
      if c.seconds != 0 {
        var j := FindGroup(gs, c.key);
        if j < 0 {
          FindInAppend(gs, Group(c.key, c.title, c.seconds, 1), k, |gs|);
        } else {
          FindInUpdate(gs, j, gs[j].(totalSeconds := gs[j].totalSeconds + c.seconds, entryCount := gs[j].entryCount + 1), k, |gs|);
        }
      }
    }
  }

  /** A key no counted entry has collects no seconds. */
  lemma {:induction false} KeyTotalOfAbsent(cs: seq<Contribution>, n: nat, k: string)
    requires n <= |cs| && KeyCount(cs, n, k) == 0
    ensures KeyTotal(cs, n, k) == 0
  {
    if n > 0 {
      KeyTotalOfAbsent(cs, n - 1, k);
    }
  }

  /** Each group's total and count are those of the entries with its key. */
  predicate GroupsHoldTheirEntries(gs: seq<Group>, cs: seq<Contribution>, n: nat)
    requires n <= |cs|
  {
    forall i :: 0 <= i < |gs| ==>
      gs[i].totalSeconds == KeyTotal(cs, n, gs[i].key) && gs[i].entryCount == KeyCount(cs, n, gs[i].key)
  }

  /** Each group holds the sum and the number of the durations of its entries. */
  lemma {:induction false} GroupTotals(cs: seq<Contribution>, n: nat)
    requires n <= |cs|
    ensures GroupsHoldTheirEntries(GroupsOf(cs, n), cs, n)
  {
    if n > 0 {
      GroupTotals(cs, n - 1);
      var gs := GroupsOf(cs, n - 1);
      var c := cs[n - 1];
      if c.seconds == 0 {
        SkippedEntryStep(gs, cs, n);
      } else if FindGroup(gs, c.key) < 0 {
        GroupKeysPresent(cs, n - 1, c.key);
        KeyTotalOfAbsent(cs, n - 1, c.key);
        NewGroupStep(gs, cs, n);
      } else {
        GroupKeysUnique(cs, n - 1);
        GrownGroupStep(gs, cs, n);
      }
    }
  }

  /** A skipped entry changes no group and no count. */
  lemma SkippedEntryStep(gs: seq<Group>, cs: seq<Contribution>, n: nat)
    requires 0 < n <= |cs| && cs[n - 1].seconds == 0
    requires GroupsHoldTheirEntries(gs, cs, n - 1)
    ensures GroupsHoldTheirEntries(gs, cs, n)
  {
    forall i | 0 <= i < |gs|
      ensures gs[i].totalSeconds == KeyTotal(cs, n, gs[i].key) && gs[i].entryCount == KeyCount(cs, n, gs[i].key)
    {
      assert KeyTotal(cs, n, gs[i].key) == KeyTotal(cs, n - 1, gs[i].key);
      assert KeyCount(cs, n, gs[i].key) == KeyCount(cs, n - 1, gs[i].key);
    }
  }

  /** The first entry with a key starts a group holding exactly it. */
  lemma NewGroupStep(gs: seq<Group>, cs: seq<Contribution>, n: nat)
    requires 0 < n <= |cs| && cs[n - 1].seconds != 0 && FindGroup(gs, cs[n - 1].key) < 0
    requires KeyTotal(cs, n - 1, cs[n - 1].key) == 0 && KeyCount(cs, n - 1, cs[n - 1].key) == 0
    requires GroupsHoldTheirEntries(gs, cs, n - 1)
    ensures GroupsHoldTheirEntries(Step(gs, cs[n - 1]), cs, n)
  {
    var c := cs[n - 1];
    var g := Group(c.key, c.title, c.seconds, 1);
    var r := Step(gs, c);
    assert r == gs + [g];
    forall i | 0 <= i < |r|
      ensures r[i].totalSeconds == KeyTotal(cs, n, r[i].key) && r[i].entryCount == KeyCount(cs, n, r[i].key)
    {
      if i < |gs| {
        assert r[i] == gs[i] && gs[i].key != c.key;
        assert KeyTotal(cs, n, r[i].key) == KeyTotal(cs, n - 1, r[i].key);
        assert KeyCount(cs, n, r[i].key) == KeyCount(cs, n - 1, r[i].key);
      } else {
        assert r[i] == g;
      }
    }
  }

  /** A further entry with a key grows that group and no other. */
  lemma GrownGroupStep(gs: seq<Group>, cs: seq<Contribution>, n: nat)
    requires 0 < n <= |cs| && cs[n - 1].seconds != 0 && FindGroup(gs, cs[n - 1].key) >= 0
    requires KeysUnique(gs) && GroupsHoldTheirEntries(gs, cs, n - 1)
    ensures GroupsHoldTheirEntries(Step(gs, cs[n - 1]), cs, n)
  {
    var c := cs[n - 1];
    var j := FindGroup(gs, c.key);
    var g := gs[j].(totalSeconds := gs[j].totalSeconds + c.seconds, entryCount := gs[j].entryCount + 1);
    var r := Step(gs, c);
    assert r == gs[j := g];
    forall i | 0 <= i < |r|
      ensures r[i].totalSeconds == KeyTotal(cs, n, r[i].key) && r[i].entryCount == KeyCount(cs, n, r[i].key)
    {
      if i != j {
        assert r[i] == gs[i];
        assert gs[i].key != gs[j].key by {
          if i < j {} else {}
        }
        assert KeyTotal(cs, n, r[i].key) == KeyTotal(cs, n - 1, r[i].key);
        assert KeyCount(cs, n, r[i].key) == KeyCount(cs, n - 1, r[i].key);
      } else {
        assert r[i] == g && g.key == c.key;
      }
    }
  }

  /** The position of the first counted entry with key `k` among the first `n`, or -1 when there is none. */
  function FirstCounted(cs: seq<Contribution>, n: nat, k: string): (i: int)
    requires n <= |cs|
    ensures -1 <= i < n
    ensures i >= 0 ==> CountsFor(cs[i], k)
  {
    if n == 0 then -1
    else
      var p := FirstCounted(cs, n - 1, k);
      if p >= 0 then p else if CountsFor(cs[n - 1], k) then n - 1 else -1
  }

  /** No counted entry with the key comes before its first position, and -1 means none at all. */
  lemma {:induction false} FirstCountedIsFirst(cs: seq<Contribution>, n: nat, k: string)
    requires n <= |cs|
    ensures var i := FirstCounted(cs, n, k);
      (i >= 0 ==> forall j :: 0 <= j < i ==> !CountsFor(cs[j], k))
      && (i == -1 ==> forall j :: 0 <= j < n ==> !CountsFor(cs[j], k))
  {
    if n > 0 {
      FirstCountedIsFirst(cs, n - 1, k);
    }
  }

  /** A key counted before keeps its first position when one more entry is seen. */
  lemma FirstCountedKept(cs: seq<Contribution>, n: nat, k: string)
    requires 0 < n <= |cs| && FirstCounted(cs, n - 1, k) >= 0
    ensures FirstCounted(cs, n, k) == FirstCounted(cs, n - 1, k)
  {
  }

  /** A key has been counted exactly when some counted entry has it. */
  lemma {:induction false} FirstCountedIffCounted(cs: seq<Contribution>, n: nat, k: string)
    requires n <= |cs|
    ensures FirstCounted(cs, n, k) >= 0 <==> KeyCount(cs, n, k) > 0
  {
    if n > 0 {
      FirstCountedIffCounted(cs, n - 1, k);
    }
  }

  /** Every group's key has been counted. */
  predicate KeysCounted(gs: seq<Group>, cs: seq<Contribution>, n: nat)
    requires n <= |cs|
  {
    forall i :: 0 <= i < |gs| ==> FirstCounted(cs, n, gs[i].key) >= 0
  }

  /** Each group's title is that of the first counted entry with its key. */
  predicate TitlesAreFirst(gs: seq<Group>, cs: seq<Contribution>, n: nat)
    requires n <= |cs|
  {
    forall i :: 0 <= i < |gs| ==>
      FirstCounted(cs, n, gs[i].key) >= 0 && gs[i].title == cs[FirstCounted(cs, n, gs[i].key)].title
  }

  /** The groups stand in the order in which their keys were first counted. */
  predicate InFirstSeenOrder(gs: seq<Group>, cs: seq<Contribution>, n: nat)
    requires n <= |cs|
  {
    forall i, j :: 0 <= i < j < |gs| ==> FirstCounted(cs, n, gs[i].key) < FirstCounted(cs, n, gs[j].key)
  }

  /** Seeing one more entry moves the first position of no key that was already counted. */
  lemma KeptKeysStep(gs: seq<Group>, cs: seq<Contribution>, n: nat)
    requires 0 < n <= |cs| && KeysCounted(gs, cs, n - 1)
    ensures forall i :: 0 <= i < |gs| ==> FirstCounted(cs, n, gs[i].key) == FirstCounted(cs, n - 1, gs[i].key)
  {
    forall i | 0 <= i < |gs|
      ensures FirstCounted(cs, n, gs[i].key) == FirstCounted(cs, n - 1, gs[i].key)
    {
      FirstCountedKept(cs, n, gs[i].key);
    }
  }

  /** The entry at `n - 1` counts for a key not counted before: it is that key's first. */
  lemma FreshKeyStep(cs: seq<Contribution>, n: nat)
    requires 0 < n <= |cs| && cs[n - 1].seconds != 0 && KeyCount(cs, n - 1, cs[n - 1].key) == 0
    ensures FirstCounted(cs, n, cs[n - 1].key) == n - 1
  {
    FirstCountedIffCounted(cs, n - 1, cs[n - 1].key);
  }

  /** The entry that starts a new group is the first counted one with its key. */
  lemma NewGroupIsFirstSeen(cs: seq<Contribution>, n: nat)
    requires 0 < n <= |cs|
    ensures cs[n - 1].seconds != 0 && FindGroup(GroupsOf(cs, n - 1), cs[n - 1].key) < 0
      ==> FirstCounted(cs, n, cs[n - 1].key) == n - 1
  {
    var c := cs[n - 1];
    if c.seconds != 0 {
      GroupKeysPresent(cs, n - 1, c.key);
      if KeyCount(cs, n - 1, c.key) == 0 {
        FreshKeyStep(cs, n);
      }
    }
  }

  lemma TitlesGiveKeys(gs: seq<Group>, cs: seq<Contribution>, n: nat)
    requires n <= |cs| && TitlesAreFirst(gs, cs, n)
    ensures KeysCounted(gs, cs, n)
  {
  }

  /** One loop step keeps the titles first: a new group takes the entry's title, a grown one keeps its own. */
  lemma TitlesStep(gs: seq<Group>, cs: seq<Contribution>, n: nat)
    requires 0 < n <= |cs| && TitlesAreFirst(gs, cs, n - 1)
    requires cs[n - 1].seconds != 0 && FindGroup(gs, cs[n - 1].key) < 0 ==> FirstCounted(cs, n, cs[n - 1].key) == n - 1
    ensures TitlesAreFirst(Step(gs, cs[n - 1]), cs, n)
  {
    var c := cs[n - 1];
    var r := Step(gs, c);
    KeptKeysStep(gs, cs, n);
    if c.seconds != 0 {
      var j := FindGroup(gs, c.key);
      if j < 0 {
        assert r == gs + [Group(c.key, c.title, c.seconds, 1)];
        assert forall i :: 0 <= i < |gs| ==> r[i] == gs[i];
      } else {
        assert forall i :: 0 <= i < |r| ==> r[i].key == gs[i].key && r[i].title == gs[i].title;
      }
    }
  }

  /** One loop step keeps the groups in first-seen order: a new group is the latest first seen. */
  lemma OrderStep(gs: seq<Group>, cs: seq<Contribution>, n: nat)
    requires 0 < n <= |cs| && KeysCounted(gs, cs, n - 1) && InFirstSeenOrder(gs, cs, n - 1)
    requires cs[n - 1].seconds != 0 && FindGroup(gs, cs[n - 1].key) < 0 ==> FirstCounted(cs, n, cs[n - 1].key) == n - 1
    ensures InFirstSeenOrder(Step(gs, cs[n - 1]), cs, n)
  {
    var c := cs[n - 1];
    var r := Step(gs, c);
    KeptKeysStep(gs, cs, n);
    if c.seconds != 0 {
      var j := FindGroup(gs, c.key);
      if j < 0 {
        assert r == gs + [Group(c.key, c.title, c.seconds, 1)];
        assert forall i :: 0 <= i < |gs| ==> r[i] == gs[i];
      } else {
        assert forall i :: 0 <= i < |r| ==> r[i].key == gs[i].key;
      }
    }
  }

  /** `groups.set(key, { title: rawTitle, ... })` runs only for a new key: each group keeps the first counted title. */
  lemma {:induction false} GroupTitlesFirst(cs: seq<Contribution>, n: nat)
    requires n <= |cs|
    ensures TitlesAreFirst(GroupsOf(cs, n), cs, n)
  {
    if n > 0 {
      GroupTitlesFirst(cs, n - 1);
      NewGroupIsFirstSeen(cs, n);
      TitlesStep(GroupsOf(cs, n - 1), cs, n);
    }
  }

  /** A group is created only for a key not counted before, so the groups appear in first-seen order. */
  lemma {:induction false} GroupsInFirstSeenOrder(cs: seq<Contribution>, n: nat)
    requires n <= |cs|
    ensures InFirstSeenOrder(GroupsOf(cs, n), cs, n)
  {
    if n > 0 {
      GroupsInFirstSeenOrder(cs, n - 1);
      GroupTitlesFirst(cs, n - 1);
      TitlesGiveKeys(GroupsOf(cs, n - 1), cs, n - 1);
      NewGroupIsFirstSeen(cs, n);
      OrderStep(GroupsOf(cs, n - 1), cs, n);
    }
  }

  /** The running total is the sum of the group totals. */
  lemma {:induction false} GroupSumIsTotal(cs: seq<Contribution>, n: nat)
    requires n <= |cs|
    ensures SumTotals(GroupsOf(cs, n)) == TotalOf(cs, n)
  {
    if n > 0 {
      GroupSumIsTotal(cs, n - 1);
      var gs := GroupsOf(cs, n - 1);
      var c := cs[n - 1];
      if c.seconds != 0 {
        var j := FindGroup(gs, c.key);
        if j < 0 {
          SumToAppend(gs, Group(c.key, c.title, c.seconds, 1), |gs|);
        } else {
          SumToUpdate(gs, j, gs[j].(totalSeconds := gs[j].totalSeconds + c.seconds, entryCount := gs[j].entryCount + 1), |gs|);
        }
      }
    }
  }

  /** Growing a group in place does not move any key. */
  lemma {:induction false} FindInUpdate(gs: seq<Group>, j: int, g: Group, k: string, n: nat)
    requires 0 <= j < |gs| && g.key == gs[j].key && n <= |gs|
    ensures FindIn(gs[j := g], k, n) == FindIn(gs, k, n)
  {
    if n > 0 {
      FindInUpdate(gs, j, g, k, n - 1);
    }
  }

  /** Appending a group does not change where the earlier keys are found. */
  lemma {:induction false} FindInAppend(gs: seq<Group>, g: Group, k: string, n: nat)
    requires n <= |gs|
    ensures FindIn(gs + [g], k, n) == FindIn(gs, k, n)
  {
    if n > 0 {
      FindInAppend(gs, g, k, n - 1);
    }
  }


  /** Sums over sequences that agree on their first `n` groups agree. */
  lemma {:induction false} SumToAgree(a: seq<Group>, b: seq<Group>, n: nat)
    requires n <= |a| && n <= |b|
    requires forall i :: 0 <= i < n ==> a[i] == b[i]
    ensures SumTo(a, n) == SumTo(b, n)
  {
    if n > 0 {
      SumToAgree(a, b, n - 1);
    }
  }

  lemma {:induction false} SumTotalsConcat(p: seq<Group>, q: seq<Group>)
    ensures SumTotals(p + q) == SumTotals(p) + SumTotals(q)
    decreases |q|
  {
    if q == [] {
      assert p + q == p;
    } else {
      var q' := q[..|q| - 1];
      SumTotalsConcat(p, q');
      SumToAgree(p + q, p + q', |p + q'|);
      SumToAgree(q, q', |q'|);
    }
  }

  /** Reordering the groups does not change the sum of their totals. */
  lemma {:induction false} SumTotalsOfPermutation(a: seq<Group>, b: seq<Group>)
    requires multiset(a) == multiset(b)
    ensures SumTotals(a) == SumTotals(b)
    decreases |a|
  {
    if a == [] {
      assert |b| == |multiset(b)| == 0;
    } else {
      var x := a[|a| - 1];
      var a' := a[..|a| - 1];
      assert a == a' + [x];
      assert x in multiset(b);
      var k :| 0 <= k < |b| && b[k] == x;
      var b' := b[..k] + b[k + 1..];
      assert b == b[..k] + [x] + b[k + 1..];
      assert multiset(b') == multiset(b) - multiset{x};
      assert multiset(a') == multiset(a) - multiset{x};
      SumTotalsOfPermutation(a', b');
      SumTotalsConcat(a', [x]);
      SumTotalsConcat(b[..k], [x]);
      SumTotalsConcat(b[..k] + [x], b[k + 1..]);
      SumTotalsConcat(b[..k], b[k + 1..]);
    }
  }
}
