/**
 * The favourites store of frontend/js/data/favorites-storage.js: one list of
 * favourites per type, kept in `localStorage` under a per-type key, with built-in
 * defaults for a type that has nothing stored. The clock is a parameter.
 */
module Favorites {
  import opened Common
  import Sorting

  /** The type-specific `data` of the favourites this store is used with. */
  datatype FavoriteData = DurationData(seconds: int) | CategoryData(category: string) | ColorData(color: string)

  datatype Favorite = Favorite(
    id: int, favType: string, labelText: string, data: FavoriteData, createdAt: Option<string>, order: int)

  /** The properties an `updates` object may carry; `None` is a property it does not have. */
  datatype FavoritePatch = FavoritePatch(
    id: Option<int>, favType: Option<string>, labelText: Option<string>, data: Option<FavoriteData>,
    createdAt: Option<Option<string>>, order: Option<int>)

  /** `{ ...f, ...updates }` */
  function Merge(f: Favorite, u: FavoritePatch): Favorite {
    Favorite(
      if u.id.Some? then u.id.value else f.id,
      if u.favType.Some? then u.favType.value else f.favType,
      if u.labelText.Some? then u.labelText.value else f.labelText,
      if u.data.Some? then u.data.value else f.data,
      if u.createdAt.Some? then u.createdAt.value else f.createdAt,
      if u.order.Some? then u.order.value else f.order)
  }

  /** Spreading the same updates twice is the same as spreading them once, and no updates change nothing. */
  lemma MergeLaws(f: Favorite, u: FavoritePatch)
    ensures Merge(Merge(f, u), u) == Merge(f, u)
    ensures Merge(f, FavoritePatch(None, None, None, None, None, None)) == f
  {
  }

  // ---------------------------------------------------------------------
  // Defaults

  function DurationDefaults(): seq<Favorite> {
    [ Favorite(1, "duration", "Pomodoro", DurationData(1500), None, 0),
      Favorite(2, "duration", "Short Break", DurationData(300), None, 1),
      Favorite(3, "duration", "Long Break", DurationData(900), None, 2),
      Favorite(4, "duration", "Deep Work", DurationData(5400), None, 3) ]
  }

  function TaskDefaults(): seq<Favorite> {
    [ Favorite(101, "task", "Code Review", CategoryData("Work"), None, 0),
      Favorite(102, "task", "Email", CategoryData("Work"), None, 1),
      Favorite(103, "task", "Exercise", CategoryData("Health"), None, 2) ]
  }

  function CategoryDefaults(): seq<Favorite> {
    [ Favorite(201, "category", "Work", ColorData("#3b82f6"), None, 0),
      Favorite(202, "category", "Personal", ColorData("#10b981"), None, 1),
      Favorite(203, "category", "Learning", ColorData("#8b5cf6"), None, 2) ]
  }

  /** `getDefaults(type)`: the built-in list of a known type, `[]` for any other. */
  function GetDefaults(favType: string): (r: seq<Favorite>)
    ensures favType != "duration" && favType != "task" && favType != "category" ==> r == []
    ensures forall k :: 0 <= k < |r| ==> r[k].order == k && r[k].favType == favType
    ensures IdsDistinct(r)
  {
    if favType == "duration" then DurationDefaults()
    else if favType == "task" then TaskDefaults()
    else if favType == "category" then CategoryDefaults()
    else []
  }

  // ---------------------------------------------------------------------
  // List operations

  /** No two favourites share an id. */
  predicate IdsDistinct(fs: seq<Favorite>) {
    forall i, j :: 0 <= i < j < |fs| ==> fs[i].id != fs[j].id
  }

  /** `favorites.findIndex(f => f.id === id)` */
  function FirstIndex(fs: seq<Favorite>, id: int): (i: int)
    ensures -1 <= i < |fs|
    ensures i >= 0 ==> fs[i].id == id && forall k :: 0 <= k < i ==> fs[k].id != id
    ensures i == -1 ==> forall k :: 0 <= k < |fs| ==> fs[k].id != id
  {
    if fs == [] then -1
    else if fs[0].id == id then 0
    else
      var r := FirstIndex(fs[1..], id);
      if r == -1 then -1 else r + 1
  }

  /** `favorites.filter(f => f.id !== id)` */
  function Without(fs: seq<Favorite>, id: int): (r: seq<Favorite>)
    ensures |r| <= |fs|
    ensures forall f :: f in r <==> f in fs && f.id != id
  {
    if fs == [] then []
    else (if fs[0].id != id then [fs[0]] else []) + Without(fs[1..], id)
  }

  /** Filtering keeps order and multiplicity: it distributes over concatenation. */
  lemma {:induction false} WithoutConcat(a: seq<Favorite>, b: seq<Favorite>, id: int)
    ensures Without(a + b, id) == Without(a, id) + Without(b, id)
  {
    if a == [] {
      assert a + b == b;
    } else {
      var t := a[1..];
      var h := if a[0].id != id then [a[0]] else [];
      calc {
        Without(a + b, id);
        { HeadTail(a, b); }
        Without([a[0]] + (t + b), id);
        { WithoutCons(a[0], t + b, id); }
        h + Without(t + b, id);
        { WithoutConcat(t, b, id); }
        h + (Without(t, id) + Without(b, id));
        { AppendAssoc(h, Without(t, id), Without(b, id)); }
        (h + Without(t, id)) + Without(b, id);
        { WithoutCons(a[0], t, id); }
        Without(a, id) + Without(b, id);
      }
    }
  }

  /** A one-element list keeps its element exactly when it passes the test. */
  lemma WithoutSingleton(x: Favorite, id: int)
    ensures Without([x], id) == (if x.id != id then [x] else [])
  {
    WithoutCons(x, [], id);
    assert [x] + [] == [x];
  }

  /** `Without` of a list with a known head. */
  lemma WithoutCons(a: Favorite, t: seq<Favorite>, id: int)
    ensures Without([a] + t, id) == (if a.id != id then [a] else []) + Without(t, id)
  {
    assert ([a] + t)[0] == a && ([a] + t)[1..] == t;
  }

  /** Removing keeps the other favourites in their order: it undoes appending a favourite with a new id. */
  lemma {:induction false} WithoutAppended(fs: seq<Favorite>, f: Favorite)
    requires forall k :: 0 <= k < |fs| ==> fs[k].id != f.id
    ensures Without(fs + [f], f.id) == fs
  {
    if fs != [] {
      var t := fs[1..];
      assert fs + [f] == [fs[0]] + (t + [f]);
      assert forall k :: 0 <= k < |t| ==> t[k].id != f.id by {
        forall k | 0 <= k < |t| ensures t[k].id != f.id {
          assert t[k] == fs[k + 1];
        }
      }
      WithoutAppended(t, f);
      WithoutCons(fs[0], t + [f], f.id);
      assert fs == [fs[0]] + t;
    } else {
      WithoutCons(f, [], f.id);
      assert [] + [f] == [f];
    }
  }

  /** The orders stay positional (0, 1, ...) through an add. */
  lemma AddKeepsPositions(fs: seq<Favorite>, f: Favorite)
    requires forall k :: 0 <= k < |fs| ==> fs[k].order == k
    requires f.order == |fs|
    ensures var r := fs + [f]; forall k :: 0 <= k < |r| ==> r[k].order == k
  {
  }

  // ---------------------------------------------------------------------
  // Reordering

  /** `if (favorite) favorite.order = k` for the first favourite with that id. */
  function SetOrder(fs: seq<Favorite>, id: int, k: int): (r: seq<Favorite>)
    ensures |r| == |fs|
  {
    var i := FirstIndex(fs, id);
    if i >= 0 then fs[i := fs[i].(order := k)] else fs
  }

  /** The list after the first `m` ids of `favoriteIds.forEach(...)`. */
  function AssignOrders(fs: seq<Favorite>, ids: seq<int>, m: nat): (r: seq<Favorite>)
    requires m <= |ids|
    ensures |r| == |fs|
  {
    if m == 0 then fs else SetOrder(AssignOrders(fs, ids, m - 1), ids[m - 1], m - 1)
  }

  /** The last position below `m` at which `id` is listed, or -1. */
  function LastPos(ids: seq<int>, m: nat, id: int): (k: int)
    requires m <= |ids|
    ensures -1 <= k < m
    ensures k >= 0 ==> ids[k] == id && forall p :: k < p < m ==> ids[p] != id
    ensures k == -1 ==> forall p :: 0 <= p < m ==> ids[p] != id
  {
    if m == 0 then -1 else if ids[m - 1] == id then m - 1 else LastPos(ids, m - 1, id)
  }

  /** The order the loop gives the favourite at `j`. */
  function AssignedOrder(fs: seq<Favorite>, ids: seq<int>, m: nat, j: int): int
    requires m <= |ids| && 0 <= j < |fs|
  {
    var k := LastPos(ids, m, fs[j].id);
    if k >= 0 && FirstIndex(fs, fs[j].id) == j then k else fs[j].order
  }

  lemma {:induction false} FirstIndexSameIds(a: seq<Favorite>, b: seq<Favorite>, id: int)
    requires |a| == |b|
    requires forall i :: 0 <= i < |a| ==> a[i].id == b[i].id
    ensures FirstIndex(a, id) == FirstIndex(b, id)
  {
    if a != [] && a[0].id != id {
      FirstIndexSameIds(a[1..], b[1..], id);
    }
  }

  /**
   * Each favourite keeps everything but its order; its order becomes the last
   * position its id is listed at, if it is the first favourite with that id.
   */
  lemma {:induction false} AssignOrdersMeaning(fs: seq<Favorite>, ids: seq<int>, m: nat)
    requires m <= |ids|
    ensures var r := AssignOrders(fs, ids, m);
      forall j :: 0 <= j < |fs| ==> r[j] == fs[j].(order := AssignedOrder(fs, ids, m, j))
  {
    if m > 0 {
      AssignOrdersMeaning(fs, ids, m - 1);
      var prev := AssignOrders(fs, ids, m - 1);
      FirstIndexSameIds(prev, fs, ids[m - 1]);
    }
  }

  /** `(a, b) => a.order - b.order`, as the descending key of `Sorting`. */
  function OrderKey(f: Favorite): int {
    -f.order
  }

  /** Non-decreasing orders. */
  predicate SortedByOrder(fs: seq<Favorite>) {
    forall i, j :: 0 <= i < j < |fs| ==> fs[i].order <= fs[j].order
  }

  /** The list `reorderFavorites` saves: orders assigned, then sorted by order (stable). */
  function Reordered(fs: seq<Favorite>, ids: seq<int>): (r: seq<Favorite>)
    ensures |r| == |fs|
    ensures multiset(r) == multiset(AssignOrders(fs, ids, |ids|))
  {
    Sorting.SortDesc(AssignOrders(fs, ids, |ids|), OrderKey)
  }

  /** The saved list is in order, and favourites with equal orders keep their relative positions. */
  lemma ReorderedSorted(fs: seq<Favorite>, ids: seq<int>)
    ensures SortedByOrder(Reordered(fs, ids))
    ensures forall k :: Sorting.WithKey(Reordered(fs, ids), OrderKey, k)
                     == Sorting.WithKey(AssignOrders(fs, ids, |ids|), OrderKey, k)
  {
    var a := AssignOrders(fs, ids, |ids|);
    Sorting.SortDescSorted(a, OrderKey);
    forall k {
      Sorting.SortDescStable(a, OrderKey, k);
    }
  }

  /** With distinct ids, an element occurs at most once. */
  lemma {:induction false} DistinctOccursOnce(fs: seq<Favorite>, x: Favorite)
    requires IdsDistinct(fs)
    ensures multiset(fs)[x] <= 1
  {
    if fs != [] {
      assert fs == [fs[0]] + fs[1..];
      assert IdsDistinct(fs[1..]) by {
        forall i, j | 0 <= i < j < |fs[1..]| ensures fs[1..][i].id != fs[1..][j].id {
          assert fs[1..][i] == fs[i + 1] && fs[1..][j] == fs[j + 1];
        }
      }
      DistinctOccursOnce(fs[1..], x);
      if fs[0] == x {
        assert x !in fs[1..] by {
          forall k | 0 <= k < |fs[1..]| ensures fs[1..][k] != x {
            assert fs[1..][k] == fs[k + 1];
          }
        }
      }
    }
  }

  /** Two positions holding the same element make it occur twice. */
  lemma {:induction false} TwiceOccursTwice(fs: seq<Favorite>, a: int, b: int)
    requires 0 <= a < b < |fs| && fs[a] == fs[b]
    ensures multiset(fs)[fs[a]] >= 2
  {
    if a > 0 {
      assert fs == [fs[0]] + fs[1..];
      TwiceOccursTwice(fs[1..], a - 1, b - 1);
    } else {
      assert fs == [fs[0]] + fs[1..];
      assert fs[b] == fs[1..][b - 1];
      assert fs[b] in multiset(fs[1..]);
    }
  }

  /** In a list with distinct ids, an id picks out at most one element. */
  lemma SameIdSameElement(s: seq<Favorite>, x: Favorite, y: Favorite)
    requires IdsDistinct(s) && x in s && y in s && x.id == y.id
    ensures x == y
  {
    var a :| 0 <= a < |s| && s[a] == x;
    var b :| 0 <= b < |s| && s[b] == y;
  }

  /** A permutation of a list with distinct ids has distinct ids. */
  lemma PermutationKeepsIdsDistinct(r: seq<Favorite>, s: seq<Favorite>)
    requires multiset(r) == multiset(s) && IdsDistinct(s)
    ensures IdsDistinct(r)
  {
    forall i, j | 0 <= i < j < |r| ensures r[i].id != r[j].id {
      if r[i].id == r[j].id {
        assert r[i] in multiset(s) && r[j] in multiset(s);
        SameIdSameElement(s, r[i], r[j]);
        TwiceOccursTwice(r, i, j);
        DistinctOccursOnce(s, r[i]);
      }
    }
  }

  /** Orders strictly increasing in `[0, n)` over `n` favourites are exactly `0, ..., n - 1`. */
  lemma OrdersArePositions(fs: seq<Favorite>)
    requires forall i, j :: 0 <= i < j < |fs| ==> fs[i].order < fs[j].order
    requires forall i :: 0 <= i < |fs| ==> 0 <= fs[i].order < |fs|
    ensures forall k :: 0 <= k < |fs| ==> fs[k].order == k
  {
    forall k | 0 <= k < |fs| ensures fs[k].order == k {
      AtLeastPosition(fs, k);
      AtMostPosition(fs, k);
    }
  }

  lemma {:induction false} AtLeastPosition(fs: seq<Favorite>, k: nat)
    requires forall i, j :: 0 <= i < j < |fs| ==> fs[i].order < fs[j].order
    requires forall i :: 0 <= i < |fs| ==> 0 <= fs[i].order
    requires k < |fs|
    ensures fs[k].order >= k
  {
    if k > 0 {
      AtLeastPosition(fs, k - 1);
    }
  }

  lemma {:induction false} AtMostPosition(fs: seq<Favorite>, k: nat)
    requires forall i, j :: 0 <= i < j < |fs| ==> fs[i].order < fs[j].order
    requires forall i :: 0 <= i < |fs| ==> fs[i].order < |fs|
    requires k < |fs|
    ensures fs[k].order <= k
    decreases |fs| - k
  {
    if k < |fs| - 1 {
      AtMostPosition(fs, k + 1);
    }
  }

  /** `ids` lists every favourite's id exactly once. */
  predicate ListsEachOnce(fs: seq<Favorite>, ids: seq<int>) {
    |ids| == |fs| && IdsDistinct(fs)
    && (forall p, q :: 0 <= p < q < |ids| ==> ids[p] != ids[q])
    && (forall j :: 0 <= j < |fs| ==> fs[j].id in ids)
  }

  /** After the loop each favourite has the position of its id as its order. */
  lemma AssignedPositions(fs: seq<Favorite>, ids: seq<int>)
    requires ListsEachOnce(fs, ids)
    ensures var a := AssignOrders(fs, ids, |ids|);
      IdsDistinct(a)
      && forall j :: 0 <= j < |a| ==> 0 <= a[j].order < |a| && ids[a[j].order] == a[j].id
  {
    var a := AssignOrders(fs, ids, |ids|);
    AssignOrdersMeaning(fs, ids, |ids|);
    forall j | 0 <= j < |fs| ensures a[j].id == fs[j].id && 0 <= a[j].order < |fs| && ids[a[j].order] == a[j].id {
      var p :| 0 <= p < |ids| && ids[p] == fs[j].id;
      assert FirstIndex(fs, fs[j].id) == j;
      assert LastPos(ids, |ids|, fs[j].id) >= 0;
    }
  }

  /** A sorted list whose orders are the positions of its distinct ids in `ids` follows `ids`. */
  lemma SortedFollowsIds(r: seq<Favorite>, ids: seq<int>)
    requires IdsDistinct(r) && SortedByOrder(r) && |ids| == |r|
    requires forall i :: 0 <= i < |r| ==> 0 <= r[i].order < |r| && ids[r[i].order] == r[i].id
    ensures forall k :: 0 <= k < |r| ==> r[k].id == ids[k] && r[k].order == k
  {
    assert forall i, j :: 0 <= i < j < |r| ==> r[i].order < r[j].order;
    OrdersArePositions(r);
  }

  /**
   * When the ids list every favourite exactly once, the saved list is the
   * favourites in the listed order, each with its position as its order.
   */
  lemma ReorderFollowsIds(fs: seq<Favorite>, ids: seq<int>)
    requires ListsEachOnce(fs, ids)
    ensures var r := Reordered(fs, ids);
      forall k :: 0 <= k < |r| ==> r[k].id == ids[k] && r[k].order == k
  {
    var a := AssignOrders(fs, ids, |ids|);
    var r := Reordered(fs, ids);
    AssignedPositions(fs, ids);
    PermutationKeepsIdsDistinct(r, a);
    ReorderedSorted(fs, ids);
    forall i | 0 <= i < |r| ensures 0 <= r[i].order < |r| && ids[r[i].order] == r[i].id {
      assert r[i] in multiset(a);
      var j :| 0 <= j < |a| && a[j] == r[i];
    }
    SortedFollowsIds(r, ids);
  }

  // ---------------------------------------------------------------------
  // The store

  class FavoritesStore {
    /** The saved list of each type that has one. */
    var stored: map<string, seq<Favorite>>

    constructor (stored: map<string, seq<Favorite>>)
      ensures this.stored == stored
    {
      this.stored := stored;
    }

    /** `loadFavorites(type)`: the saved list, or the defaults when nothing is saved. */
    function LoadFavorites(favType: string): seq<Favorite>
      reads this
    {
      if favType in stored then stored[favType] else GetDefaults(favType)
    }

    /** `addFavorite(type, label, data)`: appends one favourite whose order is the old length. */
    method AddFavorite(favType: string, labelText: string, data: FavoriteData, nowMs: int, nowIso: string)
      returns (newFavorite: Favorite)
      modifies this
      ensures newFavorite == Favorite(nowMs, favType, labelText, data, Some(nowIso), |old(LoadFavorites(favType))|)
      ensures stored == old(stored)[favType := old(LoadFavorites(favType)) + [newFavorite]]
    {
      var favorites := LoadFavorites(favType);
      newFavorite := Favorite(nowMs, favType, labelText, data, Some(nowIso), |favorites|);
      favorites := favorites + [newFavorite];
      stored := stored[favType := favorites];
    }

    /** `removeFavorite(type, id)`: saves the list without the favourites with that id. */
    method RemoveFavorite(favType: string, id: int)
      modifies this
      ensures stored == old(stored)[favType := Without(old(LoadFavorites(favType)), id)]
    {
      var favorites := LoadFavorites(favType);
      var filtered := Without(favorites, id);
      stored := stored[favType := filtered];
    }

    /**
     * `updateFavorite(type, id, updates)`: merges the updates into the first favourite
     * with that id, saves and returns it; with no such favourite, saves nothing and returns `null`.
     */
    method UpdateFavorite(favType: string, id: int, updates: FavoritePatch) returns (r: Option<Favorite>)
      modifies this
      ensures var fs := old(LoadFavorites(favType));
        var i := FirstIndex(fs, id);
        (i == -1 ==> r.None? && stored == old(stored))
        && (i >= 0 ==> r == Some(Merge(fs[i], updates)) && stored == old(stored)[favType := fs[i := r.value]])
    {
      var favorites := LoadFavorites(favType);
      var index := FirstIndex(favorites, id);
      if index != -1 {
        favorites := favorites[index := Merge(favorites[index], updates)];
        stored := stored[favType := favorites];
        return Some(favorites[index]);
      }
      return None;
    }

    /** `reorderFavorites(type, favoriteIds)`: gives each listed favourite its position, then sorts by order. */
    method ReorderFavorites(favType: string, favoriteIds: seq<int>)
      modifies this
      ensures stored == old(stored)[favType := Reordered(old(LoadFavorites(favType)), favoriteIds)]
    {
      var loaded := LoadFavorites(favType);
      var favorites := loaded;
      for index := 0 to |favoriteIds|
        invariant favorites == AssignOrders(loaded, favoriteIds, index)
      {
        var i := FirstIndex(favorites, favoriteIds[index]);
        if i >= 0 {
          favorites := favorites[i := favorites[i].(order := index)];
        }
      }
      favorites := Sorting.SortDesc(favorites, OrderKey);
      stored := stored[favType := favorites];
    }
  }
}
