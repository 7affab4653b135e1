/**
 * The category autocomplete of js/utils/category-manager.js: usage counts per
 * category (a JavaScript `Map`, which keeps its keys unique and in insertion
 * order), the dropdown list sorted by count and filtered by a search term, and
 * the keyboard selection index over the items last rendered in the dropdown.
 */
module Categories {
  import opened Common
  import Sorting

  datatype CategoryCount = CategoryCount(category: string, count: nat)

  /** No category appears twice, as in a `Map`. */
  predicate KeysUnique(es: seq<CategoryCount>) {
    forall i, j :: 0 <= i < j < |es| ==> es[i].category != es[j].category
  }

  /** The position of `k` in the entries, or -1 when it is not a key. */
  function Find(es: seq<CategoryCount>, k: string): (i: int)
    ensures -1 <= i < |es|
    ensures i >= 0 ==> es[i].category == k
    ensures i == -1 ==> forall j :: 0 <= j < |es| ==> es[j].category != k
  {
    if es == [] then -1
    else if es[0].category == k then 0
    else
      var r := Find(es[1..], k);
      if r == -1 then -1 else r + 1
  }

  /** `categories.get(k) || 0` */
  function CountOf(es: seq<CategoryCount>, k: string): nat {
    var i := Find(es, k);
    if i >= 0 then es[i].count else 0
  }

  /** `categories.set(k, (categories.get(k) || 0) + 1)`: in place for a key, appended for a new one. */
  function Bump(es: seq<CategoryCount>, k: string): (r: seq<CategoryCount>) {
    var i := Find(es, k);
    if i >= 0 then es[i := es[i].(count := es[i].count + 1)] else es + [CategoryCount(k, 1)]
  }

  /** `c && c.trim()`: a category that is counted at all. */
  predicate Counted(c: Js<string>) {
    TruthyString(c) && Trim(c.value) != ""
  }

  /** One item's effect on the counts: its trimmed category goes up by one, unless it is blank. */
  function Step(es: seq<CategoryCount>, c: Js<string>): seq<CategoryCount> {
    if Counted(c) then Bump(es, Trim(c.value)) else es
  }

  /** The counts after the first `n` items of a load into an empty map. */
  function CountsOf(cs: seq<Js<string>>, n: nat): seq<CategoryCount>
    requires n <= |cs|
  {
    if n == 0 then [] else Step(CountsOf(cs, n - 1), cs[n - 1])
  }

  /** How many of the first `n` items are counted under the trimmed key `k`. */
  function Occurrences(cs: seq<Js<string>>, n: nat, k: string): nat
    requires n <= |cs|
  {
    if n == 0 then 0
    else Occurrences(cs, n - 1, k) + (if Counted(cs[n - 1]) && Trim(cs[n - 1].value) == k then 1 else 0)
  }

  /** Every key is a trimmed, non-empty category. */
  predicate KeysClean(es: seq<CategoryCount>) {
    forall i :: 0 <= i < |es| ==> es[i].category != "" && Trim(es[i].category) == es[i].category
  }

  lemma {:induction false} FindSameKeys(a: seq<CategoryCount>, b: seq<CategoryCount>, k: string)
    requires |a| == |b|
    requires forall i :: 0 <= i < |a| ==> a[i].category == b[i].category
    ensures Find(a, k) == Find(b, k)
  {
    if a != [] && a[0].category != k {
      FindSameKeys(a[1..], b[1..], k);
    }
  }

  lemma FindUnique(es: seq<CategoryCount>, i: int, k: string)
    requires KeysUnique(es)
    requires 0 <= i < |es| && es[i].category == k
    ensures Find(es, k) == i
  {
  }

  /** Bumping keeps the keys unique and adds one to exactly the bumped key's count. */
  lemma BumpCount(es: seq<CategoryCount>, k: string, j: string)
    requires KeysUnique(es)
    ensures KeysUnique(Bump(es, k))
    ensures CountOf(Bump(es, k), j) == CountOf(es, j) + (if j == k then 1 else 0)
  {
    var i := Find(es, k);
    var r := Bump(es, k);
    if i >= 0 {
      FindSameKeys(r, es, j);
      FindSameKeys(r, es, k);
    } else {
      var f := Find(es, j);
      if f >= 0 {
        FindUnique(r, f, j);
      } else if j == k {
        FindUnique(r, |es|, j);
      } else {
        assert forall m :: 0 <= m < |r| ==> r[m].category != j;
      }
    }
  }

  /** A loaded map has unique, trimmed, non-empty keys. */
  lemma {:induction false} CountsWellFormed(cs: seq<Js<string>>, n: nat)
    requires n <= |cs|
    ensures KeysUnique(CountsOf(cs, n)) && KeysClean(CountsOf(cs, n))
  {
    if n > 0 {
      CountsWellFormed(cs, n - 1);
      var es := CountsOf(cs, n - 1);
      if Counted(cs[n - 1]) {
        var k := Trim(cs[n - 1].value);
        TrimIdempotent(cs[n - 1].value);
        BumpCount(es, k, k);
      }
    }
  }

  /** After a load, the count stored under each key is the number of items whose trimmed category it is. */
  lemma {:induction false} CountsAreOccurrences(cs: seq<Js<string>>, n: nat, k: string)
    requires n <= |cs|
    ensures CountOf(CountsOf(cs, n), k) == Occurrences(cs, n, k)
  {
    if n > 0 {
      CountsAreOccurrences(cs, n - 1, k);
      CountsWellFormed(cs, n - 1);
      if Counted(cs[n - 1]) {
        BumpCount(CountsOf(cs, n - 1), Trim(cs[n - 1].value), k);
      }
    }
  }

  lemma {:induction false} CountsOfPrefix(cs: seq<Js<string>>, c: Js<string>, n: nat)
    requires n <= |cs|
    ensures CountsOf(cs + [c], n) == CountsOf(cs, n)
  {
    if n > 0 {
      CountsOfPrefix(cs, c, n - 1);
    }
  }

  /** Incrementing a category counts it exactly as loading one more item with that category would. */
  lemma IncrementIsLoadingOneMore(cs: seq<Js<string>>, c: Js<string>)
    ensures Step(CountsOf(cs, |cs|), c) == CountsOf(cs + [c], |cs| + 1)
  {
    CountsOfPrefix(cs, c, |cs|);
  }

  // ---------------------------------------------------------------------
  // The dropdown list

  function CountKey(e: CategoryCount): int {
    e.count
  }

  /** `categories.filter(([c]) => c.toLowerCase().includes(term))` */
  function Matching(es: seq<CategoryCount>, term: string): (r: seq<CategoryCount>)
    ensures |r| <= |es|
    ensures forall e :: e in r <==> e in es && Contains(ToLower(e.category), term)
  {
    if es == [] then []
    else (if Contains(ToLower(es[0].category), term) then [es[0]] else []) + Matching(es[1..], term)
  }

  /** `Matching` of a list with a known head. */
  lemma MatchingCons(x: CategoryCount, t: seq<CategoryCount>, term: string)
    ensures Matching([x] + t, term) == (if Contains(ToLower(x.category), term) then [x] else []) + Matching(t, term)
  {
    assert ([x] + t)[0] == x && ([x] + t)[1..] == t;
  }

  /** Filtering keeps order and multiplicity: it distributes over concatenation. */
  lemma {:induction false} MatchingConcat(a: seq<CategoryCount>, b: seq<CategoryCount>, term: string)
    ensures Matching(a + b, term) == Matching(a, term) + Matching(b, term)
  {
    if a == [] {
      assert a + b == b;
    } else {
      var t := a[1..];
      var h := if Contains(ToLower(a[0].category), term) then [a[0]] else [];
      calc {
        Matching(a + b, term);
        { HeadTail(a, b); }
        Matching([a[0]] + (t + b), term);
        { MatchingCons(a[0], t + b, term); }
        h + Matching(t + b, term);
        { MatchingConcat(t, b, term); }
        h + (Matching(t, term) + Matching(b, term));
        { AppendAssoc(h, Matching(t, term), Matching(b, term)); }
        (h + Matching(t, term)) + Matching(b, term);
        { MatchingCons(a[0], t, term); }
        Matching(a, term) + Matching(b, term);
      }
    }
  }

  /** A one-element list keeps its element exactly when it passes the test. */
  lemma MatchingSingleton(x: CategoryCount, term: string)
    ensures Matching([x], term) == (if Contains(ToLower(x.category), term) then [x] else [])
  {
    MatchingCons(x, [], term);
    assert [x] + [] == [x];
  }

  lemma {:induction false} MatchingSorted(es: seq<CategoryCount>, term: string)
    requires Sorting.SortedDesc(es, CountKey)
    ensures Sorting.SortedDesc(Matching(es, term), CountKey)
  {
    if es != [] {
      var tail := es[1..];
      assert Sorting.SortedDesc(tail, CountKey) by {
        forall i, j | 0 <= i < j < |tail| ensures CountKey(tail[i]) >= CountKey(tail[j]) {
          assert tail[i] == es[i + 1] && tail[j] == es[j + 1];
        }
      }
      MatchingSorted(tail, term);
      var rest := Matching(tail, term);
      if Contains(ToLower(es[0].category), term) {
        forall y | y in rest ensures CountKey(es[0]) >= CountKey(y) {
          var m :| 0 <= m < |tail| && tail[m] == y;
          assert es[m + 1] == y;
        }
        Sorting.ConsSorted(es[0], rest, CountKey);
      } else {
        assert [] + rest == rest;
      }
    }
  }

  /** Keeping the entries with one count and keeping the matching entries can be done in either order. */
  lemma {:induction false} MatchingWithKey(s: seq<CategoryCount>, term: string, c: int)
    ensures Sorting.WithKey(Matching(s, term), CountKey, c) == Matching(Sorting.WithKey(s, CountKey, c), term)
  {
    if s != [] {
      var x, t := s[0], s[1..];
      HeadTail(s, []);
      var hm := if Contains(ToLower(x.category), term) then [x] else [];
      var hk := if CountKey(x) == c then [x] else [];
      var both := if Contains(ToLower(x.category), term) && CountKey(x) == c then [x] else [];
      assert Sorting.WithKey(hm, CountKey, c) == both by {
        if hm == [x] {
          Sorting.WithKeyCons(x, [], CountKey, c);
          assert [x] + [] == [x];
        }
      }
      assert Matching(hk, term) == both by {
        if hk == [x] {
          MatchingSingleton(x, term);
        }
      }
      calc {
        Sorting.WithKey(Matching(s, term), CountKey, c);
        { MatchingCons(x, t, term); }
        Sorting.WithKey(hm + Matching(t, term), CountKey, c);
        { Sorting.WithKeyConcat(hm, Matching(t, term), CountKey, c); }
        both + Sorting.WithKey(Matching(t, term), CountKey, c);
        { MatchingWithKey(t, term, c); }
        both + Matching(Sorting.WithKey(t, CountKey, c), term);
        { MatchingConcat(hk, Sorting.WithKey(t, CountKey, c), term); }
        Matching(hk + Sorting.WithKey(t, CountKey, c), term);
        { Sorting.WithKeyCons(x, t, CountKey, c); }
        Matching(Sorting.WithKey(s, CountKey, c), term);
      }
    }
  }

  /**
   * `getFilteredCategories(searchTerm)`: the entries sorted by count, most used
   * first (ties in insertion order), then, when the lower-cased, trimmed term is
   * not empty, only those whose lower-cased name contains it.
   */
  function FilteredCategories(es: seq<CategoryCount>, searchTerm: string): (r: seq<CategoryCount>) {
    var normalized := Trim(ToLower(searchTerm));
    var sorted := Sorting.SortDesc(es, CountKey);
    if normalized != "" then Matching(sorted, normalized) else sorted
  }

  /**
   * The filtered list holds exactly the matching entries, most used first; an
   * empty (or blank) term keeps every entry; and for each count, the entries with
   * that count are the matching ones with that count in insertion order.
   */
  lemma FilteredCategoriesMeaning(es: seq<CategoryCount>, searchTerm: string)
    ensures var r := FilteredCategories(es, searchTerm);
      var normalized := Trim(ToLower(searchTerm));
      Sorting.SortedDesc(r, CountKey)
      && (forall e :: e in r <==> e in es && (normalized == "" || Contains(ToLower(e.category), normalized)))
      && (normalized == "" ==> |r| == |es|)
      && (forall c :: Sorting.WithKey(r, CountKey, c)
            == (if normalized == "" then Sorting.WithKey(es, CountKey, c)
                else Matching(Sorting.WithKey(es, CountKey, c), normalized)))
  {
    var sorted := Sorting.SortDesc(es, CountKey);
    Sorting.SortDescSorted(es, CountKey);
    assert forall e :: e in sorted <==> e in multiset(sorted);
    assert forall e :: e in sorted <==> e in es;
    var normalized := Trim(ToLower(searchTerm));
    if normalized != "" {
      MatchingSorted(sorted, normalized);
      forall c
        ensures Sorting.WithKey(Matching(sorted, normalized), CountKey, c)
             == Matching(Sorting.WithKey(es, CountKey, c), normalized)
      {
        Sorting.SortDescStable(es, CountKey, c);
        MatchingWithKey(sorted, normalized, c);
      }
    } else {
      forall c {
        Sorting.SortDescStable(es, CountKey, c);
      }
    }
  }

  /**
   * What `item.dataset.category` reads back from `data-category="${escapeHtml(category)}"`.
   * `escapeHtml` (text content serialised by `innerHTML`) escapes `&`, `<` and `>`,
   * which the attribute parser decodes again, but not `"`: the attribute value
   * therefore ends at the first double quote of the category.
   */
  function DatasetCategory(c: string): (r: string)
    ensures |r| <= |c| && r == c[..|r|]
    ensures '"' !in r
    ensures |r| < |c| ==> c[|r|] == '"'
    ensures '"' !in c ==> r == c
  {
    if c == [] || c[0] == '"' then []
    else
      var rest := DatasetCategory(c[1..]);
      assert c[..|rest| + 1] == [c[0]] + c[1..][..|rest|];
      [c[0]] + rest
  }

  // ---------------------------------------------------------------------
  // The manager

  datatype Key = ArrowDown | ArrowUp | Enter | Escape | OtherKey

  class CategoryManager {
    /** The usage counts. */
    var categories: seq<CategoryCount>
    /** The selection among the rendered items; -1 is none. */
    var selectedIndex: int
    /** The entries last rendered into the dropdown (hiding keeps them in the page). */
    var rendered: seq<CategoryCount>
    var hidden: bool
    /** The text of the input element. */
    var inputValue: string

    /** The selection is -1 or the position of a rendered item; the counts form a `Map`. */
    predicate Valid()
      reads this
    {
      -1 <= selectedIndex < |rendered| && KeysUnique(categories)
    }

    constructor (inputValue: string, hidden: bool)
      ensures Valid() && categories == [] && selectedIndex == -1 && rendered == []
      ensures this.inputValue == inputValue && this.hidden == hidden
    {
      categories := [];
      selectedIndex := -1;
      rendered := [];
      this.hidden := hidden;
      this.inputValue := inputValue;
    }

    /** `loadCategories(primeItems)`, given each item's `category`: clears the map, then counts. */
    method LoadCategories(itemCategories: seq<Js<string>>)
      requires Valid()
      modifies this`categories
      ensures Valid()
      ensures categories == CountsOf(itemCategories, |itemCategories|)
      ensures KeysClean(categories)
      ensures forall k :: CountOf(categories, k) == Occurrences(itemCategories, |itemCategories|, k)
    {
      categories := [];
      for i := 0 to |itemCategories|
        invariant categories == CountsOf(itemCategories, i)
      {
        var c := itemCategories[i];
        if TruthyString(c) && Trim(c.value) != "" {
          var category := Trim(c.value);
          categories := Bump(categories, category);
        }
      }
      CountsWellFormed(itemCategories, |itemCategories|);
      forall k {
        CountsAreOccurrences(itemCategories, |itemCategories|, k);
      }
    }

    /** `getFilteredCategories(searchTerm)` on the current counts. */
    function GetFilteredCategories(searchTerm: string): seq<CategoryCount>
      reads this
    {
      FilteredCategories(categories, searchTerm)
    }

    /** `hideDropdown()` */
    method HideDropdown()
      modifies this`hidden, this`selectedIndex
      ensures hidden && selectedIndex == -1
    {
      hidden := true;
      selectedIndex := -1;
    }

    /**
     * `handleInput()` with `renderDropdown(input.value)`: the selection is cleared;
     * an empty list hides the dropdown and leaves the old items in the page, any
     * other list replaces them and shows the dropdown.
     */
    method HandleInput()
      requires Valid()
      modifies this`selectedIndex, this`rendered, this`hidden
      ensures Valid() && selectedIndex == -1
      ensures var filtered := FilteredCategories(categories, inputValue);
        (filtered == [] ==> hidden && rendered == old(rendered))
        && (filtered != [] ==> !hidden && rendered == filtered)
    {
      selectedIndex := -1;
      var filtered := GetFilteredCategories(inputValue);
      if |filtered| == 0 {
        HideDropdown();
        return;
      }
      rendered := filtered;
      hidden := false;
    }

    /** `selectCategory(category)`: fills the input, hides the dropdown and reports the choice. */
    method SelectCategory(category: string) returns (selected: string)
      requires Valid()
      modifies this`inputValue, this`hidden, this`selectedIndex
      ensures Valid() && inputValue == category && hidden && selectedIndex == -1 && selected == category
    {
      inputValue := category;
      HideDropdown();
      selected := category;
    }

    /**
     * `handleKeydown(e)` over the rendered items: the arrows move the selection within
     * `[-1, items.length - 1]`, Enter on a selected item picks the category its
     * `data-category` attribute reads back as, Escape hides.
     */
    method HandleKeydown(key: Key) returns (selected: Option<string>)
      requires Valid()
      modifies this`selectedIndex, this`inputValue, this`hidden
      ensures Valid()
      ensures key == ArrowDown ==> selectedIndex == old(if selectedIndex + 1 <= |rendered| - 1 then selectedIndex + 1 else |rendered| - 1)
      ensures key == ArrowUp ==> selectedIndex == old(if selectedIndex - 1 >= -1 then selectedIndex - 1 else -1)
      ensures key == ArrowDown || key == ArrowUp ==> hidden == old(hidden)
      ensures key == Enter && old(selectedIndex) >= 0 ==> (selected == Some(DatasetCategory(old(rendered[selectedIndex].category)))
        && inputValue == selected.value && hidden && selectedIndex == -1)
      ensures key == Escape ==> hidden && selectedIndex == -1
      ensures !(key == Enter && old(selectedIndex) >= 0) ==> selected.None? && inputValue == old(inputValue)
      ensures key == OtherKey || (key == Enter && old(selectedIndex) < 0) ==> (selectedIndex == old(selectedIndex) && hidden == old(hidden))
    {
      selected := None;
      if key == ArrowDown {
        selectedIndex := if selectedIndex + 1 <= |rendered| - 1 then selectedIndex + 1 else |rendered| - 1;
      } else if key == ArrowUp {
        selectedIndex := if selectedIndex - 1 >= -1 then selectedIndex - 1 else -1;
      } else if key == Enter && selectedIndex >= 0 {
        var category := DatasetCategory(rendered[selectedIndex].category);
        var s := SelectCategory(category);
        selected := Some(s);
      } else if key == Escape {
        HideDropdown();
      }
    }

    /** `incrementCategory(category)`: a blank category is ignored, any other counts once more, trimmed. */
    method IncrementCategory(category: Js<string>)
      requires Valid()
      modifies this`categories
      ensures Valid()
      ensures categories == Step(old(categories), category)
      ensures forall k :: (CountOf(categories, k)
        == old(CountOf(categories, k)) + (if Counted(category) && k == Trim(category.value) then 1 else 0))
    {
      if !TruthyString(category) || Trim(category.value) == "" {
        return;
      }
      var normalized := Trim(category.value);
      forall k {
        BumpCount(categories, normalized, k);
      }
      categories := Bump(categories, normalized);
    }
  }
}
