/**
 * The pure parts of frontend/js/controllers/prime-controller.js: the list of
 * items shown for the archived / active toggle, and `parseImportFile`, which
 * reads an optional `category: X` header line and one title per `####` line.
 */
module PrimeImport {
  import opened Common
  import Clock
  import FrontendPrimeItem

  /** `showArchived ? items.filter(i => i.archived) : items.filter(i => !i.archived)` */
  function VisiblePrimeItems(items: seq<FrontendPrimeItem.PrimeItem>, showArchived: bool): (r: seq<FrontendPrimeItem.PrimeItem>)
    reads items
    ensures |r| <= |items|
    ensures forall k :: 0 <= k < |r| ==> r[k] in items && r[k].IsArchived() == showArchived
    ensures forall i :: 0 <= i < |items| && items[i].IsArchived() == showArchived ==> items[i] in r
  {
    if items == [] then []
    else (if items[0].IsArchived() == showArchived then [items[0]] else []) + VisiblePrimeItems(items[1..], showArchived)
  }

  /** `VisiblePrimeItems` of a list with a known head. */
  lemma VisiblePrimeItemsCons(x: FrontendPrimeItem.PrimeItem, t: seq<FrontendPrimeItem.PrimeItem>, showArchived: bool)
    ensures VisiblePrimeItems([x] + t, showArchived) == (if x.IsArchived() == showArchived then [x] else []) + VisiblePrimeItems(t, showArchived)
  {
    assert ([x] + t)[0] == x && ([x] + t)[1..] == t;
  }

  /** Filtering keeps order and multiplicity: it distributes over concatenation. */
  lemma {:induction false} VisiblePrimeItemsConcat(a: seq<FrontendPrimeItem.PrimeItem>, b: seq<FrontendPrimeItem.PrimeItem>, showArchived: bool)
    ensures VisiblePrimeItems(a + b, showArchived) == VisiblePrimeItems(a, showArchived) + VisiblePrimeItems(b, showArchived)
  {
    if a == [] {
      assert a + b == b;
    } else {
      var t := a[1..];
      var h := if a[0].IsArchived() == showArchived then [a[0]] else [];
      calc {
        VisiblePrimeItems(a + b, showArchived);
        { HeadTail(a, b); }
        VisiblePrimeItems([a[0]] + (t + b), showArchived);
        { VisiblePrimeItemsCons(a[0], t + b, showArchived); }
        h + VisiblePrimeItems(t + b, showArchived);
        { VisiblePrimeItemsConcat(t, b, showArchived); }
        h + (VisiblePrimeItems(t, showArchived) + VisiblePrimeItems(b, showArchived));
        { AppendAssoc(h, VisiblePrimeItems(t, showArchived), VisiblePrimeItems(b, showArchived)); }
        (h + VisiblePrimeItems(t, showArchived)) + VisiblePrimeItems(b, showArchived);
        { VisiblePrimeItemsCons(a[0], t, showArchived); }
        VisiblePrimeItems(a, showArchived) + VisiblePrimeItems(b, showArchived);
      }
    }
  }

  /** A one-element list keeps its element exactly when it passes the test. */
  lemma VisiblePrimeItemsSingleton(x: FrontendPrimeItem.PrimeItem, showArchived: bool)
    ensures VisiblePrimeItems([x], showArchived) == (if x.IsArchived() == showArchived then [x] else [])
  {
    VisiblePrimeItemsCons(x, [], showArchived);
    assert [x] + [] == [x];
  }

  // ---------------------------------------------------------------------
  // The category header

  /** The characters a regular expression's `.` does not match. */
  predicate IsLineTerminator(c: char) {
    c == '\n' || c == '\r' || c == '\U{2028}' || c == '\U{2029}'
  }

  const HeaderPrefix: string := "category:"

  /**
   * `line.trim().match(/^category:\s*(.+)$/i)` and the trimmed group: the ASCII
   * letters of the prefix in either case, then optional whitespace, then a non-empty
   * rest free of line terminators (the greedy `\s*` leaves the rest starting with a
   * non-whitespace character).
   */
  function HeaderCategory(line: string): Option<string> {
    var t := Trim(line);
    if |t| < |HeaderPrefix| || ToLower(t[..|HeaderPrefix|]) != HeaderPrefix then None
    else
      var group := TrimStart(t[|HeaderPrefix|..]);
      if group == [] || exists i :: 0 <= i < |group| && IsLineTerminator(group[i]) then None
      else Some(Trim(group))
  }

  /** A declared category is trimmed and not empty. */
  lemma HeaderCategoryClean(line: string)
    ensures var r := HeaderCategory(line); r.Some? ==> r.value != "" && Trim(r.value) == r.value
  {
    var t := Trim(line);
    if |t| >= |HeaderPrefix| {
      var group := TrimStart(t[|HeaderPrefix|..]);
      TrimStartSpec(t[|HeaderPrefix|..]);
      TrimEmptyIffBlank(group);
      TrimIdempotent(group);
    }
  }

  // ---------------------------------------------------------------------
  // Title lines

  const TitleMarker: string := "####"

  /** One line's contribution: the trimmed text after `####` on a trimmed `####` line, if not empty. */
  function LineTitle(line: string): (r: seq<string>)
    ensures |r| <= 1
  {
    var trimmed := Trim(line);
    if StartsWith(trimmed, TitleMarker) then
      var title := Trim(trimmed[|TitleMarker|..]);
      if title != "" then [title] else []
    else []
  }

  /** `f` applied to each element, the results concatenated in order. */
  function FlatMap<T, U>(xs: seq<T>, f: T -> seq<U>): seq<U> {
    if xs == [] then [] else FlatMap(xs[..|xs| - 1], f) + f(xs[|xs| - 1])
  }

  lemma {:induction false} FlatMapConcat<T, U>(a: seq<T>, b: seq<T>, f: T -> seq<U>)
    ensures FlatMap(a + b, f) == FlatMap(a, f) + FlatMap(b, f)
    decreases |b|
  {
    if b == [] {
      assert a + b == a;
    } else {
      var ab := a + b;
      assert ab[..|ab| - 1] == a + b[..|b| - 1];
      FlatMapConcat(a, b[..|b| - 1], f);
    }
  }

  /** The titles of a run of lines, in line order. */
  function TitlesOf(lines: seq<string>): seq<string> {
    FlatMap(lines, LineTitle)
  }

  /** Titles keep the order of their lines: the titles of two runs are the titles of their concatenation. */
  lemma TitlesOfConcat(a: seq<string>, b: seq<string>)
    ensures TitlesOf(a + b) == TitlesOf(a) + TitlesOf(b)
  {
    FlatMapConcat(a, b, LineTitle);
  }

  /** Every title is trimmed and not empty. */
  predicate AllClean(ts: seq<string>) {
    forall k :: 0 <= k < |ts| ==> ts[k] != "" && Trim(ts[k]) == ts[k]
  }

  /** A line's title is trimmed and not empty. */
  lemma LineTitleClean(line: string)
    ensures AllClean(LineTitle(line))
  {
    var trimmed := Trim(line);
    if StartsWith(trimmed, TitleMarker) {
      TrimIdempotent(trimmed[|TitleMarker|..]);
    }
  }

  /** Every title read from a file is trimmed and not empty. */
  lemma {:induction false} TitlesClean(lines: seq<string>)
    ensures AllClean(TitlesOf(lines))
  {
    if lines != [] {
      TitlesClean(lines[..|lines| - 1]);
      LineTitleClean(lines[|lines| - 1]);
      var a, b := TitlesOf(lines[..|lines| - 1]), LineTitle(lines[|lines| - 1]);
      assert TitlesOf(lines) == a + b;
      forall k | 0 <= k < |a + b| ensures (a + b)[k] != "" && Trim((a + b)[k]) == (a + b)[k] {
        if k < |a| {
          assert (a + b)[k] == a[k];
        } else {
          assert (a + b)[k] == b[k - |a|];
        }
      }
    }
  }

  /** A category header is never also a title line, so skipping it drops no title. */
  lemma HeaderIsNoTitle(line: string)
    requires HeaderCategory(line).Some?
    ensures LineTitle(line) == []
  {
    var t := Trim(line);
    assert LowerChar(t[0]) == 'c';
  }

  /** Reading from the second line gives the same titles as reading them all when the first is a header. */
  lemma SkipHeader(lines: seq<string>)
    requires lines != [] && HeaderCategory(lines[0]).Some?
    ensures TitlesOf(lines[1..]) == TitlesOf(lines)
  {
    assert lines == [lines[0]] + lines[1..];
    TitlesOfConcat([lines[0]], lines[1..]);
    HeaderIsNoTitle(lines[0]);
    assert [lines[0]][..0] == [];
    assert TitlesOf([lines[0]]) == FlatMap([], LineTitle) + LineTitle(lines[0]);
  }

  /** One more line read by the loop adds that line's title, if it has one. */
  lemma TitlesStep(lines: seq<string>, s: nat, i: nat)
    requires s <= i < |lines|
    ensures TitlesOf(lines[s..i + 1]) == TitlesOf(lines[s..i]) + LineTitle(lines[i])
  {
    assert lines[s..i + 1][..i - s] == lines[s..i];
  }

  datatype ImportResult = ImportResult(items: seq<string>, category: string)

  /**
   * `parseImportFile(text)`: the header's category (or ""), and the titles of the
   * lines after it, in order.
   */
  method ParseImportFile(text: string) returns (r: ImportResult)
    ensures var lines := Clock.Split(text, '\n');
      var header := HeaderCategory(lines[0]);
      r.category == (if header.Some? then header.value else "")
      && r.items == TitlesOf(if header.Some? then lines[1..] else lines)
      && r.items == TitlesOf(lines)
  {
    var lines := Clock.Split(text, '\n');
    var titles: seq<string> := [];
    var category := "";
    var startIndex := 0;
    var header := HeaderCategory(lines[0]);
    if header.Some? {
      category := header.value;
      startIndex := 1;
    }
    for i := startIndex to |lines|
      invariant titles == TitlesOf(lines[startIndex..i])
    {
      TitlesStep(lines, startIndex, i);
      var trimmed := Trim(lines[i]);
      if StartsWith(trimmed, TitleMarker) {
        var title := Trim(trimmed[|TitleMarker|..]);
        if title != "" {
          titles := titles + [title];
        }
      }
    }
    assert lines[startIndex..|lines|] == lines[startIndex..];
    if header.Some? {
      SkipHeader(lines);
    }
    r := ImportResult(titles, category);
  }

  // ---------------------------------------------------------------------
  // Round trip

  /** A title a file can carry: non-empty, trimmed and on one line. */
  predicate Importable(t: string) {
    t != "" && Trim(t) == t && '\n' !in t
  }

  function TitleLines(titles: seq<string>): (r: seq<string>)
    ensures |r| == |titles|
  {
    seq(|titles|, k requires 0 <= k < |titles| => "#### " + titles[k])
  }

  /** An import file with an optional header and one `#### ` line per title. */
  function ExportFile(category: string, titles: seq<string>): string {
    (if category == "" then "" else HeaderPrefix + " " + category + "\n") + Clock.Join(TitleLines(titles), '\n')
  }

  lemma TitleLineReadsBack(t: string)
    requires Importable(t)
    ensures LineTitle("#### " + t) == [t]
  {
    var line := "#### " + t;
    TrimIdempotent(t);
    TrimOfTrimmed(line);
    assert line[|TitleMarker|..] == " " + t;
    assert (" " + t)[1..] == t;
    TrimOfTrimmed(t);
  }

  lemma {:induction false} TitlesOfTitleLines(titles: seq<string>)
    requires forall k :: 0 <= k < |titles| ==> Importable(titles[k])
    ensures TitlesOf(TitleLines(titles)) == titles
  {
    if titles != [] {
      var init := titles[..|titles| - 1];
      assert TitleLines(titles)[..|titles| - 1] == TitleLines(init);
      TitlesOfTitleLines(init);
      TitleLineReadsBack(titles[|titles| - 1]);
      assert titles == init + [titles[|titles| - 1]];
    }
  }

  lemma HeaderReadsBack(category: string)
    requires category != "" && Trim(category) == category
    requires forall i :: 0 <= i < |category| ==> !IsLineTerminator(category[i])
    ensures HeaderCategory(HeaderPrefix + " " + category) == Some(category)
  {
    var line := HeaderPrefix + " " + category;
    TrimIdempotent(category);
    TrimOfTrimmed(line);
    assert line[..|HeaderPrefix|] == HeaderPrefix;
    assert line[|HeaderPrefix|..] == " " + category;
    assert (" " + category)[1..] == category;
  }

  /** A title line is never read as a header. */
  lemma TitleLineIsNoHeader(t: string)
    requires Importable(t)
    ensures HeaderCategory("#### " + t).None?
  {
    var line := "#### " + t;
    TrimIdempotent(t);
    TrimOfTrimmed(line);
    assert LowerChar(line[0]) == '#';
  }

  /** The title lines of an export split back into themselves (an empty export is one empty line). */
  lemma BodyReadsBack(titles: seq<string>)
    requires forall k :: 0 <= k < |titles| ==> Importable(titles[k])
    ensures var body := TitleLines(titles);
      var blines := if body == [] then [""] else body;
      Clock.Split(Clock.Join(body, '\n'), '\n') == blines && TitlesOf(blines) == titles
  {
    var body := TitleLines(titles);
    TitlesOfTitleLines(titles);
    if body == [] {
      assert TitlesOf([""]) == TitlesOf([]) + LineTitle("");
    } else {
      forall k | 0 <= k < |body| ensures '\n' !in body[k] {
        assert body[k] == "#### " + titles[k];
      }
      Clock.SplitJoin(body, '\n');
    }
  }

  /** The lines of an export with a header: the header, then the title lines. */
  lemma HeaderedExportLines(category: string, titles: seq<string>)
    requires category != "" && Trim(category) == category
    requires forall i :: 0 <= i < |category| ==> !IsLineTerminator(category[i])
    requires forall k :: 0 <= k < |titles| ==> Importable(titles[k])
    ensures var body := TitleLines(titles);
      Clock.Split(ExportFile(category, titles), '\n') == [HeaderPrefix + " " + category] + Clock.Split(Clock.Join(body, '\n'), '\n')
  {
    var head := HeaderPrefix + " " + category;
    var body := TitleLines(titles);
    assert ExportFile(category, titles) == head + ['\n'] + Clock.Join(body, '\n');
    assert '\n' !in head;
    Clock.SplitCons(head, '\n', Clock.Join(body, '\n'));
  }

  /**
   * Importing an exported file gives back its category and its titles, in order,
   * for any one-line category and titles that are trimmed and not empty.
   */
  lemma ImportOfExport(category: string, titles: seq<string>)
    requires Trim(category) == category
    requires forall i :: 0 <= i < |category| ==> !IsLineTerminator(category[i])
    requires forall k :: 0 <= k < |titles| ==> Importable(titles[k])
    ensures var lines := Clock.Split(ExportFile(category, titles), '\n');
      var header := HeaderCategory(lines[0]);
      (if header.Some? then header.value else "") == category
      && TitlesOf(lines) == titles
  {
    var body := TitleLines(titles);
    var blines := if body == [] then [""] else body;
    BodyReadsBack(titles);
    if category == "" {
      assert ExportFile(category, titles) == Clock.Join(body, '\n');
      if body != [] {
        TitleLineIsNoHeader(titles[0]);
      }
    } else {
      var head := HeaderPrefix + " " + category;
      HeaderedExportLines(category, titles);
      HeaderReadsBack(category);
      SkipHeader([head] + blines);
      assert ([head] + blines)[1..] == blines;
    }
  }
}
