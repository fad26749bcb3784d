/** The list logic every screen repeats: the case-insensitive search filter
    recomputed from the fetched collection, and `slice`-based pagination with
    page numbers starting at 1. */
module Listing {
  import opened JsString
  import opened Wrappers

  /** `name.toLowerCase().includes(search.toLowerCase())`. */
  predicate MatchesSearch(name: string, search: string) {
    Includes(ToLower(name), ToLower(search))
  }

  /** An empty search matches every name. */
  lemma EmptySearchMatches(name: string)
    ensures MatchesSearch(name, "")
  {
    IncludesEmpty(ToLower(name));
  }

  /** `xs.filter(keep)`: the items that pass, in their original order. */
  function Keep<T>(xs: seq<T>, keep: T -> bool): (r: seq<T>)
    ensures |r| <= |xs|
    ensures forall i :: 0 <= i < |r| ==> r[i] in xs && keep(r[i])
    ensures forall i :: 0 <= i < |xs| && keep(xs[i]) ==> xs[i] in r
  {
    if xs == [] then []
    else (if keep(xs[0]) then [xs[0]] else []) + Keep(xs[1..], keep)
  }

  /** Filtering distributes over concatenation: items of an earlier part of
      the list stay ahead of items of a later part, so relative order is
      preserved. */
  lemma {:induction false} KeepAppend<T>(a: seq<T>, b: seq<T>, keep: T -> bool)
    ensures Keep(a + b, keep) == Keep(a, keep) + Keep(b, keep)
  {
    if a == [] {
      assert a + b == b;
    } else {
      var h := if keep(a[0]) then [a[0]] else [];
      assert (a + b)[0] == a[0];
      assert (a + b)[1..] == a[1..] + b;
      assert Keep(a + b, keep) == h + Keep(a[1..] + b, keep);
      KeepAppend(a[1..], b, keep);
      assert h + (Keep(a[1..], keep) + Keep(b, keep)) == (h + Keep(a[1..], keep)) + Keep(b, keep);
    }
  }

  /** When every item passes, the filter returns the list unchanged. */
  lemma {:induction false} KeepAllPass<T>(xs: seq<T>, keep: T -> bool)
    requires forall i :: 0 <= i < |xs| ==> keep(xs[i])
    ensures Keep(xs, keep) == xs
  {
    if xs != [] {
      KeepAllPass(xs[1..], keep);
    }
  }

  /** When no item passes, the filter returns nothing. */
  lemma {:induction false} KeepNonePass<T>(xs: seq<T>, keep: T -> bool)
    requires forall i :: 0 <= i < |xs| ==> !keep(xs[i])
    ensures Keep(xs, keep) == []
  {
    if xs != [] {
      KeepNonePass(xs[1..], keep);
    }
  }

  /** Filtering twice with the same test is filtering once. */
  lemma KeepIdempotent<T>(xs: seq<T>, keep: T -> bool)
    ensures Keep(Keep(xs, keep), keep) == Keep(xs, keep)
  {
    var r := Keep(xs, keep);
    assert forall i :: 0 <= i < |r| ==> keep(r[i]) by {
      forall i | 0 <= i < |r| ensures keep(r[i]) {
      }
    }
    KeepAllPass(r, keep);
  }

  /** The position of the first item that passes, or the length when none
      does. */
  function FirstIndex<T>(xs: seq<T>, p: T -> bool): (k: nat)
    ensures k <= |xs|
    ensures forall j :: 0 <= j < k ==> !p(xs[j])
    ensures k < |xs| ==> p(xs[k])
  {
    if xs == [] then 0
    else if p(xs[0]) then 0
    else 1 + FirstIndex(xs[1..], p)
  }

  /** `xs.find(p)`: the first item that passes, or nothing. */
  function Find<T>(xs: seq<T>, p: T -> bool): (r: Option<T>)
    ensures r.None? <==> forall i :: 0 <= i < |xs| ==> !p(xs[i])
    ensures r.Some? ==> exists i :: 0 <= i < |xs| && xs[i] == r.value && p(r.value)
                                    && forall j :: 0 <= j < i ==> !p(xs[j])
  {
    var k := FirstIndex(xs, p);
    if k < |xs| then Some(xs[k]) else None
  }

  /** The filter's test on one item. */
  function SearchTest<T>(name: T -> string, search: string): T -> bool {
    x => MatchesSearch(name(x), search)
  }

  /** The screens' search filter over a display field. */
  function Search<T>(xs: seq<T>, name: T -> string, search: string): (r: seq<T>)
    ensures |r| <= |xs|
    ensures forall i :: 0 <= i < |r| ==> r[i] in xs && MatchesSearch(name(r[i]), search)
    ensures forall i :: 0 <= i < |xs| && MatchesSearch(name(xs[i]), search) ==> xs[i] in r
  {
    Keep(xs, SearchTest(name, search))
  }

  /** The filter keeps the fetched order: searching a list made of two
      parts searches each part. */
  lemma SearchAppend<T>(a: seq<T>, b: seq<T>, name: T -> string, search: string)
    ensures Search(a + b, name, search) == Search(a, name, search) + Search(b, name, search)
  {
    KeepAppend(a, b, SearchTest(name, search));
  }

  /** An empty search shows the whole collection, in order. */
  lemma SearchEmptyKeepsAll<T>(xs: seq<T>, name: T -> string)
    ensures Search(xs, name, "") == xs
  {
    forall i | 0 <= i < |xs| ensures MatchesSearch(name(xs[i]), "") {
      EmptySearchMatches(name(xs[i]));
    }
    KeepAllPass(xs, SearchTest(name, ""));
  }

  function Min(a: int, b: int): int {
    if a <= b then a else b
  }

  function Max(a: int, b: int): int {
    if a <= b then b else a
  }

  /** `Array.prototype.slice(start, end)`: negative positions count from the
      end, and both positions are clamped to the list. */
  function Slice<T>(xs: seq<T>, start: int, end: int): (r: seq<T>)
    ensures forall i :: 0 <= i < |r| ==> r[i] in xs
  {
    var n := |xs|;
    var s := if start < 0 then Max(n + start, 0) else Min(start, n);
    var e := if end < 0 then Max(n + end, 0) else Min(end, n);
    if s < e then xs[s..e] else []
  }

  /** The items shown on page `page`:
      `filtered.slice(page * size - size, page * size)`. */
  function PageItems<T>(xs: seq<T>, page: int, size: nat): (r: seq<T>)
    requires size >= 1
    ensures |r| <= size
    ensures forall i :: 0 <= i < |r| ==> r[i] in xs
    ensures 1 <= page ==>
              && 0 <= (page - 1) * size <= page * size
              && r == xs[Min((page - 1) * size, |xs|)..Min(page * size, |xs|)]
  {
    PageWindow(xs, page, size);
    Slice(xs, page * size - size, page * size)
  }

  /** The window of page `page` in terms of `(page - 1) * size`. */
  lemma PageWindow<T>(xs: seq<T>, page: int, size: nat)
    requires size >= 1
    ensures |Slice(xs, page * size - size, page * size)| <= size
    ensures 1 <= page ==>
              && 0 <= (page - 1) * size <= page * size
              && Slice(xs, page * size - size, page * size) == xs[Min((page - 1) * size, |xs|)..Min(page * size, |xs|)]
  {
    var last := page * size;
    SliceWindow(xs, last, size);
    if 1 <= page {
      MulMonotone(1, page, size);
      assert (page - 1) * size == last - size by { Distrib(page - 1, size); }
      MulMonotone(0, page - 1, size);
    }
  }

  /** A window of `size` positions ending at `last`: never longer than
      `size`, and the plain slice once the window starts at or after 0. */
  lemma SliceWindow<T>(xs: seq<T>, last: int, size: nat)
    requires size >= 1
    ensures |Slice(xs, last - size, last)| <= size
    ensures last >= size ==> Slice(xs, last - size, last) == xs[Min(last - size, |xs|)..Min(last, |xs|)]
  {
  }

  /** What a list screen shows: page `page` of the items whose display
      name contains the search text, ignoring case. */
  function Shown<T>(xs: seq<T>, name: T -> string, search: string, page: int, size: nat): (r: seq<T>)
    requires size >= 1
    ensures |r| <= size
    ensures forall i :: 0 <= i < |r| ==> r[i] in xs && MatchesSearch(name(r[i]), search)
  {
    PageItems(Search(xs, name, search), page, size)
  }

  /** `Math.ceil(n / size)`: the fewest pages of `size` items that hold `n`. */
  function PageCount(n: nat, size: nat): (c: nat)
    requires size >= 1
    ensures n <= c * size
    ensures c == 0 || (c - 1) * size < n
  {
    (n + size - 1) / size
  }

  /** The page buttons: 1, 2, ..., PageCount. */
  function PageNumbers(n: nat, size: nat): (r: seq<int>)
    requires size >= 1
    ensures |r| == PageCount(n, size)
    ensures forall i :: 0 <= i < |r| ==> r[i] == i + 1
  {
    seq(PageCount(n, size), i => i + 1)
  }

  /** Item `i` of the filtered list is shown on page `i / size + 1`, at
      position `i % size`, and that page has a button. */
  lemma ItemOnItsPage<T>(xs: seq<T>, size: nat, i: int)
    requires size >= 1 && 0 <= i < |xs|
    ensures 1 <= i / size + 1 <= PageCount(|xs|, size)
    ensures i % size < |PageItems(xs, i / size + 1, size)|
    ensures PageItems(xs, i / size + 1, size)[i % size] == xs[i]
  {
    var p, q := i / size, i % size;
    PageHasButton(|xs|, size, i);
    DivMod(i, size);
    Distrib(p, size);
    var page := p + 1;
    assert page - 1 == p;
    var lo := p * size;
    assert PageItems(xs, page, size) == xs[lo..Min(lo + size, |xs|)];
  }

  lemma PageHasButton(n: nat, size: nat, i: int)
    requires size >= 1 && 0 <= i < n
    ensures i / size + 1 <= PageCount(n, size)
  {
    var p := i / size;
    var c := PageCount(n, size);
    DivMod(i, size);
    if c <= p {
      MulMonotone(c, p, size);
      assert false;
    }
  }

  lemma DivMod(i: nat, size: nat)
    requires size >= 1
    ensures i == (i / size) * size + i % size && 0 <= i % size < size
  {
  }

  lemma Distrib(p: int, size: int)
    ensures (p + 1) * size == p * size + size
  {
  }

  lemma MulMonotone(a: int, b: int, k: nat)
    requires a <= b
    ensures a * k <= b * k
  {
  }

  /** A page past the last button shows nothing. */
  lemma PagePastEndEmpty<T>(xs: seq<T>, size: nat, page: int)
    requires size >= 1 && page > PageCount(|xs|, size)
    ensures PageItems(xs, page, size) == []
  {
    var c := PageCount(|xs|, size);
    MulMonotone(c, page - 1, size);
  }

  /** Pages 1..k laid end to end. */
  function Pages<T>(xs: seq<T>, size: nat, k: nat): seq<T>
    requires size >= 1
  {
    if k == 0 then [] else Pages(xs, size, k - 1) + PageItems(xs, k, size)
  }

  /** A prefix followed by the next slice is the longer prefix. */
  lemma PrefixJoin<T>(xs: seq<T>, a: int, b: int)
    requires 0 <= a <= b <= |xs|
    ensures xs[..a] + xs[a..b] == xs[..b]
  {
    assert forall i :: 0 <= i < b ==> (xs[..a] + xs[a..b])[i] == xs[i];
  }

  /** The first k pages are the first k * size items. */
  lemma {:induction false} PagesPrefix<T>(xs: seq<T>, size: nat, k: nat)
    requires size >= 1
    ensures Pages(xs, size, k) == xs[..Min(k * size, |xs|)]
  {
    if k > 0 {
      PagesPrefix(xs, size, k - 1);
      Distrib(k - 1, size);
      var a, b := Min((k - 1) * size, |xs|), Min(k * size, |xs|);
      assert a <= b;
      assert Pages(xs, size, k) == xs[..a] + xs[a..b];
      PrefixJoin(xs, a, b);
    }
  }

  /** Reading every page in order gives back the whole filtered list: no
      item is skipped or shown twice. */
  lemma PagesCoverList<T>(xs: seq<T>, size: nat)
    requires size >= 1
    ensures Pages(xs, size, PageCount(|xs|, size)) == xs
  {
    PagesPrefix(xs, size, PageCount(|xs|, size));
  }
}
