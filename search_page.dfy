/** The search page: the cuisine list offered as filters, the client-side
    cuisine filter and sort applied to the fetched restaurants, and ten
    results per page. */
module SearchPage {
  import opened Common
  import opened Ordering

  /** A restaurant as the page receives it. Prices are pence; `rating` is null until reviewed. */
  datatype Row = Row(
    id: nat, name: string, city: string, country: string, cuisines: string,
    deliveryPrice: int, estimatedTime: string, imagePath: Option<string>, rating: Option<int>)

  const ResultsPerPage := 10
  const CollapsedCuisines := 8

  // ---------------------------------------------------------------------------
  // Available cuisines

  /** The cuisines of one restaurant: its list split at commas, each trimmed. */
  function CuisinesOf(r: Row): seq<string>
  {
    var parts := Split(r.cuisines, ',');
    seq(|parts|, i requires 0 <= i < |parts| => Trim(parts[i]))
  }

  /** `s.flatMap(f)`: the lists `f` gives, one after another. */
  function FlatMap<A, B(!new)>(f: A -> seq<B>, s: seq<A>): (r: seq<B>)
    ensures forall x :: x in r <==> exists i :: 0 <= i < |s| && x in f(s[i])
  {
    if s == [] then []
    else
      var rest := FlatMap(f, s[1..]);
      assert forall i :: 1 <= i < |s| ==> s[i] == s[1..][i - 1];
      f(s[0]) + rest
  }

  /** `[...new Set(s)]`: each value once, at its first occurrence. */
  function Dedupe(s: seq<string>): (r: seq<string>)
    ensures Distinct(r)
    ensures forall c :: c in r <==> c in s
    decreases |s|
  {
    if s == [] then []
    else
      var prefix := Dedupe(s[..|s| - 1]);
      var last := s[|s| - 1];
      assert s == s[..|s| - 1] + [last];
      if last in prefix then prefix else prefix + [last]
  }

  /** The filter choices: every cuisine mentioned, once, in ascending order. */
  function AvailableCuisines(rows: seq<Row>): (r: seq<string>)
    ensures StrictlyAscending(r) && Distinct(r)
    ensures forall c :: c in r <==> exists i :: 0 <= i < |rows| && c in CuisinesOf(rows[i])
  {
    var all := FlatMap(CuisinesOf, rows);
    var r := SortAsc(Dedupe(all));
    SameMembers(all);
    AscendingIsDistinct(r);
    r
  }

  lemma SameMembers(all: seq<string>)
    ensures forall c :: c in SortAsc(Dedupe(all)) <==> c in all
  {
    var d := Dedupe(all);
    var r := SortAsc(d);
    forall c ensures c in r <==> c in all {
      assert c in r <==> c in multiset(r);
      assert c in d <==> c in multiset(d);
    }
  }

  /** The first eight choices unless the list is expanded. */
  function DisplayedCuisines(available: seq<string>, showMore: bool): (r: seq<string>)
    ensures showMore ==> r == available
    ensures |r| <= |available|
    ensures !showMore ==> |r| <= CollapsedCuisines && r == available[..|r|]
    ensures !showMore && |available| >= CollapsedCuisines ==> |r| == CollapsedCuisines
  {
    if showMore || |available| <= CollapsedCuisines then available else available[..CollapsedCuisines]
  }

  // ---------------------------------------------------------------------------
  // Cuisine filter

  /** Some selected cuisine occurs in the restaurant's list, ignoring case. */
  predicate Kept(r: Row, filters: seq<string>)
  {
    exists i :: 0 <= i < |filters| && Contains(Lower(r.cuisines), Lower(filters[i]))
  }

  predicate IsSubsequence<T(==)>(a: seq<T>, b: seq<T>)
    decreases |b|
  {
    a == [] || (b != [] && (if a[0] == b[0] then IsSubsequence(a[1..], b[1..]) else IsSubsequence(a, b[1..])))
  }

  function KeepMatching(rows: seq<Row>, filters: seq<string>): (r: seq<Row>)
    ensures forall x :: x in r <==> x in rows && Kept(x, filters)
    ensures IsSubsequence(r, rows)
    ensures forall x :: x in rows && Kept(x, filters) ==> multiset(r)[x] == multiset(rows)[x]
  {
    if rows == [] then []
    else
      var rest := KeepMatching(rows[1..], filters);
      assert rows == [rows[0]] + rows[1..];
      assert forall x :: x in rows && Kept(x, filters) ==> multiset(rest)[x] == multiset(rows[1..])[x] by {
        forall x | x in rows && Kept(x, filters) ensures multiset(rest)[x] == multiset(rows[1..])[x] {
          if x !in rows[1..] {
            assert x !in rest;
          }
        }
      }
      if Kept(rows[0], filters) then [rows[0]] + rest else rest
  }

  /** No filter keeps everything; otherwise the restaurants matching some filter, in order. */
  function Filter(rows: seq<Row>, filters: seq<string>): (r: seq<Row>)
    ensures filters == [] ==> r == rows
    ensures filters != [] ==> forall x :: x in r <==> x in rows && Kept(x, filters)
    ensures IsSubsequence(r, rows)
  {
    if filters == [] then
      SubsequenceRefl(rows);
      rows
    else KeepMatching(rows, filters)
  }

  lemma {:induction false} SubsequenceRefl<T>(s: seq<T>)
    ensures IsSubsequence(s, s)
    decreases |s|
  {
    if s != [] { SubsequenceRefl(s[1..]); }
  }

  /** `toggleCuisineFilter`: remove every copy of a selected cuisine, or append an unselected one. */
  function Toggle(filters: seq<string>, c: string): (r: seq<string>)
    ensures c in filters ==> c !in r && forall x :: x in r <==> x in filters && x != c
    ensures c !in filters ==> r == filters + [c]
  {
    if c in filters then RemoveAll(filters, c) else filters + [c]
  }

  /** Toggling twice gives back the same set of filters, and the very same
      list when the cuisine was not selected. */
  lemma ToggleTwice(filters: seq<string>, c: string)
    ensures forall x :: x in Toggle(Toggle(filters, c), c) <==> x in filters
    ensures c !in filters ==> Toggle(Toggle(filters, c), c) == filters
  {
    if c !in filters {
      assert c in filters + [c];
      RemoveAppended(filters, c);
    }
  }

  // ---------------------------------------------------------------------------
  // Sorting

  datatype SortOption = BestMatch | ByDeliveryPrice | ByEstimatedTime | ByRating

  /** The digits at the start of `s`, after optional whitespace and sign, as
      `parseInt` reads them; None when there are none. */
  function LeadingInt(s: string): Option<int>
  {
    var t := TrimStart(s);
    if t != [] && (t[0] == '-' || t[0] == '+') then
      match DigitsValue(t[1..], 0, false)
      case None => None
      case Some(v) => Some(if t[0] == '-' then -(v as int) else v as int)
    else
      match DigitsValue(t, 0, false)
      case None => None
      case Some(v) => Some(v as int)
  }

  /** The value of the leading run of decimal digits, accumulated onto `acc`. */
  function DigitsValue(s: string, acc: nat, seen: bool): (r: Option<nat>)
    ensures seen ==> r.Some?
  {
    if s != [] && IsDigit(s[0]) then DigitsValue(s[1..], acc * 10 + (s[0] as int - '0' as int), true)
    else if seen then Some(acc) else None
  }

  /** The first space-separated word, or "0" when it is empty. */
  function FirstWord(s: string): string
  {
    var w := Split(s, ' ')[0];
    if w == "" then "0" else w
  }

  /** The sort key of a row; smaller keys come first. */
  function Key(o: SortOption, r: Row): int
  {
    match o
    case BestMatch => 0
    case ByDeliveryPrice => r.deliveryPrice
    case ByEstimatedTime =>
      var t := LeadingInt(FirstWord(r.estimatedTime));
      if t.Some? then t.value else 0
    case ByRating => -(if r.rating.Some? then r.rating.value else 0)
  }

  /** The key of each row under an option, as a function value for the sort. */
  function KeyOf(o: SortOption): Row -> int
  {
    r => Key(o, r)
  }

  predicate SortedBy<T>(key: T -> int, s: seq<T>)
  {
    forall i, j :: 0 <= i < j < |s| ==> key(s[i]) <= key(s[j])
  }

  /** Insertion of `x` after the last element whose key is not greater. */
  function InsertByKey<T>(key: T -> int, s: seq<T>, x: T): (r: seq<T>)
    ensures |r| == |s| + 1
    decreases |s|
  {
    if s == [] then [x]
    else if key(s[|s| - 1]) <= key(x) then s + [x]
    else InsertByKey(key, s[..|s| - 1], x) + [s[|s| - 1]]
  }

  lemma {:induction false} InsertPermutes<T>(key: T -> int, s: seq<T>, x: T)
    ensures multiset(InsertByKey(key, s, x)) == multiset(s) + multiset{x}
    decreases |s|
  {
    if s != [] && key(s[|s| - 1]) > key(x) {
      InsertPermutes(key, s[..|s| - 1], x);
      assert s == s[..|s| - 1] + [s[|s| - 1]];
    }
  }

  /** Inserting keeps every key under a common bound. */
  lemma {:induction false} InsertBounded<T>(key: T -> int, s: seq<T>, x: T, b: int)
    requires forall k :: 0 <= k < |s| ==> key(s[k]) <= b
    requires key(x) <= b
    ensures forall k :: 0 <= k < |s| + 1 ==> key(InsertByKey(key, s, x)[k]) <= b
    decreases |s|
  {
    if s != [] && key(s[|s| - 1]) > key(x) {
      var init := s[..|s| - 1];
      InsertBounded(key, init, x, b);
      var r := InsertByKey(key, init, x) + [s[|s| - 1]];
      assert r == InsertByKey(key, s, x);
      forall k | 0 <= k < |r| ensures key(r[k]) <= b {
        if k < |r| - 1 {
          assert r[k] == InsertByKey(key, init, x)[k];
        }
      }
    }
  }

  lemma {:induction false} InsertSorted<T>(key: T -> int, s: seq<T>, x: T)
    requires SortedBy(key, s)
    ensures SortedBy(key, InsertByKey(key, s, x))
    decreases |s|
  {
    if s != [] && key(s[|s| - 1]) > key(x) {
      var init := s[..|s| - 1];
      var last := s[|s| - 1];
      var u := InsertByKey(key, init, x);
      InsertSorted(key, init, x);
      InsertBounded(key, init, x, key(last));
      var r := u + [last];
      assert r == InsertByKey(key, s, x);
      forall i, j | 0 <= i < j < |r| ensures key(r[i]) <= key(r[j]) {
        assert r[i] == u[i];
        if j < |u| {
          assert r[j] == u[j];
        }
      }
    }
  }

  /** The stable sort: elements inserted left to right, each after every
      earlier element whose key is not greater, so equal keys keep their order. */
  function StableSort<T>(key: T -> int, s: seq<T>): (r: seq<T>)
    ensures |r| == |s|
    decreases |s|
  {
    if s == [] then [] else InsertByKey(key, StableSort(key, s[..|s| - 1]), s[|s| - 1])
  }

  /** The sort rearranges the elements and nothing more. */
  lemma {:induction false} StableSortPermutes<T>(key: T -> int, s: seq<T>)
    ensures multiset(StableSort(key, s)) == multiset(s)
    decreases |s|
  {
    if s != [] {
      var init := s[..|s| - 1];
      StableSortPermutes(key, init);
      InsertPermutes(key, StableSort(key, init), s[|s| - 1]);
      assert s == init + [s[|s| - 1]];
    }
  }

  /** The sort leaves the elements in key order. */
  lemma {:induction false} StableSortSorted<T>(key: T -> int, s: seq<T>)
    ensures SortedBy(key, StableSort(key, s))
    decreases |s|
  {
    if s != [] {
      var init := s[..|s| - 1];
      StableSortSorted(key, init);
      InsertSorted(key, StableSort(key, init), s[|s| - 1]);
    }
  }

  /** Elements already in key order are left as they are. */
  lemma {:induction false} SortedUnchanged<T>(key: T -> int, s: seq<T>)
    requires SortedBy(key, s)
    ensures StableSort(key, s) == s
    decreases |s|
  {
    if s != [] {
      var init := s[..|s| - 1];
      SortedUnchanged(key, init);
      assert s == init + [s[|s| - 1]];
    }
  }

  /** Inserting before a run of greater keys that follows a key not greater
      (or the start) puts the element exactly there. */
  lemma {:induction false} InsertAt<T>(key: T -> int, p: seq<T>, x: T, j: nat)
    requires j <= |p|
    requires j == 0 || key(p[j - 1]) <= key(x)
    requires forall k :: j <= k < |p| ==> key(p[k]) > key(x)
    ensures InsertByKey(key, p, x) == p[..j] + [x] + p[j..]
    decreases |p|
  {
    if j < |p| {
      var init := p[..|p| - 1];
      InsertAt(key, init, x, j);
      assert init[..j] == p[..j] && init[j..] + [p[|p| - 1]] == p[j..];
    } else {
      assert p[..j] == p;
    }
  }

  /** One step of the sort: `a[i]` moves left past the greater keys before it,
      to position `j`. */
  method InsertInto<T>(a: array<T>, i: nat, key: T -> int) returns (j: nat)
    requires i < a.Length
    modifies a
    ensures j <= i
    ensures j == 0 || key(old(a[..i])[j - 1]) <= key(old(a[i]))
    ensures forall k :: j <= k < i ==> key(old(a[..i])[k]) > key(old(a[i]))
    ensures a[..i + 1] == old(a[..i])[..j] + [old(a[i])] + old(a[..i])[j..]
    ensures a[i + 1..] == old(a[i + 1..])
  {
    var x := a[i];
    j := i;
    while j > 0 && key(a[j - 1]) > key(x)
      invariant j <= i
      invariant forall k :: 0 <= k < j ==> a[k] == old(a[k])
      invariant forall k :: j < k <= i ==> a[k] == old(a[k - 1])
      invariant forall k :: j <= k < i ==> key(old(a[k])) > key(x)
      invariant forall k :: i < k < a.Length ==> a[k] == old(a[k])
    {
      a[j] := a[j - 1];
      j := j - 1;
    }
    a[j] := x;
    assert a[..i + 1] == old(a[..i])[..j] + [x] + old(a[..i])[j..];
    assert a[i + 1..] == old(a[i + 1..]);
  }

  /** The array after one insertion step holds the sort of one more element. */
  lemma SortStep<T>(key: T -> int, s: seq<T>, i: nat, p: seq<T>, j: nat, q: seq<T>)
    requires i < |s| && p == StableSort(key, s[..i]) && j <= i
    requires j == 0 || key(p[j - 1]) <= key(s[i])
    requires forall k :: j <= k < i ==> key(p[k]) > key(s[i])
    requires q == p[..j] + [s[i]] + p[j..]
    ensures q == StableSort(key, s[..i + 1])
  {
    InsertAt(key, p, s[i], j);
    assert s[..i + 1][..i] == s[..i];
  }

  /** `results.sort(...)` on the page's copy of the rows, in place. */
  method SortRows<T>(a: array<T>, key: T -> int)
    modifies a
    ensures a[..] == StableSort(key, old(a[..]))
  {
    ghost var s := a[..];
    var i := 0;
    while i < a.Length
      invariant 0 <= i <= a.Length
      invariant a[..i] == StableSort(key, s[..i])
      invariant a[i..] == s[i..]
    {
      ghost var p := a[..i];
      assert a[i] == s[i];
      var j := InsertInto(a, i, key);
      SortStep(key, s, i, p, j, a[..i + 1]);
      i := i + 1;
    }
    assert s[..a.Length] == s;
  }

  /** The filter-and-sort effect on a fresh copy of the fetched rows. */
  method FilterAndSort(rows: seq<Row>, filters: seq<string>, o: SortOption) returns (results: seq<Row>)
    ensures results == Refined(rows, filters, o)
    ensures multiset(results) == multiset(Filter(rows, filters))
    ensures SortedBy(KeyOf(o), results)
  {
    var kept := Filter(rows, filters);
    if o == BestMatch {
      SortedUnchanged(KeyOf(o), kept);
      return kept;
    }
    var a := new Row[|kept|](i requires 0 <= i < |kept| => kept[i]);
    assert a[..] == kept;
    SortRows(a, KeyOf(o));
    results := a[..];
    StableSortPermutes(KeyOf(o), kept);
    StableSortSorted(KeyOf(o), kept);
  }

  /** The filtered rows in display order; best match keeps the fetched order. */
  function Refined(rows: seq<Row>, filters: seq<string>, o: SortOption): (r: seq<Row>)
  {
    if o == BestMatch then Filter(rows, filters) else StableSort(KeyOf(o), Filter(rows, filters))
  }

  /** Best match is already a (trivial) key order, so sorting would change nothing. */
  lemma BestMatchIsFilterOrder(rows: seq<Row>, filters: seq<string>)
    ensures Refined(rows, filters, BestMatch) == StableSort(KeyOf(BestMatch), Filter(rows, filters))
  {
    SortedUnchanged(KeyOf(BestMatch), Filter(rows, filters));
  }

  // ---------------------------------------------------------------------------
  // Pages

  /** `Math.ceil(n / 10)`. */
  function TotalPages(n: nat): (t: nat)
    ensures t * ResultsPerPage >= n
    ensures n > 0 ==> (t - 1) * ResultsPerPage < n
  {
    (n + ResultsPerPage - 1) / ResultsPerPage
  }

  /** `slice((p - 1) * 10, p * 10)` for a page number p >= 1. */
  function PageSlice<T>(s: seq<T>, p: nat): (r: seq<T>)
    requires p >= 1
    ensures |r| <= ResultsPerPage
    ensures (p - 1) * ResultsPerPage <= |s| ==> r == s[(p - 1) * ResultsPerPage..if p * ResultsPerPage <= |s| then p * ResultsPerPage else |s|]
    ensures (p - 1) * ResultsPerPage > |s| ==> r == []
  {
    var lo := (p - 1) * ResultsPerPage;
    var hi := p * ResultsPerPage;
    if lo >= |s| then [] else if hi <= |s| then s[lo..hi] else s[lo..]
  }

  /** Pages `p` through `last`, one after another. */
  function PagesFrom<T>(s: seq<T>, p: nat, last: nat): seq<T>
    requires p >= 1
    decreases last + 1 - p
  {
    if p > last then [] else PageSlice(s, p) + PagesFrom(s, p + 1, last)
  }

  lemma {:induction false} PagesFromSuffix<T>(s: seq<T>, p: nat, last: nat)
    requires p >= 1 && (p - 1) * ResultsPerPage <= |s| && last * ResultsPerPage >= |s|
    requires p <= last + 1
    requires p == last + 1 ==> (p - 1) * ResultsPerPage == |s|
    requires last > 0 ==> (last - 1) * ResultsPerPage < |s|
    ensures PagesFrom(s, p, last) == s[(p - 1) * ResultsPerPage..]
    decreases last + 1 - p
  {
    if p <= last {
      if p * ResultsPerPage <= |s| {
        PagesFromSuffix(s, p + 1, last);
        assert s[(p - 1) * ResultsPerPage..] == s[(p - 1) * ResultsPerPage..p * ResultsPerPage] + s[p * ResultsPerPage..];
      } else {
        assert (last - 1) * ResultsPerPage < p * ResultsPerPage;
      }
    }
  }

  /** The pages 1 .. TotalPages, laid end to end, are exactly the results. */
  lemma PagesPartition<T>(s: seq<T>)
    ensures PagesFrom(s, 1, TotalPages(|s|)) == s
  {
    PagesFromSuffix(s, 1, TotalPages(|s|));
  }

  // ---------------------------------------------------------------------------
  // The page state

  class SearchState {
    var restaurants: seq<Row>
    var cuisineFilters: seq<string>
    var availableCuisines: seq<string>
    var showMoreCuisines: bool
    var sortOption: SortOption
    var filtered: seq<Row>
    var currentPage: nat
    var totalPages: nat

    /** The displayed list follows the fetched rows, the filters and the sort;
        the page count follows the displayed list; the current page is a
        page that exists (page 1 when there is none). */
    ghost predicate Valid()
      reads this
    {
      && filtered == Refined(restaurants, cuisineFilters, sortOption)
      && totalPages == TotalPages(|filtered|)
      && 1 <= currentPage && (totalPages >= 1 ==> currentPage <= totalPages)
    }

    /** The page once its first effects have run on an empty result. */
    constructor ()
      ensures Valid()
      ensures restaurants == [] && cuisineFilters == [] && sortOption == BestMatch && currentPage == 1
      ensures !showMoreCuisines && availableCuisines == []
    {
      restaurants, cuisineFilters, availableCuisines := [], [], [];
      showMoreCuisines := false;
      sortOption := BestMatch;
      filtered := [];
      currentPage, totalPages := 1, 0;
    }

    /** The filter-and-sort effect: recompute the list and the page count,
        back to page 1. */
    method Refresh()
      modifies this
      ensures Valid()
      ensures filtered == Refined(restaurants, cuisineFilters, sortOption) && currentPage == 1
      ensures restaurants == old(restaurants) && cuisineFilters == old(cuisineFilters)
      ensures sortOption == old(sortOption) && availableCuisines == old(availableCuisines)
      ensures showMoreCuisines == old(showMoreCuisines)
    {
      var results := FilterAndSort(restaurants, cuisineFilters, sortOption);
      filtered := results;
      totalPages := TotalPages(|results|);
      currentPage := 1;
    }

    /** A successful fetch: the rows, the cuisines they offer, and the effect. */
    method Loaded(data: seq<Row>)
      modifies this
      ensures Valid()
      ensures restaurants == data && availableCuisines == AvailableCuisines(data)
      ensures filtered == Refined(data, cuisineFilters, sortOption) && currentPage == 1
      ensures cuisineFilters == old(cuisineFilters) && sortOption == old(sortOption)
      ensures showMoreCuisines == old(showMoreCuisines)
    {
      restaurants := data;
      availableCuisines := AvailableCuisines(data);
      Refresh();
    }

    method ToggleCuisineFilter(c: string)
      modifies this
      ensures Valid()
      ensures cuisineFilters == Toggle(old(cuisineFilters), c) && currentPage == 1
      ensures restaurants == old(restaurants) && sortOption == old(sortOption)
      ensures availableCuisines == old(availableCuisines) && showMoreCuisines == old(showMoreCuisines)
    {
      cuisineFilters := Toggle(cuisineFilters, c);
      Refresh();
    }

    /** Choosing the selected option again changes no state, so the effect does not run. */
    method SetSortOption(o: SortOption)
      requires Valid()
      modifies this
      ensures Valid()
      ensures sortOption == o
      ensures o == old(sortOption) ==> currentPage == old(currentPage) && filtered == old(filtered)
      ensures o != old(sortOption) ==> currentPage == 1
      ensures restaurants == old(restaurants) && cuisineFilters == old(cuisineFilters)
      ensures availableCuisines == old(availableCuisines) && showMoreCuisines == old(showMoreCuisines)
    {
      if o != sortOption {
        sortOption := o;
        Refresh();
      }
    }

    /** `resetFilters`: no filters, best match; the new filter list re-runs the effect. */
    method ResetFilters()
      modifies this
      ensures Valid()
      ensures cuisineFilters == [] && sortOption == BestMatch && currentPage == 1
      ensures filtered == restaurants
      ensures restaurants == old(restaurants) && availableCuisines == old(availableCuisines)
      ensures showMoreCuisines == old(showMoreCuisines)
    {
      cuisineFilters := [];
      sortOption := BestMatch;
      Refresh();
    }

    method Previous()
      requires Valid()
      modifies this
      ensures Valid()
      ensures currentPage == if old(currentPage) > 1 then old(currentPage) - 1 else old(currentPage)
      ensures filtered == old(filtered) && totalPages == old(totalPages) && restaurants == old(restaurants)
      ensures cuisineFilters == old(cuisineFilters) && sortOption == old(sortOption)
      ensures availableCuisines == old(availableCuisines) && showMoreCuisines == old(showMoreCuisines)
    {
      if currentPage > 1 {
        currentPage := currentPage - 1;
      }
    }

    method Next()
      requires Valid()
      modifies this
      ensures Valid()
      ensures currentPage == if old(currentPage) < old(totalPages) then old(currentPage) + 1 else old(currentPage)
      ensures filtered == old(filtered) && totalPages == old(totalPages) && restaurants == old(restaurants)
      ensures cuisineFilters == old(cuisineFilters) && sortOption == old(sortOption)
      ensures availableCuisines == old(availableCuisines) && showMoreCuisines == old(showMoreCuisines)
    {
      if currentPage < totalPages {
        currentPage := currentPage + 1;
      }
    }

    /** A numbered page link; the links run from 1 to the page count. */
    method GoTo(page: nat)
      requires Valid() && 1 <= page <= totalPages
      modifies this
      ensures Valid() && currentPage == page
      ensures filtered == old(filtered) && totalPages == old(totalPages) && restaurants == old(restaurants)
      ensures cuisineFilters == old(cuisineFilters) && sortOption == old(sortOption)
      ensures availableCuisines == old(availableCuisines) && showMoreCuisines == old(showMoreCuisines)
    {
      currentPage := page;
    }

    method ToggleShowMore()
      modifies this
      ensures showMoreCuisines == !old(showMoreCuisines)
      ensures restaurants == old(restaurants) && cuisineFilters == old(cuisineFilters)
      ensures availableCuisines == old(availableCuisines) && sortOption == old(sortOption)
      ensures filtered == old(filtered) && currentPage == old(currentPage) && totalPages == old(totalPages)
    {
      showMoreCuisines := !showMoreCuisines;
    }

    /** The rows shown: the current page of the displayed list. */
    function CurrentRestaurants(): (r: seq<Row>)
      reads this
      requires Valid()
      ensures r == PageSlice(filtered, currentPage)
      ensures |r| <= ResultsPerPage
      ensures forall x :: x in r ==> x in filtered
    {
      PageSlice(filtered, currentPage)
    }
  }
}
