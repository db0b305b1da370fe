/**
 * The marketplace's client-side search: a chain of filters (free-text search,
 * condition, price range, location, listing type) followed by a sort on a copy, and
 * the result counters shown above the grid.
 */
module SearchUtils {
  import opened Wrappers
  import Strings
  import opened SearchFilters

  /**
   * The fields of a listing the search reads. `titleEn` and `descriptionEn` are the
   * English texts, empty when missing; `createdAt` is the creation instant in
   * milliseconds; `price` is in cents, and a trade listing has none.
   */
  datatype ListingView = ListingView(
    id: string,
    listingType: string,
    price: Option<int>,
    condition: string,
    locationCity: string,
    createdAt: int,
    titleEn: string,
    descriptionEn: string)

  /** The elements of `xs` satisfying `p`, in order, each as often as it occurs. */
  function Filter<T(!new)>(xs: seq<T>, p: T -> bool): (r: seq<T>)
    ensures forall x :: multiset(r)[x] == if p(x) then multiset(xs)[x] else 0
    ensures |r| <= |xs|
  {
    if xs == [] then []
    else
      assert xs == [xs[0]] + xs[1..];
      if p(xs[0]) then [xs[0]] + Filter(xs[1..], p) else Filter(xs[1..], p)
  }

  /** Filtering a concatenation filters each part, and one element is kept exactly when it passes. */
  lemma {:induction false} FilterAppend<T(!new)>(xs: seq<T>, ys: seq<T>, p: T -> bool)
    ensures Filter(xs + ys, p) == Filter(xs, p) + Filter(ys, p)
    decreases |xs|
  {
    if xs == [] {
      assert xs + ys == ys;
    } else {
      var zs := xs + ys;
      assert zs[0] == xs[0] && zs[1..] == xs[1..] + ys;
      FilterAppend(xs[1..], ys, p);
    }
  }

  /** One element is kept exactly when it passes. */
  lemma FilterSingle<T(!new)>(x: T, p: T -> bool)
    ensures Filter([x], p) == if p(x) then [x] else []
  {
    assert [x][1..] == [];
  }

  /**
   * The free-text test: a blank query keeps everything; otherwise the lower-cased
   * query (not trimmed) must occur in the lower-cased title or description.
   */
  predicate PassesSearch(search: string, l: ListingView) {
    Strings.IsBlank(search)
    || Strings.Contains(Strings.Lower(l.titleEn), Strings.Lower(search))
    || Strings.Contains(Strings.Lower(l.descriptionEn), Strings.Lower(search))
  }

  predicate PassesCondition(f: FilterState, l: ListingView) {
    f.condition == [] || l.condition in f.condition
  }

  /**
   * Applies only to a narrowed range; a listing without a price always passes. The
   * bounds are whole euros and the price is cents.
   */
  predicate PassesPrice(f: FilterState, l: ListingView) {
    !PriceRangeActive(f.priceRange) || l.price.None?
    || (100 * f.priceRange.min <= l.price.value <= 100 * f.priceRange.max)
  }

  predicate PassesLocation(f: FilterState, l: ListingView) {
    f.location == [] || l.locationCity in f.location
  }

  predicate PassesListingType(f: FilterState, l: ListingView) {
    f.listingType == [] || l.listingType in f.listingType
  }

  predicate Passes(search: string, f: FilterState, l: ListingView) {
    PassesSearch(search, l) && PassesCondition(f, l) && PassesPrice(f, l)
    && PassesLocation(f, l) && PassesListingType(f, l)
  }

  /** The orderings offered; `relevance` and unknown keys sort newest first. */
  datatype SortMode = PriceLow | PriceHigh | DateNew | DateOld

  function ModeOf(sortBy: string): (m: SortMode)
    ensures sortBy == "price_low" <==> m == PriceLow
    ensures sortBy == "price_high" <==> m == PriceHigh
    ensures sortBy == "date_old" <==> m == DateOld
  {
    if sortBy == "price_low" then PriceLow
    else if sortBy == "price_high" then PriceHigh
    else if sortBy == "date_old" then DateOld
    else DateNew
  }

  /** The comparator passed to the sort: negative puts `a` first, positive puts `b` first. */
  function Compare(m: SortMode, a: ListingView, b: ListingView): int {
    match m
    case PriceLow =>
      if a.price.None? && b.price.None? then 0
      else if a.price.None? then 1
      else if b.price.None? then -1
      else a.price.value - b.price.value
    case PriceHigh =>
      if a.price.None? && b.price.None? then 0
      else if a.price.None? then 1
      else if b.price.None? then -1
      else b.price.value - a.price.value
    case DateNew => b.createdAt - a.createdAt
    case DateOld => a.createdAt - b.createdAt
  }

  /** A position in an ordering: first by `group`, then by `rank`. */
  datatype SortKey = SortKey(group: int, rank: int)

  predicate KeyLe(a: SortKey, b: SortKey) {
    a.group < b.group || (a.group == b.group && a.rank <= b.rank)
  }

  /** Priced listings form group 0 and unpriced ones group 1, so the latter come last. */
  function Key(m: SortMode, l: ListingView): SortKey {
    match m
    case PriceLow => if l.price.None? then SortKey(1, 0) else SortKey(0, l.price.value)
    case PriceHigh => if l.price.None? then SortKey(1, 0) else SortKey(0, -l.price.value)
    case DateNew => SortKey(0, -l.createdAt)
    case DateOld => SortKey(0, l.createdAt)
  }

  /** The comparator's sign agrees with the order of the keys, in both directions. */
  lemma CompareMatchesKey(m: SortMode, a: ListingView, b: ListingView)
    ensures Compare(m, a, b) <= 0 <==> KeyLe(Key(m, a), Key(m, b))
    ensures Compare(m, a, b) >= 0 <==> KeyLe(Key(m, b), Key(m, a))
  {
  }

  predicate SortedBy(m: SortMode, s: seq<ListingView>) {
    forall i, j :: 0 <= i < j < |s| ==> KeyLe(Key(m, s[i]), Key(m, s[j]))
  }

  /** Places `x` before the first element it does not follow, so equal keys keep their order. */
  function Insert(m: SortMode, x: ListingView, s: seq<ListingView>): (r: seq<ListingView>)
    requires SortedBy(m, s)
    ensures SortedBy(m, r)
    ensures multiset(r) == multiset(s) + multiset{x}
    ensures |r| == |s| + 1
    ensures r[0] == x || (|s| > 0 && r[0] == s[0])
  {
    if s == [] || KeyLe(Key(m, x), Key(m, s[0])) then [x] + s
    else
      var rest := Insert(m, x, s[1..]);
      assert s == [s[0]] + s[1..];
      assert forall j :: 0 <= j < |s[1..]| ==> KeyLe(Key(m, s[0]), Key(m, s[1..][j])) by {
        forall j | 0 <= j < |s[1..]|
          ensures KeyLe(Key(m, s[0]), Key(m, s[1..][j]))
        {
          assert s[1..][j] == s[j + 1];
        }
      }
      LowerBoundKept(m, s[0], x, s[1..], rest);
      ConsSorted(m, s[0], rest);
      [s[0]] + rest
  }

  /** A key below every element of `t` and below `x` stays below every element of a rearrangement of both. */
  lemma LowerBoundKept(m: SortMode, lo: ListingView, x: ListingView, t: seq<ListingView>, r: seq<ListingView>)
    requires multiset(r) == multiset(t) + multiset{x}
    requires KeyLe(Key(m, lo), Key(m, x))
    requires forall j :: 0 <= j < |t| ==> KeyLe(Key(m, lo), Key(m, t[j]))
    ensures forall j :: 0 <= j < |r| ==> KeyLe(Key(m, lo), Key(m, r[j]))
  {
    forall j | 0 <= j < |r|
      ensures KeyLe(Key(m, lo), Key(m, r[j]))
    {
      assert r[j] in multiset(r);
      if r[j] != x {
        assert r[j] in multiset(t);
        var k :| 0 <= k < |t| && t[k] == r[j];
      }
    }
  }

  /** A sorted list stays sorted when an element no greater than all of it is put in front. */
  lemma ConsSorted(m: SortMode, h: ListingView, r: seq<ListingView>)
    requires SortedBy(m, r)
    requires forall j :: 0 <= j < |r| ==> KeyLe(Key(m, h), Key(m, r[j]))
    ensures SortedBy(m, [h] + r)
  {
    var s := [h] + r;
    forall i, j | 0 <= i < j < |s|
      ensures KeyLe(Key(m, s[i]), Key(m, s[j]))
    {
      assert s[j] == r[j - 1];
      if i > 0 {
        assert s[i] == r[i - 1];
      }
    }
  }

  /** A stable insertion sort on the mode's key. */
  function SortListings(s: seq<ListingView>, m: SortMode): (r: seq<ListingView>)
    ensures SortedBy(m, r)
    ensures multiset(r) == multiset(s)
    ensures |r| == |s|
  {
    if s == [] then []
    else
      assert s == [s[0]] + s[1..];
      Insert(m, s[0], SortListings(s[1..], m))
  }

  /** The elements of `s` whose key is `k`, in their order. */
  function WithKey(m: SortMode, k: SortKey, s: seq<ListingView>): (r: seq<ListingView>)
    ensures forall x :: multiset(r)[x] == if Key(m, x) == k then multiset(s)[x] else 0
  {
    if s == [] then []
    else
      assert s == [s[0]] + s[1..];
      (if Key(m, s[0]) == k then [s[0]] else []) + WithKey(m, k, s[1..])
  }

  /** The key-`k` elements of a list with `h` in front. */
  lemma WithKeyCons(m: SortMode, k: SortKey, h: ListingView, t: seq<ListingView>)
    ensures WithKey(m, k, [h] + t) == (if Key(m, h) == k then [h] else []) + WithKey(m, k, t)
  {
    assert ([h] + t)[1..] == t;
  }

  /** The tail of a sorted list is sorted. */
  lemma SortedTail(m: SortMode, s: seq<ListingView>)
    requires SortedBy(m, s) && s != []
    ensures SortedBy(m, s[1..])
  {
    forall i, j | 0 <= i < j < |s[1..]|
      ensures KeyLe(Key(m, s[1..][i]), Key(m, s[1..][j]))
    {
      assert s[1..][i] == s[i + 1] && s[1..][j] == s[j + 1];
    }
  }

  /** Inserting `x` into a sorted list puts it before every element with the same key. */
  lemma {:induction false} InsertWithKey(m: SortMode, k: SortKey, x: ListingView, s: seq<ListingView>)
    requires SortedBy(m, s)
    ensures WithKey(m, k, Insert(m, x, s)) == WithKey(m, k, [x] + s)
    decreases |s|
  {
    if s != [] && !KeyLe(Key(m, x), Key(m, s[0])) {
      var h, t := s[0], s[1..];
      assert s == [h] + t;
      SortedTail(m, s);
      assert Insert(m, x, s) == [h] + Insert(m, x, t);
      InsertWithKey(m, k, x, t);
      WithKeyCons(m, k, h, Insert(m, x, t));
      WithKeyCons(m, k, x, t);
      WithKeyCons(m, k, x, s);
      WithKeyCons(m, k, h, t);
      SwapDistinctKeys(m, k, x, h, WithKey(m, k, t));
    }
  }

  /** Two elements with different keys never both belong to one key's list, so they commute. */
  lemma SwapDistinctKeys(m: SortMode, k: SortKey, x: ListingView, h: ListingView, rest: seq<ListingView>)
    requires !KeyLe(Key(m, x), Key(m, h))
    ensures (if Key(m, h) == k then [h] else []) + ((if Key(m, x) == k then [x] else []) + rest)
         == (if Key(m, x) == k then [x] else []) + ((if Key(m, h) == k then [h] else []) + rest)
  {
  }

  /**
   * The sort is stable: for every key, the listings with that key appear in the result
   * in the order the input holds them.
   */
  lemma {:induction false} SortStable(s: seq<ListingView>, m: SortMode, k: SortKey)
    ensures WithKey(m, k, SortListings(s, m)) == WithKey(m, k, s)
    decreases |s|
  {
    if s != [] {
      var rest := SortListings(s[1..], m);
      InsertWithKey(m, k, s[0], rest);
      SortStable(s[1..], m, k);
      assert ([s[0]] + rest)[1..] == rest;
    }
  }

  /**
   * In both price orderings every unpriced listing comes after every priced one.
   */
  lemma NullPricesLast(s: seq<ListingView>, m: SortMode, i: int, j: int)
    requires m == PriceLow || m == PriceHigh
    requires 0 <= i < j < |SortListings(s, m)|
    requires SortListings(s, m)[i].price.None?
    ensures SortListings(s, m)[j].price.None?
  {
    var r := SortListings(s, m);
    assert KeyLe(Key(m, r[i]), Key(m, r[j]));
  }

  /** `price_low` is ascending over the priced listings, `price_high` descending. */
  lemma PriceOrder(s: seq<ListingView>, i: int, j: int)
    requires 0 <= i < j < |s|
    ensures var r := SortListings(s, PriceLow);
            r[i].price.Some? && r[j].price.Some? ==> r[i].price.value <= r[j].price.value
    ensures var r := SortListings(s, PriceHigh);
            r[i].price.Some? && r[j].price.Some? ==> r[i].price.value >= r[j].price.value
  {
    var lo := SortListings(s, PriceLow);
    var hi := SortListings(s, PriceHigh);
    assert KeyLe(Key(PriceLow, lo[i]), Key(PriceLow, lo[j]));
    assert KeyLe(Key(PriceHigh, hi[i]), Key(PriceHigh, hi[j]));
  }

  /** `date_old` puts the oldest first; every other key puts the newest first. */
  lemma DateOrder(s: seq<ListingView>, sortBy: string, i: int, j: int)
    requires sortBy != "price_low" && sortBy != "price_high"
    requires 0 <= i < j < |s|
    ensures var r := SortListings(s, ModeOf(sortBy));
            if sortBy == "date_old" then r[i].createdAt <= r[j].createdAt
            else r[i].createdAt >= r[j].createdAt
  {
    var r := SortListings(s, ModeOf(sortBy));
    assert KeyLe(Key(ModeOf(sortBy), r[i]), Key(ModeOf(sortBy), r[j]));
  }

  /** One step of the chain: the filter when it is set, the list unchanged otherwise. */
  function FilterIf(xs: seq<ListingView>, active: bool, p: ListingView -> bool): (r: seq<ListingView>)
    ensures forall x :: multiset(r)[x] == if !active || p(x) then multiset(xs)[x] else 0
    ensures |r| <= |xs|
  {
    if active then Filter(xs, p) else xs
  }

  /** The five filters in the order they are applied, before the sort. */
  function FilterChain(listings: seq<ListingView>, search: string, f: FilterState): (r: seq<ListingView>)
    ensures |r| <= |listings|
  {
    var bySearch := FilterIf(listings, !Strings.IsBlank(search), l => PassesSearch(search, l));
    var byCondition := FilterIf(bySearch, |f.condition| > 0, l => PassesCondition(f, l));
    var byPrice := FilterIf(byCondition, PriceRangeActive(f.priceRange), l => PassesPrice(f, l));
    var byLocation := FilterIf(byPrice, |f.location| > 0, l => PassesLocation(f, l));
    FilterIf(byLocation, |f.listingType| > 0, l => PassesListingType(f, l))
  }

  /** Filtering by a test every element passes changes nothing. */
  lemma {:induction false} FilterAll<T(!new)>(xs: seq<T>, p: T -> bool)
    requires forall x :: p(x)
    ensures Filter(xs, p) == xs
    decreases |xs|
  {
    if xs != [] {
      FilterAll(xs[1..], p);
    }
  }

  /** Filtering twice is filtering once by both tests. */
  lemma {:induction false} FilterFuse<T(!new)>(xs: seq<T>, q: T -> bool, p: T -> bool, r: T -> bool)
    requires forall x :: r(x) == (q(x) && p(x))
    ensures Filter(Filter(xs, q), p) == Filter(xs, r)
    decreases |xs|
  {
    if xs != [] {
      FilterFuse(xs[1..], q, p, r);
      if q(xs[0]) {
        assert ([xs[0]] + Filter(xs[1..], q))[1..] == Filter(xs[1..], q);
      }
    }
  }

  /** A chain step after a filter by `q`, where an inactive step's test holds everywhere. */
  lemma FilterIfStep(xs: seq<ListingView>, q: ListingView -> bool, active: bool,
                     p: ListingView -> bool, r: ListingView -> bool)
    requires forall x :: r(x) == (q(x) && p(x))
    requires !active ==> forall x :: p(x)
    ensures FilterIf(Filter(xs, q), active, p) == Filter(xs, r)
  {
    FilterFuse(xs, q, p, r);
    if !active {
      FilterAll(Filter(xs, q), p);
    }
  }

  /** The listings passing every filter, in their order: what the chain should give. */
  function Matching(listings: seq<ListingView>, search: string, f: FilterState): seq<ListingView> {
    Filter(listings, l => Passes(search, f, l))
  }

  /**
   * Each step of the chain is skipped only when its test holds for every listing, so
   * the chain is one filter by all five tests, keeping the input order.
   */
  lemma FilterChainIsFilter(listings: seq<ListingView>, search: string, f: FilterState)
    ensures FilterChain(listings, search, f) == Matching(listings, search, f)
  {
    var any: ListingView -> bool := l => true;
    var r1: ListingView -> bool := l => PassesSearch(search, l);
    var r2: ListingView -> bool := l => PassesSearch(search, l) && PassesCondition(f, l);
    var r3: ListingView -> bool := l => r2(l) && PassesPrice(f, l);
    var r4: ListingView -> bool := l => r3(l) && PassesLocation(f, l);
    var r5: ListingView -> bool := l => Passes(search, f, l);
    FilterAll(listings, any);
    FilterIfStep(listings, any, !Strings.IsBlank(search), r1, r1);
    FilterIfStep(listings, r1, |f.condition| > 0, l => PassesCondition(f, l), r2);
    FilterIfStep(listings, r2, PriceRangeActive(f.priceRange), l => PassesPrice(f, l), r3);
    FilterIfStep(listings, r3, |f.location| > 0, l => PassesLocation(f, l), r4);
    FilterIfStep(listings, r4, |f.listingType| > 0, l => PassesListingType(f, l), r5);
  }

  /**
   * The chain keeps each listing that passes every active filter exactly as often as
   * the input holds it, and drops every other.
   */
  lemma FilterChainKeeps(listings: seq<ListingView>, search: string, f: FilterState)
    ensures forall l :: multiset(FilterChain(listings, search, f))[l]
                     == if Passes(search, f, l) then multiset(listings)[l] else 0
  {
    var bySearch := FilterIf(listings, !Strings.IsBlank(search), l => PassesSearch(search, l));
    var byCondition := FilterIf(bySearch, |f.condition| > 0, l => PassesCondition(f, l));
    var byPrice := FilterIf(byCondition, PriceRangeActive(f.priceRange), l => PassesPrice(f, l));
    var byLocation := FilterIf(byPrice, |f.location| > 0, l => PassesLocation(f, l));
    var byType := FilterIf(byLocation, |f.listingType| > 0, l => PassesListingType(f, l));
    assert FilterChain(listings, search, f) == byType;
    forall l
      ensures multiset(byType)[l] == if Passes(search, f, l) then multiset(listings)[l] else 0
    {
      assert multiset(bySearch)[l] == if PassesSearch(search, l) then multiset(listings)[l] else 0;
      assert multiset(byCondition)[l] == if PassesCondition(f, l) then multiset(bySearch)[l] else 0;
      assert multiset(byPrice)[l] == if PassesPrice(f, l) then multiset(byCondition)[l] else 0;
      assert multiset(byLocation)[l] == if PassesLocation(f, l) then multiset(byPrice)[l] else 0;
      assert multiset(byType)[l] == if PassesListingType(f, l) then multiset(byLocation)[l] else 0;
    }
  }

  /**
   * The search: the filter chain, then the sort chosen by `sortBy`. The result holds
   * each listing that passes every active filter exactly as often as the input does,
   * and no other, in the chosen order.
   */
  function FilterListings(listings: seq<ListingView>, search: string, f: FilterState, sortBy: string)
    : (r: seq<ListingView>)
    ensures forall l :: multiset(r)[l] == if Passes(search, f, l) then multiset(listings)[l] else 0
    ensures SortedBy(ModeOf(sortBy), r)
    ensures forall k :: WithKey(ModeOf(sortBy), k, r) == WithKey(ModeOf(sortBy), k, Matching(listings, search, f))
    ensures |r| <= |listings|
  {
    FilterChainKeeps(listings, search, f);
    FilterChainIsFilter(listings, search, f);
    var r := SortListings(FilterChain(listings, search, f), ModeOf(sortBy));
    forall k
      ensures WithKey(ModeOf(sortBy), k, r) == WithKey(ModeOf(sortBy), k, Matching(listings, search, f))
    {
      SortStable(FilterChain(listings, search, f), ModeOf(sortBy), k);
    }
    r
  }

  /** With a blank query and cleared filters the search only reorders. */
  lemma NoFiltersKeepEverything(listings: seq<ListingView>, search: string, sortBy: string)
    requires Strings.IsBlank(search)
    ensures multiset(FilterListings(listings, search, Cleared(), sortBy)) == multiset(listings)
  {
    var r := FilterListings(listings, search, Cleared(), sortBy);
    forall l
      ensures multiset(r)[l] == multiset(listings)[l]
    {
      assert Passes(search, Cleared(), l);
    }
  }

  datatype SearchStats = SearchStats(total: nat, filtered: nat, hasResults: bool)

  function GetSearchStats(listings: seq<ListingView>, filtered: seq<ListingView>): (st: SearchStats)
    ensures st.total == |listings| && st.filtered == |filtered|
    ensures st.hasResults <==> filtered != []
  {
    SearchStats(|listings|, |filtered|, |filtered| > 0)
  }

  /** For the results of a search, the filtered count never exceeds the total. */
  lemma SearchStatsBounded(listings: seq<ListingView>, search: string, f: FilterState, sortBy: string)
    ensures var st := GetSearchStats(listings, FilterListings(listings, search, f, sortBy));
            st.filtered <= st.total && (st.hasResults ==> st.total > 0)
  {
  }
}
