/**
 * The marketplace filter panel: the filter state it keeps, the toggles that add or
 * remove a condition, location or listing type, the price-range bounds, the reset,
 * and the badge counting the active filters.
 */
module SearchFilters {

  /** Inclusive price bounds, in whole euros. */
  datatype PriceRange = PriceRange(min: int, max: int)

  datatype FilterState = FilterState(
    condition: seq<string>,
    priceRange: PriceRange,
    location: seq<string>,
    listingType: seq<string>)

  datatype Bound = Min | Max

  /** The untouched price range: from 0 to 1000. */
  const DefaultRange := PriceRange(0, 1000)

  /** A price range narrower than the default on either side restricts the results. */
  predicate PriceRangeActive(p: PriceRange) {
    p.min > 0 || p.max < 1000
  }

  /** `list` with every occurrence of `v` taken out, the others kept in order. */
  function Without(list: seq<string>, v: string): (r: seq<string>)
    ensures v !in r
    ensures forall u :: u != v ==> (u in r <==> u in list)
    ensures forall u :: u != v ==> multiset(r)[u] == multiset(list)[u]
    ensures |r| <= |list|
    ensures v !in list ==> r == list
  {
    if list == [] then []
    else if list[0] == v then
      assert list == [list[0]] + list[1..];
      Without(list[1..], v)
    else
      assert list == [list[0]] + list[1..];
      [list[0]] + Without(list[1..], v)
  }

  /** Removal works piece by piece, so the values kept stay in their order. */
  lemma {:induction false} WithoutAppend(a: seq<string>, b: seq<string>, v: string)
    ensures Without(a + b, v) == Without(a, v) + Without(b, v)
  {
    if a == [] {
      assert a + b == b;
    } else {
      assert (a + b)[1..] == a[1..] + b;
      WithoutAppend(a[1..], b, v);
    }
  }

  /** A single value is kept exactly when it differs from the one removed. */
  lemma WithoutSingle(u: string, v: string)
    ensures Without([u], v) == if u == v then [] else [u]
  {
    assert [u][1..] == [];
  }

  /** Checking a box: the value is removed when listed and appended otherwise. */
  function Toggle(list: seq<string>, v: string): (r: seq<string>)
    ensures v in r <==> v !in list
    ensures forall u :: u != v ==> (u in r <==> u in list)
    ensures forall u :: u != v ==> multiset(r)[u] == multiset(list)[u]
    ensures v !in list ==> r == list + [v]
  {
    if v in list then Without(list, v) else list + [v]
  }

  /** Removing `v` from a list that ends with the only `v` gives back the rest. */
  lemma {:induction false} WithoutAppended(list: seq<string>, v: string)
    requires v !in list
    ensures Without(list + [v], v) == list
  {
    if list == [] {
      assert [] + [v] == [v];
      assert [v][1..] == [];
    } else {
      assert (list + [v])[1..] == list[1..] + [v];
      WithoutAppended(list[1..], v);
    }
  }

  /**
   * Toggling the same value twice restores its membership, and when the value was
   * absent it restores the very list.
   */
  lemma ToggleTwice(list: seq<string>, v: string)
    ensures v in Toggle(Toggle(list, v), v) <==> v in list
    ensures v !in list ==> Toggle(Toggle(list, v), v) == list
  {
    if v !in list {
      WithoutAppended(list, v);
    }
  }

  /** The filters with one bound of the price range replaced. */
  function WithPriceBound(f: FilterState, field: Bound, value: int): (r: FilterState)
    ensures r.condition == f.condition && r.location == f.location && r.listingType == f.listingType
    ensures field == Min ==> r.priceRange.min == value && r.priceRange.max == f.priceRange.max
    ensures field == Max ==> r.priceRange.max == value && r.priceRange.min == f.priceRange.min
  {
    match field
    case Min => f.(priceRange := f.priceRange.(min := value))
    case Max => f.(priceRange := f.priceRange.(max := value))
  }

  /**
   * The badge on the filter button: one per checked condition, location and type, and
   * one more when the price range is narrowed.
   */
  function ActiveFiltersCount(f: FilterState): (n: nat)
    ensures n == 0 <==>
              f.condition == [] && f.location == [] && f.listingType == []
              && !PriceRangeActive(f.priceRange)
    ensures n >= |f.condition| + |f.location| + |f.listingType|
    ensures n <= |f.condition| + |f.location| + |f.listingType| + 1
    ensures n == |f.condition| + |f.location| + |f.listingType| + 1 <==> PriceRangeActive(f.priceRange)
  {
    |f.condition| + |f.location| + |f.listingType| + (if PriceRangeActive(f.priceRange) then 1 else 0)
  }

  /** The state after "Clear all": no checked boxes and the default price range. */
  function Cleared(): (f: FilterState)
    ensures ActiveFiltersCount(f) == 0
    ensures f.priceRange == DefaultRange
  {
    FilterState([], DefaultRange, [], [])
  }

  /**
   * The panel's state. Each handler replaces `filters` (or `search`, `sortBy`) and
   * returns the value it passes to the parent's change callback.
   */
  class SearchFiltersPanel {
    var search: string
    var filters: FilterState
    var sortBy: string

    constructor ()
      ensures search == "" && filters == Cleared() && sortBy == "relevance"
    {
      search, filters, sortBy := "", FilterState([], DefaultRange, [], []), "relevance";
    }

    method HandleSearchChange(value: string) returns (notified: string)
      modifies this
      ensures search == value && notified == value
      ensures filters == old(filters) && sortBy == old(sortBy)
    {
      search := value;
      notified := value;
    }

    method HandleConditionChange(c: string) returns (notified: FilterState)
      modifies this
      ensures filters == old(filters).(condition := Toggle(old(filters).condition, c))
      ensures notified == filters && search == old(search) && sortBy == old(sortBy)
    {
      filters := filters.(condition := Toggle(filters.condition, c));
      notified := filters;
    }

    method HandleLocationChange(l: string) returns (notified: FilterState)
      modifies this
      ensures filters == old(filters).(location := Toggle(old(filters).location, l))
      ensures notified == filters && search == old(search) && sortBy == old(sortBy)
    {
      filters := filters.(location := Toggle(filters.location, l));
      notified := filters;
    }

    method HandleListingTypeChange(t: string) returns (notified: FilterState)
      modifies this
      ensures filters == old(filters).(listingType := Toggle(old(filters).listingType, t))
      ensures notified == filters && search == old(search) && sortBy == old(sortBy)
    {
      filters := filters.(listingType := Toggle(filters.listingType, t));
      notified := filters;
    }

    method HandlePriceRangeChange(field: Bound, value: int) returns (notified: FilterState)
      modifies this
      ensures filters == WithPriceBound(old(filters), field, value)
      ensures notified == filters && search == old(search) && sortBy == old(sortBy)
    {
      filters := WithPriceBound(filters, field, value);
      notified := filters;
    }

    method HandleSortChange(value: string) returns (notified: string)
      modifies this
      ensures sortBy == value && notified == value
      ensures filters == old(filters) && search == old(search)
    {
      sortBy := value;
      notified := value;
    }

    method ClearFilters() returns (notified: FilterState)
      modifies this
      ensures filters == Cleared() && notified == filters
      ensures search == old(search) && sortBy == old(sortBy)
    {
      filters := FilterState([], DefaultRange, [], []);
      notified := filters;
    }
  }
}
