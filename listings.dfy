/** The "All Listings" page: four filter inputs that become query clauses, a
    newest-first query, and client-side pagination of nine listings per page. */
module Listings {
  import opened Common
  import opened Domain
  import opened Backend

  const ItemsPerPage: nat := 9

  /** The filter inputs. An empty text input is `""`; an empty price input is `None`. */
  datatype Filters = Filters(propertyType: string, minPrice: Option<int>, maxPrice: Option<int>, location: string)

  const NoFilters := Filters("", None, None, "")

  /** One change event from a filter input: the input's name and its new value. */
  datatype FilterChange =
    | TypeChanged(propertyType: string)
    | MinPriceChanged(minPrice: Option<int>)
    | MaxPriceChanged(maxPrice: Option<int>)
    | LocationChanged(location: string)

  /** `setFilters(prev => ({ ...prev, [name]: value }))`: the named field takes the new
      value and the other three keep theirs. */
  function WithChange(f: Filters, c: FilterChange): (g: Filters)
    ensures g.propertyType == (if c.TypeChanged? then c.propertyType else f.propertyType)
    ensures g.minPrice == (if c.MinPriceChanged? then c.minPrice else f.minPrice)
    ensures g.maxPrice == (if c.MaxPriceChanged? then c.maxPrice else f.maxPrice)
    ensures g.location == (if c.LocationChanged? then c.location else f.location)
  {
    match c
    case TypeChanged(t) => f.(propertyType := t)
    case MinPriceChanged(p) => f.(minPrice := p)
    case MaxPriceChanged(p) => f.(maxPrice := p)
    case LocationChanged(l) => f.(location := l)
  }

  // ---------------------------------------------------------------------------
  // The query

  /** A query-builder call: `.eq('type', t)`, `.gte('price', p)`, `.lte('price', p)`,
      `.ilike('location', '%t%')`. */
  datatype Clause = TypeIs(t: string) | PriceAtLeast(p: int) | PriceAtMost(p: int) | LocationLike(text: string)

  predicate Satisfies(l: Listing, c: Clause)
  {
    match c
    case TypeIs(t) => l.fields.propertyType == t
    case PriceAtLeast(p) => p <= l.fields.price
    case PriceAtMost(p) => l.fields.price <= p
    case LocationLike(t) => ContainsIgnoreCase(l.fields.location, t)
  }

  predicate SatisfiesAll(l: Listing, cs: seq<Clause>)
  {
    forall i :: 0 <= i < |cs| ==> Satisfies(l, cs[i])
  }

  /** What a listing must satisfy to be shown for filter `f`: the exact type, the price
      within the inclusive bounds, the location containing the text in any case; an
      empty input constrains nothing. */
  predicate Matches(f: Filters, l: Listing)
  {
    && (f.propertyType != "" ==> l.fields.propertyType == f.propertyType)
    && (f.minPrice.Some? ==> f.minPrice.value <= l.fields.price)
    && (f.maxPrice.Some? ==> l.fields.price <= f.maxPrice.value)
    && (f.location != "" ==> ContainsIgnoreCase(l.fields.location, f.location))
  }

  /** The clauses `fetchListings` adds to the query, one per non-empty filter input. */
  function Clauses(f: Filters): (cs: seq<Clause>)
    ensures TypeIs(f.propertyType) in cs <==> f.propertyType != ""
    ensures (f.minPrice.Some? && PriceAtLeast(f.minPrice.value) in cs) <==> f.minPrice.Some?
    ensures (f.maxPrice.Some? && PriceAtMost(f.maxPrice.value) in cs) <==> f.maxPrice.Some?
    ensures LocationLike(f.location) in cs <==> f.location != ""
    ensures forall c :: c in cs ==>
      c == TypeIs(f.propertyType) || c == LocationLike(f.location) ||
      (f.minPrice.Some? && c == PriceAtLeast(f.minPrice.value)) ||
      (f.maxPrice.Some? && c == PriceAtMost(f.maxPrice.value))
    ensures forall l :: SatisfiesAll(l, cs) <==> Matches(f, l)
  {
    var c1 := if f.propertyType != "" then [TypeIs(f.propertyType)] else [];
    var c2 := if f.minPrice.Some? then [PriceAtLeast(f.minPrice.value)] else [];
    var c3 := if f.maxPrice.Some? then [PriceAtMost(f.maxPrice.value)] else [];
    var c4 := if f.location != "" then [LocationLike(f.location)] else [];
    var cs := c1 + c2 + c3 + c4;
    assert forall l :: SatisfiesAll(l, cs) <==> Matches(f, l) by {
      forall l ensures SatisfiesAll(l, cs) <==> Matches(f, l) {
        SatisfiesAllConcat(l, c1 + c2 + c3, c4);
        SatisfiesAllConcat(l, c1 + c2, c3);
        SatisfiesAllConcat(l, c1, c2);
        SatisfiesOne(l, c1);
        SatisfiesOne(l, c2);
        SatisfiesOne(l, c3);
        SatisfiesOne(l, c4);
      }
    }
    cs
  }

  lemma SatisfiesAllConcat(l: Listing, a: seq<Clause>, b: seq<Clause>)
    ensures SatisfiesAll(l, a + b) <==> SatisfiesAll(l, a) && SatisfiesAll(l, b)
  {
    if SatisfiesAll(l, a) && SatisfiesAll(l, b) {
      forall i | 0 <= i < |a + b| ensures Satisfies(l, (a + b)[i]) {
        if i >= |a| { assert (a + b)[i] == b[i - |a|]; }
      }
    }
    if SatisfiesAll(l, a + b) {
      forall i | 0 <= i < |a| ensures Satisfies(l, a[i]) {
        assert (a + b)[i] == a[i];
      }
      forall i | 0 <= i < |b| ensures Satisfies(l, b[i]) {
        assert (a + b)[|a| + i] == b[i];
      }
    }
  }

  lemma SatisfiesOne(l: Listing, cs: seq<Clause>)
    requires |cs| <= 1
    ensures SatisfiesAll(l, cs) <==> (cs == [] || Satisfies(l, cs[0]))
  {
  }

  /** The rows the page's query returns for filter `f`: exactly the matching rows, each
      as often as it is stored, newest first. */
  function Query(rows: seq<Listing>, f: Filters): (r: seq<Listing>)
    ensures NewestFirst(r)
    ensures forall l :: l in r <==> l in rows && Matches(f, l)
    ensures forall l :: multiset(r)[l] == if Matches(f, l) then multiset(rows)[l] else 0
    ensures f == NoFilters ==> multiset(r) == multiset(rows)
  {
    var r := SelectNewestFirst(rows, (l: Listing) => SatisfiesAll(l, Clauses(f)));
    QueryCounts(rows, f, r);
    r
  }

  lemma QueryCounts(rows: seq<Listing>, f: Filters, r: seq<Listing>)
    requires r == SelectNewestFirst(rows, (l: Listing) => SatisfiesAll(l, Clauses(f)))
    ensures forall l :: multiset(r)[l] == if Matches(f, l) then multiset(rows)[l] else 0
    ensures forall l :: l in r <==> l in rows && Matches(f, l)
  {
    forall l ensures multiset(r)[l] == if Matches(f, l) then multiset(rows)[l] else 0 {
      assert SatisfiesAll(l, Clauses(f)) == Matches(f, l);
    }
  }

  // ---------------------------------------------------------------------------
  // Pagination

  /** `Math.ceil(n / itemsPerPage)` */
  function TotalPages(n: nat): (t: nat)
    ensures n <= t * ItemsPerPage
    ensures t > 0 ==> (t - 1) * ItemsPerPage < n
  {
    (n + ItemsPerPage - 1) / ItemsPerPage
  }

  /** `listings.slice((page - 1) * itemsPerPage, page * itemsPerPage)` */
  function PageOf<T>(s: seq<T>, page: int): (r: seq<T>)
    requires page >= 1
    ensures |r| == Max(0, Min(ItemsPerPage, |s| - (page - 1) * ItemsPerPage))
    ensures forall i :: 0 <= i < |r| ==> r[i] == s[(page - 1) * ItemsPerPage + i]
  {
    s[Min((page - 1) * ItemsPerPage, |s|)..Min(page * ItemsPerPage, |s|)]
  }

  /** Pages 1 to k, one after the other. */
  function FirstPages<T>(s: seq<T>, k: nat): seq<T>
  {
    if k == 0 then [] else FirstPages(s, k - 1) + PageOf(s, k)
  }

  lemma {:induction false} FirstPagesArePrefix<T>(s: seq<T>, k: nat)
    ensures FirstPages(s, k) == s[..Min(k * ItemsPerPage, |s|)]
  {
    if k > 0 {
      FirstPagesArePrefix(s, k - 1);
      var lo, hi := Min((k - 1) * ItemsPerPage, |s|), Min(k * ItemsPerPage, |s|);
      assert PageOf(s, k) == s[lo..hi];
      assert s[..lo] + s[lo..hi] == s[..hi];
    }
  }

  /** Pages 1 to `TotalPages` put back together are the whole list, in order. */
  lemma PagesCoverList<T>(s: seq<T>)
    ensures FirstPages(s, TotalPages(|s|)) == s
  {
    FirstPagesArePrefix(s, TotalPages(|s|));
  }

  /** The Previous button: shown when there is more than one page, disabled on page 1,
      and `setPage(p => Math.max(1, p - 1))` when clicked. */
  function PreviousPage(page: int, total: nat): (q: int)
    ensures 1 <= page ==> q == page || q == page - 1
    ensures 1 <= page ==> 1 <= q
    ensures 1 <= page <= total ==> q <= total
    ensures total > 1 && page > 1 ==> q < page
  {
    if total > 1 && page != 1 then Max(1, page - 1) else page
  }

  /** The Next button: shown when there is more than one page, disabled on the last
      page, and `setPage(p => Math.min(totalPages, p + 1))` when clicked. */
  function NextPage(page: int, total: nat): (q: int)
    ensures 1 <= page <= total ==> 1 <= q <= total
    ensures page <= total ==> q == page || q == page + 1
    ensures total > 1 && page < total ==> q == page + 1
    ensures page == total ==> q == page
  {
    if total > 1 && page != total then Min(total, page + 1) else page
  }

  /** The page's state: `listings`, `loading`, `filters` and `page`. */
  class ListingsPage {
    var listings: seq<Listing>
    var loading: bool
    var filters: Filters
    var page: int

    ghost predicate Valid()
      reads this
    {
      page >= 1
    }

    constructor ()
      ensures Valid()
      ensures listings == [] && loading && filters == NoFilters && page == 1
    {
      listings, loading, filters, page := [], true, NoFilters, 1;
    }

    function PageCount(): nat
      reads this
    {
      TotalPages(|listings|)
    }

    /** The listings rendered on the current page. */
    function PaginatedListings(): (r: seq<Listing>)
      reads this
      requires Valid()
      ensures |r| <= ItemsPerPage
      ensures forall l :: l in r ==> l in listings
      ensures page <= PageCount() ==> r != []
    {
      PageOf(listings, page)
    }

    /** `fetchListings`: run the filtered query; on success show its rows, on failure keep
        what was shown; either way loading ends. */
    method FetchListings(db: Store, fault: Outcome)
      modifies this`listings, this`loading
      ensures !loading
      ensures listings == if fault.Done? then Query(db.rows, filters) else old(listings)
    {
      var data: Result<seq<Listing>> := if fault.Done? then Ok(Query(db.rows, filters)) else Err(fault.message);
      if data.Ok? {
        listings := data.value;
      }
      loading := false;
    }

    /** `handleFilterChange` */
    method HandleFilterChange(c: FilterChange)
      modifies this`filters, this`page
      ensures Valid()
      ensures filters == WithChange(old(filters), c) && page == 1
    {
      filters := WithChange(filters, c);
      page := 1;
    }

    method Previous()
      requires Valid()
      modifies this`page
      ensures Valid()
      ensures page == PreviousPage(old(page), PageCount())
    {
      page := PreviousPage(page, PageCount());
    }

    method Next()
      requires Valid()
      modifies this`page
      ensures Valid()
      ensures page == NextPage(old(page), PageCount())
    {
      page := NextPage(page, PageCount());
    }
  }
}
