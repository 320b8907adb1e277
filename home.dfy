/** The home page: the six newest listings, narrowed by a search box that matches
    title, description or location regardless of case. */
module Home {
  import opened Common
  import opened Domain

  const FeaturedCount: nat := 6

  /** `.order('created_at', { ascending: false }).limit(6)`: at most six rows, newest
      first, and no row left out is newer than one shown. */
  function Featured(rows: seq<Listing>): (r: seq<Listing>)
    ensures |r| == Min(FeaturedCount, |rows|)
    ensures NewestFirst(r)
    ensures multiset(r) <= multiset(rows)
    ensures forall x, y :: x in r && y in multiset(rows) - multiset(r) ==> y.createdAt <= x.createdAt
  {
    var sorted := SortNewestFirst(rows);
    var k := Min(FeaturedCount, |sorted|);
    PrefixIsNewest(sorted, k);
    LeftOutAreOlder(sorted[..k], sorted[k..], rows);
    sorted[..k]
  }

  /** The first k rows of a newest-first sequence are newest first and at least as new
      as the rest. */
  lemma PrefixIsNewest(sorted: seq<Listing>, k: nat)
    requires NewestFirst(sorted) && k <= |sorted|
    ensures NewestFirst(sorted[..k])
    ensures sorted == sorted[..k] + sorted[k..]
    ensures forall x, y :: x in sorted[..k] && y in sorted[k..] ==> y.createdAt <= x.createdAt
  {
    var r, rest := sorted[..k], sorted[k..];
    assert sorted == r + rest;
    forall x, y | x in r && y in rest ensures y.createdAt <= x.createdAt {
      var i :| 0 <= i < |r| && r[i] == x;
      var j :| 0 <= j < |rest| && rest[j] == y;
      assert sorted[i] == x && sorted[k + j] == y;
    }
  }

  /** Splitting a reordering of `rows` into a shown part and a rest: every row left out
      of the shown part is in the rest. */
  lemma LeftOutAreOlder(r: seq<Listing>, rest: seq<Listing>, rows: seq<Listing>)
    requires multiset(r + rest) == multiset(rows)
    requires forall x, y :: x in r && y in rest ==> y.createdAt <= x.createdAt
    ensures multiset(r) <= multiset(rows)
    ensures forall x, y :: x in r && y in multiset(rows) - multiset(r) ==> y.createdAt <= x.createdAt
  {
    assert multiset(rows) == multiset(r) + multiset(rest);
    assert multiset(rows) - multiset(r) == multiset(rest);
  }

  /** The search predicate of `filteredListings`. */
  predicate MatchesSearch(l: Listing, term: string)
  {
    || ContainsIgnoreCase(l.fields.title, term)
    || ContainsIgnoreCase(l.fields.description, term)
    || ContainsIgnoreCase(l.fields.location, term)
  }

  /** `filteredListings`: the listings the search term matches, in the fetched order. */
  function Search(listings: seq<Listing>, term: string): (r: seq<Listing>)
    ensures forall l :: l in r <==> l in listings && MatchesSearch(l, term)
    ensures forall l :: multiset(r)[l] == if MatchesSearch(l, term) then multiset(listings)[l] else 0
    ensures IsSubsequence(r, listings)
  {
    Filter(listings, (l: Listing) => MatchesSearch(l, term))
  }

  /** An empty search box shows every fetched listing. */
  lemma EmptySearchShowsAll(listings: seq<Listing>)
    ensures Search(listings, "") == listings
  {
    FilterKeepsAll(listings, (l: Listing) => MatchesSearch(l, ""));
  }

  /** The page's state: the fetched `listings`, `loading` and `searchTerm`. */
  datatype HomeState = HomeState(listings: seq<Listing>, loading: bool, searchTerm: string)

  const Initial := HomeState([], true, "")

  /** The mount effect's `fetchListings`: a failed fetch keeps the list it had; either way
      loading ends. */
  function AfterFetch(st: HomeState, rows: seq<Listing>, fault: Outcome): (st': HomeState)
    ensures !st'.loading && st'.searchTerm == st.searchTerm
    ensures fault.Done? ==> st'.listings == Featured(rows)
    ensures fault.Done? ==> |st'.listings| <= FeaturedCount && NewestFirst(st'.listings)
    ensures fault.Failed? ==> st'.listings == st.listings
  {
    var data: Result<seq<Listing>> := if fault.Done? then Ok(Featured(rows)) else Err(fault.message);
    st.(listings := if data.Ok? then data.value else st.listings, loading := false)
  }

  /** The search box's `onChange`. */
  function WithSearchTerm(st: HomeState, term: string): (st': HomeState)
    ensures st'.searchTerm == term && st'.listings == st.listings && st'.loading == st.loading
  {
    st.(searchTerm := term)
  }

  /** The listings rendered once loading has ended. */
  function Shown(st: HomeState): (r: seq<Listing>)
    ensures IsSubsequence(r, st.listings)
  {
    Search(st.listings, st.searchTerm)
  }

  /** When the first fetch fails, the page shows no listings whatever is typed. */
  lemma FailedFetchShowsNothing(rows: seq<Listing>, message: string, term: string)
    ensures Shown(WithSearchTerm(AfterFetch(Initial, rows, Failed(message)), term)) == []
  {
    var st := WithSearchTerm(AfterFetch(Initial, rows, Failed(message)), term);
    assert st.listings == [];
  }
}
