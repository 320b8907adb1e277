/** The `listings` table's row type, the newest-first order every query asks for,
    and the user-visible effects of a handler (a toast and a navigation). */
module Domain {
  import opened Common

  type UserId = string

  /** The columns of a `listings` row that the create and edit forms write. */
  datatype Fields = Fields(
    title: string,
    description: string,
    propertyType: string,
    price: nat,
    location: string,
    bedrooms: nat,
    bathrooms: nat,
    area: nat,
    imageUrl: string)

  /** A row of the `listings` table. The store assigns `id` and `createdAt`; `userId` is the owner. */
  datatype Listing = Listing(id: nat, fields: Fields, userId: UserId, createdAt: int)

  /** An insert payload: the form's fields and the owner. */
  datatype Draft = Draft(fields: Fields, userId: UserId)

  // ---------------------------------------------------------------------------
  // .order('created_at', { ascending: false })

  predicate NewestFirst(s: seq<Listing>)
  {
    forall i, j :: 0 <= i < j < |s| ==> s[i].createdAt >= s[j].createdAt
  }

  function InsertByDate(x: Listing, s: seq<Listing>): (r: seq<Listing>)
    requires NewestFirst(s)
    ensures NewestFirst(r)
    ensures forall y :: y in r <==> y == x || y in s
    ensures multiset(r) == multiset(s) + multiset{x}
  {
    if s == [] || x.createdAt >= s[0].createdAt then
      ConsNewestFirst(x, s);
      [x] + s
    else
      var rest := InsertByDate(x, s[1..]);
      assert s == [s[0]] + s[1..];
      ConsNewestFirst(s[0], rest);
      [s[0]] + rest
  }

  /** A row at least as new as every row of a newest-first sequence can go in front of it. */
  lemma ConsNewestFirst(h: Listing, t: seq<Listing>)
    requires NewestFirst(t)
    requires t != [] ==> t[0].createdAt <= h.createdAt
    ensures NewestFirst([h] + t)
  {
    var r := [h] + t;
    forall i, j | 0 <= i < j < |r| ensures r[i].createdAt >= r[j].createdAt {
      assert r[j] == t[j - 1];
      if 0 < i {
        assert r[i] == t[i - 1];
      } else if 1 < j {
        assert t[0].createdAt >= t[j - 1].createdAt;
      }
    }
  }

  /** The rows of `s` ordered by `createdAt`, newest first. */
  function SortNewestFirst(s: seq<Listing>): (r: seq<Listing>)
    ensures NewestFirst(r)
    ensures multiset(r) == multiset(s)
  {
    if s == [] then []
    else
      assert s == [s[0]] + s[1..];
      InsertByDate(s[0], SortNewestFirst(s[1..]))
  }

  /** A `select` with a row predicate and `.order('created_at', { ascending: false })`:
      every row satisfying `p`, as often as it is stored, newest first. */
  function SelectNewestFirst(rows: seq<Listing>, p: Listing -> bool): (r: seq<Listing>)
    ensures NewestFirst(r)
    ensures forall l :: multiset(r)[l] == if p(l) then multiset(rows)[l] else 0
    ensures forall l :: l in r <==> l in rows && p(l)
  {
    var r := SortNewestFirst(Filter(rows, p));
    assert forall l :: l in r <==> l in multiset(r);
    r
  }

  // ---------------------------------------------------------------------------
  // .filter(listing => listing.id !== id), also what `.delete().eq('id', id)` leaves

  function WithoutId(s: seq<Listing>, id: nat): (r: seq<Listing>)
    ensures forall l :: l in r ==> l.id != id
    ensures forall l: Listing :: l.id != id ==> multiset(r)[l] == multiset(s)[l]
    ensures IsSubsequence(r, s)
  {
    Filter(s, (l: Listing) => l.id != id)
  }

  // ---------------------------------------------------------------------------
  // What a handler shows and where it goes

  datatype Toast = NoToast | SuccessToast(text: string) | ErrorToast(text: string)

  datatype Effect = Effect(toast: Toast, navigate: Option<string>)

  const NoEffect := Effect(NoToast, None)

  /** `error.message || fallback`: the error's own message when it has one, otherwise the
      page's fallback, so the toast is empty only when both are. */
  function ErrorText(message: string, fallback: string): (t: string)
    ensures message != "" ==> t == message
    ensures message == "" ==> t == fallback
    ensures t == "" <==> message == "" && fallback == ""
  {
    if message != "" then message else fallback
  }

  const HomeRoute := "/"
  const LoginRoute := "/login"
  const ListingsRoute := "/listings"

  /** `/listings/${id}` */
  function ListingRoute(id: nat): string
  {
    ListingsRoute + "/" + DecimalString(id)
  }
}
