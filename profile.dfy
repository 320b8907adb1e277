/** The profile page: the signed-in user's own listings, newest first, and a
    confirmed delete that also drops the listing from the page's list. */
module Profile {
  import opened Common
  import opened Domain
  import opened Backend

  const LoadErrorMessage := "Failed to load profile data"
  const DeletedMessage := "Listing deleted successfully"
  const DeleteErrorMessage := "Failed to delete listing"

  /** `.eq('user_id', user.id).order('created_at', { ascending: false })` */
  function OwnedListings(rows: seq<Listing>, owner: UserId): (r: seq<Listing>)
    ensures NewestFirst(r)
    ensures forall l :: l in r <==> l in rows && l.userId == owner
    ensures forall l :: multiset(r)[l] == if l.userId == owner then multiset(rows)[l] else 0
  {
    SelectNewestFirst(rows, (l: Listing) => l.userId == owner)
  }

  /** No two of the rows were created at the same instant. */
  predicate DatedApart(s: seq<Listing>)
  {
    forall x, y :: x in s && y in s && x.createdAt == y.createdAt ==> x == y
  }

  /** Dropping the deleted listing from the page's list gives what a fresh fetch of the
      owner's listings would show, provided no two rows share a creation time (with ties
      the two may order tied rows differently). */
  lemma LocalRemovalMatchesRefetch(rows: seq<Listing>, owner: UserId, id: nat)
    requires DatedApart(rows)
    ensures WithoutId(OwnedListings(rows, owner), id) == OwnedListings(WithoutId(rows, id), owner)
  {
    var shown := OwnedListings(rows, owner);
    var local := WithoutId(shown, id);
    var refetched := OwnedListings(WithoutId(rows, id), owner);
    SubsequenceNewestFirst(local, shown);
    SameOwnedRows(rows, owner, id);
    assert forall x :: x in local ==> x in rows;
    NewestFirstDetermined(local, refetched);
  }

  /** Removing a listing and selecting the owner's rows commute, counting repeats. */
  lemma SameOwnedRows(rows: seq<Listing>, owner: UserId, id: nat)
    ensures multiset(WithoutId(OwnedListings(rows, owner), id)) == multiset(OwnedListings(WithoutId(rows, id), owner))
  {
    forall l: Listing
      ensures multiset(WithoutId(OwnedListings(rows, owner), id))[l] == multiset(OwnedListings(WithoutId(rows, id), owner))[l]
    {
      SameOwnedCount(rows, owner, id, l);
    }
  }

  lemma SameOwnedCount(rows: seq<Listing>, owner: UserId, id: nat, l: Listing)
    ensures multiset(WithoutId(OwnedListings(rows, owner), id))[l] == multiset(OwnedListings(WithoutId(rows, id), owner))[l]
  {
    var local := WithoutId(OwnedListings(rows, owner), id);
    if l.id == id {
      assert l !in local && l !in WithoutId(rows, id);
    }
  }

  /** A subsequence of a newest-first sequence is newest first. */
  lemma {:induction false} SubsequenceNewestFirst(a: seq<Listing>, b: seq<Listing>)
    requires IsSubsequence(a, b) && NewestFirst(b)
    ensures NewestFirst(a)
    decreases |b|
  {
    if a == [] {
    } else if a[0] == b[0] && IsSubsequence(a[1..], b[1..]) {
      SubsequenceNewestFirst(a[1..], b[1..]);
      if |a| > 1 {
        SubsequenceMember(a[1..], b[1..], 0);
      }
      assert a == [a[0]] + a[1..];
      ConsNewestFirst(a[0], a[1..]);
    } else {
      SubsequenceNewestFirst(a, b[1..]);
    }
  }

  /** Newest-first order leaves no choice when creation times are distinct: two such
      orderings of the same rows are equal. */
  lemma {:induction false} NewestFirstDetermined(a: seq<Listing>, b: seq<Listing>)
    requires NewestFirst(a) && NewestFirst(b) && multiset(a) == multiset(b) && DatedApart(a)
    ensures a == b
    decreases |a|
  {
    assert |a| == |multiset(a)| == |multiset(b)| == |b|;
    if a != [] {
      SameHead(a, b);
      TailFacts(a);
      TailFacts(b);
      NewestFirstDetermined(a[1..], b[1..]);
    }
  }

  /** Two newest-first orderings of the same rows, distinct in creation time, start
      with the same row. */
  lemma SameHead(a: seq<Listing>, b: seq<Listing>)
    requires NewestFirst(a) && NewestFirst(b) && multiset(a) == multiset(b) && DatedApart(a)
    requires a != [] && b != []
    ensures a[0] == b[0]
  {
    assert a[0] in multiset(b) && b[0] in multiset(a);
    var i :| 0 <= i < |b| && b[i] == a[0];
    var j :| 0 <= j < |a| && a[j] == b[0];
    assert b[0].createdAt >= b[i].createdAt;
    assert a[0].createdAt >= a[j].createdAt;
  }

  /** The tail of a non-empty newest-first sequence of distinctly dated rows is one too,
      and holds the rest of its rows. */
  lemma TailFacts(s: seq<Listing>)
    requires NewestFirst(s) && s != []
    ensures s == [s[0]] + s[1..]
    ensures NewestFirst(s[1..])
    ensures DatedApart(s) ==> DatedApart(s[1..])
    ensures multiset(s[1..]) == multiset(s) - multiset{s[0]}
  {
    assert s == [s[0]] + s[1..];
    forall i, j | 0 <= i < j < |s| - 1 ensures s[1..][i].createdAt >= s[1..][j].createdAt {
      assert s[1..][i] == s[i + 1] && s[1..][j] == s[j + 1];
    }
    assert forall x :: x in s[1..] ==> x in s;
  }

  /** The page's state: `user`, `listings` and `loading`. */
  class ProfilePage {
    var user: Option<UserId>
    var listings: seq<Listing>
    var loading: bool

    constructor ()
      ensures user == None && listings == [] && loading
    {
      user, listings, loading := None, [], true;
    }

    /** `fetchData`: record the signed-in user, then load that user's listings. With no
        user, reading `user.id` throws before any query, and the error toast is shown. */
    method FetchData(db: Store, authUser: Option<UserId>, fault: Outcome) returns (toast: Toast)
      modifies this
      ensures user == authUser && !loading
      ensures authUser.Some? && fault.Done? ==>
        listings == OwnedListings(db.rows, authUser.value) && toast == NoToast
      ensures authUser.None? || fault.Failed? ==>
        listings == old(listings) && toast == ErrorToast(LoadErrorMessage)
    {
      user := authUser;
      toast := NoToast;
      if authUser.None? {
        toast := ErrorToast(LoadErrorMessage);
      } else {
        var data: Result<seq<Listing>> :=
          if fault.Done? then Ok(OwnedListings(db.rows, authUser.value)) else Err(fault.message);
        if data.Err? {
          toast := ErrorToast(LoadErrorMessage);
        } else {
          listings := data.value;
        }
      }
      loading := false;
    }

    /** `handleDeleteListing(id)`: after confirmation, delete the row; only when that
        succeeds, drop the listing from the page's list. */
    method HandleDeleteListing(db: Store, id: nat, confirmed: bool, fault: Outcome) returns (toast: Toast)
      requires db.Valid()
      modifies this`listings, db`rows
      ensures db.Valid()
      ensures !confirmed ==> listings == old(listings) && db.rows == old(db.rows) && toast == NoToast
      ensures confirmed && fault.Done? ==>
        listings == WithoutId(old(listings), id) && db.rows == WithoutId(old(db.rows), id) &&
        toast == SuccessToast(DeletedMessage)
      ensures confirmed && fault.Failed? ==>
        listings == old(listings) && db.rows == old(db.rows) && toast == ErrorToast(DeleteErrorMessage)
    {
      if !confirmed {
        return NoToast;
      }
      var error := db.Delete(id, fault);
      if error.Failed? {
        return ErrorToast(DeleteErrorMessage);
      }
      listings := WithoutId(listings, id);
      toast := SuccessToast(DeletedMessage);
    }
  }
}
