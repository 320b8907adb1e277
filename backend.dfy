/** The hosted backend the pages talk to, reduced to what they observe: the
    `listings` table as a sequence of rows, the `listing-images` bucket as a set of
    object names, and the store-assigned id and timestamp. Whether a remote call
    fails is not decided here: every call takes the failure, if any, as an
    `Outcome` argument. */
module Backend {
  import opened Common
  import opened Domain

  /** The primary key: no two rows share an id. */
  predicate UniqueIds(rows: seq<Listing>)
  {
    forall i, j :: 0 <= i < j < |rows| ==> rows[i].id != rows[j].id
  }

  const NotSingleMessage := "JSON object requested, multiple (or no) rows returned"

  /** `.select('*').eq('id', id).single()`: the one row with that id; an error when
      no row or more than one row has it. */
  function SelectSingle(rows: seq<Listing>, id: nat): (r: Result<Listing>)
    ensures r.Ok? ==> r.value in rows && r.value.id == id
    ensures (forall l :: l in rows ==> l.id != id) ==> r == Err(NotSingleMessage)
  {
    var matching := Filter(rows, (l: Listing) => l.id == id);
    if |matching| == 1 then
      assert matching[0] in matching;
      Ok(matching[0])
    else
      Err(NotSingleMessage)
  }

  /** A fetch of one row by id whose remote call failed with `fault` or went through. */
  function FetchById(rows: seq<Listing>, id: nat, fault: Outcome): (r: Result<Listing>)
    ensures fault.Failed? ==> r == Err(fault.message)
    ensures r.Ok? ==> fault.Done? && r.value in rows && r.value.id == id
    ensures fault.Done? && (forall l :: l in rows ==> l.id != id) ==> r == Err(NotSingleMessage)
  {
    if fault.Failed? then Err(fault.message) else SelectSingle(rows, id)
  }

  /** With a primary key, `.single()` finds the row that has the id. */
  lemma {:induction false} SelectSingleFinds(rows: seq<Listing>, l: Listing)
    requires UniqueIds(rows) && l in rows
    ensures SelectSingle(rows, l.id) == Ok(l)
  {
    var p := (x: Listing) => x.id == l.id;
    UniqueTail(rows);
    if rows[0].id == l.id {
      assert Filter(rows[1..], p) == [];
      assert Filter(rows, p) == [rows[0]] + Filter(rows[1..], p);
    } else {
      assert l in rows[1..];
      SelectSingleFinds(rows[1..], l);
      assert Filter(rows, p) == Filter(rows[1..], p);
    }
  }

  /** Below the first row, ids stay unique and differ from the first row's. */
  lemma UniqueTail(rows: seq<Listing>)
    requires UniqueIds(rows) && rows != []
    ensures UniqueIds(rows[1..])
    ensures forall x :: x in rows[1..] ==> x.id != rows[0].id
  {
    forall x | x in rows[1..] ensures x.id != rows[0].id {
      var j :| 0 <= j < |rows[1..]| && rows[1..][j] == x;
      assert rows[j + 1] == x;
    }
  }

  /** The table after `.insert([draft])`, with the store-assigned id and timestamp. */
  function Inserted(rows: seq<Listing>, d: Draft, id: nat, at: int): (r: seq<Listing>)
    ensures |r| == |rows| + 1 && r[..|rows|] == rows
    ensures r[|rows|] == Listing(id, d.fields, d.userId, at)
  {
    rows + [Listing(id, d.fields, d.userId, at)]
  }

  /** A created listing is read back by its id with every field the creator supplied. */
  lemma InsertThenSelect(rows: seq<Listing>, d: Draft, id: nat, at: int)
    requires UniqueIds(rows) && forall l :: l in rows ==> l.id < id
    ensures UniqueIds(Inserted(rows, d, id, at))
    ensures SelectSingle(Inserted(rows, d, id, at), id) == Ok(Listing(id, d.fields, d.userId, at))
  {
    var r := Inserted(rows, d, id, at);
    assert forall i :: 0 <= i < |rows| ==> r[i] == rows[i] && rows[i] in rows;
    SelectSingleFinds(r, r[|rows|]);
  }

  /** The table after `.update(fields).eq('id', id)`: every row with that id gets the new
      fields; ids, owners and timestamps are never written. */
  function Updated(rows: seq<Listing>, id: nat, f: Fields): (r: seq<Listing>)
    ensures |r| == |rows|
    ensures forall i :: 0 <= i < |rows| ==>
      r[i].id == rows[i].id && r[i].userId == rows[i].userId && r[i].createdAt == rows[i].createdAt
    ensures forall i :: 0 <= i < |rows| && rows[i].id != id ==> r[i] == rows[i]
    ensures forall i :: 0 <= i < |rows| && rows[i].id == id ==> r[i].fields == f
  {
    seq(|rows|, i requires 0 <= i < |rows| => if rows[i].id == id then rows[i].(fields := f) else rows[i])
  }

  /** An edited listing is read back with the new fields and its original owner. */
  lemma UpdateThenSelect(rows: seq<Listing>, l: Listing, f: Fields)
    requires UniqueIds(rows) && l in rows
    ensures SelectSingle(Updated(rows, l.id, f), l.id) == Ok(l.(fields := f))
  {
    var r := Updated(rows, l.id, f);
    var k :| 0 <= k < |rows| && rows[k] == l;
    assert r[k] == l.(fields := f);
    SelectSingleFinds(r, r[k]);
  }

  /** A deleted listing can no longer be read by its id. */
  lemma DeleteThenSelect(rows: seq<Listing>, id: nat)
    ensures SelectSingle(WithoutId(rows, id), id) == Err(NotSingleMessage)
  {
  }

  const DuplicateMessage := "The resource already exists"

  /** What an upload without `upsert` reports: the call's own failure, else a failure when
      the name is taken, else success. */
  function UploadOutcome(images: set<string>, name: string, fault: Outcome): (o: Outcome)
    ensures o.Done? <==> fault.Done? && name !in images
  {
    if fault.Failed? then fault else if name in images then Failed(DuplicateMessage) else Done
  }

  /** The characters `encodeURI` leaves as they are: ASCII letters and digits and
      ``-_.!~*'();,/?:@&=+$#``. */
  predicate UrlSafeChar(c: char)
  {
    || 'a' <= c <= 'z' || 'A' <= c <= 'Z' || '0' <= c <= '9'
    || c in "-_.!~*'();,/?:@&=+$#"
  }

  /** A string that percent-encoding leaves unchanged. */
  predicate UrlSafe(s: string)
  {
    forall i :: 0 <= i < |s| ==> UrlSafeChar(s[i])
  }

  lemma UrlSafeSuffix(s: string, k: nat)
    requires k <= |s| && UrlSafe(s)
    ensures UrlSafe(s[k..])
  {
    forall i | 0 <= i < |s| - k ensures UrlSafeChar(s[k..][i]) {
      assert s[k..][i] == s[k + i];
    }
  }

  lemma UrlSafeConcat(a: string, b: string)
    requires UrlSafe(a) && UrlSafe(b)
    ensures UrlSafe(a + b)
  {
    forall i | 0 <= i < |a + b| ensures UrlSafeChar((a + b)[i]) {
      if i < |a| {
        assert (a + b)[i] == a[i];
      } else {
        assert (a + b)[i] == b[i - |a|];
      }
    }
  }

  class Store {
    var rows: seq<Listing>
    var images: set<string>
    var nextId: nat
    var clock: int
    const projectUrl: string

    /** Ids are unique, and the next id and timestamp are newer than every row's. */
    ghost predicate Valid()
      reads this`rows, this`nextId, this`clock
    {
      UniqueIds(rows) && forall l :: l in rows ==> l.id < nextId && l.createdAt < clock
    }

    /** `createClient(url, key)`: a client bound to a hosted project, whose table, bucket,
        id sequence and clock already hold whatever they hold. */
    constructor (projectUrl: string, rows: seq<Listing>, images: set<string>, nextId: nat, clock: int)
      requires UniqueIds(rows)
      requires forall l :: l in rows ==> l.id < nextId && l.createdAt < clock
      ensures Valid() && this.projectUrl == projectUrl
      ensures this.rows == rows && this.images == images
      ensures this.nextId == nextId && this.clock == clock
    {
      this.projectUrl := projectUrl;
      this.rows, this.images := rows, images;
      this.nextId, this.clock := nextId, clock;
    }

    /** `getPublicUrl(name)`: the object's public address, computed without a remote call.
        The storage client also percent-encodes the name; for the names `UrlSafe` admits
        that encoding leaves the name as it is, and only those are modelled. */
    function PublicUrl(name: string): (u: string)
      ensures BucketUrl() + "/" <= u && u[|BucketUrl()| + 1..] == name
    {
      BucketUrl() + "/" + name
    }

    function BucketUrl(): string
    {
      projectUrl + "/storage/v1/object/public/listing-images"
    }

    /** `.from('listings').insert([draft]).select()` */
    method Insert(d: Draft, fault: Outcome) returns (r: Result<Listing>)
      requires Valid()
      modifies this`rows, this`nextId, this`clock
      ensures Valid()
      ensures fault.Failed? ==> r == Err(fault.message) && rows == old(rows)
      ensures fault.Done? ==>
        r == Ok(Listing(old(nextId), d.fields, d.userId, old(clock))) &&
        rows == Inserted(old(rows), d, old(nextId), old(clock))
    {
      if fault.Failed? {
        return Err(fault.message);
      }
      InsertThenSelect(rows, d, nextId, clock);
      var row := Listing(nextId, d.fields, d.userId, clock);
      rows := Inserted(rows, d, nextId, clock);
      nextId, clock := nextId + 1, clock + 1;
      r := Ok(row);
    }

    /** `.from('listings').update(fields).eq('id', id)` */
    method Update(id: nat, f: Fields, fault: Outcome) returns (o: Outcome)
      requires Valid()
      modifies this`rows
      ensures Valid() && o == fault
      ensures rows == if fault.Done? then Updated(old(rows), id, f) else old(rows)
    {
      if fault.Done? {
        var r := Updated(rows, id, f);
        assert forall l :: l in r ==> exists i :: 0 <= i < |rows| && l.id == rows[i].id && l.createdAt == rows[i].createdAt;
        rows := r;
      }
      o := fault;
    }

    /** `.from('listings').delete().eq('id', id)`; a delete that matches no row succeeds. */
    method Delete(id: nat, fault: Outcome) returns (o: Outcome)
      requires Valid()
      modifies this`rows
      ensures Valid() && o == fault
      ensures rows == if fault.Done? then WithoutId(old(rows), id) else old(rows)
    {
      if fault.Done? {
        var r := WithoutId(rows, id);
        forall i, j | 0 <= i < j < |r| ensures r[i].id != r[j].id {
          SubsequenceKeepsUnique(r, rows, i, j);
        }
        rows := r;
      }
      o := fault;
    }

    /** `.storage.from('listing-images').upload(name, file, { upsert: false })`: fails
        when an object of that name already exists. */
    method Upload(name: string, fault: Outcome) returns (o: Outcome)
      modifies this`images
      ensures o == UploadOutcome(old(images), name, fault)
      ensures images == if o.Done? then old(images) + {name} else old(images)
    {
      if fault.Failed? {
        return fault;
      }
      if name in images {
        return Failed(DuplicateMessage);
      }
      images := images + {name};
      o := Done;
    }

    /** `.storage.from('listing-images').remove(names)` */
    method Remove(names: seq<string>, fault: Outcome) returns (o: Outcome)
      modifies this`images
      ensures o == fault
      ensures images == if fault.Done? then old(images) - set n | n in names else old(images)
    {
      if fault.Done? {
        images := images - set n | n in names;
      }
      o := fault;
    }
  }

  /** A subsequence of a table with unique ids has unique ids. */
  lemma {:induction false} SubsequenceKeepsUnique(a: seq<Listing>, b: seq<Listing>, i: nat, j: nat)
    requires IsSubsequence(a, b) && UniqueIds(b) && i < j < |a|
    ensures a[i].id != a[j].id
    decreases |b|
  {
    if a[0] == b[0] && IsSubsequence(a[1..], b[1..]) {
      if i == 0 {
        assert a[j] == a[1..][j - 1];
        SubsequenceMember(a[1..], b[1..], j - 1);
      } else {
        SubsequenceKeepsUnique(a[1..], b[1..], i - 1, j - 1);
      }
    } else {
      SubsequenceKeepsUnique(a, b[1..], i, j);
    }
  }

  /** Every element of a subsequence occurs in the sequence. */
  lemma {:induction false} SubsequenceMember<T>(a: seq<T>, b: seq<T>, k: nat)
    requires IsSubsequence(a, b) && k < |a|
    ensures exists m :: 0 <= m < |b| && b[m] == a[k]
    decreases |b|
  {
    if a[0] == b[0] && IsSubsequence(a[1..], b[1..]) {
      if k > 0 {
        SubsequenceMember(a[1..], b[1..], k - 1);
        var m :| 0 <= m < |b[1..]| && b[1..][m] == a[1..][k - 1];
        assert b[m + 1] == a[k];
      }
    } else {
      SubsequenceMember(a, b[1..], k);
      var m :| 0 <= m < |b[1..]| && b[1..][m] == a[k];
      assert b[m + 1] == a[k];
    }
  }
}
