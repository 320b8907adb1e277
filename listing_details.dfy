/** The listing details page: one listing by id, Edit/Delete controls for its owner
    only, and a delete that removes the stored image (best effort) before the row. */
module ListingDetails {
  import opened Common
  import opened Domain
  import opened Backend
  import opened Forms

  const LoadErrorMessage := "Failed to load listing details"
  const DeletedMessage := "Listing deleted successfully"
  const DeleteErrorMessage := "Failed to delete listing"

  /** `listing.image_url.split('/').pop()`: the storage object name inside an image URL,
      the text after its last `/`. */
  function ImagePath(url: string): (p: string)
    ensures '/' !in p
    ensures |p| <= |url| && p == url[|url| - |p|..]
    ensures |p| < |url| ==> url[|url| - |p| - 1] == '/'
  {
    AfterLast(url, '/')
  }

  /** The text after the last `/` of a public URL of the bucket is the object name, for
      names the storage client's percent-encoding leaves as they are. */
  lemma ImagePathOfPublicUrl(db: Backend.Store, name: string)
    requires UrlSafe(name) && '/' !in name
    ensures ImagePath(db.PublicUrl(name)) == name
  {
    AfterLastOfJoin(db.BucketUrl(), '/', name);
  }

  /** Deleting a listing whose image was uploaded by the create or edit page removes
      exactly the object that upload stored. */
  lemma DeleteFindsUploadedImage(db: Backend.Store, stamp: string, file: File)
    requires UrlSafe(stamp) && UrlSafe(file.name)
    requires '/' !in stamp && '/' !in file.name
    ensures ImagePath(db.PublicUrl(UploadName(stamp, file))) == UploadName(stamp, file)
  {
    UploadNameHasNoSlash(stamp, file);
    UploadNameUrlSafe(stamp, file);
    ImagePathOfPublicUrl(db, UploadName(stamp, file));
  }

  /** An image uploaded by a submit and later deleted with its listing leaves the bucket
      as it was before the upload. */
  lemma UploadThenDeleteRestoresImages(db: Backend.Store, images: set<string>, stamp: string, file: File, keep: string, fault: Outcome)
    requires UrlSafe(stamp) && UrlSafe(file.name)
    requires '/' !in stamp && '/' !in file.name
    ensures var url := SubmittedImageUrl(db, images, stamp, Some(file), keep, fault);
      url.Ok? ==> ImagesAfterRemoval(ImagesAfterSubmit(images, stamp, Some(file), fault), url.value, Done) == images
  {
    var url := SubmittedImageUrl(db, images, stamp, Some(file), keep, fault);
    if url.Ok? {
      DeleteFindsUploadedImage(db, stamp, file);
    }
  }

  /** The stored objects after the image step of a delete: the object named by a
      non-empty image URL is gone when the removal succeeds; otherwise nothing changes. */
  function ImagesAfterRemoval(images: set<string>, url: string, fault: Outcome): (r: set<string>)
    ensures r <= images
    ensures url != "" && fault.Done? ==> ImagePath(url) !in r && images - r <= {ImagePath(url)}
    ensures url == "" || fault.Failed? ==> r == images
  {
    if url != "" && fault.Done? then images - {ImagePath(url)} else images
  }

  /** `user && user.id === listing.user_id`: the Edit and Delete controls are shown to the
      listing's owner only, never to a signed-out visitor. */
  function ShowsOwnerControls(user: Option<UserId>, listing: Listing): (b: bool)
    ensures b <==> user == Some(listing.userId)
  {
    user.Some? && user.value == listing.userId
  }

  datatype View = Spinner | NotFound | Details(listing: Listing, ownerControls: bool)

  /** What the page renders: a spinner while loading, "Listing not found" when loading
      ended without a listing, otherwise the listing, with the owner's controls when the
      signed-in user owns it. */
  function Render(loading: bool, listing: Option<Listing>, user: Option<UserId>): (v: View)
    ensures v.Spinner? <==> loading
    ensures v.NotFound? <==> !loading && listing.None?
    ensures v.Details? ==> listing == Some(v.listing)
    ensures v.Details? ==> (v.ownerControls <==> user.Some? && user.value == v.listing.userId)
  {
    if loading then Spinner
    else if listing.None? then NotFound
    else Details(listing.value, ShowsOwnerControls(user, listing.value))
  }

  /** The page for route `/listings/:id`: `listing`, `loading` and `user`. */
  class DetailsPage {
    const id: nat
    var listing: Option<Listing>
    var loading: bool
    var user: Option<UserId>

    constructor (id: nat)
      ensures this.id == id && listing == None && loading && user == None
    {
      this.id := id;
      listing, loading, user := None, true, None;
    }

    /** The mount effect: `fetchListing` (one row by id) and `getUser`. */
    method Load(db: Store, fault: Outcome, authUser: Option<UserId>) returns (toast: Toast)
      modifies this`listing, this`loading, this`user
      ensures !loading && user == authUser
      ensures var data := FetchById(db.rows, id, fault);
        if data.Ok? then listing == Some(data.value) && toast == NoToast
        else listing == old(listing) && toast == ErrorToast(LoadErrorMessage)
    {
      var data := FetchById(db.rows, id, fault);
      toast := NoToast;
      if data.Err? {
        toast := ErrorToast(LoadErrorMessage);
      } else {
        listing := Some(data.value);
      }
      loading := false;
      user := authUser;
    }

    /** The storage step of `handleDelete`: when the listing has an image, remove the
        object its URL names; a failure is only logged. */
    method RemoveImage(db: Store, storageFault: Outcome)
      requires listing.Some?
      modifies db`images
      ensures db.images == ImagesAfterRemoval(old(db.images), listing.value.fields.imageUrl, storageFault)
    {
      var url := listing.value.fields.imageUrl;
      if url != "" {
        var imagePath := ImagePath(url);
        var storageError := db.Remove([imagePath], storageFault);
        assert (set n | n in [imagePath]) == {imagePath};
      }
    }

    /** `handleDelete`: after confirmation, remove the image when the listing has one
        (its failure is only logged), then delete the row; navigate to `/listings` only
        when the row delete succeeds. */
    method HandleDelete(db: Store, confirmed: bool, storageFault: Outcome, deleteFault: Outcome) returns (e: Effect)
      requires db.Valid() && listing.Some?
      modifies db`rows, db`images
      ensures db.Valid()
      ensures !confirmed ==> unchanged(db) && e == NoEffect
      ensures confirmed ==> db.images == ImagesAfterRemoval(old(db.images), listing.value.fields.imageUrl, storageFault)
      ensures confirmed ==> db.rows == if deleteFault.Done? then WithoutId(old(db.rows), id) else old(db.rows)
      ensures confirmed && deleteFault.Done? ==> e == Effect(SuccessToast(DeletedMessage), Some(ListingsRoute))
      ensures confirmed && deleteFault.Failed? ==> e == Effect(ErrorToast(DeleteErrorMessage), None)
    {
      if !confirmed {
        return NoEffect;
      }
      RemoveImage(db, storageFault);
      var error := db.Delete(id, deleteFault);
      if error.Failed? {
        return Effect(ErrorToast(DeleteErrorMessage), None);
      }
      e := Effect(SuccessToast(DeletedMessage), Some(ListingsRoute));
    }
  }
}
