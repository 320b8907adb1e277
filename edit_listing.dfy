/** The edit page for route `/listings/:id/edit`: a session gate, an ownership check
    before the form is filled, and a submit that uploads a new image only when one
    was chosen and then updates the row without touching its owner. */
module EditListing {
  import opened Common
  import opened Domain
  import opened Backend
  import opened Forms

  const NotOwnerMessage := "You are not authorized to edit this listing"
  const LoadErrorMessage := "Failed to load listing"
  const SignInMessage := "You must be logged in to edit a listing"
  const UpdatedMessage := "Listing updated successfully!"
  const UpdateFallbackMessage := "Failed to update listing. Please try again."

  /** The update step of `handleSubmit`, seen from after it: on success the row with the
      route's id has the new fields and the page goes to that listing; on failure the
      table is as before and the error's message (or the fallback) is shown. */
  predicate Updating(before: seq<Listing>, after: seq<Listing>, id: nat, f: Fields, fault: Outcome, e: Effect)
  {
    if fault.Done? then
      after == Updated(before, id, f) && e == Effect(SuccessToast(UpdatedMessage), Some(ListingRoute(id)))
    else
      after == before && e == Effect(ErrorToast(ErrorText(fault.message, UpdateFallbackMessage)), None)
  }

  /** Submitting the form the page filled from a row, with no change and no new file,
      reads back as the same row: same fields, same owner. */
  lemma UntouchedSubmitKeepsRow(rows: seq<Listing>, l: Listing)
    requires UniqueIds(rows) && l in rows
    ensures SelectSingle(Updated(rows, l.id, FieldsFrom(FormFor(l.fields), l.fields.imageUrl)), l.id) == Ok(l)
  {
    UpdateThenSelect(rows, l, FieldsFrom(FormFor(l.fields), l.fields.imageUrl));
  }

  /** The page's state: `loading`, `user`, `isLoadingUser`, `formData`, `currentImageUrl`. */
  class EditListingPage {
    const id: nat
    var loading: bool
    var user: Option<UserId>
    var isLoadingUser: bool
    var formData: Form
    var currentImageUrl: string

    constructor (id: nat)
      ensures this.id == id && !loading && user == None && isLoadingUser
      ensures formData == EmptyForm && currentImageUrl == ""
    {
      this.id := id;
      loading, user, isLoadingUser := false, None, true;
      formData, currentImageUrl := EmptyForm, "";
    }

    /** `checkAuth`: `session` is what `getSession()` returned, an error or the signed-in
        user if any. Without a user the page goes to `/login`; with one it loads the
        listing. The user check ends on every path. */
    method CheckAuth(db: Store, session: Result<Option<UserId>>, fetchFault: Outcome) returns (e: Effect)
      modifies this`user, this`isLoadingUser, this`formData, this`currentImageUrl
      ensures !isLoadingUser
      ensures session.Err? || session.value.None? ==>
        user == None && e == Effect(NoToast, Some(LoginRoute)) &&
        formData == old(formData) && currentImageUrl == old(currentImageUrl)
      ensures session.Ok? && session.value.Some? ==> user == session.value
      ensures session.Ok? && session.value.Some? ==>
        var data := FetchById(db.rows, id, fetchFault);
        if data.Ok? && data.value.userId == session.value.value then
          formData == FormFor(data.value.fields) && currentImageUrl == data.value.fields.imageUrl && e == NoEffect
        else
          formData == old(formData) && currentImageUrl == old(currentImageUrl) &&
          e == Effect(ErrorToast(if data.Err? then LoadErrorMessage else NotOwnerMessage), Some(ListingsRoute))
    {
      if session.Err? || session.value.None? {
        user := None;
        e := Effect(NoToast, Some(LoginRoute));
      } else {
        user := session.value;
        e := FetchListing(db, session.value.value, fetchFault);
      }
      isLoadingUser := false;
    }

    /** `fetchListing(currentUser)`: only the owner's form is filled. */
    method FetchListing(db: Store, currentUser: UserId, fault: Outcome) returns (e: Effect)
      modifies this`formData, this`currentImageUrl
      ensures var data := FetchById(db.rows, id, fault);
        if data.Ok? && data.value.userId == currentUser then
          formData == FormFor(data.value.fields) && currentImageUrl == data.value.fields.imageUrl && e == NoEffect
        else
          formData == old(formData) && currentImageUrl == old(currentImageUrl) &&
          e == Effect(ErrorToast(if data.Err? then LoadErrorMessage else NotOwnerMessage), Some(ListingsRoute))
    {
      var data := FetchById(db.rows, id, fault);
      if data.Err? {
        return Effect(ErrorToast(LoadErrorMessage), Some(ListingsRoute));
      }
      if data.value.userId != currentUser {
        return Effect(ErrorToast(NotOwnerMessage), Some(ListingsRoute));
      }
      formData := FormFor(data.value.fields);
      currentImageUrl := data.value.fields.imageUrl;
      e := NoEffect;
    }

    /** `handleChange` */
    method HandleChange(name: FieldName, value: string)
      modifies this`formData
      ensures formData == WithField(old(formData), name, value)
    {
      formData := WithField(formData, name, value);
    }

    /** `handleImageChange` */
    method HandleImageChange(files: seq<File>)
      modifies this`formData
      ensures formData == WithChosenFiles(old(formData), files)
    {
      formData := WithChosenFiles(formData, files);
    }

    /** The upload step of `handleSubmit`: with a chosen file, upload it and take its
        public URL; with none, the current URL stays. */
    method UploadChosenImage(db: Store, stamp: string, fault: Outcome) returns (r: Result<string>)
      modifies db`images
      ensures r == SubmittedImageUrl(db, old(db.images), stamp, formData.image, currentImageUrl, fault)
      ensures db.images == ImagesAfterSubmit(old(db.images), stamp, formData.image, fault)
    {
      if formData.image.None? {
        return Ok(currentImageUrl);
      }
      var fileName := UploadName(stamp, formData.image.value);
      var uploadError := db.Upload(fileName, fault);
      if uploadError.Failed? {
        return Err(uploadError.message);
      }
      r := Ok(db.PublicUrl(fileName));
    }

    /** The update step of `handleSubmit` and its report. */
    method SaveFields(db: Store, f: Fields, fault: Outcome) returns (e: Effect)
      requires db.Valid()
      modifies db`rows
      ensures db.Valid()
      ensures Updating(old(db.rows), db.rows, id, f, fault, e)
    {
      var error := db.Update(id, f, fault);
      if error.Failed? {
        e := Effect(ErrorToast(ErrorText(error.message, UpdateFallbackMessage)), None);
      } else {
        e := Effect(SuccessToast(UpdatedMessage), Some(ListingRoute(id)));
      }
    }

    /** `handleSubmit`: `stamp` stands for the time-and-random part of the uploaded
        object's name. Without a user nothing is written. The image URL stays the current
        one unless a chosen file is uploaded; a failed upload stops before the update.
        The update writes the form's fields to the row with the route's id. */
    method HandleSubmit(db: Store, stamp: string, uploadFault: Outcome, updateFault: Outcome) returns (e: Effect)
      requires db.Valid() && Submittable(formData)
      modifies this`loading, db`rows, db`images
      ensures db.Valid()
      ensures user.None? ==>
        unchanged(this, db) && e == Effect(ErrorToast(SignInMessage), Some(LoginRoute))
      ensures user.Some? ==> !loading && db.images == ImagesAfterSubmit(old(db.images), stamp, formData.image, uploadFault)
      ensures user.Some? ==>
        var url := SubmittedImageUrl(db, old(db.images), stamp, formData.image, currentImageUrl, uploadFault);
        if url.Err? then
          db.rows == old(db.rows) && e == Effect(ErrorToast(ErrorText(url.message, UpdateFallbackMessage)), None)
        else
          Updating(old(db.rows), db.rows, id, FieldsFrom(formData, url.value), updateFault, e)
    {
      if user.None? {
        return Effect(ErrorToast(SignInMessage), Some(LoginRoute));
      }
      loading := true;
      var imageUrl := UploadChosenImage(db, stamp, uploadFault);
      if imageUrl.Err? {
        loading := false;
        return Effect(ErrorToast(ErrorText(imageUrl.message, UpdateFallbackMessage)), None);
      }
      e := SaveFields(db, FieldsFrom(formData, imageUrl.value), updateFault);
      loading := false;
    }
  }
}
