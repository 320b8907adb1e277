/** The create page: a session gate, then a submit that uploads the chosen image (if
    any) before inserting the row owned by the signed-in user. */
module CreateListing {
  import opened Common
  import opened Domain
  import opened Backend
  import opened Forms

  const SignInMessage := "You must be logged in to create a listing"
  const CreatedMessage := "Listing created successfully!"
  const CreateFallbackMessage := "Failed to create listing. Please try again."

  /** The insert step of `handleSubmit`, seen from after it: on success the table gained
      one row with the form's fields, owned by `owner`, and the page goes to `/listings`;
      on failure the table is as before and the error's message (or the fallback) is shown. */
  predicate Inserting(before: seq<Listing>, after: seq<Listing>, d: Draft, id: nat, at: int, fault: Outcome, e: Effect)
  {
    if fault.Done? then
      after == Inserted(before, d, id, at) && e == Effect(SuccessToast(CreatedMessage), Some(ListingsRoute))
    else
      after == before && e == Effect(ErrorToast(ErrorText(fault.message, CreateFallbackMessage)), None)
  }

  /** The page's state: `loading`, `user`, `isLoadingUser` and `formData`. */
  class CreateListingPage {
    var loading: bool
    var user: Option<UserId>
    var isLoadingUser: bool
    var formData: Form

    constructor ()
      ensures !loading && user == None && isLoadingUser && formData == EmptyForm
    {
      loading, user, isLoadingUser, formData := false, None, true, EmptyForm;
    }

    /** `checkAuth`: without a signed-in user the page goes to `/login`. */
    method CheckAuth(session: Result<Option<UserId>>) returns (e: Effect)
      modifies this`user, this`isLoadingUser
      ensures !isLoadingUser
      ensures session.Ok? && session.value.Some? ==> user == session.value && e == NoEffect
      ensures session.Err? || session.value.None? ==> user == None && e == Effect(NoToast, Some(LoginRoute))
    {
      if session.Ok? && session.value.Some? {
        user := session.value;
        e := NoEffect;
      } else {
        user := None;
        e := Effect(NoToast, Some(LoginRoute));
      }
      isLoadingUser := false;
    }

    /** `handleChange` */
    method HandleChange(name: FieldName, value: string)
      modifies this`formData
      ensures formData == WithField(old(formData), name, value)
    {
      formData := WithField(formData, name, value);
    }

    /** `handleImageChange` */
    method HandleImageChange(files: seq<File>)
      modifies this`formData
      ensures formData == WithChosenFiles(old(formData), files)
    {
      formData := WithChosenFiles(formData, files);
    }

    /** The upload step of `handleSubmit`: with a chosen file, upload it and take its
        public URL; with none, the URL is empty. */
    method UploadChosenImage(db: Store, stamp: string, fault: Outcome) returns (r: Result<string>)
      modifies db`images
      ensures r == SubmittedImageUrl(db, old(db.images), stamp, formData.image, "", fault)
      ensures db.images == ImagesAfterSubmit(old(db.images), stamp, formData.image, fault)
    {
      if formData.image.None? {
        return Ok("");
      }
      var fileName := UploadName(stamp, formData.image.value);
      var uploadError := db.Upload(fileName, fault);
      if uploadError.Failed? {
        return Err(uploadError.message);
      }
      r := Ok(db.PublicUrl(fileName));
    }

    /** The insert step of `handleSubmit` and its report. */
    method SaveDraft(db: Store, d: Draft, fault: Outcome) returns (e: Effect)
      requires db.Valid()
      modifies db`rows, db`nextId, db`clock
      ensures db.Valid()
      ensures Inserting(old(db.rows), db.rows, d, old(db.nextId), old(db.clock), fault, e)
    {
      var created := db.Insert(d, fault);
      if created.Err? {
        e := Effect(ErrorToast(ErrorText(created.message, CreateFallbackMessage)), None);
      } else {
        e := Effect(SuccessToast(CreatedMessage), Some(ListingsRoute));
      }
    }

    /** `handleSubmit`: `stamp` stands for the time-and-random part of the uploaded
        object's name. Without a user nothing is written. With no file the image URL is
        empty; a failed upload stops before the insert. The inserted row is owned by the
        signed-in user. */
    method HandleSubmit(db: Store, stamp: string, uploadFault: Outcome, insertFault: Outcome) returns (e: Effect)
      requires db.Valid() && Submittable(formData)
      modifies this`loading, db`rows, db`images, db`nextId, db`clock
      ensures db.Valid()
      ensures user.None? ==>
        unchanged(this, db) && e == Effect(ErrorToast(SignInMessage), Some(LoginRoute))
      ensures user.Some? ==> !loading && db.images == ImagesAfterSubmit(old(db.images), stamp, formData.image, uploadFault)
      ensures user.Some? ==>
        var url := SubmittedImageUrl(db, old(db.images), stamp, formData.image, "", uploadFault);
        if url.Err? then
          db.rows == old(db.rows) && e == Effect(ErrorToast(ErrorText(url.message, CreateFallbackMessage)), None)
        else
          Inserting(old(db.rows), db.rows, Draft(FieldsFrom(formData, url.value), user.value),
                    old(db.nextId), old(db.clock), insertFault, e)
    {
      if user.None? {
        return Effect(ErrorToast(SignInMessage), Some(LoginRoute));
      }
      loading := true;
      var imageUrl := UploadChosenImage(db, stamp, uploadFault);
      if imageUrl.Err? {
        loading := false;
        return Effect(ErrorToast(ErrorText(imageUrl.message, CreateFallbackMessage)), None);
      }
      e := SaveDraft(db, Draft(FieldsFrom(formData, imageUrl.value), user.value), insertFault);
      loading := false;
    }
  }
}
