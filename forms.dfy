/** The listing form shared by the create and edit pages: its text inputs, the
    chosen image file, the per-field change handlers, and the conversion between a
    form and a row's fields. */
module Forms {
  import opened Common
  import opened Domain
  import opened Backend

  /** A file from the file input; only its name is used. */
  datatype File = File(name: string)

  /** `formData`: every input holds text; `image` is the chosen file, if any. */
  datatype Form = Form(
    title: string,
    description: string,
    propertyType: string,
    price: string,
    location: string,
    bedrooms: string,
    bathrooms: string,
    area: string,
    image: Option<File>)

  /** The initial `formData`: empty inputs, the type select on `house`, no file. */
  const EmptyForm := Form("", "", "house", "", "", "", "", "", None)

  /** The `name` attribute of a text, number or select input. */
  datatype FieldName = Title | Description | PropertyType | Price | Location | Bedrooms | Bathrooms | Area

  function Field(f: Form, n: FieldName): string
  {
    match n
    case Title => f.title
    case Description => f.description
    case PropertyType => f.propertyType
    case Price => f.price
    case Location => f.location
    case Bedrooms => f.bedrooms
    case Bathrooms => f.bathrooms
    case Area => f.area
  }

  /** `handleChange`: `setFormData(prev => ({ ...prev, [name]: value }))`. */
  function WithField(f: Form, n: FieldName, value: string): (g: Form)
    ensures Field(g, n) == value
    ensures forall m :: m != n ==> Field(g, m) == Field(f, m)
    ensures g.image == f.image
  {
    match n
    case Title => f.(title := value)
    case Description => f.(description := value)
    case PropertyType => f.(propertyType := value)
    case Price => f.(price := value)
    case Location => f.(location := value)
    case Bedrooms => f.(bedrooms := value)
    case Bathrooms => f.(bathrooms := value)
    case Area => f.(area := value)
  }

  /** `handleImageChange`: the first chosen file becomes `image`; choosing nothing
      leaves the form as it was. */
  function WithChosenFiles(f: Form, files: seq<File>): (g: Form)
    ensures forall n :: Field(g, n) == Field(f, n)
    ensures |files| == 0 ==> g == f
    ensures |files| > 0 ==> g.image == Some(files[0])
  {
    if |files| > 0 then f.(image := Some(files[0])) else f
  }

  /** What the browser's validation of the `required type="number"` inputs lets through to
      `handleSubmit`, restricted to whole numbers. */
  predicate Submittable(f: Form)
  {
    Numeral(f.price) && Numeral(f.bedrooms) && Numeral(f.bathrooms) && Numeral(f.area)
  }

  /** The columns of `listingData`: text inputs copied, numeric inputs parsed, and the
      image URL the submit flow settled on. */
  function FieldsFrom(f: Form, imageUrl: string): (d: Fields)
    requires Submittable(f)
    ensures d.title == f.title && d.description == f.description
    ensures d.propertyType == f.propertyType && d.location == f.location
    ensures d.price == ParseDecimal(f.price) && d.bedrooms == ParseDecimal(f.bedrooms)
    ensures d.bathrooms == ParseDecimal(f.bathrooms) && d.area == ParseDecimal(f.area)
    ensures d.imageUrl == imageUrl
  {
    Fields(f.title, f.description, f.propertyType, ParseDecimal(f.price), f.location,
           ParseDecimal(f.bedrooms), ParseDecimal(f.bathrooms), ParseDecimal(f.area), imageUrl)
  }

  /** The edit page's `setFormData(...)` from a fetched row: numbers rendered as text and
      no file chosen. Submitting it untouched writes back exactly the row's fields. */
  function FormFor(d: Fields): (f: Form)
    ensures f.image == None && Submittable(f)
    ensures f.title == d.title && f.description == d.description
    ensures f.propertyType == d.propertyType && f.location == d.location
    ensures FieldsFrom(f, d.imageUrl) == d
  {
    ParseDecimalString(d.price);
    ParseDecimalString(d.bedrooms);
    ParseDecimalString(d.bathrooms);
    ParseDecimalString(d.area);
    Form(d.title, d.description, d.propertyType, DecimalString(d.price), d.location,
         DecimalString(d.bedrooms), DecimalString(d.bathrooms), DecimalString(d.area), None)
  }

  /** The uploaded object's name `${Date.now()}-${random}.${fileExt}`, where `stamp` stands
      for the time-and-random part and `fileExt` is `file.name.split('.').pop()`. */
  function UploadName(stamp: string, file: File): (name: string)
    ensures stamp + "." <= name
  {
    stamp + "." + AfterLast(file.name, '.')
  }

  /** The uploaded object keeps the chosen file's extension: the text after the last `.`. */
  lemma UploadNameKeepsExtension(stamp: string, file: File)
    ensures AfterLast(UploadName(stamp, file), '.') == AfterLast(file.name, '.')
  {
    AfterLastOfJoin(stamp, '.', AfterLast(file.name, '.'));
  }

  /** A stamp and a file name without `/` give an object name without `/`. */
  lemma UploadNameHasNoSlash(stamp: string, file: File)
    requires '/' !in stamp && '/' !in file.name
    ensures '/' !in UploadName(stamp, file)
  {
    var ext := AfterLast(file.name, '.');
    SuffixExcludes(file.name, |file.name| - |ext|, '/');
    ConcatExcludes(stamp, ".", '/');
    ConcatExcludes(stamp + ".", ext, '/');
  }

  /** A URL-safe stamp and file name give a URL-safe object name. */
  lemma UploadNameUrlSafe(stamp: string, file: File)
    requires UrlSafe(stamp) && UrlSafe(file.name)
    ensures UrlSafe(UploadName(stamp, file))
  {
    var ext := AfterLast(file.name, '.');
    UrlSafeSuffix(file.name, |file.name| - |ext|);
    assert UrlSafeChar('.');
    UrlSafeConcat(stamp, ".");
    UrlSafeConcat(stamp + ".", ext);
  }

  /** The image URL a submit settles on: `keep` when no file is chosen; otherwise the
      public URL of the object the file is uploaded as, or the upload's error. */
  function SubmittedImageUrl(db: Store, images: set<string>, stamp: string, image: Option<File>, keep: string, fault: Outcome): (r: Result<string>)
    ensures image.None? ==> r == Ok(keep)
    ensures image.Some? ==> (r.Ok? <==> fault.Done? && UploadName(stamp, image.value) !in images)
    ensures image.Some? && r.Err? ==> r.message == UploadOutcome(images, UploadName(stamp, image.value), fault).message
    ensures image.Some? && r.Ok? ==> r.value == db.PublicUrl(UploadName(stamp, image.value))
  {
    if image.None? then Ok(keep)
    else
      var name := UploadName(stamp, image.value);
      var upload := UploadOutcome(images, name, fault);
      if upload.Failed? then Err(upload.message) else Ok(db.PublicUrl(name))
  }

  /** The objects in storage after that upload step. */
  function ImagesAfterSubmit(images: set<string>, stamp: string, image: Option<File>, fault: Outcome): (r: set<string>)
    ensures images <= r
    ensures image.None? || !fault.Done? ==> r == images
    ensures image.Some? ==> var name := UploadName(stamp, image.value);
      r == if fault.Done? && name !in images then images + {name} else images
  {
    if image.Some? && UploadOutcome(images, UploadName(stamp, image.value), fault).Done?
    then images + {UploadName(stamp, image.value)}
    else images
  }
}
