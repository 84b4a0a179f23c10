/** The parking-lot registration page: image acceptance, the storage path of
    the uploaded photo, and the submit flow (validate, require a user and an
    image, upload, then add the lot to the store, always available). The
    random file-name token and the storage answer are parameters. */
module RegisterPage {
  import opened Wrappers
  import opened Text
  import opened ParkingProvider
  import opened ListingForm

  /** The chosen file: its name, size in bytes and MIME type. */
  datatype ImageFile = ImageFile(name: string, size: nat, mimeType: string)

  const MaxImageBytes: nat := 5 * 1024 * 1024

  const ImageTooLarge := "Image size should be less than 5MB"
  const NotAnImage := "Please upload an image file"
  const ImageRequired := "Please upload an image of your parking lot"
  const UploadFailed := "Failed to upload image. Please try again."

  /** Why a file is refused: the size is checked before the type. */
  function ImageProblem(file: ImageFile): (r: Option<string>)
    ensures r == Some(ImageTooLarge) <==> file.size > MaxImageBytes
    ensures r == Some(NotAnImage) <==>
              file.size <= MaxImageBytes && !StartsWith(file.mimeType, "image/")
    ensures r.None? <==> file.size <= MaxImageBytes && StartsWith(file.mimeType, "image/")
  {
    if file.size > MaxImageBytes then Some(ImageTooLarge)
    else if !StartsWith(file.mimeType, "image/") then Some(NotAnImage)
    else None
  }

  /** `${user?.id}`: a missing user prints as "undefined". */
  function UserSegment(userId: Option<string>): string
  {
    match userId case Some(id) => id case None => "undefined"
  }

  /** `${user?.id}/${token}.${ext}` with `ext` what follows the last dot of
      the file name. */
  function UploadPath(userId: Option<string>, token: string, fileName: string): (path: string)
    ensures var folder, ext := UserSegment(userId), AfterLastDot(fileName);
      && |path| == |folder| + |token| + |ext| + 2
      && path[..|folder| + 1] == folder + "/"
      && path[|folder| + 1..|folder| + 1 + |token|] == token
      && path[|path| - |ext| - 1..] == "." + ext
      && '.' !in ext
      && ('.' in fileName ==> exists stem :: fileName == stem + "." + ext)
  {
    var folder, ext := UserSegment(userId), AfterLastDot(fileName);
    var path := folder + "/" + token + "." + ext;
    assert path[..|folder| + 1] == folder + "/";
    assert path[|folder| + 1..|folder| + 1 + |token|] == token;
    assert path[|path| - |ext| - 1..] == "." + ext;
    path
  }

  /** The photo lands in the user's own folder: the path has exactly two
      segments, the user id and the token with the file's extension. */
  lemma UploadPathSegments(userId: string, token: string, fileName: string)
    requires '/' !in userId && '/' !in token && '/' !in fileName
    ensures Split(UploadPath(Some(userId), token, fileName), '/')
            == [userId, token + "." + AfterLastDot(fileName)]
  {
    var ext := AfterLastDot(fileName);
    var rest := token + "." + ext;
    assert forall c :: c in ext ==> c in fileName by {
      if '.' in fileName {
        var stem :| fileName == stem + "." + ext;
        forall c | c in ext ensures c in fileName {
          var j :| 0 <= j < |ext| && ext[j] == c;
          assert fileName[|stem| + 1 + j] == c;
        }
      }
    }
    assert '/' !in rest;
    var parts := [userId, rest];
    assert Join(parts, "/") == userId + "/" + rest by {
      assert Join(parts[1..], "/") == rest;
    }
    assert UploadPath(Some(userId), token, fileName) == userId + "/" + rest;
    SplitJoin(parts, '/');
  }

  class RegisterParkingLotPage {
    var userId: Option<string>
    var form: ListingFields
    var selectedImage: Option<ImageFile>
    var errors: map<Field, string>
    var successMessage: string

    constructor (userId: Option<string>)
      ensures this.userId == userId && form == EmptyFields()
      ensures selectedImage.None? && errors == map[] && successMessage == ""
    {
      this.userId := userId;
      form := EmptyFields();
      selectedImage := None;
      errors := map[];
      successMessage := "";
    }

    /** `handleImageChange`: a refused file only records why; an accepted one
        becomes the selection and clears the image error. */
    method HandleImageChange(file: Option<ImageFile>)
      modifies this`selectedImage, this`errors
      ensures file.None? ==> selectedImage == old(selectedImage) && errors == old(errors)
      ensures file.Some? && ImageProblem(file.value).Some? ==>
                && selectedImage == old(selectedImage)
                && errors == old(errors)[Image := ImageProblem(file.value).value]
      ensures file.Some? && ImageProblem(file.value).None? ==>
                selectedImage == file && errors == old(errors) - {Image}
    {
      if file.None? {
        return;
      }
      var problem := ImageProblem(file.value);
      if problem.Some? {
        errors := errors[Image := problem.value];
        return;
      }
      selectedImage := file;
      errors := errors - {Image};
    }

    /** `handleSubmit`. `imageUrl` is the public URL the upload returns, `None`
        when it fails; `reply` is the database's answer to the insert. The
        store is signed in as the same user as the page. */
    method HandleSubmit(parse: string -> Option<real>, store: Store, token: string,
                        imageUrl: Option<string>, reply: Result<InsertedLot>)
      returns (uploadPath: Option<string>, submitted: Option<LotDraft>)
      requires store.userId == userId
      modifies this`errors, this`successMessage, store
      ensures store.userId == old(store.userId) && store.bookings == old(store.bookings)
      ensures !Valid(form, parse, false) ==>
                && (forall k :: ErrorAt(errors, k) == FieldError(form, parse, false, k))
                && uploadPath.None? && submitted.None?
                && store.parkingLots == old(store.parkingLots)
      ensures Valid(form, parse, false) && userId.None? ==>
                && errors == map[FormField := MustBeLoggedIn]
                && uploadPath.None? && submitted.None?
                && store.parkingLots == old(store.parkingLots)
      ensures Valid(form, parse, false) && userId.Some? && selectedImage.None? ==>
                && errors == map[Image := ImageRequired]
                && uploadPath.None? && submitted.None?
                && store.parkingLots == old(store.parkingLots)
      ensures Valid(form, parse, false) && userId.Some? && selectedImage.Some? ==>
                uploadPath == Some(UploadPath(userId, token, selectedImage.value.name))
      ensures Valid(form, parse, false) && userId.Some? && selectedImage.Some?
              && Truthy(imageUrl).None? ==>
                && errors == map[Image := UploadFailed]
                && submitted.None? && store.parkingLots == old(store.parkingLots)
      ensures Valid(form, parse, false) && userId.Some? && selectedImage.Some?
              && Truthy(imageUrl).Some? ==>
                && ValidDraftInputs(form, parse)
                && submitted == Some(SubmittedDraft(form, parse, imageUrl))
                && submitted.value.isAvailable
      ensures submitted.Some? && reply.Err? ==>
                && errors == map[FormField := RegisterFailed]
                && store.parkingLots == old(store.parkingLots)
      ensures submitted.Some? && reply.Ok? ==>
                && errors == map[] && successMessage == Registered
                && store.parkingLots == old(store.parkingLots)
                     + [FormatLot(reply.value.id, InsertRow(submitted.value, userId.value),
                                  reply.value.owner)]
    {
      uploadPath, submitted := None, None;
      var proceed := Precheck(parse);
      if proceed {
        uploadPath, submitted := UploadAndSubmit(parse, store, token, imageUrl, reply);
      }
    }

    /** The upload, then the lot with the photo's URL. */
    method UploadAndSubmit(parse: string -> Option<real>, store: Store, token: string,
                           imageUrl: Option<string>, reply: Result<InsertedLot>)
      returns (uploadPath: Option<string>, submitted: Option<LotDraft>)
      requires store.userId == userId && userId.Some? && selectedImage.Some?
      requires Valid(form, parse, false) && errors == map[]
      modifies this`errors, this`successMessage, store
      ensures store.userId == old(store.userId) && store.bookings == old(store.bookings)
      ensures uploadPath == Some(UploadPath(userId, token, selectedImage.value.name))
      ensures Truthy(imageUrl).None? ==>
                && errors == map[Image := UploadFailed]
                && submitted.None? && store.parkingLots == old(store.parkingLots)
      ensures Truthy(imageUrl).Some? ==>
                && ValidDraftInputs(form, parse)
                && submitted == Some(SubmittedDraft(form, parse, imageUrl))
      ensures submitted.Some? && reply.Err? ==>
                && errors == map[FormField := RegisterFailed]
                && store.parkingLots == old(store.parkingLots)
      ensures submitted.Some? && reply.Ok? ==>
                && errors == map[] && successMessage == Registered
                && store.parkingLots == old(store.parkingLots)
                     + [FormatLot(reply.value.id, InsertRow(submitted.value, userId.value),
                                  reply.value.owner)]
    {
      submitted := None;
      uploadPath := Some(UploadPath(userId, token, selectedImage.value.name));
      if Truthy(imageUrl).None? {
        errors := errors[Image := UploadFailed];
        return;
      }
      assert ValidDraftInputs(form, parse) by {
        ValidDraftIsSound(form, parse, false, imageUrl);
      }
      var draft := SubmittedDraft(form, parse, imageUrl);
      submitted := Some(draft);
      Submit(draft, store, reply);
    }

    /** The checks before the upload: the form, then the user, then the image. */
    method Precheck(parse: string -> Option<real>) returns (proceed: bool)
      modifies this`errors
      ensures proceed <==> Valid(form, parse, false) && userId.Some? && selectedImage.Some?
      ensures proceed ==> errors == map[]
      ensures !Valid(form, parse, false) ==>
                forall k :: ErrorAt(errors, k) == FieldError(form, parse, false, k)
      ensures Valid(form, parse, false) && userId.None? ==> errors == map[FormField := MustBeLoggedIn]
      ensures Valid(form, parse, false) && userId.Some? && selectedImage.None? ==>
                errors == map[Image := ImageRequired]
    {
      var found := ValidateForm(form, parse, false);
      errors := found;
      if |found| != 0 {
        return false;
      }
      if userId.None? {
        errors := map[FormField := MustBeLoggedIn];
        return false;
      }
      if selectedImage.None? {
        errors := errors[Image := ImageRequired];
        return false;
      }
      return true;
    }

    /** `addParkingLot(parkingLotData)` and its message, on this page's fields. */
    method Submit(draft: LotDraft, store: Store, reply: Result<InsertedLot>)
      requires store.userId == userId && userId.Some?
      modifies this`errors, this`successMessage, store
      ensures store.userId == old(store.userId) && store.bookings == old(store.bookings)
      ensures reply.Err? ==>
                errors == map[FormField := RegisterFailed] && store.parkingLots == old(store.parkingLots)
      ensures reply.Ok? ==>
                && errors == old(errors) && successMessage == Registered
                && store.parkingLots == old(store.parkingLots)
                     + [FormatLot(reply.value.id, InsertRow(draft, userId.value), reply.value.owner)]
    {
      errors, successMessage := SubmitDraft(draft, store, userId.value, reply, errors, successMessage);
    }
  }
}
