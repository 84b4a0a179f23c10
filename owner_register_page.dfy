/** The owner's registration page: the same form with the city required, an
    optional photo URL typed by hand, and the submit flow (validate, require a
    user, add the lot to the store, always available). */
module OwnerRegisterPage {
  import opened Wrappers
  import opened ParkingProvider
  import opened ListingForm

  /** `formData.photoUrl || undefined`: an empty field sends no photo. */
  function PhotoOf(photoUrl: string): (r: Option<string>)
    ensures r.None? <==> photoUrl == ""
    ensures r.Some? ==> r.value == photoUrl
  {
    if photoUrl == "" then None else Some(photoUrl)
  }

  class OwnerRegisterPage {
    var userId: Option<string>
    var form: ListingFields
    var photoUrl: string
    var errors: map<Field, string>
    var successMessage: string

    constructor (userId: Option<string>)
      ensures this.userId == userId && form == EmptyFields() && photoUrl == ""
      ensures errors == map[] && successMessage == ""
    {
      this.userId := userId;
      form := EmptyFields();
      photoUrl := "";
      errors := map[];
      successMessage := "";
    }

    /** `handleSubmit`: an invalid form or a missing user stops before the
        store is called; otherwise the lot is submitted with the city checked,
        available, and without a photo when the URL field is empty. The store
        is signed in as the same user as the page. */
    method HandleSubmit(parse: string -> Option<real>, store: Store, reply: Result<InsertedLot>)
      returns (submitted: Option<LotDraft>)
      requires store.userId == userId
      modifies this`errors, this`successMessage, store
      ensures store.userId == old(store.userId) && store.bookings == old(store.bookings)
      ensures !Valid(form, parse, true) ==>
                && (forall k :: ErrorAt(errors, k) == FieldError(form, parse, true, k))
                && submitted.None? && store.parkingLots == old(store.parkingLots)
      ensures Valid(form, parse, true) && userId.None? ==>
                && errors == map[FormField := MustBeLoggedIn]
                && submitted.None? && store.parkingLots == old(store.parkingLots)
      ensures Valid(form, parse, true) && userId.Some? ==>
                && ValidDraftInputs(form, parse)
                && submitted == Some(SubmittedDraft(form, parse, PhotoOf(photoUrl)))
      ensures submitted.Some? && reply.Err? ==>
                && errors == map[FormField := RegisterFailed]
                && store.parkingLots == old(store.parkingLots)
      ensures submitted.Some? && reply.Ok? ==>
                && errors == map[] && successMessage == Registered
                && store.parkingLots == old(store.parkingLots)
                     + [FormatLot(reply.value.id, InsertRow(submitted.value, userId.value),
                                  reply.value.owner)]
    {
      submitted := None;
      var proceed := Precheck(parse);
      if proceed {
        submitted := SubmitValid(parse, store, reply);
      }
    }

    /** A valid form with a user: the draft goes to the store. */
    method SubmitValid(parse: string -> Option<real>, store: Store, reply: Result<InsertedLot>)
      returns (submitted: Option<LotDraft>)
      requires store.userId == userId && userId.Some?
      requires Valid(form, parse, true) && errors == map[]
      modifies this`errors, this`successMessage, store
      ensures store.userId == old(store.userId) && store.bookings == old(store.bookings)
      ensures ValidDraftInputs(form, parse)
      ensures submitted == Some(SubmittedDraft(form, parse, PhotoOf(photoUrl)))
      ensures reply.Err? ==>
                && errors == map[FormField := RegisterFailed]
                && store.parkingLots == old(store.parkingLots)
      ensures reply.Ok? ==>
                && errors == map[] && successMessage == Registered
                && store.parkingLots == old(store.parkingLots)
                     + [FormatLot(reply.value.id, InsertRow(submitted.value, userId.value),
                                  reply.value.owner)]
    {
      ValidDraftIsSound(form, parse, true, PhotoOf(photoUrl));
      var draft := SubmittedDraft(form, parse, PhotoOf(photoUrl));
      submitted := Some(draft);
      Submit(draft, store, reply);
    }

    /** `addParkingLot(parkingLotData)` and its message, on this page's fields. */
    method Submit(draft: LotDraft, store: Store, reply: Result<InsertedLot>)
      requires store.userId == userId && userId.Some?
      modifies this`errors, this`successMessage, store
      ensures store.userId == old(store.userId) && store.bookings == old(store.bookings)
      ensures reply.Err? ==>
                errors == map[FormField := RegisterFailed] && store.parkingLots == old(store.parkingLots)
      ensures reply.Ok? ==>
                && errors == old(errors) && successMessage == Registered
                && store.parkingLots == old(store.parkingLots)
                     + [FormatLot(reply.value.id, InsertRow(draft, userId.value), reply.value.owner)]
    {
      errors, successMessage := SubmitDraft(draft, store, userId.value, reply, errors, successMessage);
    }

    /** The checks before the insert: the form, then the user. */
    method Precheck(parse: string -> Option<real>) returns (proceed: bool)
      modifies this`errors
      ensures proceed <==> Valid(form, parse, true) && userId.Some?
      ensures proceed ==> errors == map[]
      ensures !Valid(form, parse, true) ==>
                forall k :: ErrorAt(errors, k) == FieldError(form, parse, true, k)
      ensures Valid(form, parse, true) && userId.None? ==> errors == map[FormField := MustBeLoggedIn]
    {
      var found := ValidateForm(form, parse, true);
      errors := found;
      if |found| != 0 {
        return false;
      }
      if userId.None? {
        errors := map[FormField := MustBeLoggedIn];
        return false;
      }
      return true;
    }
  }

  /** A lot registered from this page has coordinates in range, a city, a
      positive price, is available, and carries a photo exactly when the URL
      field was filled in; the store keeps no photo for an empty field either. */
  lemma OwnerLotIsSound(form: ListingFields, parse: string -> Option<real>, photoUrl: string,
                        ownerId: string)
    requires Valid(form, parse, true)
    ensures ValidDraftInputs(form, parse)
    ensures var d := SubmittedDraft(form, parse, PhotoOf(photoUrl));
      && -90.0 <= d.address.coordinates.latitude <= 90.0
      && -180.0 <= d.address.coordinates.longitude <= 180.0
      && !Text.IsBlank(d.address.city) && d.isAvailable && d.pricePerHour > 0.0
      && (d.photoUrl.Some? <==> photoUrl != "")
      && (InsertRow(d, ownerId).photoUrl.Some? <==> photoUrl != "")
  {
    ValidDraftIsSound(form, parse, true, PhotoOf(photoUrl));
  }
}
