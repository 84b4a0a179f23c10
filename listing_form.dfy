/** What the two parking-lot registration pages share: the form fields, the
    `validateForm` checks (the owner page also requires a city), the
    comma-separated amenity list and the lot handed to the store. Numbers are
    read with `parse`, which stands for `parseFloat`: `None` is `NaN`. */
module ListingForm {
  import opened Wrappers
  import opened Seqs
  import opened Text
  import opened ParkingProvider

  /** The text fields of a registration form, as typed. */
  datatype ListingFields = ListingFields(
    street: string, city: string, state: string, zipCode: string, country: string,
    latitude: string, longitude: string, instructions: string, pricePerHour: string,
    amenities: string)

  /** The keys of the pages' error dictionaries. */
  datatype Field = Street | City | State | ZipCode | Latitude | Longitude
                 | Instructions | PricePerHour | Image | FormField

  const StreetRequired := "Street address is required"
  const CityRequired := "City is required"
  const StateRequired := "State is required"
  const ZipCodeRequired := "Zip code is required"
  const CoordinatesRequired := "Coordinates are required"
  const LatitudeRange := "Latitude must be between -90 and 90"
  const LongitudeRange := "Longitude must be between -180 and 180"
  const InstructionsRequired := "Instructions are required"
  const PriceRequired := "Price per hour is required"
  const PriceNotPositive := "Price must be a positive number"
  const MustBeLoggedIn := "You must be logged in to register a parking lot"
  const RegisterFailed := "Failed to register parking lot. Please try again."
  const Registered := "Parking lot registered successfully! Redirecting..."

  /** A new form: every field empty except the country. */
  function EmptyFields(): (f: ListingFields)
    ensures f.country == "United States"
  {
    ListingFields("", "", "", "", "United States", "", "", "", "", "")
  }

  /** The number parses and lies in `[lo, hi]`; `NaN` never does. */
  predicate InRange(x: Option<real>, lo: real, hi: real)
  {
    x.Some? && lo <= x.value <= hi
  }

  /** Either coordinate is blank. */
  predicate CoordinatesMissing(f: ListingFields)
  {
    IsBlank(f.latitude) || IsBlank(f.longitude)
  }

  /** The message `validateForm` leaves under key `k`, field by field. */
  function FieldError(f: ListingFields, parse: string -> Option<real>, cityRequired: bool,
                      k: Field): Option<string>
  {
    match k
    case Street => if IsBlank(f.street) then Some(StreetRequired) else None
    case City => if cityRequired && IsBlank(f.city) then Some(CityRequired) else None
    case State => if IsBlank(f.state) then Some(StateRequired) else None
    case ZipCode => if IsBlank(f.zipCode) then Some(ZipCodeRequired) else None
    case Latitude =>
      if CoordinatesMissing(f) then Some(CoordinatesRequired)
      else if !InRange(parse(f.latitude), -90.0, 90.0) then Some(LatitudeRange)
      else None
    case Longitude =>
      if CoordinatesMissing(f) then Some(CoordinatesRequired)
      else if !InRange(parse(f.longitude), -180.0, 180.0) then Some(LongitudeRange)
      else None
    case Instructions => if IsBlank(f.instructions) then Some(InstructionsRequired) else None
    case PricePerHour =>
      if IsBlank(f.pricePerHour) then Some(PriceRequired)
      else if !(parse(f.pricePerHour).Some? && parse(f.pricePerHour).value > 0.0)
      then Some(PriceNotPositive)
      else None
    case Image => None
    case FormField => None
  }

  /** No field has an error. */
  predicate Valid(f: ListingFields, parse: string -> Option<real>, cityRequired: bool)
  {
    forall k: Field :: FieldError(f, parse, cityRequired, k).None?
  }

  /** The message under key `k`, if any. */
  function ErrorAt(errors: map<Field, string>, k: Field): Option<string>
  {
    if k in errors then Some(errors[k]) else None
  }

  /** `validateForm`'s error dictionary, filled one check at a time. */
  method ValidateForm(f: ListingFields, parse: string -> Option<real>, cityRequired: bool)
    returns (errors: map<Field, string>)
    ensures forall k :: ErrorAt(errors, k) == FieldError(f, parse, cityRequired, k)
    ensures |errors| == 0 <==> Valid(f, parse, cityRequired)
  {
    var e0 := CheckAddress(f, parse, cityRequired);
    var e1 := CheckCoordinates(e0, f, parse, cityRequired);
    assert ErrorAt(e1, Instructions) == ErrorAt(e0, Instructions);
    var e2 := CheckInstructions(e1, f, parse, cityRequired);
    assert ErrorAt(e2, PricePerHour) == ErrorAt(e0, PricePerHour);
    errors := CheckPrice(e2, f, parse, cityRequired);
    ChecksCompose(e0, e1, e2, errors, f, parse, cityRequired);
    NoKeysIffValid(errors, f, parse, cityRequired);
  }

  /** The four checks together set every key as `FieldError` says. */
  lemma ChecksCompose(e0: map<Field, string>, e1: map<Field, string>, e2: map<Field, string>,
                      errors: map<Field, string>, f: ListingFields,
                      parse: string -> Option<real>, cityRequired: bool)
    requires Latitude !in e0 && Longitude !in e0 && Instructions !in e0
    requires PricePerHour !in e0 && Image !in e0 && FormField !in e0
    requires ErrorAt(e0, Street) == FieldError(f, parse, cityRequired, Street)
    requires ErrorAt(e0, City) == FieldError(f, parse, cityRequired, City)
    requires ErrorAt(e0, State) == FieldError(f, parse, cityRequired, State)
    requires ErrorAt(e0, ZipCode) == FieldError(f, parse, cityRequired, ZipCode)
    requires forall k :: k != Latitude && k != Longitude ==> ErrorAt(e1, k) == ErrorAt(e0, k)
    requires ErrorAt(e1, Latitude) == FieldError(f, parse, cityRequired, Latitude)
    requires ErrorAt(e1, Longitude) == FieldError(f, parse, cityRequired, Longitude)
    requires forall k :: k != Instructions ==> ErrorAt(e2, k) == ErrorAt(e1, k)
    requires ErrorAt(e2, Instructions) == FieldError(f, parse, cityRequired, Instructions)
    requires forall k :: k != PricePerHour ==> ErrorAt(errors, k) == ErrorAt(e2, k)
    requires ErrorAt(errors, PricePerHour) == FieldError(f, parse, cityRequired, PricePerHour)
    ensures forall k :: ErrorAt(errors, k) == FieldError(f, parse, cityRequired, k)
  {
    forall k ensures ErrorAt(errors, k) == FieldError(f, parse, cityRequired, k) {
      match k
      case Street =>
      case City =>
      case State =>
      case ZipCode =>
      case Latitude =>
      case Longitude =>
      case Instructions =>
      case PricePerHour =>
      case Image =>
      case FormField =>
    }
  }

  /** A dictionary that agrees with `FieldError` on every key is empty
      exactly when the form is valid. */
  lemma NoKeysIffValid(errors: map<Field, string>, f: ListingFields, parse: string -> Option<real>,
                       cityRequired: bool)
    requires forall k :: ErrorAt(errors, k) == FieldError(f, parse, cityRequired, k)
    ensures |errors| == 0 <==> Valid(f, parse, cityRequired)
  {
    if |errors| == 0 {
      forall k: Field ensures FieldError(f, parse, cityRequired, k).None? {
        assert k !in errors;
        assert ErrorAt(errors, k).None?;
      }
    } else {
      var k :| k in errors;
      assert ErrorAt(errors, k).Some?;
    }
  }

  /** The four address checks; the city only when required. */
  method CheckAddress(f: ListingFields, parse: string -> Option<real>, cityRequired: bool)
    returns (errors: map<Field, string>)
    ensures Latitude !in errors && Longitude !in errors && Instructions !in errors
    ensures PricePerHour !in errors && Image !in errors && FormField !in errors
    ensures ErrorAt(errors, Street) == FieldError(f, parse, cityRequired, Street)
    ensures ErrorAt(errors, City) == FieldError(f, parse, cityRequired, City)
    ensures ErrorAt(errors, State) == FieldError(f, parse, cityRequired, State)
    ensures ErrorAt(errors, ZipCode) == FieldError(f, parse, cityRequired, ZipCode)
  {
    errors := map[];
    if IsBlank(f.street) {
      errors := errors[Street := StreetRequired];
    }
    if cityRequired && IsBlank(f.city) {
      errors := errors[City := CityRequired];
    }
    if IsBlank(f.state) {
      errors := errors[State := StateRequired];
    }
    if IsBlank(f.zipCode) {
      errors := errors[ZipCode := ZipCodeRequired];
    }
  }

  /** The coordinate checks: both keys get "required" when either is blank,
      otherwise each is range-checked on its own. */
  method CheckCoordinates(errors0: map<Field, string>, f: ListingFields,
                          parse: string -> Option<real>, cityRequired: bool)
    returns (errors: map<Field, string>)
    requires Latitude !in errors0 && Longitude !in errors0
    ensures forall k :: k != Latitude && k != Longitude ==> ErrorAt(errors, k) == ErrorAt(errors0, k)
    ensures ErrorAt(errors, Latitude) == FieldError(f, parse, cityRequired, Latitude)
    ensures ErrorAt(errors, Longitude) == FieldError(f, parse, cityRequired, Longitude)
  {
    errors := errors0;
    if IsBlank(f.latitude) || IsBlank(f.longitude) {
      errors := errors[Latitude := CoordinatesRequired];
      errors := errors[Longitude := CoordinatesRequired];
    } else {
      var lat := parse(f.latitude);
      var lng := parse(f.longitude);
      if lat.None? || lat.value < -90.0 || lat.value > 90.0 {
        errors := errors[Latitude := LatitudeRange];
      }
      if lng.None? || lng.value < -180.0 || lng.value > 180.0 {
        errors := errors[Longitude := LongitudeRange];
      }
    }
  }

  /** The instructions check. */
  method CheckInstructions(errors0: map<Field, string>, f: ListingFields,
                           parse: string -> Option<real>, cityRequired: bool)
    returns (errors: map<Field, string>)
    requires Instructions !in errors0
    ensures forall k :: k != Instructions ==> ErrorAt(errors, k) == ErrorAt(errors0, k)
    ensures ErrorAt(errors, Instructions) == FieldError(f, parse, cityRequired, Instructions)
  {
    errors := errors0;
    if IsBlank(f.instructions) {
      errors := errors[Instructions := InstructionsRequired];
    }
  }

  /** The price check: required, then a positive number. */
  method CheckPrice(errors0: map<Field, string>, f: ListingFields, parse: string -> Option<real>,
                    cityRequired: bool)
    returns (errors: map<Field, string>)
    requires PricePerHour !in errors0
    ensures forall k :: k != PricePerHour ==> ErrorAt(errors, k) == ErrorAt(errors0, k)
    ensures ErrorAt(errors, PricePerHour) == FieldError(f, parse, cityRequired, PricePerHour)
  {
    errors := errors0;
    if IsBlank(f.pricePerHour) {
      errors := errors[PricePerHour := PriceRequired];
    } else {
      var price := parse(f.pricePerHour);
      if price.None? || price.value <= 0.0 {
        errors := errors[PricePerHour := PriceNotPositive];
      }
    }
  }

  /** A form passes validation exactly when the required fields are not
      blank, both coordinates parse into range and the price parses to a
      positive number. */
  lemma ValidIff(f: ListingFields, parse: string -> Option<real>, cityRequired: bool)
    ensures Valid(f, parse, cityRequired) <==>
      && !IsBlank(f.street) && !IsBlank(f.state) && !IsBlank(f.zipCode)
      && (cityRequired ==> !IsBlank(f.city))
      && !IsBlank(f.instructions)
      && InRange(parse(f.latitude), -90.0, 90.0) && InRange(parse(f.longitude), -180.0, 180.0)
      && !IsBlank(f.latitude) && !IsBlank(f.longitude)
      && parse(f.pricePerHour).Some? && parse(f.pricePerHour).value > 0.0
      && !IsBlank(f.pricePerHour)
  {
    if Valid(f, parse, cityRequired) {
      assert FieldError(f, parse, cityRequired, Street).None?;
      assert FieldError(f, parse, cityRequired, City).None?;
      assert FieldError(f, parse, cityRequired, State).None?;
      assert FieldError(f, parse, cityRequired, ZipCode).None?;
      assert FieldError(f, parse, cityRequired, Latitude).None?;
      assert FieldError(f, parse, cityRequired, Longitude).None?;
      assert FieldError(f, parse, cityRequired, Instructions).None?;
      assert FieldError(f, parse, cityRequired, PricePerHour).None?;
    }
  }

  /** The owner page's check is the other page's check plus a city. */
  lemma CityOnlyDifference(f: ListingFields, parse: string -> Option<real>)
    ensures Valid(f, parse, true) <==> Valid(f, parse, false) && !IsBlank(f.city)
  {
    ValidIff(f, parse, true);
    ValidIff(f, parse, false);
  }

  /** `item.trim()` for every item. */
  function TrimAll(parts: seq<string>): seq<string>
  {
    seq(|parts|, i requires 0 <= i < |parts| => Trim(parts[i]))
  }

  /** Item by item, `TrimAll` trims. */
  lemma TrimAllAt(parts: seq<string>)
    ensures |TrimAll(parts)| == |parts|
    ensures forall i :: 0 <= i < |parts| ==> TrimAll(parts)[i] == Trim(parts[i])
  {
  }

  function NonEmpty(s: string): bool { s != "" }

  /** `amenities.split(',').map(item => item.trim()).filter(Boolean)`. */
  function ParseAmenities(s: string): seq<string>
  {
    Filter(TrimAll(Split(s, ',')), NonEmpty)
  }

  /** The tags are non-empty, trimmed and comma-free, and a text is a tag
      exactly when it is a non-empty trimmed piece of the text between
      commas. */
  lemma AmenityTags(s: string)
    ensures forall t :: t in ParseAmenities(s) ==> t != "" && IsTrimmed(t) && ',' !in t
    ensures forall t :: t in ParseAmenities(s) <==> t != "" && TrimsSomePiece(t, Split(s, ','))
  {
    TrimmedPieces(Split(s, ','));
  }

  /** `t` is one of the pieces, trimmed. */
  predicate TrimsSomePiece(t: string, parts: seq<string>)
  {
    exists p :: p in parts && t == Trim(p)
  }

  /** Trimming comma-free pieces gives trimmed comma-free pieces, and a text
      is among them exactly when it trims some piece. */
  lemma TrimmedPieces(parts: seq<string>)
    requires forall k :: 0 <= k < |parts| ==> ',' !in parts[k]
    ensures forall t :: t in TrimAll(parts) ==> IsTrimmed(t) && ',' !in t
    ensures forall t :: t in TrimAll(parts) <==> TrimsSomePiece(t, parts)
  {
    var trimmed := TrimAll(parts);
    TrimAllAt(parts);
    forall t | t in trimmed ensures IsTrimmed(t) && ',' !in t {
      var i :| 0 <= i < |trimmed| && trimmed[i] == t;
      TrimIsTrimmed(parts[i]);
      TrimKeepsChars(parts[i]);
    }
    forall t | TrimsSomePiece(t, parts) ensures t in trimmed {
      var p :| p in parts && t == Trim(p);
      var i :| 0 <= i < |parts| && parts[i] == p;
      assert trimmed[i] == t;
    }
  }

  /** A list of trimmed, non-empty, comma-free tags written with commas reads
      back as the same list. */
  lemma {:induction false} AmenitiesRoundTrip(tags: seq<string>)
    requires forall i :: 0 <= i < |tags| ==> tags[i] != "" && IsTrimmed(tags[i]) && ',' !in tags[i]
    ensures ParseAmenities(Join(tags, ",")) == tags
  {
    if tags == [] {
      assert Split("", ',') == [""];
      assert TrimAll([""]) == [""];
      return;
    }
    SplitJoin(tags, ',');
    assert Split(Join(tags, ","), ',') == tags;
    forall i | 0 <= i < |tags| ensures Trim(tags[i]) == tags[i] {
      TrimOfTrimmed(tags[i]);
    }
    TrimAllAt(tags);
    assert TrimAll(tags) == tags;
    FilterKeepsAll(tags, NonEmpty);
  }

  lemma {:induction false} FilterKeepsAll(xs: seq<string>, keep: string -> bool)
    requires forall i :: 0 <= i < |xs| ==> keep(xs[i])
    ensures Filter(xs, keep) == xs
  {
    if xs != [] {
      FilterKeepsAll(xs[1..], keep);
    }
  }

  /** The three numbers the lot is built from parse. */
  predicate ValidDraftInputs(f: ListingFields, parse: string -> Option<real>)
  {
    parse(f.latitude).Some? && parse(f.longitude).Some? && parse(f.pricePerHour).Some?
  }

  /** The lot a registration page hands to the store. Coordinates and price
      are the parsed values; the lot is always created available. */
  function SubmittedDraft(f: ListingFields, parse: string -> Option<real>,
                          photoUrl: Option<string>): (d: LotDraft)
    requires ValidDraftInputs(f, parse)
    ensures d.isAvailable
    ensures d.address == Address(f.street, f.city, f.state, f.zipCode, f.country,
                                 Coordinates(parse(f.latitude).value, parse(f.longitude).value))
    ensures d.pricePerHour == parse(f.pricePerHour).value
    ensures d.amenities == ParseAmenities(f.amenities)
    ensures d.photoUrl == photoUrl && d.instructions == f.instructions
  {
    LotDraft(Address(f.street, f.city, f.state, f.zipCode, f.country,
                     Coordinates(parse(f.latitude).value, parse(f.longitude).value)),
             f.instructions, photoUrl, true, parse(f.pricePerHour).value,
             ParseAmenities(f.amenities), None, None)
  }

  /** Whatever passes validation is submitted with coordinates in range, a
      positive price and non-blank required fields. */
  lemma ValidDraftIsSound(f: ListingFields, parse: string -> Option<real>, cityRequired: bool,
                          photoUrl: Option<string>)
    requires Valid(f, parse, cityRequired)
    ensures ValidDraftInputs(f, parse)
    ensures var d := SubmittedDraft(f, parse, photoUrl);
      && -90.0 <= d.address.coordinates.latitude <= 90.0
      && -180.0 <= d.address.coordinates.longitude <= 180.0
      && d.pricePerHour > 0.0
      && !IsBlank(d.address.street) && !IsBlank(d.address.state) && !IsBlank(d.address.zipCode)
      && (cityRequired ==> !IsBlank(d.address.city))
      && !IsBlank(d.instructions)
  {
    ValidIff(f, parse, cityRequired);
  }

  /** The end of both registration pages' submit: `addParkingLot(parkingLotData)`,
      then the form error when the insert fails, or the success message when
      the lot is stored. `errors0` and `message0` are what the page shows before. */
  method SubmitDraft(draft: LotDraft, store: Store, userId: string, reply: Result<InsertedLot>,
                     errors0: map<Field, string>, message0: string)
    returns (errors: map<Field, string>, message: string)
    requires store.userId == Some(userId)
    modifies store
    ensures store.userId == old(store.userId) && store.bookings == old(store.bookings)
    ensures reply.Err? ==>
              && errors == map[FormField := RegisterFailed] && message == message0
              && store.parkingLots == old(store.parkingLots)
    ensures reply.Ok? ==>
              && errors == errors0 && message == Registered
              && store.parkingLots == old(store.parkingLots)
                   + [FormatLot(reply.value.id, InsertRow(draft, userId), reply.value.owner)]
  {
    errors, message := errors0, message0;
    var lot, sent := store.AddParkingLot(draft, reply);
    if lot.Some? {
      message := Registered;
    } else {
      errors := map[FormField := RegisterFailed];
    }
  }
}
