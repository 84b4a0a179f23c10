/** The application-wide parking store: the in-memory lists of parking lots
    and bookings, kept in step with the hosted database by each operation.
    Every database call is a parameter (`reply`): the model receives its answer
    instead of performing it. */
module ParkingProvider {
  import opened Wrappers
  import opened Seqs

  datatype Coordinates = Coordinates(latitude: real, longitude: real)

  datatype Address = Address(street: string, city: string, state: string, zipCode: string,
                             country: string, coordinates: Coordinates)

  datatype ParkingLot = ParkingLot(
    id: string, ownerId: string, ownerName: string, ownerEmail: string, ownerPhone: string,
    address: Address, instructions: string, photoUrl: Option<string>, isAvailable: bool,
    pricePerHour: real, amenities: seq<string>,
    accessInstructions: Option<string>, notes: Option<string>)

  /** The five statuses the bookings table accepts. */
  datatype BookingStatus = Pending | Confirmed | Paid | Completed | Cancelled

  /** A booking; `startTime` is in milliseconds since the epoch, `duration` in
      hours. `ownerId` is `None` where the code stores `undefined`. */
  datatype Booking = Booking(
    id: string, parkingLotId: string, parkingLotAddress: string,
    renterId: string, renterName: string, ownerId: Option<string>, ownerName: string,
    startTime: int, duration: real, price: real, status: BookingStatus)

  /** What a registration page hands to `addParkingLot`: a lot without its id.
      The owner fields the pages also pass are never read, so they are not here. */
  datatype LotDraft = LotDraft(
    address: Address, instructions: string, photoUrl: Option<string>, isAvailable: bool,
    pricePerHour: real, amenities: seq<string>,
    accessInstructions: Option<string>, notes: Option<string>)

  /** A row of the `parking_lots` table (without its id). */
  datatype LotRow = LotRow(
    ownerId: string, street: string, city: string, state: string, zipCode: string,
    country: string, latitude: real, longitude: real, instructions: string,
    photoUrl: Option<string>, isAvailable: bool, pricePerHour: real, amenities: seq<string>,
    accessInstructions: Option<string>, notes: Option<string>)

  /** The owner's `users` row joined to a lot by `owner_id`. */
  datatype OwnerJoin = OwnerJoin(name: string, email: string, phone: Option<string>)

  /** What the database adds when it stores a new lot: its id and the owner join. */
  datatype InsertedLot = InsertedLot(id: string, owner: OwnerJoin)

  /** The fields a caller of `updateParkingLot` may provide. Address strings are
      tested for truthiness, so "" stands for "not provided". */
  datatype AddressPatch = AddressPatch(street: string, city: string, state: string,
                                       zipCode: string, country: string,
                                       coordinates: Option<Coordinates>)

  datatype LotPatch = LotPatch(
    address: Option<AddressPatch>, instructions: Option<string>, photoUrl: Option<string>,
    isAvailable: Option<bool>, pricePerHour: Option<real>, amenities: Option<seq<string>>,
    accessInstructions: Option<string>, notes: Option<string>)

  /** The column assignments sent with an update; `None` means "column not sent". */
  datatype UpdatePayload = UpdatePayload(
    street: Option<string>, city: Option<string>, state: Option<string>,
    zipCode: Option<string>, country: Option<string>,
    latitude: Option<real>, longitude: Option<real>,
    instructions: Option<string>, photoUrl: Option<string>, isAvailable: Option<bool>,
    pricePerHour: Option<real>, amenities: Option<seq<string>>,
    accessInstructions: Option<string>, notes: Option<string>)

  /** The row sent to the `bookings` table by `requestBooking`. */
  datatype BookingInsert = BookingInsert(
    parkingLotId: string, renterId: string, startTime: int, duration: real, price: real,
    status: BookingStatus)

  /** What the database adds when it stores a booking: its id and the joined
      lot address, renter name and owner name (the owner's id is not selected). */
  datatype InsertedBooking = InsertedBooking(
    id: string, lotStreet: string, lotCity: string, lotState: string,
    renterName: string, ownerName: string)

  const MillisPerHour: int := 1000 * 60 * 60

  /** `x || null` / `x || undefined` on an optional string: "" is falsy. */
  function Truthy(s: Option<string>): (r: Option<string>)
    ensures r.Some? <==> s.Some? && s.value != ""
    ensures r.Some? ==> r == s
  {
    if s == Some("") then None else s
  }

  /** The row `addParkingLot` inserts: the owner is the authenticated user, never
      a field of the draft. */
  function InsertRow(draft: LotDraft, ownerId: string): LotRow
  {
    LotRow(ownerId, draft.address.street, draft.address.city, draft.address.state,
           draft.address.zipCode, draft.address.country,
           draft.address.coordinates.latitude, draft.address.coordinates.longitude,
           draft.instructions, Truthy(draft.photoUrl), draft.isAvailable, draft.pricePerHour,
           draft.amenities, Truthy(draft.accessInstructions), Truthy(draft.notes))
  }

  /** A stored row as the store lists it. */
  function FormatLot(id: string, row: LotRow, owner: OwnerJoin): ParkingLot
  {
    ParkingLot(id, row.ownerId, owner.name, owner.email,
               match owner.phone case Some(p) => p case None => "",
               Address(row.street, row.city, row.state, row.zipCode, row.country,
                       Coordinates(row.latitude, row.longitude)),
               row.instructions, Truthy(row.photoUrl), row.isAvailable, row.pricePerHour,
               row.amenities, Truthy(row.accessInstructions), Truthy(row.notes))
  }

  /** The stored row behind a listed lot. */
  function RowOf(lot: ParkingLot): LotRow
  {
    LotRow(lot.ownerId, lot.address.street, lot.address.city, lot.address.state,
           lot.address.zipCode, lot.address.country,
           lot.address.coordinates.latitude, lot.address.coordinates.longitude,
           lot.instructions, lot.photoUrl, lot.isAvailable, lot.pricePerHour,
           lot.amenities, lot.accessInstructions, lot.notes)
  }

  /** How the database applies an update: sent columns are overwritten, the
      others keep their stored value. */
  function ApplyPayload(row: LotRow, d: UpdatePayload): LotRow
  {
    LotRow(row.ownerId,
           GetOr(d.street, row.street), GetOr(d.city, row.city), GetOr(d.state, row.state),
           GetOr(d.zipCode, row.zipCode), GetOr(d.country, row.country),
           GetOr(d.latitude, row.latitude), GetOr(d.longitude, row.longitude),
           GetOr(d.instructions, row.instructions),
           if d.photoUrl.Some? then d.photoUrl else row.photoUrl,
           GetOr(d.isAvailable, row.isAvailable), GetOr(d.pricePerHour, row.pricePerHour),
           GetOr(d.amenities, row.amenities),
           if d.accessInstructions.Some? then d.accessInstructions else row.accessInstructions,
           if d.notes.Some? then d.notes else row.notes)
  }

  function GetOr<T>(o: Option<T>, default: T): T
  {
    match o case Some(v) => v case None => default
  }

  /** The update payload: a column is sent only when the caller provided it;
      address strings only when non-empty; latitude and longitude together. */
  function UpdateData(p: LotPatch): (d: UpdatePayload)
    ensures d.street.Some? <==> p.address.Some? && p.address.value.street != ""
    ensures d.city.Some? <==> p.address.Some? && p.address.value.city != ""
    ensures d.state.Some? <==> p.address.Some? && p.address.value.state != ""
    ensures d.zipCode.Some? <==> p.address.Some? && p.address.value.zipCode != ""
    ensures d.country.Some? <==> p.address.Some? && p.address.value.country != ""
    ensures d.street.Some? ==> d.street.value == p.address.value.street
    ensures d.city.Some? ==> d.city.value == p.address.value.city
    ensures d.state.Some? ==> d.state.value == p.address.value.state
    ensures d.zipCode.Some? ==> d.zipCode.value == p.address.value.zipCode
    ensures d.country.Some? ==> d.country.value == p.address.value.country
    ensures d.latitude.Some? <==> d.longitude.Some?
    ensures d.latitude.Some? <==> p.address.Some? && p.address.value.coordinates.Some?
    ensures d.latitude.Some? ==>
              && d.latitude.value == p.address.value.coordinates.value.latitude
              && d.longitude.value == p.address.value.coordinates.value.longitude
    ensures d.instructions == p.instructions && d.photoUrl == p.photoUrl
    ensures d.isAvailable == p.isAvailable && d.pricePerHour == p.pricePerHour
    ensures d.amenities == p.amenities
    ensures d.accessInstructions == p.accessInstructions && d.notes == p.notes
  {
    var a := p.address;
    UpdatePayload(
      if a.Some? && a.value.street != "" then Some(a.value.street) else None,
      if a.Some? && a.value.city != "" then Some(a.value.city) else None,
      if a.Some? && a.value.state != "" then Some(a.value.state) else None,
      if a.Some? && a.value.zipCode != "" then Some(a.value.zipCode) else None,
      if a.Some? && a.value.country != "" then Some(a.value.country) else None,
      if a.Some? && a.value.coordinates.Some? then Some(a.value.coordinates.value.latitude) else None,
      if a.Some? && a.value.coordinates.Some? then Some(a.value.coordinates.value.longitude) else None,
      p.instructions, p.photoUrl, p.isAvailable, p.pricePerHour, p.amenities,
      p.accessInstructions, p.notes)
  }

  /** `(end.getTime() - start.getTime()) / (1000 * 60 * 60)`. */
  function HoursBetween(startTime: int, endTime: int): real
  {
    (endTime - startTime) as real / MillisPerHour as real
  }

  /** The row `requestBooking` inserts: the duration is the span in hours, the
      price the hourly rate times that duration, and the status pending. */
  function BookingRequest(parkingLotId: string, renterId: string, startTime: int, endTime: int,
                          rate: real): (row: BookingInsert)
    ensures row.parkingLotId == parkingLotId && row.renterId == renterId
    ensures row.startTime == startTime && row.status == Pending
    ensures row.duration * MillisPerHour as real == (endTime - startTime) as real
    ensures row.price == rate * row.duration
  {
    var hours := HoursBetween(startTime, endTime);
    BookingInsert(parkingLotId, renterId, startTime, hours, rate * hours, Pending)
  }

  /** `${street}, ${city}, ${state}`. */
  function DisplayAddress(street: string, city: string, state: string): string
  {
    street + ", " + city + ", " + state
  }

  /** The booking `requestBooking` keeps: the inserted row, what the database
      joined to it, and the owner id it records. */
  function StoredBooking(row: BookingInsert, j: InsertedBooking, ownerId: Option<string>): Booking
  {
    Booking(j.id, row.parkingLotId, DisplayAddress(j.lotStreet, j.lotCity, j.lotState),
            row.renterId, j.renterName, ownerId, j.ownerName,
            row.startTime, row.duration, row.price, row.status)
  }

  /** The new booking as the code builds it: the owner id is read from the
      joined owner, whose only selected column is the name, so it is undefined
      and the owner bookings filter hides the booking from every signed-in
      owner, the lot's own owner included. */
  function RequestedBookingAsWritten(row: BookingInsert, j: InsertedBooking): (b: Booking)
    ensures forall u: string :: !BookingOwnerIs(Some(u))(b)
  {
    StoredBooking(row, j, None)
  }

  /** The new booking with the owner id `getMyBookings` gives it, the owner of
      the booked lot: exactly that owner, signed in, sees it. */
  function RequestedBooking(row: BookingInsert, j: InsertedBooking, lot: ParkingLot): (b: Booking)
    ensures forall userId :: BookingOwnerIs(userId)(b) <==> userId == Some(lot.ownerId)
  {
    StoredBooking(row, j, Some(lot.ownerId))
  }

  /** The owner bookings filter `booking.ownerId === user?.id`; with no user
      signed in `user?.id` is undefined as well. */
  function BookingOwnerIs(userId: Option<string>): Booking -> bool
  {
    (b: Booking) => b.ownerId == userId
  }

  function LotIdIs(id: string): ParkingLot -> bool
  {
    (lot: ParkingLot) => lot.id == id
  }

  function BookingIdIs(id: string): Booking -> bool
  {
    (b: Booking) => b.id == id
  }

  function OwnedBy(userId: string): ParkingLot -> bool
  {
    (lot: ParkingLot) => lot.ownerId == userId
  }

  function WithStatus(s: BookingStatus): Booking -> Booking
  {
    (b: Booking) => b.(status := s)
  }

  function WithAvailability(a: bool): ParkingLot -> ParkingLot
  {
    (lot: ParkingLot) => lot.(isAvailable := a)
  }

  function Replacement(lot: ParkingLot): ParkingLot -> ParkingLot
  {
    (_: ParkingLot) => lot
  }

  /** `prev.map(b => b.id === id ? { ...b, status } : b)`. */
  function SetStatusById(bookings: seq<Booking>, id: string, s: BookingStatus): seq<Booking>
  {
    MapWhere(bookings, BookingIdIs(id), WithStatus(s))
  }

  /** `prev.map(lot => lot.id === id ? { ...lot, isAvailable } : lot)`. */
  function SetAvailabilityById(lots: seq<ParkingLot>, id: string, a: bool): seq<ParkingLot>
  {
    MapWhere(lots, LotIdIs(id), WithAvailability(a))
  }

  /** A status update rewrites the status of every booking carrying that id and
      nothing else: list length and order, the other fields of the target and
      every other booking are unchanged, whatever the old status was. */
  lemma StatusUpdateTouchesOnlyTarget(bookings: seq<Booking>, id: string, s: BookingStatus)
    ensures var r := SetStatusById(bookings, id, s);
      && |r| == |bookings|
      && (forall i :: 0 <= i < |r| && bookings[i].id == id ==> r[i] == bookings[i].(status := s))
      && (forall i :: 0 <= i < |r| && bookings[i].id != id ==> r[i] == bookings[i])
  {
    var r := SetStatusById(bookings, id, s);
    forall i | 0 <= i < |r|
      ensures bookings[i].id == id ==> r[i] == bookings[i].(status := s)
      ensures bookings[i].id != id ==> r[i] == bookings[i]
    {
      assert BookingIdIs(id)(bookings[i]) <==> bookings[i].id == id;
    }
  }

  /** Flipping availability changes only `isAvailable` of the lots with that id. */
  lemma AvailabilityTouchesOnlyTarget(lots: seq<ParkingLot>, id: string, a: bool)
    ensures var r := SetAvailabilityById(lots, id, a);
      && |r| == |lots|
      && (forall i :: 0 <= i < |r| && lots[i].id == id ==> r[i] == lots[i].(isAvailable := a))
      && (forall i :: 0 <= i < |r| && lots[i].id != id ==> r[i] == lots[i])
  {
    var r := SetAvailabilityById(lots, id, a);
    forall i | 0 <= i < |r|
      ensures lots[i].id == id ==> r[i] == lots[i].(isAvailable := a)
      ensures lots[i].id != id ==> r[i] == lots[i]
    {
      assert LotIdIs(id)(lots[i]) <==> lots[i].id == id;
    }
  }

  /** An update leaves the identity and owner of a lot alone and keeps every
      field whose column was not sent. */
  lemma UpdateKeepsUnsentFields(lot: ParkingLot, p: LotPatch)
    ensures var u := FormatLot(lot.id, ApplyPayload(RowOf(lot), UpdateData(p)),
                               OwnerJoin(lot.ownerName, lot.ownerEmail, Some(lot.ownerPhone)));
      && u.id == lot.id && u.ownerId == lot.ownerId && u.ownerName == lot.ownerName
      && (p.address.None? ==> u.address == lot.address)
      && (p.pricePerHour.None? ==> u.pricePerHour == lot.pricePerHour)
      && (p.pricePerHour.Some? ==> u.pricePerHour == p.pricePerHour.value)
      && (p.isAvailable.None? ==> u.isAvailable == lot.isAvailable)
      && (p.amenities.None? ==> u.amenities == lot.amenities)
      && (p.instructions.None? ==> u.instructions == lot.instructions)
  {
  }

  /** The parking store. `userId` is the authenticated user's id, if any. */
  class Store {
    var parkingLots: seq<ParkingLot>
    var bookings: seq<Booking>
    var loading: bool
    var userId: Option<string>

    constructor (userId: Option<string>)
      ensures this.userId == userId
      ensures parkingLots == [] && bookings == [] && !loading
    {
      this.userId := userId;
      parkingLots := [];
      bookings := [];
      loading := false;
    }

    /** `getParkingLotById`: the first lot with that id, or null. */
    function GetParkingLotById(id: string): (r: Option<ParkingLot>)
      reads this`parkingLots
      ensures r.None? <==> forall i :: 0 <= i < |parkingLots| ==> parkingLots[i].id != id
      ensures r.Some? ==> exists k :: 0 <= k < |parkingLots| && parkingLots[k] == r.value
                            && r.value.id == id
                            && forall j :: 0 <= j < k ==> parkingLots[j].id != id
    {
      FindFirst(parkingLots, LotIdIs(id))
    }

    /** `getBookingById`: the first booking with that id, or null. */
    function GetBookingById(id: string): (r: Option<Booking>)
      reads this`bookings
      ensures r.None? <==> forall i :: 0 <= i < |bookings| ==> bookings[i].id != id
      ensures r.Some? ==> exists k :: 0 <= k < |bookings| && bookings[k] == r.value
                            && r.value.id == id
                            && forall j :: 0 <= j < k ==> bookings[j].id != id
    {
      FindFirst(bookings, BookingIdIs(id))
    }

    /** `myParkingLots`: the lots whose owner is the signed-in user, in order;
        nothing when nobody is signed in. */
    function MyParkingLots(): (r: seq<ParkingLot>)
      reads this`parkingLots, this`userId
      ensures forall lot :: lot in r <==> lot in parkingLots && userId.Some? && lot.ownerId == userId.value
      ensures forall lot :: multiset(r)[lot] ==
                if userId.Some? && lot.ownerId == userId.value then multiset(parkingLots)[lot] else 0
      ensures IsSubsequence(r, parkingLots)
    {
      match userId
      case None => []
      case Some(u) => Filter(parkingLots, OwnedBy(u))
    }

    /** `addParkingLot`: refuses without a signed-in user; otherwise inserts the
        draft with the user as owner and, if the database stores it, appends the
        stored lot at the end of the list. */
    method AddParkingLot(draft: LotDraft, reply: Result<InsertedLot>)
      returns (r: Option<ParkingLot>, sent: Option<LotRow>)
      modifies this
      ensures userId == old(userId) && bookings == old(bookings) && !loading
      ensures userId.None? ==> sent.None?
      ensures userId.Some? ==> sent == Some(InsertRow(draft, userId.value))
      ensures userId.None? || reply.Err? ==> r.None? && parkingLots == old(parkingLots)
      ensures userId.Some? && reply.Ok? ==>
        && r == Some(FormatLot(reply.value.id, sent.value, reply.value.owner))
        && r.value.ownerId == userId.value
        && r.value.address == draft.address
        && r.value.pricePerHour == draft.pricePerHour
        && r.value.isAvailable == draft.isAvailable
        && r.value.amenities == draft.amenities
        && r.value.photoUrl == Truthy(draft.photoUrl)
        && parkingLots == old(parkingLots) + [r.value]
    {
      loading := true;
      r, sent := None, None;
      if userId.Some? {
        var row := InsertRow(draft, userId.value);
        sent := Some(row);
        if reply.Ok? {
          var lot := FormatLot(reply.value.id, row, reply.value.owner);
          parkingLots := parkingLots + [lot];
          r := Some(lot);
        }
      }
      loading := false;
    }

    /** The payload of `updateParkingLot`, assembled one column at a time. */
    static method BuildUpdateData(p: LotPatch) returns (d: UpdatePayload)
      ensures d == UpdateData(p)
    {
      d := UpdatePayload(None, None, None, None, None, None, None,
                         None, None, None, None, None, None, None);
      if p.address.Some? {
        d := AddAddressColumns(d, p.address.value);
      }
      d := AddLotColumns(d, p);
    }

    /** The non-address part of the payload: each column the caller provided. */
    static method AddLotColumns(d0: UpdatePayload, p: LotPatch) returns (d: UpdatePayload)
      ensures d == d0.(instructions := p.instructions, photoUrl := p.photoUrl,
                       isAvailable := p.isAvailable, pricePerHour := p.pricePerHour,
                       amenities := p.amenities, accessInstructions := p.accessInstructions,
                       notes := p.notes)
      requires d0.instructions.None? && d0.photoUrl.None? && d0.isAvailable.None?
      requires d0.pricePerHour.None? && d0.amenities.None?
      requires d0.accessInstructions.None? && d0.notes.None?
    {
      d := d0;
      if p.instructions.Some? { d := d.(instructions := p.instructions); }
      if p.photoUrl.Some? { d := d.(photoUrl := p.photoUrl); }
      if p.isAvailable.Some? { d := d.(isAvailable := p.isAvailable); }
      if p.pricePerHour.Some? { d := d.(pricePerHour := p.pricePerHour); }
      if p.amenities.Some? { d := d.(amenities := p.amenities); }
      if p.accessInstructions.Some? { d := d.(accessInstructions := p.accessInstructions); }
      if p.notes.Some? { d := d.(notes := p.notes); }
    }

    /** The address part of the payload: each non-empty string, and the two
        coordinates together. */
    static method AddAddressColumns(d0: UpdatePayload, a: AddressPatch) returns (d: UpdatePayload)
      ensures d == UpdateData(LotPatch(Some(a), None, None, None, None, None, None, None))
                   .(instructions := d0.instructions, photoUrl := d0.photoUrl,
                     isAvailable := d0.isAvailable, pricePerHour := d0.pricePerHour,
                     amenities := d0.amenities, accessInstructions := d0.accessInstructions,
                     notes := d0.notes)
      requires d0.street.None? && d0.city.None? && d0.state.None? && d0.zipCode.None?
      requires d0.country.None? && d0.latitude.None? && d0.longitude.None?
    {
      d := d0;
      if a.street != "" { d := d.(street := Some(a.street)); }
      if a.city != "" { d := d.(city := Some(a.city)); }
      if a.state != "" { d := d.(state := Some(a.state)); }
      if a.zipCode != "" { d := d.(zipCode := Some(a.zipCode)); }
      if a.country != "" { d := d.(country := Some(a.country)); }
      if a.coordinates.Some? {
        d := d.(latitude := Some(a.coordinates.value.latitude));
        d := d.(longitude := Some(a.coordinates.value.longitude));
      }
    }

    /** `updateParkingLot`: refuses, before writing anything, when nobody is
        signed in, the id is unknown or the lot belongs to someone else;
        otherwise sends the payload and, if the database accepts it, replaces
        the lot in the list by the updated one. */
    method UpdateParkingLot(id: string, patch: LotPatch, reply: Outcome)
      returns (r: Option<ParkingLot>, sent: Option<UpdatePayload>)
      modifies this
      ensures userId == old(userId) && bookings == old(bookings) && !loading
      ensures var existing := old(GetParkingLotById(id));
        && ((userId.None? || existing.None? || existing.value.ownerId != userId.value) ==>
              sent.None? && r.None? && parkingLots == old(parkingLots))
        && (userId.Some? && existing.Some? && existing.value.ownerId == userId.value ==>
              && sent == Some(UpdateData(patch))
              && (reply.Fail? ==> r.None? && parkingLots == old(parkingLots))
              && (reply.Pass? ==>
                    var lot := existing.value;
                    && r == Some(FormatLot(id, ApplyPayload(RowOf(lot), sent.value),
                                           OwnerJoin(lot.ownerName, lot.ownerEmail, Some(lot.ownerPhone))))
                    && parkingLots == MapWhere(old(parkingLots), LotIdIs(id), Replacement(r.value))))
    {
      loading := true;
      r, sent := None, None;
      var existing := GetParkingLotById(id);
      if userId.Some? && existing.Some? && existing.value.ownerId == userId.value {
        var d := BuildUpdateData(patch);
        sent := Some(d);
        if reply.Pass? {
          var lot := existing.value;
          var updated := FormatLot(id, ApplyPayload(RowOf(lot), d),
                                   OwnerJoin(lot.ownerName, lot.ownerEmail, Some(lot.ownerPhone)));
          parkingLots := MapWhere(parkingLots, LotIdIs(id), Replacement(updated));
          r := Some(updated);
        }
      }
      loading := false;
    }

    /** `updateParkingLotAvailability`: on success only `isAvailable` of the
        matching lot changes; on a database error nothing changes. */
    method UpdateParkingLotAvailability(id: string, isAvailable: bool, reply: Outcome)
      returns (ok: bool)
      modifies this
      ensures userId == old(userId) && bookings == old(bookings) && !loading
      ensures ok <==> reply.Pass?
      ensures parkingLots == if ok then SetAvailabilityById(old(parkingLots), id, isAvailable)
                             else old(parkingLots)
    {
      loading := true;
      ok := reply.Pass?;
      if ok {
        parkingLots := SetAvailabilityById(parkingLots, id, isAvailable);
      }
      loading := false;
    }

    /** `requestBooking`: unknown lot gives null without any insert; otherwise
        the duration is the span in hours, the price is rate times hours and the
        inserted booking is pending; a stored booking is appended to the list. */
    method RequestBooking(parkingLotId: string, startTime: int, endTime: int,
                          renterId: string, reply: Result<InsertedBooking>)
      returns (r: Option<Booking>, sent: Option<BookingInsert>)
      modifies this
      ensures userId == old(userId) && parkingLots == old(parkingLots) && !loading
      ensures GetParkingLotById(parkingLotId).None? ==>
                r.None? && sent.None? && bookings == old(bookings)
      ensures GetParkingLotById(parkingLotId).Some? ==>
                sent == Some(BookingRequest(parkingLotId, renterId, startTime, endTime,
                                            GetParkingLotById(parkingLotId).value.pricePerHour))
      ensures reply.Err? ==> r.None? && bookings == old(bookings)
      ensures GetParkingLotById(parkingLotId).Some? && reply.Ok? ==>
                && r.Some?
                && r.value.id == reply.value.id
                && r.value.parkingLotId == sent.value.parkingLotId
                && r.value.renterId == sent.value.renterId
                && r.value.startTime == sent.value.startTime
                && r.value.duration == sent.value.duration
                && r.value.price == sent.value.price
                && r.value.status == sent.value.status
                && r.value.parkingLotAddress
                     == DisplayAddress(reply.value.lotStreet, reply.value.lotCity, reply.value.lotState)
                && r.value.renterName == reply.value.renterName
                && r.value.ownerName == reply.value.ownerName
                && r.value.ownerId == Some(GetParkingLotById(parkingLotId).value.ownerId)
                && bookings == old(bookings) + [r.value]
    {
      loading := true;
      r, sent := None, None;
      var lot := GetParkingLotById(parkingLotId);
      if lot.Some? {
        var row := BookingRequest(parkingLotId, renterId, startTime, endTime, lot.value.pricePerHour);
        sent := Some(row);
        if reply.Ok? {
          var booking := RequestedBooking(row, reply.value, lot.value);
          bookings := bookings + [booking];
          r := Some(booking);
        }
      }
      loading := false;
    }

    /** `updateBookingStatus`: any status may be written over any status. On
        success the bookings with that id take the new status and nothing else
        changes; on a database error the list is untouched. */
    method UpdateBookingStatus(bookingId: string, status: BookingStatus, reply: Outcome)
      modifies this
      ensures userId == old(userId) && parkingLots == old(parkingLots) && !loading
      ensures bookings == if reply.Pass? then SetStatusById(old(bookings), bookingId, status)
                          else old(bookings)
    {
      loading := true;
      if reply.Pass? {
        bookings := SetStatusById(bookings, bookingId, status);
      }
      loading := false;
    }

    /** `confirmBooking`: `updateBookingStatus(id, 'confirmed')`. */
    method ConfirmBooking(bookingId: string, reply: Outcome)
      modifies this
      ensures userId == old(userId) && parkingLots == old(parkingLots) && !loading
      ensures bookings == if reply.Pass? then SetStatusById(old(bookings), bookingId, Confirmed)
                          else old(bookings)
    {
      UpdateBookingStatus(bookingId, Confirmed, reply);
    }

    /** `declineBooking`: `updateBookingStatus(id, 'cancelled')`; there is no
        separate declined status. */
    method DeclineBooking(bookingId: string, reply: Outcome)
      modifies this
      ensures userId == old(userId) && parkingLots == old(parkingLots) && !loading
      ensures bookings == if reply.Pass? then SetStatusById(old(bookings), bookingId, Cancelled)
                          else old(bookings)
    {
      UpdateBookingStatus(bookingId, Cancelled, reply);
    }

    /** `payBooking`: `updateBookingStatus(id, 'paid')`, whatever the current status. */
    method PayBooking(bookingId: string, reply: Outcome)
      modifies this
      ensures userId == old(userId) && parkingLots == old(parkingLots) && !loading
      ensures bookings == if reply.Pass? then SetStatusById(old(bookings), bookingId, Paid)
                          else old(bookings)
    {
      UpdateBookingStatus(bookingId, Paid, reply);
    }
  }
}
