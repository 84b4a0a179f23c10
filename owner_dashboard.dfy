/** The owner dashboard: who may see it, which booking requests it lists, the
    end time it prints for each, and the per-id loading flags it keeps around
    each call into the parking store. */
module OwnerDashboard {
  import opened Wrappers
  import opened Seqs
  import opened ParkingProvider

  /** What the page renders. */
  datatype View = SignInPrompt | OwnersOnly | OwnerContent

  /** The sign-in prompt without a user, the owners-only notice for any
      profile whose `user_type` is not "owner" (a missing profile included),
      and the owner content otherwise. */
  function DashboardView(userId: Option<string>, userType: Option<string>): (v: View)
    ensures v == SignInPrompt <==> userId.None?
    ensures v == OwnerContent <==> userId.Some? && userType == Some("owner")
    ensures v == OwnersOnly <==> userId.Some? && userType != Some("owner")
  {
    if userId.None? then SignInPrompt
    else if userType != Some("owner") then OwnersOnly
    else OwnerContent
  }

  /** `b.status === 'pending' && myParkingLots.some(lot => lot.id === b.parkingLotId)`. */
  function IsPendingFor(lots: seq<ParkingLot>): Booking -> bool
  {
    (b: Booking) => b.status == Pending && Any(lots, LotIdIs(b.parkingLotId))
  }

  /** The pending requests shown to the owner. */
  function PendingBookings(bookings: seq<Booking>, lots: seq<ParkingLot>): seq<Booking>
  {
    Filter(bookings, IsPendingFor(lots))
  }

  /** A pending booking of one of `lots`. */
  predicate AwaitsOwner(b: Booking, lots: seq<ParkingLot>)
  {
    b.status == Pending && exists i :: 0 <= i < |lots| && lots[i].id == b.parkingLotId
  }

  /** The list holds exactly the pending bookings of the owner's lots. */
  lemma PendingBookingsExactly(bookings: seq<Booking>, lots: seq<ParkingLot>)
    ensures forall b :: b in PendingBookings(bookings, lots) <==> b in bookings && AwaitsOwner(b, lots)
  {
    var p := IsPendingFor(lots);
    forall b
      ensures p(b) <==> AwaitsOwner(b, lots)
    {
      assert p(b) == (b.status == Pending && Any(lots, LotIdIs(b.parkingLotId)));
      assert forall i :: 0 <= i < |lots| ==> (LotIdIs(b.parkingLotId)(lots[i]) <==> lots[i].id == b.parkingLotId);
    }
  }

  /** The list keeps each listed booking as often as the store has it, and in
      the store's order. */
  lemma PendingBookingsInOrder(bookings: seq<Booking>, lots: seq<ParkingLot>)
    ensures forall b :: b in PendingBookings(bookings, lots) ==>
              multiset(PendingBookings(bookings, lots))[b] == multiset(bookings)[b]
    ensures IsSubsequence(PendingBookings(bookings, lots), bookings)
  {
  }

  /** Every listed request finds its lot, so no card is skipped for a missing
      lot. */
  lemma PendingHasLot(bookings: seq<Booking>, lots: seq<ParkingLot>, b: Booking)
    requires b in PendingBookings(bookings, lots)
    ensures FindFirst(lots, LotIdIs(b.parkingLotId)).Some?
    ensures FindFirst(lots, LotIdIs(b.parkingLotId)).value.id == b.parkingLotId
  {
    PendingBookingsExactly(bookings, lots);
    assert AwaitsOwner(b, lots);
    var i :| 0 <= i < |lots| && lots[i].id == b.parkingLotId;
    assert LotIdIs(b.parkingLotId)(lots[i]);
  }

  /** `new Date(x)` keeps the integral part of a time value (toward zero). */
  function TruncateMillis(x: real): int
  {
    if x >= 0.0 then x.Floor else -((-x).Floor)
  }

  /** `new Date(start.getTime() + duration * 60 * 60 * 1000)`. */
  function EndTime(startTime: int, duration: real): int
  {
    TruncateMillis(startTime as real + duration * (60 * 60 * 1000) as real)
  }

  /** For a booking made by `requestBooking` the printed end is exactly the
      end the renter asked for: the duration in hours turns back into the same
      span of milliseconds. */
  lemma EndTimeOfRequest(parkingLotId: string, renterId: string, startTime: int, endTime: int,
                         rate: real)
    ensures var row := BookingRequest(parkingLotId, renterId, startTime, endTime, rate);
      EndTime(row.startTime, row.duration) == endTime
  {
    var row := BookingRequest(parkingLotId, renterId, startTime, endTime, rate);
    assert row.duration * (60 * 60 * 1000) as real == (endTime - startTime) as real;
    assert startTime as real + row.duration * (60 * 60 * 1000) as real == endTime as real;
  }

  /** `loadingStates[id]`: an id never touched is not loading. */
  function IsLoading(loadingStates: map<string, bool>, id: string): (b: bool)
    ensures b <==> id in loadingStates && loadingStates[id]
  {
    id in loadingStates && loadingStates[id]
  }

  class Dashboard {
    var loadingStates: map<string, bool>

    constructor ()
      ensures loadingStates == map[]
    {
      loadingStates := map[];
    }

    /** `handleAvailabilityToggle(id, current)`: asks the store for the
        opposite of the current flag. `busy` is the flag map while the request
        is in flight; afterwards the flag of `id` is false again and every
        other flag is as before. */
    method HandleAvailabilityToggle(store: Store, id: string, current: bool, reply: Outcome)
      returns (busy: map<string, bool>)
      modifies this`loadingStates, store
      ensures busy == old(loadingStates)[id := true]
      ensures loadingStates == old(loadingStates)[id := false]
      ensures store.userId == old(store.userId) && store.bookings == old(store.bookings)
      ensures store.parkingLots == if reply.Pass? then SetAvailabilityById(old(store.parkingLots), id, !current)
                                   else old(store.parkingLots)
    {
      loadingStates := loadingStates[id := true];
      busy := loadingStates;
      var ok := store.UpdateParkingLotAvailability(id, !current, reply);
      loadingStates := loadingStates[id := false];
    }

    /** `handleConfirm(bookingId)`. */
    method HandleConfirm(store: Store, bookingId: string, reply: Outcome)
      returns (busy: map<string, bool>)
      modifies this`loadingStates, store
      ensures busy == old(loadingStates)[bookingId := true]
      ensures loadingStates == old(loadingStates)[bookingId := false]
      ensures store.userId == old(store.userId) && store.parkingLots == old(store.parkingLots)
      ensures store.bookings == if reply.Pass? then SetStatusById(old(store.bookings), bookingId, Confirmed)
                                else old(store.bookings)
    {
      loadingStates := loadingStates[bookingId := true];
      busy := loadingStates;
      store.ConfirmBooking(bookingId, reply);
      loadingStates := loadingStates[bookingId := false];
    }

    /** `handleDecline(bookingId)`: the booking is cancelled. */
    method HandleDecline(store: Store, bookingId: string, reply: Outcome)
      returns (busy: map<string, bool>)
      modifies this`loadingStates, store
      ensures busy == old(loadingStates)[bookingId := true]
      ensures loadingStates == old(loadingStates)[bookingId := false]
      ensures store.userId == old(store.userId) && store.parkingLots == old(store.parkingLots)
      ensures store.bookings == if reply.Pass? then SetStatusById(old(store.bookings), bookingId, Cancelled)
                                else old(store.bookings)
    {
      loadingStates := loadingStates[bookingId := true];
      busy := loadingStates;
      store.DeclineBooking(bookingId, reply);
      loadingStates := loadingStates[bookingId := false];
    }
  }

  /** Around any of the three calls, the spinner of that id is on while the
      request is in flight and off afterwards, and no other id's spinner
      changes at either point. */
  lemma LoadingFlagsAroundCall(before: map<string, bool>, id: string, other: string)
    requires other != id
    ensures IsLoading(before[id := true], id) && !IsLoading(before[id := false], id)
    ensures IsLoading(before[id := true], other) == IsLoading(before, other)
    ensures IsLoading(before[id := false], other) == IsLoading(before, other)
  {
  }

  /** A confirmed or declined request leaves the pending list and nothing
      else does: after a successful status write, the pending list is the old
      one without the bookings carrying that id. */
  lemma DecidedLeavesPending(bookings: seq<Booking>, lots: seq<ParkingLot>, id: string,
                             s: BookingStatus)
    requires s != Pending
    ensures forall b :: b in PendingBookings(SetStatusById(bookings, id, s), lots) <==>
              b in PendingBookings(bookings, lots) && b.id != id
  {
    var r := SetStatusById(bookings, id, s);
    StatusUpdateTouchesOnlyTarget(bookings, id, s);
    DecidedRowsLeave(bookings, r, lots, id, s);
    PendingBookingsExactly(bookings, lots);
    PendingBookingsExactly(r, lots);
  }

  /** The row-level step: rewriting the status of the rows with `id` to a
      decided status removes exactly those rows from the awaiting ones. */
  lemma DecidedRowsLeave(bookings: seq<Booking>, r: seq<Booking>, lots: seq<ParkingLot>,
                         id: string, s: BookingStatus)
    requires s != Pending && |r| == |bookings|
    requires forall i :: 0 <= i < |r| && bookings[i].id == id ==> r[i] == bookings[i].(status := s)
    requires forall i :: 0 <= i < |r| && bookings[i].id != id ==> r[i] == bookings[i]
    ensures forall b :: b in r && AwaitsOwner(b, lots) <==>
              b in bookings && AwaitsOwner(b, lots) && b.id != id
  {
    forall b | b in r && AwaitsOwner(b, lots)
      ensures b in bookings && b.id != id
    {
      var i :| 0 <= i < |r| && r[i] == b;
      assert bookings[i].id != id;
    }
    forall b | b in bookings && AwaitsOwner(b, lots) && b.id != id
      ensures b in r
    {
      var i :| 0 <= i < |bookings| && bookings[i] == b;
      assert r[i] == b;
    }
  }
}
