/** The bookkeeping invariant of the store and how each operation treats it.
    The counter `currentParticipants` is maintained incrementally beside the
    CONFIRMED bookings it is meant to count; these lemmas say when the two
    stay in step and when they drift apart. */
module StoreInvariants {
  import opened Wrappers
  import opened Seqs
  import opened Store

  predicate UniqueAppointmentIds(apts: seq<Appointment>) {
    forall i, j :: 0 <= i < j < |apts| ==> apts[i].id != apts[j].id
  }

  predicate UniqueBookingIds(bs: seq<Booking>) {
    forall i, j :: 0 <= i < j < |bs| ==> bs[i].id != bs[j].id
  }

  predicate HasAppointment(apts: seq<Appointment>, id: string) {
    exists j :: 0 <= j < |apts| && apts[j].id == id
  }

  /** Every booking belongs to an existing appointment (the foreign key). */
  predicate BookingsReferenceAppointments(db: Db) {
    forall i :: 0 <= i < |db.bookings| ==> HasAppointment(db.appointments, db.bookings[i].appointmentId)
  }

  /** Each appointment's counter equals the number of its CONFIRMED bookings. */
  predicate CountersMatch(db: Db) {
    forall i :: 0 <= i < |db.appointments| ==>
      db.appointments[i].currentParticipants == ConfirmedCount(db.bookings, db.appointments[i].id)
  }

  /** No appointment is oversold. */
  predicate WithinCapacity(db: Db) {
    forall i :: 0 <= i < |db.appointments| ==>
      db.appointments[i].currentParticipants <= db.appointments[i].maxParticipants
  }

  predicate Consistent(db: Db) {
    && UniqueAppointmentIds(db.appointments)
    && UniqueBookingIds(db.bookings)
    && BookingsReferenceAppointments(db)
    && CountersMatch(db)
    && WithinCapacity(db)
  }

  /** Two appointment tables with the same ids and capacities in the same
      order, whatever their counters and statuses. */
  predicate SameCapacities(a: seq<Appointment>, b: seq<Appointment>) {
    |a| == |b| && forall i :: 0 <= i < |a| ==> a[i].id == b[i].id && a[i].maxParticipants == b[i].maxParticipants
  }

  /** Lookups in tables with the same ids and capacities find the same
      capacity. */
  lemma {:induction false} FindAgrees(a: seq<Appointment>, b: seq<Appointment>, id: string)
    requires SameCapacities(a, b)
    ensures FindAppointment(a, id).Some? == FindAppointment(b, id).Some?
    ensures FindAppointment(a, id).Some? ==>
      FindAppointment(a, id).value.maxParticipants == FindAppointment(b, id).value.maxParticipants
  {
    if a != [] && a[0].id != id {
      FindAgrees(a[1..], b[1..], id);
    }
  }

  /** With unique ids, the lookup finds the one record carrying the id. */
  lemma FindUnique(apts: seq<Appointment>, i: nat)
    requires UniqueAppointmentIds(apts) && i < |apts|
    ensures FindAppointment(apts, apts[i].id) == Some(apts[i])
  {
  }

  lemma FindBookingUnique(bs: seq<Booking>, i: nat)
    requires UniqueBookingIds(bs) && i < |bs|
    ensures FindBooking(bs, bs[i].id) == Some(bs[i])
  {
  }

  // ------------------------------------------------------------ createBooking

  /** The state change of a successful booking: append a CONFIRMED booking
      and raise its appointment's counter by one. */
  function AfterAppend(db: Db, b: Booking): Db {
    Db(AdjustCounter(db.appointments, b.appointmentId, 1), db.bookings + [b])
  }

  lemma {:induction false} CountersAfterAppend(db: Db, b: Booking)
    requires CountersMatch(db) && WithinCapacity(db)
    requires b.status == Confirmed
    requires forall i :: 0 <= i < |db.appointments| && db.appointments[i].id == b.appointmentId ==>
      ConfirmedCount(db.bookings, b.appointmentId) < db.appointments[i].maxParticipants
    ensures CountersMatch(AfterAppend(db, b)) && WithinCapacity(AfterAppend(db, b))
  {
    var db' := AfterAppend(db, b);
    forall i | 0 <= i < |db'.appointments|
      ensures db'.appointments[i].currentParticipants == ConfirmedCount(db'.bookings, db'.appointments[i].id)
      ensures db'.appointments[i].currentParticipants <= db'.appointments[i].maxParticipants
    {
      CountAppend(db.bookings, b, HoldsPlaceOn(db.appointments[i].id));
    }
  }

  lemma {:induction false} ReferencesAfterAppend(db: Db, b: Booking)
    requires BookingsReferenceAppointments(db)
    requires HasAppointment(db.appointments, b.appointmentId)
    ensures BookingsReferenceAppointments(AfterAppend(db, b))
  {
    var db' := AfterAppend(db, b);
    forall i | 0 <= i < |db'.bookings|
      ensures HasAppointment(db'.appointments, db'.bookings[i].appointmentId)
    {
      var j :| 0 <= j < |db.appointments| && db.appointments[j].id == db'.bookings[i].appointmentId;
      assert db'.appointments[j].id == db'.bookings[i].appointmentId;
    }
  }

  lemma {:induction false} IdsAfterAppend(db: Db, b: Booking)
    requires UniqueAppointmentIds(db.appointments) && UniqueBookingIds(db.bookings)
    requires forall i :: 0 <= i < |db.bookings| ==> db.bookings[i].id != b.id
    ensures UniqueAppointmentIds(AfterAppend(db, b).appointments) && UniqueBookingIds(AfterAppend(db, b).bookings)
  {
  }

  /** A successful booking keeps the store consistent: the counter and the
      confirmed count both grow by one on the booked appointment, and the
      availability check keeps the counter within capacity. */
  lemma CreateBookingPreservesConsistency(db: Db, req: BookingRequest, newId: string, now: int)
    requires Consistent(db)
    requires CreateBooking(db, req, newId, now).Success?
    ensures Consistent(CreateBooking(db, req, newId, now).value.0)
  {
    var b := CreateBooking(db, req, newId, now).value.1;
    assert CreateBooking(db, req, newId, now).value.0 == AfterAppend(db, b);
    var k :| 0 <= k < |db.appointments| && db.appointments[k].id == req.appointmentId;
    FindUnique(db.appointments, k);
    CountersAfterAppend(db, b);
    ReferencesAfterAppend(db, b);
    IdsAfterAppend(db, b);
  }

  /** Right after a booking, the availability query sees it: one more
      confirmed booking and one free place fewer. */
  lemma SlotsAfterCreate(db: Db, req: BookingRequest, newId: string, now: int)
    requires CreateBooking(db, req, newId, now).Success?
    ensures var db' := CreateBooking(db, req, newId, now).value.0;
      var before, after := GetAvailableSlots(db, req.appointmentId), GetAvailableSlots(db', req.appointmentId);
      && before.Some? && after.Some?
      && after.value.booked == before.value.booked + 1
      && after.value.availableSlots == before.value.availableSlots - 1
  {
    var (db', b) := CreateBooking(db, req, newId, now).value;
    FindAgrees(db.appointments, db'.appointments, req.appointmentId);
    CountAppend(db.bookings, b, HoldsPlaceOn(req.appointmentId));
  }

  /** Whether a booking is accepted depends on ids, capacities and confirmed
      bookings only: neither the appointment's status (a CANCELLED or
      COMPLETED appointment still takes bookings) nor its counter matters. */
  lemma CreateBookingIgnoresStatusAndCounter(db: Db, apts: seq<Appointment>, req: BookingRequest, newId: string, now: int)
    requires SameCapacities(db.appointments, apts)
    ensures CreateBooking(db, req, newId, now).Success? == CreateBooking(Db(apts, db.bookings), req, newId, now).Success?
  {
    FindAgrees(db.appointments, apts, req.appointmentId);
  }

  /** The availability query reads the confirmed bookings, not the counter:
      tables that differ only in counters and statuses give the same answer. */
  lemma SlotsIgnoreCounter(db: Db, apts: seq<Appointment>, id: string)
    requires SameCapacities(db.appointments, apts)
    ensures var s, t := GetAvailableSlots(db, id), GetAvailableSlots(Db(apts, db.bookings), id);
      && s.Some? == t.Some?
      && (s.Some? ==> s.value.booked == t.value.booked && s.value.availableSlots == t.value.availableSlots
                      && s.value.isAvailable == t.value.isAvailable)
  {
    FindAgrees(db.appointments, apts, id);
  }

  // ------------------------------------------------------------ cancelBooking

  /** Cancelling changes the one booking carrying the id and no other. */
  lemma UpdateTouchesOne(bs: seq<Booking>, k: nat, reason: Option<string>, now: int)
    requires UniqueBookingIds(bs) && k < |bs|
    ensures forall i :: 0 <= i < |bs| && i != k ==> UpdateBooking(bs, bs[k].id, reason, now)[i] == bs[i]
  {
  }

  /** The state change of a successful cancel of the booking at index `k`. */
  function AfterCancel(db: Db, k: nat, reason: Option<string>, now: int): Db
    requires k < |db.bookings|
  {
    Db(AdjustCounter(db.appointments, db.bookings[k].appointmentId, -1),
       UpdateBooking(db.bookings, db.bookings[k].id, reason, now))
  }

  /** How a cancel moves each appointment's confirmed count. */
  lemma {:induction false} CountAfterCancel(db: Db, k: nat, reason: Option<string>, now: int, id: string)
    requires UniqueBookingIds(db.bookings) && k < |db.bookings|
    ensures ConfirmedCount(AfterCancel(db, k, reason, now).bookings, id)
      == ConfirmedCount(db.bookings, id) - (if HoldsPlace(db.bookings[k], id) then 1 else 0)
  {
    var bs' := AfterCancel(db, k, reason, now).bookings;
    UpdateTouchesOne(db.bookings, k, reason, now);
    CountReplace(db.bookings, bs', k, HoldsPlaceOn(id));
  }

  lemma {:induction false} CountersAfterCancel(db: Db, k: nat, reason: Option<string>, now: int)
    requires UniqueBookingIds(db.bookings) && k < |db.bookings|
    requires CountersMatch(db) && WithinCapacity(db)
    requires db.bookings[k].status == Confirmed
    ensures CountersMatch(AfterCancel(db, k, reason, now)) && WithinCapacity(AfterCancel(db, k, reason, now))
  {
    var db' := AfterCancel(db, k, reason, now);
    forall i | 0 <= i < |db'.appointments|
      ensures db'.appointments[i].currentParticipants == ConfirmedCount(db'.bookings, db'.appointments[i].id)
      ensures db'.appointments[i].currentParticipants <= db'.appointments[i].maxParticipants
    {
      CountAfterCancel(db, k, reason, now, db.appointments[i].id);
    }
  }

  lemma {:induction false} ReferencesAndIdsAfterCancel(db: Db, k: nat, reason: Option<string>, now: int)
    requires k < |db.bookings|
    requires BookingsReferenceAppointments(db)
    requires UniqueAppointmentIds(db.appointments) && UniqueBookingIds(db.bookings)
    ensures BookingsReferenceAppointments(AfterCancel(db, k, reason, now))
    ensures UniqueAppointmentIds(AfterCancel(db, k, reason, now).appointments)
    ensures UniqueBookingIds(AfterCancel(db, k, reason, now).bookings)
  {
    var db' := AfterCancel(db, k, reason, now);
    forall i | 0 <= i < |db'.bookings|
      ensures HasAppointment(db'.appointments, db'.bookings[i].appointmentId)
    {
      var j :| 0 <= j < |db.appointments| && db.appointments[j].id == db.bookings[i].appointmentId;
      assert db'.appointments[j].id == db'.bookings[i].appointmentId;
    }
  }

  /** A successful cancel is the state change `AfterCancel` of the booking's
      own index. */
  lemma CancelIsAfterCancel(db: Db, bookingId: string, reason: Option<string>, now: int) returns (k: nat)
    requires UniqueBookingIds(db.bookings)
    requires CancelBooking(db, bookingId, reason, now).Success?
    ensures k < |db.bookings| && db.bookings[k] == FindBooking(db.bookings, bookingId).value
    ensures CancelBooking(db, bookingId, reason, now).value.0 == AfterCancel(db, k, reason, now)
  {
    k :| 0 <= k < |db.bookings| && db.bookings[k] == FindBooking(db.bookings, bookingId).value;
  }

  /** Cancelling a CONFIRMED booking keeps the store consistent: the counter
      and the confirmed count both drop by one. In a consistent store such a
      cancel always succeeds, since the booking's appointment exists. */
  lemma CancelConfirmedPreservesConsistency(db: Db, bookingId: string, reason: Option<string>, now: int)
    requires Consistent(db)
    requires FindBooking(db.bookings, bookingId).Some?
    requires FindBooking(db.bookings, bookingId).value.status == Confirmed
    ensures CancelBooking(db, bookingId, reason, now).Success?
    ensures Consistent(CancelBooking(db, bookingId, reason, now).value.0)
  {
    var b := FindBooking(db.bookings, bookingId).value;
    var i :| 0 <= i < |db.bookings| && db.bookings[i] == b;
    assert HasAppointment(db.appointments, b.appointmentId);
    var k := CancelIsAfterCancel(db, bookingId, reason, now);
    CountersAfterCancel(db, k, reason, now);
    ReferencesAndIdsAfterCancel(db, k, reason, now);
  }

  /** A NO_SHOW booking passes the guard, and cancelling it decrements the
      counter although the confirmed count does not change: afterwards the
      counter is one below the count it is meant to equal. */
  lemma CancelNoShowDesynchronizesCounter(db: Db, bookingId: string, reason: Option<string>, now: int)
    requires Consistent(db)
    requires FindBooking(db.bookings, bookingId).Some?
    requires FindBooking(db.bookings, bookingId).value.status == NoShow
    ensures CancelBooking(db, bookingId, reason, now).Success?
    ensures !CountersMatch(CancelBooking(db, bookingId, reason, now).value.0)
  {
    var b := FindBooking(db.bookings, bookingId).value;
    var j :| 0 <= j < |db.appointments| && db.appointments[j].id == b.appointmentId;
    FindUnique(db.appointments, j);
    assert CancelBooking(db, bookingId, reason, now).Success?;
    var k := CancelIsAfterCancel(db, bookingId, reason, now);
    var db' := AfterCancel(db, k, reason, now);
    CountAfterCancel(db, k, reason, now, b.appointmentId);
    assert db'.appointments[j].currentParticipants == ConfirmedCount(db'.bookings, db'.appointments[j].id) - 1;
  }

  /** The decrement has no lower bound: an appointment whose counter is
      already 0 ends at -1. */
  lemma CancelHasNoClamp(db: Db, bookingId: string, reason: Option<string>, now: int, j: nat)
    requires UniqueAppointmentIds(db.appointments) && j < |db.appointments|
    requires FindBooking(db.bookings, bookingId).Some?
    requires FindBooking(db.bookings, bookingId).value.status != BookingStatus.Cancelled
    requires FindBooking(db.bookings, bookingId).value.appointmentId == db.appointments[j].id
    requires db.appointments[j].currentParticipants == 0
    ensures CancelBooking(db, bookingId, reason, now).Success?
    ensures CancelBooking(db, bookingId, reason, now).value.0.appointments[j].currentParticipants == -1
  {
    FindUnique(db.appointments, j);
  }

  /** A second cancel of the same booking is refused, so the counter is
      decremented at most once per booking. */
  lemma CancelTwiceRefused(db: Db, bookingId: string, reason: Option<string>, reason2: Option<string>, now: int, now2: int)
    requires CancelBooking(db, bookingId, reason, now).Success?
    ensures var db' := CancelBooking(db, bookingId, reason, now).value.0;
      CancelBooking(db', bookingId, reason2, now2) == Failure(AlreadyCancelled)
  {
    var db' := CancelBooking(db, bookingId, reason, now).value.0;
    var k :| 0 <= k < |db.bookings| && db.bookings[k].id == bookingId;
    assert db'.bookings[k].id == bookingId;
    var b' := FindBooking(db'.bookings, bookingId).value;
    var i :| 0 <= i < |db'.bookings| && db'.bookings[i] == b';
  }

  // ----------------------------------------------------- anonymizeOldBookings

  /** Running the anonymisation twice with the same cutoff changes nothing more. */
  lemma AnonymizeIdempotent(db: Db, cutoff: int)
    ensures var once := AnonymizeOldBookings(db, cutoff).0;
      AnonymizeOldBookings(once, cutoff).0 == once
  {
    var once := AnonymizeOldBookings(db, cutoff).0;
    var twice := AnonymizeOldBookings(once, cutoff).0;
    assert twice.bookings == once.bookings;
  }

  /** Anonymisation touches no status, owner or id, so it keeps the store
      consistent. */
  lemma AnonymizePreservesConsistency(db: Db, cutoff: int)
    requires Consistent(db)
    ensures Consistent(AnonymizeOldBookings(db, cutoff).0)
  {
    var db' := AnonymizeOldBookings(db, cutoff).0;
    forall i | 0 <= i < |db.appointments|
      ensures ConfirmedCount(db'.bookings, db.appointments[i].id) == ConfirmedCount(db.bookings, db.appointments[i].id)
    {
      CountPreservedPointwise(db.bookings, db'.bookings, HoldsPlaceOn(db.appointments[i].id));
    }
    forall i | 0 <= i < |db'.bookings|
      ensures HasAppointment(db'.appointments, db'.bookings[i].appointmentId)
    {
      assert db'.bookings[i].appointmentId == db.bookings[i].appointmentId;
    }
  }
}
