/** The appointment/booking store of `DatabaseService`: two tables (appointments
    and bookings, each a sequence of records in insertion order whose ids are
    meant to be unique) and the operations that read and change them. Every
    multi-statement database transaction is one step here; a failed operation
    returns an error and leaves the store as it was. */
module Store {
  import opened Wrappers
  import opened Seqs
  import JsNumber

  datatype AppointmentType = Pickup | Viewing
  datatype AppointmentStatus = Active | Cancelled | Completed
  datatype BookingStatus = Confirmed | Cancelled | NoShow

  datatype Appointment = Appointment(
    id: string,
    kind: AppointmentType,
    auctionNumber: string,
    title: string,
    location: string,
    date: int,                 // the appointment's day, as an instant
    maxParticipants: int,
    currentParticipants: int,  // counter changed only by create/cancel
    status: AppointmentStatus)

  datatype Booking = Booking(
    id: string,
    appointmentId: string,
    userId: Option<string>,
    firstName: string,
    lastName: string,
    email: string,
    phone: string,
    bidderAccount: Option<string>,
    privacyAccepted: bool,
    marketingAccepted: bool,
    status: BookingStatus,
    createdAt: int,
    cancelledAt: Option<int>,
    cancellationReason: Option<string>)

  datatype Db = Db(appointments: seq<Appointment>, bookings: seq<Booking>)

  /** The data `createBooking` receives. */
  datatype BookingRequest = BookingRequest(
    appointmentId: string,
    userId: Option<string>,
    firstName: string,
    lastName: string,
    email: string,
    phone: string,
    bidderAccount: Option<string>,
    privacyAccepted: bool,
    marketingAccepted: bool)

  /** The errors the operations throw. `DuplicateId` and `RecordMissing` are
      the database's own refusals (a unique-key clash on insert, an update of a
      row that does not exist); each rolls the whole transaction back. */
  datatype StoreError = FullyBooked | BookingNotFound | AlreadyCancelled | DuplicateId | RecordMissing

  function Message(e: StoreError): string {
    match e
    case FullyBooked => "Termin ist bereits ausgebucht"
    case BookingNotFound => "Buchung nicht gefunden"
    case AlreadyCancelled => "Buchung bereits storniert"
    case DuplicateId => "Unique constraint failed"
    case RecordMissing => "Record to update not found"
  }

  // ---------------------------------------------------------------- lookups

  /** `findUnique({ where: { id } })` on a table whose rows carry the id
      `idOf(row)`: the first row with that id, if any. */
  function Find<T>(rows: seq<T>, id: string, idOf: T -> string): (r: Option<T>)
    ensures r.Some? <==> exists i :: 0 <= i < |rows| && idOf(rows[i]) == id
    ensures r.Some? ==> idOf(r.value) == id && r.value in rows
    ensures r.Some? ==> exists i :: 0 <= i < |rows| && rows[i] == r.value && forall j :: 0 <= j < i ==> idOf(rows[j]) != id
  {
    if rows == [] then None
    else if idOf(rows[0]) == id then Some(rows[0])
    else
      var r := Find(rows[1..], id, idOf);
      assert forall i :: 0 < i < |rows| ==> rows[i] == rows[1..][i - 1];
      r
  }

  function AppointmentId(a: Appointment): string { a.id }
  function BookingId(b: Booking): string { b.id }

  /** The appointment lookup. */
  function FindAppointment(apts: seq<Appointment>, id: string): (r: Option<Appointment>)
    ensures r.Some? <==> exists i :: 0 <= i < |apts| && apts[i].id == id
    ensures r.Some? ==> r.value.id == id && r.value in apts
    ensures r.Some? ==> exists i :: 0 <= i < |apts| && apts[i] == r.value && forall j :: 0 <= j < i ==> apts[j].id != id
  {
    Find(apts, id, AppointmentId)
  }

  /** The booking lookup. */
  function FindBooking(bs: seq<Booking>, id: string): (r: Option<Booking>)
    ensures r.Some? <==> exists i :: 0 <= i < |bs| && bs[i].id == id
    ensures r.Some? ==> r.value.id == id && r.value in bs
    ensures r.Some? ==> exists i :: 0 <= i < |bs| && bs[i] == r.value && forall j :: 0 <= j < i ==> bs[j].id != id
  {
    Find(bs, id, BookingId)
  }

  /** The bookings that hold a place on the appointment: its CONFIRMED ones. */
  predicate HoldsPlace(b: Booking, appointmentId: string) {
    b.appointmentId == appointmentId && b.status == Confirmed
  }

  function HoldsPlaceOn(appointmentId: string): Booking -> bool {
    b => HoldsPlace(b, appointmentId)
  }

  /** `_count: { bookings: { where: { status: 'CONFIRMED' } } }` */
  function ConfirmedCount(bs: seq<Booking>, appointmentId: string): nat {
    Count(bs, HoldsPlaceOn(appointmentId))
  }

  // ------------------------------------------------------- getAvailableSlots

  datatype Slots = Slots(
    appointment: Appointment,
    booked: nat,
    availableSlots: int,
    isAvailable: bool,
    utilizationRate: JsNumber.Num)

  /** Capacity of an appointment as seen from its CONFIRMED bookings; the
      `currentParticipants` counter is not consulted. `None` is `null`. */
  function GetAvailableSlots(db: Db, appointmentId: string): (r: Option<Slots>)
    ensures r.None? <==> forall i :: 0 <= i < |db.appointments| ==> db.appointments[i].id != appointmentId
    ensures r.Some? ==> r.value.appointment in db.appointments && r.value.appointment.id == appointmentId
    ensures r.Some? ==> r.value.booked == ConfirmedCount(db.bookings, appointmentId)
    ensures r.Some? ==> r.value.availableSlots == r.value.appointment.maxParticipants - r.value.booked
    ensures r.Some? ==> (r.value.isAvailable <==> r.value.booked < r.value.appointment.maxParticipants)
  {
    match FindAppointment(db.appointments, appointmentId)
    case None => None
    case Some(a) =>
      var booked := ConfirmedCount(db.bookings, appointmentId);
      Some(Slots(a, booked, a.maxParticipants - booked, booked < a.maxParticipants,
                 JsNumber.Percent(booked, a.maxParticipants)))
  }

  // ------------------------------------------------------------ createBooking

  /** The row `db.booking.create({ data })` inserts: the request's fields, a
      fresh id, the CONFIRMED default status and the creation instant. */
  function NewBooking(req: BookingRequest, id: string, now: int): Booking {
    Booking(id, req.appointmentId, req.userId, req.firstName, req.lastName, req.email,
            req.phone, req.bidderAccount, req.privacyAccepted, req.marketingAccepted,
            Confirmed, now, None, None)
  }

  /** `currentParticipants: { increment: delta }` on the appointment `id`. */
  function AdjustCounter(apts: seq<Appointment>, id: string, delta: int): (r: seq<Appointment>)
    ensures |r| == |apts|
    ensures forall i :: 0 <= i < |apts| && apts[i].id != id ==> r[i] == apts[i]
    ensures forall i :: 0 <= i < |apts| && apts[i].id == id ==>
      r[i] == apts[i].(currentParticipants := apts[i].currentParticipants + delta)
  {
    seq(|apts|, i requires 0 <= i < |apts| =>
      if apts[i].id == id then apts[i].(currentParticipants := apts[i].currentParticipants + delta)
      else apts[i])
  }

  /** Books a place: refuses with "Termin ist bereits ausgebucht" when the
      appointment is missing or has no free confirmed place, otherwise appends
      the booking and increments the appointment's counter in one transaction.
      The appointment's status is never looked at. */
  function CreateBooking(db: Db, req: BookingRequest, newId: string, now: int): (r: Result<(Db, Booking), StoreError>)
    ensures r.Failure? && r.error == FullyBooked <==>
      (forall i :: 0 <= i < |db.appointments| ==> db.appointments[i].id != req.appointmentId)
      || ConfirmedCount(db.bookings, req.appointmentId) >= FindAppointment(db.appointments, req.appointmentId).value.maxParticipants
    ensures r.Failure? ==> r.error in {FullyBooked, DuplicateId}
    ensures r.Failure? && r.error == DuplicateId ==> exists i :: 0 <= i < |db.bookings| && db.bookings[i].id == newId
    ensures r.Success? ==> forall i :: 0 <= i < |db.bookings| ==> db.bookings[i].id != newId
    ensures r.Success? ==> var (db', b) := r.value;
      && b.id == newId && b.appointmentId == req.appointmentId && b.userId == req.userId
      && b.firstName == req.firstName && b.lastName == req.lastName && b.email == req.email
      && b.phone == req.phone && b.bidderAccount == req.bidderAccount
      && b.privacyAccepted == req.privacyAccepted && b.marketingAccepted == req.marketingAccepted
      && b.status == Confirmed && b.createdAt == now
      && b.cancelledAt.None? && b.cancellationReason.None?
      && db'.bookings == db.bookings + [b]
      && db'.appointments == AdjustCounter(db.appointments, req.appointmentId, 1)
  {
    var slots := GetAvailableSlots(db, req.appointmentId);
    if slots.None? || !slots.value.isAvailable then Failure(FullyBooked)
    else if FindBooking(db.bookings, newId).Some? then Failure(DuplicateId)
    else
      var b := NewBooking(req, newId, now);
      Success((Db(AdjustCounter(db.appointments, req.appointmentId, 1), db.bookings + [b]), b))
  }

  // ------------------------------------------------------------ cancelBooking

  /** The update `cancelBooking` writes. An absent reason is Prisma's
      `undefined`, which leaves the stored reason as it was. */
  function CancelRecord(b: Booking, reason: Option<string>, now: int): Booking {
    b.(status := BookingStatus.Cancelled,
       cancelledAt := Some(now),
       cancellationReason := if reason.Some? then reason else b.cancellationReason)
  }

  /** `db.booking.update({ where: { id } , data })` */
  function UpdateBooking(bs: seq<Booking>, id: string, reason: Option<string>, now: int): (r: seq<Booking>)
    ensures |r| == |bs|
    ensures forall i :: 0 <= i < |bs| && bs[i].id != id ==> r[i] == bs[i]
    ensures forall i :: 0 <= i < |bs| && bs[i].id == id ==> r[i] == CancelRecord(bs[i], reason, now)
  {
    seq(|bs|, i requires 0 <= i < |bs| =>
      if bs[i].id == id then CancelRecord(bs[i], reason, now) else bs[i])
  }

  /** Cancels a booking: refuses an unknown id and an already CANCELLED
      booking (a NO_SHOW one passes), otherwise marks it CANCELLED and
      decrements the owning appointment's counter, without a lower bound. */
  function CancelBooking(db: Db, bookingId: string, reason: Option<string>, now: int): (r: Result<(Db, Booking), StoreError>)
    ensures r.Failure? && r.error == BookingNotFound <==> forall i :: 0 <= i < |db.bookings| ==> db.bookings[i].id != bookingId
    ensures r.Failure? && r.error == AlreadyCancelled <==>
      FindBooking(db.bookings, bookingId).Some? && FindBooking(db.bookings, bookingId).value.status == BookingStatus.Cancelled
    ensures r.Failure? ==> r.error in {BookingNotFound, AlreadyCancelled, RecordMissing}
    ensures r.Failure? && r.error == RecordMissing <==>
      FindBooking(db.bookings, bookingId).Some? && FindBooking(db.bookings, bookingId).value.status != BookingStatus.Cancelled
      && FindAppointment(db.appointments, FindBooking(db.bookings, bookingId).value.appointmentId).None?
    ensures r.Success? ==> var (db', b) := r.value; var old_b := FindBooking(db.bookings, bookingId).value;
      && old_b.status != BookingStatus.Cancelled
      && b == old_b.(status := BookingStatus.Cancelled, cancelledAt := Some(now),
                     cancellationReason := if reason.Some? then reason else old_b.cancellationReason)
      && db'.bookings == UpdateBooking(db.bookings, bookingId, reason, now)
      && db'.appointments == AdjustCounter(db.appointments, old_b.appointmentId, -1)
  {
    match FindBooking(db.bookings, bookingId)
    case None => Failure(BookingNotFound)
    case Some(b) =>
      if b.status == BookingStatus.Cancelled then Failure(AlreadyCancelled)
      else if FindAppointment(db.appointments, b.appointmentId).None? then Failure(RecordMissing)
      else
        var db' := Db(AdjustCounter(db.appointments, b.appointmentId, -1),
                      UpdateBooking(db.bookings, bookingId, reason, now));
        Success((db', CancelRecord(b, reason, now)))
  }

  // ----------------------------------------------------- anonymizeOldBookings

  /** The bookings `anonymizeOldBookings` rewrites. */
  predicate Anonymizable(b: Booking, cutoff: int) {
    b.createdAt < cutoff && b.status in {BookingStatus.Cancelled, NoShow}
  }

  function AnonymizableBefore(cutoff: int): Booking -> bool {
    b => Anonymizable(b, cutoff)
  }

  function Anonymized(b: Booking): Booking {
    b.(firstName := "Anonymisiert", lastName := "Anonymisiert",
       email := "anonymized@example.com", phone := "Anonymisiert", bidderAccount := None)
  }

  /** One `updateMany`: erases the personal data of CANCELLED and NO_SHOW
      bookings created before `cutoff` and returns how many rows it matched.
      The cutoff is "now minus `daysToKeep` days", computed by the caller. */
  function AnonymizeOldBookings(db: Db, cutoff: int): (r: (Db, nat))
    ensures r.0.appointments == db.appointments
    ensures |r.0.bookings| == |db.bookings|
    ensures forall i :: 0 <= i < |db.bookings| ==>
      var b, b' := db.bookings[i], r.0.bookings[i];
      && b'.id == b.id && b'.appointmentId == b.appointmentId && b'.userId == b.userId
      && b'.status == b.status && b'.createdAt == b.createdAt
      && b'.cancelledAt == b.cancelledAt && b'.cancellationReason == b.cancellationReason
      && b'.privacyAccepted == b.privacyAccepted && b'.marketingAccepted == b.marketingAccepted
      && (if Anonymizable(b, cutoff)
          then b'.firstName == "Anonymisiert" && b'.lastName == "Anonymisiert"
               && b'.email == "anonymized@example.com" && b'.phone == "Anonymisiert"
               && b'.bidderAccount.None?
          else b' == b)
    ensures r.1 == Count(db.bookings, AnonymizableBefore(cutoff))
  {
    var bs := seq(|db.bookings|, i requires 0 <= i < |db.bookings| =>
      if Anonymizable(db.bookings[i], cutoff) then Anonymized(db.bookings[i]) else db.bookings[i]);
    (Db(db.appointments, bs), Count(db.bookings, AnonymizableBefore(cutoff)))
  }
}
