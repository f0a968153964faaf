/** The read-only queries of `DatabaseService` over the store: the filtered,
    date-ordered, paged appointment listing and the capacity figures of the
    dashboard statistics. */
module StoreQueries {
  import opened Wrappers
  import opened Text
  import opened Seqs
  import opened Store
  import JsNumber

  // ---------------------------------------------------------- getAppointments

  /** The parameters of `getAppointments`; an absent status means the
      default, ACTIVE. `includeBookings` only shapes the returned rows. */
  datatype AppointmentQuery = AppointmentQuery(
    kind: Option<AppointmentType>,
    status: Option<AppointmentStatus>,
    limit: nat,
    offset: nat,
    dateFrom: Option<int>,
    dateTo: Option<int>,
    search: Option<string>)

  /** The query with every parameter left at its default. */
  function DefaultQuery(): AppointmentQuery {
    AppointmentQuery(None, None, 10, 0, None, None, None)
  }

  /** The `where` object the query builds: each present part is one
      condition, and `anyContains` is the three-way `OR` of the search. */
  datatype Where = Where(
    kind: Option<AppointmentType>,
    status: Option<AppointmentStatus>,
    gte: Option<int>,
    lte: Option<int>,
    anyContains: Option<string>)

  /** Builds the `where` object; a search only counts when it is non-empty
      (an empty string is falsy). */
  function BuildWhere(q: AppointmentQuery): Where {
    Where(q.kind,
          Some(q.status.GetOr(Active)),
          q.dateFrom,
          q.dateTo,
          if q.search.Some? && q.search.value != "" then q.search else None)
  }

  /** How the database evaluates the `where` object on one row. */
  predicate Satisfies(w: Where, a: Appointment) {
    && (w.kind.Some? ==> a.kind == w.kind.value)
    && (w.status.Some? ==> a.status == w.status.value)
    && (w.gte.Some? ==> a.date >= w.gte.value)
    && (w.lte.Some? ==> a.date <= w.lte.value)
    && (w.anyContains.Some? ==>
          ContainsInsensitive(a.title, w.anyContains.value)
          || ContainsInsensitive(a.auctionNumber, w.anyContains.value)
          || ContainsInsensitive(a.location, w.anyContains.value))
  }

  function SatisfiesFn(w: Where): Appointment -> bool {
    a => Satisfies(w, a)
  }

  /** The appointments a query asks for, stated independently of the
      `where` object: the given type, the given status (ACTIVE by default),
      a date inside the given bounds, and a non-empty search term occurring,
      ignoring case, in the title, auction number or location. */
  ghost predicate Wanted(q: AppointmentQuery, a: Appointment) {
    && (forall t :: q.kind == Some(t) ==> a.kind == t)
    && (if q.status.Some? then a.status == q.status.value else a.status == Active)
    && (forall d :: q.dateFrom == Some(d) ==> d <= a.date)
    && (forall d :: q.dateTo == Some(d) ==> a.date <= d)
    && (forall s :: q.search == Some(s) && |s| > 0 ==>
          Occurs(Lower(a.title), Lower(s)) || Occurs(Lower(a.auctionNumber), Lower(s))
          || Occurs(Lower(a.location), Lower(s)))
  }

  lemma WhereMeansWanted(q: AppointmentQuery, a: Appointment)
    ensures Satisfies(BuildWhere(q), a) <==> Wanted(q, a)
  {
    if q.search.Some? {
      var s := q.search.value;
      ContainsIffOccurs(Lower(a.title), Lower(s));
      ContainsIffOccurs(Lower(a.auctionNumber), Lower(s));
      ContainsIffOccurs(Lower(a.location), Lower(s));
    }
  }

  predicate SortedByDate(s: seq<Appointment>) {
    forall i, j :: 0 <= i < j < |s| ==> s[i].date <= s[j].date
  }

  lemma PrependSorted(x: Appointment, t: seq<Appointment>)
    requires SortedByDate(t)
    requires forall y :: y in t ==> x.date <= y.date
    ensures SortedByDate([x] + t)
  {
    assert forall j :: 0 < j < |[x] + t| ==> ([x] + t)[j] == t[j - 1];
  }

  function InsertByDate(a: Appointment, s: seq<Appointment>): (r: seq<Appointment>)
    requires SortedByDate(s)
    ensures SortedByDate(r)
    ensures forall y :: y in r ==> y == a || y in s
    ensures multiset(r) == multiset(s) + multiset{a}
  {
    if s == [] then [a]
    else if a.date <= s[0].date then
      PrependSorted(a, s);
      [a] + s
    else
      var rest := InsertByDate(a, s[1..]);
      assert s == [s[0]] + s[1..];
      PrependSorted(s[0], rest);
      [s[0]] + rest
  }

  /** `orderBy: { date: 'asc' }`; rows with equal dates may come in any order. */
  function SortByDate(s: seq<Appointment>): (r: seq<Appointment>)
    ensures SortedByDate(r)
    ensures multiset(r) == multiset(s)
  {
    if s == [] then []
    else
      assert s == [s[0]] + s[1..];
      InsertByDate(s[0], SortByDate(s[1..]))
  }

  function Min(a: int, b: int): int {
    if a <= b then a else b
  }

  /** `skip: offset, take: limit` */
  function Window<T>(s: seq<T>, offset: nat, limit: nat): (r: seq<T>)
    ensures |r| == Min(limit, |s| - Min(offset, |s|))
    ensures forall i :: 0 <= i < |r| ==> r[i] == s[offset + i]
  {
    var from := Min(offset, |s|);
    s[from..Min(from + limit, |s|)]
  }

  /** A window of a date-ordered listing is date-ordered and holds only
      rows of the listing. */
  lemma WindowOfSorted(s: seq<Appointment>, offset: nat, limit: nat)
    requires SortedByDate(s)
    ensures SortedByDate(Window(s, offset, limit))
    ensures forall a :: a in Window(s, offset, limit) ==> a in s
  {
    var r := Window(s, offset, limit);
    forall i, j | 0 <= i < j < |r|
      ensures r[i].date <= r[j].date
    {
      assert r[i] == s[offset + i] && r[j] == s[offset + j];
    }
    forall a | a in r
      ensures a in s
    {
      var i :| 0 <= i < |r| && r[i] == a;
      assert r[i] == s[offset + i];
    }
  }

  lemma SameMultisetSameMembers(s: seq<Appointment>, t: seq<Appointment>)
    requires multiset(s) == multiset(t)
    ensures |s| == |t|
    ensures forall a :: a in s <==> a in t
  {
    assert |multiset(s)| == |multiset(t)|;
    assert forall a :: a in s <==> a in multiset(s);
  }

  /** Every appointment the `where` object selects, by ascending date. */
  function Listing(db: Db, q: AppointmentQuery): (s: seq<Appointment>)
    ensures |s| == Count(db.appointments, SatisfiesFn(BuildWhere(q)))
    ensures SortedByDate(s)
    ensures forall a :: a in s <==> a in db.appointments && Satisfies(BuildWhere(q), a)
  {
    var matching := Filter(db.appointments, SatisfiesFn(BuildWhere(q)));
    var sorted := SortByDate(matching);
    SameMultisetSameMembers(sorted, matching);
    sorted
  }

  lemma ListingIsWanted(db: Db, q: AppointmentQuery)
    ensures forall a :: a in Listing(db, q) <==> a in db.appointments && Wanted(q, a)
  {
    forall a | a in db.appointments
      ensures Satisfies(BuildWhere(q), a) <==> Wanted(q, a)
    {
      WhereMeansWanted(q, a);
    }
  }

  /** The listing: the wanted appointments, by ascending date, at most
      `limit` of them after skipping `offset`. */
  function GetAppointments(db: Db, q: AppointmentQuery): (r: seq<Appointment>)
    ensures |r| <= q.limit
    ensures var n := Count(db.appointments, SatisfiesFn(BuildWhere(q)));
      |r| == Min(q.limit, n - Min(q.offset, n))
    ensures forall a :: a in r ==> a in db.appointments && Wanted(q, a)
    ensures SortedByDate(r)
    ensures forall i :: 0 <= i < |r| ==> q.offset + i < |Listing(db, q)| && r[i] == Listing(db, q)[q.offset + i]
  {
    var all := Listing(db, q);
    ListingIsWanted(db, q);
    WindowOfSorted(all, q.offset, q.limit);
    Window(all, q.offset, q.limit)
  }

  /** A first page large enough to hold every match lists every wanted
      appointment of the store. */
  lemma GetAppointmentsComplete(db: Db, q: AppointmentQuery, a: Appointment)
    requires q.offset == 0 && Count(db.appointments, SatisfiesFn(BuildWhere(q))) <= q.limit
    requires a in db.appointments && Wanted(q, a)
    ensures a in GetAppointments(db, q)
  {
    ListingIsWanted(db, q);
    assert GetAppointments(db, q) == Listing(db, q);
  }

  // -------------------------------------------------------- getDashboardStats

  predicate IsActiveAppointment(a: Appointment) {
    a.status == Active
  }

  predicate IsConfirmedBooking(b: Booking) {
    b.status == Confirmed
  }

  /** Sum of `maxParticipants` over the ACTIVE appointments. */
  function TotalCapacity(apts: seq<Appointment>): int {
    if apts == [] then 0
    else
      var a := apts[|apts| - 1];
      TotalCapacity(apts[..|apts| - 1]) + (if a.status == Active then a.maxParticipants else 0)
  }

  /** Sum of the confirmed-booking counts over the ACTIVE appointments. */
  function TotalBooked(apts: seq<Appointment>, bs: seq<Booking>): nat {
    if apts == [] then 0
    else
      var a := apts[|apts| - 1];
      TotalBooked(apts[..|apts| - 1], bs) + (if a.status == Active then ConfirmedCount(bs, a.id) else 0)
  }

  datatype CapacityStats = CapacityStats(
    totalAppointments: nat,
    totalBookings: nat,
    totalCapacity: int,
    totalBooked: nat,
    utilizationRate: JsNumber.Num)

  /** The store-derived part of `getDashboardStats`: ACTIVE appointments,
      CONFIRMED bookings, and the utilisation rate in percent rounded to two
      decimals, 0 when there is no capacity. */
  function DashboardStats(db: Db): (r: CapacityStats)
    ensures r.totalAppointments == Count(db.appointments, IsActiveAppointment)
    ensures r.totalBookings == Count(db.bookings, IsConfirmedBooking)
    ensures r.totalCapacity <= 0 ==> r.utilizationRate == JsNumber.Frac(0, 1)
    ensures JsNumber.Valid(r.utilizationRate) && r.utilizationRate.Frac?
  {
    var capacity := TotalCapacity(db.appointments);
    var booked := TotalBooked(db.appointments, db.bookings);
    var rate := if capacity > 0
      then JsNumber.Over(JsNumber.Round(JsNumber.Times(JsNumber.Percent(booked, capacity), 100)), 100)
      else JsNumber.Frac(0, 1);
    CapacityStats(Count(db.appointments, IsActiveAppointment), Count(db.bookings, IsConfirmedBooking),
                  capacity, booked, rate)
  }

  /** When no appointment has more confirmed bookings than places, the booked
      total does not exceed the capacity total. */
  lemma {:induction false} BookedWithinCapacity(apts: seq<Appointment>, bs: seq<Booking>)
    requires forall i :: 0 <= i < |apts| ==> ConfirmedCount(bs, apts[i].id) <= apts[i].maxParticipants
    ensures TotalBooked(apts, bs) <= TotalCapacity(apts)
  {
    if apts != [] {
      BookedWithinCapacity(apts[..|apts| - 1], bs);
    }
  }

  /** The dashboard's utilisation rate lies in [0, 100] percent whenever no
      appointment is oversold. */
  lemma {:induction false} UtilizationAtMostHundred(db: Db)
    requires forall i :: 0 <= i < |db.appointments| ==>
      ConfirmedCount(db.bookings, db.appointments[i].id) <= db.appointments[i].maxParticipants
    ensures var rate := DashboardStats(db).utilizationRate;
      0 <= rate.num <= 100 * rate.den
  {
    var capacity := TotalCapacity(db.appointments);
    var booked := TotalBooked(db.appointments, db.bookings);
    BookedWithinCapacity(db.appointments, db.bookings);
    if capacity > 0 {
      var scaled := JsNumber.Times(JsNumber.Percent(booked, capacity), 100);
      assert scaled == JsNumber.Frac(booked * 100 * 100, capacity);
      JsNumber.MulAtMost(booked, capacity, 10000);
      JsNumber.RoundedWithin(JsNumber.Round(scaled).num, booked * 100 * 100, capacity, 10000);
    }
  }
}
