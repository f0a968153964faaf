/** The admin booking list: status and user-type badges, the statistics
    cards, the cancellation-reason block and the tab views. */
module AdminBookings {
  import opened Wrappers
  import opened Seqs

  /** One row of the booking list (status as text). */
  datatype Row = Row(
    id: string, appointmentId: string, appointmentTitle: string, userId: Option<string>,
    firstName: string, lastName: string, email: string, phone: string,
    status: string, checkedIn: bool, createdAt: string,
    cancellationReason: Option<string>, cancelledAt: Option<string>)

  datatype Tone = Blue | Green | Destructive | Orange | Plain

  datatype Badge = Badge(text: string, tone: Tone)

  /** `getStatusBadge(status, checkedIn)`: a check-in overrides the status;
      otherwise the three known statuses get their label and any other
      value is shown as is, uncoloured. */
  function StatusBadge(status: string, checkedIn: bool): (b: Badge)
    ensures checkedIn ==> b == Badge("Eingecheckt", Blue)
    ensures !checkedIn ==> b.tone != Blue
    ensures !checkedIn ==> (b.tone == Plain <==> status !in {"CONFIRMED", "CANCELLED", "NO_SHOW"})
    ensures !checkedIn && b.tone == Plain ==> b.text == status
    ensures !checkedIn && status == "CONFIRMED" ==> b.text == "Bestätigt"
    ensures !checkedIn && status == "CANCELLED" ==> b.text == "Storniert"
    ensures !checkedIn && status == "NO_SHOW" ==> b.text == "Nicht erschienen"
  {
    if checkedIn then Badge("Eingecheckt", Blue)
    else match status
      case "CONFIRMED" => Badge("Bestätigt", Green)
      case "CANCELLED" => Badge("Storniert", Destructive)
      case "NO_SHOW" => Badge("Nicht erschienen", Orange)
      case _ => Badge(status, Plain)
  }

  /** Without a check-in, different statuses never look the same. */
  lemma StatusBadgeInjective(s1: string, s2: string)
    requires s1 != s2
    ensures StatusBadge(s1, false) != StatusBadge(s2, false)
  {
  }

  /** `getUserTypeBadge(userId)`: registered iff the user id is truthy. */
  function UserTypeLabel(userId: Option<string>): (text: string)
    ensures text == "Registriert" <==> Truthy(userId)
    ensures text == "Gast" <==> !Truthy(userId)
  {
    if Truthy(userId) then "Registriert" else "Gast"
  }

  // -------------------------------------------------------------- stats

  function HasStatus(status: string): Row -> bool { (b: Row) => b.status == status }
  function IsCheckedIn(): Row -> bool { (b: Row) => b.checkedIn }
  function IsGuest(): Row -> bool { (b: Row) => !Truthy(b.userId) }
  function IsRegistered(): Row -> bool { (b: Row) => Truthy(b.userId) }

  datatype BookingStats = BookingStats(
    total: nat, confirmed: nat, cancelled: nat, noShow: nat, checkedIn: nat, guests: nat, registeredUsers: nat)

  /** `bookingStats` */
  function Stats(rows: seq<Row>): BookingStats {
    BookingStats(|rows|, Count(rows, HasStatus("CONFIRMED")), Count(rows, HasStatus("CANCELLED")),
      Count(rows, HasStatus("NO_SHOW")), Count(rows, IsCheckedIn()), Count(rows, IsGuest()),
      Count(rows, IsRegistered()))
  }

  /** Guests and registered users make up all bookings; the three status
      cards do too when every status is one of the three. */
  lemma StatsAddUp(rows: seq<Row>)
    ensures Stats(rows).guests + Stats(rows).registeredUsers == Stats(rows).total
    ensures (forall b :: b in rows ==> b.status in {"CONFIRMED", "CANCELLED", "NO_SHOW"}) ==>
      Stats(rows).confirmed + Stats(rows).cancelled + Stats(rows).noShow == Stats(rows).total
  {
    CountComplement(rows, IsRegistered(), IsGuest());
    if forall b :: b in rows ==> b.status in {"CONFIRMED", "CANCELLED", "NO_SHOW"} {
      CountThreeWay(rows, HasStatus("CONFIRMED"), HasStatus("CANCELLED"), HasStatus("NO_SHOW"));
    }
  }

  // ------------------------------------------------- cancellation block

  datatype ReasonBlock = ReasonBlock(reason: string, showsCancelledAt: bool)

  /** The red block under a row: shown for a cancelled booking with a
      (non-empty) reason; its "Storniert am" line needs a cancellation time too. */
  function CancellationBlock(b: Row): (block: Option<ReasonBlock>)
    ensures block.Some? <==> b.status == "CANCELLED" && Truthy(b.cancellationReason)
    ensures block.Some? ==> block.value.reason == b.cancellationReason.value
    ensures block.Some? && block.value.showsCancelledAt <==>
      b.status == "CANCELLED" && Truthy(b.cancellationReason) && Truthy(b.cancelledAt)
  {
    if b.status == "CANCELLED" && Truthy(b.cancellationReason) then
      Some(ReasonBlock(b.cancellationReason.value, Truthy(b.cancelledAt)))
    else None
  }

  // --------------------------------------------------------------- tabs

  function ConfirmedTab(rows: seq<Row>): seq<Row> { Filter(rows, HasStatus("CONFIRMED")) }
  function CancelledTab(rows: seq<Row>): seq<Row> { Filter(rows, HasStatus("CANCELLED")) }
  function CheckedInTab(rows: seq<Row>): seq<Row> { Filter(rows, IsCheckedIn()) }

  /** The status tabs filter by exact status and the check-in tab by the
      flag; each tab is as long as its statistics card; the check-in tab
      holds exactly the rows with the blue "Eingecheckt" badge (a raw status
      spelled "Eingecheckt" shows the same text uncoloured); and every row
      with a reason block is on the cancelled tab. */
  lemma TabsMeaning(rows: seq<Row>)
    ensures forall b :: b in ConfirmedTab(rows) <==> b in rows && b.status == "CONFIRMED"
    ensures forall b :: b in CancelledTab(rows) <==> b in rows && b.status == "CANCELLED"
    ensures forall b :: b in CheckedInTab(rows) <==> b in rows && b.checkedIn
    ensures |ConfirmedTab(rows)| == Stats(rows).confirmed
    ensures |CancelledTab(rows)| == Stats(rows).cancelled
    ensures |CheckedInTab(rows)| == Stats(rows).checkedIn
    ensures forall b :: b in CheckedInTab(rows) <==> b in rows && StatusBadge(b.status, b.checkedIn) == Badge("Eingecheckt", Blue)
    ensures forall b :: b in rows && CancellationBlock(b).Some? ==> b in CancelledTab(rows)
  {
  }
}
