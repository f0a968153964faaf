/** The admin user list: the status and verification badges, the statistics
    cards, the cancellation rate of a user, the last-login text and the tab
    views. */
module AdminUsers {
  import opened Wrappers
  import opened Text
  import opened Seqs
  import JsNumber

  /** One row of the user list; timestamps are kept as the text they arrive in. */
  datatype User = User(
    id: string, firstName: string, lastName: string, email: string, phone: string,
    isActive: bool, emailVerified: bool, marketingAccepted: bool,
    lastLogin: Option<string>, bookingsCount: int, totalBookings: int, cancelledBookings: int,
    dataDeleteRequested: Option<string>)

  // ------------------------------------------------------------ badges

  datatype UserBadge = DeletionRequested | Inactive | Unverified | ActiveUser {
    function Label(): string {
      match this
      case DeletionRequested => "Löschung angefordert"
      case Inactive => "Inaktiv"
      case Unverified => "Nicht verifiziert"
      case ActiveUser => "Aktiv"
    }
  }

  /** `getStatusBadge(user)`: a deletion request first, then inactivity, then
      a missing e-mail verification; otherwise active. */
  function StatusBadge(u: User): (b: UserBadge)
    ensures b == DeletionRequested <==> Truthy(u.dataDeleteRequested)
    ensures b == Inactive <==> !Truthy(u.dataDeleteRequested) && !u.isActive
    ensures b == Unverified <==> !Truthy(u.dataDeleteRequested) && u.isActive && !u.emailVerified
    ensures b == ActiveUser <==> !Truthy(u.dataDeleteRequested) && u.isActive && u.emailVerified
  {
    if Truthy(u.dataDeleteRequested) then DeletionRequested
    else if !u.isActive then Inactive
    else if !u.emailVerified then Unverified
    else ActiveUser
  }

  /** A deletion request hides both flags below it, and inactivity hides the
      verification flag: a lower-priority flag never changes the badge. */
  lemma StatusPriority(u: User, active: bool, verified: bool)
    ensures Truthy(u.dataDeleteRequested) ==>
      StatusBadge(u.(isActive := active, emailVerified := verified)) == DeletionRequested
    ensures !u.isActive ==> StatusBadge(u.(emailVerified := verified)) == StatusBadge(u)
  {
  }

  /** `getVerificationBadge(verified)` */
  function VerificationLabel(verified: bool): (text: string)
    ensures text == "Verifiziert" <==> verified
    ensures text == "Unverifiziert" <==> !verified
  {
    if verified then "Verifiziert" else "Unverifiziert"
  }

  // -------------------------------------------------------------- stats

  datatype UserStats = UserStats(
    total: nat, active: nat, inactive: nat, verified: nat, unverified: nat,
    marketingAccepted: nat, withBookings: nat, deletionRequested: nat)

  function IsActive(): User -> bool { (u: User) => u.isActive }
  function IsInactive(): User -> bool { (u: User) => !u.isActive }
  function IsVerified(): User -> bool { (u: User) => u.emailVerified }
  function IsUnverified(): User -> bool { (u: User) => !u.emailVerified }
  function WantsMarketing(): User -> bool { (u: User) => u.marketingAccepted }
  function HasBookings(): User -> bool { (u: User) => u.bookingsCount > 0 }
  function AskedForDeletion(): User -> bool { (u: User) => Truthy(u.dataDeleteRequested) }

  /** `userStats` */
  function Stats(users: seq<User>): UserStats {
    UserStats(|users|, Count(users, IsActive()), Count(users, IsInactive()),
      Count(users, IsVerified()), Count(users, IsUnverified()), Count(users, WantsMarketing()),
      Count(users, HasBookings()), Count(users, AskedForDeletion()))
  }

  /** Active and inactive users make up all users, and so do verified and
      unverified ones. */
  lemma StatsAddUp(users: seq<User>)
    ensures Stats(users).active + Stats(users).inactive == Stats(users).total
    ensures Stats(users).verified + Stats(users).unverified == Stats(users).total
  {
    CountComplement(users, IsActive(), IsInactive());
    CountComplement(users, IsVerified(), IsUnverified());
  }

  // --------------------------------------------------- cancellation rate

  /** The number shown as a user's cancellation rate:
      `Math.round((cancelled / total) * 100)` for a positive total, else 0. */
  function CancellationPercent(cancelled: int, total: int): int {
    if total > 0 then
      var r := JsNumber.Round(JsNumber.Percent(cancelled, total));
      if r.Frac? then r.num else 0
    else 0
  }

  /** The rate text: the rounded percentage and '%', or "0%" without bookings. */
  function CancellationRate(cancelled: int, total: int): string {
    if total > 0 then IntToString(CancellationPercent(cancelled, total)) + "%" else "0%"
  }

  /** For a positive total the shown number is `100 * cancelled / total`
      rounded to the nearest integer, halves up. */
  lemma CancellationPercentNearest(cancelled: int, total: int)
    requires total > 0
    ensures var p := CancellationPercent(cancelled, total);
      (2 * p - 1) * total <= 200 * cancelled < (2 * p + 1) * total
  {
    var x := JsNumber.Percent(cancelled, total);
    assert x == JsNumber.Frac(cancelled * 100, total);
    var r := JsNumber.Round(x);
    assert (2 * r.num - 1) * total <= 2 * (cancelled * 100) < (2 * r.num + 1) * total;
  }

  /** No more cancellations than bookings gives a rate in [0, 100]. */
  lemma CancellationPercentBounded(cancelled: int, total: int)
    requires 0 <= cancelled <= total && total > 0
    ensures 0 <= CancellationPercent(cancelled, total) <= 100
  {
    CancellationPercentNearest(cancelled, total);
    JsNumber.RoundedWithin(CancellationPercent(cancelled, total), 100 * cancelled, total, 100);
  }

  lemma CancellationRateWithoutBookings(cancelled: int)
    ensures CancellationRate(cancelled, 0) == "0%"
  {
  }

  // ---------------------------------------------------------- last login

  /** `formatDateTime(value)`: "Nie" for a missing or empty value; the
      locale rendering of the date is the parameter `render`. */
  function FormatDateTime(value: Option<string>, render: string -> string): (text: string)
    ensures !Truthy(value) ==> text == "Nie"
    ensures Truthy(value) ==> text == render(value.value)
  {
    if !Truthy(value) then "Nie" else render(value.value)
  }

  // --------------------------------------------------------------- tabs

  function IsActiveAndVerified(): User -> bool { (u: User) => u.isActive && u.emailVerified }

  function ActiveTab(users: seq<User>): seq<User> { Filter(users, IsActiveAndVerified()) }
  function UnverifiedTab(users: seq<User>): seq<User> { Filter(users, IsUnverified()) }
  function MarketingTab(users: seq<User>): seq<User> { Filter(users, WantsMarketing()) }

  /** The "active" tab keeps exactly the active and verified users, the
      "unverified" tab exactly the unverified ones, so no user is on both;
      the unverified tab is as long as its statistics card says, and every
      user without a deletion request whose badge says "Aktiv" is on the
      active tab. */
  lemma TabsMeaning(users: seq<User>)
    ensures forall u :: u in ActiveTab(users) <==> u in users && u.isActive && u.emailVerified
    ensures forall u :: u in UnverifiedTab(users) <==> u in users && !u.emailVerified
    ensures forall u :: u in MarketingTab(users) <==> u in users && u.marketingAccepted
    ensures forall u :: !(u in ActiveTab(users) && u in UnverifiedTab(users))
    ensures |UnverifiedTab(users)| == Stats(users).unverified
    ensures forall u :: u in users && StatusBadge(u) == ActiveUser ==> u in ActiveTab(users)
  {
  }
}
