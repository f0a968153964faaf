/** The public landing page: the appointment cards with their duration,
    shortened title and availability badge, the search box and the split
    into viewing and pickup tabs. */
module LandingPage {
  import opened Wrappers
  import opened Text
  import opened Seqs
  import opened TimeOfDay
  import JsNumber
  import Validations

  /** One listed appointment, as the page holds it (type and status as text). */
  datatype Listed = Listed(
    id: string, kind: string, auctionNumber: string, title: string, date: string,
    startTime: string, endTime: string, location: string,
    maxParticipants: int, currentParticipants: int, status: string)

  // ------------------------------------------------------------ duration

  /** `calculateDuration`: end minutes minus start minutes, `None` for `NaN`. */
  function CalculateDuration(startTime: string, endTime: string): Option<int> {
    match (MinutesOf(startTime), MinutesOf(endTime))
    case (Some(s), Some(e)) => Some(e - s)
    case _ => None
  }

  /** On times the pattern accepts the duration is the difference of the
      minutes of the day. */
  lemma DurationOfTimes(startTime: string, endTime: string)
    requires IsTime(startTime) && IsTime(endTime)
    ensures CalculateDuration(startTime, endTime) == Some(ClockMinutes(endTime) - ClockMinutes(startTime))
  {
    MinutesOfPattern(startTime);
    MinutesOfPattern(endTime);
  }

  /** The schema's end-after-start rule is exactly "the duration is positive". */
  lemma DurationAgreesWithSchema(startTime: string, endTime: string)
    ensures Validations.EndAfterStart(startTime, endTime) <==>
      CalculateDuration(startTime, endTime).Some? && CalculateDuration(startTime, endTime).value > 0
  {
  }

  /** Times the appointment schema accepts give a duration in (0, 1440). */
  lemma DurationOfValidTimes(startTime: string, endTime: string)
    requires IsTime(startTime) && IsTime(endTime) && Validations.EndAfterStart(startTime, endTime)
    ensures CalculateDuration(startTime, endTime).Some?
    ensures 0 < CalculateDuration(startTime, endTime).value < 24 * 60
  {
    MinutesOfValidTime(startTime);
    MinutesOfValidTime(endTime);
  }

  /** The card's duration text: "{h}h {m}min" from an hour on, else
      "{d} min"; `NaN` prints as "NaN". */
  function DurationText(d: Option<int>): string {
    match d
    case None => "NaN min"
    case Some(n) =>
      if n >= 60 then NatToString(n / 60) + "h " + NatToString(n % 60) + "min"
      else IntToString(n) + " min"
  }

  /** Reads a duration text back into minutes. */
  function ReadDurationText(t: string): Option<int> {
    var a := LeadingDigits(t);
    if a != [] then ReadUnit(DigitsValue(a), t[|a|..])
    else if |t| > 0 && t[0] == '-' then
      var c := LeadingDigits(t[1..]);
      var v: int := DigitsValue(c);
      if c != [] && t[1..][|c|..] == " min" then Some(-v) else None
    else None
  }

  /** What follows the leading number: "h {m}min" or " min". */
  function ReadUnit(lead: nat, rest: string): Option<int> {
    if |rest| >= 2 && rest[..2] == "h " then
      var b := LeadingDigits(rest[2..]);
      if b != [] && rest[2..][|b|..] == "min" then Some(lead * 60 + DigitsValue(b)) else None
    else if rest == " min" then Some(lead)
    else None
  }

  /** The hour and minute parts of the text recombine to the duration. */
  lemma DurationTextRoundTrip(n: int)
    ensures ReadDurationText(DurationText(Some(n))) == Some(n)
  {
    if n >= 60 {
      HoursRoundTrip(n);
    } else if n >= 0 {
      MinutesRoundTrip(n);
    } else {
      NegativeRoundTrip(n);
    }
  }

  lemma HoursRoundTrip(n: int)
    requires n >= 60
    ensures ReadDurationText(DurationText(Some(n))) == Some(n)
  {
    var a, b := NatToString(n / 60), NatToString(n % 60);
    assert DurationText(Some(n)) == a + HoursSuffix(b);
    ReadHoursText(a, b);
    NatToStringRoundTrip(n / 60);
    NatToStringRoundTrip(n % 60);
  }

  /** Digits, "h ", digits, "min" read as hours and minutes. */
  lemma ReadHoursText(a: string, b: string)
    requires a != [] && b != [] && AllDigits(a) && AllDigits(b)
    ensures ReadDurationText(a + HoursSuffix(b)) == Some(DigitsValue(a) * 60 + DigitsValue(b))
  {
    var rest := HoursSuffix(b);
    assert rest[0] == 'h';
    ReadLeadingNumber(a, rest);
    ReadHoursUnit(DigitsValue(a), b);
  }

  /** The text after the hours: "h ", the minutes, "min". */
  function HoursSuffix(b: string): string {
    "h " + b + "min"
  }

  lemma ReadHoursUnit(lead: nat, b: string)
    requires b != [] && AllDigits(b)
    ensures ReadUnit(lead, HoursSuffix(b)) == Some(lead * 60 + DigitsValue(b))
  {
    var rest := HoursSuffix(b);
    assert rest[..2] == "h ";
    assert rest[2..] == b + "min";
    LeadingDigitsOfConcat(b, "min");
    assert rest[2..][|b|..] == "min";
  }

  /** A leading number followed by a non-digit is read, then its unit. */
  lemma ReadLeadingNumber(a: string, rest: string)
    requires a != [] && AllDigits(a) && rest != [] && !IsDigit(rest[0])
    ensures ReadDurationText(a + rest) == ReadUnit(DigitsValue(a), rest)
  {
    LeadingDigitsOfConcat(a, rest);
    assert (a + rest)[|a|..] == rest;
  }

  lemma MinutesRoundTrip(n: int)
    requires 0 <= n < 60
    ensures ReadDurationText(DurationText(Some(n))) == Some(n)
  {
    var a := NatToString(n);
    assert DurationText(Some(n)) == a + " min";
    ReadLeadingNumber(a, " min");
    NatToStringRoundTrip(n);
  }

  lemma NegativeRoundTrip(n: int)
    requires n < 0
    ensures ReadDurationText(DurationText(Some(n))) == Some(n)
  {
    var t := DurationText(Some(n));
    var c := NatToString(-n);
    assert t == "-" + c + " min";
    assert LeadingDigits(t) == [];
    assert t[1..] == c + " min";
    LeadingDigitsOfConcat(c, " min");
    assert t[1..][|c|..] == " min";
    NatToStringRoundTrip(-n);
  }

  // ------------------------------------------------------------- title

  /** `truncateTitle`: the title itself when it fits, else its first
      `maxLength` characters and "...". */
  function TruncateTitle(title: string, maxLength: nat): (r: string)
    ensures |title| <= maxLength ==> r == title
    ensures |title| > maxLength ==> |r| == maxLength + 3 && r[..maxLength] == title[..maxLength] && r[maxLength..] == "..."
  {
    if |title| <= maxLength then title else title[..maxLength] + "..."
  }

  /** Shortening a shortened title changes nothing more. */
  lemma TruncateIdempotent(title: string, maxLength: nat)
    ensures TruncateTitle(TruncateTitle(title, maxLength), maxLength) == TruncateTitle(title, maxLength)
  {
    if |title| > maxLength {
      var r := TruncateTitle(title, maxLength);
      assert r[..maxLength] + "..." == r;
    }
  }

  // ------------------------------------------------------------- badge

  datatype Availability = FullyBooked | AlmostFull | Available {
    function Label(): string {
      match this
      case FullyBooked => "Ausgebucht"
      case AlmostFull => "Fast ausgebucht"
      case Available => "Verfügbar"
    }
    /** How full the badge says the appointment is. */
    function Level(): nat {
      match this
      case Available => 0
      case AlmostFull => 1
      case FullyBooked => 2
    }
  }

  /** `getStatusBadge(current, max)` on `(current / max) * 100`. */
  function StatusBadge(current: int, max: int): Availability {
    var rate := JsNumber.Percent(current, max);
    if JsNumber.AtLeast(rate, 100) then FullyBooked
    else if JsNumber.AtLeast(rate, 80) then AlmostFull
    else Available
  }

  /** With a positive capacity: fully booked iff current reaches max; almost
      full iff it is at 80 % or more but below max. */
  lemma StatusBadgeThresholds(current: int, max: int)
    requires max > 0
    ensures StatusBadge(current, max) == FullyBooked <==> current >= max
    ensures StatusBadge(current, max) == AlmostFull <==> 80 * max <= 100 * current < 100 * max
    ensures StatusBadge(current, max) == Available <==> 100 * current < 80 * max
  {
    JsNumber.PercentAtLeast(current, max, 100);
    JsNumber.PercentAtLeast(current, max, 80);
  }

  /** More participants never make the badge look emptier. */
  lemma StatusBadgeMonotone(c1: int, c2: int, max: int)
    requires max > 0 && c1 <= c2
    ensures StatusBadge(c1, max).Level() <= StatusBadge(c2, max).Level()
  {
    StatusBadgeThresholds(c1, max);
    StatusBadgeThresholds(c2, max);
  }

  /** A zero capacity divides by zero: `Infinity` (booked out) for a positive
      count, `NaN` (available) for none. */
  lemma StatusBadgeZeroCapacity(current: int)
    ensures StatusBadge(current, 0) == if current > 0 then FullyBooked else Available
  {
  }

  // ------------------------------------------------------------ search

  /** The search filter on one card. */
  predicate Matches(a: Listed, term: string) {
    ContainsInsensitive(a.title, term) || ContainsInsensitive(a.auctionNumber, term)
    || ContainsInsensitive(a.location, term)
  }

  function MatchesTerm(term: string): Listed -> bool {
    (a: Listed) => Matches(a, term)
  }

  function Filtered(list: seq<Listed>, term: string): seq<Listed> {
    Filter(list, MatchesTerm(term))
  }

  /** A card is kept iff the lower-cased term occurs in its lower-cased
      title, auction number or location. */
  lemma FilteredMeaning(list: seq<Listed>, term: string, a: Listed)
    ensures a in Filtered(list, term) <==>
      a in list && (Occurs(Lower(a.title), Lower(term)) || Occurs(Lower(a.auctionNumber), Lower(term))
                    || Occurs(Lower(a.location), Lower(term)))
  {
    ContainsIffOccurs(Lower(a.title), Lower(term));
    ContainsIffOccurs(Lower(a.auctionNumber), Lower(term));
    ContainsIffOccurs(Lower(a.location), Lower(term));
  }

  /** The empty term keeps every card, in order. */
  lemma EmptyTermKeepsAll(list: seq<Listed>)
    ensures Filtered(list, "") == list
  {
    forall a | a in list ensures MatchesTerm("")(a) {
      EmptyAlwaysContained(Lower(a.title));
    }
    FilterKeepsAll(list, MatchesTerm(""));
  }

  function HasKind(kind: string): Listed -> bool {
    (a: Listed) => a.kind == kind
  }

  function ViewingTab(list: seq<Listed>, term: string): seq<Listed> {
    Filter(Filtered(list, term), HasKind("VIEWING"))
  }

  function PickupTab(list: seq<Listed>, term: string): seq<Listed> {
    Filter(Filtered(list, term), HasKind("PICKUP"))
  }

  /** The two tabs split the search result by type: no card is on both, and
      when every type is VIEWING or PICKUP they hold all of it between them. */
  lemma TabsPartition(list: seq<Listed>, term: string)
    ensures forall a :: a in ViewingTab(list, term) <==> a in Filtered(list, term) && a.kind == "VIEWING"
    ensures forall a :: a in PickupTab(list, term) <==> a in Filtered(list, term) && a.kind == "PICKUP"
    ensures forall a :: !(a in ViewingTab(list, term) && a in PickupTab(list, term))
    ensures (forall a :: a in list ==> a.kind == "VIEWING" || a.kind == "PICKUP") ==>
      |ViewingTab(list, term)| + |PickupTab(list, term)| == |Filtered(list, term)|
  {
    if forall a :: a in list ==> a.kind == "VIEWING" || a.kind == "PICKUP" {
      CountComplement(Filtered(list, term), HasKind("VIEWING"), HasKind("PICKUP"));
    }
  }

  /** `searchTerm && filteredAppointments.length === 0` */
  predicate NoResultsShown(list: seq<Listed>, term: string) {
    term != "" && |Filtered(list, term)| == 0
  }

  /** "Keine Suchergebnisse" shows iff a term is typed and no card matches it. */
  lemma NoResultsMeaning(list: seq<Listed>, term: string)
    ensures NoResultsShown(list, term) <==> term != "" && forall a :: a in list ==> !Matches(a, term)
  {
    var f := Filtered(list, term);
    if |f| != 0 {
      assert f[0] in f;
    }
  }
}
