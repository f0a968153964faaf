/** The decisions of the dashboard overview: the trend line of a statistics
    card, the capacity badge of an appointment, the icon of an activity and
    the type badge. */
module DashboardOverview {
  import opened Wrappers
  import opened Text
  import JsNumber
  import Store

  // ----------------------------------------------------------- StatsCard

  datatype TrendLine = TrendLine(positive: bool, text: string)

  /** The trend line of `StatsCard`: shown only when a trend is given;
      `trend ? trend > 0 : false` decides arrow and colour, and a '+' is
      prefixed only to a positive trend. */
  function Trend(trend: Option<int>): Option<TrendLine> {
    match trend
    case None => None
    case Some(t) =>
      var positive := if t != 0 then t > 0 else false;
      Some(TrendLine(positive, (if positive then "+" else "") + IntToString(t) + "%"))
  }

  /** The line is there iff a trend is given; it counts as positive iff the
      trend is above zero (zero is falsy, negatives fail the comparison); and
      its first character tells the sign: '+' above zero, '-' below, a digit
      for zero. */
  lemma TrendSign(trend: Option<int>)
    ensures Trend(trend).Some? <==> trend.Some?
    ensures trend.Some? ==> var line := Trend(trend).value;
      && (line.positive <==> trend.value > 0)
      && |line.text| > 0
      && (line.text[0] == '+' <==> trend.value > 0)
      && (line.text[0] == '-' <==> trend.value < 0)
      && (IsDigit(line.text[0]) <==> trend.value == 0)
  {
    if trend.Some? {
      var t := trend.value;
      var line := Trend(trend).value;
      if t >= 0 {
        var digits := NatToString(t);
        assert IsDigit(digits[0]);
        if t > 0 {
          assert line.text == "+" + digits + "%";
        } else {
          assert line.text == digits + "%";
        }
      } else {
        assert line.text == "-" + NatToString(-t) + "%";
      }
    }
  }

  // ------------------------------------------------ AppointmentStatusBadge

  datatype CapacityBadge = Cancelled | Full | AlmostFull | Available {
    function Label(): string {
      match this
      case Cancelled => "Abgesagt"
      case Full => "Ausgebucht"
      case AlmostFull => "Fast voll"
      case Available => "Verfügbar"
    }
  }

  /** `AppointmentStatusBadge` on the status and `(booked / capacity) * 100`. */
  function StatusBadge(status: string, booked: int, capacity: int): CapacityBadge {
    var percentage := JsNumber.Percent(booked, capacity);
    if status == "cancelled" then Cancelled
    else if status == "full" || JsNumber.Is(percentage, 100) then Full
    else if JsNumber.AtLeast(percentage, 80) then AlmostFull
    else Available
  }

  /** A cancelled appointment says so, whatever its counts. */
  lemma CancelledWins(booked: int, capacity: int)
    ensures StatusBadge("cancelled", booked, capacity) == Cancelled
  {
  }

  /** With a positive capacity: booked out iff marked full or exactly at
      capacity; almost full iff at 80 % or more otherwise, which includes an
      overbooked appointment that is not marked full; available below 80 %. */
  lemma StatusBadgeThresholds(status: string, booked: int, capacity: int)
    requires capacity > 0 && status != "cancelled"
    ensures StatusBadge(status, booked, capacity) == Full <==> status == "full" || booked == capacity
    ensures StatusBadge(status, booked, capacity) == AlmostFull <==>
      status != "full" && booked != capacity && 100 * booked >= 80 * capacity
    ensures StatusBadge(status, booked, capacity) == Available <==>
      status != "full" && 100 * booked < 80 * capacity
  {
    JsNumber.PercentIs(booked, capacity, 100);
    JsNumber.PercentAtLeast(booked, capacity, 80);
  }

  /** An active appointment with more bookings than places is "Fast voll",
      not "Ausgebucht". */
  lemma OverbookedIsAlmostFull(booked: int, capacity: int)
    requires 0 < capacity < booked
    ensures StatusBadge("active", booked, capacity) == AlmostFull
  {
    StatusBadgeThresholds("active", booked, capacity);
  }

  // ------------------------------------------------------- ActivityIcon

  datatype Icon = BookOpen | CalendarIcon | AlertCircle | ActivityIcon | ClockIcon

  /** `ActivityIcon(type)`. */
  function IconFor(kind: string): (i: Icon)
    ensures i == ClockIcon <==> kind !in {"booking", "appointment", "cancellation", "login"}
  {
    match kind
    case "booking" => BookOpen
    case "appointment" => CalendarIcon
    case "cancellation" => AlertCircle
    case "login" => ActivityIcon
    case _ => ClockIcon
  }

  /** The four known activity types get four different icons. */
  lemma IconsDistinct(k1: string, k2: string)
    requires k1 in {"booking", "appointment", "cancellation", "login"}
    requires k1 != k2
    ensures IconFor(k1) != IconFor(k2)
  {
  }

  // ------------------------------------------------ AppointmentTypeBadge

  /** `AppointmentTypeBadge(type)`. */
  function TypeLabel(kind: Store.AppointmentType): (text: string)
    ensures text == "Besichtigung" <==> kind.Viewing?
    ensures text == "Abholung" <==> kind.Pickup?
  {
    if kind.Viewing? then "Besichtigung" else "Abholung"
  }
}
