/** The admin appointment list: status and type badges, the utilisation bar
    with its colour and width, the location shown in the row, the statistics
    cards and the tab views. */
module AdminAppointments {
  import opened Text
  import opened Seqs
  import JsNumber

  /** One row of the admin list (type and status as text). */
  datatype Row = Row(
    id: string, kind: string, auctionNumber: string, title: string, description: string,
    date: string, startTime: string, endTime: string, location: string,
    maxParticipants: int, currentParticipants: int, status: string, createdAt: string)

  /** The look of a badge: its colour scheme, independent of the text. */
  datatype Tone = Green | Blue | Destructive | Plain

  datatype Badge = Badge(text: string, tone: Tone)

  /** `getStatusBadge(status)`: the three known statuses get their German
      label and colour; any other value is shown as is, uncoloured. */
  function StatusBadge(status: string): (b: Badge)
    ensures b.tone == Plain <==> status !in {"ACTIVE", "COMPLETED", "CANCELLED"}
    ensures b.tone == Plain ==> b.text == status
    ensures status == "ACTIVE" ==> b.text == "Aktiv"
    ensures status == "COMPLETED" ==> b.text == "Abgeschlossen"
    ensures status == "CANCELLED" ==> b.text == "Abgesagt"
  {
    match status
    case "ACTIVE" => Badge("Aktiv", Green)
    case "COMPLETED" => Badge("Abgeschlossen", Blue)
    case "CANCELLED" => Badge("Abgesagt", Destructive)
    case _ => Badge(status, Plain)
  }

  /** Different statuses never look the same, even a raw value that happens
      to spell a label. */
  lemma StatusBadgeInjective(s1: string, s2: string)
    requires s1 != s2
    ensures StatusBadge(s1) != StatusBadge(s2)
  {
  }

  /** `getTypeBadge(type)`: Besichtigung for VIEWING, Abholung for anything else. */
  function TypeBadge(kind: string): (b: Badge)
    ensures b.text == "Besichtigung" <==> kind == "VIEWING"
    ensures b.text == "Abholung" <==> kind != "VIEWING"
  {
    if kind == "VIEWING" then Badge("Besichtigung", Blue) else Badge("Abholung", Green)
  }

  datatype BarColour = Red | Orange | Yellow | GreenBar {
    /** How alarming the colour is. */
    function Level(): nat {
      match this
      case GreenBar => 0
      case Yellow => 1
      case Orange => 2
      case Red => 3
    }
  }

  /** `getUtilizationColor(current, max)` on `(current / max) * 100`. */
  function UtilizationColour(current: int, max: int): BarColour {
    var p := JsNumber.Percent(current, max);
    if JsNumber.AtLeast(p, 100) then Red
    else if JsNumber.AtLeast(p, 80) then Orange
    else if JsNumber.AtLeast(p, 60) then Yellow
    else GreenBar
  }

  /** With a positive capacity: red iff full, orange from 80 %, yellow from
      60 %, green below. */
  lemma UtilizationThresholds(current: int, max: int)
    requires max > 0
    ensures UtilizationColour(current, max) == Red <==> current >= max
    ensures UtilizationColour(current, max) == Orange <==> 80 * max <= 100 * current < 100 * max
    ensures UtilizationColour(current, max) == Yellow <==> 60 * max <= 100 * current < 80 * max
    ensures UtilizationColour(current, max) == GreenBar <==> 100 * current < 60 * max
  {
    JsNumber.PercentAtLeast(current, max, 100);
    JsNumber.PercentAtLeast(current, max, 80);
    JsNumber.PercentAtLeast(current, max, 60);
  }

  /** The colour never gets calmer as participants are added. */
  lemma UtilizationMonotone(c1: int, c2: int, max: int)
    requires max > 0 && c1 <= c2
    ensures UtilizationColour(c1, max).Level() <= UtilizationColour(c2, max).Level()
  {
    UtilizationThresholds(c1, max);
    UtilizationThresholds(c2, max);
  }

  /** The bar's width in percent: `Math.min((current / max) * 100, 100)`. */
  function BarWidth(current: int, max: int): JsNumber.Num {
    JsNumber.MinWith(JsNumber.Percent(current, max), 100)
  }

  /** With a positive capacity the width is `min(100 * current / max, 100)`. */
  lemma BarWidthValue(current: int, max: int)
    requires max > 0
    ensures BarWidth(current, max).Frac?
    ensures var w := BarWidth(current, max);
      w.num * max == (if current <= max then 100 * current else 100 * max) * w.den
  {
  }

  /** The width never exceeds 100 %; a zero capacity draws a full bar when
      someone is booked and `NaN` when nobody is. */
  lemma BarWidthBounded(current: int, max: int)
    ensures var w := BarWidth(current, max);
      w.Frac? ==> w.num <= 100 * w.den
    ensures max == 0 ==> BarWidth(current, max) == if current > 0 then JsNumber.Frac(100, 1)
                                                 else if current < 0 then JsNumber.NegInf else JsNumber.NaN
  {
  }

  /** The row's location: `location.split(',')[0]`. */
  function LocationLabel(location: string): (r: string)
    ensures ',' !in r && StartsWith(location, r)
    ensures r == location <==> ',' !in location
    ensures r != location ==> location[|r|] == ','
  {
    BeforeFirst(location, ',')
  }

  // ------------------------------------------------------ stats and tabs

  function HasStatus(status: string): Row -> bool {
    (r: Row) => r.status == status
  }

  function HasKind(kind: string): Row -> bool {
    (r: Row) => r.kind == kind
  }

  datatype Stats = Stats(total: nat, active: nat, completed: nat, cancelled: nat, viewing: nat, pickup: nat)

  /** `appointmentStats` */
  function AppointmentStats(rows: seq<Row>): (s: Stats)
    ensures s.active + s.completed + s.cancelled <= s.total && s.viewing + s.pickup <= s.total
  {
    var s := Stats(|rows|, Count(rows, HasStatus("ACTIVE")), Count(rows, HasStatus("COMPLETED")),
      Count(rows, HasStatus("CANCELLED")), Count(rows, HasKind("VIEWING")), Count(rows, HasKind("PICKUP")));
    StatusCountsBounded(rows);
    TypeCountsBounded(rows);
    s
  }

  lemma {:induction false} StatusCountsBounded(rows: seq<Row>)
    ensures Count(rows, HasStatus("ACTIVE")) + Count(rows, HasStatus("COMPLETED"))
      + Count(rows, HasStatus("CANCELLED")) <= |rows|
  {
    if rows != [] {
      StatusCountsBounded(rows[..|rows| - 1]);
    }
  }

  lemma {:induction false} TypeCountsBounded(rows: seq<Row>)
    ensures Count(rows, HasKind("VIEWING")) + Count(rows, HasKind("PICKUP")) <= |rows|
  {
    if rows != [] {
      TypeCountsBounded(rows[..|rows| - 1]);
    }
  }

  /** The status cards add up to the total when every status is one of the
      three, and the type cards when every type is one of the two. */
  lemma StatsAddUp(rows: seq<Row>)
    ensures (forall r :: r in rows ==> r.status in {"ACTIVE", "COMPLETED", "CANCELLED"}) ==>
      var s := AppointmentStats(rows); s.active + s.completed + s.cancelled == s.total
    ensures (forall r :: r in rows ==> r.kind in {"VIEWING", "PICKUP"}) ==>
      var s := AppointmentStats(rows); s.viewing + s.pickup == s.total
  {
    if forall r :: r in rows ==> r.status in {"ACTIVE", "COMPLETED", "CANCELLED"} {
      CountThreeWay(rows, HasStatus("ACTIVE"), HasStatus("COMPLETED"), HasStatus("CANCELLED"));
    }
    if forall r :: r in rows ==> r.kind in {"VIEWING", "PICKUP"} {
      CountComplement(rows, HasKind("VIEWING"), HasKind("PICKUP"));
    }
  }

  function ActiveTab(rows: seq<Row>): seq<Row> { Filter(rows, HasStatus("ACTIVE")) }
  function ViewingTab(rows: seq<Row>): seq<Row> { Filter(rows, HasKind("VIEWING")) }
  function PickupTab(rows: seq<Row>): seq<Row> { Filter(rows, HasKind("PICKUP")) }

  /** Each tab holds exactly the rows of its status or type, as many as the
      matching statistics card counts. */
  lemma TabsMatchStats(rows: seq<Row>)
    ensures forall r :: r in ActiveTab(rows) <==> r in rows && r.status == "ACTIVE"
    ensures forall r :: r in ViewingTab(rows) <==> r in rows && r.kind == "VIEWING"
    ensures forall r :: r in PickupTab(rows) <==> r in rows && r.kind == "PICKUP"
    ensures |ActiveTab(rows)| == AppointmentStats(rows).active
    ensures |ViewingTab(rows)| == AppointmentStats(rows).viewing
    ensures |PickupTab(rows)| == AppointmentStats(rows).pickup
  {
  }
}
