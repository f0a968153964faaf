/** The Zod input schemas of the booking system and `validateForm`.

    A schema is modelled by the list of issues it reports for a typed input:
    every field's checks in declaration order (a failing check marks the
    result dirty but does not stop the others), then the object's `refine`,
    which still runs on a dirty object. Parsing succeeds iff the list is
    empty; otherwise Zod throws a `ZodError` carrying the list. */
module Validations {
  import opened Wrappers
  import opened Text
  import opened TimeOfDay
  import Store

  /** A Zod issue: the path into the input, and the message. */
  datatype Issue = Issue(path: seq<string>, message: string)

  /** One check of one field: no issue when `ok`, else one issue at `field`. */
  function Check(ok: bool, field: string, message: string): seq<Issue> {
    if ok then [] else [Issue([field], message)]
  }

  /** Zod's default message of `.max(n)` on a string. */
  function AtMostChars(n: nat): string {
    "String must contain at most " + NatToString(n) + " character(s)"
  }

  /** Zod's default message of `.cuid()`. */
  const InvalidCuid := "Invalid cuid"
  const TimeFormat := "Ungültiges Zeitformat (HH:MM)"
  const PasswordsDiffer := "Passwörter stimmen nicht überein"
  const EndNotAfterStart := "Endzeit muss nach Startzeit liegen"
  const PrivacyRequired := "Datenschutzbestimmungen müssen akzeptiert werden"

  // Base schemas

  function NameIssues(field: string, s: string): seq<Issue> {
    Check(|s| >= 2, field, "Mindestens 2 Zeichen") + Check(|s| <= 50, field, "Maximal 50 Zeichen")
  }

  function PhoneIssues(field: string, s: string): seq<Issue> {
    Check(|s| >= 8, field, "Telefonnummer zu kurz") + Check(|s| <= 20, field, "Telefonnummer zu lang")
  }

  function PasswordIssues(field: string, s: string): seq<Issue> {
    Check(|s| >= 8, field, "Passwort mindestens 8 Zeichen")
  }

  /** The e-mail check is Zod's own validator, passed in as `isEmail`. */
  function EmailIssues(field: string, s: string, isEmail: string -> bool): seq<Issue> {
    Check(isEmail(s), field, "Ungültige E-Mail-Adresse")
  }

  /** `z.boolean().refine(val => val === true)`. */
  function PrivacyIssues(field: string, accepted: bool): seq<Issue> {
    Check(accepted, field, PrivacyRequired)
  }

  function ParticipantIssues(field: string, n: int): seq<Issue> {
    Check(n >= 1, field, "Mindestens 1 Teilnehmer") + Check(n <= 100, field, "Maximal 100 Teilnehmer")
  }

  function TimeIssues(field: string, t: string): seq<Issue> {
    Check(IsTime(t), field, TimeFormat)
  }

  // User registration

  datatype Registration = Registration(
    firstName: string, lastName: string, email: string, phone: string,
    password: string, confirmPassword: string,
    privacyAccepted: bool, marketingAccepted: Option<bool>)

  predicate NameOk(s: string) { 2 <= |s| <= 50 }
  predicate PhoneOk(s: string) { 8 <= |s| <= 20 }

  function RegistrationIssues(f: Registration, isEmail: string -> bool): (r: seq<Issue>)
    ensures r == [] <==>
      NameOk(f.firstName) && NameOk(f.lastName) && isEmail(f.email) && PhoneOk(f.phone)
      && |f.password| >= 8 && f.privacyAccepted && f.password == f.confirmPassword
  {
    NameIssues("firstName", f.firstName) + NameIssues("lastName", f.lastName)
    + EmailIssues("email", f.email, isEmail) + PhoneIssues("phone", f.phone)
    + PasswordIssues("password", f.password) + PrivacyIssues("privacyAccepted", f.privacyAccepted)
    + Check(f.password == f.confirmPassword, "confirmPassword", PasswordsDiffer)
  }

  // Appointments

  datatype AppointmentForm = AppointmentForm(
    kind: Store.AppointmentType, auctionNumber: string, title: string, description: Option<string>,
    date: int, startTime: string, endTime: string, location: string, maxParticipants: int)

  /** The refine: `h * 60 + m` of the end exceeds that of the start. A `NaN`
      on either side makes the comparison false. */
  predicate EndAfterStart(startTime: string, endTime: string) {
    match (MinutesOf(startTime), MinutesOf(endTime))
    case (Some(s), Some(e)) => e > s
    case _ => false
  }

  /** On two well-formed times the refine compares hour-and-minute totals:
      equal times are rejected. */
  lemma EndAfterStartOfTimes(h1: nat, m1: nat, pad1: bool, h2: nat, m2: nat, pad2: bool)
    requires h1 < 24 && m1 < 60 && (pad1 || h1 < 10)
    requires h2 < 24 && m2 < 60 && (pad2 || h2 < 10)
    ensures EndAfterStart(TimeText(h1, m1, pad1), TimeText(h2, m2, pad2)) <==> h2 * 60 + m2 > h1 * 60 + m1
  {
    MinutesOfTimeText(h1, m1, pad1);
    MinutesOfTimeText(h2, m2, pad2);
  }

  /** A start equal to the end never passes the refine, whatever the text. */
  lemma EqualTimesRejected(f: AppointmentForm, todayStart: int)
    requires f.startTime == f.endTime
    ensures CreateAppointmentIssues(f, todayStart) != []
  {
  }

  function DescriptionIssues(d: Option<string>): seq<Issue> {
    if d.Some? then Check(|d.value| <= 1000, "description", "Beschreibung maximal 1000 Zeichen") else []
  }

  /** The string fields the two appointment schemas share. */
  datatype TextField = AuctionNumber | Title | StartTime | EndTime | Location

  function Key(f: TextField): string {
    match f
    case AuctionNumber => "auctionNumber"
    case Title => "title"
    case StartTime => "startTime"
    case EndTime => "endTime"
    case Location => "location"
  }

  /** What the checks of one shared field demand of its text. */
  predicate FieldOk(f: TextField, s: string) {
    match f
    case AuctionNumber => 1 <= |s| <= 50
    case Title => 3 <= |s| <= 200
    case StartTime => IsTime(s)
    case EndTime => IsTime(s)
    case Location => 5 <= |s| <= 200
  }

  /** The checks of one shared field, in declaration order. */
  function FieldIssues(f: TextField, s: string): (r: seq<Issue>)
    ensures r == [] <==> FieldOk(f, s)
  {
    match f
    case AuctionNumber =>
      Check(|s| >= 1, "auctionNumber", "Auktionsnummer erforderlich") + Check(|s| <= 50, "auctionNumber", AtMostChars(50))
    case Title =>
      Check(|s| >= 3, "title", "Titel mindestens 3 Zeichen") + Check(|s| <= 200, "title", AtMostChars(200))
    case StartTime => TimeIssues("startTime", s)
    case EndTime => TimeIssues("endTime", s)
    case Location =>
      Check(|s| >= 5, "location", "Standort mindestens 5 Zeichen") + Check(|s| <= 200, "location", AtMostChars(200))
  }

  /** An optional field is checked only when it is given. */
  function GivenIssues(f: TextField, o: Option<string>): (r: seq<Issue>)
    ensures r == [] <==> (o.Some? ==> FieldOk(f, o.value))
  {
    if o.Some? then FieldIssues(f, o.value) else []
  }

  /** `createAppointmentSchema`; `todayStart` is midnight of the current day,
      which the source reads from the clock. */
  function CreateAppointmentIssues(f: AppointmentForm, todayStart: int): (r: seq<Issue>)
    ensures r == [] <==>
      1 <= |f.auctionNumber| <= 50 && 3 <= |f.title| <= 200
      && (f.description.Some? ==> |f.description.value| <= 1000)
      && f.date >= todayStart && IsTime(f.startTime) && IsTime(f.endTime)
      && 5 <= |f.location| <= 200 && 1 <= f.maxParticipants <= 100
      && EndAfterStart(f.startTime, f.endTime)
  {
    BeforeEndTime(f, todayStart) + FieldIssues(EndTime, f.endTime) + FieldIssues(Location, f.location)
    + ParticipantIssues("maxParticipants", f.maxParticipants)
    + Check(EndAfterStart(f.startTime, f.endTime), "endTime", EndNotAfterStart)
  }

  /** The field checks of `createAppointmentSchema` before the end time. */
  function BeforeEndTime(f: AppointmentForm, todayStart: int): seq<Issue> {
    FieldIssues(AuctionNumber, f.auctionNumber) + FieldIssues(Title, f.title)
    + DescriptionIssues(f.description)
    + Check(f.date >= todayStart, "date", "Datum darf nicht in der Vergangenheit liegen")
    + FieldIssues(StartTime, f.startTime)
  }

  /** `updateAppointmentSchema`: every field but the id is optional. */
  datatype AppointmentChanges = AppointmentChanges(
    id: string, kind: Option<Store.AppointmentType>, auctionNumber: Option<string>, title: Option<string>,
    description: Option<string>, date: Option<int>, startTime: Option<string>, endTime: Option<string>,
    location: Option<string>, maxParticipants: Option<int>, status: Option<Store.AppointmentStatus>)

  function UpdateAppointmentIssues(c: AppointmentChanges, isCuid: string -> bool): (r: seq<Issue>)
    ensures r == [] <==>
      isCuid(c.id)
      && (c.auctionNumber.Some? ==> 1 <= |c.auctionNumber.value| <= 50)
      && (c.title.Some? ==> 3 <= |c.title.value| <= 200)
      && (c.description.Some? ==> |c.description.value| <= 1000)
      && (c.startTime.Some? ==> IsTime(c.startTime.value))
      && (c.endTime.Some? ==> IsTime(c.endTime.value))
      && (c.location.Some? ==> 5 <= |c.location.value| <= 200)
      && (c.maxParticipants.Some? ==> 1 <= c.maxParticipants.value <= 100)
  {
    UpdateBeforeParticipants(c, isCuid)
    + (if c.maxParticipants.Some? then ParticipantIssues("maxParticipants", c.maxParticipants.value) else [])
  }

  /** The checks of `updateAppointmentSchema` on the fields before the
      participant limit; absent fields are not checked. */
  function UpdateBeforeParticipants(c: AppointmentChanges, isCuid: string -> bool): seq<Issue> {
    Check(isCuid(c.id), "id", InvalidCuid)
    + GivenIssues(AuctionNumber, c.auctionNumber) + GivenIssues(Title, c.title)
    + DescriptionIssues(c.description)
    + GivenIssues(StartTime, c.startTime) + GivenIssues(EndTime, c.endTime)
    + GivenIssues(Location, c.location)
  }

  // Bookings

  datatype BookingForm = BookingForm(
    appointmentId: string, firstName: string, lastName: string, email: string, phone: string,
    bidderAccount: Option<string>, privacyAccepted: bool, marketingAccepted: Option<bool>)

  function CreateBookingIssues(f: BookingForm, isEmail: string -> bool, isCuid: string -> bool): (r: seq<Issue>)
    ensures r == [] <==>
      isCuid(f.appointmentId) && NameOk(f.firstName) && NameOk(f.lastName) && isEmail(f.email)
      && PhoneOk(f.phone) && (f.bidderAccount.Some? ==> |f.bidderAccount.value| <= 100)
      && f.privacyAccepted
  {
    Check(isCuid(f.appointmentId), "appointmentId", "Ungültige Termin-ID")
    + NameIssues("firstName", f.firstName) + NameIssues("lastName", f.lastName)
    + EmailIssues("email", f.email, isEmail) + PhoneIssues("phone", f.phone)
    + (if f.bidderAccount.Some? then
         Check(|f.bidderAccount.value| <= 100, "bidderAccount", "Bieterkonto maximal 100 Zeichen")
       else [])
    + PrivacyIssues("privacyAccepted", f.privacyAccepted)
  }

  datatype BookingChange = BookingChange(id: string, status: Store.BookingStatus, cancellationReason: Option<string>)

  function UpdateBookingIssues(c: BookingChange, isCuid: string -> bool): (r: seq<Issue>)
    ensures r == [] <==>
      isCuid(c.id) && (c.cancellationReason.Some? ==> |c.cancellationReason.value| <= 500)
  {
    Check(isCuid(c.id), "id", InvalidCuid)
    + (if c.cancellationReason.Some? then
         Check(|c.cancellationReason.value| <= 500, "cancellationReason", "Begründung maximal 500 Zeichen")
       else [])
  }

  // validateForm

  /** What `schema.parse(data)` does: returns the value, throws a `ZodError`
      with its issues, or throws something else. */
  datatype ParseOutcome<T> = Parsed(value: T) | ZodRejected(issues: seq<Issue>) | Threw

  /** Parsing a typed input against a schema whose issue list is `issues`. */
  function Parse<T>(value: T, issues: seq<Issue>): (r: ParseOutcome<T>)
    ensures r.Parsed? <==> issues == []
    ensures r.Parsed? ==> r.value == value
    ensures r.ZodRejected? ==> r.issues == issues
  {
    if issues == [] then Parsed(value) else ZodRejected(issues)
  }

  datatype FormResult<T> = FormResult(success: bool, data: Option<T>, errors: Option<map<string, string>>)

  predicate KeyedAt(x: Issue, key: string) {
    |x.path| > 0 && x.path[0] == key
  }

  /** Reference reading of the error record: the message of the last issue
      whose path starts with `key`, if any. */
  function LastMessage(issues: seq<Issue>, key: string): Option<string> {
    if issues == [] then None
    else if KeyedAt(issues[|issues| - 1], key) then Some(issues[|issues| - 1].message)
    else LastMessage(issues[..|issues| - 1], key)
  }

  /** A key gets a message iff some issue's path starts with it... */
  lemma {:induction false} LastMessagePresent(issues: seq<Issue>, key: string)
    ensures LastMessage(issues, key).Some? <==> exists i :: 0 <= i < |issues| && KeyedAt(issues[i], key)
  {
    if issues != [] {
      var prefix := issues[..|issues| - 1];
      LastMessagePresent(prefix, key);
      if !KeyedAt(issues[|issues| - 1], key) {
        forall i | 0 <= i < |issues| && KeyedAt(issues[i], key)
          ensures 0 <= i < |prefix| && KeyedAt(prefix[i], key)
        {
        }
      }
    }
  }

  /** ...and the message is that of the last such issue. */
  lemma {:induction false} LastMessageIsLast(issues: seq<Issue>, key: string, i: int)
    requires 0 <= i < |issues| && KeyedAt(issues[i], key)
    requires forall j :: i < j < |issues| ==> !KeyedAt(issues[j], key)
    ensures LastMessage(issues, key) == Some(issues[i].message)
  {
    if i < |issues| - 1 {
      var prefix := issues[..|issues| - 1];
      assert !KeyedAt(issues[|issues| - 1], key);
      assert forall j :: i < j < |prefix| ==> prefix[j] == issues[j];
      LastMessageIsLast(prefix, key, i);
    }
  }

  /** The issues of a later part override those of an earlier part. */
  lemma {:induction false} LastMessageConcat(a: seq<Issue>, b: seq<Issue>, key: string)
    ensures LastMessage(a + b, key) == if LastMessage(b, key).Some? then LastMessage(b, key) else LastMessage(a, key)
  {
    if b == [] {
      assert a + b == a;
    } else {
      assert (a + b)[..|a + b| - 1] == a + b[..|b| - 1];
      LastMessageConcat(a, b[..|b| - 1], key);
    }
  }

  /** The `forEach` that writes each issue with a non-empty path under its
      first path element, later issues overwriting earlier ones. */
  function CollectErrors(issues: seq<Issue>): (r: map<string, string>)
    ensures forall key :: key in r <==> LastMessage(issues, key).Some?
    ensures forall key :: key in r ==> Some(r[key]) == LastMessage(issues, key)
  {
    if issues == [] then map[]
    else
      var last := issues[|issues| - 1];
      var before := CollectErrors(issues[..|issues| - 1]);
      if |last.path| > 0 then before[last.path[0] := last.message] else before
  }

  /** Errors of a concatenation: the later part's keys override the earlier's. */
  lemma CollectErrorsConcat(a: seq<Issue>, b: seq<Issue>)
    ensures CollectErrors(a + b) == CollectErrors(a) + CollectErrors(b)
  {
    forall key ensures LastMessage(a + b, key) == if LastMessage(b, key).Some? then LastMessage(b, key) else LastMessage(a, key) {
      LastMessageConcat(a, b, key);
    }
  }

  function ValidateForm<T>(outcome: ParseOutcome<T>): (r: FormResult<T>)
    ensures r.success <==> outcome.Parsed?
    ensures r.success ==> r.data == Some(outcome.value) && r.errors.None?
    ensures !r.success ==> r.data.None? && r.errors.Some?
    ensures outcome.Threw? ==> r.errors.value == map["general" := "Validierungsfehler"]
    ensures outcome.ZodRejected? ==>
      forall key :: (key in r.errors.value <==> LastMessage(outcome.issues, key).Some?)
        && (key in r.errors.value ==> Some(r.errors.value[key]) == LastMessage(outcome.issues, key))
  {
    match outcome
    case Parsed(v) => FormResult(true, Some(v), None)
    case ZodRejected(issues) => FormResult(false, None, Some(CollectErrors(issues)))
    case Threw => FormResult(false, None, Some(map["general" := "Validierungsfehler"]))
  }
}

module ValidationErrors {
  import opened Wrappers
  import opened Text
  import opened TimeOfDay
  import opened Validations

  /** Every issue of `s` has a path starting with one of `keys`. */
  predicate KeysWithin(s: seq<Issue>, keys: set<string>) {
    forall i :: 0 <= i < |s| ==> |s[i].path| > 0 && s[i].path[0] in keys
  }

  lemma KeysWithinConcat(a: seq<Issue>, ka: set<string>, b: seq<Issue>, kb: set<string>)
    requires KeysWithin(a, ka) && KeysWithin(b, kb)
    ensures KeysWithin(a + b, ka + kb)
  {
  }

  /** The message under `key` comes from the one part that can carry it. */
  lemma MessageOfPart(a: seq<Issue>, ka: set<string>, p: seq<Issue>, b: seq<Issue>, kb: set<string>, key: string)
    requires KeysWithin(a, ka) && KeysWithin(b, kb) && key !in ka && key !in kb
    ensures LastMessage(a + p + b, key) == LastMessage(p, key)
  {
    LastMessagePresent(a, key);
    LastMessagePresent(b, key);
    LastMessageConcat(a + p, b, key);
    LastMessageConcat(a, p, key);
  }

  /** The error record of a rejected form holds, under `key`, exactly the
      message the issue list leaves there. */
  lemma ErrorOfMessage<T>(v: T, issues: seq<Issue>, key: string, m: Option<string>)
    requires LastMessage(issues, key) == m
    ensures var r := ValidateForm(Parse(v, issues));
      !r.success ==> (key in r.errors.value <==> m.Some?) && (m.Some? ==> r.errors.value[key] == m.value)
  {
  }

  /** The message of two checks on one field: the later failing one wins. */
  lemma TwoChecksMessage(ok1: bool, ok2: bool, field: string, m1: string, m2: string)
    ensures LastMessage(Check(ok1, field, m1) + Check(ok2, field, m2), field)
      == if !ok2 then Some(m2) else if !ok1 then Some(m1) else None
  {
    LastMessageConcat(Check(ok1, field, m1), Check(ok2, field, m2), field);
    OneCheckMessage(ok1, field, m1);
    OneCheckMessage(ok2, field, m2);
  }

  lemma OneCheckMessage(ok: bool, field: string, m: string)
    ensures LastMessage(Check(ok, field, m), field) == if ok then None else Some(m)
  {
    if !ok {
      assert Check(ok, field, m)[..0] == [];
    }
  }

  function RegistrationResult(f: Registration, isEmail: string -> bool): FormResult<Registration> {
    ValidateForm(Parse(f, RegistrationIssues(f, isEmail)))
  }

  /** The issues before the phone check, and after it up to the refine. */
  lemma RegistrationParts(f: Registration, isEmail: string -> bool)
    ensures KeysWithin(NameIssues("firstName", f.firstName) + NameIssues("lastName", f.lastName)
                       + EmailIssues("email", f.email, isEmail), {"firstName", "lastName", "email"})
    ensures KeysWithin(PasswordIssues("password", f.password) + PrivacyIssues("privacyAccepted", f.privacyAccepted),
                       {"password", "privacyAccepted"})
  {
  }

  /** A password mismatch is reported under `confirmPassword`, and only then. */
  lemma RegistrationMismatchError(f: Registration, isEmail: string -> bool)
    ensures var r := RegistrationResult(f, isEmail);
      !r.success ==>
        && ("confirmPassword" in r.errors.value <==> f.password != f.confirmPassword)
        && (f.password != f.confirmPassword ==> r.errors.value["confirmPassword"] == PasswordsDiffer)
  {
    var a := NameIssues("firstName", f.firstName) + NameIssues("lastName", f.lastName)
      + EmailIssues("email", f.email, isEmail) + PhoneIssues("phone", f.phone)
      + PasswordIssues("password", f.password) + PrivacyIssues("privacyAccepted", f.privacyAccepted);
    var d := Check(f.password == f.confirmPassword, "confirmPassword", PasswordsDiffer);
    assert RegistrationIssues(f, isEmail) == a + d + [];
    RegistrationParts(f, isEmail);
    assert KeysWithin(a, {"firstName", "lastName", "email", "phone", "password", "privacyAccepted"});
    MessageOfPart(a, {"firstName", "lastName", "email", "phone", "password", "privacyAccepted"}, d, [], {}, "confirmPassword");
    OneCheckMessage(f.password == f.confirmPassword, "confirmPassword", PasswordsDiffer);
  }

  /** A refused privacy notice is reported under `privacyAccepted`, and only then. */
  lemma RegistrationPrivacyError(f: Registration, isEmail: string -> bool)
    ensures var r := RegistrationResult(f, isEmail);
      !r.success ==>
        && ("privacyAccepted" in r.errors.value <==> !f.privacyAccepted)
        && (!f.privacyAccepted ==> r.errors.value["privacyAccepted"] == PrivacyRequired)
  {
    var a := NameIssues("firstName", f.firstName) + NameIssues("lastName", f.lastName)
      + EmailIssues("email", f.email, isEmail) + PhoneIssues("phone", f.phone)
      + PasswordIssues("password", f.password);
    var c := PrivacyIssues("privacyAccepted", f.privacyAccepted);
    var d := Check(f.password == f.confirmPassword, "confirmPassword", PasswordsDiffer);
    assert RegistrationIssues(f, isEmail) == a + c + d;
    RegistrationParts(f, isEmail);
    assert KeysWithin(a, {"firstName", "lastName", "email", "phone", "password"});
    MessageOfPart(a, {"firstName", "lastName", "email", "phone", "password"}, c, d, {"confirmPassword"}, "privacyAccepted");
    OneCheckMessage(f.privacyAccepted, "privacyAccepted", PrivacyRequired);
  }

  lemma RegistrationPhoneMessage(f: Registration, isEmail: string -> bool)
    ensures LastMessage(RegistrationIssues(f, isEmail), "phone") == LastMessage(PhoneIssues("phone", f.phone), "phone")
  {
    var a := NameIssues("firstName", f.firstName) + NameIssues("lastName", f.lastName)
      + EmailIssues("email", f.email, isEmail);
    var p := PhoneIssues("phone", f.phone);
    var b := PasswordIssues("password", f.password) + PrivacyIssues("privacyAccepted", f.privacyAccepted)
      + Check(f.password == f.confirmPassword, "confirmPassword", PasswordsDiffer);
    assert RegistrationIssues(f, isEmail) == a + p + b;
    RegistrationParts(f, isEmail);
    assert KeysWithin(b, {"password", "privacyAccepted", "confirmPassword"});
    MessageOfPart(a, {"firstName", "lastName", "email"}, p, b, {"password", "privacyAccepted", "confirmPassword"}, "phone");
  }

  /** A phone number outside [8, 20] characters is reported under `phone`
      with the bound it breaks. */
  lemma RegistrationPhoneError(f: Registration, isEmail: string -> bool)
    ensures var r := RegistrationResult(f, isEmail);
      !r.success ==>
        && ("phone" in r.errors.value <==> !PhoneOk(f.phone))
        && (|f.phone| < 8 ==> r.errors.value["phone"] == "Telefonnummer zu kurz")
        && (|f.phone| > 20 ==> r.errors.value["phone"] == "Telefonnummer zu lang")
  {
    RegistrationPhoneMessage(f, isEmail);
    TwoChecksMessage(|f.phone| >= 8, |f.phone| <= 20, "phone", "Telefonnummer zu kurz", "Telefonnummer zu lang");
  }

  // Appointments

  function CreateAppointmentResult(f: AppointmentForm, todayStart: int): FormResult<AppointmentForm> {
    ValidateForm(Parse(f, CreateAppointmentIssues(f, todayStart)))
  }

  /** The checks before the end time and those of the location report only
      under their own fields. */
  lemma CreateAppointmentParts(f: AppointmentForm, todayStart: int)
    ensures KeysWithin(BeforeEndTime(f, todayStart), {"auctionNumber", "title", "description", "date", "startTime"})
    ensures KeysWithin(FieldIssues(Location, f.location), {"location"})
  {
  }

  /** A participant limit outside [1, 100] is reported under
      `maxParticipants` with the bound it breaks, and nothing else is. */
  lemma CreateParticipantsError(f: AppointmentForm, todayStart: int)
    ensures var r := CreateAppointmentResult(f, todayStart);
      !r.success ==>
        && ("maxParticipants" in r.errors.value <==> !(1 <= f.maxParticipants <= 100))
        && (f.maxParticipants < 1 ==> r.errors.value["maxParticipants"] == "Mindestens 1 Teilnehmer")
        && (f.maxParticipants > 100 ==> r.errors.value["maxParticipants"] == "Maximal 100 Teilnehmer")
  {
    CreateParticipantsMessage(f, todayStart);
    ErrorOfMessage(f, CreateAppointmentIssues(f, todayStart), "maxParticipants",
      if f.maxParticipants > 100 then Some("Maximal 100 Teilnehmer")
      else if f.maxParticipants < 1 then Some("Mindestens 1 Teilnehmer")
      else None);
  }

  lemma CreateParticipantsMessage(f: AppointmentForm, todayStart: int)
    ensures LastMessage(CreateAppointmentIssues(f, todayStart), "maxParticipants")
      == if f.maxParticipants > 100 then Some("Maximal 100 Teilnehmer")
         else if f.maxParticipants < 1 then Some("Mindestens 1 Teilnehmer")
         else None
  {
    CreateAppointmentParts(f, todayStart);
    var before := BeforeEndTime(f, todayStart);
    var kb := {"auctionNumber", "title", "description", "date", "startTime"};
    var a := before + FieldIssues(EndTime, f.endTime) + FieldIssues(Location, f.location);
    var d := Check(EndAfterStart(f.startTime, f.endTime), "endTime", EndNotAfterStart);
    assert KeysWithin(a, kb + {"endTime"} + {"location"}) by {
      FieldKeys(EndTime, f.endTime);
      KeysWithinConcat(before, kb, FieldIssues(EndTime, f.endTime), {"endTime"});
      KeysWithinConcat(before + FieldIssues(EndTime, f.endTime), kb + {"endTime"},
        FieldIssues(Location, f.location), {"location"});
    }
    MessageOfPart(a, kb + {"endTime"} + {"location"}, ParticipantIssues("maxParticipants", f.maxParticipants),
      d, {"endTime"}, "maxParticipants");
    TwoChecksMessage(f.maxParticipants >= 1, f.maxParticipants <= 100, "maxParticipants",
      "Mindestens 1 Teilnehmer", "Maximal 100 Teilnehmer");
  }

  /** The end time carries the refine's message whenever the refine fails,
      hiding a format error on the same field; the format message shows only
      when the refine passes. */
  lemma CreateEndTimeError(f: AppointmentForm, todayStart: int)
    ensures var r := CreateAppointmentResult(f, todayStart);
      !r.success ==>
        && ("endTime" in r.errors.value <==> !IsTime(f.endTime) || !EndAfterStart(f.startTime, f.endTime))
        && (!EndAfterStart(f.startTime, f.endTime) ==> r.errors.value["endTime"] == EndNotAfterStart)
        && (!IsTime(f.endTime) && EndAfterStart(f.startTime, f.endTime) ==> r.errors.value["endTime"] == TimeFormat)
  {
    CreateEndTimeMessage(f, todayStart);
    ErrorOfMessage(f, CreateAppointmentIssues(f, todayStart), "endTime",
      if !EndAfterStart(f.startTime, f.endTime) then Some(EndNotAfterStart)
      else if !IsTime(f.endTime) then Some(TimeFormat)
      else None);
  }

  lemma CreateEndTimeMessage(f: AppointmentForm, todayStart: int)
    ensures LastMessage(CreateAppointmentIssues(f, todayStart), "endTime")
      == if !EndAfterStart(f.startTime, f.endTime) then Some(EndNotAfterStart)
         else if !IsTime(f.endTime) then Some(TimeFormat)
         else None
  {
    CreateAppointmentParts(f, todayStart);
    var t := FieldIssues(EndTime, f.endTime);
    assert t == Check(IsTime(f.endTime), "endTime", TimeFormat);
    var b := FieldIssues(Location, f.location) + ParticipantIssues("maxParticipants", f.maxParticipants);
    var d := Check(EndAfterStart(f.startTime, f.endTime), "endTime", EndNotAfterStart);
    assert CreateAppointmentIssues(f, todayStart) == (BeforeEndTime(f, todayStart) + t + b) + d;
    assert KeysWithin(b, {"location", "maxParticipants"});
    MessageOfPart(BeforeEndTime(f, todayStart), {"auctionNumber", "title", "description", "date", "startTime"},
      t, b, {"location", "maxParticipants"}, "endTime");
    LastMessageConcat(BeforeEndTime(f, todayStart) + t + b, d, "endTime");
    OneCheckMessage(IsTime(f.endTime), "endTime", TimeFormat);
    OneCheckMessage(EndAfterStart(f.startTime, f.endTime), "endTime", EndNotAfterStart);
  }

  /** An end time at hour 24 after a valid start is reported as a format
      error only: "24:00" passes the end-after-start rule. */
  lemma EndTimeTwentyFour(f: AppointmentForm, todayStart: int, m: nat)
    requires m < 60 && IsTime(f.startTime)
    requires f.endTime == "24:" + [DigitChar(m / 10), DigitChar(m % 10)]
    ensures var r := CreateAppointmentResult(f, todayStart);
      !r.success && "endTime" in r.errors.value && r.errors.value["endTime"] == TimeFormat
  {
    HourTwentyFour(m);
    MinutesOfValidTime(f.startTime);
    EndTimeFormatOnly(f, todayStart);
  }

  lemma EndTimeFormatOnly(f: AppointmentForm, todayStart: int)
    requires EndAfterStart(f.startTime, f.endTime) && !IsTime(f.endTime)
    ensures var r := CreateAppointmentResult(f, todayStart);
      !r.success && "endTime" in r.errors.value && r.errors.value["endTime"] == TimeFormat
  {
    CreateEndTimeError(f, todayStart);
  }

  /** An end time without a colon is reported as not after the start: the
      refine's message overwrites the format message. */
  lemma EndTimeWithoutColon(f: AppointmentForm, todayStart: int)
    requires ':' !in f.endTime
    ensures var r := CreateAppointmentResult(f, todayStart);
      !r.success && "endTime" in r.errors.value && r.errors.value["endTime"] == EndNotAfterStart
  {
    CreateAppointmentParts(f, todayStart);
    assert |Check(EndAfterStart(f.startTime, f.endTime), "endTime", EndNotAfterStart)| == 1;
    CreateEndTimeError(f, todayStart);
    assert AfterFirst(f.endTime, ':') == None;
  }

  function UpdateAppointmentResult(c: AppointmentChanges, isCuid: string -> bool): FormResult<AppointmentChanges> {
    ValidateForm(Parse(c, UpdateAppointmentIssues(c, isCuid)))
  }

  /** A shared field reports only under its own key. */
  lemma FieldKeys(f: TextField, s: string)
    ensures KeysWithin(FieldIssues(f, s), {Key(f)})
  {
  }

  lemma GivenKeys(f: TextField, o: Option<string>)
    ensures KeysWithin(GivenIssues(f, o), {Key(f)})
  {
    if o.Some? {
      FieldKeys(f, o.value);
    }
  }

  lemma UpdateBeforeParticipantsKeys(c: AppointmentChanges, isCuid: string -> bool)
    ensures KeysWithin(UpdateBeforeParticipants(c, isCuid),
                       {"id", "auctionNumber", "title", "description", "startTime", "endTime", "location"})
  {
    GivenKeys(AuctionNumber, c.auctionNumber);
    GivenKeys(Title, c.title);
    GivenKeys(StartTime, c.startTime);
    GivenKeys(EndTime, c.endTime);
    GivenKeys(Location, c.location);
    UpdateKeysOfParts(Check(isCuid(c.id), "id", InvalidCuid),
      GivenIssues(AuctionNumber, c.auctionNumber), GivenIssues(Title, c.title), DescriptionIssues(c.description),
      GivenIssues(StartTime, c.startTime), GivenIssues(EndTime, c.endTime), GivenIssues(Location, c.location));
  }

  lemma UpdateKeysOfParts(id: seq<Issue>, an: seq<Issue>, ti: seq<Issue>, de: seq<Issue>,
                          st: seq<Issue>, et: seq<Issue>, lo: seq<Issue>)
    requires KeysWithin(id, {"id"}) && KeysWithin(an, {"auctionNumber"}) && KeysWithin(ti, {"title"})
    requires KeysWithin(de, {"description"}) && KeysWithin(st, {"startTime"}) && KeysWithin(et, {"endTime"})
    requires KeysWithin(lo, {"location"})
    ensures KeysWithin(id + an + ti + de + st + et + lo,
                       {"id", "auctionNumber", "title", "description", "startTime", "endTime", "location"})
  {
    var k1 := {"id", "auctionNumber", "title", "description"};
    var k2 := {"startTime", "endTime", "location"};
    assert KeysWithin(id + an + ti + de, k1) by {
      KeysWithinConcat(id, {"id"}, an, {"auctionNumber"});
      KeysWithinConcat(id + an, {"id", "auctionNumber"}, ti, {"title"});
      KeysWithinConcat(id + an + ti, {"id", "auctionNumber", "title"}, de, {"description"});
    }
    assert KeysWithin(st + et + lo, k2) by {
      KeysWithinConcat(st, {"startTime"}, et, {"endTime"});
      KeysWithinConcat(st + et, {"startTime", "endTime"}, lo, {"location"});
    }
    KeysWithinConcat(id + an + ti + de, k1, st + et + lo, k2);
    assert id + an + ti + de + st + et + lo == (id + an + ti + de) + (st + et + lo);
    assert k1 + k2 == {"id", "auctionNumber", "title", "description", "startTime", "endTime", "location"};
  }

  /** On update, a participant limit that is given must lie in [1, 100]. */
  lemma UpdateParticipantsError(c: AppointmentChanges, isCuid: string -> bool)
    ensures var r := UpdateAppointmentResult(c, isCuid);
      !r.success ==>
        && ("maxParticipants" in r.errors.value <==> c.maxParticipants.Some? && !(1 <= c.maxParticipants.value <= 100))
        && (c.maxParticipants.Some? && c.maxParticipants.value < 1 ==>
              r.errors.value["maxParticipants"] == "Mindestens 1 Teilnehmer")
        && (c.maxParticipants.Some? && c.maxParticipants.value > 100 ==>
              r.errors.value["maxParticipants"] == "Maximal 100 Teilnehmer")
  {
    var m := if c.maxParticipants.Some? then ParticipantIssues("maxParticipants", c.maxParticipants.value) else [];
    var a := UpdateBeforeParticipants(c, isCuid);
    assert UpdateAppointmentIssues(c, isCuid) == a + m + [];
    UpdateBeforeParticipantsKeys(c, isCuid);
    MessageOfPart(a, {"id", "auctionNumber", "title", "description", "startTime", "endTime", "location"}, m, [], {}, "maxParticipants");
    if c.maxParticipants.Some? {
      TwoChecksMessage(c.maxParticipants.value >= 1, c.maxParticipants.value <= 100, "maxParticipants",
        "Mindestens 1 Teilnehmer", "Maximal 100 Teilnehmer");
    }
  }

  /** The update schema has no end-after-start rule: an end time before
      (or equal to) the start time is accepted. */
  lemma UpdateAcceptsEndBeforeStart(c: AppointmentChanges, isCuid: string -> bool,
                                    h1: nat, m1: nat, pad1: bool, h2: nat, m2: nat, pad2: bool)
    requires h1 < 24 && m1 < 60 && (pad1 || h1 < 10)
    requires h2 < 24 && m2 < 60 && (pad2 || h2 < 10)
    requires h2 * 60 + m2 <= h1 * 60 + m1
    requires isCuid(c.id)
    requires c.auctionNumber.None? && c.title.None? && c.description.None? && c.location.None? && c.maxParticipants.None?
    requires c.startTime == Some(TimeText(h1, m1, pad1)) && c.endTime == Some(TimeText(h2, m2, pad2))
    ensures UpdateAppointmentResult(c, isCuid).success
    ensures !EndAfterStart(c.startTime.value, c.endTime.value)
  {
    TextMatchesPattern(h1, m1, pad1);
    TextMatchesPattern(h2, m2, pad2);
    EndAfterStartOfTimes(h1, m1, pad1, h2, m2, pad2);
  }

  // Bookings

  function CreateBookingResult(f: BookingForm, isEmail: string -> bool, isCuid: string -> bool): FormResult<BookingForm> {
    ValidateForm(Parse(f, CreateBookingIssues(f, isEmail, isCuid)))
  }

  /** A booking without accepted privacy notice is refused, with the message
      under `privacyAccepted`. */
  lemma CreateBookingPrivacyError(f: BookingForm, isEmail: string -> bool, isCuid: string -> bool)
    ensures var r := CreateBookingResult(f, isEmail, isCuid);
      && (!f.privacyAccepted ==> !r.success)
      && (!r.success ==>
          && ("privacyAccepted" in r.errors.value <==> !f.privacyAccepted)
          && (!f.privacyAccepted ==> r.errors.value["privacyAccepted"] == PrivacyRequired))
  {
    CreateBookingPrivacyMessage(f, isEmail, isCuid);
    ErrorOfMessage(f, CreateBookingIssues(f, isEmail, isCuid), "privacyAccepted",
      if f.privacyAccepted then None else Some(PrivacyRequired));
  }

  lemma CreateBookingPrivacyMessage(f: BookingForm, isEmail: string -> bool, isCuid: string -> bool)
    ensures LastMessage(CreateBookingIssues(f, isEmail, isCuid), "privacyAccepted")
      == if f.privacyAccepted then None else Some(PrivacyRequired)
  {
    var c := PrivacyIssues("privacyAccepted", f.privacyAccepted);
    var issues := CreateBookingIssues(f, isEmail, isCuid);
    var a := issues[..|issues| - |c|];
    assert issues == a + c + [];
    var ka := {"appointmentId", "firstName", "lastName", "email", "phone", "bidderAccount"};
    assert KeysWithin(a, ka);
    MessageOfPart(a, ka, c, [], {}, "privacyAccepted");
    OneCheckMessage(f.privacyAccepted, "privacyAccepted", PrivacyRequired);
  }

  function UpdateBookingResult(c: BookingChange, isCuid: string -> bool): FormResult<BookingChange> {
    ValidateForm(Parse(c, UpdateBookingIssues(c, isCuid)))
  }

  /** A cancellation reason longer than 500 characters is refused under
      `cancellationReason`; an id that is not a cuid under `id`. */
  lemma UpdateBookingErrors(c: BookingChange, isCuid: string -> bool)
    ensures var r := UpdateBookingResult(c, isCuid);
      !r.success ==>
        && ("cancellationReason" in r.errors.value <==>
              c.cancellationReason.Some? && |c.cancellationReason.value| > 500)
        && ("id" in r.errors.value <==> !isCuid(c.id))
        && ("id" in r.errors.value ==> r.errors.value["id"] == InvalidCuid)
  {
    var i := Check(isCuid(c.id), "id", InvalidCuid);
    var m := if c.cancellationReason.Some? then
        Check(|c.cancellationReason.value| <= 500, "cancellationReason", "Begründung maximal 500 Zeichen")
      else [];
    assert UpdateBookingIssues(c, isCuid) == i + m + [] && UpdateBookingIssues(c, isCuid) == [] + i + m;
    MessageOfPart(i, {"id"}, m, [], {}, "cancellationReason");
    MessageOfPart([], {}, i, m, {"cancellationReason"}, "id");
    OneCheckMessage(isCuid(c.id), "id", InvalidCuid);
    if c.cancellationReason.Some? {
      OneCheckMessage(|c.cancellationReason.value| <= 500, "cancellationReason", "Begründung maximal 500 Zeichen");
    }
  }
}
