/**
 * The appointment schema of backend/models/Appointment.js: its fields, the
 * status enumeration with its default, the `pre('validate')` hook (half-hour
 * check, DD/MM/YYYY normalisation, `scheduledAt` derivation) and the
 * required-field validation that `save()` runs. Parsing a date string
 * (`new Date(text)`) is an oracle passed in.
 */
module AppointmentModel {
  import opened Wrappers
  import opened Strings
  import opened AuthMiddleware
  import opened ProductRoutes

  /** Milliseconds since the epoch. */
  type Instant = int

  /** `new Date(text)`: the instant, or `None` for an Invalid Date. */
  type DateParser = string -> Option<Instant>

  datatype Status = Scheduled | Arrived | Expired | Cancelled

  /** The stored spelling of a status. */
  function StatusName(s: Status): string {
    match s
    case Scheduled => "scheduled"
    case Arrived => "arrived"
    case Expired => "expired"
    case Cancelled => "cancelled"
  }

  /** The schema's enum check: only the four spellings are statuses. */
  function ParseStatus(name: string): (r: Option<Status>)
    ensures r.Some? ==> StatusName(r.value) == name
  {
    if name == "scheduled" then Some(Scheduled)
    else if name == "arrived" then Some(Arrived)
    else if name == "expired" then Some(Expired)
    else if name == "cancelled" then Some(Cancelled)
    else None
  }

  lemma StatusRoundTrip(s: Status)
    ensures ParseStatus(StatusName(s)) == Some(s)
  {
  }

  /** An appointment document. Optional fields are those a caller may leave out. */
  datatype Appointment = Appointment(
    id: nat,
    user: Option<UserId>,
    nombre: Option<string>,
    telefono: Option<string>,
    service: Option<string>,
    date: Option<string>,
    hour: Option<string>,
    scheduledAt: Option<Instant>,
    parts: seq<ProductId>,
    status: Status,
    createdAt: Instant)

  /** `Number(hour.split(':')[1])`: `None` when there is no second field or it is not a number. */
  function MinuteOf(hour: string): (m: Option<int>)
    ensures ':' !in hour ==> m.None?
  {
    var parts := Split(hour, ':');
    if |parts| < 2 then None else StringToNumber(parts[1])
  }

  /** The minute of an "HH:MM" hour is the number written after the colon. */
  lemma MinuteOfHourMinute(h: string, mm: string)
    requires ':' !in h && ':' !in mm
    ensures MinuteOf(h + ":" + mm) == StringToNumber(mm)
  {
    SplitCons(h, ':', mm);
    assert h + ":" + mm == h + [':'] + mm;
  }

  /** The half-hour rule: the minute part is 0 or 30. */
  predicate OnHalfHour(hour: string) {
    MinuteOf(hour) == Some(0) || MinuteOf(hour) == Some(30)
  }

  /** An "HH:MM" hour with a digit minute passes the half-hour rule exactly when
      its minute is 0 or 30: "10:30" and "10:00" pass, "10:15" does not. */
  lemma HalfHourOfHourMinute(h: string, mm: string)
    requires ':' !in h && AllDigits(mm) && mm != []
    ensures OnHalfHour(h + ":" + mm) <==> DigitsValue(mm) == 0 || DigitsValue(mm) == 30
  {
    NoSeparatorInDigits(mm, ':');
    MinuteOfHourMinute(h, mm);
  }

  /** A date with a '/' is read as DD/MM/YYYY and rewritten YYYY-MM-DD (a missing
      part interpolates as "undefined"); any other date is kept as it is. */
  function IsoDate(date: string): (iso: string)
    ensures '/' !in date ==> iso == date
  {
    if '/' in date then
      var parts := Split(date, '/');
      PartOr(parts, 2) + "-" + PartOr(parts, 1) + "-" + PartOr(parts, 0)
    else date
  }

  lemma IsoDateOfDayMonthYear(dd: string, mm: string, yyyy: string)
    requires '/' !in dd && '/' !in mm && '/' !in yyyy
    ensures IsoDate(dd + "/" + mm + "/" + yyyy) == yyyy + "-" + mm + "-" + dd
  {
    assert dd + "/" + mm + "/" + yyyy == dd + ['/'] + (mm + ['/'] + yyyy);
    SplitCons(dd, '/', mm + ['/'] + yyyy);
    SplitCons(mm, '/', yyyy);
  }

  /** The text the hook hands to `new Date`: `${isoDate}T${hour}:00`. */
  function ScheduledAtText(date: string, hour: string): string {
    IsoDate(date) + "T" + hour + ":00"
  }

  datatype ValidationError =
    | NotOnHalfHour
    | InvalidPaths(paths: seq<string>)

  /** The `pre('validate')` hook. */
  function PreValidate(doc: Appointment, parse: DateParser): (r: Result<Appointment, ValidationError>)
    ensures Given(doc.hour) && !OnHalfHour(doc.hour.value) ==> r == Failure(NotOnHalfHour)
    ensures r.Success? && doc.scheduledAt.Some? ==> r.value == doc
    ensures r.Success? && doc.scheduledAt.None? && Given(doc.date) && Given(doc.hour) ==>
      r.value == doc.(scheduledAt := parse(ScheduledAtText(doc.date.value, doc.hour.value)))
            && r.value.scheduledAt.Some?
    ensures r.Success? ==> r.value.(scheduledAt := doc.scheduledAt) == doc
  {
    if Given(doc.hour) && !OnHalfHour(doc.hour.value) then Failure(NotOnHalfHour)
    else if doc.scheduledAt.None? && Given(doc.date) && Given(doc.hour) then
      match parse(ScheduledAtText(doc.date.value, doc.hour.value))
      case None => Failure(InvalidPaths(["scheduledAt"]))
      case Some(t) => Success(doc.(scheduledAt := Some(t)))
    else Success(doc)
  }

  /** The required paths that are missing, in schema order. */
  function MissingPaths(doc: Appointment): (paths: seq<string>)
    ensures paths == [] <==>
      doc.user.Some? && Given(doc.nombre) && Given(doc.telefono) && Given(doc.service)
      && Given(doc.date) && Given(doc.hour) && doc.scheduledAt.Some?
  {
    (if doc.user.None? then ["user"] else [])
    + (if !Given(doc.nombre) then ["nombre"] else [])
    + (if !Given(doc.telefono) then ["telefono"] else [])
    + (if !Given(doc.service) then ["service"] else [])
    + (if !Given(doc.date) then ["date"] else [])
    + (if !Given(doc.hour) then ["hour"] else [])
    + (if doc.scheduledAt.None? then ["scheduledAt"] else [])
  }

  /** What `save()` checks: the hook, then every required path. */
  function Validate(doc: Appointment, parse: DateParser): (r: Result<Appointment, ValidationError>)
    ensures r.Success? <==>
      && doc.user.Some? && Given(doc.nombre) && Given(doc.telefono) && Given(doc.service)
      && Given(doc.date) && Given(doc.hour) && OnHalfHour(doc.hour.value)
      && (doc.scheduledAt.Some? || parse(ScheduledAtText(doc.date.value, doc.hour.value)).Some?)
    ensures r.Success? ==>
      r.value.scheduledAt ==
        (if doc.scheduledAt.Some? then doc.scheduledAt else parse(ScheduledAtText(doc.date.value, doc.hour.value)))
    ensures r.Success? ==> r.value.(scheduledAt := doc.scheduledAt) == doc
  {
    match PreValidate(doc, parse)
    case Failure(e) => Failure(e)
    case Success(d) =>
      var missing := MissingPaths(d);
      if missing == [] then Success(d) else Failure(InvalidPaths(missing))
  }

  /** A record that passed validation, as every stored record has. */
  predicate Stored(a: Appointment) {
    a.user.Some? && Given(a.nombre) && Given(a.telefono) && Given(a.service)
    && Given(a.date) && Given(a.hour) && OnHalfHour(a.hour.value) && a.scheduledAt.Some?
  }

  /** Saving a stored record again validates it unchanged, whatever its status. */
  lemma StoredRevalidates(a: Appointment, parse: DateParser)
    requires Stored(a)
    ensures forall s :: Validate(a.(status := s), parse) == Success(a.(status := s))
  {
  }

  /** Every record passed validation and its id is its position. */
  predicate StoredInOrder(records: seq<Appointment>) {
    forall i :: 0 <= i < |records| ==> records[i].id == i && Stored(records[i])
  }

  /** The appointment collection; a record's id is its position. */
  class AppointmentStore {
    var records: seq<Appointment>

    ghost predicate Valid()
      reads this
    {
      StoredInOrder(records)
    }

    constructor ()
      ensures Valid() && records == []
    {
      records := [];
    }
  }
}
