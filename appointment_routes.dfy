/**
 * The appointment routes of backend/routes/appointmentRoutes.js. Every route
 * runs behind `protect` (AuthMiddleware.Protect); the handlers here take the
 * claims it verified. A server error is any exception the handler catches and
 * answers with 500.
 */
module AppointmentRoutes {
  import opened Wrappers
  import opened Seqs
  import opened Strings
  import opened AuthMiddleware
  import opened AppointmentModel

  datatype RouteError =
    | MissingFields
    | HalfHourOnly
    | AppointmentNotFound
    | Forbidden
    | ServerError
  {
    function Status(): nat {
      match this
      case MissingFields => 400
      case HalfHourOnly => 400
      case AppointmentNotFound => 404
      case Forbidden => 403
      case ServerError => 500
    }
  }

  /** The fields of a booking request body. */
  datatype CreateBody = CreateBody(
    nombre: Option<string>,
    telefono: Option<string>,
    service: Option<string>,
    date: Option<string>,
    hour: Option<string>,
    scheduledAt: Option<string>)

  /** The instant the route schedules: an explicit `scheduledAt` wins, otherwise
      `${date}T${hour}:00` (the route does not rewrite a DD/MM/YYYY date). */
  function RequestedInstant(body: CreateBody, parse: DateParser): Option<Instant>
    requires Given(body.date) && Given(body.hour)
  {
    if Given(body.scheduledAt) then parse(body.scheduledAt.value)
    else parse(body.date.value + "T" + body.hour.value + ":00")
  }

  /** `POST /` as written: the document it builds has no `nombre` nor `telefono`. */
  function CreateAsWritten(id: nat, actor: Claims, body: CreateBody, parse: DateParser, now: Instant)
    : Result<Appointment, RouteError>
  {
    if !Given(body.service) || !Given(body.date) || !Given(body.hour) then Failure(MissingFields)
    else if !OnHalfHour(body.hour.value) then Failure(HalfHourOnly)
    else
      var scheduled := RequestedInstant(body, parse);
      if scheduled.None? then Failure(ServerError)
      else
        var doc := Appointment(id, Some(actor.id), None, None, body.service, body.date, body.hour,
                               scheduled, [], Scheduled, now);
        match Validate(doc, parse)
        case Failure(_) => Failure(ServerError)
        case Success(d) => Success(d)
  }

  /** No booking request ever succeeds as written: a complete, well-timed one
      fails validation on the missing contact fields and is answered 500. */
  lemma CreateAsWrittenNeverBooks(id: nat, actor: Claims, body: CreateBody, parse: DateParser, now: Instant)
    ensures CreateAsWritten(id, actor, body, parse, now).Failure?
    ensures Given(body.service) && Given(body.date) && Given(body.hour) && OnHalfHour(body.hour.value) ==>
      CreateAsWritten(id, actor, body, parse, now) == Failure(ServerError)
  {
  }

  /** Every field a booking needs is given. */
  predicate Complete(body: CreateBody) {
    Given(body.nombre) && Given(body.telefono) && Given(body.service) && Given(body.date) && Given(body.hour)
  }

  /** `POST /` with the contact fields read from the body and required alongside
      the other fields, as the schema demands. */
  function Create(id: nat, actor: Claims, body: CreateBody, parse: DateParser, now: Instant)
    : (r: Result<Appointment, RouteError>)
    ensures r.Success? <==>
      Complete(body) && OnHalfHour(body.hour.value) && RequestedInstant(body, parse).Some?
    ensures !Complete(body) ==> r == Failure(MissingFields)
    ensures Given(body.hour) && !OnHalfHour(body.hour.value) ==> r.Failure? && r.error.Status() == 400
    ensures r.Success? ==>
      && Stored(r.value) && r.value.id == id && r.value.createdAt == now
      && r.value.user == Some(actor.id) && r.value.status == Scheduled && r.value.parts == []
      && r.value.nombre == body.nombre && r.value.telefono == body.telefono
      && r.value.service == body.service && r.value.date == body.date && r.value.hour == body.hour
      && r.value.scheduledAt == RequestedInstant(body, parse)
  {
    if !Complete(body) then Failure(MissingFields)
    else if !OnHalfHour(body.hour.value) then Failure(HalfHourOnly)
    else
      var scheduled := RequestedInstant(body, parse);
      if scheduled.None? then Failure(ServerError)
      else
        var doc := Appointment(id, Some(actor.id), body.nombre, body.telefono, body.service, body.date,
                               body.hour, scheduled, [], Scheduled, now);
        match Validate(doc, parse)
        case Failure(_) => Failure(ServerError)
        case Success(d) => Success(d)
  }

  /** Books an appointment and stores it under the next id. */
  method CreateAppointment(store: AppointmentStore, actor: Claims, body: CreateBody, parse: DateParser, now: Instant)
    returns (r: Result<Appointment, RouteError>)
    requires store.Valid()
    modifies store
    ensures store.Valid()
    ensures r == Create(|old(store.records)|, actor, body, parse, now)
    ensures r.Success? ==> store.records == old(store.records) + [r.value]
    ensures r.Failure? ==> store.records == old(store.records)
  {
    r := Create(|store.records|, actor, body, parse, now);
    if r.Success? {
      store.records := store.records + [r.value];
    }
  }

  predicate OwnedBy(a: Appointment, actor: Claims) {
    a.user == Some(actor.id)
  }

  /** A visit that is over: the customer came, or the slot expired. */
  predicate Finished(a: Appointment) {
    a.status == Expired || a.status == Arrived
  }

  /** `GET /`: an admin sees every appointment, anyone else only their own, in store order. */
  function ListAppointments(records: seq<Appointment>, actor: Claims): (r: seq<Appointment>)
    ensures actor.role == "admin" ==> r == records
    ensures actor.role != "admin" ==>
      && (forall k :: 0 <= k < |r| ==> r[k] in records && OwnedBy(r[k], actor))
      && (forall k :: 0 <= k < |records| && OwnedBy(records[k], actor) ==> records[k] in r)
    ensures Subsequence(r, records)
  {
    if actor.role == "admin" then
      FilterAll(records, a => true);
      Filter(records, a => true)
    else Filter(records, a => OwnedBy(a, actor))
  }

  /** A record the caller's history shows. */
  predicate InHistoryOf(a: Appointment, actor: Claims) {
    Finished(a) && (actor.role == "admin" || OwnedBy(a, actor))
  }

  /** `GET /history`: the finished appointments an admin sees all of, anyone else their own. */
  function History(records: seq<Appointment>, actor: Claims): (r: seq<Appointment>)
    ensures forall k :: 0 <= k < |r| ==> r[k] in records && InHistoryOf(r[k], actor)
    ensures forall k :: 0 <= k < |records| && InHistoryOf(records[k], actor) ==> records[k] in r
  {
    if actor.role == "admin" then Filter(records, Finished)
    else Filter(records, a => OwnedBy(a, actor) && Finished(a))
  }

  /** The history is the finished part of what the same caller may list. */
  lemma HistoryIsFinishedListing(records: seq<Appointment>, actor: Claims)
    ensures History(records, actor) == Filter(ListAppointments(records, actor), Finished)
  {
    if actor.role != "admin" {
      FilterFilter(records, a => OwnedBy(a, actor), Finished, a => OwnedBy(a, actor) && Finished(a));
    }
  }

  /** `PUT /:id/arrive`: the owner or an admin marks the customer as arrived and
      the record is saved again. */
  method Arrive(store: AppointmentStore, actor: Claims, id: nat, parse: DateParser)
    returns (r: Result<Appointment, RouteError>)
    requires store.Valid()
    modifies store
    ensures store.Valid()
    ensures id >= |old(store.records)| ==>
      r == Failure(AppointmentNotFound) && store.records == old(store.records)
    ensures id < |old(store.records)| && actor.role != "admin" && !OwnedBy(old(store.records)[id], actor) ==>
      r == Failure(Forbidden) && store.records == old(store.records)
    ensures id < |old(store.records)| && (actor.role == "admin" || OwnedBy(old(store.records)[id], actor)) ==>
      && r == Success(old(store.records)[id].(status := Arrived))
      && store.records == old(store.records)[id := r.value]
  {
    if id >= |store.records| {
      return Failure(AppointmentNotFound);
    }
    var a := store.records[id];
    if actor.role != "admin" && !OwnedBy(a, actor) {
      return Failure(Forbidden);
    }
    var updated := a.(status := Arrived);
    StoredRevalidates(a, parse);
    match Validate(updated, parse)
    case Failure(_) =>
      return Failure(ServerError);
    case Success(saved) =>
      store.records := store.records[id := saved];
      r := Success(saved);
  }
}
