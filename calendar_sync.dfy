/**
 * Calendar-to-appointment reconciliation (EventParserService::syncGoogleCalendarEvents
 * and createAppointmentFromEvent).  Each fetched event is matched to the
 * appointment carrying its event id; a new appointment is created for an
 * unmatched "Client - Service" event, and a matched one receives only the
 * fields that differ.  Counters and a per-event error list are kept, and a
 * failing event does not stop the batch.
 */
module CalendarSync {
  import opened Wrappers
  import opened Text
  import opened Persistence
  import opened EventParser

  /** A time field of an event: Carbon::parse either yields an instant or throws with a message. */
  datatype TimeField = Instant(seconds: int) | Unparseable(error: string)

  /** An event as fetched (`startDateTime ?? start`, `endDateTime ?? end`); a missing or falsy time is None. */
  datatype CalendarEvent = CalendarEvent(id: string, summary: Option<string>, start: Option<TimeField>, end: Option<TimeField>)

  /** The events handed to the sync, or the error of the fetch that should have produced them. */
  datatype EventSource = Events(events: seq<CalendarEvent>) | FetchFailed(error: string)

  datatype SyncError = RunError(message: string) | EventError(eventId: string, message: string)

  datatype SyncResults = SyncResults(created: nat, updated: nat, errors: seq<SyncError>)

  /** `$updateData`: the fields of an appointment to overwrite, each present only when it differs. */
  datatype Changes = Changes(startTime: Option<int>, duration: Option<int>, service: Option<string>, clientId: Option<nat>)

  const NoChanges := Changes(None, None, None, None)

  datatype Outcome = Created(appointmentId: nat) | Updated(changes: Changes) | Unchanged | Skipped | Failed(message: string)

  datatype EventStep = EventStep(tables: Tables, outcome: Outcome)

  datatype SyncState = SyncState(tables: Tables, results: SyncResults)

  const MissingStartMessage := "Event missing start time"
  const FetchFailedPrefix := "Failed to fetch Google Calendar events: "
  const NoEventsMessage := "No Google Calendar events found to sync"

  predicate SyncReady(t: Tables) {
    ValidTables(t) && LinkedHaveStart(t)
  }

  function Summary(e: CalendarEvent): string {
    e.summary.GetOr("")
  }

  function Abs(x: int): nat {
    if x < 0 then -x else x
  }

  /**
   * The start and the duration in whole minutes (Carbon's absolute diffInMinutes);
   * a missing end counts as one hour.  A missing start, or a time that does not
   * parse, is the event's error.
   */
  function EventTiming(e: CalendarEvent): (r: Result<(int, nat)>)
    ensures e.start.None? ==> r == Failure(MissingStartMessage)
    ensures r.Success? ==> e.start == Some(Instant(r.value.0))
    ensures r.Success? && e.end.None? ==> r.value.1 == 60
    ensures r.Success? && e.end.Some? ==> e.end.value.Instant? && r.value.1 * 60 <= Abs(e.end.value.seconds - r.value.0) < r.value.1 * 60 + 60
  {
    match e.start
    case None => Failure(MissingStartMessage)
    case Some(Unparseable(msg)) => Failure(msg)
    case Some(Instant(s)) =>
      match e.end
      case None => Success((s, 60))
      case Some(Unparseable(msg)) => Failure(msg)
      case Some(Instant(en)) => Success((s, Abs(en - s) / 60))
  }

  /** The appointment the sync creates for a new event. */
  function SyncedAppointment(clientId: nat, service: string, start: int, duration: int, eventId: string): Appointment
  {
    Appointment(Some(clientId), None, None, None, service, Some(start), None, duration,
                "confirmed", Some("pending"), false, None, Some(eventId))
  }

  /** The fields of `a` that differ from the event's; the client only when the title names one. */
  function Diff(a: Appointment, start: int, duration: int, service: string, client: Option<nat>): (c: Changes)
    ensures c.startTime.Some? <==> a.startTime != Some(start)
    ensures c.startTime.Some? ==> c.startTime.value == start
    ensures c.duration.Some? <==> a.duration != duration
    ensures c.duration.Some? ==> c.duration.value == duration
    ensures c.service.Some? <==> a.service != service
    ensures c.service.Some? ==> c.service.value == service
    ensures c.clientId.Some? <==> client.Some? && a.clientId != client
    ensures c.clientId.Some? ==> c.clientId == client
    ensures c == NoChanges <==>
      a.startTime == Some(start) && a.duration == duration && a.service == service && (client.Some? ==> a.clientId == client)
  {
    Changes(
      if a.startTime != Some(start) then Some(start) else None,
      if a.duration != duration then Some(duration) else None,
      if a.service != service then Some(service) else None,
      if client.Some? && a.clientId != client then client else None)
  }

  /** `$appointment->update($updateData)`: overwrite exactly the fields present. */
  function Apply(a: Appointment, c: Changes): (b: Appointment)
    ensures b.eventId == a.eventId
    ensures b.(startTime := a.startTime, duration := a.duration, service := a.service, clientId := a.clientId) == a
    ensures c.startTime.Some? ==> b.startTime == c.startTime
    ensures c.duration.Some? ==> b.duration == c.duration.value
    ensures c.service.Some? ==> b.service == c.service.value
    ensures c.clientId.Some? ==> b.clientId == c.clientId
    ensures c == NoChanges ==> b == a
  {
    a.(startTime := if c.startTime.Some? then c.startTime else a.startTime,
       duration := c.duration.GetOr(a.duration),
       service := c.service.GetOr(a.service),
       clientId := if c.clientId.Some? then c.clientId else a.clientId)
  }

  /** Clients were only added, at fresh ids. */
  ghost predicate ClientsGrown(t: Tables, t': Tables) {
    && t.nextClientId <= t'.nextClientId
    && (forall k :: k in t.clients ==> k in t'.clients && t'.clients[k] == t.clients[k])
    && (forall k :: k in t'.clients && k !in t.clients ==> k >= t.nextClientId)
  }

  /** Only appointments linked to `eventId` were changed or added; reminders are untouched. */
  ghost predicate OnlyEventRows(t: Tables, t': Tables, eventId: string) {
    && t.nextAppointmentId <= t'.nextAppointmentId
    && t'.reminders == t.reminders
    && (forall k :: k in t.appointments ==> k in t'.appointments)
    && (forall k :: k in t'.appointments && k !in t.appointments ==> k >= t.nextAppointmentId)
    && (forall k :: k in t'.appointments && (k !in t.appointments || t'.appointments[k] != t.appointments[k]) ==>
          t'.appointments[k].eventId == Some(eventId))
    && (forall k :: k in t.appointments && t'.appointments[k] != t.appointments[k] ==> t.appointments[k].eventId == Some(eventId))
  }

  ghost predicate OnlyEventTouched(t: Tables, t': Tables, eventId: string) {
    ClientsGrown(t, t') && OnlyEventRows(t, t', eventId)
  }

  /** A new event with a client and a service: find or create the client, then insert the appointment. */
  function CreateStep(t: Tables, e: CalendarEvent, start: int, duration: nat, parsed: ParsedName): (s: EventStep)
    requires SyncReady(t) && parsed.clientName.Some?
    requires FirstAppointmentFor(t, e.id).None?
    ensures SyncReady(s.tables) && OnlyEventTouched(t, s.tables, e.id)
    ensures s.outcome == Created(t.nextAppointmentId)
  {
    var r := FindOrCreateClient(t, parsed.clientName.value, None).value;
    var id := r.tables.nextAppointmentId;
    var a := SyncedAppointment(r.clientId, parsed.serviceName, start, duration, e.id);
    EventStep(r.tables.(appointments := r.tables.appointments[id := a], nextAppointmentId := id + 1), Created(id))
  }

  /** An event already linked to appointment `id`: overwrite the fields that differ. */
  function UpdateStep(t: Tables, e: CalendarEvent, id: nat, start: int, duration: nat, parsed: ParsedName): (s: EventStep)
    requires SyncReady(t)
    requires FirstAppointmentFor(t, e.id) == Some(id)
    ensures SyncReady(s.tables) && OnlyEventTouched(t, s.tables, e.id)
    ensures s.outcome.Updated? || s.outcome.Unchanged?
    ensures s.outcome.Updated? ==> s.outcome.changes != NoChanges
    ensures s.outcome.Unchanged? ==> s.tables.appointments == t.appointments
  {
    var a := t.appointments[id];
    var resolved := if OptTruthy(parsed.clientName) then FindOrCreateClient(t, parsed.clientName.value, None) else None;
    var t' := if resolved.Some? then resolved.value.tables else t;
    var client := if resolved.Some? then Some(resolved.value.clientId) else None;
    var changes := Diff(a, start, duration, parsed.serviceName, client);
    if changes == NoChanges then
      EventStep(t', Unchanged)
    else
      EventStep(t'.(appointments := t'.appointments[id := Apply(a, changes)]), Updated(changes))
  }

  /** The per-event body of the sync loop, as a function of the tables. */
  function SyncEvent(t: Tables, e: CalendarEvent): (s: EventStep)
    requires SyncReady(t)
    ensures SyncReady(s.tables)
    ensures OnlyEventTouched(t, s.tables, e.id)
    ensures s.outcome.Failed? <==> EventTiming(e).Failure?
    ensures s.outcome.Failed? ==> s.tables == t && s.outcome.message == EventTiming(e).error
    ensures s.outcome.Created? <==>
      EventTiming(e).Success? && FirstAppointmentFor(t, e.id).None? &&
      OptTruthy(ParseEventName(Summary(e)).clientName) && Truthy(ParseEventName(Summary(e)).serviceName)
    ensures s.outcome.Created? ==> s.outcome.appointmentId == t.nextAppointmentId
    ensures s.outcome.Skipped? ==> s.tables == t
    ensures s.outcome.Updated? ==> FirstAppointmentFor(t, e.id).Some? && s.outcome.changes != NoChanges
    ensures s.outcome.Unchanged? ==> FirstAppointmentFor(t, e.id).Some? && s.tables.appointments == t.appointments
  {
    match EventTiming(e)
    case Failure(msg) => EventStep(t, Failed(msg))
    case Success(timing) =>
      var parsed := ParseEventName(Summary(e));
      match FirstAppointmentFor(t, e.id)
      case None =>
        if OptTruthy(parsed.clientName) && Truthy(parsed.serviceName) then CreateStep(t, e, timing.0, timing.1, parsed)
        else EventStep(t, Skipped)
      case Some(id) => UpdateStep(t, e, id, timing.0, timing.1, parsed)
  }

  /** The record createAppointmentFromEvent returns (its array keys). */
  datatype EventRecord = EventRecord(
    clientId: Option<nat>, service: string, startTime: int, duration: int,
    status: string, attendanceStatus: string, notes: Option<string>, eventId: string)

  datatype RecordResult = RecordResult(tables: Tables, record: EventRecord)

  /**
   * createAppointmentFromEvent: the client named by the title is found by exact
   * name or created with no phone and status Green; the record links it.
   */
  function AppointmentFromEvent(t: Tables, eventId: string, eventName: string, start: int, duration: int): (r: RecordResult)
    requires ValidTables(t)
    ensures ValidTables(r.tables) && ClientsGrown(t, r.tables)
    ensures r.tables == t.(clients := r.tables.clients, nextClientId := r.tables.nextClientId)
    ensures var parsed := ParseEventName(eventName);
      && (r.record.clientId.None? <==> !OptTruthy(parsed.clientName))
      && (r.record.clientId.None? ==> r.tables == t)
      && (r.record.clientId.Some? ==> FirstClientNamed(r.tables, parsed.clientName.value) == r.record.clientId)
      && (r.record.clientId.Some? && FirstClientNamed(t, parsed.clientName.value).Some? ==>
            r.tables == t && r.record.clientId == FirstClientNamed(t, parsed.clientName.value))
      && (r.record.clientId.Some? && FirstClientNamed(t, parsed.clientName.value).None? ==>
            r.record.clientId == Some(t.nextClientId) &&
            r.tables.clients == t.clients[t.nextClientId := Client(parsed.clientName.value, None, Green)])
      && r.record.service == parsed.serviceName
    ensures r.record.startTime == start && r.record.duration == duration
    ensures r.record.status == "confirmed" && r.record.attendanceStatus == "pending"
    ensures r.record.notes.None? && r.record.eventId == eventId
  {
    var parsed := ParseEventName(eventName);
    var resolved := if OptTruthy(parsed.clientName) then FindOrCreateClient(t, parsed.clientName.value, None) else None;
    var t' := if resolved.Some? then resolved.value.tables else t;
    var clientId := if resolved.Some? then Some(resolved.value.clientId) else None;
    RecordResult(t', EventRecord(clientId, parsed.serviceName, start, duration, "confirmed", "pending", None, eventId))
  }

  /** The counters after one event: a creation, an update or an error is counted, a skip or no change is not. */
  function Tally(r: SyncResults, e: CalendarEvent, outcome: Outcome): (r': SyncResults)
    ensures r'.created == r.created + (if outcome.Created? then 1 else 0)
    ensures r'.updated == r.updated + (if outcome.Updated? then 1 else 0)
    ensures r'.errors == r.errors + (if outcome.Failed? then [EventError(e.id, outcome.message)] else [])
  {
    match outcome
    case Created(_) => r.(created := r.created + 1)
    case Updated(_) => r.(updated := r.updated + 1)
    case Failed(msg) => r.(errors := r.errors + [EventError(e.id, msg)])
    case _ => r
  }

  /** The loop's bookkeeping: the step's tables, and the counters and the error list after the event. */
  function Record(st: SyncState, e: CalendarEvent, step: EventStep): SyncState {
    SyncState(step.tables, Tally(st.results, e, step.outcome))
  }

  /** The foreach over the events, continuing from state `st`. */
  function SyncFrom(st: SyncState, evs: seq<CalendarEvent>): (r: SyncState)
    requires SyncReady(st.tables)
    ensures SyncReady(r.tables)
    decreases |evs|
  {
    if |evs| == 0 then st
    else
      var prev := SyncFrom(st, evs[..|evs| - 1]);
      var e := evs[|evs| - 1];
      Record(prev, e, SyncEvent(prev.tables, e))
  }

  /** One more event of the foreach. */
  lemma SyncFromStep(st: SyncState, evs: seq<CalendarEvent>, i: nat)
    requires SyncReady(st.tables) && i < |evs|
    ensures var prev := SyncFrom(st, evs[..i]);
            SyncFrom(st, evs[..i + 1]) == Record(prev, evs[i], SyncEvent(prev.tables, evs[i]))
  {
    assert evs[..i + 1][..i] == evs[..i];
  }

  const NoResults := SyncResults(0, 0, [])

  /** syncGoogleCalendarEvents: a failed fetch or an empty list reports one error and changes nothing. */
  function Sync(t: Tables, source: EventSource): (s: SyncState)
    requires SyncReady(t)
    ensures SyncReady(s.tables)
    ensures source.FetchFailed? ==> s == SyncState(t, SyncResults(0, 0, [RunError(FetchFailedPrefix + source.error)]))
    ensures source.Events? && |source.events| == 0 ==> s == SyncState(t, SyncResults(0, 0, [RunError(NoEventsMessage)]))
  {
    match source
    case FetchFailed(msg) => SyncState(t, SyncResults(0, 0, [RunError(FetchFailedPrefix + msg)]))
    case Events(evs) =>
      if |evs| == 0 then SyncState(t, SyncResults(0, 0, [RunError(NoEventsMessage)]))
      else SyncFrom(SyncState(t, NoResults), evs)
  }

  // ---------------------------------------------------------------------------
  // The imperative sync, proved to compute Sync.

  /** EventParserService::createAppointmentFromEvent. */
  method CreateAppointmentFromEvent(db: Database, eventId: string, eventName: string, start: int, duration: int)
    returns (record: EventRecord)
    requires db.Valid()
    modifies db
    ensures db.Valid()
    ensures var r := AppointmentFromEvent(old(db.State()), eventId, eventName, start, duration);
      db.State() == r.tables && record == r.record
  {
    var parsed := ParseEventName(eventName);
    var clientId: Option<nat> := None;
    if OptTruthy(parsed.clientName) {
      clientId := db.FirstOrCreateClient(parsed.clientName.value, None);
    }
    record := EventRecord(clientId, parsed.serviceName, start, duration, "confirmed", "pending", None, eventId);
  }

  /** The create branch of the loop body. */
  method CreateFromEvent(db: Database, e: CalendarEvent, start: int, duration: nat, parsed: ParsedName) returns (outcome: Outcome)
    requires db.Valid() && LinkedHaveStart(db.State()) && parsed.clientName.Some?
    requires FirstAppointmentFor(db.State(), e.id).None?
    modifies db
    ensures var s := CreateStep(old(db.State()), e, start, duration, parsed); db.State() == s.tables && outcome == s.outcome
  {
    var client := db.FirstOrCreateClient(parsed.clientName.value, None);
    var id := db.InsertAppointment(SyncedAppointment(client.value, parsed.serviceName, start, duration, e.id));
    return Created(id);
  }

  /** The update branch of the loop body: collect the differing fields, then write them. */
  method UpdateFromEvent(db: Database, e: CalendarEvent, id: nat, start: int, duration: nat, parsed: ParsedName) returns (outcome: Outcome)
    requires db.Valid() && LinkedHaveStart(db.State())
    requires FirstAppointmentFor(db.State(), e.id) == Some(id)
    modifies db
    ensures var s := UpdateStep(old(db.State()), e, id, start, duration, parsed); db.State() == s.tables && outcome == s.outcome
  {
    ghost var t := db.State();
    ghost var resolved := if OptTruthy(parsed.clientName) then FindOrCreateClient(t, parsed.clientName.value, None) else None;
    var a := db.appointments[id];
    var changes := NoChanges;
    if a.startTime != Some(start) {
      changes := changes.(startTime := Some(start));
    }
    if a.duration != duration {
      changes := changes.(duration := Some(duration));
    }
    if a.service != parsed.serviceName {
      changes := changes.(service := Some(parsed.serviceName));
    }
    assert changes == Diff(a, start, duration, parsed.serviceName, None);
    ghost var client: Option<nat> := None;
    if OptTruthy(parsed.clientName) {
      var found := db.FirstOrCreateClient(parsed.clientName.value, None);
      client := found;
      if a.clientId != found {
        changes := changes.(clientId := found);
      }
    }
    assert client == (if resolved.Some? then Some(resolved.value.clientId) else None);
    assert db.State() == (if resolved.Some? then resolved.value.tables else t);
    assert changes == Diff(a, start, duration, parsed.serviceName, client);
    if changes != NoChanges {
      db.UpdateAppointment(id, Apply(a, changes));
      return Updated(changes);
    }
    return Unchanged;
  }

  /** One iteration of the loop body (the try block), writing to the database. */
  method SyncOneEvent(db: Database, e: CalendarEvent) returns (outcome: Outcome)
    requires db.Valid() && LinkedHaveStart(db.State())
    modifies db
    ensures var s := SyncEvent(old(db.State()), e); db.State() == s.tables && outcome == s.outcome
  {
    var found := FirstAppointmentFor(db.State(), e.id);
    var timing := EventTiming(e);
    if timing.Failure? {
      return Failed(timing.error);
    }
    var parsed := ParseEventName(Summary(e));
    if found.None? {
      if OptTruthy(parsed.clientName) && Truthy(parsed.serviceName) {
        outcome := CreateFromEvent(db, e, timing.value.0, timing.value.1, parsed);
        return;
      }
      return Skipped;
    }
    outcome := UpdateFromEvent(db, e, found.value, timing.value.0, timing.value.1, parsed);
  }

  /** The foreach over a non-empty event list. */
  method SyncEvents(db: Database, events: seq<CalendarEvent>) returns (results: SyncResults)
    requires db.Valid() && LinkedHaveStart(db.State())
    modifies db
    ensures SyncState(db.State(), results) == SyncFrom(SyncState(old(db.State()), NoResults), events)
  {
    ghost var t0 := db.State();
    results := NoResults;
    var i := 0;
    while i < |events|
      invariant 0 <= i <= |events|
      invariant SyncReady(db.State())
      invariant SyncFrom(SyncState(t0, NoResults), events[..i]) == SyncState(db.State(), results)
    {
      var e := events[i];
      SyncFromStep(SyncState(t0, NoResults), events, i);
      var outcome := SyncOneEvent(db, e);
      results := Tally(results, e, outcome);
      i := i + 1;
    }
    assert events[..|events|] == events;
  }

  /** EventParserService::syncGoogleCalendarEvents. */
  method SyncGoogleCalendarEvents(db: Database, source: EventSource) returns (results: SyncResults)
    requires db.Valid() && LinkedHaveStart(db.State())
    modifies db
    ensures var s := Sync(old(db.State()), source); db.State() == s.tables && results == s.results
  {
    if source.FetchFailed? {
      return SyncResults(0, 0, [RunError(FetchFailedPrefix + source.error)]);
    }
    if |source.events| == 0 {
      return SyncResults(0, 0, [RunError(NoEventsMessage)]);
    }
    results := SyncEvents(db, source.events);
  }
}
