/**
 * What the calendar sync promises across whole runs: running it twice over
 * the same events changes nothing the second time, the error list depends
 * only on the events' times, and a failing event has no effect on the rest.
 */
module CalendarSyncProperties {
  import opened Wrappers
  import opened Text
  import opened Persistence
  import opened EventParser
  import opened CalendarSync

  /** Appointment `id` carries the event's start, duration and service, and the client its title names. */
  ghost predicate AgreesWith(t: Tables, id: nat, start: int, duration: nat, parsed: ParsedName)
    requires id in t.appointments
  {
    var a := t.appointments[id];
    && a.startTime == Some(start)
    && a.duration == duration
    && a.service == parsed.serviceName
    && (OptTruthy(parsed.clientName) ==> a.clientId.Some? && FirstClientNamed(t, parsed.clientName.value) == a.clientId)
  }

  /** The tables already agree with event `e`: the sync would neither create nor update for it. */
  ghost predicate Settled(t: Tables, e: CalendarEvent)
    requires ValidTables(t)
  {
    match EventTiming(e)
    case Failure(_) => true
    case Success(timing) =>
      var parsed := ParseEventName(Summary(e));
      match FirstAppointmentFor(t, e.id)
      case None => !(OptTruthy(parsed.clientName) && Truthy(parsed.serviceName))
      case Some(id) => AgreesWith(t, id, timing.0, timing.1, parsed)
  }

  ghost predicate DistinctIds(evs: seq<CalendarEvent>) {
    forall i, j :: 0 <= i < j < |evs| ==> evs[i].id != evs[j].id
  }

  /** After the create step the event's appointment is found, and it carries the event's data. */
  lemma CreateStepSettles(t: Tables, e: CalendarEvent, start: int, duration: nat, parsed: ParsedName)
    requires SyncReady(t) && parsed.clientName.Some?
    requires FirstAppointmentFor(t, e.id).None?
    ensures var t3 := CreateStep(t, e, start, duration, parsed).tables;
      FirstAppointmentFor(t3, e.id) == Some(t.nextAppointmentId) && AgreesWith(t3, t.nextAppointmentId, start, duration, parsed)
  {
    var r := FindOrCreateClient(t, parsed.clientName.value, None).value;
    var n := r.tables.nextAppointmentId;
    var a := SyncedAppointment(r.clientId, parsed.serviceName, start, duration, e.id);
    var t3 := CreateStep(t, e, start, duration, parsed).tables;
    assert r.tables.appointments == t.appointments && n == t.nextAppointmentId;
    FirstMatchAppended(r.tables.appointments, EventIs(e.id), n, a);
    assert FirstAppointmentFor(t3, e.id) == Some(n);
    assert t3.appointments[n] == a;
    assert FirstClientNamed(t3, parsed.clientName.value) == FirstClientNamed(r.tables, parsed.clientName.value);
  }

  /** The row the create step inserts: the event's client, service, start, duration and
      id, status 'confirmed', attendance 'pending', no notes and no reminder sent. */
  lemma CreateStepRow(t: Tables, e: CalendarEvent, start: int, duration: nat, parsed: ParsedName)
    requires SyncReady(t) && parsed.clientName.Some?
    requires FirstAppointmentFor(t, e.id).None?
    ensures var t3 := CreateStep(t, e, start, duration, parsed).tables;
      t.nextAppointmentId in t3.appointments && FirstClientNamed(t3, parsed.clientName.value).Some?
    ensures var t3 := CreateStep(t, e, start, duration, parsed).tables;
      var a := t3.appointments[t.nextAppointmentId];
      a.clientId == FirstClientNamed(t3, parsed.clientName.value) && a.service == parsed.serviceName &&
      a.startTime == Some(start) && a.duration == duration && a.eventId == Some(e.id) &&
      a.status == "confirmed" && a.attendanceStatus == Some("pending") && a.notes.None? && !a.reminderSent &&
      a.clientName.None? && a.clientPhone.None? && a.email.None? && a.appointmentTime.None?
  {
    var r := FindOrCreateClient(t, parsed.clientName.value, None).value;
    var t3 := CreateStep(t, e, start, duration, parsed).tables;
    assert r.tables.nextAppointmentId == t.nextAppointmentId;
    assert t3.clients == r.tables.clients;
    assert FirstClientNamed(t3, parsed.clientName.value) == FirstClientNamed(r.tables, parsed.clientName.value);
  }

  /** Overwriting the differing fields makes the appointment agree with the event. */
  lemma ApplyDiffAgrees(a: Appointment, start: int, duration: int, service: string, client: Option<nat>)
    ensures var b := Apply(a, Diff(a, start, duration, service, client));
      b.startTime == Some(start) && b.duration == duration && b.service == service &&
      (client.Some? ==> b.clientId == client) && (client.None? ==> b.clientId == a.clientId)
  {
  }

  /** After the update step the event's appointment is still found first, with the event's data. */
  lemma UpdateStepSettles(t: Tables, e: CalendarEvent, id: nat, start: int, duration: nat, parsed: ParsedName)
    requires SyncReady(t)
    requires FirstAppointmentFor(t, e.id) == Some(id)
    ensures var t2 := UpdateStep(t, e, id, start, duration, parsed).tables;
      FirstAppointmentFor(t2, e.id) == Some(id) && AgreesWith(t2, id, start, duration, parsed)
  {
    var a := t.appointments[id];
    var resolved := if OptTruthy(parsed.clientName) then FindOrCreateClient(t, parsed.clientName.value, None) else None;
    var t' := if resolved.Some? then resolved.value.tables else t;
    var client := if resolved.Some? then Some(resolved.value.clientId) else None;
    var changes := Diff(a, start, duration, parsed.serviceName, client);
    var b := if changes == NoChanges then a else Apply(a, changes);
    var t2 := t'.(appointments := t'.appointments[id := b]);
    assert t'.appointments == t.appointments && t'.nextAppointmentId == t.nextAppointmentId;
    assert UpdateStep(t, e, id, start, duration, parsed).tables == t2 by {
      if changes == NoChanges {
        assert t'.appointments[id := a] == t'.appointments;
      }
    }
    ApplyDiffAgrees(a, start, duration, parsed.serviceName, client);
    assert b.eventId == a.eventId;
    assert b.startTime == Some(start) && b.duration == duration && b.service == parsed.serviceName;
    var m, m2 := t.appointments, t2.appointments;
    forall k | 0 <= k < t.nextAppointmentId
      ensures (k in m && EventIs(e.id)(m[k])) <==> (k in m2 && EventIs(e.id)(m2[k]))
    {
      if k == id {
        assert m2[k] == b;
      }
    }
    FirstMatchFrame(m, m2, EventIs(e.id), 0, t.nextAppointmentId, t.nextAppointmentId);
    if OptTruthy(parsed.clientName) {
      assert b.clientId == client;
      assert FirstClientNamed(t2, parsed.clientName.value) == FirstClientNamed(t', parsed.clientName.value);
    }
  }

  /** For an event already linked to appointment `id`: the step writes exactly the differing
      fields, counts an update iff there is one, and a title without a client leaves the
      appointment's client and the clients table alone. */
  lemma {:induction false} LinkedEventStep(t: Tables, e: CalendarEvent, id: nat)
    requires SyncReady(t) && EventTiming(e).Success?
    requires FirstAppointmentFor(t, e.id) == Some(id)
    ensures var s := SyncEvent(t, e);
      var a := t.appointments[id];
      var parsed := ParseEventName(Summary(e));
      var client := if OptTruthy(parsed.clientName) then FirstClientNamed(s.tables, parsed.clientName.value) else None;
      var c := Diff(a, EventTiming(e).value.0, EventTiming(e).value.1, parsed.serviceName, client);
      && (s.outcome.Updated? <==> c != NoChanges)
      && (s.outcome.Updated? ==> s.outcome.changes == c && s.tables.appointments == t.appointments[id := Apply(a, c)])
      && (s.outcome.Unchanged? ==> s.tables.appointments == t.appointments)
      && (!OptTruthy(parsed.clientName) ==> s.tables.clients == t.clients && s.tables.appointments[id].clientId == a.clientId)
  {
    var timing := EventTiming(e).value;
    var parsed := ParseEventName(Summary(e));
    var s := SyncEvent(t, e);
    assert s == UpdateStep(t, e, id, timing.0, timing.1, parsed);
    if OptTruthy(parsed.clientName) {
      var r := FindOrCreateClient(t, parsed.clientName.value, None).value;
      assert s.tables.clients == r.tables.clients && s.tables.nextClientId == r.tables.nextClientId;
      assert FirstClientNamed(s.tables, parsed.clientName.value) == Some(r.clientId);
    }
  }

  /** One sync step leaves its own event settled. */
  lemma StepSettles(t: Tables, e: CalendarEvent)
    requires SyncReady(t)
    ensures Settled(SyncEvent(t, e).tables, e)
  {
    match EventTiming(e)
    case Failure(_) =>
    case Success(timing) =>
      var parsed := ParseEventName(Summary(e));
      match FirstAppointmentFor(t, e.id)
      case None =>
        if OptTruthy(parsed.clientName) && Truthy(parsed.serviceName) {
          CreateStepSettles(t, e, timing.0, timing.1, parsed);
        }
      case Some(id) =>
        UpdateStepSettles(t, e, id, timing.0, timing.1, parsed);
  }

  /** A step for another event does not unsettle `e`. */
  lemma StepPreservesSettled(t: Tables, e: CalendarEvent, other: CalendarEvent)
    requires SyncReady(t) && Settled(t, e) && e.id != other.id
    ensures Settled(SyncEvent(t, other).tables, e)
  {
    var t2 := SyncEvent(t, other).tables;
    var m, m2 := t.appointments, t2.appointments;
    forall k | 0 <= k < t.nextAppointmentId
      ensures (k in m && EventIs(e.id)(m[k])) <==> (k in m2 && EventIs(e.id)(m2[k]))
    {
      if k in m && m2[k] != m[k] {
        assert m[k].eventId == Some(other.id) && m2[k].eventId == Some(other.id);
      }
    }
    FirstMatchFrame(m, m2, EventIs(e.id), 0, t.nextAppointmentId, t2.nextAppointmentId);
    assert FirstAppointmentFor(t2, e.id) == FirstAppointmentFor(t, e.id);
    match EventTiming(e)
    case Failure(_) =>
    case Success(timing) =>
      var parsed := ParseEventName(Summary(e));
      match FirstAppointmentFor(t, e.id)
      case None =>
      case Some(id) =>
        assert m[id].eventId == Some(e.id);
        assert m2[id] == m[id];
        if OptTruthy(parsed.clientName) {
          FirstClientNamedStable(t, t2, parsed.clientName.value);
        }
  }

  /** A settled event's step changes nothing and counts nothing. */
  lemma SettledStepIsNoop(t: Tables, e: CalendarEvent)
    requires SyncReady(t) && Settled(t, e)
    ensures SyncEvent(t, e).tables == t
    ensures SyncEvent(t, e).outcome.Failed? || SyncEvent(t, e).outcome.Skipped? || SyncEvent(t, e).outcome.Unchanged?
  {
    match EventTiming(e)
    case Failure(_) =>
    case Success(timing) =>
      var parsed := ParseEventName(Summary(e));
      match FirstAppointmentFor(t, e.id)
      case None =>
      case Some(id) =>
        var a := t.appointments[id];
        if OptTruthy(parsed.clientName) {
          var r := FindOrCreateClient(t, parsed.clientName.value, None);
          assert r == Some(Resolution(t, a.clientId.value));
        }
        assert Diff(a, timing.0, timing.1, parsed.serviceName,
                    if OptTruthy(parsed.clientName) then a.clientId else None) == NoChanges;
  }

  /** One more step keeps the settled events settled and settles its own. */
  lemma StepExtendsSettled(t: Tables, done: seq<CalendarEvent>, e: CalendarEvent)
    requires SyncReady(t)
    requires forall j :: 0 <= j < |done| ==> Settled(t, done[j]) && done[j].id != e.id
    ensures forall j :: 0 <= j < |done| + 1 ==> Settled(SyncEvent(t, e).tables, (done + [e])[j])
  {
    var t2 := SyncEvent(t, e).tables;
    forall j | 0 <= j < |done| + 1
      ensures Settled(t2, (done + [e])[j])
    {
      if j < |done| {
        StepPreservesSettled(t, done[j], e);
      } else {
        StepSettles(t, e);
      }
    }
  }

  /** Dropping the last event keeps the ids distinct, and none of the rest shares the last one's id. */
  lemma DistinctPrefix(evs: seq<CalendarEvent>, prefix: seq<CalendarEvent>, last: CalendarEvent)
    requires DistinctIds(evs) && evs == prefix + [last]
    ensures DistinctIds(prefix)
    ensures forall j :: 0 <= j < |prefix| ==> prefix[j].id != last.id
  {
    assert forall j :: 0 <= j < |prefix| ==> prefix[j] == evs[j];
    assert last == evs[|prefix|];
  }

  /** After a run over events with distinct ids, every one of them is settled. */
  lemma {:induction false} RunSettles(st: SyncState, evs: seq<CalendarEvent>)
    requires SyncReady(st.tables) && DistinctIds(evs)
    ensures forall j :: 0 <= j < |evs| ==> Settled(SyncFrom(st, evs).tables, evs[j])
    decreases |evs|
  {
    if |evs| > 0 {
      var n := |evs| - 1;
      var prefix := evs[..n];
      assert evs == prefix + [evs[n]];
      DistinctPrefix(evs, prefix, evs[n]);
      RunSettles(st, prefix);
      var prev := SyncFrom(st, prefix);
      assert SyncFrom(st, evs).tables == SyncEvent(prev.tables, evs[n]).tables;
      StepExtendsSettled(prev.tables, prefix, evs[n]);
      assert prefix + [evs[n]] == evs;
    }
  }

  /** A run over settled events changes no table and counts no creation or update. */
  lemma {:induction false} SettledRunIsNoop(st: SyncState, evs: seq<CalendarEvent>)
    requires SyncReady(st.tables)
    requires forall j :: 0 <= j < |evs| ==> Settled(st.tables, evs[j])
    ensures SyncFrom(st, evs).tables == st.tables
    ensures SyncFrom(st, evs).results.created == st.results.created
    ensures SyncFrom(st, evs).results.updated == st.results.updated
    decreases |evs|
  {
    if |evs| > 0 {
      var n := |evs| - 1;
      var prefix := evs[..n];
      assert forall j :: 0 <= j < |prefix| ==> prefix[j] == evs[j];
      SettledRunIsNoop(st, prefix);
      SettledStepIsNoop(st.tables, evs[n]);
    }
  }

  /** The error entries a run appends: one per event whose times are missing or unparseable, in order. */
  function TimingErrors(evs: seq<CalendarEvent>): (r: seq<SyncError>)
    ensures |r| <= |evs|
    ensures forall j :: 0 <= j < |r| ==> r[j].EventError?
    decreases |evs|
  {
    if |evs| == 0 then []
    else
      var e := evs[|evs| - 1];
      TimingErrors(evs[..|evs| - 1]) + (if EventTiming(e).Failure? then [EventError(e.id, EventTiming(e).error)] else [])
  }

  /** The errors of a run are exactly the timing errors of its events, whatever the tables hold. */
  lemma {:induction false} RunErrorsAreTimingErrors(st: SyncState, evs: seq<CalendarEvent>)
    requires SyncReady(st.tables)
    ensures SyncFrom(st, evs).results.errors == st.results.errors + TimingErrors(evs)
    decreases |evs|
  {
    if |evs| > 0 {
      RunErrorsAreTimingErrors(st, evs[..|evs| - 1]);
    }
  }

  /** Each event counts at most once: creations, updates and errors together never exceed the events. */
  lemma {:induction false} RunCountsBounded(st: SyncState, evs: seq<CalendarEvent>)
    requires SyncReady(st.tables)
    ensures var r := SyncFrom(st, evs).results;
      st.results.created <= r.created && st.results.updated <= r.updated && |st.results.errors| <= |r.errors| &&
      (r.created - st.results.created) + (r.updated - st.results.updated) + (|r.errors| - |st.results.errors|) <= |evs|
    decreases |evs|
  {
    if |evs| > 0 {
      RunCountsBounded(st, evs[..|evs| - 1]);
    }
  }

  /** Running the sync a second time over the same events (distinct ids) creates and updates
      nothing, leaves every table as the first run left it, and reports the same errors. */
  lemma SyncIsIdempotent(t: Tables, evs: seq<CalendarEvent>)
    requires SyncReady(t) && DistinctIds(evs)
    ensures var first := Sync(t, Events(evs));
            var second := Sync(first.tables, Events(evs));
            second.tables == first.tables && second.results.created == 0 && second.results.updated == 0 &&
            second.results.errors == first.results.errors
  {
    if |evs| > 0 {
      var first := Sync(t, Events(evs));
      RunSettles(SyncState(t, NoResults), evs);
      SettledRunIsNoop(SyncState(first.tables, NoResults), evs);
      RunErrorsAreTimingErrors(SyncState(t, NoResults), evs);
      RunErrorsAreTimingErrors(SyncState(first.tables, NoResults), evs);
    }
  }

  /** The events of `evs` whose times can be read. */
  function Readable(evs: seq<CalendarEvent>): (r: seq<CalendarEvent>)
    ensures |r| <= |evs|
    ensures forall j :: 0 <= j < |r| ==> EventTiming(r[j]).Success?
    decreases |evs|
  {
    if |evs| == 0 then []
    else
      var e := evs[|evs| - 1];
      Readable(evs[..|evs| - 1]) + (if EventTiming(e).Success? then [e] else [])
  }

  /** A failing last event changes neither the tables nor the created and updated counters. */
  lemma DroppedEventNoEffect(st: SyncState, evs: seq<CalendarEvent>)
    requires SyncReady(st.tables) && |evs| > 0 && EventTiming(evs[|evs| - 1]).Failure?
    ensures SyncFrom(st, evs).tables == SyncFrom(st, evs[..|evs| - 1]).tables
    ensures SyncFrom(st, evs).results.created == SyncFrom(st, evs[..|evs| - 1]).results.created
    ensures SyncFrom(st, evs).results.updated == SyncFrom(st, evs[..|evs| - 1]).results.updated
  {
    SyncFromLast(st, evs);
  }

  /** The same event after two runs that agree on the tables and the counters keeps them agreeing. */
  lemma KeptEventAgrees(st: SyncState, xs: seq<CalendarEvent>, ys: seq<CalendarEvent>, e: CalendarEvent,
                        xs': seq<CalendarEvent>, ys': seq<CalendarEvent>)
    requires SyncReady(st.tables) && xs' == xs + [e] && ys' == ys + [e]
    requires SyncFrom(st, xs).tables == SyncFrom(st, ys).tables
    requires SyncFrom(st, xs).results.created == SyncFrom(st, ys).results.created
    requires SyncFrom(st, xs).results.updated == SyncFrom(st, ys).results.updated
    ensures SyncFrom(st, xs').tables == SyncFrom(st, ys').tables
    ensures SyncFrom(st, xs').results.created == SyncFrom(st, ys').results.created
    ensures SyncFrom(st, xs').results.updated == SyncFrom(st, ys').results.updated
  {
    SyncFromAppend(st, xs, e);
    SyncFromAppend(st, ys, e);
    RecordAgrees(SyncFrom(st, xs), SyncFrom(st, ys), e);
  }

  /** An event appended to the list is recorded after the run over the list. */
  lemma SyncFromAppend(st: SyncState, xs: seq<CalendarEvent>, e: CalendarEvent)
    requires SyncReady(st.tables)
    ensures SyncFrom(st, xs + [e]) == Record(SyncFrom(st, xs), e, SyncEvent(SyncFrom(st, xs).tables, e))
  {
    assert (xs + [e])[..|xs|] == xs;
    SyncFromLast(st, xs + [e]);
  }

  /** Recording the same event on two states with the same tables and counters agrees. */
  lemma RecordAgrees(a: SyncState, b: SyncState, e: CalendarEvent)
    requires SyncReady(a.tables) && a.tables == b.tables
    requires a.results.created == b.results.created && a.results.updated == b.results.updated
    ensures Record(a, e, SyncEvent(a.tables, e)).tables == Record(b, e, SyncEvent(b.tables, e)).tables
    ensures Record(a, e, SyncEvent(a.tables, e)).results.created == Record(b, e, SyncEvent(b.tables, e)).results.created
    ensures Record(a, e, SyncEvent(a.tables, e)).results.updated == Record(b, e, SyncEvent(b.tables, e)).results.updated
  {
  }

  /** A failing event is isolated: dropping every failing event leaves the tables and the
      counters of the run as they were. */
  lemma {:induction false} FailingEventsHaveNoEffect(st: SyncState, evs: seq<CalendarEvent>)
    requires SyncReady(st.tables)
    ensures SyncFrom(st, Readable(evs)).tables == SyncFrom(st, evs).tables
    ensures SyncFrom(st, Readable(evs)).results.created == SyncFrom(st, evs).results.created
    ensures SyncFrom(st, Readable(evs)).results.updated == SyncFrom(st, evs).results.updated
    decreases |evs|
  {
    if |evs| > 0 {
      var prefix := evs[..|evs| - 1];
      var e := evs[|evs| - 1];
      FailingEventsHaveNoEffect(st, prefix);
      if EventTiming(e).Success? {
        KeptEventStep(st, evs);
      } else {
        DroppedEventStep(st, evs);
      }
    }
  }

  /** The induction step of FailingEventsHaveNoEffect for a readable last event. */
  lemma KeptEventStep(st: SyncState, evs: seq<CalendarEvent>)
    requires SyncReady(st.tables) && |evs| > 0 && EventTiming(evs[|evs| - 1]).Success?
    requires var prefix := evs[..|evs| - 1];
      SyncFrom(st, Readable(prefix)).tables == SyncFrom(st, prefix).tables &&
      SyncFrom(st, Readable(prefix)).results.created == SyncFrom(st, prefix).results.created &&
      SyncFrom(st, Readable(prefix)).results.updated == SyncFrom(st, prefix).results.updated
    ensures SyncFrom(st, Readable(evs)).tables == SyncFrom(st, evs).tables
    ensures SyncFrom(st, Readable(evs)).results.created == SyncFrom(st, evs).results.created
    ensures SyncFrom(st, Readable(evs)).results.updated == SyncFrom(st, evs).results.updated
  {
    var prefix := evs[..|evs| - 1];
    var e := evs[|evs| - 1];
    ReadableKeeps(evs);
    KeptEventAgrees(st, Readable(prefix), prefix, e, Readable(evs), evs);
  }

  /** A readable last event stays last in the readable list. */
  lemma ReadableKeeps(evs: seq<CalendarEvent>)
    requires |evs| > 0 && EventTiming(evs[|evs| - 1]).Success?
    ensures evs == evs[..|evs| - 1] + [evs[|evs| - 1]]
    ensures Readable(evs) == Readable(evs[..|evs| - 1]) + [evs[|evs| - 1]]
  {
  }

  /** The induction step of FailingEventsHaveNoEffect for a failing last event. */
  lemma DroppedEventStep(st: SyncState, evs: seq<CalendarEvent>)
    requires SyncReady(st.tables) && |evs| > 0 && EventTiming(evs[|evs| - 1]).Failure?
    requires var prefix := evs[..|evs| - 1];
      SyncFrom(st, Readable(prefix)).tables == SyncFrom(st, prefix).tables &&
      SyncFrom(st, Readable(prefix)).results.created == SyncFrom(st, prefix).results.created &&
      SyncFrom(st, Readable(prefix)).results.updated == SyncFrom(st, prefix).results.updated
    ensures SyncFrom(st, Readable(evs)).tables == SyncFrom(st, evs).tables
    ensures SyncFrom(st, Readable(evs)).results.created == SyncFrom(st, evs).results.created
    ensures SyncFrom(st, Readable(evs)).results.updated == SyncFrom(st, evs).results.updated
  {
    assert Readable(evs) == Readable(evs[..|evs| - 1]);
    DroppedEventNoEffect(st, evs);
  }

  /** The last event of a non-empty list is recorded after the others. */
  lemma SyncFromLast(st: SyncState, evs: seq<CalendarEvent>)
    requires SyncReady(st.tables) && |evs| > 0
    ensures var prev := SyncFrom(st, evs[..|evs| - 1]);
            SyncFrom(st, evs) == Record(prev, evs[|evs| - 1], SyncEvent(prev.tables, evs[|evs| - 1]))
  {
  }
}
