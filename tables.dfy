/**
 * The database tables the core reads and writes: clients, appointments and
 * the reminder audit log.  A table is a map from auto-increment id to row,
 * with the next id to hand out; `first()` on a query is the row with the
 * least id.  Only the columns the core uses are modelled.
 */
module Persistence {
  import opened Wrappers
  import opened Text

  datatype ClientStatus = Green | Yellow | Red

  datatype Client = Client(name: string, phone: Option<string>, status: ClientStatus)

  /** An appointments row.  The status and attendance columns are free text here,
      because the code writes values ('confirmed', 'pending') outside the column enums. */
  datatype Appointment = Appointment(
    clientId: Option<nat>,
    clientName: Option<string>,
    clientPhone: Option<string>,
    email: Option<string>,
    service: string,
    startTime: Option<int>,
    appointmentTime: Option<int>,
    duration: int,
    status: string,
    attendanceStatus: Option<string>,
    reminderSent: bool,
    notes: Option<string>,
    eventId: Option<string>)

  /** A row of the append-only reminder audit log. */
  datatype Reminder = Reminder(clientId: Option<nat>, appointmentId: nat, messageSentAt: int)

  datatype Tables = Tables(
    clients: map<nat, Client>,
    nextClientId: nat,
    appointments: map<nat, Appointment>,
    nextAppointmentId: nat,
    reminders: seq<Reminder>)

  /** Some client other than `except` already has phone `p` (clients.phone is a unique column). */
  predicate PhoneTaken(clients: map<nat, Client>, p: string) {
    exists k :: k in clients && clients[k].phone == Some(p)
  }

  predicate PhonesUnique(clients: map<nat, Client>) {
    forall i, j :: i in clients && j in clients && i != j && clients[i].phone.Some? ==> clients[i].phone != clients[j].phone
  }

  /** Ids below the auto-increment counters, and the unique index on clients.phone. */
  predicate ValidTables(t: Tables) {
    && (forall k :: k in t.clients ==> k < t.nextClientId)
    && (forall k :: k in t.appointments ==> k < t.nextAppointmentId)
    && PhonesUnique(t.clients)
  }

  /**
   * Every appointment linked to a calendar event has a start time.  The sync
   * formats the start time of the linked row it finds, which fails for a null
   * one; every writer of the appointments table keeps this.
   */
  predicate LinkedHaveStart(t: Tables) {
    forall k :: k in t.appointments && t.appointments[k].eventId.Some? ==> t.appointments[k].startTime.Some?
  }

  /** Writing a row that is unlinked, or linked with a start time, keeps LinkedHaveStart. */
  lemma WriteKeepsLinkedStart(t: Tables, k: nat, a: Appointment)
    requires LinkedHaveStart(t) && (a.eventId.Some? ==> a.startTime.Some?)
    ensures LinkedHaveStart(t.(appointments := t.appointments[k := a]))
  {
  }

  /** The least key in [i, bound) whose row satisfies `p`: `where(...)->first()`. */
  function FirstMatch<V>(m: map<nat, V>, p: V -> bool, i: nat, bound: nat): (r: Option<nat>)
    decreases bound - i
    ensures r.Some? ==> i <= r.value < bound && r.value in m && p(m[r.value])
    ensures r.Some? ==> forall k :: i <= k < r.value && k in m ==> !p(m[k])
    ensures r.None? ==> forall k :: i <= k < bound && k in m ==> !p(m[k])
  {
    if i >= bound then None
    else if i in m && p(m[i]) then Some(i)
    else FirstMatch(m, p, i + 1, bound)
  }

  /** All keys in [i, bound) whose rows satisfy `p`, in increasing order: `where(...)->orderBy('id')->get()`. */
  function KeysWhere<V>(m: map<nat, V>, p: V -> bool, i: nat, bound: nat): (r: seq<nat>)
    decreases bound - i
    ensures forall j :: 0 <= j < |r| ==> i <= r[j] < bound && r[j] in m && p(m[r[j]])
    ensures forall j, j' :: 0 <= j < j' < |r| ==> r[j] < r[j']
    ensures forall k :: i <= k < bound && k in m && p(m[k]) ==> k in r
  {
    if i >= bound then []
    else if i in m && p(m[i]) then [i] + KeysWhere(m, p, i + 1, bound)
    else KeysWhere(m, p, i + 1, bound)
  }

  /** The first match does not move when the rows below `b` match as before and
      nothing in [b, b') matches. */
  lemma {:induction false} FirstMatchFrame<V>(m: map<nat, V>, m': map<nat, V>, p: V -> bool, i: nat, b: nat, b': nat)
    requires b <= b'
    requires forall k :: i <= k < b ==> ((k in m && p(m[k])) <==> (k in m' && p(m'[k])))
    requires forall k :: b <= k < b' && k in m' ==> !p(m'[k])
    ensures FirstMatch(m', p, i, b') == FirstMatch(m, p, i, b)
    decreases b' - i
  {
    if i < b {
      FirstMatchFrame(m, m', p, i + 1, b, b');
    }
  }

  /** A row added at the bound matches first when nothing below it matched. */
  lemma FirstMatchAppended<V>(m: map<nat, V>, p: V -> bool, b: nat, v: V)
    requires FirstMatch(m, p, 0, b).None?
    requires p(v)
    ensures FirstMatch(m[b := v], p, 0, b + 1) == Some(b)
  {
    var r := FirstMatch(m[b := v], p, 0, b + 1);
    assert b in m[b := v] && p(m[b := v][b]);
  }

  function NameIs(name: string): Client -> bool {
    (c: Client) => c.name == name
  }

  function EventIs(eventId: string): Appointment -> bool {
    (a: Appointment) => a.eventId == Some(eventId)
  }

  /** `Client::where('name', $name)->first()`. */
  function FirstClientNamed(t: Tables, name: string): Option<nat> {
    FirstMatch(t.clients, NameIs(name), 0, t.nextClientId)
  }

  /** `Appointment::where('event_id', $id)->first()`. */
  function FirstAppointmentFor(t: Tables, eventId: string): Option<nat> {
    FirstMatch(t.appointments, EventIs(eventId), 0, t.nextAppointmentId)
  }

  datatype Resolution = Resolution(tables: Tables, clientId: nat)

  /**
   * Find a client by exact name, else insert one with the given phone and
   * status Green.  The insert fails (None) when the phone is already taken,
   * as the unique index on clients.phone makes it.
   */
  function FindOrCreateClient(t: Tables, name: string, phone: Option<string>): (r: Option<Resolution>)
    requires ValidTables(t)
    ensures r.Some? ==> ValidTables(r.value.tables) && r.value.clientId in r.value.tables.clients
    ensures r.Some? ==> FirstClientNamed(r.value.tables, name) == Some(r.value.clientId)
    ensures r.Some? ==> r.value.tables.clients[r.value.clientId].name == name
    ensures r.Some? ==> forall k :: k in t.clients ==> k in r.value.tables.clients && r.value.tables.clients[k] == t.clients[k]
    ensures r.Some? ==> r.value.tables == t.(clients := r.value.tables.clients, nextClientId := r.value.tables.nextClientId)
    ensures FirstClientNamed(t, name).Some? ==> r == Some(Resolution(t, FirstClientNamed(t, name).value))
    ensures FirstClientNamed(t, name).None? ==> (r.Some? <==> (phone.None? || !PhoneTaken(t.clients, phone.value)))
    ensures FirstClientNamed(t, name).None? && r.Some? ==>
      r.value.clientId == t.nextClientId &&
      r.value.tables.clients == t.clients[t.nextClientId := Client(name, phone, Green)] &&
      r.value.tables.nextClientId == t.nextClientId + 1
  {
    var found := FirstClientNamed(t, name);
    if found.Some? then Some(Resolution(t, found.value))
    else if phone.Some? && PhoneTaken(t.clients, phone.value) then None
    else
      var n := t.nextClientId;
      var clients' := t.clients[n := Client(name, phone, Green)];
      FirstMatchAppended(t.clients, NameIs(name), n, Client(name, phone, Green));
      Some(Resolution(t.(clients := clients', nextClientId := n + 1), n))
  }

  /** A lookup by name that found a client keeps finding it while clients are only
      added at fresh ids under names nobody had. */
  lemma FirstClientNamedStable(t: Tables, t': Tables, name: string)
    requires ValidTables(t)
    requires FirstClientNamed(t, name).Some?
    requires t.nextClientId <= t'.nextClientId
    requires forall k :: k in t.clients ==> k in t'.clients && t'.clients[k] == t.clients[k]
    requires forall k :: k in t'.clients && k !in t.clients ==> k >= t.nextClientId
    ensures FirstClientNamed(t', name) == FirstClientNamed(t, name)
  {
    var r := FirstClientNamed(t, name).value;
    assert FirstMatch(t'.clients, NameIs(name), 0, t'.nextClientId) == Some(r) by {
      var r' := FirstMatch(t'.clients, NameIs(name), 0, t'.nextClientId);
      assert r in t'.clients && NameIs(name)(t'.clients[r]);
      if r'.None? {
        assert false;
      } else if r'.value < r {
        assert false;
      } else if r'.value > r {
        assert false;
      }
    }
  }

  /** The live tables, updated in place by the application's commands and controllers. */
  class Database {
    var clients: map<nat, Client>
    var nextClientId: nat
    var appointments: map<nat, Appointment>
    var nextAppointmentId: nat
    var reminders: seq<Reminder>

    function State(): Tables
      reads this
    {
      Tables(clients, nextClientId, appointments, nextAppointmentId, reminders)
    }

    predicate Valid()
      reads this
    {
      ValidTables(State())
    }

    constructor ()
      ensures Valid() && State() == Tables(map[], 0, map[], 0, []) && LinkedHaveStart(State())
    {
      clients, nextClientId := map[], 0;
      appointments, nextAppointmentId := map[], 0;
      reminders := [];
    }

    /** `Client::where('name', ...)->first()`, else `Client::create(...)`; None when the insert is refused. */
    method FirstOrCreateClient(name: string, phone: Option<string>) returns (id: Option<nat>)
      requires Valid()
      modifies this
      ensures Valid()
      ensures var r := FindOrCreateClient(old(State()), name, phone);
        && (r.Some? ==> State() == r.value.tables && id == Some(r.value.clientId))
        && (r.None? ==> State() == old(State()) && id.None?)
    {
      id := FirstClientNamed(State(), name);
      if id.Some? {
        return;
      }
      if phone.Some? && PhoneTaken(clients, phone.value) {
        return;
      }
      id := Some(nextClientId);
      clients := clients[nextClientId := Client(name, phone, Green)];
      nextClientId := nextClientId + 1;
    }

    /** `Appointment::create(...)`: the new row takes the next id. */
    method InsertAppointment(a: Appointment) returns (id: nat)
      requires Valid()
      modifies this
      ensures Valid()
      ensures id == old(nextAppointmentId)
      ensures State() == old(State()).(appointments := old(appointments)[id := a], nextAppointmentId := id + 1)
    {
      id := nextAppointmentId;
      appointments := appointments[id := a];
      nextAppointmentId := id + 1;
    }

    /** `Reminder::create(...)`: one more row at the end of the audit log. */
    method AppendReminder(r: Reminder)
      requires Valid()
      modifies this
      ensures Valid()
      ensures State() == old(State()).(reminders := old(reminders) + [r])
    {
      reminders := reminders + [r];
    }

    /** `$appointment->update(...)` on an existing row. */
    method UpdateAppointment(id: nat, a: Appointment)
      requires Valid() && id in appointments
      modifies this
      ensures Valid()
      ensures State() == old(State()).(appointments := old(appointments)[id := a])
    {
      appointments := appointments[id := a];
    }
  }
}
