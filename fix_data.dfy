/**
 * The `appointments:fix-data` console command (FixAppointmentData::handle).
 * Legacy appointments carry "Client Name - Service" in their service column
 * and no client.  Each of them is split at the first " - ", linked to the
 * client with that name (created when there is none) and given the service
 * part alone.  The selection is read once, before the loop.
 */
module FixData {
  import opened Wrappers
  import opened Text
  import opened Persistence
  import opened EventParser

  /** The phone the source gives a client it creates: `'phone' => ''`. */
  const WrittenPhone: Option<string> := Some("")
  /** The phone a created client evidently should get: none, like every other client created without one. */
  const IntendedPhone: Option<string> := None

  /** `where('service', 'LIKE', '% - %')->whereNull('client_id')`. */
  predicate NeedsFix(a: Appointment) {
    Contains(a.service, Separator) && a.clientId.None?
  }

  function NeedsFixIs(): Appointment -> bool {
    (a: Appointment) => NeedsFix(a)
  }

  /** The selected appointments, in id order. */
  function ToFix(t: Tables): (ids: seq<nat>)
    ensures forall j :: 0 <= j < |ids| ==> ids[j] in t.appointments && NeedsFix(t.appointments[ids[j]])
    ensures forall j, j' :: 0 <= j < j' < |ids| ==> ids[j] < ids[j']
    ensures forall k :: k in t.appointments && k < t.nextAppointmentId && NeedsFix(t.appointments[k]) ==> k in ids
  {
    KeysWhere(t.appointments, NeedsFixIs(), 0, t.nextAppointmentId)
  }

  /** The loaded rows `ids` of `t0` are all selected. */
  predicate Selected(t0: Tables, ids: seq<nat>) {
    forall j :: 0 <= j < |ids| ==> ids[j] in t0.appointments && NeedsFix(t0.appointments[ids[j]])
  }

  /** The rows `ids` exist in `t0`. */
  predicate Loaded(t0: Tables, ids: seq<nat>) {
    forall j :: 0 <= j < |ids| ==> ids[j] in t0.appointments
  }

  /** Clients are only added, at fresh ids, and no existing client changes. */
  predicate ClientsGrow(t: Tables, t': Tables) {
    && t.nextClientId <= t'.nextClientId
    && (forall k :: k in t.clients ==> k in t'.clients && t'.clients[k] == t.clients[k])
    && (forall k :: k in t'.clients && k !in t.clients ==> k >= t.nextClientId)
  }

  /**
   * The appointment `id` fixed in `t` with the parts `name` and `service` of
   * its old service: the client found by name or created with `phone`, and the
   * row's client_id and service updated.  None when creating the client
   * violates the unique index on clients.phone.
   */
  function FixOne(t: Tables, id: nat, name: string, service: string, phone: Option<string>): (r: Option<Tables>)
    requires ValidTables(t) && id in t.appointments
    ensures r.Some? ==> ValidTables(r.value) && r.value.appointments.Keys == t.appointments.Keys
    ensures r.Some? ==> r.value.nextAppointmentId == t.nextAppointmentId && r.value.reminders == t.reminders
  {
    match FindOrCreateClient(t, name, phone)
    case None => None
    case Some(res) =>
      var rows := res.tables.appointments;
      Some(res.tables.(appointments := rows[id := rows[id].(clientId := Some(res.clientId), service := service)]))
  }

  /** `explode(' - ', $service, 2)` on a selected service, both parts trimmed: the split at the first separator. */
  function SplitService(service: string): (parts: (string, string))
    requires Contains(service, Separator)
    ensures ParseEventName(service) == ParsedName(Some(parts.0), parts.1)
  {
    var p := ParseEventName(service);
    (p.clientName.value, p.serviceName)
  }

  /** Where a run of the loop ends: the tables, how many rows it fixed, and whether an uncaught error stopped it. */
  datatype FixRun = FixRun(tables: Tables, fixed: nat, crashed: bool)

  /** The split of every loaded service, computed up front (the split depends on the loaded row alone). */
  function Splits(t0: Tables, ids: seq<nat>): (parts: seq<(string, string)>)
    requires Selected(t0, ids)
    ensures |parts| == |ids|
    ensures forall j :: 0 <= j < |ids| ==> parts[j] == SplitService(t0.appointments[ids[j]].service)
  {
    seq(|ids|, j requires 0 <= j < |ids| => SplitService(t0.appointments[ids[j]].service))
  }

  /**
   * The rest of the loop from the i-th loaded row on, starting from the
   * tables `t`; `parts` are the splits of the loaded services.  A refused
   * insert raises an uncaught error that ends the command where it stands,
   * and `fixed` counts the rows fixed from the i-th on.
   */
  function Rest(t: Tables, ids: seq<nat>, parts: seq<(string, string)>, i: nat, phone: Option<string>): (r: FixRun)
    requires ValidTables(t) && Loaded(t, ids) && |parts| == |ids| && i <= |ids|
    ensures ValidTables(r.tables)
    ensures r.tables.appointments.Keys == t.appointments.Keys
    ensures r.tables.nextAppointmentId == t.nextAppointmentId && r.tables.reminders == t.reminders
    ensures r.crashed ==> r.fixed < |ids| - i
    ensures !r.crashed ==> r.fixed == |ids| - i
    decreases |ids| - i
  {
    if i == |ids| then FixRun(t, 0, false)
    else
      match FixOne(t, ids[i], parts[i].0, parts[i].1, phone)
      case None => FixRun(t, 0, true)
      case Some(t') =>
        var r := Rest(t', ids, parts, i + 1, phone);
        r.(fixed := r.fixed + 1)
  }

  /** A run whose count starts at `fixed`. */
  function After(r: FixRun, fixed: nat): (r': FixRun)
    ensures r'.tables == r.tables && r'.crashed == r.crashed && r'.fixed == r.fixed + fixed
  {
    r.(fixed := r.fixed + fixed)
  }

  /** A whole run of the command from the tables `t0`. */
  function FixAll(t0: Tables, phone: Option<string>): FixRun
    requires ValidTables(t0)
  {
    var ids := ToFix(t0);
    Rest(t0, ids, Splits(t0, ids), 0, phone)
  }

  /** How the command ends: exit code 0 with the count it reports, or an uncaught error. */
  datatype FixOutcome = Finished(exitCode: int, fixed: nat) | Crashed

  /**
   * One pass of the loop, for `ids[i]`, with `fixed` rows fixed so far and
   * `goal` the whole run: either the run ends here with the error, or the
   * rest of it carries on from the next row.
   */
  method FixStep(db: Database, rows: map<nat, Appointment>, ids: seq<nat>, ghost parts: seq<(string, string)>,
                 i: nat, phone: Option<string>, fixed: nat, ghost goal: FixRun)
    returns (fixed': nat, crashed: bool)
    requires db.Valid() && Loaded(db.State(), ids) && |parts| == |ids| && i < |ids|
    requires ids[i] in rows && Contains(rows[ids[i]].service, Separator) && parts[i] == SplitService(rows[ids[i]].service)
    requires goal == After(Rest(db.State(), ids, parts, i, phone), fixed)
    modifies db
    ensures db.Valid() && db.appointments.Keys == old(db.appointments.Keys)
    ensures crashed ==> goal == FixRun(db.State(), fixed', true)
    ensures !crashed ==> goal == After(Rest(db.State(), ids, parts, i + 1, phone), fixed')
  {
    var id := ids[i];
    var a := rows[id];
    var split := SplitService(a.service);
    assert split == parts[i];
    ghost var s := db.State();
    RestUnfold(s, ids, parts, i, phone);
    ghost var res := FindOrCreateClient(s, split.0, phone);
    var clientId := db.FirstOrCreateClient(split.0, phone);
    if clientId.None? {
      assert res.None?;
      return fixed, true;
    }
    assert db.State() == res.value.tables && clientId == Some(res.value.clientId);
    assert db.appointments == s.appointments;
    db.UpdateAppointment(id, db.appointments[id].(clientId := clientId, service := split.1));
    assert db.State() == FixOne(s, id, split.0, split.1, phone).value;
    fixed', crashed := fixed + 1, false;
  }

  /** One unfolding of Rest at a row that is not the last. */
  lemma RestUnfold(t: Tables, ids: seq<nat>, parts: seq<(string, string)>, i: nat, phone: Option<string>)
    requires ValidTables(t) && Loaded(t, ids) && |parts| == |ids| && i < |ids|
    ensures var r := FixOne(t, ids[i], parts[i].0, parts[i].1, phone);
            && (r.None? ==> Rest(t, ids, parts, i, phone) == FixRun(t, 0, true))
            && (r.Some? ==> Loaded(r.value, ids) && Rest(t, ids, parts, i, phone) == After(Rest(r.value, ids, parts, i + 1, phone), 1))
  {
  }

  /** The foreach over the loaded rows `ids`, until the end or the first uncaught error. */
  method FixLoop(db: Database, rows: map<nat, Appointment>, ids: seq<nat>, ghost parts: seq<(string, string)>, phone: Option<string>)
    returns (fixed: nat, crashed: bool)
    requires db.Valid() && rows == db.appointments && Selected(db.State(), ids) && parts == Splits(db.State(), ids)
    modifies db
    ensures db.Valid()
    ensures Rest(old(db.State()), ids, parts, 0, phone) == FixRun(db.State(), fixed, crashed)
  {
    ghost var t0 := db.State();
    ghost var goal := Rest(t0, ids, parts, 0, phone);
    fixed, crashed := 0, false;
    var i := 0;
    while i < |ids| && !crashed
      invariant 0 <= i <= |ids| && db.Valid() && db.appointments.Keys == t0.appointments.Keys
      invariant !crashed ==> goal == After(Rest(db.State(), ids, parts, i, phone), fixed)
      invariant crashed ==> goal == FixRun(db.State(), fixed, true)
      decreases |ids| - i, !crashed
    {
      assert parts[i] == SplitService(rows[ids[i]].service);
      fixed, crashed := FixStep(db, rows, ids, parts, i, phone, fixed, goal);
      i := i + 1;
    }
  }

  /**
   * FixAppointmentData::handle with `phone` for the clients it creates (the
   * source passes `WrittenPhone`).  An empty selection returns 0 at once.
   */
  method FixAppointmentData(db: Database, phone: Option<string>) returns (outcome: FixOutcome)
    requires db.Valid()
    modifies db
    ensures db.Valid()
    ensures var r := FixAll(old(db.State()), phone);
            db.State() == r.tables && outcome == (if r.crashed then Crashed else Finished(0, r.fixed))
  {
    var ids := ToFix(db.State());
    if |ids| == 0 {
      return Finished(0, 0);
    }
    ghost var parts := Splits(db.State(), ids);
    var fixed, crashed := FixLoop(db, db.appointments, ids, parts, phone);
    outcome := if crashed then Crashed else Finished(0, fixed);
  }
}
