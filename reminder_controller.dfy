/**
 * ReminderController::sendAppointmentReminders: every appointment that starts
 * tomorrow (the day after today in Asia/Dhaka) and has no reminder yet gets
 * one template message; a send that succeeds is logged in the reminders table
 * and marks the appointment, a send that fails changes nothing.
 */
module ReminderController {
  import opened Wrappers
  import opened Clock
  import opened Persistence

  /** The fixed recipient of every template message. */
  const ReminderRecipient := "+8801823744169"
  /** The name of the approved message template. */
  const ReminderTemplate := "Ki khobor?"
  /** The JSON reply of a run that reaches its end. */
  const ReplyMessage := "Reminders sent successfully"

  /** One request to the messaging API: recipient, template name and the body parameters in order. */
  datatype TemplateMessage = TemplateMessage(to: string, template: string, parameters: seq<string>)

  /** What the controller answers: its JSON message, or a server error when an uncaught error ends the request. */
  datatype Response = Json(message: string) | ServerError

  /** The state of a run: the tables, the messages sent so far, and whether an uncaught error stopped it. */
  datatype Run = Run(tables: Tables, attempts: seq<TemplateMessage>, crashed: bool)

  /**
   * The selection: start_time between tomorrow's start and end of day and
   * reminder_sent false.  The bounds are Asia/Dhaka wall-clock times and the
   * column holds wall-clock times of the application zone `offset`, so the
   * start's local day in `offset` is compared with tomorrow's day number in Dhaka.
   */
  predicate Due(a: Appointment, now: int, offset: int) {
    a.startTime.Some? && InDay(a.startTime.value, LocalDay(now, DhakaOffset) + 1, offset) && !a.reminderSent
  }

  function DueIs(now: int, offset: int): Appointment -> bool {
    (a: Appointment) => Due(a, now, offset)
  }

  /** The selected appointments, taken in id order. */
  function DueIds(t: Tables, now: int, offset: int): (ids: seq<nat>)
    ensures forall j :: 0 <= j < |ids| ==> ids[j] in t.appointments && Due(t.appointments[ids[j]], now, offset)
    ensures forall j, j' :: 0 <= j < j' < |ids| ==> ids[j] < ids[j']
    ensures forall k :: k in t.appointments && k < t.nextAppointmentId && Due(t.appointments[k], now, offset) ==> k in ids
  {
    KeysWhere(t.appointments, DueIs(now, offset), 0, t.nextAppointmentId)
  }

  /** `$appointment->client`: the client row the appointment belongs to, if there is one. */
  function ClientOf(t: Tables, a: Appointment): (c: Option<Client>)
    ensures c.Some? <==> a.clientId.Some? && a.clientId.value in t.clients
    ensures c.Some? ==> c.value == t.clients[a.clientId.value]
  {
    if a.clientId.Some? && a.clientId.value in t.clients then Some(t.clients[a.clientId.value]) else None
  }

  /** The message for an appointment of client `c`: the fixed recipient, the template, and [name, 'h:i' start]. */
  function MessageFor(c: Client, a: Appointment, offset: int): (m: TemplateMessage)
    requires a.startTime.Some?
    ensures m.to == ReminderRecipient && m.template == ReminderTemplate
    ensures m.parameters == [c.name, FormatClock12(a.startTime.value, offset)]
  {
    TemplateMessage(ReminderRecipient, ReminderTemplate, [c.name, FormatClock12(a.startTime.value, offset)])
  }

  /** After a send answered `ok`: on success one audit row is appended and the marker set, on failure nothing changes. */
  function Record(t: Tables, id: nat, a: Appointment, now: int, ok: bool): (r: Tables)
    ensures ok ==> r.reminders == t.reminders + [Reminder(a.clientId, id, now)]
    ensures ok ==> r.appointments == t.appointments[id := a.(reminderSent := true)]
    ensures ok ==> r.clients == t.clients && r.nextClientId == t.nextClientId && r.nextAppointmentId == t.nextAppointmentId
    ensures !ok ==> r == t
  {
    if ok then t.(reminders := t.reminders + [Reminder(a.clientId, id, now)], appointments := t.appointments[id := a.(reminderSent := true)])
    else t
  }

  /** The loaded appointment `id` has a loaded client: reading its phone and name does not fail. */
  predicate HasClient(t0: Tables, id: nat)
    requires id in t0.appointments
  {
    ClientOf(t0, t0.appointments[id]).Some?
  }

  /** Loaded appointments with a start time. */
  predicate Loaded(t0: Tables, ids: seq<nat>) {
    forall j :: 0 <= j < |ids| ==> ids[j] in t0.appointments && t0.appointments[ids[j]].startTime.Some?
  }

  /**
   * How many appointments the loop gets through: it reads the client's phone
   * and name outside the try block, so the first appointment without a
   * client raises an uncaught error and ends the request there.
   */
  function Reach(t0: Tables, ids: seq<nat>): (n: nat)
    requires Loaded(t0, ids)
    ensures n <= |ids|
    ensures forall j :: 0 <= j < n ==> HasClient(t0, ids[j])
    ensures n < |ids| ==> !HasClient(t0, ids[n])
  {
    if |ids| == 0 || !HasClient(t0, ids[0]) then 0
    else
      var n := Reach(t0, ids[1..]);
      assert forall j :: 1 <= j < 1 + n ==> ids[j] == ids[1..][j - 1];
      1 + n
  }

  /** The message for the loaded appointment `id`, which has a client and a start time. */
  function MessageOf(t0: Tables, id: nat, offset: int): TemplateMessage
    requires id in t0.appointments && t0.appointments[id].startTime.Some? && HasClient(t0, id)
  {
    MessageFor(ClientOf(t0, t0.appointments[id]).value, t0.appointments[id], offset)
  }

  /** The messages sent for the first `n` appointments of `ids`, which have clients: one each, in order. */
  function Messages(t0: Tables, ids: seq<nat>, n: nat, offset: int): (ms: seq<TemplateMessage>)
    requires Loaded(t0, ids) && n <= Reach(t0, ids)
    ensures |ms| == n
  {
    if n == 0 then [] else Messages(t0, ids, n - 1, offset) + [MessageOf(t0, ids[n - 1], offset)]
  }

  /**
   * The tables after sending for the first `n` appointments of `ids`, the
   * j-th send answering `gateway(j)`.  Sending never touches the clients or
   * the id counters and keeps every appointment row.
   */
  function Sends(t0: Tables, ids: seq<nat>, n: nat, now: int, gateway: nat -> bool): (t: Tables)
    requires Loaded(t0, ids) && n <= |ids|
    ensures t.clients == t0.clients && t.nextClientId == t0.nextClientId
    ensures t.nextAppointmentId == t0.nextAppointmentId && t.appointments.Keys == t0.appointments.Keys
  {
    if n == 0 then t0
    else Record(Sends(t0, ids, n - 1, now, gateway), ids[n - 1], t0.appointments[ids[n - 1]], now, gateway(n - 1))
  }

  /** A whole request over the selected appointments `ids`, loaded from `t0`. */
  function RunOver(t0: Tables, ids: seq<nat>, now: int, offset: int, gateway: nat -> bool): (r: Run)
    requires Loaded(t0, ids)
  {
    var n := Reach(t0, ids);
    Run(Sends(t0, ids, n, now, gateway), Messages(t0, ids, n, offset), n < |ids|)
  }

  /**
   * One iteration of the loop for `ids[i]`: the client read (which fails
   * without a client), the send, and on success the audit row and the mark.
   */
  method RemindOne(db: Database, ghost t0: Tables, rows: map<nat, Appointment>, clients: map<nat, Client>,
                   ids: seq<nat>, i: nat, now: int, offset: int, gateway: nat -> bool, attempts: seq<TemplateMessage>)
    returns (attempts': seq<TemplateMessage>, crashed: bool)
    requires rows == t0.appointments && clients == t0.clients && db.Valid() && Loaded(t0, ids)
    requires i < |ids| && i <= Reach(t0, ids)
    requires db.State() == Sends(t0, ids, i, now, gateway) && attempts == Messages(t0, ids, i, offset)
    modifies db
    ensures db.Valid()
    ensures crashed ==> i == Reach(t0, ids) && db.State() == old(db.State()) && attempts' == attempts
    ensures !crashed ==> i + 1 <= Reach(t0, ids) &&
                         db.State() == Sends(t0, ids, i + 1, now, gateway) && attempts' == Messages(t0, ids, i + 1, offset)
  {
    var id := ids[i];
    var a := rows[id];
    if !(a.clientId.Some? && a.clientId.value in clients) {
      return attempts, true;
    }
    crashed := false;
    var message := TemplateMessage(ReminderRecipient, ReminderTemplate, [clients[a.clientId.value].name, FormatClock12(a.startTime.value, offset)]);
    var ok := gateway(i);
    attempts' := attempts + [message];
    if ok {
      db.AppendReminder(Reminder(a.clientId, id, now));
      db.UpdateAppointment(id, a.(reminderSent := true));
    }
  }

  /** The foreach over the loaded appointments `ids`, until the end or the first uncaught error. */
  method RemindAll(db: Database, ids: seq<nat>, now: int, offset: int, gateway: nat -> bool)
    returns (attempts: seq<TemplateMessage>, crashed: bool)
    requires db.Valid() && Loaded(db.State(), ids)
    modifies db
    ensures db.Valid()
    ensures var r := RunOver(old(db.State()), ids, now, offset, gateway);
            db.State() == r.tables && attempts == r.attempts && crashed == r.crashed
  {
    ghost var t0 := db.State();
    var rows, clients := db.appointments, db.clients;
    attempts := [];
    crashed := false;
    var i := 0;
    while i < |ids| && !crashed
      invariant i <= Reach(t0, ids) <= |ids| && (crashed ==> i == Reach(t0, ids) < |ids|)
      invariant db.Valid() && db.State() == Sends(t0, ids, i, now, gateway) && attempts == Messages(t0, ids, i, offset)
      decreases |ids| - i, !crashed
    {
      var stopped;
      attempts, stopped := RemindOne(db, t0, rows, clients, ids, i, now, offset, gateway, attempts);
      if stopped {
        crashed := true;
      } else {
        i := i + 1;
      }
    }
  }

  /**
   * sendAppointmentReminders.  `now` is the request time, `offset` the
   * application zone's UTC offset, and `gateway(k)` whether the k-th send
   * succeeded.  The reply is the same fixed message whatever the sends did.
   */
  method SendAppointmentReminders(db: Database, now: int, offset: int, gateway: nat -> bool)
    returns (response: Response, attempts: seq<TemplateMessage>)
    requires db.Valid()
    modifies db
    ensures db.Valid()
    ensures var r := RunOver(old(db.State()), DueIds(old(db.State()), now, offset), now, offset, gateway);
            db.State() == r.tables && attempts == r.attempts &&
            response == (if r.crashed then ServerError else Json(ReplyMessage))
  {
    var ids := DueIds(db.State(), now, offset);
    var crashed;
    attempts, crashed := RemindAll(db, ids, now, offset, gateway);
    response := if crashed then ServerError else Json(ReplyMessage);
  }
}
