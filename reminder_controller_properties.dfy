/**
 * What one run of the reminder endpoint does to the tables, and why a
 * reminder that went out is never sent again by a later run.
 */
module ReminderControllerProperties {
  import opened Wrappers
  import opened Clock
  import opened Persistence
  import opened ReminderController

  /** The selection is exactly "starts tomorrow and not yet reminded"; the status plays no part. */
  lemma DueIff(a: Appointment, now: int, offset: int)
    ensures Due(a, now, offset) <==>
              a.startTime.Some? && LocalDay(a.startTime.value, offset) == LocalDay(now, DhakaOffset) + 1 && !a.reminderSent
  {
    if a.startTime.Some? {
      InDayIff(a.startTime.value, LocalDay(now, DhakaOffset) + 1, offset);
    }
  }

  /** The j-th attempt goes to the fixed recipient with the j-th appointment's client name and start time. */
  lemma {:induction false} MessagesAt(t0: Tables, ids: seq<nat>, n: nat, offset: int, j: nat)
    requires Loaded(t0, ids) && n <= Reach(t0, ids) && j < n
    ensures Messages(t0, ids, n, offset)[j] ==
              TemplateMessage(ReminderRecipient, ReminderTemplate,
                [ClientOf(t0, t0.appointments[ids[j]]).value.name, FormatClock12(t0.appointments[ids[j]].startTime.value, offset)])
    decreases n
  {
    assert ids[j] in t0.appointments && t0.appointments[ids[j]].startTime.Some?;
    if j < n - 1 {
      MessagesAt(t0, ids, n - 1, offset, j);
    }
  }

  /** The run stops with a server error exactly when some selected appointment has no client; it sends one message per appointment before that. */
  lemma CrashIff(t0: Tables, ids: seq<nat>, now: int, offset: int, gateway: nat -> bool)
    requires Loaded(t0, ids)
    ensures var r := RunOver(t0, ids, now, offset, gateway);
            (r.crashed <==> exists j :: 0 <= j < |ids| && !HasClient(t0, ids[j])) &&
            (!r.crashed ==> |r.attempts| == |ids|)
  {
    var n := Reach(t0, ids);
    if n < |ids| {
      assert !HasClient(t0, ids[n]);
    }
  }

  /** An appointment row after its send answered `ok`. */
  function AfterSend(a: Appointment, ok: bool): (b: Appointment)
    ensures b.reminderSent == (ok || a.reminderSent)
    ensures b.(reminderSent := a.reminderSent) == a
  {
    if ok then a.(reminderSent := true) else a
  }

  /**
   * The appointment `ids[j]` after sending for the first `n` of `ids`: it is
   * marked exactly when its send succeeded, and nothing else in its row changes.
   */
  lemma {:induction false} SendsMarks(t0: Tables, ids: seq<nat>, n: nat, now: int, gateway: nat -> bool, j: nat)
    requires Loaded(t0, ids) && n <= |ids| && j < n
    requires forall i :: 0 <= i < |ids| && i != j ==> ids[i] != ids[j]
    ensures Sends(t0, ids, n, now, gateway).appointments[ids[j]] == AfterSend(t0.appointments[ids[j]], gateway(j))
    decreases n
  {
    if j < n - 1 {
      SendsStep(t0, ids, n, now, gateway, ids[j]);
      SendsMarks(t0, ids, n - 1, now, gateway, j);
    } else {
      SendsKeepsOthers(t0, ids, n - 1, now, gateway, ids[j]);
    }
  }

  /** One more send leaves every appointment but its own as it was. */
  lemma SendsStep(t0: Tables, ids: seq<nat>, n: nat, now: int, gateway: nat -> bool, k: nat)
    requires Loaded(t0, ids) && 0 < n <= |ids| && k in t0.appointments && k != ids[n - 1]
    ensures Sends(t0, ids, n, now, gateway).appointments[k] == Sends(t0, ids, n - 1, now, gateway).appointments[k]
  {
  }

  /** Sending for the first `n` of `ids` leaves every other appointment as it was. */
  lemma {:induction false} SendsKeepsOthers(t0: Tables, ids: seq<nat>, n: nat, now: int, gateway: nat -> bool, k: nat)
    requires Loaded(t0, ids) && n <= |ids| && k in t0.appointments
    requires forall j :: 0 <= j < n ==> ids[j] != k
    ensures Sends(t0, ids, n, now, gateway).appointments[k] == t0.appointments[k]
    decreases n
  {
    if n > 0 {
      SendsKeepsOthers(t0, ids, n - 1, now, gateway, k);
    }
  }

  /** How many of the sends 0 .. n - 1 succeed. */
  function Successes(gateway: nat -> bool, n: nat): (c: nat)
    ensures c <= n
  {
    if n == 0 then 0 else Successes(gateway, n - 1) + (if gateway(n - 1) then 1 else 0)
  }

  lemma {:induction false} NoSuccesses(gateway: nat -> bool, n: nat)
    requires forall k: nat :: !gateway(k)
    ensures Successes(gateway, n) == 0
  {
    if n > 0 {
      NoSuccesses(gateway, n - 1);
    }
  }

  /** The audit rows the first `n` sends leave, in visiting order: one per success. */
  function Logged(t0: Tables, ids: seq<nat>, n: nat, now: int, gateway: nat -> bool): (rows: seq<Reminder>)
    requires Loaded(t0, ids) && n <= |ids|
    ensures |rows| == Successes(gateway, n)
  {
    if n == 0 then []
    else
      Logged(t0, ids, n - 1, now, gateway) +
        (if gateway(n - 1) then [Reminder(t0.appointments[ids[n - 1]].clientId, ids[n - 1], now)] else [])
  }

  /** Sending appends exactly the rows of the successful sends to the audit log. */
  lemma {:induction false} SendsLog(t0: Tables, ids: seq<nat>, n: nat, now: int, gateway: nat -> bool)
    requires Loaded(t0, ids) && n <= |ids|
    ensures Sends(t0, ids, n, now, gateway).reminders == t0.reminders + Logged(t0, ids, n, now, gateway)
    decreases n
  {
    if n > 0 {
      SendsLog(t0, ids, n - 1, now, gateway);
    }
  }

  /** The row of the j-th send, when it succeeded, sits after the rows of the earlier successes. */
  lemma {:induction false} LoggedAt(t0: Tables, ids: seq<nat>, n: nat, now: int, gateway: nat -> bool, j: nat)
    requires Loaded(t0, ids) && n <= |ids| && j < n && gateway(j)
    ensures Successes(gateway, j) < |Logged(t0, ids, n, now, gateway)|
    ensures Logged(t0, ids, n, now, gateway)[Successes(gateway, j)] == Reminder(t0.appointments[ids[j]].clientId, ids[j], now)
    decreases n
  {
    if j < n - 1 {
      LoggedAt(t0, ids, n - 1, now, gateway, j);
    }
  }

  /** When every send fails, sending changes nothing. */
  lemma AllFailuresChangeNothing(t0: Tables, ids: seq<nat>, n: nat, now: int, gateway: nat -> bool)
    requires Loaded(t0, ids) && n <= |ids| && forall j, j' :: 0 <= j < j' < |ids| ==> ids[j] < ids[j']
    requires forall k: nat :: !gateway(k)
    ensures Sends(t0, ids, n, now, gateway) == t0
  {
    var t := Sends(t0, ids, n, now, gateway);
    SendsLog(t0, ids, n, now, gateway);
    NoSuccesses(gateway, n);
    forall k | k in t0.appointments
      ensures t.appointments[k] == t0.appointments[k]
    {
      if j :| 0 <= j < n && ids[j] == k {
        SendsMarks(t0, ids, n, now, gateway, j);
      } else {
        SendsKeepsOthers(t0, ids, n, now, gateway, k);
      }
    }
    assert t.appointments == t0.appointments;
    assert t.reminders == t0.reminders;
  }

  /**
   * At most once: an appointment whose send succeeded in one run is marked,
   * so no later run selects it, whatever the time of that run.
   */
  lemma RemindedNotDueAgain(t0: Tables, now: int, offset: int, gateway: nat -> bool, later: int, j: nat)
    requires j < Reach(t0, DueIds(t0, now, offset)) && gateway(j)
    ensures var ids := DueIds(t0, now, offset);
            ids[j] !in DueIds(RunOver(t0, ids, now, offset, gateway).tables, later, offset)
  {
    var ids := DueIds(t0, now, offset);
    var n := Reach(t0, ids);
    MarkedAt(t0, ids, n, now, gateway, j);
    NotDueNotSelected(Sends(t0, ids, n, now, gateway), ids[j], later, offset);
  }

  lemma MarkedAt(t0: Tables, ids: seq<nat>, n: nat, now: int, gateway: nat -> bool, j: nat)
    requires Loaded(t0, ids) && n <= |ids| && forall i, i' :: 0 <= i < i' < |ids| ==> ids[i] < ids[i']
    requires j < n && gateway(j)
    ensures Sends(t0, ids, n, now, gateway).appointments[ids[j]].reminderSent
  {
    SendsMarks(t0, ids, n, now, gateway, j);
  }

  lemma NotDueNotSelected(t: Tables, k: nat, now: int, offset: int)
    requires k in t.appointments && !Due(t.appointments[k], now, offset)
    ensures k !in DueIds(t, now, offset)
  {
  }

  /** Marking rows as reminded changes no start time and no event link. */
  lemma {:induction false} SendsKeepsLinkedStart(t0: Tables, ids: seq<nat>, n: nat, now: int, gateway: nat -> bool)
    requires Loaded(t0, ids) && n <= |ids| && LinkedHaveStart(t0)
    ensures LinkedHaveStart(Sends(t0, ids, n, now, gateway))
    decreases n
  {
    if n > 0 {
      SendsKeepsLinkedStart(t0, ids, n - 1, now, gateway);
      var a := t0.appointments[ids[n - 1]];
      WriteKeepsLinkedStart(Sends(t0, ids, n - 1, now, gateway), ids[n - 1], a.(reminderSent := true));
    }
  }

  /** A reminder run keeps every linked appointment's start time, which the calendar sync formats. */
  lemma RunOverKeepsLinkedStart(t0: Tables, ids: seq<nat>, now: int, offset: int, gateway: nat -> bool)
    requires Loaded(t0, ids) && LinkedHaveStart(t0)
    ensures LinkedHaveStart(RunOver(t0, ids, now, offset, gateway).tables)
  {
    SendsKeepsLinkedStart(t0, ids, Reach(t0, ids), now, gateway);
  }
}
