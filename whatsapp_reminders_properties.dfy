/**
 * What the reminder command sends: which appointments get a notice, in what
 * order, and what the message says with the built-in template.
 */
module WhatsAppReminderProperties {
  import opened Wrappers
  import opened Text
  import opened Clock
  import opened Persistence
  import opened MessageTemplate
  import opened WhatsAppReminders

  /** Notice `n` is the one the command prepares, in window `window`, for the appointment it names. */
  predicate NoticeOf(t: Tables, n: Notice, window: string, text: string)
  {
    n.appointmentId in t.appointments &&
    n.window == window &&
    n.to == Recipient(t.appointments[n.appointmentId]) &&
    Truthy(n.to) &&
    n.message == MessageFor(t.appointments[n.appointmentId], window, text)
  }

  /** Every notice of a window is for a visited appointment with a non-empty phone, and carries its message. */
  lemma {:induction false} WindowNoticesSound(t: Tables, ids: seq<nat>, window: string, text: string, k: nat)
    requires forall j :: 0 <= j < |ids| ==> ids[j] in t.appointments
    requires k < |WindowNotices(t, ids, window, text)|
    ensures WindowNotices(t, ids, window, text)[k].appointmentId in ids
    ensures NoticeOf(t, WindowNotices(t, ids, window, text)[k], window, text)
    decreases |ids|
  {
    var front := ids[..|ids| - 1];
    var rest := WindowNotices(t, front, window, text);
    if k < |rest| {
      WindowNoticesSound(t, front, window, text, k);
      assert rest[k].appointmentId in front;
    }
  }

  /** Every visited appointment with a non-empty trimmed phone gets a notice. */
  lemma {:induction false} WindowNoticesComplete(t: Tables, ids: seq<nat>, window: string, text: string, j: nat)
    requires forall i :: 0 <= i < |ids| ==> ids[i] in t.appointments
    requires j < |ids| && Truthy(Recipient(t.appointments[ids[j]]))
    ensures exists k :: 0 <= k < |WindowNotices(t, ids, window, text)| &&
                        WindowNotices(t, ids, window, text)[k].appointmentId == ids[j]
    decreases |ids|
  {
    var front := ids[..|ids| - 1];
    var r := WindowNotices(t, ids, window, text);
    var rest := WindowNotices(t, front, window, text);
    assert r == rest + NoticesFor(t, ids[|ids| - 1], window, text);
    if j < |ids| - 1 {
      assert front[j] == ids[j];
      WindowNoticesComplete(t, front, window, text, j);
      var k :| 0 <= k < |rest| && rest[k].appointmentId == ids[j];
      assert r[k] == rest[k];
    } else {
      assert r[|rest|].appointmentId == ids[j];
    }
  }

  /** Notices follow the visiting order, so each appointment gets at most one notice per window. */
  lemma {:induction false} WindowNoticesInOrder(t: Tables, ids: seq<nat>, window: string, text: string)
    requires forall j :: 0 <= j < |ids| ==> ids[j] in t.appointments
    requires forall j, j' :: 0 <= j < j' < |ids| ==> ids[j] < ids[j']
    ensures forall k, k' :: 0 <= k < k' < |WindowNotices(t, ids, window, text)| ==>
              WindowNotices(t, ids, window, text)[k].appointmentId < WindowNotices(t, ids, window, text)[k'].appointmentId
    decreases |ids|
  {
    if |ids| > 0 {
      var front := ids[..|ids| - 1];
      var last := ids[|ids| - 1];
      var r := WindowNotices(t, ids, window, text);
      var rest := WindowNotices(t, front, window, text);
      WindowNoticesInOrder(t, front, window, text);
      forall j | 0 <= j < |front|
        ensures front[j] in t.appointments && front[j] < last
      {
        assert front[j] == ids[j];
      }
      NoticesBelow(t, front, last, window, text);
      assert r == rest + NoticesFor(t, last, window, text);
      AppendedInOrder(rest, NoticesFor(t, last, window, text), last);
    }
  }

  /** When every visited id is below `bound`, so is every notice's appointment. */
  lemma NoticesBelow(t: Tables, ids: seq<nat>, bound: nat, window: string, text: string)
    requires forall j :: 0 <= j < |ids| ==> ids[j] in t.appointments && ids[j] < bound
    ensures forall k :: 0 <= k < |WindowNotices(t, ids, window, text)| ==> WindowNotices(t, ids, window, text)[k].appointmentId < bound
  {
    var r := WindowNotices(t, ids, window, text);
    forall k | 0 <= k < |r|
      ensures r[k].appointmentId < bound
    {
      WindowNoticesSound(t, ids, window, text, k);
      var j :| 0 <= j < |ids| && ids[j] == r[k].appointmentId;
    }
  }

  /** Notices in increasing order, followed by at most one notice for a later appointment, stay in order. */
  lemma AppendedInOrder(rest: seq<Notice>, extra: seq<Notice>, last: nat)
    requires forall k, k' :: 0 <= k < k' < |rest| ==> rest[k].appointmentId < rest[k'].appointmentId
    requires forall k :: 0 <= k < |rest| ==> rest[k].appointmentId < last
    requires |extra| <= 1 && forall k :: 0 <= k < |extra| ==> extra[k].appointmentId == last
    ensures forall k, k' :: 0 <= k < k' < |rest + extra| ==> (rest + extra)[k].appointmentId < (rest + extra)[k'].appointmentId
  {
  }

  /** The two windows in the order they are scanned: three days ahead first, then one day ahead. */
  lemma PlannedWindows(t: Tables, now: int, offset: int, text: string)
    ensures Planned(t, now, offset, text) ==
              WindowNotices(t, WindowIds(t, LocalDay(now, offset) + 3, offset), "3_days", text) +
              WindowNotices(t, WindowIds(t, LocalDay(now, offset) + 1, offset), "1_day", text)
  {
    assert Windows[0] == ("3_days", 3) && Windows[1] == ("1_day", 1);
    assert PlannedUpTo(t, now, offset, text, 1) ==
             WindowNotices(t, WindowIds(t, LocalDay(now, offset) + 3, offset), "3_days", text);
  }

  /**
   * Everything the command sends goes to a Scheduled appointment starting on
   * the day three days ahead (window 3_days) or one day ahead (window 1_day),
   * to its trimmed non-empty phone, with that appointment's message.
   */
  lemma PlannedSound(t: Tables, now: int, offset: int, text: string, k: nat)
    requires k < |Planned(t, now, offset, text)|
    ensures var n := Planned(t, now, offset, text)[k];
            n.appointmentId in t.appointments &&
            (var a := t.appointments[n.appointmentId];
             a.status == "Scheduled" &&
             ((n.window == "3_days" && InWindow(a, LocalDay(now, offset) + 3, offset)) ||
              (n.window == "1_day" && InWindow(a, LocalDay(now, offset) + 1, offset))) &&
             NoticeOf(t, n, n.window, text))
  {
    PlannedWindows(t, now, offset, text);
    var ids3 := WindowIds(t, LocalDay(now, offset) + 3, offset);
    var ids1 := WindowIds(t, LocalDay(now, offset) + 1, offset);
    var r3 := WindowNotices(t, ids3, "3_days", text);
    var r1 := WindowNotices(t, ids1, "1_day", text);
    var r := Planned(t, now, offset, text);
    if k < |r3| {
      assert r[k] == r3[k];
      WindowNoticesSound(t, ids3, "3_days", text, k);
      var j :| 0 <= j < |ids3| && ids3[j] == r3[k].appointmentId;
      assert InWindowIs(LocalDay(now, offset) + 3, offset)(t.appointments[ids3[j]]);
    } else {
      assert r[k] == r1[k - |r3|];
      WindowNoticesSound(t, ids1, "1_day", text, k - |r3|);
      var j :| 0 <= j < |ids1| && ids1[j] == r1[k - |r3|].appointmentId;
      assert InWindowIs(LocalDay(now, offset) + 1, offset)(t.appointments[ids1[j]]);
    }
  }

  /** Every Scheduled appointment three days ahead with a non-empty phone is in the 3_days part of the run. */
  lemma PlannedCompleteThreeDays(t: Tables, now: int, offset: int, text: string, id: nat)
    requires id < t.nextAppointmentId && id in t.appointments
    requires InWindow(t.appointments[id], LocalDay(now, offset) + 3, offset)
    requires Truthy(Recipient(t.appointments[id]))
    ensures exists k :: 0 <= k < |Planned(t, now, offset, text)| &&
                        Planned(t, now, offset, text)[k] ==
                          Notice(id, "3_days", Recipient(t.appointments[id]), MessageFor(t.appointments[id], "3_days", text))
  {
    PlannedWindows(t, now, offset, text);
    var ids3 := WindowIds(t, LocalDay(now, offset) + 3, offset);
    var r3 := WindowNotices(t, ids3, "3_days", text);
    assert InWindowIs(LocalDay(now, offset) + 3, offset)(t.appointments[id]);
    assert id in ids3;
    var j :| 0 <= j < |ids3| && ids3[j] == id;
    WindowNoticesComplete(t, ids3, "3_days", text, j);
    var k :| 0 <= k < |r3| && r3[k].appointmentId == id;
    WindowNoticesSound(t, ids3, "3_days", text, k);
    assert Planned(t, now, offset, text)[k] == r3[k];
  }

  /** Every Scheduled appointment one day ahead with a non-empty phone is in the 1_day part of the run. */
  lemma PlannedCompleteOneDay(t: Tables, now: int, offset: int, text: string, id: nat)
    requires id < t.nextAppointmentId && id in t.appointments
    requires InWindow(t.appointments[id], LocalDay(now, offset) + 1, offset)
    requires Truthy(Recipient(t.appointments[id]))
    ensures exists k :: 0 <= k < |Planned(t, now, offset, text)| &&
                        Planned(t, now, offset, text)[k] ==
                          Notice(id, "1_day", Recipient(t.appointments[id]), MessageFor(t.appointments[id], "1_day", text))
  {
    PlannedWindows(t, now, offset, text);
    var ids3 := WindowIds(t, LocalDay(now, offset) + 3, offset);
    var ids1 := WindowIds(t, LocalDay(now, offset) + 1, offset);
    var r3 := WindowNotices(t, ids3, "3_days", text);
    var r1 := WindowNotices(t, ids1, "1_day", text);
    assert InWindowIs(LocalDay(now, offset) + 1, offset)(t.appointments[id]);
    assert id in ids1;
    var j :| 0 <= j < |ids1| && ids1[j] == id;
    WindowNoticesComplete(t, ids1, "1_day", text, j);
    var k :| 0 <= k < |r1| && r1[k].appointmentId == id;
    WindowNoticesSound(t, ids1, "1_day", text, k);
    var a := t.appointments[id];
    assert r1[k] == Notice(id, "1_day", Recipient(a), MessageFor(a, "1_day", text));
    var p := Planned(t, now, offset, text);
    assert p == r3 + r1;
    assert p[|r3| + k] == r1[k];
  }

  /** With no stored template, a window appointment's message is the built-in greeting with its name and start time. */
  lemma DefaultMessageFor(a: Appointment, window: string)
    requires a.startTime.Some?
    ensures MessageFor(a, window, TemplateText(None)) ==
              "Hello " + (DisplayName(a.clientName) + (", your appointment is at " +
                (FormatClock12(a.startTime.value, DhakaOffset) + ".")))
  {
    var vars := ReminderVars(a.clientName, TimeText(a), window);
    DefaultTemplateMessage(vars, DisplayName(a.clientName), FormatClock12(a.startTime.value, DhakaOffset));
  }
}
