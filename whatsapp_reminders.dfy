/**
 * The `appointments:notify-tomorrow` console command (SendWhatsAppMessage::handle).
 * Two windows are scanned in order, the day three days ahead and then the
 * next day; in each, the Scheduled appointments starting that day are taken
 * in id order, those without a phone are skipped, and every other one gets
 * the template message.  In a dry run nothing is sent.  The command reads
 * the database and never writes it.
 */
module WhatsAppReminders {
  import opened Wrappers
  import opened Text
  import opened Clock
  import opened Persistence
  import opened MessageTemplate

  /** One reminder: the appointment it is for, its window, the trimmed phone and the message. */
  datatype Notice = Notice(appointmentId: nat, window: string, to: string, message: string)

  /** The two windows: label and days ahead of now, in the order they are scanned. */
  const Windows: seq<(string, int)> := [("3_days", 3), ("1_day", 1)]

  /** Artisan's Command::SUCCESS. */
  const ExitSuccess := 0

  /** `whereBetween('start_time', [startOfDay, endOfDay])->where('status', 'Scheduled')`. */
  predicate InWindow(a: Appointment, day: int, offset: int) {
    a.startTime.Some? && StartOfDay(day, offset) <= a.startTime.value <= EndOfDay(day, offset) && a.status == "Scheduled"
  }

  function InWindowIs(day: int, offset: int): Appointment -> bool {
    (a: Appointment) => InWindow(a, day, offset)
  }

  /** The ids the window query visits, in id order (chunkById walks the ids upwards). */
  function WindowIds(t: Tables, day: int, offset: int): seq<nat> {
    KeysWhere(t.appointments, InWindowIs(day, offset), 0, t.nextAppointmentId)
  }

  /** `trim($appointment->client_phone)`; a null phone trims to the empty string. */
  function Recipient(a: Appointment): string {
    Trim(a.clientPhone.GetOr(""))
  }

  /** `Whatsapp::first()?->message ?? 'Hello {$name}, ...'`: the stored template, else the default. */
  function TemplateText(stored: Option<string>): (text: string)
    ensures stored.None? ==> text == DefaultTemplate
    ensures stored.Some? ==> text == stored.value
  {
    stored.GetOr(DefaultTemplate)
  }

  /** `$time`: the start as 'h:i A' in Asia/Dhaka, or null without a start. */
  function TimeText(a: Appointment): (r: Option<string>)
    ensures r.Some? <==> a.startTime.Some?
    ensures r.Some? ==> r.value == FormatClock12(a.startTime.value, DhakaOffset)
  {
    if a.startTime.Some? then Some(FormatClock12(a.startTime.value, DhakaOffset)) else None
  }

  /** The message for appointment `a`: the template text with its variables filled in. */
  function MessageFor(a: Appointment, window: string, text: string): string {
    Substitute(text, ReminderVars(a.clientName, TimeText(a), window))
  }

  /** What the loop body does for one appointment: nothing when the phone is empty, else one notice. */
  function NoticesFor(t: Tables, id: nat, window: string, text: string): (r: seq<Notice>)
    requires id in t.appointments
    ensures |r| <= 1
    ensures |r| == 1 <==> Truthy(Recipient(t.appointments[id]))
    ensures |r| == 1 ==> r[0] == Notice(id, window, Recipient(t.appointments[id]), MessageFor(t.appointments[id], window, text))
  {
    var a := t.appointments[id];
    if !Truthy(Recipient(a)) then [] else [Notice(id, window, Recipient(a), MessageFor(a, window, text))]
  }

  /** The notices of one window, for the visited ids `ids`. */
  function WindowNotices(t: Tables, ids: seq<nat>, window: string, text: string): seq<Notice>
    requires forall j :: 0 <= j < |ids| ==> ids[j] in t.appointments
    decreases |ids|
  {
    if |ids| == 0 then []
    else WindowNotices(t, ids[..|ids| - 1], window, text) + NoticesFor(t, ids[|ids| - 1], window, text)
  }

  /** The notices of the windows before index `w`, each scanned in full. */
  function PlannedUpTo(t: Tables, now: int, offset: int, text: string, w: nat): seq<Notice>
    requires w <= |Windows|
  {
    if w == 0 then []
    else
      var (window, ahead) := Windows[w - 1];
      PlannedUpTo(t, now, offset, text, w - 1) +
        WindowNotices(t, WindowIds(t, LocalDay(now, offset) + ahead, offset), window, text)
  }

  /** Every reminder the command prepares for the tables `t` at time `now`. */
  function Planned(t: Tables, now: int, offset: int, text: string): seq<Notice> {
    PlannedUpTo(t, now, offset, text, |Windows|)
  }

  /** The outcomes of the first n gateway calls, in call order. */
  function Calls(gateway: nat -> bool, n: nat): (r: seq<bool>)
    ensures |r| == n && forall k :: 0 <= k < n ==> r[k] == gateway(k)
  {
    if n == 0 then [] else Calls(gateway, n - 1) + [gateway(n - 1)]
  }

  /** The start of the loop body: the trimmed phone, the skip when it is empty, and the message. */
  method PrepareNotice(db: Database, id: nat, window: string, text: string) returns (step: seq<Notice>, skipped: bool)
    requires id in db.appointments
    ensures step == NoticesFor(db.State(), id, window, text)
    ensures skipped <==> step == []
  {
    var a := db.appointments[id];
    var to := Trim(a.clientPhone.GetOr(""));
    if !Truthy(to) {
      return [], true;
    }
    skipped := false;
    var name := DisplayName(a.clientName);
    var time := if a.startTime.Some? then Some(FormatClock12(a.startTime.value, DhakaOffset)) else None;
    var vars := map["name" := Some(name), "time" := time, "days" := Some(DaysText(window))];
    step := [Notice(id, window, to, Substitute(text, vars))];
  }

  /** `$this->sendWhatsApp($to, $message)` when `send` holds: the next gateway call, whose outcome is recorded. */
  method Deliver(gateway: nat -> bool, delivered: seq<bool>, send: bool) returns (r: seq<bool>)
    requires delivered == Calls(gateway, |delivered|)
    ensures r == Calls(gateway, |r|)
    ensures |r| == |delivered| + (if send then 1 else 0)
  {
    r := delivered;
    if send {
      var ok := gateway(|delivered|);
      r := delivered + [ok];
    }
  }

  /** One iteration of the chunk callback: the appointment `ids[i]`, prepared and, unless skipped or dry, sent. */
  method ScanAppointment(db: Database, ids: seq<nat>, i: nat, window: string, text: string,
                         dryRun: bool, gateway: nat -> bool, sentBefore: nat,
                         notices: seq<Notice>, delivered: seq<bool>)
    returns (notices': seq<Notice>, delivered': seq<bool>)
    requires i < |ids| && forall j :: 0 <= j < |ids| ==> ids[j] in db.appointments
    requires notices == WindowNotices(db.State(), ids[..i], window, text)
    requires delivered == Calls(gateway, |delivered|)
    requires |delivered| == sentBefore + (if dryRun then 0 else |notices|)
    ensures notices' == WindowNotices(db.State(), ids[..i + 1], window, text)
    ensures delivered' == Calls(gateway, |delivered'|)
    ensures |delivered'| == sentBefore + (if dryRun then 0 else |notices'|)
  {
    assert ids[..i + 1][..i] == ids[..i];
    var step, skipped := PrepareNotice(db, ids[i], window, text);
    assert notices + step == WindowNotices(db.State(), ids[..i + 1], window, text);
    delivered' := Deliver(gateway, delivered, !skipped && !dryRun);
    notices' := notices + step;
  }

  /**
   * One window: the chunk callback over the visited appointments.  `sentBefore`
   * holds the outcomes of the sends made in earlier windows; this window's
   * sends are the gateway calls that follow them.
   */
  method ScanWindow(db: Database, ids: seq<nat>, window: string, text: string,
                    dryRun: bool, gateway: nat -> bool, sentBefore: seq<bool>)
    returns (notices: seq<Notice>, delivered: seq<bool>)
    requires forall j :: 0 <= j < |ids| ==> ids[j] in db.appointments
    requires sentBefore == Calls(gateway, |sentBefore|)
    ensures notices == WindowNotices(db.State(), ids, window, text)
    ensures delivered == Calls(gateway, |delivered|)
    ensures |delivered| == |sentBefore| + (if dryRun then 0 else |notices|)
  {
    notices, delivered := [], sentBefore;
    var i := 0;
    while i < |ids|
      invariant 0 <= i <= |ids|
      invariant notices == WindowNotices(db.State(), ids[..i], window, text)
      invariant delivered == Calls(gateway, |delivered|)
      invariant |delivered| == |sentBefore| + (if dryRun then 0 else |notices|)
    {
      notices, delivered := ScanAppointment(db, ids, i, window, text, dryRun, gateway, |sentBefore|, notices, delivered);
      i := i + 1;
    }
    assert ids[..|ids|] == ids;
  }

  /** The ids a window visits are rows of the table. */
  lemma WindowIdsLoaded(t: Tables, day: int, offset: int)
    ensures forall j :: 0 <= j < |WindowIds(t, day, offset)| ==> WindowIds(t, day, offset)[j] in t.appointments
  {
  }

  /** The run up to window `w + 1` is the run up to `w` followed by window `w`'s notices. */
  lemma PlannedStep(t: Tables, now: int, offset: int, text: string, w: nat)
    requires w < |Windows|
    ensures PlannedUpTo(t, now, offset, text, w + 1) ==
              PlannedUpTo(t, now, offset, text, w) + WindowNotices(t, WindowIds(t, LocalDay(now, offset) + Windows[w].1, offset), Windows[w].0, text)
  {
    WindowIdsLoaded(t, LocalDay(now, offset) + Windows[w].1, offset);
  }

  /** One pass of the window loop: scan window `w` and add what it yields to the run so far. */
  method ScanNextWindow(db: Database, now: int, offset: int, text: string, w: nat, dryRun: bool, gateway: nat -> bool,
                        previews: seq<Notice>, sent: seq<Notice>, delivered: seq<bool>)
    returns (previews': seq<Notice>, sent': seq<Notice>, delivered': seq<bool>)
    requires db.Valid() && w < |Windows|
    requires dryRun ==> previews == PlannedUpTo(db.State(), now, offset, text, w) && sent == []
    requires !dryRun ==> previews == [] && sent == PlannedUpTo(db.State(), now, offset, text, w)
    requires delivered == Calls(gateway, |sent|)
    ensures dryRun ==> previews' == PlannedUpTo(db.State(), now, offset, text, w + 1) && sent' == []
    ensures !dryRun ==> previews' == [] && sent' == PlannedUpTo(db.State(), now, offset, text, w + 1)
    ensures delivered' == Calls(gateway, |sent'|)
  {
    var window, ahead := Windows[w].0, Windows[w].1;
    var ids := WindowIds(db.State(), LocalDay(now, offset) + ahead, offset);
    WindowIdsLoaded(db.State(), LocalDay(now, offset) + ahead, offset);
    PlannedStep(db.State(), now, offset, text, w);
    assert |delivered| == |sent|;
    var notices;
    notices, delivered' := ScanWindow(db, ids, window, text, dryRun, gateway, delivered);
    if dryRun {
      previews', sent' := previews + notices, sent;
      assert |delivered'| == |sent'|;
    } else {
      previews', sent' := previews, sent + notices;
      assert |delivered'| == |sent'|;
    }
  }

  /**
   * SendWhatsAppMessage::handle.  `offset` is the application's UTC offset (the
   * windows are days in it); `stored` is the message of the first stored
   * WhatsApp configuration row, read once here since nothing changes it
   * during the run; `gateway(k)` is the outcome of the k-th send.  Neither a
   * failed send nor its outcome changes what happens to later appointments.
   */
  method Handle(db: Database, now: int, offset: int, stored: Option<string>, dryRun: bool, gateway: nat -> bool)
    returns (exit: int, previews: seq<Notice>, sent: seq<Notice>, delivered: seq<bool>)
    requires db.Valid()
    ensures exit == ExitSuccess
    ensures dryRun ==> previews == Planned(db.State(), now, offset, TemplateText(stored)) && sent == [] && delivered == []
    ensures !dryRun ==> previews == [] && sent == Planned(db.State(), now, offset, TemplateText(stored))
    ensures delivered == Calls(gateway, |sent|)
  {
    var text := TemplateText(stored);
    previews, sent, delivered := [], [], [];
    var w := 0;
    while w < |Windows|
      invariant 0 <= w <= |Windows|
      invariant dryRun ==> previews == PlannedUpTo(db.State(), now, offset, text, w) && sent == []
      invariant !dryRun ==> previews == [] && sent == PlannedUpTo(db.State(), now, offset, text, w)
      invariant delivered == Calls(gateway, |sent|)
    {
      previews, sent, delivered := ScanNextWindow(db, now, offset, text, w, dryRun, gateway, previews, sent, delivered);
      w := w + 1;
    }
    exit := ExitSuccess;
  }
}
