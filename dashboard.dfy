/**
 * DashboardController::index: today's appointments, ordered by start time,
 * with their clients loaded; the one in progress, the next scheduled one,
 * the table rows, today's count and the calendar events.  Nothing is written.
 */
module Dashboard {
  import opened Wrappers
  import opened Text
  import opened Clock
  import opened Persistence
  import opened EventParser

  const InProgressStatus := "in_progress"
  const ScheduledStatus := "scheduled"
  const UnknownClient := "Unknown"
  const BorderColour := "#000000"

  /** An appointment as the query loads it: its id, its row and its client (`with('client')`), if any. */
  datatype Loaded = Loaded(id: nat, appt: Appointment, client: Option<Client>)

  /** The query's answer for `now`: every row starts on today's local day, in order of start time. */
  predicate TodayInOrder(apps: seq<Loaded>, now: int, offset: int) {
    && (forall i :: 0 <= i < |apps| ==> apps[i].appt.startTime.Some? && LocalDay(apps[i].appt.startTime.value, offset) == LocalDay(now, offset))
    && (forall i, j :: 0 <= i < j < |apps| ==> apps[i].appt.startTime.value <= apps[j].appt.startTime.value)
  }

  /** `$a->client->name ?? ""`, and with another fallback for the calendar title. */
  function ClientNameOr(e: Loaded, fallback: string): (n: string)
    ensures e.client.Some? ==> n == e.client.value.name
    ensures e.client.None? ==> n == fallback
  {
    if e.client.Some? then e.client.value.name else fallback
  }

  /** One row of the dashboard table. */
  datatype Row = Row(id: nat, clientName: string, service: string, startTime: string, duration: int, status: string)

  function RowOf(e: Loaded, offset: int): (r: Row)
    requires e.appt.startTime.Some?
    ensures r.id == e.id && r.service == e.appt.service && r.duration == e.appt.duration && r.status == e.appt.status
    ensures r.clientName == ClientNameOr(e, "")
    ensures r.startTime == FormatClock24(e.appt.startTime.value, offset)
  {
    Row(e.id, ClientNameOr(e, ""), e.appt.service, FormatClock24(e.appt.startTime.value, offset), e.appt.duration, e.appt.status)
  }

  /** The table: one row per appointment, in the same order. */
  function Rows(apps: seq<Loaded>, offset: int): (rows: seq<Row>)
    requires forall i :: 0 <= i < |apps| ==> apps[i].appt.startTime.Some?
    ensures |rows| == |apps|
    ensures forall i :: 0 <= i < |apps| ==> rows[i] == RowOf(apps[i], offset)
  {
    seq(|apps|, i requires 0 <= i < |apps| => RowOf(apps[i], offset))
  }

  /** `firstWhere('status', 'in_progress')`: the position of the first appointment in progress. */
  function FirstInProgress(apps: seq<Loaded>): (k: Option<nat>)
    ensures k.Some? ==> k.value < |apps| && apps[k.value].appt.status == InProgressStatus
    ensures k.Some? ==> forall j :: 0 <= j < k.value ==> apps[j].appt.status != InProgressStatus
    ensures k.None? ==> forall j :: 0 <= j < |apps| ==> apps[j].appt.status != InProgressStatus
  {
    if |apps| == 0 then None
    else if apps[0].appt.status == InProgressStatus then Some(0)
    else
      var k := FirstInProgress(apps[1..]);
      if k.None? then None else Some(k.value + 1)
  }

  /** A candidate for the next appointment: scheduled and starting after `now`. */
  predicate Upcoming(e: Loaded, now: int) {
    e.appt.status == ScheduledStatus && e.appt.startTime.Some? && e.appt.startTime.value > now
  }

  /**
   * `where('status', 'scheduled')->where('start_time', '>', $now)->sortBy('start_time')->first()`:
   * the position of the upcoming appointment that starts earliest, the first
   * of those when several tie (the sort is stable).
   */
  function Earliest(apps: seq<Loaded>, now: int): (k: Option<nat>)
    ensures k.Some? ==> k.value < |apps| && Upcoming(apps[k.value], now)
    ensures k.Some? ==> forall j :: 0 <= j < |apps| && Upcoming(apps[j], now) ==>
                          apps[k.value].appt.startTime.value <= apps[j].appt.startTime.value
    ensures k.Some? ==> forall j :: 0 <= j < k.value && Upcoming(apps[j], now) ==>
                          apps[j].appt.startTime.value > apps[k.value].appt.startTime.value
    ensures k.None? <==> forall j :: 0 <= j < |apps| ==> !Upcoming(apps[j], now)
    decreases |apps|
  {
    if |apps| == 0 then None
    else
      var k := Earliest(apps[..|apps| - 1], now);
      var last := apps[|apps| - 1];
      if !Upcoming(last, now) then k
      else if k.Some? && apps[k.value].appt.startTime.value <= last.appt.startTime.value then k
      else Some(|apps| - 1)
  }

  /** The background colour of a calendar event, by status. */
  function Colour(status: string): (c: string)
    ensures status == InProgressStatus ==> c == "#3b82f6"
    ensures status == "completed" ==> c == "#22c55e"
    ensures status == "cancelled" ==> c == "#ef4444"
    ensures status !in {InProgressStatus, "completed", "cancelled"} ==> c == "#facc15"
  {
    match status
    case "in_progress" => "#3b82f6"
    case "completed" => "#22c55e"
    case "cancelled" => "#ef4444"
    case _ => "#facc15"
  }

  /** A calendar event; `start` and `end` are instants (their ISO 8601 rendering is not modelled). */
  datatype CalendarEvent = CalendarEvent(title: string, start: int, end: int, backgroundColour: string, borderColour: string)

  function EventOf(e: Loaded): (ev: CalendarEvent)
    requires e.appt.startTime.Some?
    ensures ev.title == ClientNameOr(e, UnknownClient) + Separator + e.appt.service
    ensures ev.start == e.appt.startTime.value && ev.end == ev.start + 60 * e.appt.duration
    ensures ev.backgroundColour == Colour(e.appt.status) && ev.borderColour == BorderColour
  {
    var start := e.appt.startTime.value;
    CalendarEvent(ClientNameOr(e, UnknownClient) + Separator + e.appt.service, start, start + 60 * e.appt.duration,
                  Colour(e.appt.status), BorderColour)
  }

  /** The calendar: one event per appointment, in the same order. */
  function Events(apps: seq<Loaded>): (evs: seq<CalendarEvent>)
    requires forall i :: 0 <= i < |apps| ==> apps[i].appt.startTime.Some?
    ensures |evs| == |apps|
    ensures forall i :: 0 <= i < |apps| ==> evs[i] == EventOf(apps[i])
  {
    seq(|apps|, i requires 0 <= i < |apps| => EventOf(apps[i]))
  }

  /** What the dashboard shows. */
  datatype Page = Page(appointments: seq<Row>, inProgress: Option<Row>, nextAppointment: Option<Row>, countToday: nat,
                       calendarEvents: seq<CalendarEvent>)

  /** DashboardController::index over today's loaded appointments `apps`. */
  function Index(apps: seq<Loaded>, now: int, offset: int): (p: Page)
    requires TodayInOrder(apps, now, offset)
    ensures p.appointments == Rows(apps, offset) && p.countToday == |apps| == |p.appointments|
    ensures p.calendarEvents == Events(apps)
    ensures p.inProgress.Some? <==> exists j :: 0 <= j < |apps| && apps[j].appt.status == InProgressStatus
    ensures p.nextAppointment.Some? <==> exists j :: 0 <= j < |apps| && Upcoming(apps[j], now)
  {
    var busy := FirstInProgress(apps);
    var next := Earliest(apps, now);
    Page(Rows(apps, offset),
         if busy.Some? then Some(RowOf(apps[busy.value], offset)) else None,
         if next.Some? then Some(RowOf(apps[next.value], offset)) else None,
         |apps|,
         Events(apps))
  }

  /** The rows shown as in progress and as next are those of the appointments the two selections pick. */
  lemma IndexPicks(apps: seq<Loaded>, now: int, offset: int)
    requires TodayInOrder(apps, now, offset)
    ensures var p := Index(apps, now, offset);
            && (p.inProgress.Some? ==> p.inProgress.value == RowOf(apps[FirstInProgress(apps).value], offset))
            && (p.nextAppointment.Some? ==> p.nextAppointment.value == RowOf(apps[Earliest(apps, now).value], offset))
  {
  }

  /**
   * The query already orders by start time, so the sort adds nothing: the
   * next appointment is the first upcoming one in the loaded order.
   */
  lemma EarliestIsFirstUpcoming(apps: seq<Loaded>, now: int, offset: int)
    requires TodayInOrder(apps, now, offset)
    ensures var k := Earliest(apps, now);
            k.Some? ==> forall j :: 0 <= j < k.value ==> !Upcoming(apps[j], now)
  {
    var k := Earliest(apps, now);
    if k.Some? {
      forall j | 0 <= j < k.value
        ensures !Upcoming(apps[j], now)
      {
        assert apps[j].appt.startTime.value <= apps[k.value].appt.startTime.value;
      }
    }
  }

  /**
   * The calendar title of an appointment whose client is loaded parses back,
   * with the calendar parser, into that client's name and the service.
   */
  lemma TitleParsesBack(e: Loaded)
    requires e.appt.startTime.Some? && e.client.Some?
    requires IsTrimmed(e.client.value.name) && !Contains(e.client.value.name, Separator) && !EndsWith(e.client.value.name, " -")
    requires IsTrimmed(e.appt.service)
    ensures ParseEventName(EventOf(e).title) == ParsedName(Some(e.client.value.name), e.appt.service)
  {
    ParseRoundTrip(e.client.value.name, e.appt.service);
  }

  /** A name without spaces cannot hold the separator. */
  lemma NoSpaceNoSeparator(s: string)
    requires forall i :: 0 <= i < |s| ==> s[i] != ' '
    ensures !Contains(s, Separator)
  {
    forall j | 0 <= j
      ensures !OccursAt(s, Separator, j)
    {
      if j + 3 <= |s| {
        assert s[j..j + 3][0] == s[j];
      }
    }
  }

  /** Without a client the title parses back into the client name Unknown. */
  lemma UnknownTitleParsesBack(e: Loaded)
    requires e.appt.startTime.Some? && e.client.None? && IsTrimmed(e.appt.service)
    ensures ParseEventName(EventOf(e).title) == ParsedName(Some(UnknownClient), e.appt.service)
  {
    NoSpaceNoSeparator(UnknownClient);
    ParseRoundTrip(UnknownClient, e.appt.service);
  }

  /**
   * The statuses this selection and the colours look for are not among the
   * values the appointments table admits (Scheduled, Confirmed, Canceled):
   * with only those, nothing is in progress, nothing is next, and every event is yellow.
   */
  lemma TableStatusesNeverMatch(apps: seq<Loaded>, now: int, offset: int)
    requires TodayInOrder(apps, now, offset)
    requires forall j :: 0 <= j < |apps| ==> apps[j].appt.status in {"Scheduled", "Confirmed", "Canceled"}
    ensures var p := Index(apps, now, offset);
            && p.inProgress.None? && p.nextAppointment.None?
            && forall j :: 0 <= j < |apps| ==> p.calendarEvents[j].backgroundColour == "#facc15"
  {
    forall j | 0 <= j < |apps|
      ensures Colour(apps[j].appt.status) == "#facc15"
      ensures apps[j].appt.status != InProgressStatus && !Upcoming(apps[j], now)
    {
      TableStatusDiffers(apps[j].appt.status);
    }
  }

  /** None of the table's statuses is spelled like the ones the dashboard looks for. */
  lemma TableStatusDiffers(s: string)
    requires s in {"Scheduled", "Confirmed", "Canceled"}
    ensures s != InProgressStatus && s != ScheduledStatus && s != "completed" && s != "cancelled"
  {
  }
}
