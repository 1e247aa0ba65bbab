# Salon appointments: a verified model of the booking core

This project models the core of a salon-booking web application in Dafny and
proves properties of the model. The application keeps clients and appointments,
imports appointments from a Google Calendar, sends WhatsApp reminders, receives
WhatsApp webhooks, and shows a dashboard and a week-calendar slot picker.

The modelled parts are:

- **Event titles and calendar sync** (`EventParserService`).
  - Event titles are split at the first `" - "` into a client name and a service.
  - The sync walks the fetched events. For each one it finds the linked
    appointment by `event_id`, reads the start and end times, and either creates
    an appointment (finding or creating the client by name) or overwrites exactly
    the fields that differ.
  - The counters and the error list are kept the way the source keeps them.
- **Reminder command** (`SendWhatsAppMessage`).
  - Two windows are scanned, three days ahead and then one day ahead. Each
    selects Scheduled appointments in id order.
  - Rows with an empty trimmed phone are skipped.
  - The message is the stored template, or the built-in greeting, with the
    `{$word}` placeholders filled as `preg_replace_callback` fills them.
  - A dry run sends nothing. The gateway's answers are recorded.
- **Reminder endpoint** (`ReminderController`).
  - It selects tomorrow's appointments that have not yet been reminded.
  - It sends one template message per appointment to the fixed recipient.
  - A successful send appends an audit row and sets the marker.
  - A failed send changes nothing.
  - An appointment without a client ends the request with an uncaught error.
- **WhatsApp webhook** (`WhatsappWebhookController`).
  - The verify handshake is modelled.
  - The callback applies the payload's message writes (`updateOrCreate` by
    `wa_message_id`) and status updates, in payload order.
  - A message without a sender fails on the NOT NULL column and ends the request.
- **Repair command** (`FixAppointmentData`).
  - Legacy rows whose service still reads `client - service` are split.
  - Their client is found or created, and the row is relinked.
- **Dashboard and forms** (`DashboardController`, `ClientController`, `AppointmentController`).
  - The dashboard shows today's table of appointments, the one in progress, the
    next one, and the calendar events.
  - The search query of the client list is modelled.
  - So is the validated insertion of both forms.
- **Slot picker** (`WeekCalendar.tsx`). Dates are modelled as proleptic Gregorian
  civil fields. This covers:
  - the start of the week;
  - the seven days shown;
  - the time slots, built with the component's nested loops;
  - the `datetime-local` string a pick produces, and the reading of that string back;
  - the selected cell;
  - the day headers and hour labels.

The database is the datatype `Persistence.Tables`.
- Each table is a map from auto-increment ids to rows, with its counter.
- `Persistence.Database` is a class whose methods update that state in place.
- Queries return rows in id order, and `first()` is the least matching id.
- The unique index on `clients.phone` makes an insert refuse a taken phone.

Instants are whole seconds since the epoch. A local clock is that number plus a
fixed offset: Asia/Dhaka is +6 hours all year.

## Model

| member | source | states |
|---|---|---|
| Text.IndexOfFrom | app/Services/EventParserService.php:19-20 | the least index at or after the offset where the substring occurs, or none when it occurs nowhere from there |
| Text.IndexOf | app/Services/EventParserService.php:19 | strpos: the first occurrence, and None exactly when the substring occurs nowhere |
| Text.TrimLeft | app/Services/EventParserService.php:21-22 | a suffix of the input that does not start with a trim character, and only trim characters were dropped |
| Text.TrimRight | app/Services/EventParserService.php:21-22 | a prefix of the input that does not end with a trim character, and only trim characters were dropped |
| Text.Trim | app/Services/EventParserService.php:21-22 | trim() yields a string with no trim character at either end, no longer than the input; TrimKeepsMiddle states that the input is that string with a run of trim characters before it and a run after it |
| Text.TrimKeepsMiddle | app/Services/EventParserService.php:21-22 | trim() keeps the middle as it is: the input is the result with a run of trim characters before it and a run after it |
| Text.TrimEnds | app/Services/EventParserService.php:21-22 | cutting trim characters off the front and then off the back leaves the rest in the middle of the input, between two runs of trim characters |
| Text.TrimOfTrimmed | app/Services/EventParserService.php:21-22 | a string already free of trim characters at its ends comes back unchanged |
| Text.TrimIdempotent | app/Services/EventParserService.php:21-22 | trimming twice is trimming once |
| Text.DecimalString | resources/js/components/WeekCalendar.tsx:17-19 | `toString()` of a natural number: all digits, one digit exactly below 10, at most two exactly below 100 |
| Text.IntString | resources/js/components/WeekCalendar.tsx:23 | an integer's decimal form, the digits with a leading '-' exactly when negative; WeekCalendar.FormatLayout and WeekCalendar.FormatReadBack state what it contributes to the picked value |
| Text.Pad2 | resources/js/components/WeekCalendar.tsx:17-19 | `padStart(2, "0")`: all digits, exactly two characters for values below 100 |
| Clock.SecondOfDay | app/Console/Commands/SendWhatsAppMessage.php:43-45 | the local second of the day lies within one day |
| Clock.LocalHour | app/Console/Commands/SendWhatsAppMessage.php:43-45 | the local hour is below 24 |
| Clock.LocalMinute | app/Console/Commands/SendWhatsAppMessage.php:43-45 | the local minute is below 60 |
| Clock.InDayIff | app/Http/Controllers/ReminderController.php:19-24 | `whereBetween(startOfDay, endOfDay)` holds exactly of the instants whose local day is that day |
| Clock.Hour12 | app/Console/Commands/SendWhatsAppMessage.php:44 | the 12-hour clock hour lies in 1..12 and agrees with the hour modulo 12 |
| Clock.FormatClock12 | app/Console/Commands/SendWhatsAppMessage.php:43-45 | 'h:i A' has eight characters, a colon and a space in place, and reads AM exactly before noon |
| Clock.FormatClock24 | app/Http/Controllers/DashboardController.php:38 | 'H:i' has five characters with the colon in the middle |
| Persistence.FirstMatch | app/Services/EventParserService.php:167 | `where(...)->first()`: the least id in range whose row matches, no smaller id matches, and None only when no id matches |
| Persistence.KeysWhere | app/Console/Commands/FixAppointmentData.php:30-32 | `where(...)->get()`: exactly the matching ids in range, in strictly increasing order |
| Persistence.FirstMatchFrame | app/Services/EventParserService.php:167 | the first match is unchanged when the rows below the old bound match as before and none of the added rows match |
| Persistence.FirstMatchAppended | app/Services/EventParserService.php:193-202 | a matching row inserted at the next id is found first when nothing matched before |
| Persistence.FindOrCreateClient | app/Services/EventParserService.php:40-54 | the first client with that name is reused and nothing changes; otherwise a client is created at the next id unless its phone is already taken; the result is then the first client so named, and no existing client changes |
| Persistence.FirstClientNamedStable | app/Services/EventParserService.php:193 | once a name is found, the lookup keeps finding the same client while clients are only added at fresh ids |
| Persistence.FirstClientNamed | app/Services/EventParserService.php:193 | `Client::where('name', ...)->first()`: the least client id with that exact name; FirstMatch states this and FirstClientNamedStable its stability |
| Persistence.FirstAppointmentFor | app/Services/EventParserService.php:167 | `Appointment::where('event_id', ...)->first()`: the least appointment id linked to the event; FirstMatch states this and FirstMatchAppended the lookup after an insert |
| Persistence.LinkedHaveStart | app/Services/EventParserService.php:216-222 | every appointment linked to an event has a start time, which the update branch formats before anything can catch a failure |
| Persistence.WriteKeepsLinkedStart | app/Services/EventParserService.php:216-222 | writing a row that is unlinked, or linked with a start time, keeps every linked appointment with a start time |
| Persistence.Database.constructor | database/migrations/2025_07_30_152724_create_appointments_table.php:14-25 | empty tables with every counter at zero satisfy the invariant, and no appointment is linked to an event without a start time |
| Persistence.Database.FirstOrCreateClient | app/Console/Commands/FixAppointmentData.php:51-57 | the in-place find-or-create leaves the state the pure FindOrCreateClient computes, or the old state when the insert is refused |
| Persistence.Database.InsertAppointment | app/Services/EventParserService.php:204-212 | `Appointment::create`: the row lands at the next id, the counter moves by one, and nothing else changes |
| Persistence.Database.AppendReminder | app/Http/Controllers/ReminderController.php:73-77 | `Reminder::create`: exactly one row is appended to the audit log |
| Persistence.Database.UpdateAppointment | app/Http/Controllers/ReminderController.php:80 | `update`: only the given row is replaced |
| EventParser.ParseEventName | app/Services/EventParserService.php:13-29 | there is no client exactly when the title lacks " - ", in which case the service is the whole title; otherwise both parts are trimmed |
| EventParser.ParseSplitsAtFirst | app/Services/EventParserService.php:19-23 | the split happens at the first separator: the trimmed text before it and the trimmed text after it |
| EventParser.NoEarlierSeparator | app/Services/EventParserService.php:19-20 | in "client - rest" no separator starts inside a client that neither holds " - " nor ends in " -" |
| EventParser.ParseRoundTrip | app/Services/EventParserService.php:10-11 | the documented "Client Name - Service Name" format parses back into its two parts |
| EventParser.FetchErrorMessage | app/Services/EventParserService.php:121-125 | certificate failures (either marker) become the fixed SSL hint, and every other message is kept as it is |
| CalendarSync.EventTiming | app/Services/EventParserService.php:170-183 | a missing start is the error 'Event missing start time'; an unparseable time is its parse error; a missing end means one hour; the duration is the absolute difference in whole minutes, as Carbon 2's diffInMinutes gives it |
| CalendarSync.Abs | app/Services/EventParserService.php:183 | the absolute value that diffInMinutes takes of the difference in seconds before dividing by 60 |
| CalendarSync.Summary | app/Services/EventParserService.php:186 | `$event->summary ?? ''`: the title, or the empty string without one |
| CalendarSync.SyncedAppointment | app/Services/EventParserService.php:204-212 | the row `Appointment::create` inserts for a new event; CalendarSyncProperties.CreateStepRow states its columns |
| CalendarSync.Diff | app/Services/EventParserService.php:218-257 | `$updateData`: each field is present exactly when the appointment's value differs from the event's, and the client only when the title names one |
| CalendarSync.Apply | app/Services/EventParserService.php:261 | exactly the present fields are overwritten and every other column is kept |
| CalendarSync.CreateStep | app/Services/EventParserService.php:189-215 | the create branch changes only clients and the appointments linked to the event, and reports the id of the appointment it inserts; CalendarSyncProperties.CreateStepRow states the row it inserts |
| CalendarSync.UpdateStep | app/Services/EventParserService.php:216-263 | the update branch writes exactly the differing fields and reports Updated, or Unchanged and writes nothing when nothing differs |
| CalendarSync.SyncEvent | app/Services/EventParserService.php:165-270 | the loop body: timing errors are caught and leave the tables alone; otherwise it creates, updates or skips, and only clients and the event's own appointments change |
| CalendarSync.AppointmentFromEvent | app/Services/EventParserService.php:34-66 | the record holds the parsed service, the start, the duration, 'confirmed', 'pending', no notes and the event id; the client is the one found or created for a named client, and none otherwise |
| CalendarSync.Tally | app/Services/EventParserService.php:173-270 | the counters after one event: created goes up exactly for a creation, updated exactly for an update, and an error entry with the event id is appended exactly for a failure |
| CalendarSync.Record | app/Services/EventParserService.php:164-271 | the loop's bookkeeping after one event: the step's tables and the counters Tally gives |
| CalendarSync.SyncFrom | app/Services/EventParserService.php:164-271 | the foreach over the events, one step each in order, keeps every linked appointment with a start time, which the update step needs |
| CalendarSync.SyncFromStep | app/Services/EventParserService.php:164-271 | the run over one more event is the run so far followed by that event recorded on its tables |
| CalendarSync.Sync | app/Services/EventParserService.php:140-274 | a failed fetch and an empty list each report exactly one error and change no table; otherwise the loop runs from zeroed counters |
| CalendarSync.CreateAppointmentFromEvent | app/Services/EventParserService.php:34-66 | the in-place version leaves the same tables and record as AppointmentFromEvent |
| CalendarSync.CreateFromEvent | app/Services/EventParserService.php:189-215 | the in-place create branch leaves the state CreateStep computes |
| CalendarSync.UpdateFromEvent | app/Services/EventParserService.php:216-263 | the in-place update branch leaves the state UpdateStep computes |
| CalendarSync.SyncOneEvent | app/Services/EventParserService.php:165-270 | the in-place loop body leaves the state SyncEvent computes |
| CalendarSync.SyncEvents | app/Services/EventParserService.php:164-271 | the in-place while loop ends in the tables and results that SyncFrom computes |
| CalendarSync.SyncGoogleCalendarEvents | app/Services/EventParserService.php:140-274 | the in-place sync ends in the tables and results that Sync computes |
| CalendarSyncProperties.CreateStepSettles | app/Services/EventParserService.php:189-215 | after creating, the event's lookup finds the new appointment carrying the event's data |
| CalendarSyncProperties.CreateStepRow | app/Services/EventParserService.php:189-212 | the inserted row holds the first client of the parsed name, the parsed service, the start, the duration and the event id, with status 'confirmed', attendance 'pending', no notes, no reminder sent, and no client name, phone, e-mail or appointment time columns set |
| CalendarSyncProperties.ApplyDiffAgrees | app/Services/EventParserService.php:218-261 | overwriting the differing fields makes the appointment agree with the event |
| CalendarSyncProperties.UpdateStepSettles | app/Services/EventParserService.php:216-263 | after updating, the same appointment is still found first and agrees with the event |
| CalendarSyncProperties.LinkedEventStep | app/Services/EventParserService.php:216-263 | for a linked event the step writes exactly the differing fields, through the client lookup the create path uses |
| CalendarSyncProperties.StepSettles | app/Services/EventParserService.php:165-270 | one step leaves its own event settled, so a second step would neither create nor update |
| CalendarSyncProperties.StepPreservesSettled | app/Services/EventParserService.php:165-270 | a step for an event with another id does not unsettle an event already settled |
| CalendarSyncProperties.SettledStepIsNoop | app/Services/EventParserService.php:216-263 | a settled event's step changes no table and counts nothing |
| CalendarSyncProperties.StepExtendsSettled | app/Services/EventParserService.php:164-271 | one more step keeps the earlier events settled and settles its own |
| CalendarSyncProperties.RunSettles | app/Services/EventParserService.php:164-271 | after a run over events with distinct ids, every readable, named event is settled |
| CalendarSyncProperties.SettledRunIsNoop | app/Services/EventParserService.php:164-271 | a run over settled events changes no table and adds no creations or updates |
| CalendarSyncProperties.TimingErrors | app/Services/EventParserService.php:173-183 | the error entries of a run: one per event whose times are missing or unparseable, in order |
| CalendarSyncProperties.RunErrorsAreTimingErrors | app/Services/EventParserService.php:164-271 | the errors a run appends are exactly the timing errors of its events, whatever the tables hold |
| CalendarSyncProperties.RunCountsBounded | app/Services/EventParserService.php:164-271 | creations, updates and errors together never exceed the number of events |
| CalendarSyncProperties.SyncIsIdempotent | app/Services/EventParserService.php:140-274 | syncing the same events (with distinct ids) a second time creates and updates nothing and leaves the tables as the first run left them |
| CalendarSyncProperties.Readable | app/Services/EventParserService.php:173-183 | the events whose times can be read, in order, none of them failing |
| CalendarSyncProperties.FailingEventsHaveNoEffect | app/Services/EventParserService.php:265-270 | dropping every event whose times fail leaves the tables and counters of the run as they were |
| CalendarSyncProperties.DroppedEventNoEffect | app/Services/EventParserService.php:173-183 | an event whose times fail changes neither the tables nor the created and updated counters |
| CalendarSyncProperties.KeptEventAgrees | app/Services/EventParserService.php:164-271 | the same event after two runs that agree on the tables and the counters keeps them agreeing |
| MessageTemplate.WordRun | app/Console/Commands/SendWhatsAppMessage.php:57 | the length of the longest leading run of `\w` characters |
| MessageTemplate.PlaceholderLength | app/Console/Commands/SendWhatsAppMessage.php:57 | the pattern `\{\$(\w+)\}` matches at the start exactly when a brace, a dollar, at least one word character and a closing brace follow one another |
| MessageTemplate.NotPlaceholder | app/Console/Commands/SendWhatsAppMessage.php:57 | no placeholder matches where the word run is empty or not closed by a brace |
| MessageTemplate.Substitute | app/Console/Commands/SendWhatsAppMessage.php:57-59 | `preg_replace_callback` over the template; NoBraceUnchanged, CopiesPlainChar, PlaceholderSubst, LiteralPrefix and TwoPlaceholders state what it does |
| MessageTemplate.NoBraceUnchanged | app/Console/Commands/SendWhatsAppMessage.php:57-59 | text without `{` is left exactly as it is |
| MessageTemplate.CopiesPlainChar | app/Console/Commands/SendWhatsAppMessage.php:57-59 | a character other than `{` is copied and the scan moves on by one |
| MessageTemplate.LiteralPrefix | app/Console/Commands/SendWhatsAppMessage.php:57-59 | literal text without a brace passes unchanged in front of the rest |
| MessageTemplate.WordRunOfWord | app/Console/Commands/SendWhatsAppMessage.php:57 | the word run of a word followed by a non-word character is that word |
| MessageTemplate.PlaceholderSubst | app/Console/Commands/SendWhatsAppMessage.php:57-59 | a placeholder whose word has a value becomes that value, which is not expanded again, and otherwise stays as written |
| MessageTemplate.TwoPlaceholders | app/Console/Commands/SendWhatsAppMessage.php:57-59 | literal text around two valued placeholders becomes the text with both values in place |
| MessageTemplate.DefaultTemplateMessage | app/Console/Commands/SendWhatsAppMessage.php:48-59 | with name and time given, the built-in template yields "Hello <name>, your appointment is at <time>." |
| MessageTemplate.DisplayName | app/Console/Commands/SendWhatsAppMessage.php:37 | `?:`: the client name when it is truthy, "Customer" when it is null, "" or "0" |
| MessageTemplate.DaysText | app/Console/Commands/SendWhatsAppMessage.php:54 | "3 days" exactly for the 3_days window and "1 day" for any other |
| MessageTemplate.ReminderVars | app/Console/Commands/SendWhatsAppMessage.php:51-55 | the variables offered are exactly name, time and days, with those values |
| MessageTemplate.UnknownWordStaysVerbatim | app/Console/Commands/SendWhatsAppMessage.php:57-59 | a placeholder for a word the command does not define, such as `{$phone}`, stays in the message |
| MessageTemplate.NullTimeStaysVerbatim | app/Console/Commands/SendWhatsAppMessage.php:43-58 | a null time makes `??` fall back, so `{$time}` stays in the message |
| WhatsAppReminders.TemplateText | app/Console/Commands/SendWhatsAppMessage.php:48 | the stored template when there is one, else the built-in greeting |
| WhatsAppReminders.TimeText | app/Console/Commands/SendWhatsAppMessage.php:43-45 | null exactly without a start, else the start as 'h:i A' in Asia/Dhaka |
| WhatsAppReminders.InWindow | app/Console/Commands/SendWhatsAppMessage.php:31-32 | the window query: a start between the start and the end of the local day, and status Scheduled; PlannedSound states it of every planned notice |
| WhatsAppReminders.WindowIds | app/Console/Commands/SendWhatsAppMessage.php:31-34 | the ids the window query visits, in id order; KeysWhere states that they are exactly the matching ids, ascending |
| WhatsAppReminders.Recipient | app/Console/Commands/SendWhatsAppMessage.php:36 | the trimmed phone, a null phone trimming to the empty string; NoticesFor states that an empty one gives no notice |
| WhatsAppReminders.MessageFor | app/Console/Commands/SendWhatsAppMessage.php:50-59 | the template filled with name, time and days; DefaultMessageFor states the message of the built-in template |
| WhatsAppReminders.NoticesFor | app/Console/Commands/SendWhatsAppMessage.php:35-59 | an empty trimmed phone gives no notice; any other gives one notice to that phone with the filled-in message |
| WhatsAppReminders.WindowNotices | app/Console/Commands/SendWhatsAppMessage.php:35-59 | the notices of one window, in visiting order; WindowNoticesSound, WindowNoticesComplete and WindowNoticesInOrder state them |
| WhatsAppReminders.PlannedUpTo | app/Console/Commands/SendWhatsAppMessage.php:28-84 | the notices of the first windows, each scanned in full; ScanNextWindow adds one window to it |
| WhatsAppReminders.Planned | app/Console/Commands/SendWhatsAppMessage.php:22-84 | every notice the command prepares; PlannedWindows, PlannedSound, PlannedCompleteThreeDays and PlannedCompleteOneDay state them |
| WhatsAppReminders.Calls | app/Console/Commands/SendWhatsAppMessage.php:67 | the outcomes of the first n gateway calls, one per call, in call order |
| WhatsAppReminders.PrepareNotice | app/Console/Commands/SendWhatsAppMessage.php:36-59 | reads the row without changing the database; it skips exactly when the trimmed phone is empty, and otherwise yields NoticesFor |
| WhatsAppReminders.Deliver | app/Console/Commands/SendWhatsAppMessage.php:61-81 | a send makes the next gateway call and records its outcome, and no send records nothing |
| WhatsAppReminders.ScanAppointment | app/Console/Commands/SendWhatsAppMessage.php:35-81 | one iteration adds that appointment's notices, and sends them unless the run is dry |
| WhatsAppReminders.ScanWindow | app/Console/Commands/SendWhatsAppMessage.php:31-83 | the chunk loop over a window yields exactly the window's notices in visiting order, with one gateway call per notice unless dry, and no database change |
| WhatsAppReminders.ScanNextWindow | app/Console/Commands/SendWhatsAppMessage.php:28-84 | one pass of the window loop adds that window's notices to those planned so far |
| WhatsAppReminders.Handle | app/Console/Commands/SendWhatsAppMessage.php:18-87 | the command prepares exactly Planned, makes one gateway call per notice unless dry (none when dry), leaves the database as it was and returns SUCCESS |
| WhatsAppReminderProperties.WindowNoticesSound | app/Console/Commands/SendWhatsAppMessage.php:35-59 | every notice of a window is for a visited appointment with a non-empty phone and carries its message |
| WhatsAppReminderProperties.WindowNoticesComplete | app/Console/Commands/SendWhatsAppMessage.php:35-59 | every visited appointment with a non-empty trimmed phone gets a notice |
| WhatsAppReminderProperties.WindowNoticesInOrder | app/Console/Commands/SendWhatsAppMessage.php:33-35 | notices follow the ascending id order, so no appointment gets two notices in one window |
| WhatsAppReminderProperties.PlannedWindows | app/Console/Commands/SendWhatsAppMessage.php:23-28 | the run is the 3_days window three days ahead, followed by the 1_day window one day ahead |
| WhatsAppReminderProperties.PlannedSound | app/Console/Commands/SendWhatsAppMessage.php:23-59 | every planned notice is for a Scheduled appointment on the local day its window names, with a non-empty phone |
| WhatsAppReminderProperties.PlannedCompleteThreeDays | app/Console/Commands/SendWhatsAppMessage.php:24-41 | every Scheduled appointment three local days ahead with a non-empty phone is reminded in the 3_days part |
| WhatsAppReminderProperties.PlannedCompleteOneDay | app/Console/Commands/SendWhatsAppMessage.php:25-41 | every Scheduled appointment one local day ahead with a non-empty phone is reminded in the 1_day part |
| WhatsAppReminderProperties.DefaultMessageFor | app/Console/Commands/SendWhatsAppMessage.php:37-59 | with no stored template, the message is the built-in greeting with the display name and the 'h:i A' start |
| ReminderController.DueIds | app/Http/Controllers/ReminderController.php:19-26 | exactly the appointments starting on tomorrow's local day that have not been reminded, in id order |
| ReminderController.ClientOf | app/Http/Controllers/ReminderController.php:23 | `with('client')`: the row of the appointment's client id, and none without one |
| ReminderController.MessageFor | app/Http/Controllers/ReminderController.php:29-61 | the message goes to the fixed recipient with the fixed template, and its body parameters are the client name and the 'h:i A' start, in that order |
| ReminderController.Record | app/Http/Controllers/ReminderController.php:68-80 | a success appends one audit row and sets the marker on that appointment alone, and a failure changes nothing |
| ReminderController.HasClient | app/Http/Controllers/ReminderController.php:29-30 | the appointment's client row is loaded, so reading its phone and name does not fail; CrashIff states that the run crashes exactly without one |
| ReminderController.Loaded | app/Http/Controllers/ReminderController.php:23-26 | every selected id is an appointment with a start time, as the selection on start_time guarantees |
| ReminderController.Reach | app/Http/Controllers/ReminderController.php:28-31 | how far the loop gets: the position of the first appointment without a client, or the whole list |
| ReminderController.Messages | app/Http/Controllers/ReminderController.php:28-70 | one message per appointment reached, in order |
| ReminderController.Sends | app/Http/Controllers/ReminderController.php:64-87 | the first n sends never touch the clients or the counters and never add or remove an appointment |
| ReminderController.RunOver | app/Http/Controllers/ReminderController.php:28-88 | a whole request: the sends and messages of the reached appointments, crashing when one has no client; CrashIff, SendsMarks, SendsLog and RunOverKeepsLinkedStart state it |
| ReminderController.RemindOne | app/Http/Controllers/ReminderController.php:29-87 | one iteration: on an appointment without a client it stops with a crash and changes nothing, else it sends and records as Record does |
| ReminderController.RemindAll | app/Http/Controllers/ReminderController.php:28-88 | the loop sends Messages for the reached appointments, leaves Sends, and crashes exactly when one has no client |
| ReminderController.SendAppointmentReminders | app/Http/Controllers/ReminderController.php:16-91 | the endpoint answers the JSON message after a run without crash and a server error otherwise, having sent and recorded as RunOver says |
| ReminderControllerProperties.DueIff | app/Http/Controllers/ReminderController.php:19-26 | an appointment is selected exactly when it starts tomorrow and is not yet reminded; its status plays no part |
| ReminderControllerProperties.MessagesAt | app/Http/Controllers/ReminderController.php:29-61 | the j-th message goes to the fixed recipient with the j-th appointment's client name and start time |
| ReminderControllerProperties.CrashIff | app/Http/Controllers/ReminderController.php:28-31 | the run ends in a server error exactly when some selected appointment has no client, and one message is sent per appointment before it |
| ReminderControllerProperties.AfterSend | app/Http/Controllers/ReminderController.php:80 | the row after its send: marked on success, unchanged on failure |
| ReminderControllerProperties.SendsMarks | app/Http/Controllers/ReminderController.php:64-80 | after the sends, each sent appointment is marked exactly when its send succeeded, and is otherwise as it was |
| ReminderControllerProperties.SendsStep | app/Http/Controllers/ReminderController.php:80 | one more send leaves every appointment but its own as it was |
| ReminderControllerProperties.SendsKeepsOthers | app/Http/Controllers/ReminderController.php:28-88 | appointments not sent to are left as they were |
| ReminderControllerProperties.Successes | app/Http/Controllers/ReminderController.php:68-70 | the number of successful sends, never more than the sends |
| ReminderControllerProperties.NoSuccesses | app/Http/Controllers/ReminderController.php:68-70 | when every send fails, none counts as a success |
| ReminderControllerProperties.Logged | app/Http/Controllers/ReminderController.php:73-77 | the audit rows of the successful sends, in visiting order, with the client, the appointment and `now` |
| ReminderControllerProperties.SendsLog | app/Http/Controllers/ReminderController.php:73-77 | sending appends exactly the rows of the successful sends to the audit log |
| ReminderControllerProperties.LoggedAt | app/Http/Controllers/ReminderController.php:73-77 | the audit row of the j-th send, when it succeeded, comes right after the rows of the earlier successes |
| ReminderControllerProperties.AllFailuresChangeNothing | app/Http/Controllers/ReminderController.php:68-87 | when every send fails, the tables are unchanged |
| ReminderControllerProperties.RemindedNotDueAgain | app/Http/Controllers/ReminderController.php:25-80 | an appointment whose send succeeded is never selected again, at any later time |
| ReminderControllerProperties.MarkedAt | app/Http/Controllers/ReminderController.php:80 | a sent appointment's row after the run is AfterSend of its row before |
| ReminderControllerProperties.NotDueNotSelected | app/Http/Controllers/ReminderController.php:24-26 | a reminded appointment, or one without a start, is not selected |
| ReminderControllerProperties.SendsKeepsLinkedStart | app/Http/Controllers/ReminderController.php:64-80 | marking rows as reminded changes no start time and no event link |
| ReminderControllerProperties.RunOverKeepsLinkedStart | app/Http/Controllers/ReminderController.php:28-88 | a reminder run keeps every linked appointment with a start time, which the calendar sync formats |
| Webhook.Verify | app/Http/Controllers/WhatsappWebhookController.php:14-28 | answers 200 with the challenge exactly when the mode is subscribe and the token is the expected one, and 403 with the refusal text otherwise |
| Webhook.SentAt | app/Http/Controllers/WhatsappWebhookController.php:49-50 | no time for a missing or zero timestamp, else that timestamp |
| Webhook.Body | app/Http/Controllers/WhatsappWebhookController.php:52-59 | the text body for text, the button title else the list title for interactive, and nothing for any other type |
| Webhook.InboundRow | app/Http/Controllers/WhatsappWebhookController.php:61-73 | the stored row: sender, display number, the type or 'unknown', the body, inbound, 'received' and SentAt |
| Webhook.SetStatus | app/Http/Controllers/WhatsappWebhookController.php:84-91 | a status entry never adds or removes a row |
| Webhook.Fails | database/migrations/2025_09_03_162658_create_whats_app_messages_table.php:17 | from_wa_id is NOT NULL: a message write without a sender raises the database error; AbortsPutOps states when one occurs |
| Webhook.Written | app/Http/Controllers/WhatsappWebhookController.php:61-88 | the table after a write that does not fail: the message row under its id, or the status update; ApplyRowsAt and KeyRowForgets state what it touches |
| Webhook.Step | app/Http/Controllers/WhatsappWebhookController.php:61-88 | after an error nothing more is written; a message without a sender raises the error; every other write is applied |
| Webhook.PutOps | app/Http/Controllers/WhatsappWebhookController.php:44-74 | one message write per message, in order |
| Webhook.MarkOps | app/Http/Controllers/WhatsappWebhookController.php:77-92 | one status write per status entry, in order |
| Webhook.ChangeOps | app/Http/Controllers/WhatsappWebhookController.php:43-92 | a change's writes, its messages and then its statuses; ChangeOrder states the order |
| Webhook.ChangesOps | app/Http/Controllers/WhatsappWebhookController.php:40-93 | an entry's changes in order; AbortsChangesOps states when they fail |
| Webhook.PayloadOps | app/Http/Controllers/WhatsappWebhookController.php:37-94 | the payload's writes, entries and changes in order; AbortsPayloadOps states when they fail |
| Webhook.ApplyFailed | app/Http/Controllers/WhatsappWebhookController.php:61-73 | once an error has ended the request, further writes change nothing |
| Webhook.ApplyConcat | app/Http/Controllers/WhatsappWebhookController.php:37-94 | doing one list of writes and then another is doing their concatenation |
| Webhook.MessageStore.constructor | database/migrations/2025_09_03_162658_create_whats_app_messages_table.php:14-26 | the store starts with the given rows and no error |
| Webhook.MessageStore.UpdateOrCreate | app/Http/Controllers/WhatsappWebhookController.php:61-73 | writes the row under its wa_message_id, replacing what was there, or fails and changes nothing when the sender is missing |
| Webhook.MessageStore.UpdateWhere | app/Http/Controllers/WhatsappWebhookController.php:85-88 | updates the status and time of the matching row only, if there is one |
| Webhook.HandleMessages | app/Http/Controllers/WhatsappWebhookController.php:44-74 | the messages loop leaves the state of applying PutOps, and reports an error exactly when one of them aborts |
| Webhook.HandleStatuses | app/Http/Controllers/WhatsappWebhookController.php:77-92 | the statuses loop leaves the state of applying MarkOps |
| Webhook.HandleChange | app/Http/Controllers/WhatsappWebhookController.php:40-93 | a change writes its messages and then its statuses, as ChangeOps says |
| Webhook.HandleChanges | app/Http/Controllers/WhatsappWebhookController.php:39-93 | the changes of an entry are applied in order, stopping at the first error |
| Webhook.Handle | app/Http/Controllers/WhatsappWebhookController.php:31-95 | the callback leaves the rows of applying PayloadOps in order, and answers a server error exactly when a write failed |
| WebhookProperties.ApplySplit | app/Http/Controllers/WhatsappWebhookController.php:37-94 | the request fails exactly when some write fails, and the rows are those of the writes before the first failure |
| WebhookProperties.CleanAll | app/Http/Controllers/WhatsappWebhookController.php:37-94 | without a failing write, nothing is cut off |
| WebhookProperties.AbortsConcat | app/Http/Controllers/WhatsappWebhookController.php:37-94 | a concatenation holds a failing write exactly when one of its parts does |
| WebhookProperties.AbortsPutOps | app/Http/Controllers/WhatsappWebhookController.php:44-73 | the message writes hold a failure exactly when some message lacks a sender |
| WebhookProperties.AbortsMarkOps | app/Http/Controllers/WhatsappWebhookController.php:77-92 | status writes never fail |
| WebhookProperties.AbortsChangesOps | app/Http/Controllers/WhatsappWebhookController.php:39-93 | the writes of some changes fail exactly when a message of one of them lacks a sender |
| WebhookProperties.PutOpsAt | app/Http/Controllers/WhatsappWebhookController.php:44 | the i-th message write is for the i-th message |
| WebhookProperties.MarkOpsAt | app/Http/Controllers/WhatsappWebhookController.php:77 | the i-th status write is for the i-th entry |
| WebhookProperties.ChangeOrder | app/Http/Controllers/WhatsappWebhookController.php:43-92 | within a change, the messages are written in order, and then the statuses in order |
| WebhookProperties.AbortsPayloadOps | app/Http/Controllers/WhatsappWebhookController.php:37-74 | the payload's writes fail exactly when a message somewhere lacks a sender |
| WebhookProperties.ServerErrorIff | app/Http/Controllers/WhatsappWebhookController.php:31-95 | the callback answers a server error exactly when some message in the payload has no sender |
| WebhookProperties.Get | app/Http/Controllers/WhatsappWebhookController.php:62 | the row under a key, and none for a missing key |
| WebhookProperties.ApplyRowsAt | app/Http/Controllers/WhatsappWebhookController.php:61-88 | rows evolve key by key: each write touches at most the row under its own key |
| WebhookProperties.KeyRowConcat | app/Http/Controllers/WhatsappWebhookController.php:37-94 | for one key, two lists of writes in a row act as their concatenation |
| WebhookProperties.KeyRowUntouched | app/Http/Controllers/WhatsappWebhookController.php:61-88 | writes that do not concern a key leave its row alone |
| WebhookProperties.KeyRowForgets | app/Http/Controllers/WhatsappWebhookController.php:61-73 | once a message with that id is written, what the row held before no longer matters |
| WebhookProperties.KeyRowMarks | app/Http/Controllers/WhatsappWebhookController.php:84-88 | without a message write for a key, only the last status entry for it shows in its row |
| WebhookProperties.KeyRowIdempotent | app/Http/Controllers/WhatsappWebhookController.php:61-88 | for one key, the writes done twice end where they end once |
| WebhookProperties.MapsAgree | app/Http/Controllers/WhatsappWebhookController.php:61-88 | two tables that agree on every key are equal |
| WebhookProperties.RowsIdempotent | app/Http/Controllers/WhatsappWebhookController.php:61-88 | applying a run of writes without failures twice ends in the same rows as once |
| WebhookProperties.PayloadIdempotent | app/Http/Controllers/WhatsappWebhookController.php:31-95 | a redelivered payload (one without a failing write) leaves the table as the first delivery did |
| WebhookProperties.RowAfter | app/Http/Controllers/WhatsappWebhookController.php:61-88 | the row under a key after a run is fixed by the write at i and by what follows it |
| WebhookProperties.MessageStored | app/Http/Controllers/WhatsappWebhookController.php:61-73 | a message with a sender, whose id nothing later concerns, ends up as its own row whatever was there before |
| WebhookProperties.LastStatusWins | app/Http/Controllers/WhatsappWebhookController.php:84-88 | the last status entry for a row sets its status and time, and a row it does not find stays absent |
| WebhookProperties.SetStatusOnlyUpdates | app/Http/Controllers/WhatsappWebhookController.php:84-91 | a status entry keeps the set of rows and changes nothing but a row's status and time; one without a truthy id changes nothing |
| WebhookProperties.StatusesOnlyUpdate | app/Http/Controllers/WhatsappWebhookController.php:77-92 | status entries alone never insert, delete or rewrite a row beyond its status and time, and never fail |
| FixData.ToFix | app/Console/Commands/FixAppointmentData.php:30-32 | exactly the appointments with no client whose service contains " - ", in id order |
| FixData.NeedsFix | app/Console/Commands/FixAppointmentData.php:30-31 | `LIKE '% - %'` and `whereNull('client_id')`; ToFix states that the selection is exactly these rows |
| FixData.FixOne | app/Console/Commands/FixAppointmentData.php:51-63 | a fix keeps the set of appointments, the counters and the audit log, and stays within the table invariants; None when the client insert is refused |
| FixData.SplitService | app/Console/Commands/FixAppointmentData.php:44-48 | the split of a selected service at its first separator, both parts trimmed, as the calendar parser splits it |
| FixData.Splits | app/Console/Commands/FixAppointmentData.php:44-48 | one split per loaded row, in order |
| FixData.Rest | app/Console/Commands/FixAppointmentData.php:43-68 | the loop from row i keeps the set of appointments and the audit log; a finished run fixes every remaining row, a crashed one fewer |
| FixData.After | app/Console/Commands/FixAppointmentData.php:66 | a run whose count starts higher |
| FixData.FixAll | app/Console/Commands/FixAppointmentData.php:28-68 | the whole repair from the loaded rows; FixedRow, UnreachedRow, UnselectedUntouched, ClientsKept and FixAllKeepsLinkedStart state it |
| FixData.FixStep | app/Console/Commands/FixAppointmentData.php:44-66 | one in-place iteration leaves the state FixOne computes, or an uncaught error that changes nothing |
| FixData.FixLoop | app/Console/Commands/FixAppointmentData.php:43-68 | the in-place foreach ends in the tables, count and crash that Rest computes |
| FixData.FixAppointmentData | app/Console/Commands/FixAppointmentData.php:28-72 | without rows to fix it exits 0 with count 0; otherwise it ends as FixAll says, exiting 0 with the count, or crashing |
| FixDataProperties.ClientsGrowTrans | app/Console/Commands/FixAppointmentData.php:51-57 | adding clients at fresh ids without changing existing ones composes |
| FixDataProperties.FixOneLinks | app/Console/Commands/FixAppointmentData.php:51-63 | a fixed row points at the first client with its name and holds the trimmed service |
| FixDataProperties.RestClientsGrow | app/Console/Commands/FixAppointmentData.php:43-68 | a run only adds clients at fresh ids and changes no existing one |
| FixDataProperties.RestKeepsOthers | app/Console/Commands/FixAppointmentData.php:43-68 | a row the run does not visit keeps its contents |
| FixDataProperties.RestFixes | app/Console/Commands/FixAppointmentData.php:43-68 | every row before the one that raised the error is linked to its named client with its service |
| FixDataProperties.RestFixesFirst | app/Console/Commands/FixAppointmentData.php:43-68 | the first row, when the run gets past it, is linked, and later rows do not undo that |
| FixDataProperties.RestFixesLater | app/Console/Commands/FixAppointmentData.php:43-68 | a later row is untouched by the first one's fix and linked by the rest of the run |
| FixDataProperties.RestLeavesUnreached | app/Console/Commands/FixAppointmentData.php:43-68 | the rows from the one that raised the error on keep their contents |
| FixDataProperties.FixedRow | app/Console/Commands/FixAppointmentData.php:43-66 | each of the first `fixed` selected rows is linked to the client of its name, with its trimmed service |
| FixDataProperties.SameNameSameClient | app/Console/Commands/FixAppointmentData.php:51-63 | rows whose services carry the same client name end up with the same client |
| FixDataProperties.UnreachedRow | app/Console/Commands/FixAppointmentData.php:43-68 | a selected row at or after the one that raised the error keeps its contents, so `fixed` counts exactly the rows updated |
| FixDataProperties.UnselectedUntouched | app/Console/Commands/FixAppointmentData.php:30-32 | an appointment the selection leaves out is untouched |
| FixDataProperties.ClientsKept | app/Console/Commands/FixAppointmentData.php:51-57 | existing clients are kept unchanged, and created ones get fresh ids |
| FixDataProperties.NotReselected | app/Console/Commands/FixAppointmentData.php:30-32 | a fixed row now has a client, so a later run does not select it again |
| FixDataProperties.RestNoPhoneFinishes | app/Console/Commands/FixAppointmentData.php:51-57 | clients created without a phone never collide on the unique index, so such a run never crashes |
| FixDataProperties.CorrectedFixesAll | app/Console/Commands/FixAppointmentData.php:28-72 | with the intended phone (none), the command never crashes and fixes every selected row |
| FixDataProperties.FixOneKeepsLinkedStart | app/Console/Commands/FixAppointmentData.php:51-63 | fixing one row changes only its client and service, so linked rows keep their start times |
| FixDataProperties.RestKeepsLinkedStart | app/Console/Commands/FixAppointmentData.php:43-68 | a run from any row keeps every linked appointment with a start time |
| FixDataProperties.FixAllKeepsLinkedStart | app/Console/Commands/FixAppointmentData.php:28-72 | the repair keeps every linked appointment with a start time, which the calendar sync formats |
| FixDataProperties.Legacy | app/Console/Commands/FixAppointmentData.php:30-32 | a legacy row: client and service in one column, and no client id |
| FixDataProperties.TwoNewClients | app/Console/Commands/FixAppointmentData.php:30-32 | two legacy rows for two clients the table does not have yet |
| FixDataProperties.ParsesAsPair | app/Console/Commands/FixAppointmentData.php:44-48 | "name - service" with a two-letter name splits back into its parts |
| FixDataProperties.FirstRowParses | app/Console/Commands/FixAppointmentData.php:44-48 | the first example row needs fixing and splits into Al and Hair Cut |
| FixDataProperties.SecondRowParses | app/Console/Commands/FixAppointmentData.php:44-48 | the second example row needs fixing and splits into Bo and Beard Shaping |
| FixDataProperties.BothSelected | app/Console/Commands/FixAppointmentData.php:30-32 | both example rows are selected, in id order |
| FixDataProperties.TwoNewClientsSplit | app/Console/Commands/FixAppointmentData.php:30-48 | the selection and the splits of the two example rows |
| FixDataProperties.FirstRowFixed | app/Console/Commands/FixAppointmentData.php:51-63 | fixing the first row creates client 0, Al, with the given phone, and links the row |
| FixDataProperties.SecondRowRefused | app/Console/Commands/FixAppointmentData.php:51-57 | once Al holds the phone '', creating Bo with the same phone is refused |
| FixDataProperties.WrittenPhoneCrashes | app/Console/Commands/FixAppointmentData.php:51-57 | as written (phone ''), the two example rows crash the command after fixing one |
| FixDataProperties.IntendedPhoneFixesBoth | app/Console/Commands/FixAppointmentData.php:51-57 | with the intended phone (none) the same two rows are both fixed |
| Dashboard.ClientNameOr | app/Http/Controllers/DashboardController.php:37 | the loaded client's name, or the fallback without a client |
| Dashboard.RowOf | app/Http/Controllers/DashboardController.php:34-41 | a table row carries the id, the client name or "", the service, the 'H:i' start, the duration and the status |
| Dashboard.Rows | app/Http/Controllers/DashboardController.php:34-41 | one row per appointment, in the same order |
| Dashboard.FirstInProgress | app/Http/Controllers/DashboardController.php:24 | the first appointment in progress, and none exactly when none is |
| Dashboard.Earliest | app/Http/Controllers/DashboardController.php:27-31 | the upcoming scheduled appointment that starts earliest, the first of several that tie, and none exactly when none is upcoming |
| Dashboard.Colour | app/Http/Controllers/DashboardController.php:49-54 | blue for in progress, green for completed, red for cancelled, yellow for any other status |
| Dashboard.EventOf | app/Http/Controllers/DashboardController.php:44-56 | the event's title is "client - service", with Unknown when there is no client; it ends duration minutes after the start; its colours are by status with a black border |
| Dashboard.Events | app/Http/Controllers/DashboardController.php:43-57 | one event per appointment, in the same order |
| Dashboard.Index | app/Http/Controllers/DashboardController.php:14-86 | the page has the rows, today's count, the events, an in-progress row exactly when one is in progress, and a next row exactly when one is upcoming |
| Dashboard.IndexPicks | app/Http/Controllers/DashboardController.php:62-78 | the in-progress and next rows are those of the appointments the two selections pick |
| Dashboard.EarliestIsFirstUpcoming | app/Http/Controllers/DashboardController.php:18-31 | since the query already orders by start, the next appointment is the first upcoming one in the loaded order |
| Dashboard.TitleParsesBack | app/Http/Controllers/DashboardController.php:46 | the calendar title of an appointment with a client parses back into that client's name and the service |
| Dashboard.UnknownTitleParsesBack | app/Http/Controllers/DashboardController.php:46 | without a client the title parses back into the client Unknown and the service |
| Dashboard.TableStatusesNeverMatch | app/Http/Controllers/DashboardController.php:24-54 | with only the statuses the table admits, nothing is in progress, nothing is next, and every event is yellow |
| ClientController.When | app/Http/Controllers/ClientController.php:16-49 | one clause when its parameter is filled, none otherwise; SatisfiesWhen states that a skipped filter admits everything and an applied one admits what its clause admits |
| ClientController.Holds | app/Http/Controllers/ClientController.php:16-49 | the meaning of one where-clause: the grouped LIKE search, the local-day bounds, and the equality and LIKE filters |
| ClientController.Matches | app/Http/Controllers/ClientController.php:16-49 | the filter stated directly, one condition per filled parameter; QueryMeansMatches states that the built query means exactly this |
| ClientController.Query | app/Http/Controllers/ClientController.php:13-49 | the built query has at most one clause per filter |
| ClientController.SatisfiesConcat | app/Http/Controllers/ClientController.php:13-49 | chained where-clauses are a conjunction |
| ClientController.SatisfiesWhen | app/Http/Controllers/ClientController.php:16-49 | a skipped filter admits everything, and an applied one admits exactly what its clause admits |
| ClientController.QueryMeansMatches | app/Http/Controllers/ClientController.php:13-49 | the built query selects exactly the appointments that meet every filled filter |
| ClientController.Index | app/Http/Controllers/ClientController.php:11-66 | the listing holds exactly the appointments satisfying the query, and echoes the filters |
| ClientController.IndexMatches | app/Http/Controllers/ClientController.php:11-66 | an appointment is listed exactly when it exists and meets every filled filter |
| ClientController.NoFiltersListAll | app/Http/Controllers/ClientController.php:13-52 | with no filter filled, every appointment is listed |
| ClientController.SearchIsGrouped | app/Http/Controllers/ClientController.php:18-24 | the search term matches through any one of its five columns, combined with the other filters by AND |
| ClientController.StoredRow | app/Http/Controllers/ClientController.php:85 | the stored row holds the validated fields and the table defaults for the rest |
| ClientController.ValidStore | app/Http/Controllers/ClientController.php:75-83 | the validation rules: a known service and status, a start time, and an absent or well-formed e-mail; Store states that exactly these forms insert |
| ClientController.Store | app/Http/Controllers/ClientController.php:73-88 | a form passing the rules inserts StoredRow at the next id and answers Created; any other form changes nothing and answers Invalid; every linked appointment keeps its start time |
| AppointmentController.Booked | app/Http/Controllers/AppointmentController.php:40-49 | the client, service, time, attendance and notes as given; duration 60, status Scheduled and reminder false when absent |
| AppointmentController.BookedIsWellFormed | app/Http/Controllers/AppointmentController.php:22-49 | a booked row has an existing client and a service, status and attendance from the allowed sets |
| AppointmentController.ValidBooking | app/Http/Controllers/AppointmentController.php:22-31 | the validation rules: an existing client, a known service and a date, and the optional fields of their type or set; StoreAppointment states that exactly these forms insert |
| AppointmentController.StoreAppointment | app/Http/Controllers/AppointmentController.php:19-53 | a valid form inserts Booked at the next id and redirects to it; an invalid one changes nothing and goes back to the form; every linked appointment keeps its start time |
| WeekCalendar.DaysInMonth | resources/js/components/WeekCalendar.tsx:34-38 | a month has 28 to 31 days, and February has 29 exactly in a leap year |
| WeekCalendar.NextDay | resources/js/components/WeekCalendar.tsx:34-38 | the following day is a valid date after the current one |
| WeekCalendar.PrevDay | resources/js/components/WeekCalendar.tsx:34-38 | the preceding day is a valid date before the current one |
| WeekCalendar.NextThenPrev | resources/js/components/WeekCalendar.tsx:34-38 | the day before the next day is the day itself |
| WeekCalendar.PrevThenNext | resources/js/components/WeekCalendar.tsx:34-38 | the day after the previous day is the day itself |
| WeekCalendar.AddDays | resources/js/components/WeekCalendar.tsx:34-38 | `setDate(getDate() + n)` with overflow into later or earlier months yields a valid date |
| WeekCalendar.Weekday | resources/js/components/WeekCalendar.tsx:41 | `getDay()` lies in 0..6 |
| WeekCalendar.YearBaseStep | resources/js/components/WeekCalendar.tsx:41 | each year moves the weekday on by one, and by two in a leap year |
| WeekCalendar.WeekdayMarchFirst | resources/js/components/WeekCalendar.tsx:41 | the first of March follows the last of February by one weekday |
| WeekCalendar.WeekdayMonthStart | resources/js/components/WeekCalendar.tsx:41 | the first of any other month follows the previous day by one weekday |
| WeekCalendar.WeekdayNext | resources/js/components/WeekCalendar.tsx:41 | the weekday advances by one each day |
| WeekCalendar.WeekdayPrev | resources/js/components/WeekCalendar.tsx:41 | the weekday of the previous day is one less |
| WeekCalendar.WeekdayAdd | resources/js/components/WeekCalendar.tsx:41-43 | moving n days, forwards or backwards, moves the weekday by n modulo 7 |
| WeekCalendar.AddDaysSucc | resources/js/components/WeekCalendar.tsx:34-38 | moving n + 1 days is moving n days and then one |
| WeekCalendar.AddDaysBack | resources/js/components/WeekCalendar.tsx:34-38 | moving back n days and forward n days returns to the same date |
| WeekCalendar.AddDaysLater | resources/js/components/WeekCalendar.tsx:34-38 | moving forward a positive number of days gives a later date |
| WeekCalendar.AddDaysCompose | resources/js/components/WeekCalendar.tsx:34-38 | moving n days and then m days is moving n + m days |
| WeekCalendar.StartOfDay | resources/js/components/WeekCalendar.tsx:28-32 | the same date at 00:00:00.000 |
| WeekCalendar.AddDaysAt | resources/js/components/WeekCalendar.tsx:34-38 | the date moves by n days and the time of day is kept |
| WeekCalendar.WeekOffset | resources/js/components/WeekCalendar.tsx:41-42 | the number of days back to the week's first day, below 7; WeekStartIsRight states that going back that many days lands on the configured first weekday |
| WeekCalendar.WeekStart | resources/js/components/WeekCalendar.tsx:40-45 | the start of the week is a valid date-time |
| WeekCalendar.WeekStartIsRight | resources/js/components/WeekCalendar.tsx:40-45 | the start of the week falls on the configured first weekday at midnight, and the given day is fewer than 7 days after it |
| WeekCalendar.Days | resources/js/components/WeekCalendar.tsx:61-64 | seven days, the i-th being i days after the anchor |
| WeekCalendar.DaysConsecutive | resources/js/components/WeekCalendar.tsx:61-64 | the first day is the anchor, each day is the day after the one before, and the days ascend |
| WeekCalendar.HourSlots | resources/js/components/WeekCalendar.tsx:70-72 | the slots of one hour: that hour, minutes from m below 60, strictly ascending |
| WeekCalendar.SlotsUpTo | resources/js/components/WeekCalendar.tsx:69-73 | the slots of the hours in range, minutes below 60, in strictly ascending time order |
| WeekCalendar.HourLoop | resources/js/components/WeekCalendar.tsx:70-72 | the inner loop appends exactly the hour's slots |
| WeekCalendar.Slots | resources/js/components/WeekCalendar.tsx:67-75 | the nested loops build exactly SlotsUpTo |
| WeekCalendar.HourSlotsCount | resources/js/components/WeekCalendar.tsx:70 | an hour from minute m has (60 - m) / step slots |
| WeekCalendar.HourSlotsMembers | resources/js/components/WeekCalendar.tsx:70-72 | a slot is in the hour exactly when its minute is a multiple of the step from m up to 59 |
| WeekCalendar.SlotsCount | resources/js/components/WeekCalendar.tsx:67-75 | there are (end - start) * (60 / step) slots, and none for an empty range |
| WeekCalendar.SlotsMembers | resources/js/components/WeekCalendar.tsx:67-75 | a slot is listed exactly when its hour is in range and its minute is a multiple of the step below 60 |
| WeekCalendar.PadShape | resources/js/components/WeekCalendar.tsx:17-19 | one digit gets a leading zero, and longer numbers are written as they are |
| WeekCalendar.DecimalRoundTrip | resources/js/components/WeekCalendar.tsx:17-19 | reading the digits of a number gives the number back |
| WeekCalendar.PadRoundTrip | resources/js/components/WeekCalendar.tsx:17-19 | reading a padded field gives the number back |
| WeekCalendar.ToDateTimeLocalString | resources/js/components/WeekCalendar.tsx:21-26 | the year, then the two-digit month, day, hour and minute, with "-", "T" and ":" between them; FormatLayout fixes the places of the fields and FormatReadBack states that reading the string gives back the date-time truncated to the minute |
| WeekCalendar.FieldAt | resources/js/components/WeekCalendar.tsx:56 | reading a field of fixed width succeeds exactly when it is all digits |
| WeekCalendar.ReadLocal | resources/js/components/WeekCalendar.tsx:56 | `new Date(value)` for a "YYYY-MM-DDTHH:MM" string: a valid local date-time with zero seconds, or an Invalid Date |
| WeekCalendar.FormatLayout | resources/js/components/WeekCalendar.tsx:21-26 | for a four-digit year the string has 16 characters, with separators and fields in fixed places |
| WeekCalendar.FormatReadBack | resources/js/components/WeekCalendar.tsx:21-26 | reading the produced string gives back the date-time truncated to the minute |
| WeekCalendar.Selected | resources/js/components/WeekCalendar.tsx:77 | no selection for an absent or empty value, else the value as read |
| WeekCalendar.Anchor | resources/js/components/WeekCalendar.tsx:55-58 | the start of today's week without a value, and otherwise the start of the value's week, none when the value is an Invalid Date |
| WeekCalendar.HandlePick | resources/js/components/WeekCalendar.tsx:79-83 | a pick emits the picked day's date at the picked hour and minute, seconds dropped; PickSelectsCell states that exactly the picked cell then shows as selected |
| WeekCalendar.PickSelectsCell | resources/js/components/WeekCalendar.tsx:79-94 | after a pick, a cell shows as selected exactly when it has the picked date, hour and minute |
| WeekCalendar.IsSelected | resources/js/components/WeekCalendar.tsx:85-94 | a cell is selected when the value is set and its date, hour and minute agree; PickSelectsCell and AtMostOneSelected state it |
| WeekCalendar.AtMostOneSelected | resources/js/components/WeekCalendar.tsx:85-94 | at most one cell of the grid shows as selected |
| WeekCalendar.DayHeader | resources/js/components/WeekCalendar.tsx:104-111 | the weekday label of the date, and its two-digit month "/" day |
| WeekCalendar.HeadersFromWeekStart | resources/js/components/WeekCalendar.tsx:15-111 | the i-th header of a week is the label of weekday (first weekday + i) mod 7 |
| WeekCalendar.JsRem | resources/js/components/WeekCalendar.tsx:126 | JavaScript's `%`: the Euclidean remainder for non-negative operands, and the remainder negated for negative ones |
| WeekCalendar.HourLabel | resources/js/components/WeekCalendar.tsx:126-128 | the gutter label of a slot; HourLabelShape states its shape |
| WeekCalendar.HourLabelShape | resources/js/components/WeekCalendar.tsx:126-128 | the gutter label is the 12-hour hour (12 for 0 and 12), ":", the two-digit minute and AM exactly before noon |

## Left out

- Time zones are fixed offsets. Asia/Dhaka has no daylight saving, so the
  offset is exact for it. The app's default zone, used by `now()` and the
  dashboard, is a further offset parameter.
- The calendar component reads JavaScript `Date` values as civil fields in the
  browser's zone. Hours outside 0..23 passed to `setHours` are not modelled:
  the grid only passes slot hours, and those are required to be below 24.
- `new Date(value)` is modelled for the component's own "YYYY-MM-DDTHH:MM"
  layout with a four-digit year. Every other string, and out-of-range fields,
  read as an Invalid Date. What the grid renders around an Invalid Date anchor
  is not modelled.
- FormatReadBack and PickSelectsCell: stated for years 1000 to 9999 only. Other
  years do not give four-digit fields, and the component does not pad them.
- HourLabelShape: stated for hours of 0 and above. A negative `hoursRange.start`
  would give JavaScript's negative remainder; JsRem models that remainder.
- HourSlotsCount, HourSlotsMembers, SlotsCount, SlotsMembers: stated for slot
  lengths of 15, 30 and 60, the lengths the component's props allow. The loops
  themselves, Slots and HourLoop, are modelled for any positive step.
- SyncEvent, SyncFrom, Sync: these require that every appointment linked to an
  event has a start time (LinkedHaveStart). The update branch formats the linked
  row's start, and for a null one PHP raises an Error that the `catch
  (\Exception)` does not take, so the whole sync would end. That crash is not
  modelled. Every writer of the appointments table keeps the invariant:
  ClientController.Store, AppointmentController.StoreAppointment,
  FixDataProperties.FixAllKeepsLinkedStart,
  ReminderControllerProperties.RunOverKeepsLinkedStart and the sync itself.
- EventTiming: Carbon 2's `diffInMinutes` is assumed, the absolute difference in
  whole minutes. Under Carbon 3 the difference is signed and fractional: negative
  for an end before the start, 1.5 for ninety seconds.
- SyncEvent: the application's zone is taken to be UTC. The source converts the
  event times to UTC before storing them; under another application zone the
  stored wall clock would be read as application-zone time elsewhere, which is
  not modelled.
- The messaging gateways and the calendar fetch are outside the model.
  - Each HTTP call becomes an oracle `nat -> bool`, the answer of the n-th call.
  - The Google fetch becomes an `EventSource` parameter: the events, or the
    error of the failed fetch.
  - Within that fetch, only the error mapping (FetchErrorMessage) is modelled.
- Logging, console output and flash messages are not modelled. The dry-run
  line and the command's info and error lines are among them.
- One `now` per request. `Reminder::create` stamps that `now`.
- `chunkById(200)` is modelled as one scan in id order. The chunking itself
  is not modelled.
- Eloquent `get()` without `orderBy` is taken to return rows in id order.
- Concurrency is not modelled. This includes races between a find and a create.
- `raw_payload` (the `json_encode` of the message), the `(int)` casts of
  timestamps, and the timestamps columns are not modelled.
- SQL `LIKE '%term%'` is modelled as substring containment. Wildcards inside
  the term, case folding and collation are left out.
- `latest()->paginate(10)` on the client list: order and pagination are left
  out. ClientController.Index lists the matching appointments as a set.
- Request dates are modelled as local day numbers, and `whereDate` compares
  local days. The `email` and `date` validation rules are parameters: an
  oracle `isEmail`, and `Input` values that are either well-typed or Malformed.
- The dashboard's ISO 8601 rendering of event times is left out; events carry
  instants. The week and month counts are left out too.
- The views, the React pages and the keyboard handling of the calendar are
  not part of this model.

The dashboard looks for the lowercase statuses `in_progress`, `scheduled`,
`completed` and `cancelled`. The appointments table only admits Scheduled,
Confirmed and Canceled. As Dashboard.TableStatusesNeverMatch shows, with those
values nothing is ever in progress or next, and every event is yellow. This is
recorded as a property of the code as written, not corrected.

## Findings

| source | as written | input that shows it | evidently intended | confidence | as-written member | corrected member |
|---|---|---|---|---|---|---|
| app/Console/Commands/FixAppointmentData.php:51-57 | a client created by the repair command gets the phone '', while clients.phone is unique (database/migrations/2025_10_06_194759_make_phone_nullable_in_clients_table.php:21) | two legacy rows "Al - Hair Cut" and "Bo - Beard Shaping" with no existing clients: the second `Client::create` violates the unique index, so the command stops after fixing one row | create the client with a null phone, as the calendar sync does (app/Services/EventParserService.php:197-201), so that any number of new clients fit the index | not executed | FixDataProperties.WrittenPhoneCrashes | FixDataProperties.CorrectedFixesAll |
