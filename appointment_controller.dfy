/**
 * AppointmentController::store_appointment: validate the booking form, then
 * insert one appointment, filling the defaults for the optional fields.
 */
module AppointmentController {
  import opened Wrappers
  import opened Persistence

  const Services: set<string> := {"Hair Cut", "Beard Shaping", "Other Services"}
  const Statuses: set<string> := {"Scheduled", "Confirmed", "Canceled"}
  const AttendanceValues: set<string> := {"attended", "canceled", "no_show"}
  const DefaultDuration := 60
  const DefaultStatus := "Scheduled"

  /** A submitted field whose rule asks for a type: a value of that type, or something that is not one. */
  datatype Input<T> = Value(value: T) | Malformed

  /** A field that is present and well-typed. */
  predicate Given<T>(f: Option<Input<T>>) {
    f.Some? && f.value.Value?
  }

  /** A nullable typed field passes when it is absent or well-typed. */
  predicate NullableOk<T>(f: Option<Input<T>>) {
    f.None? || f.value.Value?
  }

  /** The booking form; `appointmentTime` is the instant the submitted date denotes. */
  datatype BookingRequest = BookingRequest(
    clientId: Option<Input<nat>>,
    service: Option<string>,
    appointmentTime: Option<Input<int>>,
    duration: Option<Input<int>>,
    attendanceStatus: Option<string>,
    status: Option<string>,
    reminderSent: Option<Input<bool>>,
    notes: Option<string>)

  /**
   * The validation rules: an existing client and a known service are
   * required, and so is a date; the duration, status, attendance and
   * reminder flag may be absent but, when present, must be of their type or set.
   */
  predicate ValidBooking(t: Tables, r: BookingRequest) {
    && Given(r.clientId) && r.clientId.value.value in t.clients
    && r.service.Some? && r.service.value in Services
    && Given(r.appointmentTime)
    && NullableOk(r.duration)
    && (r.attendanceStatus.None? || r.attendanceStatus.value in AttendanceValues)
    && (r.status.None? || r.status.value in Statuses)
    && NullableOk(r.reminderSent)
  }

  /** The row `Appointment::create` receives for a valid booking, with `??` defaults. */
  function Booked(r: BookingRequest): (a: Appointment)
    requires Given(r.clientId) && r.service.Some? && Given(r.appointmentTime)
    requires NullableOk(r.duration) && NullableOk(r.reminderSent)
    ensures a.clientId == Some(r.clientId.value.value) && a.service == r.service.value
    ensures a.appointmentTime == Some(r.appointmentTime.value.value)
    ensures a.duration == (if r.duration.Some? then r.duration.value.value else DefaultDuration)
    ensures a.status == (if r.status.Some? then r.status.value else DefaultStatus)
    ensures a.reminderSent == (r.reminderSent.Some? && r.reminderSent.value.value)
    ensures a.attendanceStatus == r.attendanceStatus && a.notes == r.notes
    ensures a.clientName.None? && a.clientPhone.None? && a.email.None? && a.startTime.None? && a.eventId.None?
  {
    Appointment(
      Some(r.clientId.value.value), None, None, None, r.service.value, None, Some(r.appointmentTime.value.value),
      if r.duration.Some? then r.duration.value.value else DefaultDuration,
      r.status.GetOr(DefaultStatus),
      r.attendanceStatus,
      if r.reminderSent.Some? then r.reminderSent.value.value else false,
      r.notes,
      None)
  }

  /** A booked row always carries a status, status and attendance values from the allowed sets, and its client. */
  lemma BookedIsWellFormed(t: Tables, r: BookingRequest)
    requires ValidBooking(t, r)
    ensures var a := Booked(r);
            && a.status in Statuses && a.service in Services
            && (a.attendanceStatus.Some? ==> a.attendanceStatus.value in AttendanceValues)
            && a.clientId.Some? && a.clientId.value in t.clients
  {
  }

  /** How the request ends: a redirect to the new appointment, or back to the form with the errors. */
  datatype BookingResponse = Created(id: nat) | BackToForm

  /** AppointmentController::store_appointment. */
  method StoreAppointment(db: Database, r: BookingRequest) returns (response: BookingResponse)
    requires db.Valid()
    modifies db
    ensures db.Valid()
    ensures response.Created? <==> ValidBooking(old(db.State()), r)
    ensures response.Created? ==>
              response.id == old(db.nextAppointmentId) &&
              db.State() == old(db.State()).(appointments := old(db.appointments)[response.id := Booked(r)],
                                             nextAppointmentId := response.id + 1)
    ensures response.BackToForm? ==> db.State() == old(db.State())
    ensures LinkedHaveStart(old(db.State())) ==> LinkedHaveStart(db.State())
  {
    if !ValidBooking(db.State(), r) {
      return BackToForm;
    }
    var id := db.InsertAppointment(Booked(r));
    response := Created(id);
  }
}
