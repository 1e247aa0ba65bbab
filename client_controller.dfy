/**
 * ClientController: the appointment search of `index`, whose query gains one
 * where-clause per filled filter, and `store`, which validates a form and
 * inserts one appointment.
 */
module ClientController {
  import opened Wrappers
  import opened Text
  import opened Clock
  import opened Persistence

  /** The services and statuses the store form accepts. */
  const Services: set<string> := {"Hair Cut", "Beard Shaping", "Other Services"}
  const Statuses: set<string> := {"Scheduled", "Confirmed", "Canceled"}

  /**
   * The search parameters.  The two dates are the local day numbers the
   * request's dates denote (None when the parameter is not filled).
   */
  datatype SearchRequest = SearchRequest(q: Option<string>, dateFrom: Option<int>, dateTo: Option<int>,
                                         status: Option<string>, service: Option<string>, attendanceStatus: Option<string>)

  /** `$request->filled(...)`: present and not only whitespace. */
  predicate Filled(o: Option<string>) {
    !Blank(o)
  }

  /** One where-clause of the query. */
  datatype Clause =
    | Search(term: string)
    | FromDay(day: int)
    | ToDay(day: int)
    | StatusIs(status: string)
    | ServiceLike(service: string)
    | AttendanceIs(attendance: string)

  /** A nullable column `LIKE '%term%'`: NULL never matches. */
  predicate ColumnLike(column: Option<string>, term: string) {
    column.Some? && Contains(column.value, term)
  }

  /** Whether the appointment `a` satisfies the clause `c`; the dates compare the local day of start_time. */
  predicate Holds(c: Clause, a: Appointment, offset: int) {
    match c
    case Search(term) =>
      ColumnLike(a.clientName, term) || ColumnLike(a.clientPhone, term) || Contains(a.service, term) ||
      ColumnLike(a.notes, term) || Contains(a.status, term)
    case FromDay(day) => a.startTime.Some? && LocalDay(a.startTime.value, offset) >= day
    case ToDay(day) => a.startTime.Some? && LocalDay(a.startTime.value, offset) <= day
    case StatusIs(status) => a.status == status
    case ServiceLike(service) => Contains(a.service, service)
    case AttendanceIs(attendance) => a.attendanceStatus == Some(attendance)
  }

  /** A clause when the condition holds, nothing otherwise. */
  function When(cond: bool, c: Clause): (cs: seq<Clause>)
    ensures cs == if cond then [c] else []
  {
    if cond then [c] else []
  }

  /** The query `index` builds, clause by clause, in the order of the source. */
  function Query(r: SearchRequest): (cs: seq<Clause>)
    ensures |cs| <= 6
  {
    When(Filled(r.q), Search(r.q.GetOr(""))) +
    When(r.dateFrom.Some?, FromDay(r.dateFrom.GetOr(0))) +
    When(r.dateTo.Some?, ToDay(r.dateTo.GetOr(0))) +
    When(Filled(r.status), StatusIs(r.status.GetOr(""))) +
    When(Filled(r.service), ServiceLike(r.service.GetOr(""))) +
    When(Filled(r.attendanceStatus), AttendanceIs(r.attendanceStatus.GetOr("")))
  }

  /** An appointment is in the result when it satisfies every clause of the query. */
  predicate Satisfies(cs: seq<Clause>, a: Appointment, offset: int) {
    forall i :: 0 <= i < |cs| ==> Holds(cs[i], a, offset)
  }

  /** The filter stated directly: every filled parameter's condition holds. */
  predicate Matches(r: SearchRequest, a: Appointment, offset: int) {
    && (Filled(r.q) ==> Holds(Search(r.q.value), a, offset))
    && (r.dateFrom.Some? ==> a.startTime.Some? && LocalDay(a.startTime.value, offset) >= r.dateFrom.value)
    && (r.dateTo.Some? ==> a.startTime.Some? && LocalDay(a.startTime.value, offset) <= r.dateTo.value)
    && (Filled(r.status) ==> a.status == r.status.value)
    && (Filled(r.service) ==> Contains(a.service, r.service.value))
    && (Filled(r.attendanceStatus) ==> a.attendanceStatus == r.attendanceStatus)
  }

  lemma SatisfiesConcat(a: seq<Clause>, b: seq<Clause>, x: Appointment, offset: int)
    ensures Satisfies(a + b, x, offset) <==> Satisfies(a, x, offset) && Satisfies(b, x, offset)
  {
    if Satisfies(a, x, offset) && Satisfies(b, x, offset) {
      forall i | 0 <= i < |a + b|
        ensures Holds((a + b)[i], x, offset)
      {
        if i >= |a| {
          assert (a + b)[i] == b[i - |a|];
        }
      }
    }
    if Satisfies(a + b, x, offset) {
      forall i | 0 <= i < |a|
        ensures Holds(a[i], x, offset)
      {
        assert (a + b)[i] == a[i];
      }
      forall i | 0 <= i < |b|
        ensures Holds(b[i], x, offset)
      {
        assert (a + b)[|a| + i] == b[i];
      }
    }
  }

  lemma SatisfiesWhen(cond: bool, c: Clause, x: Appointment, offset: int)
    ensures Satisfies(When(cond, c), x, offset) <==> (cond ==> Holds(c, x, offset))
  {
    if cond {
      assert When(cond, c)[0] == c;
    }
  }

  /** The built query selects exactly the appointments the conjunction of the filled filters admits. */
  lemma QueryMeansMatches(r: SearchRequest, a: Appointment, offset: int)
    ensures Satisfies(Query(r), a, offset) <==> Matches(r, a, offset)
  {
    var c1 := When(Filled(r.q), Search(r.q.GetOr("")));
    var c2 := When(r.dateFrom.Some?, FromDay(r.dateFrom.GetOr(0)));
    var c3 := When(r.dateTo.Some?, ToDay(r.dateTo.GetOr(0)));
    var c4 := When(Filled(r.status), StatusIs(r.status.GetOr("")));
    var c5 := When(Filled(r.service), ServiceLike(r.service.GetOr("")));
    var c6 := When(Filled(r.attendanceStatus), AttendanceIs(r.attendanceStatus.GetOr("")));
    SatisfiesConcat(c1 + c2 + c3 + c4 + c5, c6, a, offset);
    SatisfiesConcat(c1 + c2 + c3 + c4, c5, a, offset);
    SatisfiesConcat(c1 + c2 + c3, c4, a, offset);
    SatisfiesConcat(c1 + c2, c3, a, offset);
    SatisfiesConcat(c1, c2, a, offset);
    SatisfiesWhen(Filled(r.q), Search(r.q.GetOr("")), a, offset);
    SatisfiesWhen(r.dateFrom.Some?, FromDay(r.dateFrom.GetOr(0)), a, offset);
    SatisfiesWhen(r.dateTo.Some?, ToDay(r.dateTo.GetOr(0)), a, offset);
    SatisfiesWhen(Filled(r.status), StatusIs(r.status.GetOr("")), a, offset);
    SatisfiesWhen(Filled(r.service), ServiceLike(r.service.GetOr("")), a, offset);
    SatisfiesWhen(Filled(r.attendanceStatus), AttendanceIs(r.attendanceStatus.GetOr("")), a, offset);
  }

  /** What the page receives: the matching appointments (their order and pagination aside) and the filters echoed. */
  datatype IndexPage = IndexPage(appointments: set<nat>, filters: SearchRequest)

  /** ClientController::index over all appointments of `t`. */
  function Index(t: Tables, r: SearchRequest, offset: int): (p: IndexPage)
    ensures p.filters == r
    ensures forall k :: k in p.appointments <==> k in t.appointments && Satisfies(Query(r), t.appointments[k], offset)
  {
    IndexPage((set k | k in t.appointments && Satisfies(Query(r), t.appointments[k], offset)), r)
  }

  /** An appointment is listed exactly when it exists and meets every filled filter. */
  lemma IndexMatches(t: Tables, r: SearchRequest, offset: int, k: nat)
    ensures k in Index(t, r, offset).appointments <==> k in t.appointments && Matches(r, t.appointments[k], offset)
  {
    if k in t.appointments {
      QueryMeansMatches(r, t.appointments[k], offset);
    }
  }

  /** With no filter filled, every appointment is listed. */
  lemma NoFiltersListAll(t: Tables, offset: int)
    ensures Index(t, SearchRequest(None, None, None, None, None, None), offset).appointments == t.appointments.Keys
  {
    assert Query(SearchRequest(None, None, None, None, None, None)) == [];
  }

  /** The search term matches through any one of the five columns, whatever the other filters say. */
  lemma SearchIsGrouped(r: SearchRequest, a: Appointment, offset: int)
    requires Filled(r.q)
    ensures Matches(r, a, offset) ==>
              ColumnLike(a.clientName, r.q.value) || ColumnLike(a.clientPhone, r.q.value) || Contains(a.service, r.q.value) ||
              ColumnLike(a.notes, r.q.value) || Contains(a.status, r.q.value)
    ensures Matches(r, a, offset) <==>
              Holds(Search(r.q.value), a, offset) && Matches(r.(q := None), a, offset)
  {
  }

  /** The form of `store`; the start time is the instant the submitted date denotes, None when missing or not a date. */
  datatype StoreRequest = StoreRequest(clientName: Option<string>, clientPhone: Option<string>, email: Option<string>,
                                       service: Option<string>, startTime: Option<int>, status: Option<string>,
                                       notes: Option<string>)

  /**
   * The validation rules of `store`: a known service and status, a start
   * time, and an e-mail that is absent or well-formed (`isEmail`).  The
   * nullable string fields always pass.
   */
  predicate ValidStore(r: StoreRequest, isEmail: string -> bool) {
    && r.service.Some? && r.service.value in Services
    && r.startTime.Some?
    && r.status.Some? && r.status.value in Statuses
    && (r.email.None? || isEmail(r.email.value))
  }

  /** The row `Appointment::create($validated)` stores: the validated fields, the table's defaults for the rest. */
  function StoredRow(r: StoreRequest): (a: Appointment)
    requires r.service.Some? && r.startTime.Some? && r.status.Some?
    ensures a.clientId.None? && a.clientName == r.clientName && a.clientPhone == r.clientPhone && a.email == r.email
    ensures a.service == r.service.value && a.startTime == r.startTime && a.status == r.status.value && a.notes == r.notes
    ensures a.duration == 60 && !a.reminderSent && a.attendanceStatus.None? && a.eventId.None?
  {
    Appointment(None, r.clientName, r.clientPhone, r.email, r.service.value, r.startTime, None, 60, r.status.value,
                None, false, r.notes, None)
  }

  /** How `store` answers: a redirect to the list, or back to the form with the errors. */
  datatype StoreResponse = Created | Invalid

  /** ClientController::store. */
  method Store(db: Database, r: StoreRequest, isEmail: string -> bool) returns (response: StoreResponse)
    requires db.Valid()
    modifies db
    ensures db.Valid()
    ensures response == Created <==> ValidStore(r, isEmail)
    ensures ValidStore(r, isEmail) ==>
              db.State() == old(db.State()).(appointments := old(db.appointments)[old(db.nextAppointmentId) := StoredRow(r)],
                                             nextAppointmentId := old(db.nextAppointmentId) + 1)
    ensures !ValidStore(r, isEmail) ==> db.State() == old(db.State())
    ensures LinkedHaveStart(old(db.State())) ==> LinkedHaveStart(db.State())
  {
    if !ValidStore(r, isEmail) {
      return Invalid;
    }
    var _ := db.InsertAppointment(StoredRow(r));
    response := Created;
  }
}
