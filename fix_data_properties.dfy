/**
 * What a run of the data fixer does to the tables: which rows it rewrites and
 * how, that clients are only added, that a fixed row is never selected
 * again, and what the phone given to created clients decides.
 */
module FixDataProperties {
  import opened Wrappers
  import opened Text
  import opened Persistence
  import opened EventParser
  import opened FixData

  /** Ids in strictly increasing order, as the selection returns them. */
  predicate Increasing(ids: seq<nat>) {
    forall j, j' :: 0 <= j < j' < |ids| ==> ids[j] < ids[j']
  }

  lemma ClientsGrowTrans(t: Tables, t': Tables, t'': Tables)
    requires ClientsGrow(t, t') && ClientsGrow(t', t'')
    ensures ClientsGrow(t, t'')
  {
  }

  /**
   * Fixing one row links it to the first client carrying its name, which
   * exists afterwards; the clients only grow and no other row changes.
   */
  lemma FixOneLinks(t: Tables, id: nat, name: string, service: string, phone: Option<string>)
    requires ValidTables(t) && id in t.appointments && FixOne(t, id, name, service, phone).Some?
    ensures var t' := FixOne(t, id, name, service, phone).value;
            && ClientsGrow(t, t')
            && FirstClientNamed(t', name).Some?
            && t'.clients[FirstClientNamed(t', name).value].name == name
            && t'.appointments == t.appointments[id := t.appointments[id].(clientId := FirstClientNamed(t', name), service := service)]
  {
    var res := FindOrCreateClient(t, name, phone).value;
    assert res.tables.appointments == t.appointments;
    if FirstClientNamed(t, name).None? {
      assert res.tables.clients == t.clients[t.nextClientId := Client(name, phone, Green)];
    }
  }

  /** A run from any row on only adds clients, at fresh ids, and changes no existing one. */
  lemma {:induction false} RestClientsGrow(t: Tables, ids: seq<nat>, parts: seq<(string, string)>, i: nat, phone: Option<string>)
    requires ValidTables(t) && Loaded(t, ids) && |parts| == |ids| && i <= |ids|
    ensures ClientsGrow(t, Rest(t, ids, parts, i, phone).tables)
    decreases |ids| - i
  {
    if i < |ids| {
      var f := FixOne(t, ids[i], parts[i].0, parts[i].1, phone);
      if f.Some? {
        FixOneLinks(t, ids[i], parts[i].0, parts[i].1, phone);
        RestClientsGrow(f.value, ids, parts, i + 1, phone);
        ClientsGrowTrans(t, f.value, Rest(f.value, ids, parts, i + 1, phone).tables);
      }
    }
  }

  /** A row the run does not visit keeps its contents. */
  lemma {:induction false} RestKeepsOthers(t: Tables, ids: seq<nat>, parts: seq<(string, string)>, i: nat, phone: Option<string>, k: nat)
    requires ValidTables(t) && Loaded(t, ids) && |parts| == |ids| && i <= |ids|
    requires k in t.appointments && forall j :: i <= j < |ids| ==> ids[j] != k
    ensures Rest(t, ids, parts, i, phone).tables.appointments[k] == t.appointments[k]
    decreases |ids| - i
  {
    if i < |ids| {
      var f := FixOne(t, ids[i], parts[i].0, parts[i].1, phone);
      if f.Some? {
        FixOneLinks(t, ids[i], parts[i].0, parts[i].1, phone);
        RestKeepsOthers(f.value, ids, parts, i + 1, phone, k);
      }
    }
  }

  /**
   * In the tables `r`, the row `id` is the row `a` linked to the first client
   * named `name`, which exists, and given the service `service`.
   */
  predicate Linked(r: Tables, id: nat, a: Appointment, name: string, service: string) {
    && id in r.appointments
    && FirstClientNamed(r, name).Some?
    && r.clients[FirstClientNamed(r, name).value].name == name
    && r.appointments[id] == a.(clientId := FirstClientNamed(r, name), service := service)
  }

  /**
   * The j-th row, reached before any error, ends up linked to the first
   * client carrying its parsed name in the final tables, with the service
   * part as its service and nothing else changed.
   */
  lemma {:induction false} RestFixes(t: Tables, ids: seq<nat>, parts: seq<(string, string)>, i: nat, phone: Option<string>, j: nat)
    requires ValidTables(t) && Loaded(t, ids) && |parts| == |ids| && Increasing(ids)
    requires i <= j < |ids| && j < i + Rest(t, ids, parts, i, phone).fixed
    ensures Linked(Rest(t, ids, parts, i, phone).tables, ids[j], t.appointments[ids[j]], parts[j].0, parts[j].1)
    decreases |ids| - i, 1
  {
    if j == i {
      RestFixesFirst(t, ids, parts, i, phone);
    } else {
      RestFixesLater(t, ids, parts, i, phone, j);
    }
  }

  /** The first row of a run that gets past it: linked as it was fixed, and later rows do not undo that. */
  lemma RestFixesFirst(t: Tables, ids: seq<nat>, parts: seq<(string, string)>, i: nat, phone: Option<string>)
    requires ValidTables(t) && Loaded(t, ids) && |parts| == |ids| && Increasing(ids)
    requires i < |ids| && 0 < Rest(t, ids, parts, i, phone).fixed
    ensures Linked(Rest(t, ids, parts, i, phone).tables, ids[i], t.appointments[ids[i]], parts[i].0, parts[i].1)
  {
    var t' := FixOne(t, ids[i], parts[i].0, parts[i].1, phone).value;
    var r := Rest(t', ids, parts, i + 1, phone).tables;
    FixOneLinks(t, ids[i], parts[i].0, parts[i].1, phone);
    RestKeepsOthers(t', ids, parts, i + 1, phone, ids[i]);
    RestClientsGrow(t', ids, parts, i + 1, phone);
    FirstClientNamedStable(t', r, parts[i].0);
  }

  /** A later row: the first one's fix does not touch it, and the rest of the run links it. */
  lemma {:induction false} RestFixesLater(t: Tables, ids: seq<nat>, parts: seq<(string, string)>, i: nat, phone: Option<string>, j: nat)
    requires ValidTables(t) && Loaded(t, ids) && |parts| == |ids| && Increasing(ids)
    requires i < j < |ids| && j < i + Rest(t, ids, parts, i, phone).fixed
    ensures Linked(Rest(t, ids, parts, i, phone).tables, ids[j], t.appointments[ids[j]], parts[j].0, parts[j].1)
    decreases |ids| - i, 0
  {
    var t' := FixOne(t, ids[i], parts[i].0, parts[i].1, phone).value;
    FixOneLinks(t, ids[i], parts[i].0, parts[i].1, phone);
    assert ids[i] < ids[j];
    RestFixes(t', ids, parts, i + 1, phone, j);
  }

  /** The rows from the one that raised the error on are left as they were. */
  lemma {:induction false} RestLeavesUnreached(t: Tables, ids: seq<nat>, parts: seq<(string, string)>, i: nat, phone: Option<string>, j: nat)
    requires ValidTables(t) && Loaded(t, ids) && |parts| == |ids| && Increasing(ids)
    requires i <= j < |ids| && i + Rest(t, ids, parts, i, phone).fixed <= j
    ensures Rest(t, ids, parts, i, phone).tables.appointments[ids[j]] == t.appointments[ids[j]]
    decreases |ids| - i
  {
    var f := FixOne(t, ids[i], parts[i].0, parts[i].1, phone);
    if f.Some? {
      FixOneLinks(t, ids[i], parts[i].0, parts[i].1, phone);
      assert ids[i] < ids[j];
      RestLeavesUnreached(f.value, ids, parts, i + 1, phone, j);
    }
  }

  /**
   * A whole run: the j-th selected row, for j below the reported count, gets
   * the first client carrying the name parsed from its old service, and the
   * service part as its service; nothing else in the row changes.
   */
  lemma FixedRow(t0: Tables, phone: Option<string>, j: nat)
    requires ValidTables(t0) && j < FixAll(t0, phone).fixed
    ensures var ids := ToFix(t0);
            var r := FixAll(t0, phone).tables;
            var a := t0.appointments[ids[j]];
            var p := ParseEventName(a.service);
            && p.clientName.Some?
            && FirstClientNamed(r, p.clientName.value).Some?
            && r.clients[FirstClientNamed(r, p.clientName.value).value].name == p.clientName.value
            && r.appointments[ids[j]] == a.(clientId := FirstClientNamed(r, p.clientName.value), service := p.serviceName)
  {
    var ids := ToFix(t0);
    RestFixes(t0, ids, Splits(t0, ids), 0, phone, j);
    assert Linked(FixAll(t0, phone).tables, ids[j], t0.appointments[ids[j]], Splits(t0, ids)[j].0, Splits(t0, ids)[j].1);
  }

  /** Rows whose services carry the same client name end up with the same client. */
  lemma SameNameSameClient(t0: Tables, phone: Option<string>, j: nat, j': nat)
    requires ValidTables(t0) && j < FixAll(t0, phone).fixed && j' < FixAll(t0, phone).fixed
    requires ParseEventName(t0.appointments[ToFix(t0)[j]].service).clientName ==
             ParseEventName(t0.appointments[ToFix(t0)[j']].service).clientName
    ensures var r := FixAll(t0, phone).tables;
            r.appointments[ToFix(t0)[j]].clientId == r.appointments[ToFix(t0)[j']].clientId
  {
    FixedRow(t0, phone, j);
    FixedRow(t0, phone, j');
  }

  /** A selected row at or after the one that raised the error keeps its contents: `fixed` counts exactly the rows updated. */
  lemma UnreachedRow(t0: Tables, phone: Option<string>, j: nat)
    requires ValidTables(t0) && FixAll(t0, phone).fixed <= j < |ToFix(t0)|
    ensures FixAll(t0, phone).crashed
    ensures FixAll(t0, phone).tables.appointments[ToFix(t0)[j]] == t0.appointments[ToFix(t0)[j]]
  {
    var ids := ToFix(t0);
    RestLeavesUnreached(t0, ids, Splits(t0, ids), 0, phone, j);
  }

  /** An appointment the selection leaves out is untouched. */
  lemma UnselectedUntouched(t0: Tables, phone: Option<string>, k: nat)
    requires ValidTables(t0) && k in t0.appointments && !NeedsFix(t0.appointments[k])
    ensures FixAll(t0, phone).tables.appointments[k] == t0.appointments[k]
  {
    var ids := ToFix(t0);
    RestKeepsOthers(t0, ids, Splits(t0, ids), 0, phone, k);
  }

  /** Existing clients are kept unchanged, and created ones get fresh ids. */
  lemma ClientsKept(t0: Tables, phone: Option<string>)
    requires ValidTables(t0)
    ensures ClientsGrow(t0, FixAll(t0, phone).tables)
  {
    var ids := ToFix(t0);
    RestClientsGrow(t0, ids, Splits(t0, ids), 0, phone);
  }

  /** Fixing one row changes only its client and service, so linked rows keep their start times. */
  lemma FixOneKeepsLinkedStart(t: Tables, id: nat, name: string, service: string, phone: Option<string>)
    requires ValidTables(t) && id in t.appointments && FixOne(t, id, name, service, phone).Some? && LinkedHaveStart(t)
    ensures LinkedHaveStart(FixOne(t, id, name, service, phone).value)
  {
    FixOneLinks(t, id, name, service, phone);
  }

  /** A run from any row changes only clients and services, so linked rows keep their start times. */
  lemma {:induction false} RestKeepsLinkedStart(t: Tables, ids: seq<nat>, parts: seq<(string, string)>, i: nat, phone: Option<string>)
    requires ValidTables(t) && Loaded(t, ids) && |parts| == |ids| && i <= |ids| && LinkedHaveStart(t)
    ensures LinkedHaveStart(Rest(t, ids, parts, i, phone).tables)
    decreases |ids| - i
  {
    if i < |ids| {
      RestUnfold(t, ids, parts, i, phone);
      var f := FixOne(t, ids[i], parts[i].0, parts[i].1, phone);
      if f.Some? {
        FixOneKeepsLinkedStart(t, ids[i], parts[i].0, parts[i].1, phone);
        RestKeepsLinkedStart(f.value, ids, parts, i + 1, phone);
      }
    }
  }

  /** The repair keeps every linked appointment's start time, which the calendar sync formats. */
  lemma FixAllKeepsLinkedStart(t0: Tables, phone: Option<string>)
    requires ValidTables(t0) && LinkedHaveStart(t0)
    ensures LinkedHaveStart(FixAll(t0, phone).tables)
  {
    var ids := ToFix(t0);
    RestKeepsLinkedStart(t0, ids, Splits(t0, ids), 0, phone);
  }

  /** A row the run fixed now has a client, so a later run does not select it again. */
  lemma NotReselected(t0: Tables, phone: Option<string>, j: nat)
    requires ValidTables(t0) && j < FixAll(t0, phone).fixed
    ensures ToFix(t0)[j] !in ToFix(FixAll(t0, phone).tables)
  {
    FixedRow(t0, phone, j);
  }

  /** Clients created without a phone never collide on the unique index, so a run with no phone never raises. */
  lemma {:induction false} RestNoPhoneFinishes(t: Tables, ids: seq<nat>, parts: seq<(string, string)>, i: nat)
    requires ValidTables(t) && Loaded(t, ids) && |parts| == |ids| && i <= |ids|
    ensures !Rest(t, ids, parts, i, None).crashed
    decreases |ids| - i
  {
    if i < |ids| {
      var f := FixOne(t, ids[i], parts[i].0, parts[i].1, None);
      assert f.Some?;
      RestNoPhoneFinishes(f.value, ids, parts, i + 1);
    }
  }

  /**
   * With the intended phone the command fixes every selected row, and the
   * tables it leaves have nothing left to select: a second run changes nothing.
   */
  lemma CorrectedFixesAll(t0: Tables)
    requires ValidTables(t0)
    ensures var r := FixAll(t0, IntendedPhone);
            && !r.crashed && r.fixed == |ToFix(t0)|
            && ToFix(r.tables) == []
            && FixAll(r.tables, IntendedPhone) == FixRun(r.tables, 0, false)
  {
    var ids := ToFix(t0);
    var r := FixAll(t0, IntendedPhone);
    RestNoPhoneFinishes(t0, ids, Splits(t0, ids), 0);
    if |ToFix(r.tables)| > 0 {
      var k := ToFix(r.tables)[0];
      if NeedsFix(t0.appointments[k]) {
        var j :| 0 <= j < |ids| && ids[j] == k;
        FixedRow(t0, IntendedPhone, j);
      } else {
        UnselectedUntouched(t0, IntendedPhone, k);
      }
      assert false;
    }
  }

  /** A legacy row as the old calendar import left it: client and service in one column, no client id. */
  function Legacy(service: string): (a: Appointment)
    ensures a.service == service && a.clientId.None?
  {
    Appointment(None, None, None, None, service, None, None, 60, "Scheduled", None, false, None, None)
  }

  /** Two legacy rows for two clients the table does not have yet. */
  function TwoNewClients(): (t: Tables)
    ensures ValidTables(t)
  {
    Tables(map[], 0, map[0 := Legacy("Al" + Separator + "Hair Cut"), 1 := Legacy("Bo" + Separator + "Beard Shaping")], 2, [])
  }

  /** A two-letter client name cannot hold the separator, so "name - service" splits back into its parts. */
  lemma ParsesAsPair(client: string, service: string)
    requires |client| == 2 && !IsTrimChar(client[0]) && !IsTrimChar(client[1]) && client[1] != '-'
    requires IsTrimmed(service)
    ensures Contains(client + Separator + service, Separator)
    ensures SplitService(client + Separator + service) == (client, service)
  {
    assert !Contains(client, Separator);
    assert !EndsWith(client, " -") by {
      assert client[1] != " -"[1];
    }
    ParseRoundTrip(client, service);
  }

  /** The first row needs fixing and splits into Al and Hair Cut. */
  lemma FirstRowParses()
    ensures NeedsFix(TwoNewClients().appointments[0])
    ensures SplitService(TwoNewClients().appointments[0].service) == ("Al", "Hair Cut")
  {
    ParsesAsPair("Al", "Hair Cut");
  }

  /** The second row needs fixing and splits into Bo and Beard Shaping. */
  lemma SecondRowParses()
    ensures NeedsFix(TwoNewClients().appointments[1])
    ensures SplitService(TwoNewClients().appointments[1].service) == ("Bo", "Beard Shaping")
  {
    ParsesAsPair("Bo", "Beard Shaping");
  }

  /** The selection of rows from [0, 2) that are both selected. */
  lemma BothSelected(t: Tables)
    requires t.nextAppointmentId == 2 && 0 in t.appointments && 1 in t.appointments
    requires NeedsFix(t.appointments[0]) && NeedsFix(t.appointments[1])
    ensures ToFix(t) == [0, 1]
  {
    var ids := ToFix(t);
    assert 0 in ids && 1 in ids;
  }

  /** Both rows are selected, in id order, and split into their client and service. */
  lemma TwoNewClientsSplit()
    ensures ToFix(TwoNewClients()) == [0, 1]
    ensures Splits(TwoNewClients(), [0, 1]) == [("Al", "Hair Cut"), ("Bo", "Beard Shaping")]
  {
    FirstRowParses();
    SecondRowParses();
    BothSelected(TwoNewClients());
  }

  /** Fixing the first row creates client 0, Al, with the phone `phone`. */
  lemma FirstRowFixed(phone: Option<string>)
    ensures var f := FixOne(TwoNewClients(), 0, "Al", "Hair Cut", phone);
            && f.Some?
            && f.value.clients == map[0 := Client("Al", phone, Green)] && f.value.nextClientId == 1
            && f.value.appointments[1] == TwoNewClients().appointments[1]
  {
    var t0 := TwoNewClients();
    assert FirstClientNamed(t0, "Al").None?;
    FixOneLinks(t0, 0, "Al", "Hair Cut", phone);
  }

  /** Once Al holds the phone '', creating Bo with the same phone is refused. */
  lemma SecondRowRefused(t1: Tables)
    requires ValidTables(t1) && 1 in t1.appointments
    requires t1.clients == map[0 := Client("Al", WrittenPhone, Green)] && t1.nextClientId == 1
    ensures FixOne(t1, 1, "Bo", "Beard Shaping", WrittenPhone).None?
  {
    assert FirstClientNamed(t1, "Bo").None? by {
      assert FirstMatch(t1.clients, NameIs("Bo"), 1, 1).None?;
    }
    assert PhoneTaken(t1.clients, "") by {
      assert 0 in t1.clients && t1.clients[0].phone == Some("");
    }
  }

  /**
   * As written the command gives every created client the phone '', which the
   * unique index on clients.phone admits once: the second row needing a new
   * client raises, after the first row was fixed.
   */
  lemma WrittenPhoneCrashes()
    ensures var r := FixAll(TwoNewClients(), WrittenPhone);
            && r.crashed && r.fixed == 1
            && r.tables.clients == map[0 := Client("Al", Some(""), Green)]
            && r.tables.appointments[1] == TwoNewClients().appointments[1]
  {
    var t0 := TwoNewClients();
    TwoNewClientsSplit();
    var ids := [0, 1];
    var parts := [("Al", "Hair Cut"), ("Bo", "Beard Shaping")];
    FirstRowFixed(WrittenPhone);
    var t1 := FixOne(t0, 0, "Al", "Hair Cut", WrittenPhone).value;
    SecondRowRefused(t1);
    assert Rest(t1, ids, parts, 1, WrittenPhone) == FixRun(t1, 0, true);
  }

  /** With the intended phone the same two rows are both fixed. */
  lemma IntendedPhoneFixesBoth()
    ensures var r := FixAll(TwoNewClients(), IntendedPhone);
            !r.crashed && r.fixed == 2
  {
    TwoNewClientsSplit();
    CorrectedFixesAll(TwoNewClients());
  }
}
