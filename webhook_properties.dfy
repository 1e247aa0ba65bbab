/**
 * What the webhook callback does to the message table: when it ends with a
 * server error, what a status entry may change, which write decides a row,
 * and that a payload delivered twice leaves the table as after once.
 */
module WebhookProperties {
  import opened Wrappers
  import opened Text
  import opened Webhook

  /** Some write of `ops` raises a database error. */
  predicate Aborts(ops: seq<Op>) {
    exists i :: 0 <= i < |ops| && Fails(ops[i])
  }

  /** The writes before the first one that fails. */
  function Clean(ops: seq<Op>): seq<Op>
    decreases |ops|
  {
    if |ops| == 0 || Fails(ops[0]) then [] else [ops[0]] + Clean(ops[1..])
  }

  /** The table after the writes `ops`, none of which is taken to fail. */
  function ApplyRows(rows: Rows, ops: seq<Op>): Rows
    decreases |ops|
  {
    if |ops| == 0 then rows else ApplyRows(Written(rows, ops[0]), ops[1..])
  }

  /** The callback ends with an error exactly when some write fails, and keeps the writes before the first failure. */
  lemma {:induction false} ApplySplit(rows: Rows, ops: seq<Op>)
    ensures Apply(Store(rows, false), ops) == Store(ApplyRows(rows, Clean(ops)), Aborts(ops))
    decreases |ops|
  {
    if |ops| == 0 {
    } else if Fails(ops[0]) {
      ApplyFailed(Store(rows, true), ops[1..]);
      assert Fails(ops[0]);
    } else {
      ApplySplit(Written(rows, ops[0]), ops[1..]);
      var c := Clean(ops[1..]);
      assert ([ops[0]] + c)[0] == ops[0] && ([ops[0]] + c)[1..] == c;
      if Aborts(ops) {
        var i :| 0 <= i < |ops| && Fails(ops[i]);
        assert ops[1..][i - 1] == ops[i];
      }
      if Aborts(ops[1..]) {
        var i :| 0 <= i < |ops| - 1 && Fails(ops[1..][i]);
        assert ops[i + 1] == ops[1..][i];
      }
    }
  }

  /** Without a failing write nothing is cut off. */
  lemma {:induction false} CleanAll(ops: seq<Op>)
    requires !Aborts(ops)
    ensures Clean(ops) == ops
    decreases |ops|
  {
    if |ops| > 0 {
      assert !Fails(ops[0]);
      assert !Aborts(ops[1..]) by {
        forall i | 0 <= i < |ops| - 1
          ensures !Fails(ops[1..][i])
        {
          assert ops[1..][i] == ops[i + 1];
        }
      }
      CleanAll(ops[1..]);
    }
  }

  lemma {:induction false} AbortsConcat(a: seq<Op>, b: seq<Op>)
    ensures Aborts(a + b) <==> Aborts(a) || Aborts(b)
  {
    if Aborts(a + b) {
      var i :| 0 <= i < |a + b| && Fails((a + b)[i]);
      if i >= |a| {
        assert b[i - |a|] == (a + b)[i];
      }
    }
    if Aborts(a) {
      var i :| 0 <= i < |a| && Fails(a[i]);
      assert (a + b)[i] == a[i];
    }
    if Aborts(b) {
      var i :| 0 <= i < |b| && Fails(b[i]);
      assert (a + b)[|a| + i] == b[i];
    }
  }

  lemma {:induction false} AbortsPutOps(ms: seq<InboundMessage>, to: Option<string>)
    ensures Aborts(PutOps(ms, to)) <==> exists m :: m in ms && m.from.None?
    decreases |ms|
  {
    if |ms| > 0 {
      AbortsPutOps(ms[1..], to);
      AbortsConcat([Put(ms[0], to)], PutOps(ms[1..], to));
      assert Aborts([Put(ms[0], to)]) <==> ms[0].from.None? by {
        assert [Put(ms[0], to)][0] == Put(ms[0], to);
      }
      assert forall m :: m in ms <==> m == ms[0] || m in ms[1..];
    }
  }

  lemma {:induction false} AbortsMarkOps(sts: seq<StatusEntry>)
    ensures !Aborts(MarkOps(sts))
    decreases |sts|
  {
    if |sts| > 0 {
      AbortsMarkOps(sts[1..]);
      AbortsConcat([Mark(sts[0])], MarkOps(sts[1..]));
      assert !Fails([Mark(sts[0])][0]);
    }
  }

  lemma {:induction false} AbortsChangesOps(cs: seq<Change>)
    ensures Aborts(ChangesOps(cs)) <==> exists c, m :: c in cs && m in c.messages && m.from.None?
    decreases |cs|
  {
    if |cs| > 0 {
      AbortsChangesOps(cs[1..]);
      AbortsConcat(ChangeOps(cs[0]), ChangesOps(cs[1..]));
      AbortsConcat(PutOps(cs[0].messages, cs[0].displayPhone), MarkOps(cs[0].statuses));
      AbortsPutOps(cs[0].messages, cs[0].displayPhone);
      AbortsMarkOps(cs[0].statuses);
      assert forall c :: c in cs <==> c == cs[0] || c in cs[1..];
    }
  }

  lemma {:induction false} PutOpsAt(ms: seq<InboundMessage>, to: Option<string>, i: nat)
    requires i < |ms|
    ensures PutOps(ms, to)[i] == Put(ms[i], to)
    decreases |ms|
  {
    if i > 0 {
      PutOpsAt(ms[1..], to, i - 1);
    }
  }

  lemma {:induction false} MarkOpsAt(sts: seq<StatusEntry>, i: nat)
    requires i < |sts|
    ensures MarkOps(sts)[i] == Mark(sts[i])
    decreases |sts|
  {
    if i > 0 {
      MarkOpsAt(sts[1..], i - 1);
    }
  }

  /** Within a change, the messages are written in order, and then the statuses in order. */
  lemma ChangeOrder(c: Change)
    ensures |ChangeOps(c)| == |c.messages| + |c.statuses|
    ensures forall i :: 0 <= i < |c.messages| ==> ChangeOps(c)[i] == Put(c.messages[i], c.displayPhone)
    ensures forall j :: 0 <= j < |c.statuses| ==> ChangeOps(c)[|c.messages| + j] == Mark(c.statuses[j])
  {
    var ops := ChangeOps(c);
    forall i | 0 <= i < |c.messages|
      ensures ops[i] == Put(c.messages[i], c.displayPhone)
    {
      PutOpsAt(c.messages, c.displayPhone, i);
    }
    forall j | 0 <= j < |c.statuses|
      ensures ops[|c.messages| + j] == Mark(c.statuses[j])
    {
      MarkOpsAt(c.statuses, j);
    }
  }

  /** A message without a sender somewhere in the payload. */
  predicate SenderMissing(entries: seq<Entry>) {
    exists e, c, m :: e in entries && c in e.changes && m in c.messages && m.from.None?
  }

  lemma {:induction false} AbortsPayloadOps(entries: seq<Entry>)
    ensures Aborts(PayloadOps(entries)) <==> SenderMissing(entries)
    decreases |entries|
  {
    if |entries| > 0 {
      AbortsPayloadOps(entries[1..]);
      AbortsConcat(ChangesOps(entries[0].changes), PayloadOps(entries[1..]));
      AbortsChangesOps(entries[0].changes);
      assert forall e :: e in entries <==> e == entries[0] || e in entries[1..];
    }
  }

  /**
   * The callback answers with a server error exactly when some message of the
   * payload has no sender; the table then holds the writes made before that message.
   */
  lemma ServerErrorIff(rows: Rows, entries: seq<Entry>)
    ensures var r := Apply(Store(rows, false), PayloadOps(entries));
            (r.failed <==> SenderMissing(entries)) && r.rows == ApplyRows(rows, Clean(PayloadOps(entries)))
  {
    ApplySplit(rows, PayloadOps(entries));
    AbortsPayloadOps(entries);
  }

  /** The row under key `k`, if there is one. */
  function Get(rows: Rows, k: Option<string>): (r: Option<MessageRow>)
    ensures r.Some? <==> k in rows
    ensures r.Some? ==> r.value == rows[k]
  {
    if k in rows then Some(rows[k]) else None
  }

  /** What one write does to the row under key `k`. */
  function KeyStep(o: Option<MessageRow>, op: Op, k: Option<string>): Option<MessageRow> {
    match op
    case Put(m, to) => if m.id == k && m.from.Some? then Some(InboundRow(m, to)) else o
    case Mark(st) =>
      if OptTruthy(st.id) && st.id == k && o.Some?
      then Some(o.value.(status := st.status, sentAt := SentAt(st.timestamp)))
      else o
  }

  /** What the writes `ops` do to the row under key `k`. */
  function KeyRow(o: Option<MessageRow>, ops: seq<Op>, k: Option<string>): Option<MessageRow>
    decreases |ops|
  {
    if |ops| == 0 then o else KeyRow(KeyStep(o, ops[0], k), ops[1..], k)
  }

  /** Rows evolve key by key: each write touches at most the row under its own key. */
  lemma {:induction false} ApplyRowsAt(rows: Rows, ops: seq<Op>, k: Option<string>)
    ensures Get(ApplyRows(rows, ops), k) == KeyRow(Get(rows, k), ops, k)
    decreases |ops|
  {
    if |ops| > 0 {
      assert Get(Written(rows, ops[0]), k) == KeyStep(Get(rows, k), ops[0], k);
      ApplyRowsAt(Written(rows, ops[0]), ops[1..], k);
    }
  }

  lemma {:induction false} KeyRowConcat(o: Option<MessageRow>, a: seq<Op>, b: seq<Op>, k: Option<string>)
    ensures KeyRow(o, a + b, k) == KeyRow(KeyRow(o, a, k), b, k)
    decreases |a|
  {
    if |a| > 0 {
      assert (a + b)[0] == a[0];
      assert (a + b)[1..] == a[1..] + b;
      KeyRowConcat(KeyStep(o, a[0], k), a[1..], b, k);
    } else {
      assert a + b == b;
    }
  }

  /** `op` writes the row under key `k`: a message with that id and a sender. */
  predicate Writes(op: Op, k: Option<string>) {
    op.Put? && op.message.id == k && op.message.from.Some?
  }

  /** `op` is a write or a status update for key `k`. */
  predicate Concerns(op: Op, k: Option<string>) {
    Writes(op, k) || (op.Mark? && OptTruthy(op.entry.id) && op.entry.id == k)
  }

  /** Writes that do not concern `k` leave its row alone. */
  lemma {:induction false} KeyRowUntouched(o: Option<MessageRow>, ops: seq<Op>, k: Option<string>)
    requires forall i :: 0 <= i < |ops| ==> !Concerns(ops[i], k)
    ensures KeyRow(o, ops, k) == o
    decreases |ops|
  {
    if |ops| > 0 {
      assert !Concerns(ops[0], k);
      assert forall i :: 0 <= i < |ops| - 1 ==> ops[1..][i] == ops[i + 1];
      KeyRowUntouched(KeyStep(o, ops[0], k), ops[1..], k);
    }
  }

  /** Once a message with id `k` is written, what the row held before no longer matters. */
  lemma {:induction false} KeyRowForgets(o1: Option<MessageRow>, o2: Option<MessageRow>, ops: seq<Op>, k: Option<string>, i: nat)
    requires i < |ops| && Writes(ops[i], k)
    ensures KeyRow(o1, ops, k) == KeyRow(o2, ops, k)
    decreases |ops|
  {
    if i > 0 {
      assert ops[1..][i - 1] == ops[i];
      KeyRowForgets(KeyStep(o1, ops[0], k), KeyStep(o2, ops[0], k), ops[1..], k, i - 1);
    }
  }

  /** The last status entry of `ops` with the truthy id `k`, if any. */
  function LastMark(ops: seq<Op>, k: Option<string>): (r: Option<StatusEntry>)
    decreases |ops|
  {
    if |ops| == 0 then None
    else
      var rest := LastMark(ops[1..], k);
      if rest.Some? then rest
      else if ops[0].Mark? && OptTruthy(ops[0].entry.id) && ops[0].entry.id == k then Some(ops[0].entry)
      else None
  }

  /** A row with its status and time taken from the entry `lm`, if there is one. */
  function Marked(o: Option<MessageRow>, lm: Option<StatusEntry>): Option<MessageRow> {
    if o.None? || lm.None? then o
    else Some(o.value.(status := lm.value.status, sentAt := SentAt(lm.value.timestamp)))
  }

  /** Without a write for `k`, only the last status entry for `k` shows in its row. */
  lemma {:induction false} KeyRowMarks(o: Option<MessageRow>, ops: seq<Op>, k: Option<string>)
    requires forall i :: 0 <= i < |ops| ==> !Writes(ops[i], k)
    ensures KeyRow(o, ops, k) == Marked(o, LastMark(ops, k))
    decreases |ops|
  {
    if |ops| > 0 {
      assert !Writes(ops[0], k);
      assert forall i :: 0 <= i < |ops| - 1 ==> ops[1..][i] == ops[i + 1];
      KeyRowMarks(KeyStep(o, ops[0], k), ops[1..], k);
    }
  }

  /** For one key, the writes done twice end where they end once. */
  lemma KeyRowIdempotent(o: Option<MessageRow>, ops: seq<Op>, k: Option<string>)
    ensures KeyRow(KeyRow(o, ops, k), ops, k) == KeyRow(o, ops, k)
  {
    if i :| 0 <= i < |ops| && Writes(ops[i], k) {
      KeyRowForgets(KeyRow(o, ops, k), o, ops, k, i);
    } else {
      KeyRowMarks(o, ops, k);
      KeyRowMarks(KeyRow(o, ops, k), ops, k);
    }
  }

  lemma MapsAgree(a: Rows, b: Rows)
    requires forall k :: Get(a, k) == Get(b, k)
    ensures a == b
  {
    forall k | k in a
      ensures k in b && a[k] == b[k]
    {
      assert Get(a, k) == Get(b, k);
    }
    forall k | k in b
      ensures k in a
    {
      assert Get(a, k) == Get(b, k);
    }
  }

  lemma RowsIdempotent(rows: Rows, ops: seq<Op>)
    ensures ApplyRows(ApplyRows(rows, ops), ops) == ApplyRows(rows, ops)
  {
    var once := ApplyRows(rows, ops);
    var twice := ApplyRows(once, ops);
    forall k
      ensures Get(twice, k) == Get(once, k)
    {
      ApplyRowsAt(once, ops, k);
      ApplyRowsAt(rows, ops, k);
      KeyRowIdempotent(Get(rows, k), ops, k);
    }
    MapsAgree(twice, once);
  }

  /**
   * A payload delivered again (the platform retries a callback that did not
   * answer 200) leaves the table and the response exactly as the first delivery did.
   */
  lemma PayloadIdempotent(rows: Rows, entries: seq<Entry>)
    ensures var once := Apply(Store(rows, false), PayloadOps(entries));
            Apply(Store(once.rows, false), PayloadOps(entries)) == once
  {
    var ops := PayloadOps(entries);
    var once := Apply(Store(rows, false), ops);
    ApplySplit(rows, ops);
    ApplySplit(once.rows, ops);
    RowsIdempotent(rows, Clean(ops));
  }

  /** The row under `k` of a run without errors, from the write at index i and what follows it. */
  lemma {:induction false} RowAfter(rows: Rows, ops: seq<Op>, i: nat, k: Option<string>)
    requires i < |ops| && !Aborts(ops)
    requires forall j :: i < j < |ops| ==> !Concerns(ops[j], k)
    ensures Get(Apply(Store(rows, false), ops).rows, k) == KeyStep(KeyRow(Get(rows, k), ops[..i], k), ops[i], k)
  {
    ApplySplit(rows, ops);
    CleanAll(ops);
    ApplyRowsAt(rows, ops, k);
    assert ops == ops[..i] + ([ops[i]] + ops[i + 1..]);
    KeyRowConcat(Get(rows, k), ops[..i], [ops[i]] + ops[i + 1..], k);
    var o := KeyRow(Get(rows, k), ops[..i], k);
    assert ([ops[i]] + ops[i + 1..])[0] == ops[i];
    assert ([ops[i]] + ops[i + 1..])[1..] == ops[i + 1..];
    KeyRowUntouched(KeyStep(o, ops[i], k), ops[i + 1..], k);
  }

  /** A message with a sender whose id nothing later concerns ends up as its own row, whatever was there before. */
  lemma MessageStored(rows: Rows, ops: seq<Op>, i: nat)
    requires i < |ops| && !Aborts(ops) && ops[i].Put?
    requires forall j :: i < j < |ops| ==> !Concerns(ops[j], ops[i].message.id)
    ensures var m := ops[i].message;
            var r := Apply(Store(rows, false), ops).rows;
            m.from.Some? && m.id in r && r[m.id] == InboundRow(m, ops[i].to)
  {
    assert !Fails(ops[i]);
    RowAfter(rows, ops, i, ops[i].message.id);
  }

  /** The last status entry for a row sets its status and time; a row it does not find stays absent. */
  lemma LastStatusWins(rows: Rows, ops: seq<Op>, i: nat)
    requires i < |ops| && !Aborts(ops) && ops[i].Mark? && OptTruthy(ops[i].entry.id)
    requires forall j :: i < j < |ops| ==> !Concerns(ops[j], ops[i].entry.id)
    ensures var st := ops[i].entry;
            var r := Apply(Store(rows, false), ops).rows;
            st.id in r ==> r[st.id].status == st.status && r[st.id].sentAt == SentAt(st.timestamp)
  {
    RowAfter(rows, ops, i, ops[i].entry.id);
  }

  /** Two rows that agree on everything but status and time. */
  predicate SameButStatus(a: MessageRow, b: MessageRow) {
    a.fromId == b.fromId && a.toId == b.toId && a.msgType == b.msgType && a.body == b.body &&
    a.direction == b.direction && a.raw == b.raw
  }

  /** A status entry never changes the set of rows nor anything but a row's status and time; one without a truthy id changes nothing. */
  lemma SetStatusOnlyUpdates(rows: Rows, st: StatusEntry)
    ensures var r := SetStatus(rows, st);
            r.Keys == rows.Keys &&
            (forall k :: k in rows ==> SameButStatus(r[k], rows[k])) &&
            (forall k :: k in rows && k != st.id ==> r[k] == rows[k]) &&
            (!OptTruthy(st.id) ==> r == rows)
  {
  }

  /** Status entries alone never insert, delete or rewrite a row beyond its status and time, and never fail. */
  lemma {:induction false} StatusesOnlyUpdate(rows: Rows, sts: seq<StatusEntry>)
    ensures var r := Apply(Store(rows, false), MarkOps(sts));
            !r.failed && r.rows.Keys == rows.Keys &&
            forall k :: k in rows ==> SameButStatus(r.rows[k], rows[k])
    decreases |sts|
  {
    if |sts| > 0 {
      var ops := MarkOps(sts);
      assert ops[0] == Mark(sts[0]) && ops[1..] == MarkOps(sts[1..]);
      SetStatusOnlyUpdates(rows, sts[0]);
      StatusesOnlyUpdate(SetStatus(rows, sts[0]), sts[1..]);
    }
  }
}
