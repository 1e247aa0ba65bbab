/**
 * WhatsappWebhookController: the subscription handshake, and the POST
 * callback that records inbound messages and delivery statuses in the
 * whats_app_messages table.
 *
 * The table is keyed by wa_message_id (a nullable unique column); a map
 * models it, so there is at most one row per id, and `where('wa_message_id',
 * null)` names the row under the key `None`.  The callback is one pass over
 * the payload in order; the writes it makes are the operations `Op`, and
 * the table after the callback is `Apply` of those operations.
 */
module Webhook {
  import opened Wrappers
  import opened Text

  /** The verify token the handshake expects. */
  const VerifyToken := "mySecretTokenNN489"
  /** The body of a refused handshake. */
  const InvalidToken := "Invalid verification token"

  /** A plain-text HTTP response. */
  datatype TextResponse = TextResponse(status: int, body: string)

  /**
   * `verify`: the challenge echoed with 200 exactly when the mode is
   * `subscribe` and the token is the expected one, compared strictly; a missing
   * challenge echoes as the empty body.  Anything else is refused with 403.
   */
  function Verify(mode: Option<string>, token: Option<string>, challenge: Option<string>): (r: TextResponse)
    ensures r.status == 200 <==> mode == Some("subscribe") && token == Some(VerifyToken)
    ensures r.status == 200 ==> r.body == challenge.GetOr("")
    ensures r.status != 200 ==> r == TextResponse(403, InvalidToken)
  {
    if mode == Some("subscribe") && token == Some(VerifyToken) then TextResponse(200, challenge.GetOr(""))
    else TextResponse(403, InvalidToken)
  }

  /**
   * One element of `value.messages`, with the fields the callback reads.
   * `timestamp` is the value after the `(int)` cast; `textBody`,
   * `buttonTitle` and `listTitle` are `text.body`,
   * `interactive.button_reply.title` and `interactive.list_reply.title`.
   */
  datatype InboundMessage = InboundMessage(
    id: Option<string>,
    from: Option<string>,
    msgType: Option<string>,
    timestamp: Option<int>,
    textBody: Option<string>,
    buttonTitle: Option<string>,
    listTitle: Option<string>)

  /** One element of `value.statuses`: the message id, the new status and the cast timestamp. */
  datatype StatusEntry = StatusEntry(id: Option<string>, status: Option<string>, timestamp: Option<int>)

  /** One element of `entry.changes`: `value.metadata.display_phone_number`, the messages and the statuses. */
  datatype Change = Change(displayPhone: Option<string>, messages: seq<InboundMessage>, statuses: seq<StatusEntry>)

  /** One element of the payload's `entry` list; a missing list is the empty one. */
  datatype Entry = Entry(changes: seq<Change>)

  datatype Direction = Inbound | Outbound

  /** A whats_app_messages row (without its own id and timestamps); `raw` is the stored `raw_payload`. */
  datatype MessageRow = MessageRow(
    fromId: string,
    toId: Option<string>,
    msgType: string,
    body: Option<string>,
    direction: Direction,
    status: Option<string>,
    sentAt: Option<int>,
    raw: InboundMessage)

  /** The rows, by wa_message_id. */
  type Rows = map<Option<string>, MessageRow>

  /** `$ts ? createFromTimestamp($ts) : null`: a zero timestamp is falsy and gives no time. */
  function SentAt(ts: Option<int>): (r: Option<int>)
    ensures r.Some? <==> ts.Some? && ts.value != 0
    ensures r.Some? ==> r.value == ts.value
  {
    if ts.Some? && ts.value != 0 then ts else None
  }

  /** The body chosen by type: the text for `text`, the button title or else the list title for `interactive`, none otherwise. */
  function Body(m: InboundMessage): (r: Option<string>)
    ensures m.msgType == Some("text") ==> r == m.textBody
    ensures m.msgType == Some("interactive") ==> r == (if m.buttonTitle.Some? then m.buttonTitle else m.listTitle)
    ensures m.msgType != Some("text") && m.msgType != Some("interactive") ==> r.None?
  {
    if m.msgType == Some("text") then m.textBody
    else if m.msgType == Some("interactive") then (if m.buttonTitle.Some? then m.buttonTitle else m.listTitle)
    else None
  }

  /** The row `updateOrCreate` writes for message `m` of a change whose display number is `to`. */
  function InboundRow(m: InboundMessage, to: Option<string>): (row: MessageRow)
    requires m.from.Some?
    ensures row.direction == Inbound && row.status == Some("received")
    ensures row.fromId == m.from.value && row.toId == to && row.sentAt == SentAt(m.timestamp) && row.raw == m
    ensures m.msgType.None? ==> row.msgType == "unknown"
    ensures m.msgType.Some? ==> row.msgType == m.msgType.value
    ensures row.body.Some? ==> m.msgType == Some("text") || m.msgType == Some("interactive")
  {
    MessageRow(m.from.value, to, m.msgType.GetOr("unknown"), Body(m), Inbound, Some("received"), SentAt(m.timestamp), m)
  }

  /** The writes of the callback, in the order it makes them. */
  datatype Op = Put(message: InboundMessage, to: Option<string>) | Mark(entry: StatusEntry)

  /** from_wa_id is a NOT NULL column: writing a message without a sender raises a database error. */
  predicate Fails(op: Op) {
    op.Put? && op.message.from.None?
  }

  /**
   * A status entry's update: with a truthy id, the row with that id (if any)
   * gets the new status and time; no row is ever inserted.
   */
  function SetStatus(rows: Rows, st: StatusEntry): (r: Rows)
    ensures r.Keys == rows.Keys
  {
    if OptTruthy(st.id) && st.id in rows
    then rows[st.id := rows[st.id].(status := st.status, sentAt := SentAt(st.timestamp))]
    else rows
  }

  /** The table after one write that does not fail. */
  function Written(rows: Rows, op: Op): Rows {
    match op
    case Put(m, to) => if m.from.Some? then rows[m.id := InboundRow(m, to)] else rows
    case Mark(st) => SetStatus(rows, st)
  }

  /** The table during the callback, and whether a database error has ended the request. */
  datatype Store = Store(rows: Rows, failed: bool)

  /** One write: none after an error, an error for a message without sender, else the write. */
  function Step(s: Store, op: Op): (r: Store)
    ensures s.failed ==> r == s
    ensures !s.failed ==> r.failed == Fails(op)
    ensures !s.failed && Fails(op) ==> r.rows == s.rows
  {
    if s.failed then s
    else if Fails(op) then s.(failed := true)
    else Store(Written(s.rows, op), false)
  }

  /** The writes `ops`, one after another. */
  function Apply(s: Store, ops: seq<Op>): Store
    decreases |ops|
  {
    if |ops| == 0 then s else Apply(Step(s, ops[0]), ops[1..])
  }

  function PutOps(ms: seq<InboundMessage>, to: Option<string>): (ops: seq<Op>)
    ensures |ops| == |ms|
    decreases |ms|
  {
    if |ms| == 0 then [] else [Put(ms[0], to)] + PutOps(ms[1..], to)
  }

  function MarkOps(sts: seq<StatusEntry>): (ops: seq<Op>)
    ensures |ops| == |sts|
    decreases |sts|
  {
    if |sts| == 0 then [] else [Mark(sts[0])] + MarkOps(sts[1..])
  }

  /** A change: its messages first, then its statuses. */
  function ChangeOps(c: Change): seq<Op> {
    PutOps(c.messages, c.displayPhone) + MarkOps(c.statuses)
  }

  function ChangesOps(cs: seq<Change>): seq<Op>
    decreases |cs|
  {
    if |cs| == 0 then [] else ChangeOps(cs[0]) + ChangesOps(cs[1..])
  }

  /** The whole payload: entries in order, and their changes in order. */
  function PayloadOps(entries: seq<Entry>): seq<Op>
    decreases |entries|
  {
    if |entries| == 0 then [] else ChangesOps(entries[0].changes) + PayloadOps(entries[1..])
  }

  /** Writes after an error change nothing. */
  lemma {:induction false} ApplyFailed(s: Store, ops: seq<Op>)
    requires s.failed
    ensures Apply(s, ops) == s
    decreases |ops|
  {
    if |ops| > 0 {
      ApplyFailed(Step(s, ops[0]), ops[1..]);
    }
  }

  /** Doing `a` and then `b` is doing `a + b`. */
  lemma {:induction false} ApplyConcat(s: Store, a: seq<Op>, b: seq<Op>)
    ensures Apply(s, a + b) == Apply(Apply(s, a), b)
    decreases |a|
  {
    if |a| > 0 {
      assert (a + b)[0] == a[0];
      assert (a + b)[1..] == a[1..] + b;
      ApplyConcat(Step(s, a[0]), a[1..], b);
    } else {
      assert a + b == b;
    }
  }

  /** The response of the callback: an empty 200, or a server error after a database error. */
  datatype HandleResponse = Received | ServerError

  /** The whats_app_messages table. */
  class MessageStore {
    var rows: Rows

    constructor (initial: Rows)
      ensures rows == initial
    {
      rows := initial;
    }

    /** `WhatsAppMessage::updateOrCreate(['wa_message_id' => $waId], [...])`; fails on a missing sender. */
    method UpdateOrCreate(m: InboundMessage, to: Option<string>) returns (ok: bool)
      modifies this
      ensures ok <==> m.from.Some?
      ensures ok ==> rows == old(rows)[m.id := InboundRow(m, to)]
      ensures !ok ==> rows == old(rows)
    {
      if m.from.None? {
        return false;
      }
      rows := rows[m.id := InboundRow(m, to)];
      ok := true;
    }

    /** `WhatsAppMessage::where('wa_message_id', $wamid)->update([...])`: the matching row, if there is one. */
    method UpdateWhere(wamid: string, status: Option<string>, sentAt: Option<int>)
      modifies this
      ensures Some(wamid) in old(rows) ==> rows == old(rows)[Some(wamid) := old(rows)[Some(wamid)].(status := status, sentAt := sentAt)]
      ensures Some(wamid) !in old(rows) ==> rows == old(rows)
    {
      if Some(wamid) in rows {
        rows := rows[Some(wamid) := rows[Some(wamid)].(status := status, sentAt := sentAt)];
      }
    }
  }

  /** The `foreach` over a change's messages; stops at the first database error. */
  method HandleMessages(store: MessageStore, ms: seq<InboundMessage>, to: Option<string>) returns (ok: bool)
    modifies store
    ensures Store(store.rows, !ok) == Apply(Store(old(store.rows), false), PutOps(ms, to))
  {
    ghost var s0 := Store(store.rows, false);
    var i := 0;
    while i < |ms|
      invariant 0 <= i <= |ms|
      invariant Apply(Store(store.rows, false), PutOps(ms[i..], to)) == Apply(s0, PutOps(ms, to))
    {
      assert ms[i..][1..] == ms[i + 1..];
      var stored := store.UpdateOrCreate(ms[i], to);
      if !stored {
        ApplyFailed(Store(store.rows, true), PutOps(ms[i + 1..], to));
        return false;
      }
      i := i + 1;
    }
    assert ms[i..] == [];
    ok := true;
  }

  /** The `foreach` over a change's statuses: entries without a truthy id only log a warning. */
  method HandleStatuses(store: MessageStore, sts: seq<StatusEntry>)
    modifies store
    ensures Store(store.rows, false) == Apply(Store(old(store.rows), false), MarkOps(sts))
  {
    ghost var s0 := Store(store.rows, false);
    var i := 0;
    while i < |sts|
      invariant 0 <= i <= |sts|
      invariant Apply(Store(store.rows, false), MarkOps(sts[i..])) == Apply(s0, MarkOps(sts))
    {
      assert sts[i..][1..] == sts[i + 1..];
      var st := sts[i];
      if st.id.Some? && Truthy(st.id.value) {
        store.UpdateWhere(st.id.value, st.status, SentAt(st.timestamp));
      }
      i := i + 1;
    }
    assert sts[i..] == [];
  }

  /** One change: its messages, then, unless a write failed, its statuses. */
  method HandleChange(store: MessageStore, c: Change) returns (ok: bool)
    modifies store
    ensures Store(store.rows, !ok) == Apply(Store(old(store.rows), false), ChangeOps(c))
  {
    ApplyConcat(Store(store.rows, false), PutOps(c.messages, c.displayPhone), MarkOps(c.statuses));
    ok := HandleMessages(store, c.messages, c.displayPhone);
    if !ok {
      ApplyFailed(Store(store.rows, true), MarkOps(c.statuses));
      return;
    }
    HandleStatuses(store, c.statuses);
  }

  /** The `foreach` over an entry's changes; stops at the first database error. */
  method HandleChanges(store: MessageStore, cs: seq<Change>) returns (ok: bool)
    modifies store
    ensures Store(store.rows, !ok) == Apply(Store(old(store.rows), false), ChangesOps(cs))
  {
    ghost var s0 := Store(store.rows, false);
    var i := 0;
    while i < |cs|
      invariant 0 <= i <= |cs|
      invariant Apply(Store(store.rows, false), ChangesOps(cs[i..])) == Apply(s0, ChangesOps(cs))
    {
      assert cs[i..][1..] == cs[i + 1..];
      ghost var before := store.rows;
      ApplyConcat(Store(before, false), ChangeOps(cs[i]), ChangesOps(cs[i + 1..]));
      var changed := HandleChange(store, cs[i]);
      if !changed {
        ApplyFailed(Store(store.rows, true), ChangesOps(cs[i + 1..]));
        return false;
      }
      i := i + 1;
    }
    assert cs[i..] == [];
    ok := true;
  }

  /**
   * `handle`: every entry's changes in order.  A database error ends the
   * request with a server error, keeping what was written before it.
   */
  method Handle(store: MessageStore, entries: seq<Entry>) returns (response: HandleResponse)
    modifies store
    ensures Store(store.rows, response == ServerError) == Apply(Store(old(store.rows), false), PayloadOps(entries))
  {
    ghost var s0 := Store(store.rows, false);
    var i := 0;
    while i < |entries|
      invariant 0 <= i <= |entries|
      invariant Apply(Store(store.rows, false), PayloadOps(entries[i..])) == Apply(s0, PayloadOps(entries))
    {
      assert entries[i..][1..] == entries[i + 1..];
      ghost var before := store.rows;
      ApplyConcat(Store(before, false), ChangesOps(entries[i].changes), PayloadOps(entries[i + 1..]));
      var ok := HandleChanges(store, entries[i].changes);
      if !ok {
        ApplyFailed(Store(store.rows, true), PayloadOps(entries[i + 1..]));
        return ServerError;
      }
      i := i + 1;
    }
    assert entries[i..] == [];
    response := Received;
  }
}
