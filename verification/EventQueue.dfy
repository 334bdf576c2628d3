/**
 The event queue (radar_v08/store.py, radar_v08/events.py): the events table, its
 transactional outbox and deduplication. Each function that returns a `Queue` is
 one transaction: it commits as a whole or not at all. Times are microseconds.
 */
module EventQueue {
  import opened Options

  // A uuid4, as a number.
  type EventId = nat

  datatype Status = Pending | Processing | Processed | Deferred | Failed

  // The columns of an event row other than the push-delivery ones.
  datatype Columns = Columns(
    dedupKey: string, ts: int, demand: string, status: Status, attempts: nat, lastError: Option<string>,
    nextAttemptAt: Option<int>, startedAt: Option<int>, updatedAt: int, notified: bool)

  datatype Push = Push(status: Option<string>, attempts: nat, lastError: Option<string>)

  datatype Event = Event(cols: Columns, push: Push)

  // Delivery id `event:<id>:<number>` with the row as committed with the change.
  datatype OutboxRow = OutboxRow(id: EventId, number: nat, cols: Columns)

  datatype Queue = Queue(events: map<EventId, Event>, outbox: seq<OutboxRow>)

  const EMPTY := Queue(map[], [])

  predicate Open(c: Columns) { c.status == Pending || c.status == Processing || c.status == Deferred }

  // --- outbox ------------------------------------------------------------------------

  function RowsOf(outbox: seq<OutboxRow>, id: EventId): nat {
    if outbox == [] then 0
    else RowsOf(outbox[..|outbox| - 1], id) + if outbox[|outbox| - 1].id == id then 1 else 0
  }

  function LatestFor(outbox: seq<OutboxRow>, id: EventId): Option<Columns> {
    if outbox == [] then None
    else if outbox[|outbox| - 1].id == id then Some(outbox[|outbox| - 1].cols)
    else LatestFor(outbox[..|outbox| - 1], id)
  }

  // Change a row and record it, in one transaction.
  function Commit(q: Queue, id: EventId, cols: Columns): Queue
    requires id in q.events
  {
    Queue(q.events[id := q.events[id].(cols := cols)], q.outbox + [OutboxRow(id, RowsOf(q.outbox, id) + 1, cols)])
  }

  // --- transactions --------------------------------------------------------------------

  // insert_event; a duplicate id violates the primary key and rolls back.
  function InsertEvent(q: Queue, id: EventId, cols: Columns): Queue {
    if id in q.events then q
    else
      Queue(q.events[id := Event(cols, Push(None, 0, None))], q.outbox + [OutboxRow(id, RowsOf(q.outbox, id) + 1, cols)])
  }

  predicate Claimable(c: Columns) { c.status == Pending || c.status == Deferred }

  predicate Stale(c: Columns, cutoff: int) {
    c.status == Processing && c.startedAt.Some? && c.startedAt.value < cutoff
  }

  // What each UPDATE leaves of the row it matches.
  function Claimed(c: Columns, now: int): Columns { c.(status := Processing, startedAt := Some(now), updatedAt := now) }

  function Recovered(c: Columns, now: int): Columns {
    c.(status := Pending, attempts := c.attempts + 1, lastError := Some("stale_processing_recovered"),
    startedAt := None, updatedAt := now)
  }

  function AsProcessed(c: Columns, now: int): Columns {
    c.(status := Processed, startedAt := None, lastError := None, nextAttemptAt := None, updatedAt := now)
  }

  function AsDeferred(c: Columns, now: int, reason: string, next: int): Columns {
    c.(status := Deferred, attempts := c.attempts + 1, lastError := Some(reason), nextAttemptAt := Some(next),
    startedAt := None, updatedAt := now)
  }

  function AsFailed(c: Columns, now: int, reason: string): Columns {
    c.(status := Failed, attempts := c.attempts + 1, lastError := Some(reason), startedAt := None,
    nextAttemptAt := None, updatedAt := now)
  }

  function AsNotified(c: Columns, now: int): Columns { c.(notified := true, updatedAt := now) }

  // The ids of one SELECT: none twice, exactly the rows meant.
  ghost predicate NoRepeats(ids: seq<EventId>) { forall i, j :: 0 <= i < j < |ids| ==> ids[i] != ids[j] }

  ghost predicate StaleIds(q: Queue, cutoff: int, ids: seq<EventId>) {
    NoRepeats(ids) && forall id: EventId :: id in ids <==> id in q.events && Stale(q.events[id].cols, cutoff)
  }

  // The updates of recover_stale_processing, for the ids its SELECT returned.
  function RecoverAll(q: Queue, ids: seq<EventId>, now: int): Queue {
    if ids == [] then q
    else RecoverOne(RecoverAll(q, ids[..|ids| - 1], now), ids[|ids| - 1], now)
  }

  function RecoverOne(q: Queue, id: EventId, now: int): Queue {
    if id in q.events then Commit(q, id, Recovered(q.events[id].cols, now)) else q
  }

  // set_ntfy_status: push columns only, and no outbox row.
  function SetPush(q: Queue, id: EventId, push: Push): Queue {
    if id !in q.events then q else q.(events := q.events[id := q.events[id].(push := push)])
  }

  // find_actionable_events: what may be taken at this time.
  predicate Actionable(c: Columns, now: int) {
    || c.status == Pending
    || (c.status == Deferred && (c.nextAttemptAt.None? || c.nextAttemptAt.value <= now))
  }

  // --- deduplication ---------------------------------------------------------------------

  function DedupKey(asset: string, setup: string, direction: string, demand: string): string {
    asset + ":" + setup + ":" + direction + ":" + demand
  }

  predicate Plain(s: string) { ':' !in s }

  // The last separator of a text splits it in only one way.
  lemma SplitsOnce(a: string, b: string, c: string, d: string)
    requires Plain(b) && Plain(d) && a + ":" + b == c + ":" + d
    ensures a == c && b == d
  {
    var s := a + ":" + b;
    assert s[|a|] == ':' && (c + ":" + d)[|c|] == ':';
    assert s[..|a|] == a && s[|a| + 1..] == b && (c + ":" + d)[..|c|] == c && (c + ":" + d)[|c| + 1..] == d;
  }

  /** Two situations share a dedup key only if they are the same: even when the asset's name holds separators. */
  lemma DedupKeyIsInjective(a1: string, s1: string, d1: string, m1: string, a2: string, s2: string, d2: string, m2: string)
    requires Plain(s1) && Plain(d1) && Plain(m1) && Plain(s2) && Plain(d2) && Plain(m2)
    requires DedupKey(a1, s1, d1, m1) == DedupKey(a2, s2, d2, m2)
    ensures a1 == a2 && s1 == s2 && d1 == d2 && m1 == m2
  {
    SplitsOnce(a1 + ":" + s1 + ":" + d1, m1, a2 + ":" + s2 + ":" + d2, m2);
    SplitsOnce(a1 + ":" + s1, d1, a2 + ":" + s2, d2);
    SplitsOnce(a1, s1, a2, s2);
  }

  predicate HasOpen(q: Queue, key: string) {
    exists id <- q.events :: q.events[id].cols.dedupKey == key && Open(q.events[id].cols)
  }

  // create_event_if_new: look for an open event of the key, insert only if there is none.
  function CreateIfNew(q: Queue, id: EventId, cols: Columns): Queue {
    if HasOpen(q, cols.dedupKey) then q else InsertEvent(q, id, cols)
  }

  predicate Clash(a: Columns, b: Columns) { Open(a) && Open(b) && a.dedupKey == b.dedupKey }

  ghost predicate OneOpenPerKey(q: Queue) {
    forall i, j {:trigger Clash(q.events[i].cols, q.events[j].cols)} ::
      i in q.events && j in q.events && Clash(q.events[i].cols, q.events[j].cols) ==> i == j
  }

  lemma CreateKeepsOneOpen(q: Queue, id: EventId, cols: Columns)
    requires OneOpenPerKey(q)
    ensures OneOpenPerKey(CreateIfNew(q, id, cols))
  {
  }

  // --- the outbox mirrors the table ---------------------------------------------------------

  // Each event's latest outbox row carries its current columns; delivery numbers count up from 1.
  ghost predicate Mirrored(q: Queue) {
    && (forall id <- q.events :: LatestFor(q.outbox, id) == Some(q.events[id].cols))
    && (forall i :: 0 <= i < |q.outbox| ==>
          q.outbox[i].id in q.events && q.outbox[i].number == RowsOf(q.outbox[..i], q.outbox[i].id) + 1)
  }

  lemma AppendMirrors(q: Queue, id: EventId, e: Event)
    requires Mirrored(q)
    ensures Mirrored(Queue(q.events[id := e], q.outbox + [OutboxRow(id, RowsOf(q.outbox, id) + 1, e.cols)]))
  {
    var row := OutboxRow(id, RowsOf(q.outbox, id) + 1, e.cols);
    var outbox := q.outbox + [row];
    assert outbox[..|q.outbox|] == q.outbox;
    forall i | 0 <= i < |outbox| ensures outbox[i].number == RowsOf(outbox[..i], outbox[i].id) + 1 {
      assert i < |q.outbox| ==> outbox[..i] == q.outbox[..i];
    }
    forall other <- q.events[id := e] ensures LatestFor(outbox, other) == Some(q.events[id := e][other].cols) {
    }
  }

  lemma RecoverOneMirrors(q: Queue, id: EventId, now: int)
    requires Mirrored(q)
    ensures Mirrored(RecoverOne(q, id, now))
  {
    hide Mirrored, Recovered;
    if id in q.events {
      AppendMirrors(q, id, q.events[id].(cols := Recovered(q.events[id].cols, now)));
    }
  }

  lemma {:induction false} RecoverMirrors(q: Queue, ids: seq<EventId>, now: int)
    requires Mirrored(q)
    ensures Mirrored(RecoverAll(q, ids, now))
  {
    if ids != [] {
      RecoverMirrors(q, ids[..|ids| - 1], now);
      RecoverOneMirrors(RecoverAll(q, ids[..|ids| - 1], now), ids[|ids| - 1], now);
    }
  }

  lemma {:induction false} RowsOfGrows(outbox: seq<OutboxRow>, i: nat, j: nat, id: EventId)
    requires i <= j <= |outbox|
    ensures RowsOf(outbox[..i], id) <= RowsOf(outbox[..j], id)
    ensures i < j && outbox[i].id == id ==> RowsOf(outbox[..i], id) < RowsOf(outbox[..j], id)
    decreases j
  {
    if i < j {
      assert outbox[..j][..j - 1] == outbox[..j - 1];
      RowsOfGrows(outbox, i, j - 1, id);
    }
  }

  /** No delivery id is ever used twice. */
  lemma DeliveryIdsUnique(q: Queue, i: nat, j: nat)
    requires Mirrored(q) && i < j < |q.outbox| && q.outbox[i].id == q.outbox[j].id
    ensures q.outbox[i].number < q.outbox[j].number
  {
    RowsOfGrows(q.outbox, i, j, q.outbox[i].id);
  }

  // What recovery leaves of each row, when no id is listed twice.
  lemma {:induction false} RecoverEffect(q: Queue, ids: seq<EventId>, now: int)
    requires (forall id <- ids :: id in q.events) && (forall i, j :: 0 <= i < j < |ids| ==> ids[i] != ids[j])
    ensures var r := RecoverAll(q, ids, now);
            && r.events.Keys == q.events.Keys
            && forall id <- q.events ::
                 r.events[id] == if id in ids then q.events[id].(cols := Recovered(q.events[id].cols, now)) else q.events[id]
  {
    if ids != [] {
      var front, last := ids[..|ids| - 1], ids[|ids| - 1];
      assert ids == front + [last];
      RecoverEffect(q, front, now);
      assert last !in front;
    }
  }
}
