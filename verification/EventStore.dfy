/**
 The event lifecycle methods of radar_v08/store.py over its two tables. Each method is
 one transaction: the row and its outbox row are written together, so what a reader
 of the outbox sees last is always what the table holds.
 */
module EventStore {
  import opened Options
  import opened EventQueue

  class Store {
    var events: map<EventId, Event>
    var outbox: seq<OutboxRow>

    function View(): Queue
      reads this
    {
      Queue(events, outbox)
    }

    ghost predicate Valid()
      reads this
    {
      Mirrored(View())
    }

    constructor ()
      ensures Valid() && View() == EMPTY
    {
      events, outbox := map[], [];
    }

    // An UPDATE of one existing row, with its outbox row.
    method Update(id: EventId, cols: Columns)
      requires Valid() && id in events
      modifies this
      ensures Valid() && View() == Commit(old(View()), id, cols)
    {
      AppendMirrors(View(), id, events[id].(cols := cols));
      outbox := outbox + [OutboxRow(id, RowsOf(outbox, id) + 1, cols)];
      events := events[id := events[id].(cols := cols)];
    }

    method InsertEvent(id: EventId, cols: Columns)
      requires Valid()
      modifies this
      ensures Valid() && View() == EventQueue.InsertEvent(old(View()), id, cols)
    {
      hide Mirrored;
      if id !in events {
        var event := Event(cols, Push(None, 0, None));
        AppendMirrors(View(), id, event);
        outbox := outbox + [OutboxRow(id, RowsOf(outbox, id) + 1, cols)];
        events := events[id := event];
      }
    }

    // Only a row still PENDING or DEFERRED is claimed.
    method ClaimEventForProcessing(id: EventId, now: int) returns (claimed: bool)
      requires Valid()
      modifies this
      ensures Valid() && (claimed <==> id in old(events) && Claimable(old(events)[id].cols))
      ensures View() == if claimed then Commit(old(View()), id, Claimed(old(events)[id].cols, now)) else old(View())
    {
      claimed := id in events && Claimable(events[id].cols);
      if claimed {
        Update(id, Claimed(events[id].cols, now));
      }
    }

    // The rows that are PROCESSING since before the cutoff.
    method SelectStale(cutoff: int) returns (ids: seq<EventId>)
      ensures StaleIds(View(), cutoff, ids)
    {
      ids := [];
      var left := events.Keys;
      while left != {}
        invariant left <= events.Keys && NoRepeats(ids)
        invariant forall id: EventId :: id in ids <==> id in events && id !in left && Stale(events[id].cols, cutoff)
        decreases |left|
      {
        var id :| id in left;
        left := left - {id};
        if Stale(events[id].cols, cutoff) {
          ids := ids + [id];
        }
      }
    }

    method RecoverStaleProcessing(cutoff: int, now: int) returns (ids: seq<EventId>)
      requires Valid()
      modifies this
      ensures Valid() && StaleIds(old(View()), cutoff, ids) && View() == RecoverAll(old(View()), ids, now)
    {
      ids := SelectStale(cutoff);
      ghost var before := View();
      for i := 0 to |ids|
        invariant Valid() && View() == RecoverAll(before, ids[..i], now) && events.Keys == before.events.Keys
      {
        assert ids[..i + 1][..i] == ids[..i];
        assert ids[i] in ids;
        Update(ids[i], Recovered(events[ids[i]].cols, now));
      }
      assert ids[..|ids|] == ids;
    }

    method MarkEventProcessed(id: EventId, now: int)
      requires Valid()
      modifies this
      ensures Valid()
      ensures View() == if id in old(events) then Commit(old(View()), id, AsProcessed(old(events)[id].cols, now)) else old(View())
    {
      if id in events {
        Update(id, AsProcessed(events[id].cols, now));
      }
    }

    method MarkEventDeferred(id: EventId, now: int, reason: string, next: int)
      requires Valid()
      modifies this
      ensures Valid()
      ensures View() == if id in old(events) then Commit(old(View()), id, AsDeferred(old(events)[id].cols, now, reason, next))
                        else old(View())
    {
      if id in events {
        Update(id, AsDeferred(events[id].cols, now, reason, next));
      }
    }

    method MarkEventFailed(id: EventId, now: int, reason: string)
      requires Valid()
      modifies this
      ensures Valid()
      ensures View() == if id in old(events) then Commit(old(View()), id, AsFailed(old(events)[id].cols, now, reason))
                        else old(View())
    {
      if id in events {
        Update(id, AsFailed(events[id].cols, now, reason));
      }
    }

    method MarkEventNotified(id: EventId, now: int)
      requires Valid()
      modifies this
      ensures Valid()
      ensures View() == if id in old(events) then Commit(old(View()), id, AsNotified(old(events)[id].cols, now)) else old(View())
    {
      if id in events {
        Update(id, AsNotified(events[id].cols, now));
      }
    }

    // Push columns only, and no outbox row; only a failure counts as an attempt.
    method SetNtfyStatus(id: EventId, status: string, error: Option<string>)
      requires Valid()
      modifies this
      ensures Valid() && outbox == old(outbox)
      ensures id in old(events) ==>
                var before := old(events)[id].push;
                View() == SetPush(old(View()), id, Push(Some(status), before.attempts + if status == "FAILED" then 1 else 0, error))
      ensures id !in old(events) ==> View() == old(View())
    {
      if id in events {
        var push := Push(Some(status), events[id].push.attempts + if status == "FAILED" then 1 else 0, error);
        ghost var before := View();
        events := events[id := events[id].(push := push)];
        assert View() == SetPush(before, id, push);
      }
    }

    // The newest open event of the key.
    method FindOpenEventByDedup(key: string) returns (found: Option<EventId>)
      ensures found.Some? <==> HasOpen(View(), key)
      ensures found.Some? ==> IsOpen(found.value, key)
      ensures found.Some? ==> forall id <- events :: IsOpen(id, key) ==> events[id].cols.ts <= events[found.value].cols.ts
    {
      found := None;
      var left := events.Keys;
      while left != {}
        invariant left <= events.Keys
        invariant found.None? ==> forall id <- events :: id !in left ==> !IsOpen(id, key)
        invariant found.Some? ==> IsOpen(found.value, key)
        invariant found.Some? ==>
                    forall id <- events :: id !in left && IsOpen(id, key) ==> events[id].cols.ts <= events[found.value].cols.ts
        decreases |left|
      {
        var id :| id in left;
        if IsOpen(id, key) && (found.None? || events[found.value].cols.ts < events[id].cols.ts) {
          found := Some(id);
        }
        left := left - {id};
      }
    }

    predicate IsOpen(id: EventId, key: string)
      reads this
    {
      id in events && events[id].cols.dedupKey == key && Open(events[id].cols)
    }

    // create_event_if_new of radar_v08/events.py; None when the id is taken and the insert fails.
    method CreateEventIfNew(id: EventId, cols: Columns) returns (event: Option<EventId>, created: bool)
      requires Valid()
      modifies this
      ensures Valid() && View() == CreateIfNew(old(View()), id, cols)
      ensures created <==> !HasOpen(old(View()), cols.dedupKey) && id !in old(events)
      ensures created ==> event == Some(id) && id in events && events[id].cols == cols
      ensures !created && event.Some? ==> HasOpen(old(View()), cols.dedupKey) && event.value in events
                                          && events[event.value].cols.dedupKey == cols.dedupKey && Open(events[event.value].cols)
      ensures event.None? ==> id in old(events)
    {
      var existing := FindOpenEventByDedup(cols.dedupKey);
      if existing.Some? {
        return existing, false;
      }
      created := id !in events;
      InsertEvent(id, cols);
      event := if created then Some(id) else None;
    }
  }
}
