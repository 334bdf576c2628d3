/**
 The invariant of the cycle of radar_v08/claude_bridge.py: how the queue, the place
 the cycle is at and each event's account agree.
 */
module BridgeInvariant {
  import opened Numbers
  import opened Options
  import opened EventQueue
  import opened ClaudeBridge

  // --- invariant ---------------------------------------------------------------------------

  // The event at hand, if it is this one.
  predicate Involves(pc: Pc, id: EventId) { pc.At? && pc.row.id == id }

  // Where every claim, every call and every stored result of one event went; `s` is
  // the stage it is at, if it is at hand.
  predicate Conserved(t: Tally, s: Option<Stage>) {
    && t.accepted == t.cooldowns + t.uncooled + One(s == Some(Cooling))
    && t.accepted == t.calls + t.unused + One(s == Some(Cooling) || s == Some(Attempting) || s == Some(Calling))
    && t.calls == t.analyses + t.discarded + One(s.Some? && (s.value.Committing? || s.value.Recording?))
    && t.analyses == t.successes + t.failures + t.lost + One(s.Some? && s.value.Applying? && s.value.result != Success)
  }

  // A row's times: what a stale or a due row was last updated at.
  predicate Timely(c: Columns) {
    && (c.status == Processing ==> c.startedAt == Some(c.updatedAt))
    && (c.status == Deferred && c.nextAttemptAt.Some? ==> c.nextAttemptAt.value <= c.updatedAt + LONGEST_BACKOFF)
  }

  // How an event's row and its history agree.
  predicate Agrees(c: Columns, t: Tally) {
    && t.successes <= 1
    && t.failures <= c.attempts
    && t.failures + t.successes <= MAX_ATTEMPTS
    && (Open(c) && t.successes == 0 ==> t.failures < MAX_ATTEMPTS)
    && t.notices <= 1
    && (t.notices > 0 ==> c.status == Processed && t.successes == 1)
  }

  // A claimed row differs from the selected one in the claim only.
  predicate ClaimedFrom(c: Columns, row: Row) {
    c == row.cols.(status := Processing, startedAt := Some(c.updatedAt), updatedAt := c.updatedAt)
  }

  // The row of the event at hand.
  predicate RowAtHand(c: Columns, row: Row, stage: Stage) {
    if stage == Notifying || stage == MarkingNotified then c.status == Processed
    else if stage == Seen then c == row.cols && Open(c)
    else ClaimedFrom(c, row)
  }

  // Whether it has its success yet; no notice is sent twice.
  predicate TallyAtHand(t: Tally, stage: Stage) {
    && t.successes == One(stage == Applying(Success) || stage == Notifying || stage == MarkingNotified)
    && (stage == Notifying ==> t.notices == 0)
  }

  predicate EventOk(c: Columns, t: Tally) { Conserved(t, None) && Timely(c) && Agrees(c, t) }

  predicate AtHandOk(c: Columns, t: Tally, row: Row, stage: Stage) {
    Conserved(t, Some(stage)) && Timely(c) && Agrees(c, t) && RowAtHand(c, row, stage) && TallyAtHand(t, stage)
  }

  predicate PcOk(id: EventId, c: Columns, t: Tally, pc: Pc) {
    if Involves(pc, id) then AtHandOk(c, t, pc.row, pc.stage) else EventOk(c, t)
  }

  // Rows still to come: as the table has them, due, and none twice.
  ghost predicate RowsOk(w: World) {
    w.cycle.Working? ==>
      var rows := w.cycle.rows;
      && (forall i :: 0 <= i < |rows| ==> RowOk(w, rows[i]))
      && (forall i, j :: 0 <= i < j < |rows| ==> rows[i].id != rows[j].id)
  }

  predicate RowOk(w: World, row: Row)
    requires w.cycle.Working?
  {
    row.id in w.q.events && w.q.events[row.id].cols == row.cols && Actionable(row.cols, w.cycle.now)
    && !Involves(PcOf(w), row.id)
  }

  predicate CurrentOk(w: World) {
    match PcOf(w)
    case NextRow => true
    case At(row, stage) => row.id in w.q.events && RowAtHand(w.q.events[row.id].cols, row, stage)
  }

  ghost predicate QueueOk(w: World) { OneOpenPerKey(w.q) && RowsOk(w) && CurrentOk(w) }

  // One event and its account.
  predicate EventInvariant(w: World, id: EventId) {
    if id in w.q.events then PcOk(id, w.q.events[id].cols, TallyOf(w, id), PcOf(w)) else TallyOf(w, id) == ZERO
  }

  // --- steps ------------------------------------------------------------------------------------

  predicate NotReopened(c: Columns, d: Columns) { d.dedupKey == c.dedupKey && (Open(d) ==> Open(c)) }

  // What a step may do to the row.
  predicate RowStep(c: Columns, row: Row, l: Local) {
    && NotReopened(c, l.cols) && (!l.writes ==> l.cols == c) && (l.ends ==> l.pc == NextRow)
    && (l.pc.At? ==> l.pc.row == row && RowAtHand(l.cols, row, l.pc.stage))
  }

  predicate LocalOk(l: Local) {
    match l.pc
    case NextRow => EventOk(l.cols, l.tally)
    case At(row, stage) => AtHandOk(l.cols, l.tally, row, stage)
  }

  // The step leaves this event, its account and its place alone.
  predicate Untouched(w: World, v: World, id: EventId) {
    && (id in w.q.events <==> id in v.q.events)
    && (id in w.q.events ==> v.q.events[id].cols == w.q.events[id].cols)
    && TallyOf(v, id) == TallyOf(w, id) && Involves(PcOf(v), id) == Involves(PcOf(w), id)
    && (Involves(PcOf(w), id) ==> PcOf(v) == PcOf(w))
  }
}
