/**
 Several bridge cycles at once over one queue and one invocation ledger, as when two
 processes run (radar_v08/claude_bridge.py:16-27): what the lease fence keeps without
 any assumption on timing, and what it keeps only if no cycle stalls with an event in
 hand until the event is handed back.
 */
module OverlappingCycles {
  import opened Numbers
  import opened Options
  import opened EventQueue
  import opened ClaudeBridge
  import Composed = BridgeAndLedger
  import Ledger = InvocationLedger

  // One cycle and the lease of its last won claim.
  datatype Desk = Desk(cycle: Cycle, lease: Ledger.Lease)

  datatype Office = Office(q: Queue, tallies: EventId -> Tally, ledger: Ledger.Ledger, desks: seq<Desk>)

  // What one cycle sees.
  function View(s: Office, i: nat): Composed.System
    requires i < |s.desks|
  {
    Composed.System(World(s.q, s.desks[i].cycle, s.tallies), s.ledger, s.desks[i].lease)
  }

  // What it leaves.
  function Left(s: Office, i: nat, v: Composed.System): Office
    requires i < |s.desks|
  {
    Office(v.world.q, v.world.tallies, v.ledger, s.desks[i := Desk(v.world.cycle, v.lease)])
  }

  datatype Turn = Turn(desk: nat, m: Composed.Move)

  ghost predicate Possible(s: Office, t: Turn) { t.desk < |s.desks| && Composed.Possible(View(s, t.desk), t.m) }

  ghost function Apply(s: Office, cfg: Composed.Setting, t: Turn): Office
    requires Possible(s, t)
  {
    Left(s, t.desk, Composed.Apply(View(s, t.desk), cfg, t.m))
  }

  function Opened(n: nat): Office {
    Office(EMPTY, START.tallies, Ledger.EMPTY, seq(n, _ => Desk(Idle, Composed.START.lease)))
  }

  ghost function Run(cfg: Composed.Setting, n: nat, turns: seq<Turn>): Office {
    if turns == [] then Opened(n)
    else
      var s, t := Run(cfg, n, turns[..|turns| - 1]), turns[|turns| - 1];
      if Possible(s, t) then Apply(s, cfg, t) else s
  }

  // --- counting desks -------------------------------------------------------------------------

  function PcAt(d: Desk): Pc { if d.cycle.Working? then d.cycle.pc else NextRow }

  function Count(desks: seq<Desk>, p: Pc -> bool): nat {
    if desks == [] then 0 else Count(desks[..|desks| - 1], p) + One(p(PcAt(desks[|desks| - 1])))
  }

  lemma {:induction false} CountUpdated(desks: seq<Desk>, i: nat, d: Desk, p: Pc -> bool)
    requires i < |desks|
    ensures Count(desks[i := d], p) + One(p(PcAt(desks[i]))) == Count(desks, p) + One(p(PcAt(d)))
  {
    var n := |desks| - 1;
    if i < n {
      CountUpdated(desks[..n], i, d, p);
      assert desks[i := d][..n] == desks[..n][i := d];
    } else {
      assert desks[i := d][..n] == desks[..n];
    }
  }

  lemma {:induction false} CountAtLeast(desks: seq<Desk>, i: nat, p: Pc -> bool)
    requires i < |desks| && p(PcAt(desks[i]))
    ensures Count(desks, p) >= 1
  {
    if i < |desks| - 1 {
      CountAtLeast(desks[..|desks| - 1], i, p);
    }
  }

  lemma {:induction false} CountAtLeastTwo(desks: seq<Desk>, i: nat, j: nat, p: Pc -> bool)
    requires i < j < |desks| && p(PcAt(desks[i])) && p(PcAt(desks[j]))
    ensures Count(desks, p) >= 2
  {
    if j < |desks| - 1 {
      CountAtLeastTwo(desks[..|desks| - 1], i, j, p);
    } else {
      CountAtLeast(desks[..|desks| - 1], i, p);
    }
  }

  lemma {:induction false} CountNone(desks: seq<Desk>, p: Pc -> bool)
    requires forall i :: 0 <= i < |desks| ==> !p(PcAt(desks[i]))
    ensures Count(desks, p) == 0
  {
    if desks != [] {
      CountNone(desks[..|desks| - 1], p);
    }
  }

  // --- payment ------------------------------------------------------------------------------------

  function Caller(model: string): Pc -> bool { (pc: Pc) => pc.At? && pc.row.cols.demand == model && pc.stage == Calling }

  function Keeper(model: string): Pc -> bool { (pc: Pc) => pc.At? && pc.row.cols.demand == model && pc.stage.Recording? }

  predicate MakesCall(s: Office, t: Turn, model: string)
    requires t.desk < |s.desks|
  {
    Composed.Steps(t.m) && Composed.AboutToCall(View(s, t.desk).world, model)
  }

  predicate StoresResult(s: Office, t: Turn, model: string)
    requires t.desk < |s.desks|
  {
    Composed.Steps(t.m) && Composed.AboutToStore(View(s, t.desk).world, model)
  }

  ghost function CallsOf(cfg: Composed.Setting, n: nat, turns: seq<Turn>, model: string): nat {
    if turns == [] then 0
    else
      var s, t := Run(cfg, n, turns[..|turns| - 1]), turns[|turns| - 1];
      CallsOf(cfg, n, turns[..|turns| - 1], model) + One(Possible(s, t) && MakesCall(s, t, model))
  }

  ghost function ResultsOf(cfg: Composed.Setting, n: nat, turns: seq<Turn>, model: string): nat {
    if turns == [] then 0
    else
      var s, t := Run(cfg, n, turns[..|turns| - 1]), turns[|turns| - 1];
      ResultsOf(cfg, n, turns[..|turns| - 1], model) + One(Possible(s, t) && StoresResult(s, t, model))
  }

  ghost predicate AllHeld(s: Office) { forall i: nat :: i < |s.desks| ==> Composed.Held(View(s, i)) }

  // Calls made or about to be made at any desk are recorded attempts; results are endings.
  predicate Covered(s: Office, calls: nat, results: nat, model: string) {
    && calls + Count(s.desks, Caller(model)) <= Ledger.SumAttempts(s.ledger.invocations, model)
    && results + Count(s.desks, Keeper(model)) <= Composed.Ended(s.ledger.invocations, model)
  }

  // The ledger keeps every invocation with its model.
  predicate Grew(l: Ledger.Ledger, m: Ledger.Ledger) {
    |l.invocations| <= |m.invocations| && forall k :: 0 <= k < |l.invocations| ==> m.invocations[k].model == l.invocations[k].model
  }

  lemma TransactionGrows(l: Ledger.Ledger, budgets: Ledger.Budgets, t: Ledger.Action)
    ensures Grew(l, Ledger.Apply(l, budgets, t))
  {
    hide Ledger.Apply, Composed.OneRow;
    var id := Composed.TransactionIsOneRow(l, budgets, t);
    Composed.OneRowGrows(l.invocations, Ledger.Apply(l, budgets, t).invocations, id, "");
  }

  lemma MoveGrows(s: Composed.System, cfg: Composed.Setting, m: Composed.Move)
    requires Composed.Possible(s, m)
    ensures Grew(s.ledger, Composed.Apply(s, cfg, m).ledger)
  {
    hide ClaudeBridge.Apply, Enabled, Grew, Ledger.ClaimInvocation, Ledger.RecordAttempt, Ledger.EndInvocation;
    match m
    case BridgeMoves(_) => SameGrew(s.ledger);
    case LedgerMoves(t) => TransactionGrows(s.ledger, cfg.budgets, t);
    case BridgeTransacts(_, _, _, _) =>
      var row, stage := PcOf(s.world).row, PcOf(s.world).stage;
      TransactionGrows(s.ledger, cfg.budgets, Ledger.DoClaim(cfg.identity(row.id), row.cols.demand, m.owner, m.now, m.expiresAt));
      TransactionGrows(s.ledger, cfg.budgets, Ledger.DoAttempt(s.lease, m.now));
      TransactionGrows(s.ledger, cfg.budgets, Ledger.DoEnd(s.lease, m.now, stage.Committing? && stage.result == Success));
  }

  lemma SameGrew(l: Ledger.Ledger)
    ensures Grew(l, l)
  {
  }

  lemma HeldElsewhere(s: Office, t: Office, i: nat)
    requires i < |s.desks| == |t.desks| && t.desks[i] == s.desks[i] && Grew(s.ledger, t.ledger) && Composed.Held(View(s, i))
    ensures Composed.Held(View(t, i))
  {
  }

  lemma TurnIsCovered(s: Office, cfg: Composed.Setting, t: Turn, calls: nat, results: nat, model: string)
    requires Possible(s, t) && AllHeld(s) && Covered(s, calls, results, model)
    ensures AllHeld(Apply(s, cfg, t))
    ensures Covered(Apply(s, cfg, t), calls + One(MakesCall(s, t, model)), results + One(StoresResult(s, t, model)), model)
  {
    hide Composed.Apply, Composed.Possible, Composed.Held, AllHeld, Ledger.SumAttempts, Composed.Ended;
    var w, v := View(s, t.desk), Composed.Apply(View(s, t.desk), cfg, t.m);
    var d := Desk(v.world.cycle, v.lease);
    CountUpdated(s.desks, t.desk, d, Caller(model));
    CountUpdated(s.desks, t.desk, d, Keeper(model));
    CountAtLeastOwn(s.desks, t.desk, Caller(model));
    CountAtLeastOwn(s.desks, t.desk, Keeper(model));
    var others := Count(s.desks, Caller(model)) - One(Composed.AboutToCall(w.world, model));
    var keepers := Count(s.desks, Keeper(model)) - One(Composed.AboutToStore(w.world, model));
    assert Composed.Held(w) by {
      DeskHeld(s, t.desk);
    }
    Composed.MoveIsCovered(w, cfg, t.m, calls + others, results + keepers, model, v);
    assert AllHeld(Apply(s, cfg, t)) by {
      MoveGrows(w, cfg, t.m);
      forall i: nat | i < |s.desks| ensures Composed.Held(View(Apply(s, cfg, t), i)) {
        if i != t.desk {
          DeskHeld(s, i);
          HeldElsewhere(s, Apply(s, cfg, t), i);
        }
      }
      HeldEverywhere(Apply(s, cfg, t));
    }
  }

  lemma HeldEverywhere(s: Office)
    requires forall i: nat :: i < |s.desks| ==> Composed.Held(View(s, i))
    ensures AllHeld(s)
  {
  }

  lemma DeskHeld(s: Office, i: nat)
    requires AllHeld(s) && i < |s.desks|
    ensures Composed.Held(View(s, i))
  {
  }

  lemma CountAtLeastOwn(desks: seq<Desk>, i: nat, p: Pc -> bool)
    requires i < |desks|
    ensures Count(desks, p) >= One(p(PcAt(desks[i])))
  {
    if p(PcAt(desks[i])) {
      CountAtLeast(desks, i, p);
    }
  }

  lemma OpenedIsCovered(cfg: Composed.Setting, n: nat, model: string)
    ensures AllHeld(Opened(n)) && Covered(Opened(n), 0, 0, model) && Ledger.Ok(Opened(n).ledger, cfg.budgets)
  {
    hide Ledger.Ok, Ledger.SumAttempts, Composed.Ended;
    Ledger.EmptyOk(cfg.budgets);
    CountNone(Opened(n).desks, Caller(model));
    CountNone(Opened(n).desks, Keeper(model));
  }

  lemma {:induction false} RunIsCovered(cfg: Composed.Setting, n: nat, turns: seq<Turn>, model: string)
    ensures var s := Run(cfg, n, turns);
            && AllHeld(s) && Covered(s, CallsOf(cfg, n, turns, model), ResultsOf(cfg, n, turns, model), model)
            && Ledger.Ok(s.ledger, cfg.budgets)
  {
    hide AllHeld, Covered, Ledger.Ok, MakesCall, StoresResult, Opened, Composed.Apply, Composed.Possible;
    if turns == [] {
      OpenedIsCovered(cfg, n, model);
    } else {
      var front, t := turns[..|turns| - 1], turns[|turns| - 1];
      RunIsCovered(cfg, n, front, model);
      var s := Run(cfg, n, front);
      if Possible(s, t) {
        TurnIsCovered(s, cfg, t, CallsOf(cfg, n, front, model), ResultsOf(cfg, n, front, model), model);
        Composed.MoveKeepsLedger(View(s, t.desk), cfg, t.m);
      }
    }
  }

  /**
   Payment needs no assumption on timing: for any number of cycles in any interleaving,
   calls of a model are at most its recorded attempts and those at most its reserved
   units, and stored results are at most the invocations that ended.
   */
  lemma OverlappingCallsArePaid(cfg: Composed.Setting, n: nat, turns: seq<Turn>, model: string, hourly: bool)
    ensures var l := Run(cfg, n, turns).ledger;
            && CallsOf(cfg, n, turns, model) <= Ledger.SumAttempts(l.invocations, model) <= Ledger.TotalReserved(l.reserved, model, hourly)
            && ResultsOf(cfg, n, turns, model) <= Composed.Ended(l.invocations, model)
  {
    RunIsCovered(cfg, n, turns, model);
    Ledger.AttemptsAtMostUnits(Run(cfg, n, turns).ledger.invocations, model);
  }

  // --- one success, one notice ---------------------------------------------------------------

  // The stages between the claim of the row and its outcome.
  predicate Owner(stage: Stage) { stage != Seen && stage != Notifying && stage != MarkingNotified }

  function Owns(id: EventId): Pc -> bool { (pc: Pc) => pc.At? && pc.row.id == id && Owner(pc.stage) }

  // A success that may still be notified.
  function MayNotify(id: EventId): Pc -> bool {
    (pc: Pc) => pc.At? && pc.row.id == id && (pc.stage == Applying(Success) || pc.stage == Notifying)
  }

  // What a desk at a stage with an event knows of its row and its successes.
  predicate DeskOk(c: Columns, t: Tally, stage: Stage) {
    match stage
    case Seen => t.successes == 1 ==> !Claimable(c)
    case Applying(Success) => t.successes == 1 && (c.status == Processing || c.status == Processed)
    case Notifying => t.successes == 1
    case MarkingNotified => t.successes == 1
    case _ => t.successes == 0 && c.status == Processing
  }

  predicate Fits(c: Columns, t: Tally) {
    t.successes <= 1 && (t.successes == 1 ==> c.status == Processing || c.status == Processed || c.status == Pending)
  }

  ghost predicate DesksOk(s: Office, id: EventId)
    requires id in s.q.events
  {
    forall j :: 0 <= j < |s.desks| ==> PcOk(PcAt(s.desks[j]), id, s.q.events[id].cols, s.tallies(id))
  }

  predicate PcOk(pc: Pc, id: EventId, c: Columns, t: Tally) { pc.At? && pc.row.id == id ==> DeskOk(c, t, pc.stage) }

  predicate Away(pc: Pc, id: EventId) { pc.At? ==> pc.row.id != id }

  ghost predicate EventOk(s: Office, id: EventId) {
    if id in s.q.events then
      && Fits(s.q.events[id].cols, s.tallies(id)) && DesksOk(s, id)
      && Count(s.desks, Owns(id)) <= 1
      && s.tallies(id).notices + Count(s.desks, MayNotify(id)) <= s.tallies(id).successes
    else
      s.tallies(id) == ZERO && forall j :: 0 <= j < |s.desks| ==> Away(PcAt(s.desks[j]), id)
  }

  // --- one step at the event it is about ----------------------------------------------------------

  // What a step does to its event, given how many other desks own it and may notify it.
  predicate StepFits(id: EventId, owners: nat, notifiers: nat, l: Local) {
    && Fits(l.cols, l.tally) && PcOk(l.pc, id, l.cols, l.tally)
    && owners + One(Owns(id)(l.pc)) <= 1
    && l.tally.notices + notifiers + One(MayNotify(id)(l.pc)) <= l.tally.successes
  }

  // The other desks' knowledge stays true; none of them owns the event if this one does.
  ghost predicate OthersKeep(c: Columns, t: Tally, owners: nat, l: Local) {
    forall stage: Stage :: DeskOk(c, t, stage) && (Owner(stage) ==> owners >= 1) ==> DeskOk(l.cols, l.tally, stage)
  }

  predicate Ready(c: Columns, t: Tally, pc: Pc, id: EventId, owners: nat, notifiers: nat) {
    && Fits(c, t) && PcOk(pc, id, c, t) && owners + One(Owns(id)(pc)) <= 1
    && t.notices + notifiers + One(MayNotify(id)(pc)) <= t.successes
  }

  lemma TakeRowFits(c: Columns, t: Tally, row: Row, now: int, owners: nat, notifiers: nat)
    requires Ready(c, t, NextRow, row.id, owners, notifiers)
    ensures var l := TakeRow(c, t, row, now); StepFits(row.id, owners, notifiers, l) && OthersKeep(c, t, owners, l)
  {
  }

  // Whoever owns an event has it PROCESSING, or a success of it stored.
  predicate OwnedIsTaken(c: Columns, t: Tally, owners: nat) { owners >= 1 ==> c.status == Processing || c.status == Processed }

  lemma SeenFits(c: Columns, t: Tally, row: Row, now: int, a: Action, owners: nat, notifiers: nat)
    requires a.Step? && Ready(c, t, At(row, Seen), row.id, owners, notifiers) && OwnedIsTaken(c, t, owners)
    ensures var l := Continue(c, t, row, now, Seen, a);
            StepFits(row.id, owners, notifiers, l) && OthersKeep(c, t, owners, l)
  {
  }

  lemma OwnerFits(c: Columns, t: Tally, row: Row, now: int, stage: Stage, a: Action, owners: nat, notifiers: nat)
    requires a.Step? && Owner(stage) && Ready(c, t, At(row, stage), row.id, owners, notifiers)
    ensures var l := Continue(c, t, row, now, stage, a);
            StepFits(row.id, owners, notifiers, l) && OthersKeep(c, t, owners, l)
  {
  }

  lemma NoticeFits(c: Columns, t: Tally, row: Row, now: int, stage: Stage, a: Action, owners: nat, notifiers: nat)
    requires a.Step? && (stage == Notifying || stage == MarkingNotified) && Ready(c, t, At(row, stage), row.id, owners, notifiers)
    ensures var l := Continue(c, t, row, now, stage, a);
            StepFits(row.id, owners, notifiers, l) && OthersKeep(c, t, owners, l)
  {
  }

  // --- one turn at every event ---------------------------------------------------------------------------

  // The office after one desk's world and lease moved.
  function Moved(s: Office, i: nat, v: World, ledger: Ledger.Ledger, lease: Ledger.Lease): Office
    requires i < |s.desks|
  {
    Office(v.q, v.tallies, ledger, s.desks[i := Desk(v.cycle, lease)])
  }

  predicate SamePlace(p: Pc, q: Pc, id: EventId) { p == q || (Away(p, id) && Away(q, id)) }

  // Nothing about this event moved.
  predicate Still(s: Office, i: nat, v: World, id: EventId)
    requires i < |s.desks|
  {
    && (id in s.q.events <==> id in v.q.events)
    && (id in s.q.events ==> v.q.events[id].cols == s.q.events[id].cols)
    && v.tallies(id) == s.tallies(id) && SamePlace(PcAt(s.desks[i]), PcOf(v), id)
  }

  lemma StillKeeps(s: Office, i: nat, v: World, ledger: Ledger.Ledger, lease: Ledger.Lease, id: EventId)
    requires i < |s.desks| && EventOk(s, id) && Still(s, i, v, id)
    ensures EventOk(Moved(s, i, v, ledger, lease), id)
  {
    hide DeskOk, Fits, Owner;
    var u, d := Moved(s, i, v, ledger, lease), Desk(v.cycle, lease);
    CountUpdated(s.desks, i, d, Owns(id));
    CountUpdated(s.desks, i, d, MayNotify(id));
    assert PcAt(d) == PcOf(v);
    if id in s.q.events {
      forall j | 0 <= j < |u.desks| ensures PcOk(PcAt(u.desks[j]), id, u.q.events[id].cols, u.tallies(id)) {
        assert PcOk(PcAt(s.desks[j]), id, s.q.events[id].cols, s.tallies(id));
      }
    }
  }

  // An event at hand at one desk, and the others'.
  lemma HereKeeps(s: Office, i: nat, v: World, ledger: Ledger.Ledger, lease: Ledger.Lease, id: EventId, l: Local)
    requires i < |s.desks| && id in s.q.events && EventOk(s, id)
    requires id in v.q.events && v.q.events[id].cols == l.cols && v.tallies(id) == l.tally && PcOf(v) == l.pc
    requires var owners, notifiers := Count(s.desks, Owns(id)) - One(Owns(id)(PcAt(s.desks[i]))),
                                      Count(s.desks, MayNotify(id)) - One(MayNotify(id)(PcAt(s.desks[i])));
             && owners >= 0 && notifiers >= 0 && StepFits(id, owners, notifiers, l)
             && OthersKeep(s.q.events[id].cols, s.tallies(id), owners, l)
    ensures EventOk(Moved(s, i, v, ledger, lease), id)
  {
    hide DeskOk, Fits, Owner;
    var u, d := Moved(s, i, v, ledger, lease), Desk(v.cycle, lease);
    CountUpdated(s.desks, i, d, Owns(id));
    CountUpdated(s.desks, i, d, MayNotify(id));
    assert PcAt(d) == PcOf(v);
    forall j | 0 <= j < |u.desks| ensures PcOk(PcAt(u.desks[j]), id, l.cols, l.tally) {
      if j != i {
        OtherDesk(s, i, j, id, l);
      }
    }
  }

  lemma OtherDesk(s: Office, i: nat, j: nat, id: EventId, l: Local)
    requires i < |s.desks| && j < |s.desks| && i != j && id in s.q.events && DesksOk(s, id)
    requires var owners := Count(s.desks, Owns(id)) - One(Owns(id)(PcAt(s.desks[i])));
             owners >= 0 && OthersKeep(s.q.events[id].cols, s.tallies(id), owners, l)
    ensures PcOk(PcAt(s.desks[j]), id, l.cols, l.tally)
  {
    hide DeskOk, Owner;
    var pc := PcAt(s.desks[j]);
    if pc.At? && pc.row.id == id {
      assert PcOk(pc, id, s.q.events[id].cols, s.tallies(id));
      if Owner(pc.stage) {
        CountAtLeast(s.desks, j, Owns(id));
        if Owns(id)(PcAt(s.desks[i])) {
          CountAtLeastTwo(s.desks, if i < j then i else j, if i < j then j else i, Owns(id));
        }
      }
    }
  }

  // Whoever else owns the event has it taken or processed.
  lemma OwnersMeanTaken(s: Office, i: nat, id: EventId)
    requires i < |s.desks| && id in s.q.events && EventOk(s, id) && Count(s.desks, Owns(id)) >= 1
    ensures s.q.events[id].cols.status == Processing || s.q.events[id].cols.status == Processed
  {
    if forall j :: 0 <= j < |s.desks| ==> !Owns(id)(PcAt(s.desks[j])) {
      CountNone(s.desks, Owns(id));
    } else {
      var j :| 0 <= j < |s.desks| && Owns(id)(PcAt(s.desks[j]));
      assert PcOk(PcAt(s.desks[j]), id, s.q.events[id].cols, s.tallies(id));
    }
  }

  // A step leaves its event's row, account and place as computed, and nothing else.
  lemma StepShape(w: World, a: Action, row: Row, id: EventId)
    requires Enabled(w, a) && a.Step? && Subject(w) == Some(row)
    ensures var v, l := Advance(w, a), StepAbout(w, row, a);
            && (row.id == id ==> id in v.q.events && v.q.events[id].cols == l.cols && v.tallies(id) == l.tally && PcOf(v) == l.pc)
            && (row.id != id ==>
                  && (id in w.q.events <==> id in v.q.events) && (id in w.q.events ==> v.q.events[id].cols == w.q.events[id].cols)
                  && v.tallies(id) == w.tallies(id) && Away(PcOf(w), id) && Away(PcOf(v), id))
  {
    LocalShape(w, a, row);
  }

  lemma LocalShape(w: World, a: Action, row: Row)
    requires w.cycle.Working? && row.id in w.q.events && a.Step? && (w.cycle.pc.At? ==> w.cycle.pc.row == row)
    ensures var l := StepAbout(w, row, a);
            && (!l.writes ==> l.cols == w.q.events[row.id].cols) && (l.ends ==> l.pc == NextRow) && (l.pc.At? ==> l.pc.row == row)
  {
  }

  lemma StepFitsHere(s: Office, i: nat, w: World, a: Action, row: Row)
    requires i < |s.desks| && w == World(s.q, s.desks[i].cycle, s.tallies) && EventOk(s, row.id)
    requires Enabled(w, a) && a.Step? && Subject(w) == Some(row)
    ensures var owners, notifiers := Count(s.desks, Owns(row.id)) - One(Owns(row.id)(PcAt(s.desks[i]))),
                                     Count(s.desks, MayNotify(row.id)) - One(MayNotify(row.id)(PcAt(s.desks[i])));
            var l := StepAbout(w, row, a);
            && owners >= 0 && notifiers >= 0 && StepFits(row.id, owners, notifiers, l)
            && OthersKeep(s.q.events[row.id].cols, s.tallies(row.id), owners, l)
  {
    hide DeskOk, Fits, StepFits, OthersKeep, Continue, TakeRow;
    var id, c, t := row.id, s.q.events[row.id].cols, s.tallies(row.id);
    CountAtLeastOwn(s.desks, i, Owns(id));
    CountAtLeastOwn(s.desks, i, MayNotify(id));
    var owners := Count(s.desks, Owns(id)) - One(Owns(id)(PcAt(s.desks[i])));
    var notifiers := Count(s.desks, MayNotify(id)) - One(MayNotify(id)(PcAt(s.desks[i])));
    assert PcOk(PcAt(s.desks[i]), id, c, t);
    if owners >= 1 {
      OwnersMeanTaken(s, i, id);
    }
    match w.cycle.pc
    case NextRow => TakeRowFits(c, t, row, w.cycle.now, owners, notifiers);
    case At(_, stage) =>
      if stage == Seen {
        SeenFits(c, t, row, w.cycle.now, a, owners, notifiers);
      } else if Owner(stage) {
        OwnerFits(c, t, row, w.cycle.now, stage, a, owners, notifiers);
      } else {
        NoticeFits(c, t, row, w.cycle.now, stage, a, owners, notifiers);
      }
  }

  lemma StepTurnKeeps(s: Office, i: nat, w: World, a: Action, ledger: Ledger.Ledger, lease: Ledger.Lease, id: EventId, v: World)
    requires i < |s.desks| && w == World(s.q, s.desks[i].cycle, s.tallies) && EventOk(s, id)
    requires Enabled(w, a) && a.Step? && v == Advance(w, a)
    ensures EventOk(Moved(s, i, v, ledger, lease), id)
  {
    hide EventOk, StepFits, OthersKeep, Advance, StepAbout;
    if Subject(w).Some? {
      var row := Subject(w).value;
      StepShape(w, a, row, id);
      if row.id == id {
        StepFitsHere(s, i, w, a, row);
        HereKeeps(s, i, v, ledger, lease, id, StepAbout(w, row, a));
      } else {
        StillKeeps(s, i, v, ledger, lease, id);
      }
    } else {
      NoSubject(w, a);
      StillKeeps(s, i, v, ledger, lease, id);
    }
  }

  lemma NoSubject(w: World, a: Action)
    requires Enabled(w, a) && a.Step? && Subject(w).None?
    ensures Advance(w, a) == w.(cycle := Idle) && PcOf(w) == NextRow
  {
  }

  lemma GivenUpFits(c: Columns, t: Tally, row: Row, stage: Stage, owners: nat, notifiers: nat)
    requires Ready(c, t, At(row, stage), row.id, owners, notifiers)
    ensures var l := Local(c, false, GivenUp(t, stage), NextRow, true);
            StepFits(row.id, owners, notifiers, l) && OthersKeep(c, t, owners, l)
  {
  }

  lemma CrashTurnKeeps(s: Office, i: nat, w: World, ledger: Ledger.Ledger, lease: Ledger.Lease, id: EventId, v: World)
    requires i < |s.desks| && w == World(s.q, s.desks[i].cycle, s.tallies) && EventOk(s, id) && v == Stopped(w)
    ensures EventOk(Moved(s, i, v, ledger, lease), id)
  {
    hide StepFits, OthersKeep, DeskOk, Fits, Owner;
    match PcOf(w)
    case NextRow => StillKeeps(s, i, v, ledger, lease, id);
    case At(row, stage) =>
      if row.id == id {
        var c, t := s.q.events[id].cols, s.tallies(id);
        CountAtLeastOwn(s.desks, i, Owns(id));
        CountAtLeastOwn(s.desks, i, MayNotify(id));
        assert PcOk(PcAt(s.desks[i]), id, c, t);
        GivenUpFits(c, t, row, stage, Count(s.desks, Owns(id)) - One(Owns(id)(PcAt(s.desks[i]))),
                    Count(s.desks, MayNotify(id)) - One(MayNotify(id)(PcAt(s.desks[i]))));
        HereKeeps(s, i, v, ledger, lease, id, Local(c, false, GivenUp(t, stage), NextRow, true));
      } else {
        StillKeeps(s, i, v, ledger, lease, id);
      }
  }

  // The event is in the hands of some desk: found, taken, or on its way to an outcome.
  predicate Handled(pc: Pc, id: EventId) { pc.At? && pc.row.id == id && (pc.stage == Seen || Owner(pc.stage)) }

  ghost predicate InHand(s: Office, id: EventId) { exists j :: 0 <= j < |s.desks| && Handled(PcAt(s.desks[j]), id) }

  // With nobody at work on it an event may be handed back.
  lemma HandedBackFits(s: Office, i: nat, v: World, ledger: Ledger.Ledger, lease: Ledger.Lease, id: EventId, now: int)
    requires i < |s.desks| && EventOk(s, id) && !InHand(s, id) && id in s.q.events && s.q.events[id].cols.status == Processing
    requires id in v.q.events && v.q.events[id].cols == EventQueue.Recovered(s.q.events[id].cols, now)
    requires v.tallies(id) == s.tallies(id) && PcOf(v) == NextRow == PcAt(s.desks[i])
    ensures EventOk(Moved(s, i, v, ledger, lease), id)
  {
    hide Owner;
    var u, d := Moved(s, i, v, ledger, lease), Desk(v.cycle, lease);
    CountUpdated(s.desks, i, d, Owns(id));
    CountUpdated(s.desks, i, d, MayNotify(id));
    assert PcAt(d) == PcOf(v);
    forall j | 0 <= j < |u.desks| ensures PcOk(PcAt(u.desks[j]), id, u.q.events[id].cols, u.tallies(id)) {
      if j != i {
        assert PcOk(PcAt(s.desks[j]), id, s.q.events[id].cols, s.tallies(id));
        assert !Handled(PcAt(s.desks[j]), id);
        NoticeOnly(PcAt(s.desks[j]), id, s.q.events[id].cols, u.q.events[id].cols, s.tallies(id));
      }
    }
  }

  lemma NoticeOnly(pc: Pc, id: EventId, c: Columns, d: Columns, t: Tally)
    requires PcOk(pc, id, c, t) && !Handled(pc, id)
    ensures PcOk(pc, id, d, t)
  {
  }

  lemma RecoverTurnKeeps(s: Office, i: nat, w: World, ids: seq<EventId>, ledger: Ledger.Ledger, lease: Ledger.Lease, id: EventId, v: World)
    requires i < |s.desks| && w == World(s.q, s.desks[i].cycle, s.tallies) && EventOk(s, id)
    requires Enabled(w, RecoverStale(ids)) && v == ClaudeBridge.Apply(w, RecoverStale(ids)) && (id in ids ==> !InHand(s, id))
    ensures EventOk(Moved(s, i, v, ledger, lease), id)
  {
    hide EventOk, InHand, RecoverAll;
    RecoverEffect(w.q, ids, w.cycle.now);
    if id in ids {
      HandedBackFits(s, i, v, ledger, lease, id, w.cycle.now);
    } else {
      StillKeeps(s, i, v, ledger, lease, id);
    }
  }

  lemma NewEventOk(s: Office, i: nat, v: World, ledger: Ledger.Ledger, lease: Ledger.Lease, id: EventId)
    requires i < |s.desks| && EventOk(s, id) && id !in s.q.events && id in v.q.events
    requires v.tallies(id) == s.tallies(id) && PcOf(v) == PcAt(s.desks[i])
    ensures EventOk(Moved(s, i, v, ledger, lease), id)
  {
    var u := Moved(s, i, v, ledger, lease);
    assert PcAt(u.desks[i]) == PcOf(v);
    forall j | 0 <= j < |u.desks| ensures Away(PcAt(u.desks[j]), id) {
      assert Away(PcAt(s.desks[j]), id);
    }
    CountNone(u.desks, Owns(id));
    CountNone(u.desks, MayNotify(id));
  }

  lemma QuietTurnKeeps(s: Office, i: nat, w: World, a: Action, ledger: Ledger.Ledger, lease: Ledger.Lease, id: EventId, v: World)
    requires i < |s.desks| && w == World(s.q, s.desks[i].cycle, s.tallies) && EventOk(s, id)
    requires Enabled(w, a) && v == ClaudeBridge.Apply(w, a) && (a.Create? || a.Deliver? || a.Begin? || a.Select?)
    ensures EventOk(Moved(s, i, v, ledger, lease), id)
  {
    hide EventOk;
    if id !in w.q.events && id in v.q.events {
      NewEventOk(s, i, v, ledger, lease, id);
    } else {
      StillKeeps(s, i, v, ledger, lease, id);
    }
  }

  // A turn that hands an event back while a desk has it in hand.
  ghost predicate HandsBackInHand(s: Office, a: Action, id: EventId) { a.RecoverStale? && id in a.ids && InHand(s, id) }

  lemma ActionKeeps(s: Office, i: nat, w: World, a: Action, ledger: Ledger.Ledger, lease: Ledger.Lease, id: EventId, v: World)
    requires i < |s.desks| && w == World(s.q, s.desks[i].cycle, s.tallies) && EventOk(s, id)
    requires Enabled(w, a) && v == ClaudeBridge.Apply(w, a) && !HandsBackInHand(s, a, id)
    ensures EventOk(Moved(s, i, v, ledger, lease), id)
  {
    hide EventOk, InHand, Advance, Stopped;
    match a
    case Step(_, _, _, _, _, _) => StepTurnKeeps(s, i, w, a, ledger, lease, id, v);
    case Crash => CrashTurnKeeps(s, i, w, ledger, lease, id, v);
    case RecoverStale(ids) => RecoverTurnKeeps(s, i, w, ids, ledger, lease, id, v);
    case _ => QuietTurnKeeps(s, i, w, a, ledger, lease, id, v);
  }

  // What a turn of the composed system is for the bridge: nothing, or one enabled action.
  lemma TurnActs(s: Composed.System, cfg: Composed.Setting, m: Composed.Move) returns (a: Action)
    requires Composed.Possible(s, m) && !m.LedgerMoves?
    ensures Enabled(s.world, a) && Composed.Apply(s, cfg, m).world == ClaudeBridge.Apply(s.world, a)
    ensures if m.BridgeMoves? then a == m.a else a.Step?
  {
    hide ClaudeBridge.Apply, Ledger.ClaimInvocation, Ledger.RecordAttempt, Ledger.EndInvocation;
    a := m.a;
    if m.BridgeTransacts? {
      var row, stage := PcOf(s.world).row, PcOf(s.world).stage;
      if stage == Taken {
        a := a.(answer := Composed.AnswerOf(
        Ledger.ClaimInvocation(s.ledger, cfg.budgets, cfg.identity(row.id), row.cols.demand, m.owner, m.now, m.expiresAt).1));
      } else if stage == Attempting {
        a := a.(verdict := Composed.VerdictOf(Ledger.RecordAttempt(s.ledger, cfg.budgets, s.lease, m.now).1));
      } else {
        a := a.(verdict := Composed.VerdictOf(Ledger.EndInvocation(s.ledger, s.lease, m.now, stage.result == Success).1));
      }
    }
  }

  // No desk stalls with this event in hand until it is handed back.
  ghost predicate Patient(s: Office, t: Turn, id: EventId) {
    Possible(s, t) && t.m.BridgeMoves? ==> !HandsBackInHand(s, t.m.a, id)
  }

  lemma TurnKeeps(s: Office, cfg: Composed.Setting, t: Turn, id: EventId)
    requires Possible(s, t) && EventOk(s, id) && Patient(s, t, id)
    ensures EventOk(Apply(s, cfg, t), id)
  {
    hide EventOk, InHand, Composed.Apply, Composed.Possible, ClaudeBridge.Apply, Enabled;
    var w := View(s, t.desk);
    var v := Composed.Apply(w, cfg, t.m);
    if t.m.LedgerMoves? {
      LedgerOnly(w, cfg, t.m);
      StillKeeps(s, t.desk, w.world, v.ledger, v.lease, id);
    } else {
      var a := TurnActs(w, cfg, t.m);
      ActionKeeps(s, t.desk, w.world, a, v.ledger, v.lease, id, v.world);
    }
  }

  lemma LedgerOnly(s: Composed.System, cfg: Composed.Setting, m: Composed.Move)
    requires m.LedgerMoves?
    ensures Composed.Apply(s, cfg, m).world == s.world
  {
  }

  // Nowhere in the run is the event handed back while a desk has it in hand.
  ghost predicate PatientRun(cfg: Composed.Setting, n: nat, turns: seq<Turn>, id: EventId) {
    forall k :: 0 <= k < |turns| ==> Patient(Run(cfg, n, turns[..k]), turns[k], id)
  }

  lemma OpenedEventOk(n: nat, id: EventId)
    ensures EventOk(Opened(n), id)
  {
  }

  lemma {:induction false} RunKeepsEvent(cfg: Composed.Setting, n: nat, turns: seq<Turn>, id: EventId)
    requires PatientRun(cfg, n, turns, id)
    ensures EventOk(Run(cfg, n, turns), id)
  {
    hide EventOk, Patient, Opened, Apply, Possible;
    if turns == [] {
      OpenedEventOk(n, id);
    } else {
      var m := |turns| - 1;
      forall k | 0 <= k < m ensures Patient(Run(cfg, n, turns[..m][..k]), turns[..m][k], id) {
        assert turns[..m][..k] == turns[..k];
      }
      RunKeepsEvent(cfg, n, turns[..m], id);
      if Possible(Run(cfg, n, turns[..m]), turns[m]) {
        TurnKeeps(Run(cfg, n, turns[..m]), cfg, turns[m], id);
      }
    }
  }

  /**
   However many cycles run at once: if no desk stalls with an event in hand until the event
   is handed back, the event has at most one success and at most one notice.
   */
  lemma OneSuccessWhenPatient(cfg: Composed.Setting, n: nat, turns: seq<Turn>, id: EventId)
    requires PatientRun(cfg, n, turns, id)
    ensures var t := Run(cfg, n, turns).tallies(id); t.notices <= t.successes <= 1
  {
    RunKeepsEvent(cfg, n, turns, id);
  }
}
