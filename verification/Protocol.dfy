/** The life of one outbox event as small steps.

    A cell holds the event's row, its queue job, the audit and dead-letter documents that carry
    its id, and a ledger of what has happened. The queue is modelled by one assumption: an event
    id has at most one job, so at most one worker, and a crashed worker's job is redelivered (Crash)
    or, if that has happened too often, failed for good (Stall). */
module Protocol {
  import opened Wrappers
  import opened Outbox

  /** Where the worker is inside `dispatch`; `snap` is the document it loaded, whose handler
      map it updates in memory. */
  datatype Work =
    | Loaded(snap: Row)
    | Looping(snap: Row, next: nat, errors: seq<string>)
    | Saving(snap: Row, next: nat, errors: seq<string>)
    | Succeeding(snap: Row, guarded: bool)
    | Recovering(snap: Row, message: string)
    | Burying(snap: Row)
    | Returned
    | Rejected

  datatype Job = NoJob | Waiting | Active(work: Work) | KeptCompleted | KeptFailed

  /** Counters that no step reads.
      succ, lost: per handler name, successful calls and successes whose record was lost;
      failures: messages of the committed handleFailure writes; firstFailure, lastFailure: their times;
      faults: writes that were not acknowledged; late: faults after the deciding write, and stale polls;
      early: dispatches started on a row that was not waiting for one; acks: completed jobs. */
  datatype Ledger = Ledger(succ: map<string, nat>, lost: map<string, nat>, failures: seq<string>,
                           firstFailure: nat, lastFailure: nat, faults: nat, late: nat,
                           early: nat, acks: nat)

  datatype Cell = Cell(row: Row, job: Job, audit: seq<AuditLog>, dead: seq<DeadLetter>, ledger: Ledger)

  datatype Label =
    | Enqueue
    | StaleEnqueue
    | Start
    | NoHandlers
    | Mark(write: WriteOutcome)
    | Skip
    | Handle(outcome: HandlerOutcome)
    | Save(write: WriteOutcome)
    | EndLoop
    | Succeed(write: WriteOutcome)
    | Settle(write: WriteOutcome)
    | Bury(write: WriteOutcome)
    | Ack
    | Requeue
    | GiveUp
    | Crash
    | Stall
    | Evict

  function Count(m: map<string, nat>, k: string): nat {
    if k in m then m[k] else 0
  }

  function Bump(m: map<string, nat>, k: string): map<string, nat> {
    m[k := Count(m, k) + 1]
  }

  function NewCell(event: Event, now: nat): Cell {
    Cell(NewRow(event, now), NoJob, [], [], Ledger(map[], map[], [], 0, 0, 0, 0, 0, 0))
  }

  /** A dispatch of this row is expected now: it is due, or an earlier dispatch was cut short. */
  predicate Expected(row: Row, now: nat) {
    row.status == Processing || Due(row, now)
  }

  function Fault(g: Ledger, w: WriteOutcome): Ledger {
    if w.Acked? then g else g.(faults := g.faults + 1)
  }

  /** A fault of a write that decides the row's fate. */
  function LateFault(g: Ledger, w: WriteOutcome): Ledger {
    var h := Fault(g, w);
    if w.Unacked? then h.(late := h.late + 1) else h
  }

  /** The audit collection after AuditLogHandler ran. */
  function AuditAfter(audit: seq<AuditLog>, e: Event, o: HandlerOutcome): seq<AuditLog> {
    if audit == [] && (o.Succeeds? || o.tookEffect) then [AuditOf(e)] else audit
  }

  /** A worker that holds handler `next`'s success only in memory loses it. */
  function LoseUnsaved(names: seq<string>, w: Work, g: Ledger): Ledger {
    if w.Saving? && w.next < |names| && IsDone(w.snap.handlerStatus, names[w.next])
    then g.(lost := Bump(g.lost, names[w.next])) else g
  }

  predicate AfterDecision(w: Work) {
    w.Burying? || w.Returned?
  }

  /** A crash is late when the row's fate is already written. */
  function CrashLedger(names: seq<string>, c: Cell, w: Work): Ledger {
    var g := LoseUnsaved(names, w, c.ledger);
    if AfterDecision(w) then g.(late := g.late + 1) else g
  }

  /** One step of a cell whose event type has the handlers `names`, at time `now`;
      None when the step is not enabled. */
  function Next(names: seq<string>, now: nat, c: Cell, l: Label): Option<Cell> {
    match l
    case Enqueue =>
      if c.job.NoJob? && Due(c.row, now) then Some(c.(job := Waiting)) else None
    case StaleEnqueue =>
      if c.job.NoJob? then Some(c.(job := Waiting, ledger := c.ledger.(late := c.ledger.late + 1))) else None
    case Start =>
      if c.job.Waiting? then
        Some(c.(job := Active(Loaded(c.row)),
                ledger := if Expected(c.row, now) then c.ledger else c.ledger.(early := c.ledger.early + 1)))
      else None
    case Evict =>
      if c.job.KeptCompleted? then Some(c.(job := NoJob)) else None
    case Crash =>
      if c.job.Active? then Some(c.(job := Waiting, ledger := CrashLedger(names, c, c.job.work))) else None
    case Stall =>
      if c.job.Active? then Some(c.(job := KeptFailed, ledger := LoseUnsaved(names, c.job.work, c.ledger))) else None
    case _ =>
      if c.job.Active? then WorkNext(names, now, c, c.job.work, l) else None
  }

  /** The steps inside `dispatch`. */
  function WorkNext(names: seq<string>, now: nat, c: Cell, w: Work, l: Label): Option<Cell> {
    match l
    case NoHandlers =>
      if w.Loaded? && names == [] then Some(c.(job := Active(Succeeding(w.snap, false)))) else None
    case Mark(o) =>
      if w.Loaded? && names != [] then
        Some(c.(row := if o.Dropped? then c.row else c.row.(status := Processing),
                job := Active(if o.Acked? then Looping(w.snap, 0, []) else Recovering(w.snap, o.error)),
                ledger := Fault(c.ledger, o)))
      else None
    case Skip =>
      if w.Looping? && w.next < |names| && IsDone(w.snap.handlerStatus, names[w.next]) then
        Some(c.(job := Active(Looping(w.snap, w.next + 1, w.errors))))
      else None
    case Handle(o) =>
      if w.Looping? && w.next < |names| && !IsDone(w.snap.handlerStatus, names[w.next]) then
        Some(AfterHandler(c, w.snap, w.next, w.errors, names[w.next], o))
      else None
    case Save(o) =>
      if w.Saving? && w.next < |names| then
        Some(c.(row := if o.Dropped? then c.row else c.row.(handlerStatus := w.snap.handlerStatus),
                job := Active(if o.Acked? then Looping(w.snap, w.next + 1, w.errors) else Recovering(w.snap, o.error)),
                ledger := Fault(if o.Dropped? then LoseUnsaved(names, w, c.ledger) else c.ledger, o)))
      else None
    case EndLoop =>
      if w.Looping? && w.next == |names| then
        Some(c.(job := Active(if w.errors != [] then Recovering(w.snap, Summary(w.errors))
                              else Succeeding(w.snap, true))))
      else None
    case Succeed(o) =>
      if w.Succeeding? then
        Some(c.(row := if o.Dropped? then c.row else c.row.(status := Completed),
                job := Active(if o.Acked? then Returned
                              else if w.guarded then Recovering(w.snap, o.error) else Rejected),
                ledger := LateFault(c.ledger, o)))
      else None
    case Settle(o) =>
      if w.Recovering? then Some(AfterSettle(c, w.snap, w.message, now, o)) else None
    case Bury(o) =>
      if w.Burying? then
        Some(c.(dead := if c.dead == [] && !o.Dropped? then [Letter(w.snap)] else c.dead,
                job := Active(Returned), ledger := Fault(c.ledger, o)))
      else None
    case Ack =>
      if w.Returned? then
        Some(c.(job := KeptCompleted, ledger := c.ledger.(acks := c.ledger.acks + 1)))
      else None
    case Requeue =>
      if w.Rejected? then Some(c.(job := Waiting)) else None
    case GiveUp =>
      if w.Rejected? then Some(c.(job := KeptFailed)) else None
    case _ => None
  }

  function AfterHandler(c: Cell, snap: Row, next: nat, errors: seq<string>, name: string, o: HandlerOutcome): Cell {
    var state := if o.Succeeds? then Done else Broken;
    var snap' := snap.(handlerStatus := snap.handlerStatus[name := state]);
    c.(job := Active(Saving(snap', next, if o.Succeeds? then errors else errors + [o.error])),
       audit := if name == AUDIT_HANDLER then AuditAfter(c.audit, snap.event, o) else c.audit,
       ledger := if o.Succeeds? then c.ledger.(succ := Bump(c.ledger.succ, name)) else c.ledger)
  }

  function AfterSettle(c: Cell, snap: Row, message: string, now: nat, o: WriteOutcome): Cell {
    var g := LateFault(c.ledger, o);
    c.(row := if o.Dropped? then c.row else Settled(c.row, snap, message, now),
       job := Active(if !o.Acked? then Rejected
                     else if snap.retryCount + 1 >= snap.maxRetries then Burying(snap) else Returned),
       ledger := if o.Dropped? then g
                 else g.(failures := g.failures + [message],
                         firstFailure := if g.failures == [] then now else g.firstFailure,
                         lastFailure := now))
  }

  /** A sequence of steps of one cell at a fixed time. */
  function Run(names: seq<string>, now: nat, c: Cell, ls: seq<Label>): Option<Cell> {
    if ls == [] then Some(c)
    else
      var p := Run(names, now, c, ls[..|ls| - 1]);
      if p.None? then None else Next(names, now, p.value, ls[|ls| - 1])
  }

  lemma RunSnoc(names: seq<string>, now: nat, c: Cell, ls: seq<Label>, l: Label)
    requires Run(names, now, c, ls).Some?
    ensures Run(names, now, c, ls + [l]) == Next(names, now, Run(names, now, c, ls).value, l)
  {
    assert (ls + [l])[..|ls|] == ls;
  }

  lemma RunOne(names: seq<string>, now: nat, c: Cell, l: Label)
    ensures Run(names, now, c, [l]) == Next(names, now, c, l)
  {
    RunSnoc(names, now, c, [], l);
    assert [] + [l] == [l];
  }

  lemma RunTwo(names: seq<string>, now: nat, c: Cell, l: Label, m: Label)
    requires Next(names, now, c, l).Some?
    ensures Run(names, now, c, [l, m]) == Next(names, now, Next(names, now, c, l).value, m)
  {
    RunOne(names, now, c, l);
    RunSnoc(names, now, c, [l], m);
    assert [l] + [m] == [l, m];
  }

  /** Runs compose. */
  lemma {:induction false} RunCompose(names: seq<string>, now: nat, c: Cell, a: seq<Label>, b: seq<Label>)
    requires Run(names, now, c, a).Some?
    ensures Run(names, now, c, a + b) == Run(names, now, Run(names, now, c, a).value, b)
  {
    if b == [] {
      assert a + b == a;
    } else {
      var front := b[..|b| - 1];
      RunCompose(names, now, c, a, front);
      assert (a + b)[..|a + b| - 1] == a + front;
    }
  }

  // ---------------------------------------------------------------- the whole system

  /** All events in order of creation, and the clock. */
  datatype System = System(now: nat, cells: seq<Cell>)

  datatype Action =
    | Tick(ms: nat)
    | Publish(event: Event)
    | Poll
    | At(index: nat, move: Label)

  type Registry = map<string, seq<string>>

  function Names(reg: Registry, eventType: string): seq<string> {
    if eventType in reg then reg[eventType] else []
  }

  /** The unique index on eventId. */
  predicate Taken(cells: seq<Cell>, id: string) {
    exists i :: 0 <= i < |cells| && cells[i].row.event.eventId == id
  }

  /** Oldest due rows first, at most `limit` of them; the queue ignores an id that has a job. */
  function PollCells(cells: seq<Cell>, now: nat, limit: nat): (r: seq<Cell>)
    ensures |r| == |cells|
  {
    if cells == [] || limit == 0 then cells
    else if Due(cells[0].row, now) then
      [if cells[0].job.NoJob? then cells[0].(job := Waiting) else cells[0]] + PollCells(cells[1..], now, limit - 1)
    else [cells[0]] + PollCells(cells[1..], now, limit)
  }

  function ActiveCount(cells: seq<Cell>): nat {
    if cells == [] then 0 else ActiveCount(cells[1..]) + (if cells[0].job.Active? then 1 else 0)
  }

  /** One action of the system; a duplicate event id is refused by the index and changes nothing. */
  function Step(reg: Registry, s: System, a: Action): Option<System> {
    match a
    case Tick(ms) => Some(s.(now := s.now + ms))
    case Publish(e) =>
      if Taken(s.cells, e.eventId) then Some(s) else Some(s.(cells := s.cells + [NewCell(e, s.now)]))
    case Poll => Some(s.(cells := PollCells(s.cells, s.now, POLL_LIMIT)))
    case At(i, l) =>
      if i >= |s.cells| || l.Enqueue? || (l.Start? && ActiveCount(s.cells) >= CONCURRENCY) then None
      else
        var c := Next(Names(reg, s.cells[i].row.event.eventType), s.now, s.cells[i], l);
        if c.None? then None else Some(s.(cells := s.cells[i := c.value]))
  }

  const INITIAL := System(0, [])

  /** The state after a whole run from the empty outbox. */
  function Execute(reg: Registry, acts: seq<Action>): Option<System> {
    if acts == [] then Some(INITIAL)
    else
      var p := Execute(reg, acts[..|acts| - 1]);
      if p.None? then None else Step(reg, p.value, acts[|acts| - 1])
  }
}
