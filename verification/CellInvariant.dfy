/** What every step of a cell keeps, with crashes, lost writes and redelivery. */
module CellInvariant {
  import opened Wrappers
  import opened Outbox
  import opened Protocol

  // ------------------------------------------------------------- invariants of every run

  ghost predicate BeforeDecision(w: Work) {
    w.Loaded? || w.Looping? || w.Saving? || w.Succeeding? || w.Recovering?
  }

  /** The worker's snapshot agrees with the row on what only the worker changes. */
  ghost predicate Shape(names: seq<string>, c: Cell) {
    && c.row.maxRetries >= 1
    && c.row.retryCount == |c.ledger.failures|
    && (c.job.Active? ==>
          var w := c.job.work;
          && (BeforeDecision(w) ==>
                && w.snap.event == c.row.event
                && w.snap.maxRetries == c.row.maxRetries
                && w.snap.retryCount == c.row.retryCount
                && w.snap.error == c.row.error)
          && (w.Loaded? ==> w.snap == c.row)
          && (w.Looping? ==> w.next <= |names| && c.row.status == Processing
                             && w.snap.handlerStatus == c.row.handlerStatus)
          && (w.Saving? ==> w.next < |names| && c.row.status == Processing && SavingShape(names[w.next], w.snap, c.row))
          && (w.Succeeding? && w.guarded ==> c.row.status == Processing)
          && (w.Burying? ==> w.snap.event == c.row.event && w.snap.retryCount + 1 == c.row.retryCount))
  }

  ghost predicate SavingShape(name: string, snap: Row, row: Row) {
    && name in snap.handlerStatus
    && snap.handlerStatus == row.handlerStatus[name := snap.handlerStatus[name]]
    && !IsDone(row.handlerStatus, name)
  }

  /** Successes of handler `h` that exist only in the worker's memory. */
  function InMemory(names: seq<string>, c: Cell, h: string): nat {
    if c.job.Active? && c.job.work.Saving? && c.job.work.next < |names| && names[c.job.work.next] == h
       && IsDone(c.job.work.snap.handlerStatus, h) then 1 else 0
  }

  /** Every success of a handler is recorded, still in memory, or lost: exact bookkeeping. */
  ghost predicate Conserved(names: seq<string>, c: Cell, h: string) {
    Count(c.ledger.succ, h)
      == (if IsDone(c.row.handlerStatus, h) then 1 else 0) + InMemory(names, c, h) + Count(c.ledger.lost, h)
  }

  ghost predicate Accounted(names: seq<string>, c: Cell) {
    forall h :: Conserved(names, c, h)
  }

  ghost predicate DoneUpTo(names: seq<string>, m: map<string, HandlerState>, k: nat)
    requires k <= |names|
  {
    forall j :: 0 <= j < k ==> IsDone(m, names[j])
  }

  /** A completed row has every handler recorded as completed. */
  ghost predicate Complete(names: seq<string>, c: Cell) {
    && (c.row.status == Completed ==> DoneUpTo(names, c.row.handlerStatus, |names|))
    && (c.job.Active? ==>
          var w := c.job.work;
          && (w.Looping? && w.errors == [] && w.next <= |names| ==> DoneUpTo(names, c.row.handlerStatus, w.next))
          && (w.Saving? && w.errors == [] && w.next < |names| ==> DoneUpTo(names, w.snap.handlerStatus, w.next + 1))
          && (w.Succeeding? ==> DoneUpTo(names, c.row.handlerStatus, |names|)))
  }

  /** At most one audit document, about this event, and one as soon as its handler has succeeded;
      none if the event type has no audit handler. */
  ghost predicate Audited(names: seq<string>, c: Cell) {
    && (AUDIT_HANDLER !in names ==> c.audit == [])
    && (c.audit == [] || c.audit == [AuditOf(c.row.event)])
    && (Count(c.ledger.succ, AUDIT_HANDLER) > 0 ==> c.audit != [])
  }

  /** Retry counters against status, and at most one dead letter, about this event. */
  ghost predicate Counted(c: Cell) {
    && (c.row.status == Pending ==> c.row.retryCount < c.row.maxRetries)
    && (c.row.status == Failed ==> c.row.retryCount >= c.row.maxRetries)
    && (c.job.Active? && c.job.work.Burying? ==> c.row.retryCount >= c.row.maxRetries)
    && |c.dead| <= 1
    && (c.dead != [] ==> About(c.dead[0], c.row.event))
  }

  ghost predicate About(d: DeadLetter, e: Event) {
    d.originalEventId == e.eventId && d.eventType == e.eventType && d.aggregateId == e.aggregateId
    && d.aggregateType == e.aggregateType && d.payload == e.payload
  }

  ghost predicate Always(names: seq<string>, c: Cell) {
    Shape(names, c) && Accounted(names, c) && Complete(names, c) && Audited(names, c) && Counted(c)
  }

  lemma NewCellAlways(names: seq<string>, e: Event, now: nat)
    ensures Always(names, NewCell(e, now))
  {
    var c := NewCell(e, now);
    forall h ensures Conserved(names, c, h) {}
  }

  /** Steps of the handler loop, and writes that decide the row's fate; the rest concern the queue. */
  predicate InLoop(l: Label) {
    l.NoHandlers? || l.Mark? || l.Skip? || l.Handle? || l.Save? || l.EndLoop?
  }

  predicate Deciding(l: Label) {
    l.Succeed? || l.Settle? || l.Bury?
  }

  lemma ShapeInLoop(names: seq<string>, now: nat, c: Cell, l: Label)
    requires Shape(names, c) && Next(names, now, c, l).Some? && InLoop(l)
    ensures Shape(names, Next(names, now, c, l).value)
  {
  }

  lemma ShapeDeciding(names: seq<string>, now: nat, c: Cell, l: Label)
    requires Shape(names, c) && Next(names, now, c, l).Some? && Deciding(l)
    ensures Shape(names, Next(names, now, c, l).value)
  {
  }

  lemma ShapeKept(names: seq<string>, now: nat, c: Cell, l: Label)
    requires Shape(names, c) && Next(names, now, c, l).Some?
    ensures Shape(names, Next(names, now, c, l).value)
  {
    if InLoop(l) { ShapeInLoop(names, now, c, l); } else if Deciding(l) { ShapeDeciding(names, now, c, l); }
  }

  lemma ConservedInLoop(names: seq<string>, now: nat, c: Cell, l: Label, h: string)
    requires Shape(names, c) && Conserved(names, c, h) && Next(names, now, c, l).Some? && InLoop(l)
    ensures Conserved(names, Next(names, now, c, l).value, h)
  {
  }

  lemma ConservedElsewhere(names: seq<string>, now: nat, c: Cell, l: Label, h: string)
    requires Shape(names, c) && Conserved(names, c, h) && Next(names, now, c, l).Some? && !InLoop(l)
    ensures Conserved(names, Next(names, now, c, l).value, h)
  {
  }

  lemma AccountedKept(names: seq<string>, now: nat, c: Cell, l: Label)
    requires Shape(names, c) && Accounted(names, c) && Next(names, now, c, l).Some?
    ensures Accounted(names, Next(names, now, c, l).value)
  {
    forall h ensures Conserved(names, Next(names, now, c, l).value, h) {
      assert Conserved(names, c, h);
      if InLoop(l) { ConservedInLoop(names, now, c, l, h); } else { ConservedElsewhere(names, now, c, l, h); }
    }
  }

  lemma CompleteKept(names: seq<string>, now: nat, c: Cell, l: Label)
    requires Shape(names, c) && Complete(names, c) && Next(names, now, c, l).Some?
    ensures Complete(names, Next(names, now, c, l).value)
  {
  }

  lemma AuditedKept(names: seq<string>, now: nat, c: Cell, l: Label)
    requires Shape(names, c) && Audited(names, c) && Next(names, now, c, l).Some?
    ensures Audited(names, Next(names, now, c, l).value)
  {
  }

  lemma CountedKept(names: seq<string>, now: nat, c: Cell, l: Label)
    requires Shape(names, c) && Counted(c) && Next(names, now, c, l).Some?
    ensures Counted(Next(names, now, c, l).value)
  {
  }

  lemma AlwaysKept(names: seq<string>, now: nat, c: Cell, l: Label)
    requires Always(names, c) && Next(names, now, c, l).Some?
    ensures Always(names, Next(names, now, c, l).value)
  {
    ShapeKept(names, now, c, l);
    AccountedKept(names, now, c, l);
    CompleteKept(names, now, c, l);
    AuditedKept(names, now, c, l);
    CountedKept(names, now, c, l);
  }
}
