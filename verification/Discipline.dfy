/** What holds of a cell whose dispatches were all expected: no dispatch started on a row
    that was already decided, or before the time its retry was scheduled for. */
module Discipline {
  import opened Wrappers
  import opened Outbox
  import opened Protocol
  import opened CellInvariant

  predicate Open(row: Row) {
    row.status == Pending || row.status == Processing
  }

  ghost predicate Working(c: Cell) {
    c.job.Active? && BeforeDecision(c.job.work)
  }

  /** Without a late fault every waiting job and every running dispatch finds its row expecting it. */
  ghost predicate Punctual(c: Cell, now: nat) {
    c.ledger.late == 0 ==>
      && c.ledger.early == 0
      && (c.job.Waiting? || Working(c) || (c.job.Active? && c.job.work.Rejected?) ==> Expected(c.row, now))
  }

  /** The retry counter never passes its limit, and a failed row has reached it. */
  ghost predicate Bounded(c: Cell) {
    c.ledger.early == 0 ==>
      && (c.row.status != Failed || Working(c) ==> c.row.retryCount < c.row.maxRetries)
      && (c.row.status == Failed ==> c.row.retryCount == c.row.maxRetries)
      && (c.job.Active? && c.job.work.Burying? ==> c.row.status == Failed)
  }

  /** The earliest moment at which the k-th retry may start, or the k+1-st failure may happen. */
  function Horizon(first: nat, k: nat): int {
    first + BASE_DELAY_MS * (Pow2(k) - 1)
  }

  /** Delays add up to the horizon. */
  ghost predicate Backoff(c: Cell, now: nat) {
    c.ledger.early == 0 && c.row.retryCount >= 1 ==>
      && (c.row.status == Pending ==>
            c.row.nextRetryAt.Some? && c.row.nextRetryAt.value >= Horizon(c.ledger.firstFailure, c.row.retryCount))
      && (c.row.status == Processing || Working(c) ==> now >= Horizon(c.ledger.firstFailure, c.row.retryCount))
      && (c.row.status == Failed ==> c.ledger.lastFailure >= Horizon(c.ledger.firstFailure, c.row.retryCount - 1))
  }

  /** The row carries the last failure's message, a snapshot about to be buried the one before it. */
  ghost predicate Messages(c: Cell) {
    && (c.ledger.failures == [] ==> c.row.error == None)
    && (c.ledger.failures != [] ==> c.row.error == Some(c.ledger.failures[|c.ledger.failures| - 1]))
    && (c.job.Active? && c.job.work.Burying? ==>
          c.job.work.snap.error == ErrorBefore(c.ledger.failures))
  }

  /** A dead letter belongs to a failed row and was built from the snapshot of its last attempt. */
  ghost predicate Buried(c: Cell) {
    c.ledger.early == 0 ==>
      && (Working(c) ==> c.dead == [])
      && (c.dead != [] ==> c.row.status == Failed && c.dead[0].retryCount + 1 == c.row.retryCount
                           && c.dead[0].failureReason == ReasonText(ErrorBefore(c.ledger.failures)))
  }

  /** The message stored by the last failure but one. */
  function ErrorBefore(failures: seq<string>): Option<string> {
    if |failures| < 2 then None else Some(failures[|failures| - 2])
  }

  function ReasonText(e: Option<string>): string {
    if e.None? || e.value == "" then "Unknown error" else e.value
  }

  /** Completed jobs are paid for by retries, or by the completion itself. */
  ghost predicate Paid(c: Cell) {
    c.ledger.early == 0 ==>
      && c.ledger.acks + (if c.job.Active? && AfterDecision(c.job.work) then 1 else 0)
           <= c.row.retryCount + (if c.row.status == Completed then 1 else 0)
      && (Working(c) ==> c.ledger.acks <= c.row.retryCount)
  }

  ghost predicate SomeBroken(names: seq<string>, m: map<string, HandlerState>, k: nat)
    requires k <= |names|
  {
    exists j :: 0 <= j < k && names[j] in m && m[names[j]] == Broken
  }

  ghost predicate Distinct(names: seq<string>) {
    forall i, j :: 0 <= i < j < |names| ==> names[i] != names[j]
  }

  /** When every write is acknowledged, a row fails only because a handler did. */
  ghost predicate Blamed(names: seq<string>, c: Cell) {
    c.ledger.faults == 0 && Distinct(names) ==>
      && (c.row.status == Failed ==> SomeBroken(names, c.row.handlerStatus, |names|))
      && (c.job.Active? ==>
            var w := c.job.work;
            && (w.Looping? && w.errors != [] && w.next <= |names| ==> SomeBroken(names, c.row.handlerStatus, w.next))
            && (w.Saving? && w.errors != [] && w.next < |names| ==> SomeBroken(names, w.snap.handlerStatus, w.next + 1))
            && (w.Recovering? ==> SomeBroken(names, c.row.handlerStatus, |names|)))
  }

  ghost predicate Orderly(names: seq<string>, c: Cell, now: nat) {
    Punctual(c, now) && Bounded(c) && Backoff(c, now) && Messages(c) && Buried(c) && Paid(c) && Blamed(names, c)
  }

  lemma NewCellOrderly(names: seq<string>, e: Event, now: nat)
    ensures Orderly(names, NewCell(e, now), now)
  {
  }

  /** Time passing keeps everything: a due row stays due and a reached horizon stays reached. */
  lemma TickKept(names: seq<string>, c: Cell, now: nat, later: nat)
    requires Orderly(names, c, now) && now <= later
    ensures Orderly(names, c, later)
  {
  }

  lemma PunctualKept(names: seq<string>, now: nat, c: Cell, l: Label)
    requires Shape(names, c) && Punctual(c, now) && Next(names, now, c, l).Some?
    ensures Punctual(Next(names, now, c, l).value, now)
  {
  }

  lemma BoundedElsewhere(names: seq<string>, now: nat, c: Cell, l: Label)
    requires Always(names, c) && Bounded(c) && Next(names, now, c, l).Some? && !l.Settle?
    ensures Bounded(Next(names, now, c, l).value)
  {
  }

  lemma BoundedKept(names: seq<string>, now: nat, c: Cell, l: Label)
    requires Always(names, c) && Bounded(c) && Next(names, now, c, l).Some?
    ensures Bounded(Next(names, now, c, l).value)
  {
    if !l.Settle? { BoundedElsewhere(names, now, c, l); }
  }

  lemma BackoffSettle(names: seq<string>, now: nat, c: Cell, l: Label)
    requires Always(names, c) && Bounded(c) && Backoff(c, now) && Next(names, now, c, l).Some? && l.Settle?
    ensures Backoff(Next(names, now, c, l).value, now)
  {
  }

  lemma BackoffElsewhere(names: seq<string>, now: nat, c: Cell, l: Label)
    requires Shape(names, c) && Backoff(c, now) && Next(names, now, c, l).Some? && !l.Settle?
    ensures Backoff(Next(names, now, c, l).value, now)
  {
  }

  lemma BackoffKept(names: seq<string>, now: nat, c: Cell, l: Label)
    requires Always(names, c) && Bounded(c) && Backoff(c, now) && Next(names, now, c, l).Some?
    ensures Backoff(Next(names, now, c, l).value, now)
  {
    if l.Settle? { BackoffSettle(names, now, c, l); } else { BackoffElsewhere(names, now, c, l); }
  }

  lemma MessagesElsewhere(names: seq<string>, now: nat, c: Cell, l: Label)
    requires Shape(names, c) && Messages(c) && Next(names, now, c, l).Some? && !l.Settle?
    ensures Messages(Next(names, now, c, l).value)
  {
  }

  lemma MessagesKept(names: seq<string>, now: nat, c: Cell, l: Label)
    requires Shape(names, c) && Messages(c) && Next(names, now, c, l).Some?
    ensures Messages(Next(names, now, c, l).value)
  {
    if !l.Settle? { MessagesElsewhere(names, now, c, l); }
  }

  lemma BuriedElsewhere(names: seq<string>, now: nat, c: Cell, l: Label)
    requires Shape(names, c) && Bounded(c) && Messages(c) && Buried(c) && Next(names, now, c, l).Some? && !l.Bury?
    ensures Buried(Next(names, now, c, l).value)
  {
  }

  lemma BuriedKept(names: seq<string>, now: nat, c: Cell, l: Label)
    requires Shape(names, c) && Counted(c) && Bounded(c) && Messages(c) && Buried(c) && Next(names, now, c, l).Some?
    ensures Buried(Next(names, now, c, l).value)
  {
    if !l.Bury? { BuriedElsewhere(names, now, c, l); }
  }

  lemma PaidKept(names: seq<string>, now: nat, c: Cell, l: Label)
    requires Always(names, c) && Bounded(c) && Paid(c) && Next(names, now, c, l).Some?
    ensures Paid(Next(names, now, c, l).value)
  {
  }

  lemma BlamedKept(names: seq<string>, now: nat, c: Cell, l: Label)
    requires Always(names, c) && Blamed(names, c) && Next(names, now, c, l).Some?
    ensures Blamed(names, Next(names, now, c, l).value)
  {
  }

  lemma OrderlyKept(names: seq<string>, now: nat, c: Cell, l: Label)
    requires Always(names, c) && Orderly(names, c, now) && Next(names, now, c, l).Some?
    ensures Orderly(names, Next(names, now, c, l).value, now)
  {
    PunctualKept(names, now, c, l);
    BoundedKept(names, now, c, l);
    BackoffKept(names, now, c, l);
    MessagesKept(names, now, c, l);
    BuriedKept(names, now, c, l);
    PaidKept(names, now, c, l);
    BlamedKept(names, now, c, l);
  }
}
