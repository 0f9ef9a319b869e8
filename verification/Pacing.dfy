/** When the backoff schedule is kept: exactly as long as no dispatch starts before the time its row names. */
module Pacing {
  import opened Wrappers
  import opened Outbox
  import opened Protocol
  import opened CellInvariant
  import opened Discipline
  import opened OutboxRuns
  import opened OutboxLimits

  // ------------------------------------------------------------- the schedule in the row

  /** Between the first failure and the last, the row names the time of the next attempt. */
  ghost predicate Scheduled(c: Cell) {
    1 <= c.row.retryCount < c.row.maxRetries ==>
      c.row.nextRetryAt == Some(c.ledger.lastFailure + Delay(c.row.retryCount))
  }

  lemma ScheduledKept(names: seq<string>, now: nat, c: Cell, l: Label)
    requires Shape(names, c) && Scheduled(c) && Next(names, now, c, l).Some?
    ensures Scheduled(Next(names, now, c, l).value)
  {
    if !l.Settle? { Unsettled(names, now, c, l); }
  }

  /** Only a settling write touches the counter, the schedule and the failures. */
  lemma Unsettled(names: seq<string>, now: nat, c: Cell, l: Label)
    requires Next(names, now, c, l).Some? && !l.Settle?
    ensures var d := Next(names, now, c, l).value;
            && d.row.retryCount == c.row.retryCount && d.row.nextRetryAt == c.row.nextRetryAt
            && d.row.maxRetries == c.row.maxRetries && d.ledger.failures == c.ledger.failures
            && d.ledger.firstFailure == c.ledger.firstFailure && d.ledger.lastFailure == c.ledger.lastFailure
  {
  }

  // ------------------------------------------------------------- one dispatch

  /** A failure is recorded in d, after c, before the delay that c's last failure imposed is over. */
  ghost predicate Hurried(c: Cell, d: Cell)
    requires c.row.retryCount >= 1
  {
    |d.ledger.failures| > |c.ledger.failures| && d.ledger.lastFailure < c.ledger.lastFailure + Delay(c.row.retryCount)
  }

  lemma {:induction false} DispatchAdds(names: seq<string>, now: nat, c: Cell, ls: seq<Label>)
    requires Run(names, now, c, ls).Some?
    ensures var d := Run(names, now, c, ls).value;
            d.ledger.lastFailure == now || d.ledger.failures == c.ledger.failures
  {
    if ls != [] {
      var front, l := ls[..|ls| - 1], ls[|ls| - 1];
      DispatchAdds(names, now, c, front);
      if !l.Settle? { Unsettled(names, now, Run(names, now, c, front).value, l); }
    }
  }

  /** The step of a job that has not started, or of a dispatch that has no handler to call. */
  ghost predicate Handlerless(c: Cell) {
    c.job.Active? ==> !c.job.work.Recovering? && (c.job.work.Succeeding? ==> !c.job.work.guarded)
                      && !c.job.work.Looping? && !c.job.work.Saving?
  }

  /** Without handlers no attempt fails, and a dispatch only completes the row. */
  lemma {:induction false} HandlerlessRuns(now: nat, c: Cell, ls: seq<Label>)
    requires Handlerless(c) && Run([], now, c, ls).Some?
    ensures var d := Run([], now, c, ls).value;
            && Handlerless(d) && d.ledger.failures == c.ledger.failures
            && (d.row == c.row || d.row == c.row.(status := Completed))
  {
    if ls != [] { HandlerlessRuns(now, c, ls[..|ls| - 1]); }
  }

  lemma FailsAtOnce(names: seq<string>, now: nat, c: Cell) returns (ls: seq<Label>)
    requires c.job.Waiting? && names != []
    ensures OneDispatch(ls) && Run(names, now, c, ls).Some?
    ensures var d := Run(names, now, c, ls).value;
            |d.ledger.failures| == |c.ledger.failures| + 1 && d.ledger.lastFailure == now
  {
    RunTwo(names, now, c, Start, Mark(Dropped("")));
    RunSnoc(names, now, c, [Start, Mark(Dropped(""))], Settle(Acked));
    ls := [Start, Mark(Dropped(""))] + [Settle(Acked)];
  }

  /** A dispatch can record a failure before its time if and only if the time that its row names has
      not come when it starts: a third check that the worker callback does not make. */
  lemma HurriedExactlyBeforeSchedule(names: seq<string>, now: nat, c: Cell)
    requires Shape(names, c) && Scheduled(c) && c.job.Waiting? && 1 <= c.row.retryCount < c.row.maxRetries
    ensures (exists ls :: OneDispatch(ls) && Run(names, now, c, ls).Some? && Hurried(c, Run(names, now, c, ls).value))
       <==> names != [] && now < c.row.nextRetryAt.value
  {
    if names != [] && now < c.row.nextRetryAt.value {
      var ls := FailsAtOnce(names, now, c);
    } else {
      forall ls | OneDispatch(ls) && Run(names, now, c, ls).Some? ensures !Hurried(c, Run(names, now, c, ls).value) {
        if names == [] { HandlerlessRuns(now, c, ls); } else { DispatchAdds(names, now, c, ls); }
      }
    }
  }

  // ------------------------------------------------------------- over whole runs

  /** The number of failures that the schedule has spaced. */
  function Spaced(row: Row): nat
    requires row.maxRetries >= 1
  {
    if row.retryCount < row.maxRetries then row.retryCount else row.maxRetries
  }

  /** Failures lie on the horizon or beyond it, and a dispatch at work has waited for its time. */
  ghost predicate Paced(names: seq<string>, c: Cell, now: nat) {
    && Shape(names, c) && Scheduled(c)
    && c.ledger.lastFailure <= now
    && (c.row.retryCount >= 1 ==>
          c.ledger.lastFailure >= Horizon(c.ledger.firstFailure, Spaced(c.row) - 1))
    && (Working(c) && 1 <= c.row.retryCount < c.row.maxRetries ==> now >= c.row.nextRetryAt.value)
  }

  lemma PacedSettle(names: seq<string>, now: nat, c: Cell, l: Label)
    requires Paced(names, c, now) && Next(names, now, c, l).Some? && l.Settle?
    ensures Paced(names, Next(names, now, c, l).value, now)
  {
    ShapeKept(names, now, c, l);
    ScheduledKept(names, now, c, l);
    if c.row.retryCount >= 1 { HorizonStep(c.row.retryCount); }
  }

  lemma PacedElsewhere(names: seq<string>, now: nat, c: Cell, l: Label)
    requires Paced(names, c, now) && Next(names, now, c, l).Some? && !l.Settle?
    requires l.Start? && c.row.nextRetryAt.Some? ==> now >= c.row.nextRetryAt.value
    ensures Paced(names, Next(names, now, c, l).value, now)
  {
    ShapeKept(names, now, c, l);
    ScheduledKept(names, now, c, l);
    Unsettled(names, now, c, l);
  }

  /** Action k of the run starts a dispatch of event i before the time its row names. */
  ghost predicate StartsBeforeSchedule(reg: Registry, acts: seq<Action>, i: nat, k: nat)
    requires k < |acts|
  {
    && acts[k] == At(i, Start) && Execute(reg, acts[..k]).Some?
    && var s := Execute(reg, acts[..k]).value;
       i < |s.cells| && s.cells[i].row.nextRetryAt.Some? && s.now < s.cells[i].row.nextRetryAt.value
  }

  lemma StepPaced(reg: Registry, s: System, a: Action, i: nat)
    requires i < |s.cells| && Step(reg, s, a).Some?
    requires Paced(Names(reg, s.cells[i].row.event.eventType), s.cells[i], s.now)
    requires a == At(i, Start) && s.cells[i].row.nextRetryAt.Some? ==> s.now >= s.cells[i].row.nextRetryAt.value
    ensures var s' := Step(reg, s, a).value; Paced(Names(reg, s'.cells[i].row.event.eventType), s'.cells[i], s'.now)
  {
    match a
    case Poll => PollExact(s.cells, s.now, POLL_LIMIT, i);
    case At(k, l) =>
      if k == i {
        var names := Names(reg, s.cells[i].row.event.eventType);
        if l.Settle? { PacedSettle(names, s.now, s.cells[i], l); } else { PacedElsewhere(names, s.now, s.cells[i], l); }
        StepFrame(names, s.now, s.cells[i], l);
      }
    case _ =>
  }

  /** So over whole runs, with any crashes and with early dispatches of decided rows, the failures of
      an event keep their distances as long as none of its dispatches starts before its row's time. */
  lemma {:induction false} PacedOverRuns(reg: Registry, acts: seq<Action>, i: nat)
    requires Execute(reg, acts).Some? && i < |Execute(reg, acts).value.cells|
    requires forall k :: 0 <= k < |acts| ==> !StartsBeforeSchedule(reg, acts, i, k)
    ensures var s := Execute(reg, acts).value; Paced(Names(reg, s.cells[i].row.event.eventType), s.cells[i], s.now)
  {
    if acts != [] {
      var n := |acts| - 1;
      var s := Execute(reg, acts[..n]).value;
      if i < |s.cells| {
        forall k | 0 <= k < n ensures !StartsBeforeSchedule(reg, acts[..n], i, k) {
          assert acts[..n][..k] == acts[..k];
          assert !StartsBeforeSchedule(reg, acts, i, k);
        }
        PacedOverRuns(reg, acts[..n], i);
        assert !StartsBeforeSchedule(reg, acts, i, n);
        StepPaced(reg, s, acts[n], i);
      }
    }
  }
}
