/** How many dispatches can finish: every one of them spends an attempt, or a stale poll is to blame. */
module Termination {
  import opened Wrappers
  import opened Outbox
  import opened Protocol
  import opened CellInvariant
  import opened Discipline
  import opened OutboxRuns
  import opened OutboxLimits
  import opened OutboxTheorems
  import opened Stranding

  /** Attempts a row can still consume. */
  function Remaining(row: Row): nat {
    if Open(row) && row.retryCount < row.maxRetries then row.maxRetries - row.retryCount else 0
  }

  function TotalRemaining(cells: seq<Cell>): nat {
    if cells == [] then 0 else Remaining(cells[0].row) + TotalRemaining(cells[1..])
  }

  function TotalAcks(cells: seq<Cell>): nat {
    if cells == [] then 0 else cells[0].ledger.acks + TotalAcks(cells[1..])
  }

  // ------------------------------------------------------------- one dispatch

  /** Every deciding write that commits uses up at least one remaining attempt of a row that has one. */
  lemma DecisionSpends(names: seq<string>, now: nat, c: Cell, l: Label)
    requires Shape(names, c) && Remaining(c.row) > 0
    requires Next(names, now, c, l).Some? && (l.Succeed? || l.Settle?) && !l.write.Dropped?
    ensures Remaining(Next(names, now, c, l).value.row) < Remaining(c.row)
  {
  }

  /** Since cell c a dispatch has started, and it has spent an attempt if its fate is written. */
  ghost predicate Spent(names: seq<string>, c: Cell, d: Cell) {
    && Shape(names, d) && d.row.maxRetries == c.row.maxRetries
    && (Working(d) ==> d.row.retryCount == c.row.retryCount)
    && (d.job.Active? && AfterDecision(d.job.work) ==> Remaining(d.row) < Remaining(c.row))
    && (d.ledger.acks > c.ledger.acks ==> Remaining(d.row) < Remaining(c.row))
    && (d.job.Active? ==> d.ledger.acks == c.ledger.acks)
  }

  lemma SpentKept(names: seq<string>, now: nat, c: Cell, d: Cell, l: Label)
    requires Spent(names, c, d) && c.row.retryCount < c.row.maxRetries && Remaining(c.row) > 0
    requires Next(names, now, d, l).Some? && !l.Start?
    ensures Spent(names, c, Next(names, now, d, l).value)
  {
    ShapeKept(names, now, d, l);
  }

  lemma {:induction false} DispatchSpends(names: seq<string>, now: nat, c: Cell, ls: seq<Label>)
    requires Shape(names, c) && c.job.Waiting? && Remaining(c.row) > 0
    requires OneDispatch(ls) && Run(names, now, c, ls).Some?
    ensures Spent(names, c, Run(names, now, c, ls).value)
  {
    var before := ls[..|ls| - 1];
    if before == [] {
      ShapeKept(names, now, c, ls[0]);
    } else {
      DispatchSpends(names, now, c, before);
      SpentKept(names, now, c, Run(names, now, c, before).value, ls[|ls| - 1]);
    }
  }

  /** A job completes since c, without using up an attempt. */
  predicate Free(c: Cell, d: Cell) {
    d.ledger.acks > c.ledger.acks && Remaining(d.row) >= Remaining(c.row)
  }

  lemma DecidedFinishesFree(names: seq<string>, now: nat, c: Cell) returns (ls: seq<Label>)
    requires c.job.Waiting? && Remaining(c.row) == 0
    ensures OneDispatch(ls) && Run(names, now, c, ls).Some? && Free(c, Run(names, now, c, ls).value)
  {
    RunOne(names, now, c, Start);
    var rest := DispatchCompletes(names, now, Run(names, now, c, [Start]).value);
    RunCompose(names, now, c, [Start], rest);
    ls := [Start] + rest;
  }

  /** A dispatch can finish without using up an attempt if and only if its row has none left when it
      starts. */
  lemma FreeExactlyWhenNoneRemains(names: seq<string>, now: nat, c: Cell)
    requires Shape(names, c) && c.job.Waiting?
    ensures (exists ls :: OneDispatch(ls) && Run(names, now, c, ls).Some? && Free(c, Run(names, now, c, ls).value))
       <==> Remaining(c.row) == 0
  {
    if Remaining(c.row) == 0 {
      var ls := DecidedFinishesFree(names, now, c);
    } else {
      forall ls | OneDispatch(ls) && Run(names, now, c, ls).Some? ensures !Free(c, Run(names, now, c, ls).value) {
        DispatchSpends(names, now, c, ls);
      }
    }
  }

  // ------------------------------------------------------------- stale polls have no budget

  /** An old query gives a decided event another job, which finishes another dispatch. */
  lemma WastedRound(reg: Registry, s: System, i: nat) returns (more: seq<Action>)
    requires Quiet(s) && i < |s.cells| && Idle(s.cells[i]) && !Open(s.cells[i].row)
    ensures From(reg, s, more).Some?
    ensures var s' := From(reg, s, more).value;
            && Quiet(s') && |s'.cells| == |s.cells| && Idle(s'.cells[i]) && !Open(s'.cells[i].row)
            && s'.cells[i].ledger.acks == s.cells[i].ledger.acks + 1
  {
    var free := Freed(reg, s, i);
    var s1 := From(reg, s, free).value;
    var s2 := Step(reg, s1, At(i, StaleEnqueue)).value;
    FromSnoc(reg, s, free, At(i, StaleEnqueue));
    var finish := CompleteWaiting(reg, s2, i);
    FromCompose(reg, s, free + [At(i, StaleEnqueue)], finish);
    more := free + [At(i, StaleEnqueue)] + finish;
  }

  lemma {:induction false} WastedRounds(reg: Registry, s: System, i: nat, n: nat) returns (more: seq<Action>)
    requires Quiet(s) && i < |s.cells| && Idle(s.cells[i]) && !Open(s.cells[i].row)
    ensures From(reg, s, more).Some?
    ensures var s' := From(reg, s, more).value;
            && Quiet(s') && |s'.cells| == |s.cells| && Idle(s'.cells[i]) && !Open(s'.cells[i].row)
            && s'.cells[i].ledger.acks == s.cells[i].ledger.acks + n
  {
    if n == 0 { return []; }
    more := WastedRounds(reg, s, i, n - 1);
    var round := WastedRound(reg, From(reg, s, more).value, i);
    FromCompose(reg, s, more, round);
    more := more + round;
  }

  /** With such polls there is no bound: one published event can finish any number of dispatches. */
  lemma UnboundedWithStalePolls(n: nat) returns (acts: seq<Action>)
    ensures Execute(REG, acts).Some? && |Execute(REG, acts).value.cells| == 1
    ensures Execute(REG, acts).value.cells[0].ledger.acks == n + 1
  {
    PublishRuns();
    PollRuns([Publish(EVENT)], 0, NewCell(EVENT, 0));
    acts := [Publish(EVENT)] + [Poll];
    var s := Execute(REG, acts).value;
    var first := CompleteWaiting(REG, s, 0);
    var rest := WastedRounds(REG, From(REG, s, first).value, 0, n);
    FromCompose(REG, s, first, rest);
    ExecuteFrom(REG, acts, first + rest);
    acts := acts + (first + rest);
  }

  // ------------------------------------------------------------- whole runs

  /** What has finished and what can still finish fit the budget, with early dispatches and all. */
  ghost predicate Budgeted(names: seq<string>, c: Cell) {
    && Shape(names, c) && Attended(c) && Counted(c)
    && c.ledger.acks + Remaining(c.row) <= c.row.maxRetries
    && (c.job.Waiting? || c.job.Active? ==>
          c.ledger.acks <= c.row.retryCount && c.ledger.acks < c.row.maxRetries)
    && (c.job.Active? && AfterDecision(c.job.work) ==> c.ledger.acks + 1 + Remaining(c.row) <= c.row.maxRetries)
  }

  /** A poll that acts on an old query adds a job although the event is decided. */
  predicate Regretted(c: Cell, l: Label) {
    l.StaleEnqueue? && !Open(c.row)
  }

  lemma BudgetKept(names: seq<string>, now: nat, c: Cell, l: Label)
    requires Budgeted(names, c) && Next(names, now, c, l).Some? && !Regretted(c, l)
    ensures Budgeted(names, Next(names, now, c, l).value)
  {
    ShapeKept(names, now, c, l);
    AttendedKept(names, now, c, l);
    CountedKept(names, now, c, l);
  }

  /** Action k of the run is such a poll of event i. */
  ghost predicate RegretsPoll(reg: Registry, acts: seq<Action>, i: nat, k: nat)
    requires k < |acts|
  {
    && acts[k] == At(i, StaleEnqueue) && Execute(reg, acts[..k]).Some?
    && var s := Execute(reg, acts[..k]).value;
       i < |s.cells| && !Open(s.cells[i].row)
  }

  ghost predicate NoneRegretted(reg: Registry, acts: seq<Action>, i: nat) {
    forall k :: 0 <= k < |acts| ==> !RegretsPoll(reg, acts, i, k)
  }

  lemma StepBudgeted(reg: Registry, s: System, a: Action, i: nat)
    requires i < |s.cells| && Step(reg, s, a).Some?
    requires Budgeted(Names(reg, s.cells[i].row.event.eventType), s.cells[i])
    requires a == At(i, StaleEnqueue) ==> Open(s.cells[i].row)
    ensures var c := Step(reg, s, a).value.cells[i]; Budgeted(Names(reg, c.row.event.eventType), c)
  {
    match a
    case Poll => PollExact(s.cells, s.now, POLL_LIMIT, i);
    case At(k, l) =>
      if k == i {
        var names := Names(reg, s.cells[i].row.event.eventType);
        BudgetKept(names, s.now, s.cells[i], l);
        StepFrame(names, s.now, s.cells[i], l);
      }
    case _ =>
  }

  lemma {:induction false} BudgetedOverRuns(reg: Registry, acts: seq<Action>, i: nat)
    requires Execute(reg, acts).Some? && i < |Execute(reg, acts).value.cells| && NoneRegretted(reg, acts, i)
    ensures var c := Execute(reg, acts).value.cells[i]; Budgeted(Names(reg, c.row.event.eventType), c)
  {
    if acts != [] {
      var n := |acts| - 1;
      var s := Execute(reg, acts[..n]).value;
      if i < |s.cells| {
        forall k | 0 <= k < n ensures !RegretsPoll(reg, acts[..n], i, k) {
          assert acts[..n][..k] == acts[..k];
          assert !RegretsPoll(reg, acts, i, k);
        }
        BudgetedOverRuns(reg, acts[..n], i);
        assert !RegretsPoll(reg, acts, i, n);
        StepBudgeted(reg, s, acts[n], i);
      }
    }
  }

  /** An event finishes at most five dispatches in every run, with any crashes, lost writes, repeated
      and early dispatches, in which no poll of it from an old query comes after its decision. */
  lemma FinishedBounded(reg: Registry, acts: seq<Action>, i: nat)
    requires Execute(reg, acts).Some? && i < |Execute(reg, acts).value.cells|
    requires Execute(reg, acts).value.cells[i].ledger.early == 0 || NoneRegretted(reg, acts, i)
    ensures var c := Execute(reg, acts).value.cells[i]; c.ledger.acks + Remaining(c.row) <= MAX_RETRIES
  {
    Reachable(reg, acts);
    if NoneRegretted(reg, acts, i) { BudgetedOverRuns(reg, acts, i); }
    assert CellOk(reg, Execute(reg, acts).value.cells[i], Execute(reg, acts).value.now);
  }

  lemma {:induction false} SumBound(cells: seq<Cell>)
    requires forall i :: 0 <= i < |cells| ==> cells[i].ledger.acks + Remaining(cells[i].row) <= MAX_RETRIES
    ensures TotalAcks(cells) + TotalRemaining(cells) <= MAX_RETRIES * |cells|
  {
    if cells != [] { SumBound(cells[1..]); }
  }

  /** N published events need at most 5 N finished dispatches: those done plus those still possible
      never exceed it. An event that no dispatch found at its retry limit has nothing remaining
      exactly when it is decided. */
  lemma FinishedDispatchesBounded(reg: Registry, acts: seq<Action>)
    requires Execute(reg, acts).Some?
    requires forall i: nat :: i < |Execute(reg, acts).value.cells| ==>
               Execute(reg, acts).value.cells[i].ledger.early == 0 || NoneRegretted(reg, acts, i)
    ensures var cells := Execute(reg, acts).value.cells;
            && TotalAcks(cells) + TotalRemaining(cells) <= MAX_RETRIES * |cells|
            && forall i: nat :: i < |cells| && (cells[i].ledger.early == 0 || NoneAtLimit(reg, acts, i)) ==>
                 (Remaining(cells[i].row) == 0 <==> !Open(cells[i].row))
  {
    var cells := Execute(reg, acts).value.cells;
    forall i: nat | i < |cells| ensures cells[i].ledger.acks + Remaining(cells[i].row) <= MAX_RETRIES {
      FinishedBounded(reg, acts, i);
    }
    SumBound(cells);
    forall i: nat | i < |cells| && (cells[i].ledger.early == 0 || NoneAtLimit(reg, acts, i))
      ensures Remaining(cells[i].row) == 0 <==> !Open(cells[i].row)
    {
      RowStates(reg, acts, i);
      Reachable(reg, acts);
      assert CellOk(reg, cells[i], Execute(reg, acts).value.now);
    }
  }
}
