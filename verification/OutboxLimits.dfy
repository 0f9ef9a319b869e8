/** Where the outbox falls short of its promises, and exactly when. */
module OutboxLimits {
  import opened Wrappers
  import opened Outbox
  import opened Protocol
  import opened CellInvariant
  import opened Discipline
  import opened OutboxRuns

  // ------------------------------------------------------------- the retry budget

  /** One dispatch: a start and what follows up to, not including, the next start. */
  predicate OneDispatch(ls: seq<Label>) {
    ls != [] && ls[0].Start? && forall i :: 0 < i < |ls| ==> !ls[i].Start?
  }

  ghost predicate Within(names: seq<string>, c: Cell) {
    && Shape(names, c)
    && c.row.retryCount <= c.row.maxRetries
    && (c.row.status != Failed || Working(c) ==> c.row.retryCount < c.row.maxRetries)
  }

  lemma WithinKept(names: seq<string>, now: nat, c: Cell, l: Label)
    requires Within(names, c) && Next(names, now, c, l).Some?
    requires l.Start? ==> c.row.retryCount < c.row.maxRetries
    ensures Within(names, Next(names, now, c, l).value)
    ensures Next(names, now, c, l).value.row.maxRetries == c.row.maxRetries
  {
    ShapeKept(names, now, c, l);
  }

  lemma {:induction false} WithinBudget(names: seq<string>, now: nat, c: Cell, ls: seq<Label>)
    requires Shape(names, c) && c.job.Waiting? && c.row.retryCount < c.row.maxRetries
    requires OneDispatch(ls) && Run(names, now, c, ls).Some?
    ensures Within(names, Run(names, now, c, ls).value)
    ensures Run(names, now, c, ls).value.row.maxRetries == c.row.maxRetries
  {
    var before := ls[..|ls| - 1];
    if before == [] {
      WithinKept(names, now, c, ls[0]);
    } else {
      WithinBudget(names, now, c, before);
      WithinKept(names, now, Run(names, now, c, before).value, ls[|ls| - 1]);
    }
  }

  /** The worker callback dispatches whatever row its job names. One dispatch can push the retry
      counter past its limit if and only if the counter was already there when it started, which is
      the check the callback does not make. */
  lemma OverrunsExactlyWhenDecided(names: seq<string>, now: nat, c: Cell)
    requires Shape(names, c) && c.job.Waiting? && names != []
    ensures (exists ls :: OneDispatch(ls) && Run(names, now, c, ls).Some?
                          && Run(names, now, c, ls).value.row.retryCount > c.row.maxRetries)
       <==> c.row.retryCount >= c.row.maxRetries
  {
    if c.row.retryCount >= c.row.maxRetries {
      var ls: seq<Label> := [Start];
      assert Run(names, now, c, ls) == Next(names, now, c, Start) by { RunSnoc(names, now, c, [], Start); }
      RunSnoc(names, now, c, ls, Mark(Dropped("")));
      RunSnoc(names, now, c, ls + [Mark(Dropped(""))], Settle(Acked));
      assert OneDispatch(ls + [Mark(Dropped(""))] + [Settle(Acked)]);
    } else {
      forall ls | OneDispatch(ls) && Run(names, now, c, ls).Some?
        ensures Run(names, now, c, ls).value.row.retryCount <= c.row.maxRetries
      {
        WithinBudget(names, now, c, ls);
      }
    }
  }

  /** Action k of the run starts a dispatch of event i whose retry counter is at its limit. */
  ghost predicate StartsAtLimit(reg: Registry, acts: seq<Action>, i: nat, k: nat)
    requires k < |acts|
  {
    && acts[k] == At(i, Start) && Execute(reg, acts[..k]).Some?
    && var s := Execute(reg, acts[..k]).value;
       i < |s.cells| && s.cells[i].row.retryCount >= s.cells[i].row.maxRetries
  }

  lemma StepWithin(reg: Registry, s: System, a: Action, i: nat)
    requires i < |s.cells| && Step(reg, s, a).Some?
    requires Within(Names(reg, s.cells[i].row.event.eventType), s.cells[i])
    requires a == At(i, Start) ==> s.cells[i].row.retryCount < s.cells[i].row.maxRetries
    ensures var c := Step(reg, s, a).value.cells[i]; Within(Names(reg, c.row.event.eventType), c)
  {
    match a
    case Poll => PollExact(s.cells, s.now, POLL_LIMIT, i);
    case At(k, l) =>
      if k == i {
        var names := Names(reg, s.cells[i].row.event.eventType);
        WithinKept(names, s.now, s.cells[i], l);
        StepFrame(names, s.now, s.cells[i], l);
      }
    case _ =>
  }

  /** So over whole runs, with any crashes and early dispatches, the retry counter stays within its
      limit as long as no dispatch of the event starts at the limit. */
  lemma {:induction false} WithinOverRuns(reg: Registry, acts: seq<Action>, i: nat)
    requires Execute(reg, acts).Some? && i < |Execute(reg, acts).value.cells|
    requires forall k :: 0 <= k < |acts| ==> !StartsAtLimit(reg, acts, i, k)
    ensures var c := Execute(reg, acts).value.cells[i]; Within(Names(reg, c.row.event.eventType), c)
  {
    if acts != [] {
      var n := |acts| - 1;
      var s := Execute(reg, acts[..n]).value;
      if i < |s.cells| {
        forall k | 0 <= k < n ensures !StartsAtLimit(reg, acts[..n], i, k) {
          assert acts[..n][..k] == acts[..k];
          assert !StartsAtLimit(reg, acts, i, k);
        }
        WithinOverRuns(reg, acts[..n], i);
        assert !StartsAtLimit(reg, acts, i, n);
        StepWithin(reg, s, acts[n], i);
      }
    }
  }

  // ------------------------------------------------------------- tightness, and one late crash

  const REG: Registry := map["t" := ["h"]]
  const EVENT := Event("e", "t", "a", "A", "p")
  const LOST := Dropped("x")

  lemma Extend(acts: seq<Action>, a: Action)
    requires Execute(REG, acts).Some?
    ensures Execute(REG, acts + [a]) == Step(REG, Execute(REG, acts).value, a)
  {
    assert (acts + [a])[..|acts|] == acts;
  }

  /** One step of the only event. */
  lemma StepRuns(acts: seq<Action>, now: nat, c: Cell, l: Label, c': Cell)
    requires Execute(REG, acts) == Some(System(now, [c]))
    requires c.row.event == EVENT && !l.Enqueue? && (l.Start? ==> !c.job.Active?)
    requires Next(["h"], now, c, l) == Some(c')
    ensures Execute(REG, acts + [At(0, l)]) == Some(System(now, [c']))
  {
    Extend(acts, At(0, l));
    assert [c][1..] == [];
    assert ActiveCount([c]) <= 1;
    assert [c][0 := c'] == [c'];
  }

  const ATTEMPT: seq<Action> := [At(0, Start), At(0, Mark(LOST)), At(0, Settle(Acked))]

  /** What one dispatch leaves when its first write fails and its last one succeeds. */
  function AfterAttempt(c: Cell, now: nat): Cell {
    var g := if Expected(c.row, now) then c.ledger else c.ledger.(early := c.ledger.early + 1);
    AfterSettle(c.(job := Active(Recovering(c.row, "x")), ledger := Fault(g, LOST)), c.row, "x", now, Acked)
  }

  lemma AttemptRuns(acts: seq<Action>, now: nat, c: Cell)
    requires Execute(REG, acts) == Some(System(now, [c]))
    requires c.row.event == EVENT && c.job.Waiting?
    ensures Execute(REG, acts + ATTEMPT) == Some(System(now, [AfterAttempt(c, now)]))
  {
    var g := if Expected(c.row, now) then c.ledger else c.ledger.(early := c.ledger.early + 1);
    var c1 := c.(job := Active(Loaded(c.row)), ledger := g);
    var c2 := c.(job := Active(Recovering(c.row, "x")), ledger := Fault(g, LOST));
    StepRuns(acts, now, c, Start, c1);
    StepRuns(acts + [At(0, Start)], now, c1, Mark(LOST), c2);
    StepRuns(acts + [At(0, Start)] + [At(0, Mark(LOST))], now, c2, Settle(Acked), AfterAttempt(c, now));
    assert acts + ATTEMPT == acts + [At(0, Start)] + [At(0, Mark(LOST))] + [At(0, Settle(Acked))];
  }

  /** The pause between two attempts: the job completes, is evicted, and time passes. */
  function Pause(ms: nat): seq<Action> {
    [At(0, Ack), At(0, Evict), Tick(ms)]
  }

  function AfterPause(c: Cell): Cell {
    c.(job := NoJob, ledger := c.ledger.(acks := c.ledger.acks + 1))
  }

  lemma PauseRuns(acts: seq<Action>, now: nat, c: Cell, ms: nat)
    requires Execute(REG, acts) == Some(System(now, [c]))
    requires c.row.event == EVENT && c.job == Active(Returned)
    ensures Execute(REG, acts + Pause(ms)) == Some(System(now + ms, [AfterPause(c)]))
  {
    StepRuns(acts, now, c, Ack, AfterPause(c).(job := KeptCompleted));
    StepRuns(acts + [At(0, Ack)], now, AfterPause(c).(job := KeptCompleted), Evict, AfterPause(c));
    Extend(acts + [At(0, Ack)] + [At(0, Evict)], Tick(ms));
    assert acts + Pause(ms) == acts + [At(0, Ack)] + [At(0, Evict)] + [Tick(ms)];
  }

  lemma PollRuns(acts: seq<Action>, now: nat, c: Cell)
    requires Execute(REG, acts) == Some(System(now, [c]))
    requires c.job.NoJob? && Due(c.row, now)
    ensures Execute(REG, acts + [Poll]) == Some(System(now, [c.(job := Waiting)]))
  {
    Extend(acts, Poll);
    PollExact([c], now, POLL_LIMIT, 0);
    assert PollCells([c], now, POLL_LIMIT) == [c.(job := Waiting)];
  }

  /** k failed dispatches, each at the first moment its backoff allows, the last one just settled. */
  function Failing(k: nat): seq<Action>
    requires k >= 1
  {
    (if k == 1 then [Publish(EVENT)] else Failing(k - 1) + Pause(Delay(k - 1)))
    + [Poll] + ATTEMPT
  }

  ghost predicate FailedInTime(k: nat, s: System)
    requires k >= 1
  {
    && s.now == Horizon(0, k - 1)
    && |s.cells| == 1
    && var c := s.cells[0];
       && c.row.event == EVENT && c.row.retryCount == k && c.row.maxRetries == MAX_RETRIES
       && |c.ledger.failures| == k
       && c.ledger.firstFailure == 0 && c.ledger.lastFailure == s.now
       && c.ledger.late == 0 && c.ledger.early == 0 && c.dead == []
       && (if k < MAX_RETRIES
           then c.job == Active(Returned) && c.row.status == Pending && c.row.nextRetryAt == Some(Horizon(0, k) as nat)
           else c.row.status == Failed && c.job.Active? && c.job.work.Burying? && c.job.work.snap.retryCount == k - 1)
  }

  /** The k-th attempt may start. */
  ghost predicate Ready(k: nat, s: System)
    requires k >= 1
  {
    && s.now == Horizon(0, k - 1)
    && |s.cells| == 1
    && var c := s.cells[0];
       && c.row.event == EVENT && c.job.NoJob? && Due(c.row, s.now)
       && c.row.retryCount == k - 1 == |c.ledger.failures| && c.row.maxRetries == MAX_RETRIES
       && c.ledger.firstFailure == 0 && c.ledger.late == 0 && c.ledger.early == 0 && c.dead == []
  }

  lemma PublishRuns()
    ensures Execute(REG, [Publish(EVENT)]) == Some(System(0, [NewCell(EVENT, 0)]))
  {
    Extend([], Publish(EVENT));
    assert [] + [Publish(EVENT)] == [Publish(EVENT)];
    assert [] + [NewCell(EVENT, 0)] == [NewCell(EVENT, 0)];
    assert !Taken([], EVENT.eventId);
  }

  lemma {:induction false} FailingRuns(k: nat)
    requires 1 <= k <= MAX_RETRIES
    ensures Execute(REG, Failing(k)).Some? && FailedInTime(k, Execute(REG, Failing(k)).value)
  {
    if k == 1 {
      FirstAttempt();
    } else {
      FailingRuns(k - 1);
      PausedIsReady(Failing(k - 1), k);
      NextAttempt(Failing(k - 1) + Pause(Delay(k - 1)), k);
    }
  }

  lemma FirstAttempt()
    ensures Execute(REG, Failing(1)).Some? && FailedInTime(1, Execute(REG, Failing(1)).value)
  {
    PublishRuns();
    NextAttempt([Publish(EVENT)], 1);
  }

  lemma DueAfterPause(k: nat, s: System)
    requires 1 < k <= MAX_RETRIES && FailedInTime(k - 1, s)
    ensures Ready(k, System(s.now + Delay(k - 1), [AfterPause(s.cells[0])]))
  {
    HorizonStep(k - 1);
  }

  lemma PausedIsReady(acts: seq<Action>, k: nat)
    requires 1 < k <= MAX_RETRIES
    requires Execute(REG, acts).Some? && FailedInTime(k - 1, Execute(REG, acts).value)
    ensures var r := Execute(REG, acts + Pause(Delay(k - 1))); r.Some? && Ready(k, r.value)
  {
    var s := Execute(REG, acts).value;
    assert s.cells == [s.cells[0]];
    DueAfterPause(k, s);
    PauseRuns(acts, s.now, s.cells[0], Delay(k - 1));
  }

  lemma HorizonStep(k: nat)
    requires k >= 1
    ensures Horizon(0, k) == Horizon(0, k - 1) + Delay(k)
  {
  }

  lemma AttemptFails(k: nat, s: System)
    requires 1 <= k <= MAX_RETRIES && Ready(k, s)
    ensures FailedInTime(k, System(s.now, [AfterAttempt(s.cells[0].(job := Waiting), s.now)]))
  {
    HorizonStep(k);
  }

  lemma NextAttempt(acts: seq<Action>, k: nat)
    requires 1 <= k <= MAX_RETRIES && Execute(REG, acts).Some? && Ready(k, Execute(REG, acts).value)
    ensures var r := Execute(REG, acts + [Poll] + ATTEMPT); r.Some? && FailedInTime(k, r.value)
  {
    var s := Execute(REG, acts).value;
    var c := s.cells[0];
    assert s.cells == [c];
    AttemptFails(k, s);
    PollRuns(acts, s.now, c);
    AttemptRuns(acts + [Poll], s.now, c.(job := Waiting));
  }

  /** The fifteen-minute bound is reached exactly by a run without late faults. */
  lemma BackoffBoundIsTight()
    ensures Execute(REG, Failing(MAX_RETRIES)).Some?
    ensures var c := Execute(REG, Failing(MAX_RETRIES)).value.cells[0];
            && c.row.status == Failed && c.ledger.late == 0
            && c.ledger.lastFailure == c.ledger.firstFailure + 900000
  {
    FailingRuns(MAX_RETRIES);
    assert Pow2(4) == 16 by { assert Pow2(3) == 8; }
  }

  /** One crash between the fourth failure's write and the end of its job is enough to break it:
      the redelivered job dispatches at once, the event fails after seven minutes. */
  lemma LateCrashBreaksBackoff()
    ensures var acts := Failing(MAX_RETRIES - 1) + [At(0, Crash)] + ATTEMPT;
            && Execute(REG, acts).Some? && |Execute(REG, acts).value.cells| == 1
            && var c := Execute(REG, acts).value.cells[0];
               c.row.status == Failed && c.ledger.lastFailure == c.ledger.firstFailure + 420000
  {
    var acts := Failing(MAX_RETRIES - 1);
    FailingRuns(MAX_RETRIES - 1);
    var s := Execute(REG, acts).value;
    assert s.now == 420000 by { assert Pow2(3) == 8; }
    assert s.cells == [s.cells[0]];
    CrashAndRedeliver(acts, s.now, s.cells[0]);
  }

  lemma CrashAndRedeliver(acts: seq<Action>, now: nat, c: Cell)
    requires Execute(REG, acts) == Some(System(now, [c]))
    requires c.row.event == EVENT && c.job == Active(Returned) && c.ledger.failures != []
    requires c.row.retryCount == MAX_RETRIES - 1 && c.row.maxRetries == MAX_RETRIES
    ensures var s := Execute(REG, acts + [At(0, Crash)] + ATTEMPT);
            && s.Some? && |s.value.cells| == 1
            && var d := s.value.cells[0];
               d.row.status == Failed && d.ledger.firstFailure == c.ledger.firstFailure && d.ledger.lastFailure == now
  {
    var d := c.(job := Waiting, ledger := CrashLedger(["h"], c, Returned));
    StepRuns(acts, now, c, Crash, d);
    AttemptRuns(acts + [At(0, Crash)], now, d);
  }
}
