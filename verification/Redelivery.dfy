/** Dispatches that come too early or too late: which faults lead to them, exactly, and what they break. */
module Redelivery {
  import opened Wrappers
  import opened Outbox
  import opened Protocol
  import opened CellInvariant
  import opened Discipline
  import opened OutboxRuns
  import opened OutboxLimits
  import opened Pacing

  // ------------------------------------------------------------- which faults make a dispatch premature

  /** A worker that takes the cell's job at this moment starts a dispatch that its row does not expect. */
  predicate StartsEarly(names: seq<string>, c: Cell, later: nat) {
    var d := Next(names, later, c, Start);
    d.Some? && d.value.ledger.early > c.ledger.early
  }

  /** In a run without late faults a waiting job never starts early, however long it waits. */
  lemma WaitingIsExpected(names: seq<string>, now: nat, c: Cell, later: nat)
    requires Punctual(c, now) && c.ledger.late == 0 && c.job.Waiting? && now <= later
    ensures !StartsEarly(names, c, later)
  {
  }

  /** A crash of such a run leads to a premature dispatch exactly when it comes after the write that
      decided the row's fate, and the redelivery before an attempt is due. */
  lemma CrashIsEarlyExactlyAfterDecision(names: seq<string>, now: nat, c: Cell, later: nat)
    requires Punctual(c, now) && c.ledger.late == 0 && c.job.Active? && now <= later
    ensures var d := Next(names, now, c, Crash);
            && d.Some?
            && (StartsEarly(names, d.value, later) <==> AfterDecision(c.job.work) && !Expected(c.row, later))
  {
  }

  /** The last failed attempt is final, any other is to be repeated after its delay. */
  predicate BeforeNextAttempt(snap: Row, now: nat, later: nat) {
    snap.retryCount + 1 >= snap.maxRetries || later < now + Delay(snap.retryCount + 1)
  }

  /** A settling write that is not acknowledged rejects the job. Its repetition is premature exactly
      when the write had committed and the attempt it scheduled, if any, is not due yet. */
  lemma RejectedSettleIsEarlyExactly(names: seq<string>, now: nat, c: Cell, o: WriteOutcome, later: nat)
    requires Punctual(c, now) && c.ledger.late == 0 && c.job.Active? && c.job.work.Recovering? && now <= later
    requires !o.Acked?
    ensures var d := Run(names, now, c, [Settle(o), Requeue]);
            && d.Some?
            && (StartsEarly(names, d.value, later) <==> o.Unacked? && BeforeNextAttempt(c.job.work.snap, now, later))
  {
    RunTwo(names, now, c, Settle(o), Requeue);
  }

  /** A completing write that is not acknowledged, of an event without handlers: the repetition is
      premature exactly when the write had committed. */
  lemma RejectedSuccessIsEarlyExactly(names: seq<string>, now: nat, c: Cell, o: WriteOutcome, later: nat)
    requires Punctual(c, now) && c.ledger.late == 0 && c.job.Active? && now <= later
    requires c.job.work.Succeeding? && !c.job.work.guarded && !o.Acked?
    ensures var d := Run(names, now, c, [Succeed(o), Requeue]);
            && d.Some?
            && (StartsEarly(names, d.value, later) <==> o.Unacked?)
  {
    RunTwo(names, now, c, Succeed(o), Requeue);
  }

  lemma RejectedTwice(names: seq<string>, now: nat, c: Cell, o: WriteOutcome, p: WriteOutcome)
    requires c.job.Active? && c.job.work.Succeeding? && c.job.work.guarded && !o.Acked? && !p.Acked?
    ensures var d := Run(names, now, c, [Succeed(o), Settle(p)]);
            var row := if o.Unacked? then c.row.(status := Completed) else c.row;
            && d.Some? && d.value.job == Active(Rejected) && d.value.ledger.early == c.ledger.early
            && d.value.row == if p.Unacked? then Settled(row, c.job.work.snap, o.error, now) else row
  {
    RunTwo(names, now, c, Succeed(o), Settle(p));
  }

  /** Of an event with handlers, the failure of the completing write is itself settled as a failed
      attempt. If that write is rejected too, the repetition is premature exactly when the settling
      write had committed and its attempt is not due, or was lost after the completion had committed. */
  lemma RejectedRecoveryIsEarlyExactly(names: seq<string>, now: nat, c: Cell, o: WriteOutcome, p: WriteOutcome, later: nat)
    requires Punctual(c, now) && c.ledger.late == 0 && c.job.Active? && now <= later
    requires c.job.work.Succeeding? && c.job.work.guarded && !o.Acked? && !p.Acked?
    ensures var d := Run(names, now, c, [Succeed(o), Settle(p)] + [Requeue]);
            && d.Some?
            && (StartsEarly(names, d.value, later)
                <==> if p.Unacked? then BeforeNextAttempt(c.job.work.snap, now, later) else o.Unacked?)
  {
    RejectedTwice(names, now, c, o, p);
    RunSnoc(names, now, c, [Succeed(o), Settle(p)], Requeue);
  }

  /** A completing write commits and the settling write of the same dispatch takes it back. */
  predicate Undoes(names: seq<string>, now: nat, c: Cell, o: WriteOutcome, p: WriteOutcome) {
    var m := Next(names, now, c, Succeed(o));
    && m.Some? && m.value.row.status == Completed
    && var d := Next(names, now, m.value, Settle(p));
       d.Some? && d.value.row.status != Completed
  }

  /** Exactly when: the completion commits without acknowledgement and the settling write commits. The
      row is then open or failed again, although every handler is recorded as completed. */
  lemma UndoneExactly(names: seq<string>, now: nat, c: Cell, o: WriteOutcome, p: WriteOutcome)
    requires Always(names, c) && c.job.Active? && c.job.work.Succeeding? && c.job.work.guarded
    ensures Undoes(names, now, c, o, p) <==> o.Unacked? && !p.Dropped?
    ensures Undoes(names, now, c, o, p) ==>
              var d := Run(names, now, c, [Succeed(o), Settle(p)]);
              && d.Some? && d.value.row.retryCount == c.row.retryCount + 1
              && DoneUpTo(names, d.value.row.handlerStatus, |names|)
  {
    if o.Unacked? { RunTwo(names, now, c, Succeed(o), Settle(p)); }
  }

  const UNACKED := Unacked("x")

  const UNDONE: seq<Action> :=
    [Publish(EVENT)] + [Poll] + [At(0, Start)] + [At(0, Mark(Acked))] + [At(0, Handle(Succeeds))]
    + [At(0, Save(Acked))] + [At(0, EndLoop)] + [At(0, Succeed(UNACKED))] + [At(0, Settle(Acked))]

  /** A run of one event: its only handler succeeds, its completion commits, and it is pending again
      with a failed attempt. */
  lemma CompletionUndone()
    ensures Execute(REG, UNDONE).Some? && |Execute(REG, UNDONE).value.cells| == 1
    ensures var c := Execute(REG, UNDONE).value.cells[0];
            c.row.status == Pending && c.row.retryCount == 1 && IsDone(c.row.handlerStatus, "h")
  {
    PublishRuns();
    PollRuns([Publish(EVENT)], 0, NewCell(EVENT, 0));
    var c := NewCell(EVENT, 0).(job := Waiting);
    var acts := [Publish(EVENT)] + [Poll];
    var c1 := c.(job := Active(Loaded(c.row)));
    StepRuns(acts, 0, c, Start, c1);
    var c2 := c1.(row := c.row.(status := Processing), job := Active(Looping(c.row, 0, [])));
    StepRuns(acts + [At(0, Start)], 0, c1, Mark(Acked), c2);
    UndoneFrom(acts + [At(0, Start)] + [At(0, Mark(Acked))], c2);
  }

  lemma UndoneFrom(acts: seq<Action>, c: Cell)
    requires Execute(REG, acts) == Some(System(0, [c]))
    requires c.row == NewRow(EVENT, 0).(status := Processing) && c.job == Active(Looping(NewRow(EVENT, 0), 0, []))
    ensures var r := Execute(REG, acts + [At(0, Handle(Succeeds))] + [At(0, Save(Acked))] + [At(0, EndLoop)]
                                  + [At(0, Succeed(UNACKED))] + [At(0, Settle(Acked))]);
            && r.Some? && |r.value.cells| == 1
            && var row := r.value.cells[0].row;
               row.status == Pending && row.retryCount == 1 && IsDone(row.handlerStatus, "h")
  {
    var c1 := AfterHandler(c, NewRow(EVENT, 0), 0, [], "h", Succeeds);
    var done := NewRow(EVENT, 0).(handlerStatus := map["h" := Done]);
    var c2 := c1.(row := c.row.(handlerStatus := map["h" := Done]), job := Active(Looping(done, 1, [])));
    var c3 := c2.(job := Active(Succeeding(done, true)));
    var c4 := c3.(row := c2.row.(status := Completed), job := Active(Recovering(done, "x")), ledger := LateFault(c3.ledger, UNACKED));
    StepRuns(acts, 0, c, Handle(Succeeds), c1);
    StepRuns(acts + [At(0, Handle(Succeeds))], 0, c1, Save(Acked), c2);
    StepRuns(acts + [At(0, Handle(Succeeds))] + [At(0, Save(Acked))], 0, c2, EndLoop, c3);
    StepRuns(acts + [At(0, Handle(Succeeds))] + [At(0, Save(Acked))] + [At(0, EndLoop)], 0, c3, Succeed(UNACKED), c4);
    StepRuns(acts + [At(0, Handle(Succeeds))] + [At(0, Save(Acked))] + [At(0, EndLoop)] + [At(0, Succeed(UNACKED))],
             0, c4, Settle(Acked), AfterSettle(c4, done, "x", 0, Acked));
  }

  /** A poll that acts on an old query adds a job that starts early exactly when the row no longer
      expects a dispatch. */
  lemma StalePollIsEarlyExactly(names: seq<string>, now: nat, c: Cell, later: nat)
    requires c.job.NoJob? && now <= later
    ensures var d := Next(names, now, c, StaleEnqueue);
            && d.Some? && (StartsEarly(names, d.value, later) <==> !Expected(c.row, later))
  {
  }

  // ------------------------------------------------------------- decided rows under redelivery

  lemma ChangesRow(names: seq<string>, now: nat, c: Cell) returns (ls: seq<Label>)
    requires c.job.Waiting? && !Open(c.row) && (names != [] || c.row.status == Failed)
    ensures OneDispatch(ls) && Run(names, now, c, ls).Some? && Run(names, now, c, ls).value.row != c.row
  {
    if names != [] {
      RunTwo(names, now, c, Start, Mark(Acked));
      return [Start, Mark(Acked)];
    }
    RunTwo(names, now, c, Start, NoHandlers);
    RunSnoc(names, now, c, [Start, NoHandlers], Succeed(Acked));
    ls := [Start, NoHandlers] + [Succeed(Acked)];
  }

  /** A dispatch of a decided row can change it if and only if the event has handlers or has failed. */
  lemma DecidedChangesExactly(names: seq<string>, now: nat, c: Cell)
    requires c.job.Waiting? && !Open(c.row)
    ensures (exists ls :: OneDispatch(ls) && Run(names, now, c, ls).Some? && Run(names, now, c, ls).value.row != c.row)
       <==> names != [] || c.row.status == Failed
  {
    if names != [] || c.row.status == Failed {
      var ls := ChangesRow(names, now, c);
    } else {
      forall ls | OneDispatch(ls) && Run(names, now, c, ls).Some? ensures Run(names, now, c, ls).value.row == c.row {
        HandlerlessRuns(now, c, ls);
      }
    }
  }

  // ------------------------------------------------------------- dead letters under redelivery

  /** Row and dead letter tell the same story: the letter is one failure behind a failed row. */
  ghost predicate Agree(c: Cell) {
    c.dead != [] ==>
      && c.row.status == Failed && c.dead[0].retryCount + 1 == c.row.retryCount
      && c.dead[0].failureReason == ReasonText(ErrorBefore(c.ledger.failures))
  }

  /** What a dispatch of an event without a letter keeps, to its end and beyond. */
  ghost predicate Unburied(names: seq<string>, c: Cell) {
    && Shape(names, c) && Messages(c) && Agree(c)
    && (Working(c) ==> c.dead == [])
    && (c.job.Active? && c.job.work.Burying? ==> c.row.status == Failed)
  }

  lemma UnburiedKept(names: seq<string>, now: nat, c: Cell, l: Label)
    requires Unburied(names, c) && Next(names, now, c, l).Some?
    requires l.Start? ==> c.dead == []
    ensures Unburied(names, Next(names, now, c, l).value)
  {
    ShapeKept(names, now, c, l);
    MessagesKept(names, now, c, l);
    AgreeKept(names, now, c, l);
    BurialKept(names, now, c, l);
  }

  lemma BurialKept(names: seq<string>, now: nat, c: Cell, l: Label)
    requires Unburied(names, c) && Next(names, now, c, l).Some?
    requires l.Start? ==> c.dead == []
    ensures var d := Next(names, now, c, l).value;
            && (Working(d) ==> d.dead == [])
            && (d.job.Active? && d.job.work.Burying? ==> d.row.status == Failed)
  {
  }

  lemma AgreeKept(names: seq<string>, now: nat, c: Cell, l: Label)
    requires Unburied(names, c) && Next(names, now, c, l).Some?
    ensures Agree(Next(names, now, c, l).value)
  {
  }

  lemma {:induction false} DispatchKeepsAgreement(names: seq<string>, now: nat, c: Cell, ls: seq<Label>)
    requires Unburied(names, c) && c.job.Waiting? && c.dead == []
    requires OneDispatch(ls) && Run(names, now, c, ls).Some?
    ensures Unburied(names, Run(names, now, c, ls).value)
  {
    var before := ls[..|ls| - 1];
    if before == [] {
      UnburiedKept(names, now, c, ls[0]);
    } else {
      DispatchKeepsAgreement(names, now, c, before);
      UnburiedKept(names, now, Run(names, now, c, before).value, ls[|ls| - 1]);
    }
  }

  /** A dispatch after a burial can make row and letter disagree whatever the event's handlers are. */
  lemma BuriedCanDisagree(names: seq<string>, now: nat, c: Cell) returns (ls: seq<Label>)
    requires Shape(names, c) && Agree(c) && c.job.Waiting? && c.dead != []
    ensures OneDispatch(ls) && Run(names, now, c, ls).Some? && !Agree(Run(names, now, c, ls).value)
  {
    var l := if names == [] then NoHandlers else Mark(Dropped(""));
    var m := if names == [] then Succeed(Acked) else Settle(Acked);
    RunTwo(names, now, c, Start, l);
    RunSnoc(names, now, c, [Start, l], m);
    ls := [Start, l] + [m];
  }

  /** A dispatch can make row and letter disagree if and only if the event already has a letter when
      it starts, which is another check that the worker callback does not make. */
  lemma DisagreementExactlyWhenBuried(names: seq<string>, now: nat, c: Cell)
    requires Shape(names, c) && Messages(c) && Agree(c) && c.job.Waiting?
    ensures (exists ls :: OneDispatch(ls) && Run(names, now, c, ls).Some? && !Agree(Run(names, now, c, ls).value))
       <==> c.dead != []
  {
    if c.dead != [] {
      var ls := BuriedCanDisagree(names, now, c);
    } else {
      forall ls | OneDispatch(ls) && Run(names, now, c, ls).Some? ensures Agree(Run(names, now, c, ls).value) {
        DispatchKeepsAgreement(names, now, c, ls);
      }
    }
  }

  /** Action k of the run starts a dispatch of event i although it has a letter. */
  ghost predicate StartsBuried(reg: Registry, acts: seq<Action>, i: nat, k: nat)
    requires k < |acts|
  {
    && acts[k] == At(i, Start) && Execute(reg, acts[..k]).Some?
    && i < |Execute(reg, acts[..k]).value.cells| && Execute(reg, acts[..k]).value.cells[i].dead != []
  }

  /** So over whole runs, with any crashes and early dispatches, row and letter agree as long as no
      dispatch of the event starts after its burial. */
  lemma {:induction false} LettersAgree(reg: Registry, acts: seq<Action>, i: nat)
    requires Execute(reg, acts).Some? && i < |Execute(reg, acts).value.cells|
    requires forall k :: 0 <= k < |acts| ==> !StartsBuried(reg, acts, i, k)
    ensures var c := Execute(reg, acts).value.cells[i];
            Agree(c) && Unburied(Names(reg, c.row.event.eventType), c)
  {
    if acts != [] {
      var n := |acts| - 1;
      var s := Execute(reg, acts[..n]).value;
      Reachable(reg, acts);
      if i < |s.cells| {
        forall k | 0 <= k < n ensures !StartsBuried(reg, acts[..n], i, k) {
          assert acts[..n][..k] == acts[..k];
          assert !StartsBuried(reg, acts, i, k);
        }
        LettersAgree(reg, acts[..n], i);
        assert !StartsBuried(reg, acts, i, n);
        StepAgree(reg, s, acts[n], i);
      }
    }
  }

  lemma StepAgree(reg: Registry, s: System, a: Action, i: nat)
    requires i < |s.cells| && Step(reg, s, a).Some?
    requires Unburied(Names(reg, s.cells[i].row.event.eventType), s.cells[i])
    requires a == At(i, Start) ==> s.cells[i].dead == []
    ensures var c := Step(reg, s, a).value.cells[i];
            Unburied(Names(reg, c.row.event.eventType), c)
  {
    match a
    case Poll => PollExact(s.cells, s.now, POLL_LIMIT, i);
    case At(k, l) =>
      if k == i {
        var names := Names(reg, s.cells[i].row.event.eventType);
        UnburiedKept(names, s.now, s.cells[i], l);
        StepFrame(names, s.now, s.cells[i], l);
      }
    case _ =>
  }

  // ------------------------------------------------------------- a run that breaks both promises

  const REDISPATCHED: seq<Action> := Failing(MAX_RETRIES) + [At(0, Bury(Acked))] + [At(0, Crash)] + ATTEMPT

  /** Five failures, the burial, and a crash before the job is acknowledged: the redelivered job fails
      a sixth time, past the limit of five, beside a letter that counts four. */
  lemma RedispatchBreaksLimitAndLetter()
    ensures Execute(REG, REDISPATCHED).Some? && |Execute(REG, REDISPATCHED).value.cells| == 1
    ensures var c := Execute(REG, REDISPATCHED).value.cells[0];
            && c.row.retryCount == 6 && c.row.maxRetries == 5
            && |c.dead| == 1 && c.dead[0].retryCount == 4 && !Agree(c)
  {
    var acts := Failing(MAX_RETRIES);
    FailingRuns(MAX_RETRIES);
    var s := Execute(REG, acts).value;
    assert s.cells == [s.cells[0]];
    BuriedAndRedelivered(acts, s.now, s.cells[0]);
  }

  lemma BuriedAndRedelivered(acts: seq<Action>, now: nat, c: Cell)
    requires Execute(REG, acts) == Some(System(now, [c]))
    requires c.row.event == EVENT && c.job.Active? && c.job.work.Burying? && c.dead == []
    requires c.job.work.snap.retryCount == 4 && c.row.retryCount == c.row.maxRetries == 5
    ensures var s := Execute(REG, acts + [At(0, Bury(Acked))] + [At(0, Crash)] + ATTEMPT);
            && s.Some? && |s.value.cells| == 1
            && var d := s.value.cells[0];
               d.row.retryCount == 6 && d.row.maxRetries == 5 && |d.dead| == 1 && d.dead[0].retryCount == 4
  {
    var c1 := c.(dead := [Letter(c.job.work.snap)], job := Active(Returned));
    var c2 := c1.(job := Waiting, ledger := CrashLedger(["h"], c1, Returned));
    StepRuns(acts, now, c, Bury(Acked), c1);
    StepRuns(acts + [At(0, Bury(Acked))], now, c1, Crash, c2);
    AttemptRuns(acts + [At(0, Bury(Acked))] + [At(0, Crash)], now, c2);
  }
}
