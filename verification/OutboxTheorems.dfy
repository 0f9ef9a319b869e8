/** The promises of the outbox, stated over whole runs. */
module OutboxTheorems {
  import opened Wrappers
  import opened Outbox
  import opened Protocol
  import opened CellInvariant
  import opened Discipline
  import opened OutboxRuns
  import opened OutboxLimits
  import opened Pacing

  // ------------------------------------------------------------- executions per handler

  /** Actions that can lose the record of a success of event `i`: a crash, or a lost status save. */
  predicate Losing(a: Action, i: nat) {
    a.At? && a.index == i && (a.move.Crash? || a.move.Stall? || (a.move.Save? && a.move.write.Dropped?))
  }

  function Losses(acts: seq<Action>, i: nat): nat {
    if acts == [] then 0
    else Losses(acts[..|acts| - 1], i) + (if Losing(acts[|acts| - 1], i) then 1 else 0)
  }

  lemma StepLoss(reg: Registry, s: System, a: Action, i: nat, h: string)
    requires Step(reg, s, a).Some? && i < |Step(reg, s, a).value.cells|
    ensures var s' := Step(reg, s, a).value;
            Count(s'.cells[i].ledger.lost, h)
              <= (if i < |s.cells| then Count(s.cells[i].ledger.lost, h) else 0) + (if Losing(a, i) then 1 else 0)
  {
    if a.Poll? { PollExact(s.cells, s.now, POLL_LIMIT, i); }
  }

  lemma {:induction false} LostAtMostLosses(reg: Registry, acts: seq<Action>, i: nat, h: string)
    requires Execute(reg, acts).Some? && i < |Execute(reg, acts).value.cells|
    ensures Count(Execute(reg, acts).value.cells[i].ledger.lost, h) <= Losses(acts, i)
  {
    if acts != [] {
      var before := acts[..|acts| - 1];
      var s := Execute(reg, before).value;
      StepLoss(reg, s, acts[|acts| - 1], i, h);
      if i < |s.cells| { LostAtMostLosses(reg, before, i, h); }
    }
  }

  /** In every interleaving a handler succeeds for an event at most once more than the number of its
      own successes lost between the call and the status save, which is at most the number of crashes
      and lost status saves of that event. */
  lemma SuccessesBounded(reg: Registry, acts: seq<Action>, i: nat, h: string)
    requires Execute(reg, acts).Some? && i < |Execute(reg, acts).value.cells|
    ensures var g := Execute(reg, acts).value.cells[i].ledger;
            Count(g.succ, h) <= 1 + Count(g.lost, h) <= 1 + Losses(acts, i)
  {
    Reachable(reg, acts);
    LostAtMostLosses(reg, acts, i, h);
    var c := Execute(reg, acts).value.cells[i];
    assert Conserved(Names(reg, c.row.event.eventType), c, h);
  }

  /** Completion means every registered handler succeeded: exactly once, plus once for every
      success whose record was lost; so exactly once in a run without crashes and lost saves. */
  lemma CompletedMeansAllSucceeded(reg: Registry, acts: seq<Action>, i: nat, h: string)
    requires Execute(reg, acts).Some? && i < |Execute(reg, acts).value.cells|
    requires Execute(reg, acts).value.cells[i].row.status == Completed
    requires h in Names(reg, Execute(reg, acts).value.cells[i].row.event.eventType)
    ensures var g := Execute(reg, acts).value.cells[i].ledger;
            && Count(g.succ, h) == 1 + Count(g.lost, h)
            && (Losses(acts, i) == 0 ==> Count(g.succ, h) == 1)
  {
    Reachable(reg, acts);
    LostAtMostLosses(reg, acts, i, h);
    var c := Execute(reg, acts).value.cells[i];
    assert Conserved(Names(reg, c.row.event.eventType), c, h);
  }

  // ------------------------------------------------------------- audit trail

  /** Never two audit documents for an event, whatever fails, and none about another event. A completed
      event has one if and only if its type has the audit handler, and any event has none without it. */
  lemma AuditedExactlyOnce(reg: Registry, acts: seq<Action>, i: nat)
    requires Execute(reg, acts).Some? && i < |Execute(reg, acts).value.cells|
    ensures var c := Execute(reg, acts).value.cells[i];
            && |c.audit| <= 1
            && (forall log :: log in c.audit ==>
                  && log.eventId == c.row.event.eventId && log.action == c.row.event.eventType
                  && log.resource == c.row.event.aggregateType && log.resourceId == c.row.event.aggregateId
                  && log.payload == c.row.event.payload)
            && (c.audit != [] ==> AUDIT_HANDLER in Names(reg, c.row.event.eventType))
            && (c.row.status == Completed ==>
                  (|c.audit| == 1 <==> AUDIT_HANDLER in Names(reg, c.row.event.eventType)))
  {
    Reachable(reg, acts);
    var c := Execute(reg, acts).value.cells[i];
    if c.row.status == Completed && AUDIT_HANDLER in Names(reg, c.row.event.eventType) {
      CompletedMeansAllSucceeded(reg, acts, i, AUDIT_HANDLER);
    }
  }

  // ------------------------------------------------------------- states of a row

  /** No dispatch of event i started at the retry limit. */
  ghost predicate NoneAtLimit(reg: Registry, acts: seq<Action>, i: nat) {
    forall k :: 0 <= k < |acts| ==> !StartsAtLimit(reg, acts, i, k)
  }

  /** What the status of a row says about its retries, in every run. The upper half needs that all
      dispatches were expected, or just that none started at the limit; the blame that every write was
      acknowledged and that the handler names are distinct. */
  lemma RowStates(reg: Registry, acts: seq<Action>, i: nat)
    requires Execute(reg, acts).Some? && i < |Execute(reg, acts).value.cells|
    ensures var c := Execute(reg, acts).value.cells[i]; var names := Names(reg, c.row.event.eventType);
            && c.row.retryCount == |c.ledger.failures|
            && (c.row.status == Pending ==> c.row.retryCount < MAX_RETRIES)
            && (c.row.status == Failed ==> c.row.retryCount >= MAX_RETRIES)
            && (c.ledger.early == 0 || NoneAtLimit(reg, acts, i) ==>
                  c.row.retryCount <= MAX_RETRIES && (c.row.status == Failed <==> c.row.retryCount == MAX_RETRIES))
            && (c.row.status == Failed && c.ledger.faults == 0 && Distinct(names) ==>
                  exists h :: h in names && h in c.row.handlerStatus && c.row.handlerStatus[h] == Broken)
  {
    Reachable(reg, acts);
    var c := Execute(reg, acts).value.cells[i];
    var names := Names(reg, c.row.event.eventType);
    if NoneAtLimit(reg, acts, i) { WithinOverRuns(reg, acts, i); }
    if c.row.status == Failed && c.ledger.faults == 0 && Distinct(names) {
      assert SomeBroken(names, c.row.handlerStatus, |names|);
      var j :| 0 <= j < |names| && names[j] in c.row.handlerStatus && c.row.handlerStatus[names[j]] == Broken;
      assert names[j] in names;
    }
  }

  /** Actions on event `i` that can reach past the writing of the row's fate: a crash, a deciding
      write that commits without acknowledgement, or a poll that adds a job from an old query. */
  predicate ReachesPast(a: Action, i: nat) {
    a.At? && a.index == i
    && (a.move.Crash? || a.move.StaleEnqueue? || ((a.move.Succeed? || a.move.Settle?) && a.move.write.Unacked?))
  }

  lemma StepNeedsFault(reg: Registry, s: System, a: Action, i: nat)
    requires i < |s.cells| && Step(reg, s, a).Some? && !ReachesPast(a, i) && s.cells[i].ledger.late == 0
    ensures Step(reg, s, a).value.cells[i].ledger.late == 0
  {
    if a.Poll? { PollExact(s.cells, s.now, POLL_LIMIT, i); }
  }

  lemma {:induction false} LateNeedsFault(reg: Registry, acts: seq<Action>, i: nat)
    requires Execute(reg, acts).Some? && i < |Execute(reg, acts).value.cells|
    requires forall k :: 0 <= k < |acts| ==> !ReachesPast(acts[k], i)
    ensures Execute(reg, acts).value.cells[i].ledger.late == 0
  {
    if acts != [] {
      var before := acts[..|acts| - 1];
      var s := Execute(reg, before).value;
      if i < |s.cells| {
        LateNeedsFault(reg, before, i);
        StepNeedsFault(reg, s, acts[|acts| - 1], i);
      }
    }
  }

  /** Without such actions no dispatch of the event ever starts early, so everything below that
      assumes expected dispatches holds of every run with handler failures, lost writes inside the
      loop, evictions and any interleaving of other events. */
  lemma DispatchesAreExpected(reg: Registry, acts: seq<Action>, i: nat)
    requires Execute(reg, acts).Some? && i < |Execute(reg, acts).value.cells|
    requires forall k :: 0 <= k < |acts| ==> !ReachesPast(acts[k], i)
    ensures var g := Execute(reg, acts).value.cells[i].ledger; g.late == 0 && g.early == 0
  {
    LateNeedsFault(reg, acts, i);
    Reachable(reg, acts);
  }

  /** What one step never takes back from a cell. */
  ghost predicate Later(c: Cell, c': Cell) {
    && c'.row.event == c.row.event
    && c.ledger.late <= c'.ledger.late
    && (forall h :: IsDone(c.row.handlerStatus, h) ==> IsDone(c'.row.handlerStatus, h))
    && (c'.ledger.late == 0 && !Open(c.row) ==> c'.row == c.row)
  }

  lemma CellLater(names: seq<string>, now: nat, c: Cell, l: Label)
    requires Shape(names, c) && Punctual(c, now) && Next(names, now, c, l).Some?
    ensures Later(c, Next(names, now, c, l).value)
  {
  }

  lemma StepLater(reg: Registry, s: System, a: Action, i: nat)
    requires SystemOk(reg, s) && Step(reg, s, a).Some? && i < |s.cells|
    ensures |s.cells| <= |Step(reg, s, a).value.cells| && Later(s.cells[i], Step(reg, s, a).value.cells[i])
  {
    assert CellOk(reg, s.cells[i], s.now);
    match a
    case Poll => PollExact(s.cells, s.now, POLL_LIMIT, i);
    case At(k, l) => if k == i { CellLater(Names(reg, s.cells[i].row.event.eventType), s.now, s.cells[i], l); }
    case _ =>
  }

  /** Looking back from any later moment of a run: a handler recorded as completed stays completed,
      and without late faults a completed or failed row is never touched again. */
  lemma {:induction false} DecidedIsFinal(reg: Registry, acts: seq<Action>, more: seq<Action>, i: nat)
    requires Execute(reg, acts + more).Some? && Execute(reg, acts).Some?
    requires i < |Execute(reg, acts).value.cells|
    ensures i < |Execute(reg, acts + more).value.cells|
    ensures Later(Execute(reg, acts).value.cells[i], Execute(reg, acts + more).value.cells[i])
    decreases |more|
  {
    if more == [] {
      assert acts + more == acts;
    } else {
      var front, last := more[..|more| - 1], more[|more| - 1];
      assert (acts + more)[..|acts + more| - 1] == acts + front;
      DecidedIsFinal(reg, acts, front, i);
      Reachable(reg, acts + front);
      StepLater(reg, Execute(reg, acts + front).value, last, i);
    }
  }

  lemma StepRests(reg: Registry, s: System, a: Action, i: nat)
    requires i < |s.cells| && Step(reg, s, a).Some? && a != At(i, Start)
    requires !Open(s.cells[i].row) && !Working(s.cells[i])
    ensures var c := Step(reg, s, a).value.cells[i]; c.row == s.cells[i].row && !Working(c)
  {
    if a.Poll? { PollExact(s.cells, s.now, POLL_LIMIT, i); }
  }

  /** Whatever faults there were, a decided row that no dispatch is working on stays as it is until a
      dispatch of it starts. */
  lemma {:induction false} DecidedRests(reg: Registry, acts: seq<Action>, more: seq<Action>, i: nat)
    requires Execute(reg, acts + more).Some? && Execute(reg, acts).Some?
    requires i < |Execute(reg, acts).value.cells|
    requires !Open(Execute(reg, acts).value.cells[i].row) && !Working(Execute(reg, acts).value.cells[i])
    requires forall k :: 0 <= k < |more| ==> more[k] != At(i, Start)
    ensures i < |Execute(reg, acts + more).value.cells|
    ensures var c := Execute(reg, acts + more).value.cells[i];
            c.row == Execute(reg, acts).value.cells[i].row && !Working(c)
    decreases |more|
  {
    if more == [] {
      assert acts + more == acts;
    } else {
      var front, last := more[..|more| - 1], more[|more| - 1];
      assert (acts + more)[..|acts + more| - 1] == acts + front;
      DecidedRests(reg, acts, front, i);
      StepRests(reg, Execute(reg, acts + front).value, last, i);
    }
  }

  // ------------------------------------------------------------- backoff

  /** No dispatch of event i started before the time its row named. */
  ghost predicate NoneBeforeSchedule(reg: Registry, acts: seq<Action>, i: nat) {
    forall k :: 0 <= k < |acts| ==> !StartsBeforeSchedule(reg, acts, i, k)
  }

  /** An event whose dispatches were all expected, or just none of which started before its row's time,
      ends failed no earlier than 60000 * (2^4 - 1) ms, fifteen minutes, after its first failure. */
  lemma BackoffBound(reg: Registry, acts: seq<Action>, i: nat)
    requires Execute(reg, acts).Some? && i < |Execute(reg, acts).value.cells|
    requires Execute(reg, acts).value.cells[i].row.status == Failed
    requires Execute(reg, acts).value.cells[i].ledger.early == 0 || NoneBeforeSchedule(reg, acts, i)
    ensures var g := Execute(reg, acts).value.cells[i].ledger;
            g.lastFailure >= g.firstFailure + BASE_DELAY_MS * (Pow2(MAX_RETRIES - 1) - 1)
            && BASE_DELAY_MS * (Pow2(MAX_RETRIES - 1) - 1) == 900000
  {
    Reachable(reg, acts);
    if NoneBeforeSchedule(reg, acts, i) { PacedOverRuns(reg, acts, i); }
    assert Pow2(4) == 16 by { assert Pow2(3) == 8; }
  }

  // ------------------------------------------------------------- dead letters

  /** Never two dead letters for an event, and always about that event. With expected dispatches only,
      its row is failed, the letter's retry count is one behind the row's, and its reason is the
      message of the failure before the last, because the snapshot predates the final write. */
  lemma DeadLetterAgreement(reg: Registry, acts: seq<Action>, i: nat)
    requires Execute(reg, acts).Some? && i < |Execute(reg, acts).value.cells|
    ensures var c := Execute(reg, acts).value.cells[i];
            && |c.dead| <= 1
            && (c.dead != [] ==> About(c.dead[0], c.row.event))
            && (c.dead != [] && c.ledger.early == 0 ==>
                  && c.row.status == Failed
                  && c.dead[0].retryCount == MAX_RETRIES - 1 && c.row.retryCount == MAX_RETRIES
                  && |c.ledger.failures| == MAX_RETRIES
                  && c.dead[0].failureReason
                       == (if c.ledger.failures[MAX_RETRIES - 2] == "" then "Unknown error"
                           else c.ledger.failures[MAX_RETRIES - 2]))
    ensures var cells := Execute(reg, acts).value.cells;
            forall j :: 0 <= j < |cells| && j != i && cells[i].dead != [] && cells[j].dead != []
                  ==> cells[i].dead[0].originalEventId != cells[j].dead[0].originalEventId
  {
    Reachable(reg, acts);
  }
}
