/** Which events can still be decided. A failed job is kept for ever and keeps its event from getting
    another; ten such events that are due keep every younger event without a job from getting one. */
module Stranding {
  import opened Wrappers
  import opened Outbox
  import opened Protocol
  import opened Discipline
  import opened OutboxRuns
  import opened OutboxLimits

  // ------------------------------------------------------------- no row is left in processing

  predicate Idle(c: Cell) {
    c.job.NoJob? || c.job.KeptCompleted?
  }

  /** A row is in processing only while a job that has not completed stands for it. */
  ghost predicate Attended(c: Cell) {
    Idle(c) || (c.job.Active? && AfterDecision(c.job.work)) ==> c.row.status != Processing
  }

  lemma AttendedKept(names: seq<string>, now: nat, c: Cell, l: Label)
    requires Attended(c) && Next(names, now, c, l).Some?
    ensures Attended(Next(names, now, c, l).value)
  {
  }

  /** In every run, an event whose job has completed or that has none is not in processing: crashes
      and lost writes leave a row in processing only together with a job. */
  lemma {:induction false} NoneLeftProcessing(reg: Registry, acts: seq<Action>, i: nat)
    requires Execute(reg, acts).Some? && i < |Execute(reg, acts).value.cells|
    ensures Attended(Execute(reg, acts).value.cells[i])
  {
    if acts != [] {
      var s, a := Execute(reg, acts[..|acts| - 1]).value, acts[|acts| - 1];
      if i < |s.cells| {
        NoneLeftProcessing(reg, acts[..|acts| - 1], i);
        match a
        case Poll => PollExact(s.cells, s.now, POLL_LIMIT, i);
        case At(k, l) => if k == i { AttendedKept(Names(reg, s.cells[i].row.event.eventType), s.now, s.cells[i], l); }
        case _ =>
      }
    }
  }

  // ------------------------------------------------------------- stranded events

  /** A due row that no poll can help: its job has failed for good. */
  predicate Stuck(c: Cell, now: nat) {
    c.job.KeptFailed? && Due(c.row, now)
  }

  function StuckCount(cells: seq<Cell>, now: nat): nat {
    if cells == [] then 0 else (if Stuck(cells[0], now) then 1 else 0) + StuckCount(cells[1..], now)
  }

  /** The first moment from now on at which the row's delay is over. */
  function Wake(row: Row, now: nat): nat {
    if row.nextRetryAt.Some? && row.nextRetryAt.value > now then row.nextRetryAt.value else now
  }

  /** The event's job has failed, or it needs a new job and, when its time comes, ten older events
      whose jobs have failed take up the whole poll. */
  predicate Stranded(s: System, i: nat)
    requires i < |s.cells|
  {
    || s.cells[i].job.KeptFailed?
    || (Idle(s.cells[i]) && StuckCount(s.cells[..i], Wake(s.cells[i].row, s.now)) >= POLL_LIMIT)
  }

  /** No poll adds a job for event i from an old query. */
  ghost predicate Timely(acts: seq<Action>, i: nat) {
    forall k :: 0 <= k < |acts| ==> !(acts[k].At? && acts[k].index == i && acts[k].move.StaleEnqueue?)
  }

  lemma {:induction false} StuckGrows(a: seq<Cell>, b: seq<Cell>, now: nat, later: nat)
    requires |a| == |b| && forall k :: 0 <= k < |a| && Stuck(a[k], now) ==> Stuck(b[k], later)
    ensures StuckCount(a, now) <= StuckCount(b, later)
  {
    if a != [] { StuckGrows(a[1..], b[1..], now, later); }
  }

  lemma {:induction false} StuckPrefix(cells: seq<Cell>, now: nat, j: nat, i: nat)
    requires j <= i <= |cells|
    ensures StuckCount(cells[..j], now) <= StuckCount(cells[..i], now)
  {
    if j > 0 {
      StuckPrefix(cells[1..], now, j - 1, i - 1);
      assert cells[..j][1..] == cells[1..][..j - 1] && cells[..i][1..] == cells[1..][..i - 1];
    }
  }

  lemma {:induction false} StuckAreDue(cells: seq<Cell>, now: nat)
    ensures StuckCount(cells, now) <= DueCount(cells, now)
    ensures (forall k :: 0 <= k < |cells| && Due(cells[k].row, now) ==> cells[k].job.KeptFailed?) ==>
              StuckCount(cells, now) == DueCount(cells, now)
  {
    if cells != [] { StuckAreDue(cells[1..], now); }
  }

  // ------------------------------------------------------------- stranded for ever

  lemma StrandedStep(reg: Registry, s: System, a: Action, i: nat)
    requires i < |s.cells| && Stranded(s, i) && Step(reg, s, a).Some?
    requires !(a.At? && a.index == i && a.move.StaleEnqueue?)
    ensures var s' := Step(reg, s, a).value;
            && i < |s'.cells| && Stranded(s', i)
            && s'.cells[i].row == s.cells[i].row && s'.cells[i].dead == s.cells[i].dead
  {
    var s' := Step(reg, s, a).value;
    var t := Wake(s.cells[i].row, s.now);
    if a.Poll? {
      forall k | 0 <= k < |s.cells| { PollExact(s.cells, s.now, POLL_LIMIT, k); }
      StuckAreDue(s.cells[..i], s.now);
    }
    StuckGrows(s.cells[..i], s'.cells[..i], t, Wake(s'.cells[i].row, s'.now));
  }

  // ------------------------------------------------------------- continuing a run

  function From(reg: Registry, s: System, more: seq<Action>): Option<System> {
    if more == [] then Some(s)
    else
      var p := From(reg, s, more[..|more| - 1]);
      if p.None? then None else Step(reg, p.value, more[|more| - 1])
  }

  lemma FromSnoc(reg: Registry, s: System, more: seq<Action>, a: Action)
    requires From(reg, s, more).Some?
    ensures From(reg, s, more + [a]) == Step(reg, From(reg, s, more).value, a)
  {
    assert (more + [a])[..|more|] == more;
  }

  lemma FromOne(reg: Registry, s: System, a: Action)
    ensures From(reg, s, [a]) == Step(reg, s, a)
  {
    FromSnoc(reg, s, [], a);
    assert [] + [a] == [a];
  }

  lemma {:induction false} FromCompose(reg: Registry, s: System, a: seq<Action>, b: seq<Action>)
    requires From(reg, s, a).Some?
    ensures From(reg, s, a + b) == From(reg, From(reg, s, a).value, b)
  {
    if b == [] {
      assert a + b == a;
    } else {
      FromCompose(reg, s, a, b[..|b| - 1]);
      assert (a + b)[..|a + b| - 1] == a + b[..|b| - 1];
    }
  }

  lemma {:induction false} ExecuteFrom(reg: Registry, acts: seq<Action>, more: seq<Action>)
    requires Execute(reg, acts).Some?
    ensures Execute(reg, acts + more) == From(reg, Execute(reg, acts).value, more)
  {
    if more == [] {
      assert acts + more == acts;
    } else {
      ExecuteFrom(reg, acts, more[..|more| - 1]);
      assert (acts + more)[..|acts + more| - 1] == acts + more[..|more| - 1];
    }
  }

  lemma {:induction false} StrandedForever(reg: Registry, s: System, more: seq<Action>, i: nat)
    requires i < |s.cells| && Stranded(s, i) && Timely(more, i) && From(reg, s, more).Some?
    ensures var s' := From(reg, s, more).value;
            && i < |s'.cells| && Stranded(s', i)
            && s'.cells[i].row == s.cells[i].row && s'.cells[i].dead == s.cells[i].dead
  {
    if more != [] {
      var front := more[..|more| - 1];
      assert Timely(front, i);
      StrandedForever(reg, s, front, i);
      StrandedStep(reg, From(reg, s, front).value, more[|more| - 1], i);
    }
  }

  // ------------------------------------------------------------- completing one event

  /** Steps of a worker that has started. */
  ghost predicate AfterStart(ls: seq<Label>) {
    forall k :: 0 <= k < |ls| ==> !ls[k].Start? && !ls[k].Enqueue? && !ls[k].StaleEnqueue?
  }

  /** The worker is at handler k of its loop, with no error so far. */
  predicate AtTurn(c: Cell, k: nat) {
    c.job.Active? && c.job.work.Looping? && c.job.work.next == k && c.job.work.errors == []
  }

  /** One turn of the loop without an error. */
  function Turn(name: string, snap: Row): seq<Label> {
    if IsDone(snap.handlerStatus, name) then [Skip] else [Handle(Succeeds), Save(Acked)]
  }

  lemma TurnRuns(names: seq<string>, now: nat, c: Cell, k: nat)
    requires AtTurn(c, k) && k < |names|
    ensures var d := Run(names, now, c, Turn(names[k], c.job.work.snap));
            d.Some? && AtTurn(d.value, k + 1) && d.value.ledger.acks == c.ledger.acks
  {
    if IsDone(c.job.work.snap.handlerStatus, names[k]) {
      RunOne(names, now, c, Skip);
    } else {
      RunTwo(names, now, c, Handle(Succeeds), Save(Acked));
    }
  }

  /** From within its handler loop a worker can reach the loop's end without an error. */
  lemma {:induction false} LoopCompletes(names: seq<string>, now: nat, c: Cell, k: nat) returns (ls: seq<Label>)
    requires AtTurn(c, k) && k <= |names|
    ensures AfterStart(ls) && Run(names, now, c, ls).Some? && AtTurn(Run(names, now, c, ls).value, |names|)
    ensures Run(names, now, c, ls).value.ledger.acks == c.ledger.acks
    decreases |names| - k
  {
    if k == |names| { return []; }
    var turn := Turn(names[k], c.job.work.snap);
    TurnRuns(names, now, c, k);
    var rest := LoopCompletes(names, now, Run(names, now, c, turn).value, k + 1);
    RunCompose(names, now, c, turn, rest);
    ls := turn + rest;
  }

  lemma FinishRuns(names: seq<string>, now: nat, c: Cell)
    requires c.job.Active? && c.job.work.Succeeding?
    ensures var d := Run(names, now, c, [Succeed(Acked), Ack]);
            && d.Some? && d.value.row.status == Completed && d.value.job.KeptCompleted?
            && d.value.ledger.acks == c.ledger.acks + 1
  {
    RunTwo(names, now, c, Succeed(Acked), Ack);
  }

  /** A worker can reach the completing write. */
  lemma ReachSuccess(names: seq<string>, now: nat, c: Cell) returns (ls: seq<Label>)
    requires c.job.Active? && c.job.work.Loaded?
    ensures AfterStart(ls) && Run(names, now, c, ls).Some?
    ensures var d := Run(names, now, c, ls).value;
            d.job.Active? && d.job.work.Succeeding? && d.ledger.acks == c.ledger.acks
  {
    if names == [] {
      RunOne(names, now, c, NoHandlers);
      return [NoHandlers];
    }
    RunOne(names, now, c, Mark(Acked));
    var c1 := Run(names, now, c, [Mark(Acked)]).value;
    var loop := LoopCompletes(names, now, c1, 0);
    RunSnoc(names, now, c1, loop, EndLoop);
    RunCompose(names, now, c, [Mark(Acked)], loop + [EndLoop]);
    ls := [Mark(Acked)] + (loop + [EndLoop]);
  }

  /** After its start, a dispatch can complete its event whatever its row says. */
  lemma DispatchCompletes(names: seq<string>, now: nat, c: Cell) returns (ls: seq<Label>)
    requires c.job.Active? && c.job.work.Loaded?
    ensures AfterStart(ls) && Run(names, now, c, ls).Some?
    ensures var d := Run(names, now, c, ls).value;
            d.row.status == Completed && d.job.KeptCompleted? && d.ledger.acks == c.ledger.acks + 1
  {
    var reach := ReachSuccess(names, now, c);
    FinishRuns(names, now, Run(names, now, c, reach).value);
    RunCompose(names, now, c, reach, [Succeed(Acked), Ack]);
    ls := reach + [Succeed(Acked), Ack];
  }

  function Ats(i: nat, ls: seq<Label>): seq<Action> {
    if ls == [] then [] else Ats(i, ls[..|ls| - 1]) + [At(i, ls[|ls| - 1])]
  }

  /** Every continuation below contains no stale poll at all. */
  ghost predicate AllTimely(acts: seq<Action>) {
    forall k :: 0 <= k < |acts| ==> !(acts[k].At? && acts[k].move.StaleEnqueue?)
  }

  lemma StepLifts(reg: Registry, s: System, i: nat, c: Cell, l: Label, d: Cell)
    requires i < |s.cells| && !l.Start? && !l.Enqueue?
    requires Next(Names(reg, c.row.event.eventType), s.now, c, l) == Some(d)
    ensures Step(reg, s.(cells := s.cells[i := c]), At(i, l)) == Some(s.(cells := s.cells[i := d]))
  {
    assert s.cells[i := c][i := d] == s.cells[i := d];
  }

  /** A worker's steps are steps of the system. */
  lemma {:induction false} StepsLift(reg: Registry, s: System, i: nat, ls: seq<Label>)
    requires i < |s.cells| && AfterStart(ls)
    requires Run(Names(reg, s.cells[i].row.event.eventType), s.now, s.cells[i], ls).Some?
    ensures var d := Run(Names(reg, s.cells[i].row.event.eventType), s.now, s.cells[i], ls).value;
            && From(reg, s, Ats(i, ls)) == Some(s.(cells := s.cells[i := d]))
            && d.row.event == s.cells[i].row.event
    ensures AllTimely(Ats(i, ls))
  {
    if ls != [] {
      var front, l := ls[..|ls| - 1], ls[|ls| - 1];
      StepsLift(reg, s, i, front);
      var names := Names(reg, s.cells[i].row.event.eventType);
      var c := Run(names, s.now, s.cells[i], front).value;
      StepFrame(names, s.now, c, l);
      var d := Next(names, s.now, c, l).value;
      StepLifts(reg, s, i, c, l, d);
      FromSnoc(reg, s, Ats(i, front), At(i, l));
      assert Ats(i, ls) == Ats(i, front) + [At(i, l)];
      assert Run(names, s.now, s.cells[i], ls) == Some(d);
    } else {
      assert s.cells[i := s.cells[i]] == s.cells;
    }
  }

  // ------------------------------------------------------------- making room

  /** No worker is busy. */
  ghost predicate Quiet(s: System) {
    forall k :: 0 <= k < |s.cells| ==> !s.cells[k].job.Active?
  }

  lemma {:induction false} QuietCount(cells: seq<Cell>)
    requires forall k :: 0 <= k < |cells| ==> !cells[k].job.Active?
    ensures ActiveCount(cells) == 0
  {
    if cells != [] { QuietCount(cells[1..]); }
  }

  /** All workers may crash. */
  lemma {:induction false} Quiesce(reg: Registry, s: System, n: nat) returns (more: seq<Action>)
    requires n <= |s.cells|
    ensures AllTimely(more) && From(reg, s, more).Some?
    ensures var s' := From(reg, s, more).value;
            && s'.now == s.now && |s'.cells| == |s.cells|
            && forall k :: 0 <= k < |s.cells| ==>
                 && s'.cells[k].row == s.cells[k].row
                 && s'.cells[k].job == (if k < n && s.cells[k].job.Active? then Waiting else s.cells[k].job)
  {
    if n == 0 { return []; }
    more := Quiesce(reg, s, n - 1);
    if s.cells[n - 1].job.Active? {
      FromSnoc(reg, s, more, At(n - 1, Crash));
      more := more + [At(n - 1, Crash)];
    }
  }

  /** With no worker busy, an event whose job waits can be completed, and nothing else changes. */
  lemma CompleteWaiting(reg: Registry, s: System, i: nat) returns (more: seq<Action>)
    requires Quiet(s) && i < |s.cells| && s.cells[i].job.Waiting?
    ensures AllTimely(more) && From(reg, s, more).Some?
    ensures var s' := From(reg, s, more).value;
            && s'.now == s.now && |s'.cells| == |s.cells|
            && (forall k :: 0 <= k < |s.cells| && k != i ==> s'.cells[k] == s.cells[k])
            && s'.cells[i].row.status == Completed && s'.cells[i].job.KeptCompleted?
            && s'.cells[i].ledger.acks == s.cells[i].ledger.acks + 1
  {
    var names := Names(reg, s.cells[i].row.event.eventType);
    QuietCount(s.cells);
    var c := Next(names, s.now, s.cells[i], Start).value;
    var s1 := s.(cells := s.cells[i := c]);
    FromOne(reg, s, At(i, Start));
    var ls := DispatchCompletes(names, s.now, c);
    StepsLift(reg, s1, i, ls);
    FromCompose(reg, s, [At(i, Start)], Ats(i, ls));
    more := [At(i, Start)] + Ats(i, ls);
  }

  // ------------------------------------------------------------- clearing the poll

  /** What clearing events leaves of the others: their rows, and which jobs have failed. */
  ghost predicate Preserved(s: System, s': System, from: nat) {
    && s'.now == s.now && |s'.cells| == |s.cells| && (Quiet(s) ==> Quiet(s'))
    && (forall k :: from <= k < |s.cells| ==> s'.cells[k].row == s.cells[k].row)
    && (forall k :: 0 <= k < |s.cells| ==>
          && (s'.cells[k].job.KeptFailed? <==> s.cells[k].job.KeptFailed?)
          && (s.cells[k].job.KeptFailed? ==> s'.cells[k].row == s.cells[k].row))
  }

  /** Every older due row has a failed job. */
  ghost predicate Cleared(s: System, j: nat)
    requires j <= |s.cells|
  {
    forall k :: 0 <= k < j && Due(s.cells[k].row, s.now) ==> s.cells[k].job.KeptFailed?
  }

  /** Eviction prepares an idle event for the poll. */
  lemma Freed(reg: Registry, s: System, j: nat) returns (more: seq<Action>)
    requires j < |s.cells| && Idle(s.cells[j])
    ensures AllTimely(more) && From(reg, s, more) == Some(s.(cells := s.cells[j := s.cells[j].(job := NoJob)]))
  {
    if s.cells[j].job.NoJob? {
      assert s.cells[j := s.cells[j]] == s.cells;
      return [];
    }
    assert s.cells[j := s.cells[j]] == s.cells;
    StepLifts(reg, s, j, s.cells[j], Evict, s.cells[j].(job := NoJob));
    FromOne(reg, s, At(j, Evict));
    more := [At(j, Evict)];
  }

  lemma PollPreserves(reg: Registry, s: System, j: nat)
    requires j < |s.cells| && Cleared(s, j) && StuckCount(s.cells[..j], s.now) < POLL_LIMIT
    requires Due(s.cells[j].row, s.now) && s.cells[j].job.NoJob?
    ensures var s' := Step(reg, s, Poll).value;
            && Preserved(s, s', 0) && s'.cells[j].job.Waiting?
  {
    StuckAreDue(s.cells[..j], s.now);
    forall k | 0 <= k < |s.cells| { PollExact(s.cells, s.now, POLL_LIMIT, k); }
  }

  /** An idle due event behind fewer than ten failed ones gets a job from the next poll. */
  lemma PollReaches(reg: Registry, s: System, j: nat) returns (more: seq<Action>)
    requires j < |s.cells| && Cleared(s, j) && StuckCount(s.cells[..j], s.now) < POLL_LIMIT
    requires Due(s.cells[j].row, s.now) && Idle(s.cells[j])
    ensures AllTimely(more) && From(reg, s, more).Some?
    ensures Preserved(s, From(reg, s, more).value, 0) && From(reg, s, more).value.cells[j].job.Waiting?
  {
    more := Freed(reg, s, j);
    var s1 := From(reg, s, more).value;
    assert s1.cells[..j] == s.cells[..j];
    PollPreserves(reg, s1, j);
    FromSnoc(reg, s, more, Poll);
    more := more + [Poll];
  }

  /** Then it can be completed. */
  lemma ClearOne(reg: Registry, s: System, j: nat) returns (more: seq<Action>)
    requires Quiet(s) && j < |s.cells| && Cleared(s, j) && StuckCount(s.cells[..j], s.now) < POLL_LIMIT
    requires Due(s.cells[j].row, s.now) && !s.cells[j].job.KeptFailed?
    ensures AllTimely(more) && From(reg, s, more).Some?
    ensures var s' := From(reg, s, more).value;
            && Preserved(s, s', j + 1) && s'.cells[j].row.status == Completed
            && forall k :: 0 <= k < j ==> s'.cells[k].row == s.cells[k].row
  {
    more := [];
    if Idle(s.cells[j]) { more := PollReaches(reg, s, j); }
    var s1 := From(reg, s, more).value;
    var rest := CompleteWaiting(reg, s1, j);
    FromCompose(reg, s, more, rest);
    more := more + rest;
  }

  /** So all older due events but the failed ones can be got out of the way. */
  lemma {:induction false} ClearUpTo(reg: Registry, s: System, j: nat) returns (more: seq<Action>)
    requires Quiet(s) && j <= |s.cells| && StuckCount(s.cells[..j], s.now) < POLL_LIMIT
    ensures AllTimely(more) && From(reg, s, more).Some?
    ensures Preserved(s, From(reg, s, more).value, j) && Cleared(From(reg, s, more).value, j)
  {
    if j == 0 { return []; }
    StuckPrefix(s.cells, s.now, j - 1, j);
    more := ClearUpTo(reg, s, j - 1);
    var s1 := From(reg, s, more).value;
    if Due(s1.cells[j - 1].row, s1.now) && !s1.cells[j - 1].job.KeptFailed? {
      StuckGrows(s1.cells[..j - 1], s.cells[..j - 1], s.now, s.now);
      var rest := ClearOne(reg, s1, j - 1);
      FromCompose(reg, s, more, rest);
      more := more + rest;
    }
  }

  // ------------------------------------------------------------- the exact condition

  lemma DecideIdle(reg: Registry, s: System, i: nat) returns (more: seq<Action>)
    requires Quiet(s) && i < |s.cells| && Idle(s.cells[i]) && s.cells[i].row.status == Pending && !Stranded(s, i)
    ensures AllTimely(more) && From(reg, s, more).Some?
    ensures i < |From(reg, s, more).value.cells| && !Open(From(reg, s, more).value.cells[i].row)
  {
    var pause := Tick(Wake(s.cells[i].row, s.now) - s.now);
    FromOne(reg, s, pause);
    var s1 := From(reg, s, [pause]).value;
    var clear := ClearUpTo(reg, s1, i);
    var s2 := From(reg, s1, clear).value;
    StuckGrows(s2.cells[..i], s1.cells[..i], s1.now, s1.now);
    var last := ClearOne(reg, s2, i);
    FromCompose(reg, s1, clear, last);
    FromCompose(reg, s, [pause], clear + last);
    more := [pause] + (clear + last);
  }

  lemma Decide(reg: Registry, s: System, i: nat) returns (more: seq<Action>)
    requires i < |s.cells| && Open(s.cells[i].row) && Attended(s.cells[i]) && !Stranded(s, i)
    ensures AllTimely(more) && From(reg, s, more).Some?
    ensures i < |From(reg, s, more).value.cells| && !Open(From(reg, s, more).value.cells[i].row)
  {
    more := Quiesce(reg, s, |s.cells|);
    var s1 := From(reg, s, more).value;
    var rest;
    if s1.cells[i].job.Waiting? {
      rest := CompleteWaiting(reg, s1, i);
    } else {
      StuckGrows(s1.cells[..i], s.cells[..i], Wake(s.cells[i].row, s.now), Wake(s.cells[i].row, s.now));
      rest := DecideIdle(reg, s1, i);
    }
    FromCompose(reg, s, more, rest);
    more := more + rest;
  }

  /** In every reachable state an open event can still be decided, by polls that are not stale, if and
      only if it is not stranded. A stranded one keeps its row for ever, and without early dispatches
      it never gets a dead letter. */
  lemma StrandedExactly(reg: Registry, acts: seq<Action>, i: nat)
    requires Execute(reg, acts).Some? && i < |Execute(reg, acts).value.cells|
    requires Open(Execute(reg, acts).value.cells[i].row)
    ensures (exists more :: Timely(more, i) && Execute(reg, acts + more).Some?
                            && i < |Execute(reg, acts + more).value.cells|
                            && !Open(Execute(reg, acts + more).value.cells[i].row))
       <==> !Stranded(Execute(reg, acts).value, i)
    ensures Stranded(Execute(reg, acts).value, i) && Execute(reg, acts).value.cells[i].ledger.early == 0 ==>
              forall more :: Timely(more, i) && Execute(reg, acts + more).Some? ==>
                i < |Execute(reg, acts + more).value.cells| && Execute(reg, acts + more).value.cells[i].dead == []
  {
    var s := Execute(reg, acts).value;
    NoneLeftProcessing(reg, acts, i);
    Reachable(reg, acts);
    if Stranded(s, i) {
      forall more | Timely(more, i) && Execute(reg, acts + more).Some?
        ensures i < |Execute(reg, acts + more).value.cells|
        ensures Execute(reg, acts + more).value.cells[i].row == s.cells[i].row
        ensures Execute(reg, acts + more).value.cells[i].dead == s.cells[i].dead
      {
        ExecuteFrom(reg, acts, more);
        StrandedForever(reg, s, more, i);
      }
    } else {
      var more := Decide(reg, s, i);
      ExecuteFrom(reg, acts, more);
      assert Timely(more, i);
    }
  }

  // ------------------------------------------------------------- an event that is lost

  /** The k-th try of a job whose writes are all lost. */
  const LOST_TRY: seq<Action> := [At(0, Start), At(0, Mark(LOST)), At(0, Settle(LOST))]

  function Rejecting(k: nat): seq<Action>
    requires k >= 1
  {
    (if k == 1 then [Publish(EVENT)] + [Poll] else Rejecting(k - 1) + [At(0, Requeue)]) + LOST_TRY
  }

  ghost predicate RejectedOften(s: System) {
    && s.now == 0 && |s.cells| == 1
    && var c := s.cells[0];
       && c.row == NewRow(EVENT, 0) && c.job == Active(Rejected) && c.dead == []
       && c.ledger.late == 0 && c.ledger.early == 0
  }

  lemma LostTryRuns(acts: seq<Action>, c: Cell)
    requires Execute(REG, acts) == Some(System(0, [c]))
    requires c.row == NewRow(EVENT, 0) && c.job.Waiting? && c.dead == [] && c.ledger.late == 0 && c.ledger.early == 0
    ensures Execute(REG, acts + LOST_TRY).Some? && RejectedOften(Execute(REG, acts + LOST_TRY).value)
  {
    var c1 := c.(job := Active(Loaded(c.row)));
    var c2 := c1.(job := Active(Recovering(c.row, "x")), ledger := Fault(c.ledger, LOST));
    var c3 := c2.(job := Active(Rejected), ledger := Fault(c2.ledger, LOST));
    StepRuns(acts, 0, c, Start, c1);
    StepRuns(acts + [At(0, Start)], 0, c1, Mark(LOST), c2);
    StepRuns(acts + [At(0, Start)] + [At(0, Mark(LOST))], 0, c2, Settle(LOST), c3);
    assert acts + LOST_TRY == acts + [At(0, Start)] + [At(0, Mark(LOST))] + [At(0, Settle(LOST))];
  }

  lemma FirstTry()
    ensures Execute(REG, Rejecting(1)).Some? && RejectedOften(Execute(REG, Rejecting(1)).value)
  {
    PublishRuns();
    PollRuns([Publish(EVENT)], 0, NewCell(EVENT, 0));
    LostTryRuns([Publish(EVENT)] + [Poll], NewCell(EVENT, 0).(job := Waiting));
  }

  lemma NextTry(acts: seq<Action>)
    requires Execute(REG, acts).Some? && RejectedOften(Execute(REG, acts).value)
    ensures var r := Execute(REG, acts + [At(0, Requeue)] + LOST_TRY); r.Some? && RejectedOften(r.value)
  {
    var c := Execute(REG, acts).value.cells[0];
    assert Execute(REG, acts).value.cells == [c];
    StepRuns(acts, 0, c, Requeue, c.(job := Waiting));
    LostTryRuns(acts + [At(0, Requeue)], c.(job := Waiting));
  }

  lemma {:induction false} RejectingRuns(k: nat)
    requires k >= 1
    ensures Execute(REG, Rejecting(k)).Some? && RejectedOften(Execute(REG, Rejecting(k)).value)
  {
    if k == 1 {
      FirstTry();
    } else {
      RejectingRuns(k - 1);
      NextTry(Rejecting(k - 1));
    }
  }

  /** Five tries of its job that cannot reach the database are enough to lose an event: the row is
      pending with no failure counted, no late fault has happened, and it is stranded without a
      dead letter. */
  lemma LostWithoutLetter()
    ensures var r := Execute(REG, Rejecting(5) + [At(0, GiveUp)]);
            && r.Some? && |r.value.cells| == 1 && Stranded(r.value, 0)
            && var c := r.value.cells[0];
               c.row.status == Pending && c.row.retryCount == 0 && c.dead == [] && c.ledger.late == 0 && c.ledger.early == 0
  {
    RejectingRuns(5);
    GivingUp(Rejecting(5));
  }

  lemma GivingUp(acts: seq<Action>)
    requires Execute(REG, acts).Some? && RejectedOften(Execute(REG, acts).value)
    ensures var c := Execute(REG, acts).value.cells[0];
            Execute(REG, acts + [At(0, GiveUp)]) == Some(System(0, [c.(job := KeptFailed)]))
  {
    var c := Execute(REG, acts).value.cells[0];
    assert Execute(REG, acts).value.cells == [c];
    StepRuns(acts, 0, c, GiveUp, c.(job := KeptFailed));
  }
}
