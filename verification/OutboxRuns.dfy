/** Every run of the outbox: any interleaving of publishers, polls and workers, with crashes,
    lost writes, stale polls, redelivery and eviction. */
module OutboxRuns {
  import opened Wrappers
  import opened Outbox
  import opened Protocol
  import opened CellInvariant
  import opened Discipline

  ghost predicate CellOk(reg: Registry, c: Cell, now: nat) {
    var names := Names(reg, c.row.event.eventType);
    Always(names, c) && Orderly(names, c, now) && c.row.maxRetries == MAX_RETRIES
  }

  ghost predicate UniqueIds(cells: seq<Cell>) {
    forall i, j :: 0 <= i < j < |cells| ==> cells[i].row.event.eventId != cells[j].row.event.eventId
  }

  ghost predicate OldestFirst(cells: seq<Cell>, now: nat) {
    && (forall i :: 0 <= i < |cells| ==> cells[i].row.createdAt <= now)
    && (forall i, j :: 0 <= i < j < |cells| ==> cells[i].row.createdAt <= cells[j].row.createdAt)
  }

  ghost predicate SystemOk(reg: Registry, s: System) {
    && (forall i :: 0 <= i < |s.cells| ==> CellOk(reg, s.cells[i], s.now))
    && UniqueIds(s.cells)
    && OldestFirst(s.cells, s.now)
    && ActiveCount(s.cells) <= CONCURRENCY
  }

  /** What no step changes, and that only a start makes a job active. */
  lemma StepFrame(names: seq<string>, now: nat, c: Cell, l: Label)
    requires Next(names, now, c, l).Some?
    ensures var c' := Next(names, now, c, l).value;
            && c'.row.event == c.row.event && c'.row.createdAt == c.row.createdAt
            && c'.row.maxRetries == c.row.maxRetries
            && (c'.job.Active? ==> c.job.Active? || l.Start?)
  {
  }

  lemma CellStep(reg: Registry, now: nat, c: Cell, l: Label)
    requires CellOk(reg, c, now)
    requires Next(Names(reg, c.row.event.eventType), now, c, l).Some?
    ensures var c' := Next(Names(reg, c.row.event.eventType), now, c, l).value;
            && CellOk(reg, c', now) && c'.row.event == c.row.event && c'.row.createdAt == c.row.createdAt
            && (c'.job.Active? ==> c.job.Active? || l.Start?)
  {
    var names := Names(reg, c.row.event.eventType);
    AlwaysKept(names, now, c, l);
    OrderlyKept(names, now, c, l);
    StepFrame(names, now, c, l);
  }

  /** So does every run of steps, in particular the run that an execution of dispatch performs. */
  lemma {:induction false} RunKept(reg: Registry, now: nat, c: Cell, ls: seq<Label>)
    requires CellOk(reg, c, now) && Run(Names(reg, c.row.event.eventType), now, c, ls).Some?
    ensures var c' := Run(Names(reg, c.row.event.eventType), now, c, ls).value;
            CellOk(reg, c', now) && c'.row.event == c.row.event
  {
    if ls != [] {
      RunKept(reg, now, c, ls[..|ls| - 1]);
      CellStep(reg, now, Run(Names(reg, c.row.event.eventType), now, c, ls[..|ls| - 1]).value, ls[|ls| - 1]);
    }
  }

  // ------------------------------------------------------------- the poll

  function DueCount(cells: seq<Cell>, now: nat): nat {
    if cells == [] then 0 else (if Due(cells[0].row, now) then 1 else 0) + DueCount(cells[1..], now)
  }

  /** The poll gives a job to exactly those due rows that have none and that fewer than `limit`
      older rows precede in the queue for it. */
  lemma {:induction false} PollExact(cells: seq<Cell>, now: nat, limit: nat, i: nat)
    requires i < |cells|
    ensures PollCells(cells, now, limit)[i]
         == if Due(cells[i].row, now) && cells[i].job.NoJob? && DueCount(cells[..i], now) < limit
            then cells[i].(job := Waiting) else cells[i]
  {
    if limit != 0 && i > 0 {
      var rest := if Due(cells[0].row, now) then limit - 1 else limit;
      PollExact(cells[1..], now, rest, i - 1);
      assert cells[..i][1..] == cells[1..][..i - 1];
    }
  }

  /** Head-of-line blocking: as long as ten due rows keep their old jobs, which a completed
      job does until it is evicted, no younger event is ever picked up. */
  lemma HeadOfLineBlocking(cells: seq<Cell>, now: nat)
    ensures PollCells(cells, now, POLL_LIMIT) == cells
       <==> forall i :: 0 <= i < |cells| && Due(cells[i].row, now) && DueCount(cells[..i], now) < 10
                        ==> !cells[i].job.NoJob?
  {
    forall i | 0 <= i < |cells| { PollExact(cells, now, POLL_LIMIT, i); }
  }

  lemma {:induction false} ActiveUpdate(cells: seq<Cell>, i: nat, c: Cell)
    requires i < |cells|
    ensures ActiveCount(cells[i := c])
         == ActiveCount(cells) - (if cells[i].job.Active? then 1 else 0) + (if c.job.Active? then 1 else 0)
  {
    if i > 0 {
      ActiveUpdate(cells[1..], i - 1, c);
      assert cells[i := c][1..] == cells[1..][i - 1 := c];
    }
  }

  lemma {:induction false} ActiveSame(a: seq<Cell>, b: seq<Cell>)
    requires |a| == |b|
    requires forall i :: 0 <= i < |a| ==> (a[i].job.Active? <==> b[i].job.Active?)
    ensures ActiveCount(a) == ActiveCount(b)
  {
    if a != [] { ActiveSame(a[1..], b[1..]); }
  }

  lemma {:induction false} ActiveAppend(cells: seq<Cell>, c: Cell)
    ensures ActiveCount(cells + [c]) == ActiveCount(cells) + (if c.job.Active? then 1 else 0)
  {
    if cells == [] {
      assert cells + [c] == [c];
    } else {
      ActiveAppend(cells[1..], c);
      assert (cells + [c])[1..] == cells[1..] + [c];
    }
  }

  // ------------------------------------------------------------- one action keeps the invariant

  lemma AtKept(reg: Registry, s: System, i: nat, l: Label)
    requires SystemOk(reg, s) && Step(reg, s, At(i, l)).Some?
    ensures SystemOk(reg, Step(reg, s, At(i, l)).value)
  {
    var c := s.cells[i];
    CellStep(reg, s.now, c, l);
    var c' := Next(Names(reg, c.row.event.eventType), s.now, c, l).value;
    ActiveUpdate(s.cells, i, c');
    var cells' := s.cells[i := c'];
    forall k | 0 <= k < |cells'|
      ensures CellOk(reg, cells'[k], s.now)
      ensures cells'[k].row.event == s.cells[k].row.event && cells'[k].row.createdAt == s.cells[k].row.createdAt
    {
      if k != i { assert cells'[k] == s.cells[k]; }
    }
  }

  /** A waiting job starts exactly when fewer than ten workers are busy. */
  lemma StartsExactly(reg: Registry, s: System, i: nat)
    ensures Step(reg, s, At(i, Start)).Some?
       <==> i < |s.cells| && s.cells[i].job.Waiting? && ActiveCount(s.cells) < 10
  {
  }

  lemma PolledOk(reg: Registry, cells: seq<Cell>, now: nat, i: nat)
    requires i < |cells| && CellOk(reg, cells[i], now)
    ensures var c := PollCells(cells, now, POLL_LIMIT)[i];
            CellOk(reg, c, now) && c.row == cells[i].row && (c.job.Active? <==> cells[i].job.Active?)
  {
    PollExact(cells, now, POLL_LIMIT, i);
    if PollCells(cells, now, POLL_LIMIT)[i] != cells[i] { CellStep(reg, now, cells[i], Enqueue); }
  }

  lemma PollKept(reg: Registry, s: System)
    requires SystemOk(reg, s)
    ensures SystemOk(reg, Step(reg, s, Poll).value)
  {
    var cells' := PollCells(s.cells, s.now, POLL_LIMIT);
    forall i | 0 <= i < |s.cells|
      ensures CellOk(reg, cells'[i], s.now)
      ensures cells'[i].row == s.cells[i].row && (cells'[i].job.Active? <==> s.cells[i].job.Active?)
    {
      PolledOk(reg, s.cells, s.now, i);
    }
    ActiveSame(s.cells, cells');
  }

  lemma NewCellOk(reg: Registry, e: Event, now: nat)
    ensures CellOk(reg, NewCell(e, now), now)
  {
    NewCellAlways(Names(reg, e.eventType), e, now);
    NewCellOrderly(Names(reg, e.eventType), e, now);
  }

  lemma NewIsLast(cells: seq<Cell>, c: Cell, now: nat)
    requires UniqueIds(cells) && OldestFirst(cells, now) && !Taken(cells, c.row.event.eventId) && c.row.createdAt == now
    ensures UniqueIds(cells + [c]) && OldestFirst(cells + [c], now)
  {
  }

  lemma PublishKept(reg: Registry, s: System, e: Event)
    requires SystemOk(reg, s)
    ensures SystemOk(reg, Step(reg, s, Publish(e)).value)
  {
    if !Taken(s.cells, e.eventId) {
      NewCellOk(reg, e, s.now);
      NewIsLast(s.cells, NewCell(e, s.now), s.now);
      ActiveAppend(s.cells, NewCell(e, s.now));
    }
  }

  lemma StepKept(reg: Registry, s: System, a: Action)
    requires SystemOk(reg, s) && Step(reg, s, a).Some?
    ensures SystemOk(reg, Step(reg, s, a).value)
  {
    match a
    case Tick(ms) =>
      forall i | 0 <= i < |s.cells| ensures CellOk(reg, s.cells[i], s.now + ms) {
        TickKept(Names(reg, s.cells[i].row.event.eventType), s.cells[i], s.now, s.now + ms);
      }
    case Publish(e) => PublishKept(reg, s, e);
    case Poll => PollKept(reg, s);
    case At(i, l) => AtKept(reg, s, i, l);
  }

  /** Every reachable system satisfies the invariant, whatever the registry and the schedule. */
  lemma {:induction false} Reachable(reg: Registry, acts: seq<Action>)
    requires Execute(reg, acts).Some?
    ensures SystemOk(reg, Execute(reg, acts).value)
    ensures ActiveCount(Execute(reg, acts).value.cells) <= 10
  {
    if acts != [] {
      var before := acts[..|acts| - 1];
      Reachable(reg, before);
      StepKept(reg, Execute(reg, before).value, acts[|acts| - 1]);
    }
  }
}
