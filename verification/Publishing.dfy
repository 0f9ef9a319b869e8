/** Writing events into the outbox and polling them out of it. */
module Publishing {
  import opened Wrappers
  import opened Outbox
  import opened Protocol
  import opened OutboxRuns

  /** The rows that insertMany leaves: it inserts in order and stops at the first duplicate id. */
  function Inserted(cells: seq<Cell>, events: seq<Event>, now: nat): seq<Cell>
    decreases |events|
  {
    if events == [] then cells
    else if Taken(cells, events[0].eventId) then cells
    else Inserted(cells + [NewCell(events[0], now)], events[1..], now)
  }

  /** How many of the events that is. */
  function Accepted(cells: seq<Cell>, events: seq<Event>, now: nat): (n: nat)
    ensures n <= |events|
    decreases |events|
  {
    if events == [] || Taken(cells, events[0].eventId) then 0
    else 1 + Accepted(cells + [NewCell(events[0], now)], events[1..], now)
  }

  function Publications(events: seq<Event>): seq<Action> {
    if events == [] then [] else Publications(events[..|events| - 1]) + [Publish(events[|events| - 1])]
  }

  /** A batch is the publications of its accepted prefix, in order, so every result about runs
      covers batches; and the batch is accepted whole exactly when its ids are new and distinct. */
  lemma {:induction false} BatchIsPublications(reg: Registry, acts: seq<Action>, events: seq<Event>)
    requires Execute(reg, acts).Some?
    ensures var s := Execute(reg, acts).value; var n := Accepted(s.cells, events, s.now);
            Execute(reg, acts + Publications(events[..n])) == Some(s.(cells := Inserted(s.cells, events, s.now)))
    decreases |events|
  {
    var s := Execute(reg, acts).value;
    var n := Accepted(s.cells, events, s.now);
    if n == 0 {
      assert acts + Publications(events[..n]) == acts;
    } else {
      var acts' := acts + [Publish(events[0])];
      assert acts'[..|acts|] == acts;
      BatchIsPublications(reg, acts', events[1..]);
      PublicationsTake(acts, events, n);
    }
  }

  lemma PublicationsTake(acts: seq<Action>, events: seq<Event>, n: nat)
    requires 0 < n <= |events|
    ensures acts + Publications(events[..n]) == acts + [Publish(events[0])] + Publications(events[1..][..n - 1])
  {
    PublicationsCons(events[..n]);
    assert events[..n][1..] == events[1..][..n - 1];
  }

  lemma {:induction false} PublicationsCons(events: seq<Event>)
    requires events != []
    ensures Publications(events) == [Publish(events[0])] + Publications(events[1..])
  {
    if |events| > 1 {
      PublicationsCons(events[..|events| - 1]);
      assert events[..|events| - 1][1..] == events[1..][..|events| - 2];
    }
  }

  lemma {:induction false} WholeBatch(cells: seq<Cell>, events: seq<Event>, now: nat)
    ensures Accepted(cells, events, now) == |events|
       <==> && (forall k :: 0 <= k < |events| ==> !Taken(cells, events[k].eventId))
            && (forall j, k :: 0 <= j < k < |events| ==> events[j].eventId != events[k].eventId)
    decreases |events|
  {
    if events != [] && !Taken(cells, events[0].eventId) {
      var cells' := cells + [NewCell(events[0], now)];
      WholeBatch(cells', events[1..], now);
      forall k | 0 <= k < |events| - 1
        ensures Taken(cells', events[1..][k].eventId)
           <==> Taken(cells, events[k + 1].eventId) || events[k + 1].eventId == events[0].eventId
      {
        TakenAppend(cells, NewCell(events[0], now), events[k + 1].eventId);
      }
      if Accepted(cells, events, now) == |events| {
        forall j, k | 0 <= j < k < |events| ensures events[j].eventId != events[k].eventId {
          assert events[k] == events[1..][k - 1];
          if j > 0 { assert events[j] == events[1..][j - 1]; }
        }
        forall k | 0 <= k < |events| ensures !Taken(cells, events[k].eventId) {
          if k > 0 { assert events[k] == events[1..][k - 1]; }
        }
      }
    }
  }

  lemma TakenAppend(cells: seq<Cell>, c: Cell, id: string)
    ensures Taken(cells + [c], id) <==> Taken(cells, id) || c.row.event.eventId == id
  {
    if c.row.event.eventId == id { assert (cells + [c])[|cells|] == c; }
    if Taken(cells, id) {
      var i :| 0 <= i < |cells| && cells[i].row.event.eventId == id;
      assert (cells + [c])[i] == cells[i];
    }
  }

  /** The outbox collection beside the business data that its transactions span. */
  class EventPublisher<Business> {
    var cells: seq<Cell>
    var business: Business

    constructor (business: Business)
      ensures cells == [] && this.business == business
    {
      this.business := business;
      cells := [];
    }

    method IsTaken(id: string) returns (taken: bool)
      ensures taken <==> Taken(cells, id)
    {
      for i := 0 to |cells|
        invariant forall j :: 0 <= j < i ==> cells[j].row.event.eventId != id
      {
        if cells[i].row.event.eventId == id { return true; }
      }
      return false;
    }

    method Publish(event: Event, now: nat) returns (ok: bool)
      modifies this`cells
      ensures ok <==> forall c :: c in old(cells) ==> c.row.event.eventId != event.eventId
      ensures ok ==> |cells| == |old(cells)| + 1 && cells[..|old(cells)|] == old(cells)
                     && cells[|old(cells)|].row == Row(event, Pending, map[], 0, 5, None, None, now)
                     && cells[|old(cells)|].job == NoJob
      ensures !ok ==> cells == old(cells)
      ensures Some(System(now, cells)) == Step(map[], System(now, old(cells)), Action.Publish(event))
    {
      var taken := IsTaken(event.eventId);
      if !taken {
        cells := cells + [NewCell(event, now)];
      }
      ok := !taken;
    }

    method PublishBatch(events: seq<Event>, now: nat) returns (ok: bool)
      modifies this`cells
      ensures cells == Inserted(old(cells), events, now)
      ensures ok <==> Accepted(old(cells), events, now) == |events|
    {
      for i := 0 to |events|
        invariant Inserted(old(cells), events, now) == Inserted(cells, events[i..], now)
        invariant Accepted(old(cells), events, now) == i + Accepted(cells, events[i..], now)
      {
        assert events[i..][1..] == events[i + 1..];
        var stored := Publish(events[i], now);
        if !stored { return false; }
      }
      return true;
    }

    /** Operation and event commit together or not at all; `result` is the business state the
        operation would leave, None when it throws. */
    method PublishWithTransaction(event: Event, result: Option<Business>, now: nat) returns (ok: bool)
      modifies this
      ensures ok <==> result.Some? && forall c :: c in old(cells) ==> c.row.event.eventId != event.eventId
      ensures if ok then business == result.value && cells == old(cells) + [NewCell(event, now)]
              else business == old(business) && cells == old(cells)
    {
      var before := business;
      if result.None? { return false; }
      business := result.value;
      ok := Publish(event, now);
      if !ok { business := before; }
    }
  }

  // ------------------------------------------------------------- the poll as code

  class OutboxProcessorWorker {
    var cells: seq<Cell>

    constructor (cells: seq<Cell>)
      ensures this.cells == cells
    {
      this.cells := cells;
    }

    /** find … sort … limit. */
    method FindPending(now: nat) returns (pending: seq<nat>)
      ensures |pending| <= 10
      ensures forall i :: i in pending ==> i < |cells|
      ensures forall i: nat :: i < |cells| ==>
                (i in pending <==>
                   && cells[i].row.status == Pending
                   && (cells[i].row.nextRetryAt == None || cells[i].row.nextRetryAt.value <= now)
                   && DueCount(cells[..i], now) < 10)
    {
      pending := [];
      var i := 0;
      while i < |cells| && |pending| < POLL_LIMIT
        invariant 0 <= i <= |cells|
        invariant |pending| == DueCount(cells[..i], now) && |pending| <= POLL_LIMIT
        invariant forall j :: j in pending ==> j < i
        invariant forall j: nat :: j < i ==>
                    (j in pending <==> Due(cells[j].row, now) && DueCount(cells[..j], now) < POLL_LIMIT)
      {
        DueCountSnoc(cells, now, i);
        if Due(cells[i].row, now) {
          pending := pending + [i];
        }
        i := i + 1;
      }
      forall j: nat | i <= j < |cells| ensures DueCount(cells[..j], now) >= DueCount(cells[..i], now) {
        DueCountMonotone(cells, now, i, j);
      }
    }

    /** find the pending rows, then addBulk: exactly the system's Poll step. */
    method PollOutbox(now: nat)
      modifies this
      ensures cells == PollCells(old(cells), now, POLL_LIMIT)
    {
      var pending := FindPending(now);
      ghost var before := cells;
      for k := 0 to |pending|
        invariant |cells| == |before|
        invariant forall i :: 0 <= i < |cells| ==>
                    cells[i] == if i in pending[..k] && before[i].job.NoJob? then before[i].(job := Waiting) else before[i]
      {
        assert pending[k] in pending;
        var i := pending[k];
        assert pending[..k + 1] == pending[..k] + [i];
        if cells[i].job.NoJob? {
          cells := cells[i := cells[i].(job := Waiting)];
        }
      }
      assert pending[..|pending|] == pending;
      forall i | 0 <= i < |cells| ensures cells[i] == PollCells(before, now, POLL_LIMIT)[i] {
        PollExact(before, now, POLL_LIMIT, i);
      }
    }
  }

  lemma {:induction false} DueCountSnoc(cells: seq<Cell>, now: nat, i: nat)
    requires i < |cells|
    ensures DueCount(cells[..i + 1], now) == DueCount(cells[..i], now) + (if Due(cells[i].row, now) then 1 else 0)
  {
    if i == 0 {
      assert cells[..1] == [cells[0]];
    } else {
      DueCountSnoc(cells[1..], now, i - 1);
      assert cells[..i + 1][1..] == cells[1..][..i];
      assert cells[..i][1..] == cells[1..][..i - 1];
    }
  }

  lemma {:induction false} DueCountMonotone(cells: seq<Cell>, now: nat, i: nat, j: nat)
    requires i <= j <= |cells|
    ensures DueCount(cells[..i], now) <= DueCount(cells[..j], now)
    decreases j - i
  {
    if i < j {
      DueCountSnoc(cells, now, j - 1);
      DueCountMonotone(cells, now, i, j - 1);
    }
  }
}
