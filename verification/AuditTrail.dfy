/** CreateAuditLogHandler: check for the event's document, then insert. Calls may interleave
    between the two; the unique index on eventId decides. An empty eventId means none was given,
    and such documents are neither checked nor indexed. */
module AuditTrail {
  import opened Wrappers
  import opened Outbox
  import opened Protocol

  predicate Has(logs: seq<AuditLog>, id: string) {
    exists i :: 0 <= i < |logs| && logs[i].eventId == id
  }

  function Find(logs: seq<AuditLog>, id: string): Option<AuditLog> {
    if logs == [] then None else if logs[0].eventId == id then Some(logs[0]) else Find(logs[1..], id)
  }

  /** log.save(): refused by the index when the id is taken. */
  function Inserted(logs: seq<AuditLog>, log: AuditLog, write: WriteOutcome): seq<AuditLog> {
    if write.Dropped? || (log.eventId != "" && Has(logs, log.eventId)) then logs else logs + [log]
  }

  predicate Stored(logs: seq<AuditLog>, log: AuditLog, write: WriteOutcome) {
    write.Acked? && !(log.eventId != "" && Has(logs, log.eventId))
  }

  // ------------------------------------------------------------- interleaved calls

  datatype Phase = Checking | Inserting | Succeeded | Threw

  /** Concurrent calls of execute, each with the document it was given. */
  datatype Trail = Trail(logs: seq<AuditLog>, calls: seq<(AuditLog, Phase)>)

  datatype Move = Call(log: AuditLog) | Check(p: nat, found: bool) | Insert(p: nat, write: WriteOutcome) | Fail(p: nat)

  /** The next state; `found` must be what the collection answers at that moment. */
  function Step(t: Trail, m: Move): Option<Trail> {
    match m
    case Call(log) => Some(t.(calls := t.calls + [(log, Checking)]))
    case Check(p, found) =>
      if p < |t.calls| && t.calls[p].1.Checking?
         && found == (t.calls[p].0.eventId != "" && Has(t.logs, t.calls[p].0.eventId)) then
        Some(t.(calls := t.calls[p := (t.calls[p].0, if found then Succeeded else Inserting)]))
      else None
    case Insert(p, write) =>
      if p < |t.calls| && t.calls[p].1.Inserting? then
        var log := t.calls[p].0;
        Some(Trail(Inserted(t.logs, log, write),
                   t.calls[p := (log, if Stored(t.logs, log, write) then Succeeded else Threw)]))
      else None
    case Fail(p) =>
      if p < |t.calls| && !t.calls[p].1.Succeeded? then Some(t.(calls := t.calls[p := (t.calls[p].0, Threw)])) else None
  }

  function Execute(moves: seq<Move>): Option<Trail> {
    if moves == [] then Some(Trail([], []))
    else
      var t := Execute(moves[..|moves| - 1]);
      if t.None? then None else Step(t.value, moves[|moves| - 1])
  }

  ghost predicate AtMostOnce(logs: seq<AuditLog>) {
    forall i, j :: 0 <= i < j < |logs| && logs[i].eventId != "" ==> logs[i].eventId != logs[j].eventId
  }

  ghost predicate Delivered(t: Trail) {
    forall p :: 0 <= p < |t.calls| && t.calls[p].1.Succeeded? ==> Has(t.logs, t.calls[p].0.eventId)
  }

  lemma HasAppend(logs: seq<AuditLog>, log: AuditLog, id: string)
    ensures Has(logs + [log], id) <==> Has(logs, id) || log.eventId == id
  {
    if log.eventId == id { assert (logs + [log])[|logs|] == log; }
    if Has(logs, id) {
      var i :| 0 <= i < |logs| && logs[i].eventId == id;
      assert (logs + [log])[i] == logs[i];
    }
  }

  lemma StepDelivers(t: Trail, m: Move)
    requires AtMostOnce(t.logs) && Delivered(t) && Step(t, m).Some?
    ensures AtMostOnce(Step(t, m).value.logs) && Delivered(Step(t, m).value)
    ensures t.logs <= Step(t, m).value.logs
  {
    if m.Insert? {
      var log := t.calls[m.p].0;
      forall id { HasAppend(t.logs, log, id); }
    }
  }

  /** However calls interleave and writes fail: at most one document per event id, every call that
      returned normally left one for its id, and documents are only ever appended. */
  lemma {:induction false} AuditOncePerEvent(moves: seq<Move>)
    requires Execute(moves).Some?
    ensures AtMostOnce(Execute(moves).value.logs) && Delivered(Execute(moves).value)
    ensures |moves| > 0 ==> Execute(moves[..|moves| - 1]).Some?
                            && Execute(moves[..|moves| - 1]).value.logs <= Execute(moves).value.logs
  {
    if moves != [] {
      AuditOncePerEvent(moves[..|moves| - 1]);
      StepDelivers(Execute(moves[..|moves| - 1]).value, moves[|moves| - 1]);
    }
  }

  // ------------------------------------------------------------- one call, and the protocol's view

  function OfEvent(logs: seq<AuditLog>, id: string): seq<AuditLog> {
    if logs == [] then [] else (if logs[0].eventId == id then [logs[0]] else []) + OfEvent(logs[1..], id)
  }

  lemma {:induction false} OfEventAppend(logs: seq<AuditLog>, log: AuditLog, id: string)
    ensures OfEvent(logs + [log], id) == OfEvent(logs, id) + OfEvent([log], id)
  {
    if logs == [] {
      assert logs + [log] == [log];
    } else {
      OfEventAppend(logs[1..], log, id);
      assert (logs + [log])[1..] == logs[1..] + [log];
    }
  }

  lemma {:induction false} OfEventHas(logs: seq<AuditLog>, id: string)
    ensures OfEvent(logs, id) != [] <==> Has(logs, id)
  {
    if logs != [] {
      OfEventHas(logs[1..], id);
      assert logs == [logs[0]] + logs[1..];
      if Has(logs[1..], id) {
        var i :| 0 <= i < |logs[1..]| && logs[1..][i].eventId == id;
        assert logs[i + 1].eventId == id;
      }
      if Has(logs, id) {
        var i :| 0 <= i < |logs| && logs[i].eventId == id;
        if i > 0 { assert logs[1..][i - 1].eventId == id; }
      }
    }
  }

  lemma OfEventOne(log: AuditLog, id: string)
    ensures OfEvent([log], id) == if log.eventId == id then [log] else []
  {
    assert [log][1..] == [];
    assert OfEvent([log][1..], id) == [];
  }

  lemma {:induction false} FindMeansHas(logs: seq<AuditLog>, id: string)
    ensures Find(logs, id).Some? <==> Has(logs, id)
    ensures Find(logs, id).Some? ==> Find(logs, id).value in logs && Find(logs, id).value.eventId == id
  {
    if logs != [] {
      FindMeansHas(logs[1..], id);
      if Has(logs, id) && logs[0].eventId != id {
        var i :| 0 <= i < |logs| && logs[i].eventId == id;
        assert logs[1..][i - 1].eventId == id;
      }
    }
  }

  class CreateAuditLogHandler {
    var logs: seq<AuditLog>

    constructor ()
      ensures logs == []
    {
      logs := [];
    }

    /** The existing document, or the new one; None when the call throws. */
    method Execute(data: AuditLog, write: WriteOutcome) returns (r: Option<AuditLog>)
      modifies this
      ensures logs == Inserted(old(logs), data, write)
      ensures if data.eventId != "" && exists log :: log in old(logs) && log.eventId == data.eventId
              then logs == old(logs) && r.Some? && r.value in logs && r.value.eventId == data.eventId
              else && logs == (if write.Dropped? then old(logs) else old(logs) + [data])
                   && r == (if write.Acked? then Some(data) else None)
      ensures old(AtMostOnce(logs)) ==> AtMostOnce(logs)
    {
      if data.eventId != "" {
        FindMeansHas(logs, data.eventId);
        var existing := Find(logs, data.eventId);
        if existing.Some? { return existing; }
      }
      if !write.Dropped? { logs := logs + [data]; }
      r := if write.Acked? then Some(data) else None;
    }
  }

  /** What the protocol assumes of the audit handler: a delivery turns the documents of its event
      into AuditAfter, with success exactly when the call returned, and touches no other event. */
  lemma DeliveryIsAuditAfter(logs: seq<AuditLog>, e: Event, write: WriteOutcome)
    requires e.eventId != ""
    ensures var r := if Has(logs, e.eventId) || write.Acked? then Succeeds else Throws(write.error, write.Unacked?);
            OfEvent(Inserted(logs, AuditOf(e), write), e.eventId) == AuditAfter(OfEvent(logs, e.eventId), e, r)
    ensures forall id :: id != e.eventId ==> OfEvent(Inserted(logs, AuditOf(e), write), id) == OfEvent(logs, id)
  {
    forall id
      ensures OfEvent(logs + [AuditOf(e)], id) == OfEvent(logs, id) + (if id == e.eventId then [AuditOf(e)] else [])
    {
      OfEventAppend(logs, AuditOf(e), id);
      OfEventOne(AuditOf(e), id);
    }
    OfEventHas(logs, e.eventId);
  }
}
