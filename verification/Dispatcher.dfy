/** The dispatcher as code: it walks the handler table, writes after every step, and each of its
    executions is a run of the protocol. */
module Dispatcher {
  import opened Wrappers
  import opened Outbox
  import opened Protocol
  import opened Discipline

  // ------------------------------------------------------------- the handler table

  function Registered(reg: Registry, eventType: string, name: string): Registry {
    reg[eventType := Names(reg, eventType) + [name]]
  }

  function RegisterAll(reg: Registry, list: seq<(string, string)>): Registry {
    if list == [] then reg
    else
      var front := RegisterAll(reg, list[..|list| - 1]);
      Registered(front, list[|list| - 1].0, list[|list| - 1].1)
  }

  /** The names that a list registers for one event type, in order. */
  function NamesIn(list: seq<(string, string)>, eventType: string): seq<string> {
    if list == [] then []
    else NamesIn(list[..|list| - 1], eventType)
         + (if list[|list| - 1].0 == eventType then [list[|list| - 1].1] else [])
  }

  /** Registration appends: each type keeps its earlier handlers and gains its own, in order. */
  lemma {:induction false} RegisterAllNames(reg: Registry, list: seq<(string, string)>, eventType: string)
    ensures Names(RegisterAll(reg, list), eventType) == Names(reg, eventType) + NamesIn(list, eventType)
  {
    if list != [] {
      RegisterAllNames(reg, list[..|list| - 1], eventType);
    }
  }

  // ------------------------------------------------------------- the documents of one event

  /** What one dispatch reads and writes in the database. */
  class EventDocuments {
    var row: Row
    var audit: seq<AuditLog>
    var dead: seq<DeadLetter>
    ghost var ledger: Ledger

    constructor (event: Event, now: nat)
      ensures Cell(row, NoJob, audit, dead, ledger) == NewCell(event, now)
    {
      row := NewRow(event, now);
      audit, dead := [], [];
      ledger := Ledger(map[], map[], [], 0, 0, 0, 0, 0, 0);
    }

    ghost function View(w: Work): Cell
      reads this
    {
      Cell(row, Active(w), audit, dead, ledger)
    }
  }

  /** Outcomes come from outside: of the handler at each position, and of the k-th write. */
  type Handling = nat -> HandlerOutcome
  type Writing = nat -> WriteOutcome

  ghost predicate AllAcked(written: Writing) {
    forall k: nat :: written(k).Acked?
  }

  /** Every handler before position k that this dispatch had to call has succeeded. */
  ghost predicate PendingSucceed(names: seq<string>, m: map<string, HandlerState>, handled: Handling, k: nat)
    requires k <= |names|
  {
    forall j: nat :: j < k && !IsDone(m, names[j]) ==> handled(j).Succeeds?
  }

  /** The handler at position j has to be called and throws. */
  predicate Fails(names: seq<string>, m: map<string, HandlerState>, handled: Handling, j: nat)
    requires j < |names|
  {
    !IsDone(m, names[j]) && handled(j).Throws?
  }

  /** The errors of the handlers that had to be called and threw, in table order, among the first k. */
  function Thrown(names: seq<string>, m: map<string, HandlerState>, handled: Handling, k: nat): seq<string>
    requires k <= |names|
  {
    if k == 0 then []
    else Thrown(names, m, handled, k - 1) + (if Fails(names, m, handled, k - 1) then [handled(k - 1).error] else [])
  }

  /** A list in words: its items one after the other, with a comma and a space between neighbours. */
  function Listed(items: seq<string>): string
    requires items != []
  {
    if |items| == 1 then items[0] else Listed(items[..|items| - 1]) + ", " + items[|items| - 1]
  }

  lemma {:induction false} ListedFromTheFront(items: seq<string>)
    requires |items| >= 2
    ensures Listed(items) == items[0] + ", " + Listed(items[1..])
  {
    var front := items[..|items| - 1];
    if |items| > 2 {
      ListedFromTheFront(front);
      assert front[1..] == items[1..][..|items| - 2];
    }
  }

  /** The error of a failed dispatch carries every handler's message. */
  lemma {:induction false} SummaryLists(errors: seq<string>)
    requires errors != []
    ensures JoinMessages(errors) == Listed(errors)
    ensures Summary(errors) == "Some handlers failed: " + Listed(errors)
  {
    if |errors| > 1 {
      SummaryLists(errors[1..]);
      ListedFromTheFront(errors);
    }
  }

  /** Thrown holds exactly these errors: one for each failing position, in increasing order. */
  lemma {:induction false} ThrownExactly(names: seq<string>, m: map<string, HandlerState>, handled: Handling, k: nat)
    returns (js: seq<nat>)
    requires k <= |names|
    ensures |js| == |Thrown(names, m, handled, k)|
    ensures forall i :: 0 <= i < |js| ==> js[i] < k && Fails(names, m, handled, js[i])
                                          && Thrown(names, m, handled, k)[i] == handled(js[i]).error
    ensures forall i, j :: 0 <= i < j < |js| ==> js[i] < js[j]
    ensures forall j: nat :: j < k && Fails(names, m, handled, j) ==> j in js
  {
    if k == 0 { return []; }
    js := ThrownExactly(names, m, handled, k - 1);
    if Fails(names, m, handled, k - 1) { js := js + [k - 1]; }
  }

  lemma {:induction false} NoneThrown(names: seq<string>, m: map<string, HandlerState>, handled: Handling, k: nat)
    requires k <= |names|
    ensures Thrown(names, m, handled, k) == [] <==> PendingSucceed(names, m, handled, k)
  {
    if k > 0 { NoneThrown(names, m, handled, k - 1); }
  }

  /** The status map after the loop has passed the first k handlers. */
  function NotedUpTo(names: seq<string>, m: map<string, HandlerState>, handled: Handling, k: nat): map<string, HandlerState>
    requires k <= |names|
  {
    if k == 0 then m
    else
      var before := NotedUpTo(names, m, handled, k - 1);
      if IsDone(m, names[k - 1]) then before
      else before[names[k - 1] := if handled(k - 1).Succeeds? then Done else Broken]
  }

  /** It says completed of a handler that was completed before or has now succeeded, and failed of any
      other it has passed; the rest keep what they had. */
  lemma {:induction false} NotedExactly(names: seq<string>, m: map<string, HandlerState>, handled: Handling, k: nat)
    requires k <= |names| && Distinct(names)
    ensures var noted := NotedUpTo(names, m, handled, k);
            && (forall j: nat :: j < k ==>
                  names[j] in noted
                  && noted[names[j]] == if IsDone(m, names[j]) || handled(j).Succeeds? then Done else Broken)
            && (forall h :: h !in names[..k] ==> ((h in m <==> h in noted) && (h in m ==> noted[h] == m[h])))
  {
    if k > 0 {
      NotedExactly(names, m, handled, k - 1);
      assert names[..k] == names[..k - 1] + [names[k - 1]];
    }
  }

  lemma {:induction false} NotedAhead(names: seq<string>, m: map<string, HandlerState>, handled: Handling, k: nat, h: string)
    requires k <= |names| && forall j :: 0 <= j < k ==> names[j] != h
    ensures IsDone(NotedUpTo(names, m, handled, k), h) <==> IsDone(m, h)
  {
    if k > 0 { NotedAhead(names, m, handled, k - 1, h); }
  }

  /** In mid-loop: every handler passed is noted and every error kept. */
  ghost predicate Judged(names: seq<string>, entry: Row, snap: Row, i: nat, errors: seq<string>, handled: Handling)
    requires i <= |names|
  {
    && snap.handlerStatus == NotedUpTo(names, entry.handlerStatus, handled, i)
    && errors == Thrown(names, entry.handlerStatus, handled, i)
  }

  lemma JudgedNext(names: seq<string>, entry: Row, snap: Row, i: nat, errors: seq<string>, handled: Handling,
                   snap': Row, errors': seq<string>)
    requires i < |names| && Distinct(names) && Judged(names, entry, snap, i, errors, handled)
    requires snap' == AfterTurn(snap, names[i], handled(i)) && errors' == ErrorsAfter(errors, snap, names[i], handled(i))
    ensures Judged(names, entry, snap', i + 1, errors', handled)
  {
    NotedAhead(names, entry.handlerStatus, handled, i, names[i]);
  }

  /** The snapshot and the errors after one turn of the loop: nothing happens to a completed handler. */
  function AfterTurn(snap: Row, name: string, o: HandlerOutcome): Row {
    if IsDone(snap.handlerStatus, name) then snap
    else snap.(handlerStatus := snap.handlerStatus[name := if o.Succeeds? then Done else Broken])
  }

  function ErrorsAfter(errors: seq<string>, snap: Row, name: string, o: HandlerOutcome): seq<string> {
    if IsDone(snap.handlerStatus, name) || o.Succeeds? then errors else errors + [o.error]
  }

  /** The row after a dispatch whose writes are all acknowledged. */
  ghost predicate Dispatched(names: seq<string>, entry: Row, now: nat, handled: Handling, row: Row) {
    var failed := Thrown(names, entry.handlerStatus, handled, |names|);
    var noted := NotedUpTo(names, entry.handlerStatus, handled, |names|);
    if failed == [] then row == entry.(status := Completed, handlerStatus := noted)
    else
      var error := Some("Some handlers failed: " + Listed(failed));
      if entry.retryCount + 1 >= entry.maxRetries then
        row == entry.(status := Status.Failed, handlerStatus := noted, retryCount := entry.retryCount + 1, error := error)
      else
        row == entry.(status := Pending, handlerStatus := noted, retryCount := entry.retryCount + 1, error := error,
                      nextRetryAt := Some(now + 60000 * Pow2(entry.retryCount)))
  }

  /** Its try block, and the error it throws. */
  ghost predicate Attempted(names: seq<string>, entry: Row, handled: Handling, row: Row, end: Work) {
    var failed := Thrown(names, entry.handlerStatus, handled, |names|);
    var noted := entry.(handlerStatus := NotedUpTo(names, entry.handlerStatus, handled, |names|));
    if failed == [] then end.Returned? && row == noted.(status := Completed)
    else end == Recovering(noted, "Some handlers failed: " + Listed(failed)) && row == noted.(status := Processing)
  }

  /** Why an attempt failed: a write that was not acknowledged, or else the handlers that threw. */
  ghost predicate Caused(error: string, names: seq<string>, m: map<string, HandlerState>, handled: Handling, written: Writing) {
    || (exists k: nat :: !written(k).Acked? && error == written(k).error)
    || (var failed := Thrown(names, m, handled, |names|);
        failed != [] && error == "Some handlers failed: " + Listed(failed))
  }

  lemma AttemptedSettles(names: seq<string>, entry: Row, handled: Handling, row: Row, end: Work, now: nat)
    requires Attempted(names, entry, handled, row, end) && end.Recovering?
    ensures Dispatched(names, entry, now, handled, Settled(row, end.snap, end.message, now))
  {
  }

  ghost predicate LoopEnd(end: Work, entry: Row, names: seq<string>, handled: Handling) {
    || (end.Recovering? && end.snap == entry.(handlerStatus := end.snap.handlerStatus))
    || (end.Looping? && end.next == |names| && end.snap == entry.(handlerStatus := end.snap.handlerStatus)
        && (Distinct(names) ==> Judged(names, entry, end.snap, |names|, end.errors, handled)))
  }

  class EventDispatcher {
    var handlers: Registry

    constructor ()
      ensures handlers == map[]
    {
      handlers := map[];
    }

    method RegisterHandler(eventType: string, name: string)
      modifies this
      ensures handlers == Registered(old(handlers), eventType, name)
    {
      if eventType !in handlers {
        handlers := handlers[eventType := []];
      }
      handlers := handlers[eventType := handlers[eventType] + [name]];
    }

    method RegisterHandlers(list: seq<(string, string)>)
      modifies this
      ensures handlers == RegisterAll(old(handlers), list)
    {
      for i := 0 to |list|
        invariant handlers == RegisterAll(old(handlers), list[..i])
      {
        assert list[..i + 1][..i] == list[..i];
        RegisterHandler(list[i].0, list[i].1);
      }
      assert list[..|list|] == list;
    }

    /** handler.handle(event); only the audit handler's effect is part of the model. */
    method ExecuteHandler(docs: EventDocuments, snap: Row, name: string, outcome: HandlerOutcome)
      modifies docs`audit
      ensures docs.audit == if name == AUDIT_HANDLER then AuditAfter(old(docs.audit), snap.event, outcome)
                            else old(docs.audit)
    {
      if name == AUDIT_HANDLER && docs.audit == [] && (outcome.Succeeds? || outcome.tookEffect) {
        docs.audit := [AuditOf(snap.event)];
      }
    }

    method HandleSuccess(docs: EventDocuments, write: WriteOutcome)
      modifies docs`row
      ensures docs.row == if write.Dropped? then old(docs.row) else old(docs.row).(status := Completed)
    {
      if !write.Dropped? {
        docs.row := docs.row.(status := Completed);
      }
    }

    /** Insert the dead letter, which the unique index refuses if there is one; the caller swallows a failure. */
    method MoveToDeadLetterQueue(docs: EventDocuments, snap: Row, now: nat, burial: WriteOutcome, ghost names: seq<string>)
      modifies docs`dead, docs`ledger
      ensures Next(names, now, old(docs.View(Burying(snap))), Bury(burial)) == Some(docs.View(Returned))
      ensures if old(docs.dead) == [] && !burial.Dropped? then
                && |docs.dead| == 1
                && var d := docs.dead[0];
                   && d.originalEventId == snap.event.eventId && d.eventType == snap.event.eventType
                   && d.aggregateId == snap.event.aggregateId && d.aggregateType == snap.event.aggregateType
                   && d.payload == snap.event.payload && d.retryCount == snap.retryCount
                   && d.failureReason == (if snap.error.None? || |snap.error.value| == 0 then "Unknown error" else snap.error.value)
              else docs.dead == old(docs.dead)
    {
      if docs.dead == [] && !burial.Dropped? {
        docs.dead := [Letter(snap)];
      }
      docs.ledger := Fault(docs.ledger, burial);
    }

    /** Retry with backoff, or fail for good and write the dead letter, whose own failure is swallowed. */
    method HandleFailure(docs: EventDocuments, snap: Row, message: string, now: nat, write: WriteOutcome,
                         burial: WriteOutcome, ghost names: seq<string>)
      returns (resolved: bool, ghost steps: seq<Label>)
      modifies docs
      ensures resolved <==> write.Acked?
      ensures Run(names, now, old(docs.View(Recovering(snap, message))), steps)
           == Some(docs.View(if resolved then Returned else Rejected))
      ensures write.Acked? ==> docs.row == Settled(old(docs.row), snap, message, now)
      ensures write.Acked? ==>
                if snap.retryCount + 1 >= snap.maxRetries
                then docs.row == old(docs.row).(status := Status.Failed, retryCount := snap.retryCount + 1, error := Some(message))
                else docs.row == old(docs.row).(status := Pending, retryCount := snap.retryCount + 1, error := Some(message),
                                                nextRetryAt := Some(now + 60000 * Pow2(snap.retryCount)))
    {
      ghost var start := docs.View(Recovering(snap, message));
      docs.ledger := AfterSettle(start, snap, message, now, write).ledger;
      var retryCount := snap.retryCount + 1;
      if !write.Dropped? {
        if retryCount >= snap.maxRetries {
          docs.row := docs.row.(status := Status.Failed, retryCount := retryCount, error := Some(message));
        } else {
          docs.row := docs.row.(status := Pending, retryCount := retryCount,
                                nextRetryAt := Some(now + Delay(retryCount)), error := Some(message));
        }
      }
      resolved := write.Acked?;
      RunOne(names, now, start, Settle(write));
      steps := [Settle(write)];
      if resolved && retryCount >= snap.maxRetries {
        MoveToDeadLetterQueue(docs, snap, now, burial, names);
        RunSnoc(names, now, start, steps, Bury(burial));
        steps := steps + [Bury(burial)];
      }
    }

    /** updateOne with status PROCESSING. */
    method MarkProcessing(docs: EventDocuments, entry: Row, now: nat, write: WriteOutcome, ghost names: seq<string>)
      requires names != []
      modifies docs`row, docs`ledger
      ensures Next(names, now, old(docs.View(Loaded(entry))), Mark(write))
           == Some(docs.View(if write.Acked? then Looping(entry, 0, []) else Recovering(entry, write.error)))
      ensures docs.row == if write.Dropped? then old(docs.row) else old(docs.row).(status := Processing)
    {
      if !write.Dropped? {
        docs.row := docs.row.(status := Processing);
      }
      docs.ledger := Fault(docs.ledger, write);
    }

    /** One turn of the loop for a handler that is not done: call it, note its status in memory,
        write the status map. */
    method RunHandler(docs: EventDocuments, entry: Row, i: nat, errors: seq<string>, names: seq<string>, now: nat,
                      outcome: HandlerOutcome, write: WriteOutcome)
      returns (snap: Row, errors': seq<string>)
      requires i < |names| && !IsDone(entry.handlerStatus, names[i])
      modifies docs
      ensures snap == entry.(handlerStatus := entry.handlerStatus[names[i] := if outcome.Succeeds? then Done else Broken])
      ensures errors' == if outcome.Succeeds? then errors else errors + [outcome.error]
      ensures Run(names, now, old(docs.View(Looping(entry, i, errors))), [Handle(outcome), Save(write)])
           == Some(docs.View(if write.Acked? then Looping(snap, i + 1, errors') else Recovering(snap, write.error)))
      ensures docs.row == if write.Dropped? then old(docs.row)
                          else old(docs.row).(handlerStatus := snap.handlerStatus)
    {
      ghost var start := docs.View(Looping(entry, i, errors));
      ExecuteHandler(docs, entry, names[i], outcome);
      errors' := errors;
      if outcome.Succeeds? {
        snap := entry.(handlerStatus := entry.handlerStatus[names[i] := Done]);
        docs.ledger := docs.ledger.(succ := Bump(docs.ledger.succ, names[i]));
      } else {
        snap := entry.(handlerStatus := entry.handlerStatus[names[i] := Broken]);
        errors' := errors + [outcome.error];
      }
      assert [] + [Handle(outcome)] == [Handle(outcome)];
      RunSnoc(names, now, start, [], Handle(outcome));
      assert Run(names, now, start, [Handle(outcome)]) == Some(docs.View(Saving(snap, i, errors')));

      docs.ledger := Fault(if write.Dropped? then LoseUnsaved(names, Saving(snap, i, errors'), docs.ledger)
                           else docs.ledger, write);
      if !write.Dropped? {
        docs.row := docs.row.(handlerStatus := snap.handlerStatus);
      }
      assert [Handle(outcome)] + [Save(write)] == [Handle(outcome), Save(write)];
      RunSnoc(names, now, start, [Handle(outcome)], Save(write));
    }

    /** One turn of the loop: skip a handler that is done, run any other. */
    method TakeTurn(docs: EventDocuments, snap: Row, i: nat, errors: seq<string>, names: seq<string>, now: nat,
                    outcome: HandlerOutcome, write: WriteOutcome)
      returns (snap': Row, errors': seq<string>, called: bool, ghost steps: seq<Label>)
      requires i < |names| && docs.row.handlerStatus == snap.handlerStatus
      modifies docs
      ensures called <==> !IsDone(snap.handlerStatus, names[i])
      ensures snap' == AfterTurn(snap, names[i], outcome) && errors' == ErrorsAfter(errors, snap, names[i], outcome)
      ensures Run(names, now, old(docs.View(Looping(snap, i, errors))), steps)
           == Some(docs.View(if called && !write.Acked? then Recovering(snap', write.error)
                             else Looping(snap', i + 1, errors')))
      ensures docs.row == old(docs.row).(handlerStatus := docs.row.handlerStatus)
      ensures !called || write.Acked? ==> docs.row.handlerStatus == snap'.handlerStatus
    {
      called := !IsDone(snap.handlerStatus, names[i]);
      if called {
        snap', errors' := RunHandler(docs, snap, i, errors, names, now, outcome, write);
        steps := [Handle(outcome), Save(write)];
      } else {
        snap', errors' := snap, errors;
        steps := [Skip];
        RunOne(names, now, docs.View(Looping(snap, i, errors)), Skip);
      }
    }

    /** The handler loop. It ends early, by throwing, when a status write is not acknowledged. */
    method RunHandlers(docs: EventDocuments, entry: Row, names: seq<string>, now: nat,
                       handled: Handling, written: Writing, first: nat)
      returns (end: Work, writes: nat, ghost trace: seq<Label>)
      requires docs.row.handlerStatus == entry.handlerStatus
      modifies docs
      ensures Run(names, now, old(docs.View(Looping(entry, 0, []))), trace) == Some(docs.View(end))
      ensures LoopEnd(end, entry, names, handled)
      ensures docs.row == old(docs.row).(handlerStatus := docs.row.handlerStatus)
      ensures AllAcked(written) ==> end.Looping?
      ensures end.Looping? ==> docs.row.handlerStatus == end.snap.handlerStatus
      ensures end.Recovering? ==> writes > 0 && !written(writes - 1).Acked? && end.message == written(writes - 1).error
    {
      ghost var start := docs.View(Looping(entry, 0, []));
      trace, writes := [], first;
      var snap, errors, i := entry, [], 0;
      while i < |names|
        invariant 0 <= i <= |names|
        invariant Run(names, now, start, trace) == Some(docs.View(Looping(snap, i, errors)))
        invariant snap == entry.(handlerStatus := snap.handlerStatus)
        invariant docs.row == old(docs.row).(handlerStatus := snap.handlerStatus)
        invariant Distinct(names) ==> Judged(names, entry, snap, i, errors, handled)
      {
        var write := written(writes);
        var snap', errors', called;
        ghost var steps;
        snap', errors', called, steps := TakeTurn(docs, snap, i, errors, names, now, handled(i), write);
        if Distinct(names) { JudgedNext(names, entry, snap, i, errors, handled, snap', errors'); }
        RunCompose(names, now, start, trace, steps);
        trace := trace + steps;
        if called {
          writes := writes + 1;
          if !write.Acked? {
            return Recovering(snap', write.error), writes, trace;
          }
        }
        snap, errors, i := snap', errors', i + 1;
      }
      end := Looping(snap, i, errors);
    }

    /** After the loop: throw the summary of the errors, or mark the event completed. */
    method Conclude(docs: EventDocuments, snap: Row, names: seq<string>, errors: seq<string>, now: nat, write: WriteOutcome)
      returns (end: Work, ghost trace: seq<Label>)
      modifies docs`row, docs`ledger
      ensures Run(names, now, old(docs.View(Looping(snap, |names|, errors))), trace) == Some(docs.View(end))
      ensures end.Returned? || (end.Recovering? && end.snap == snap)
      ensures errors == [] && !write.Acked? ==> end == Recovering(snap, write.error)
      ensures errors != [] ==> end == Recovering(snap, "Some handlers failed: " + Listed(errors)) && docs.row == old(docs.row)
      ensures end.Returned? <==> errors == [] && write.Acked?
      ensures end.Returned? ==> docs.row.status == Completed
      ensures docs.row == old(docs.row).(status := docs.row.status)
    {
      ghost var start := docs.View(Looping(snap, |names|, errors));
      RunSnoc(names, now, start, [], EndLoop);
      trace := [] + [EndLoop];
      if errors != [] {
        SummaryLists(errors);
        return Recovering(snap, Summary(errors)), trace;
      }
      RunSnoc(names, now, start, trace, Succeed(write));
      trace := trace + [Succeed(write)];
      HandleSuccess(docs, write);
      docs.ledger := LateFault(docs.ledger, write);
      end := if write.Acked? then Returned else Recovering(snap, write.error);
    }

    /** The try block of a dispatch with at least one handler. */
    method Attempt(docs: EventDocuments, entry: Row, names: seq<string>, now: nat, handled: Handling, written: Writing)
      returns (end: Work, writes: nat, ghost trace: seq<Label>)
      requires docs.row == entry && names != []
      modifies docs
      ensures Run(names, now, old(docs.View(Loaded(entry))), trace) == Some(docs.View(end))
      ensures end.Returned? || (end.Recovering? && end.snap == entry.(handlerStatus := end.snap.handlerStatus))
      ensures end.Returned? ==> docs.row.status == Completed
      ensures docs.row.retryCount == entry.retryCount
      ensures end.Recovering? && Distinct(names) ==> Caused(end.message, names, entry.handlerStatus, handled, written)
      ensures AllAcked(written) && Distinct(names) ==>
                Attempted(names, entry, handled, docs.row, end)
    {
      ghost var start := docs.View(Loaded(entry));
      var write := written(0);
      MarkProcessing(docs, entry, now, write, names);
      RunSnoc(names, now, start, [], Mark(write));
      trace := [] + [Mark(write)];
      if !write.Acked? {
        return Recovering(entry, write.error), 1, trace;
      }

      ghost var steps;
      end, writes, steps := RunHandlers(docs, entry, names, now, handled, written, 1);
      RunCompose(names, now, start, trace, steps);
      trace := trace + steps;
      if end.Looping? {
        end, steps := Conclude(docs, end.snap, names, end.errors, now, written(writes));
        RunCompose(names, now, start, trace, steps);
        trace := trace + steps;
        writes := writes + 1;
      }
    }

    /** Dispatch one loaded entry. Whatever handlers and writes do, the execution is a run of the
        protocol; and when every write is acknowledged the row ends completed exactly if all handlers
        that were not already done succeed, and otherwise settled for retry or failure with the errors of
        exactly the handlers that threw, every other handler having been called all the same. */
    method Dispatch(docs: EventDocuments, entry: Row, now: nat, handled: Handling, written: Writing)
      returns (resolved: bool, ghost trace: seq<Label>)
      requires docs.row == entry
      modifies docs
      ensures Run(Names(handlers, entry.event.eventType), now, old(docs.View(Loaded(entry))), trace)
           == Some(docs.View(if resolved then Returned else Rejected))
      ensures var names := Names(handlers, entry.event.eventType);
              AllAcked(written) && Distinct(names) ==>
                && resolved
                && (docs.row.status == Completed <==> PendingSucceed(names, entry.handlerStatus, handled, |names|))
                && Dispatched(names, entry, now, handled, docs.row)
      ensures var names := Names(handlers, entry.event.eventType);
              resolved && Distinct(names) && docs.row.status != Completed ==>
                && docs.row.retryCount == entry.retryCount + 1 && docs.row.error.Some?
                && Caused(docs.row.error.value, names, entry.handlerStatus, handled, written)
    {
      var names := if entry.event.eventType in handlers then handlers[entry.event.eventType] else [];
      NoneThrown(names, entry.handlerStatus, handled, |names|);
      ghost var start := docs.View(Loaded(entry));
      if |names| == 0 {
        var write := written(0);
        RunSnoc(names, now, start, [], NoHandlers);
        trace := [] + [NoHandlers];
        HandleSuccess(docs, write);
        docs.ledger := LateFault(docs.ledger, write);
        RunSnoc(names, now, start, trace, Succeed(write));
        trace := trace + [Succeed(write)];
        return write.Acked?, trace;
      }

      var end, writes;
      end, writes, trace := Attempt(docs, entry, names, now, handled, written);
      if end.Returned? {
        return true, trace;
      }
      // catch
      if AllAcked(written) && Distinct(names) {
        AttemptedSettles(names, entry, handled, docs.row, end, now);
      }
      ghost var steps;
      resolved, steps := HandleFailure(docs, end.snap, end.message, now, written(writes), written(writes + 1), names);
      RunCompose(names, now, start, trace, steps);
      trace := trace + steps;
    }
  }
}
