/** The documents of the transactional outbox and what each write does to them. */
module Outbox {
  import opened Wrappers

  datatype Status = Pending | Processing | Completed | Failed

  /** A value of the handlerStatus map: `completed` or `failed`. */
  datatype HandlerState = Done | Broken

  datatype Event = Event(eventId: string, eventType: string, aggregateId: string,
                         aggregateType: string, payload: string)

  datatype Row = Row(event: Event, status: Status, handlerStatus: map<string, HandlerState>,
                     retryCount: nat, maxRetries: nat, nextRetryAt: Option<nat>,
                     error: Option<string>, createdAt: nat)

  datatype DeadLetter = DeadLetter(originalEventId: string, eventType: string, aggregateId: string,
                                   aggregateType: string, payload: string,
                                   failureReason: string, retryCount: nat)

  datatype AuditLog = AuditLog(eventId: string, action: string, resource: string,
                               resourceId: string, payload: string)

  /** How one database write ends: it commits and is acknowledged, it is lost,
      or it commits and the caller still sees an error. */
  datatype WriteOutcome = Acked | Dropped(error: string) | Unacked(error: string)

  /** How one handler call ends; a call that throws may already have had its effect. */
  datatype HandlerOutcome = Succeeds | Throws(error: string, tookEffect: bool)

  const MAX_RETRIES: nat := 5
  const BASE_DELAY_MS: nat := 60000
  const POLL_LIMIT: nat := 10
  const CONCURRENCY: nat := 10
  const AUDIT_HANDLER := "AuditLogHandler"

  function Pow2(n: nat): nat {
    if n == 0 then 1 else 2 * Pow2(n - 1)
  }

  /** The outbox row that `publish` saves. */
  function NewRow(event: Event, now: nat): Row {
    Row(event, Pending, map[], 0, MAX_RETRIES, None, None, now)
  }

  /** The query of the poll: pending, and never delayed or delayed until a time that has come. */
  predicate Due(row: Row, now: nat) {
    row.status == Pending && (row.nextRetryAt.None? || row.nextRetryAt.value <= now)
  }

  /** Backoff before attempt `retryCount + 1`. */
  function Delay(retryCount: nat): nat
    requires retryCount >= 1
  {
    BASE_DELAY_MS * Pow2(retryCount - 1)
  }

  /** The row after handleFailure's write, computed from the worker's snapshot. */
  function Settled(row: Row, snap: Row, message: string, now: nat): Row {
    var retryCount := snap.retryCount + 1;
    if retryCount >= snap.maxRetries then
      row.(status := Failed, retryCount := retryCount, error := Some(message))
    else
      row.(status := Pending, retryCount := retryCount,
           nextRetryAt := Some(now + Delay(retryCount)), error := Some(message))
  }

  /** The dead-letter document built from the worker's snapshot. */
  function Letter(snap: Row): DeadLetter {
    DeadLetter(snap.event.eventId, snap.event.eventType, snap.event.aggregateId,
               snap.event.aggregateType, snap.event.payload,
               if snap.error.None? || snap.error.value == "" then "Unknown error" else snap.error.value,
               snap.retryCount)
  }

  /** The audit document built from an event. */
  function AuditOf(e: Event): AuditLog {
    AuditLog(e.eventId, e.eventType, e.aggregateType, e.aggregateId, e.payload)
  }

  predicate IsDone(m: map<string, HandlerState>, name: string) {
    name in m && m[name] == Done
  }

  function JoinMessages(errors: seq<string>): string {
    if errors == [] then "" else if |errors| == 1 then errors[0] else errors[0] + ", " + JoinMessages(errors[1..])
  }

  /** The error thrown after the handler loop. */
  function Summary(errors: seq<string>): string {
    "Some handlers failed: " + JoinMessages(errors)
  }
}
