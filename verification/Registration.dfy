/** The handler table that the events module builds at start-up. */
module Registration {
  import opened Wrappers
  import opened Outbox
  import opened Protocol
  import opened Discipline
  import opened Dispatcher

  const EVENT_TYPES: seq<string> := [
    "user.created", "user.verified", "user.logged_in",
    "user.password_reset_requested", "user.password_reset_completed",
    "user.verification_email_requested", "user.security_alert", "user.account_created",
    "payment.initiated", "payment.completed", "payment.failed", "payment.refunded",
    "levy.created", "levy.due_reminder", "levy.overdue", "levy.paid"]

  const SPECIFIC: seq<(string, string)> := [
    ("user.created", "UserCreatedHandler"), ("user.verified", "UserVerifiedHandler"),
    ("user.logged_in", "UserLoggedInHandler"),
    ("user.password_reset_requested", "UserPasswordResetRequestedHandler"),
    ("user.password_reset_completed", "UserPasswordResetCompletedHandler"),
    ("user.verification_email_requested", "UserVerificationEmailRequestedHandler"),
    ("user.security_alert", "UserSecurityAlertHandler"), ("user.account_created", "UserAccountCreatedHandler"),
    ("payment.initiated", "PaymentInitiatedHandler"), ("payment.completed", "PaymentCompletedHandler"),
    ("payment.failed", "PaymentFailedHandler"), ("payment.refunded", "PaymentRefundedHandler"),
    ("levy.created", "LevyCreatedHandler"), ("levy.due_reminder", "LevyDueReminderHandler"),
    ("levy.overdue", "LevyOverdueHandler"), ("levy.paid", "LevyPaidHandler")]

  function AuditPairs(types: seq<string>): seq<(string, string)> {
    if types == [] then [] else AuditPairs(types[..|types| - 1]) + [(types[|types| - 1], AUDIT_HANDLER)]
  }

  lemma {:induction false} AuditNames(types: seq<string>, t: string)
    requires Distinct(types)
    ensures NamesIn(AuditPairs(types), t) == if t in types then [AUDIT_HANDLER] else []
  {
    if types != [] { AuditNames(types[..|types| - 1], t); }
  }

  lemma {:induction false} SpecificNames(list: seq<(string, string)>, t: string)
    requires forall i, j :: 0 <= i < j < |list| ==> list[i].0 != list[j].0
    ensures forall i :: 0 <= i < |list| && list[i].0 == t ==> NamesIn(list, t) == [list[i].1]
    ensures (forall i :: 0 <= i < |list| ==> list[i].0 != t) ==> NamesIn(list, t) == []
  {
    if list != [] { SpecificNames(list[..|list| - 1], t); }
  }

  lemma TypesDistinct()
    ensures |SPECIFIC| == |EVENT_TYPES|
    ensures forall i :: 0 <= i < |EVENT_TYPES| ==> SPECIFIC[i].0 == EVENT_TYPES[i] && SPECIFIC[i].1 != AUDIT_HANDLER
    ensures Distinct(EVENT_TYPES)
  {
  }

  function Table(specific: seq<(string, string)>, types: seq<string>): Registry {
    RegisterAll(RegisterAll(map[], specific), AuditPairs(types))
  }

  lemma TableNames(specific: seq<(string, string)>, types: seq<string>, t: string)
    ensures Names(Table(specific, types), t) == NamesIn(specific, t) + NamesIn(AuditPairs(types), t)
  {
    RegisterAllNames(RegisterAll(map[], specific), AuditPairs(types), t);
    RegisterAllNames(map[], specific, t);
  }

  /** For any list with one specific handler per type: that handler first, the audit handler second. */
  lemma SpecificThenAudit(specific: seq<(string, string)>, types: seq<string>, i: nat)
    requires i < |specific| == |types| && Distinct(types)
    requires forall j :: 0 <= j < |types| ==> specific[j].0 == types[j]
    ensures Names(Table(specific, types), types[i]) == [specific[i].1, AUDIT_HANDLER]
  {
    TableNames(specific, types, types[i]);
    AuditNames(types, types[i]);
    SpecificNames(specific, types[i]);
  }

  lemma UnlistedHasNone(specific: seq<(string, string)>, types: seq<string>, t: string)
    requires |specific| == |types| && Distinct(types) && t !in types
    requires forall j :: 0 <= j < |types| ==> specific[j].0 == types[j]
    ensures Names(Table(specific, types), t) == []
  {
    TableNames(specific, types, t);
    AuditNames(types, t);
    forall j | 0 <= j < |specific| ensures specific[j].0 != t {
      assert types[j] in types;
    }
    SpecificNames(specific, t);
  }

  const TABLE: Registry := Table(SPECIFIC, EVENT_TYPES)

  /** The application's table: every listed event type has its own handler and then the audit handler,
      with distinct names; every other type has none, so its events complete without any effect. */
  lemma TableIsSpecificThenAudit(t: string)
    ensures t in EVENT_TYPES ==>
              exists h :: (t, h) in SPECIFIC && h != AUDIT_HANDLER && Names(TABLE, t) == [h, AUDIT_HANDLER]
    ensures t !in EVENT_TYPES ==> Names(TABLE, t) == []
    ensures Distinct(Names(TABLE, t))
  {
    TypesDistinct();
    if t in EVENT_TYPES {
      var i :| 0 <= i < |EVENT_TYPES| && EVENT_TYPES[i] == t;
      SpecificThenAudit(SPECIFIC, EVENT_TYPES, i);
      assert (t, SPECIFIC[i].1) in SPECIFIC;
    } else {
      UnlistedHasNone(SPECIFIC, EVENT_TYPES, t);
    }
  }

  /** Which handlers an event of each type meets, by name. */
  lemma Routes()
    ensures Names(TABLE, "user.created") == ["UserCreatedHandler", "AuditLogHandler"]
    ensures Names(TABLE, "user.verified") == ["UserVerifiedHandler", "AuditLogHandler"]
    ensures Names(TABLE, "user.logged_in") == ["UserLoggedInHandler", "AuditLogHandler"]
    ensures Names(TABLE, "user.password_reset_requested") == ["UserPasswordResetRequestedHandler", "AuditLogHandler"]
    ensures Names(TABLE, "user.password_reset_completed") == ["UserPasswordResetCompletedHandler", "AuditLogHandler"]
    ensures Names(TABLE, "user.verification_email_requested") == ["UserVerificationEmailRequestedHandler", "AuditLogHandler"]
    ensures Names(TABLE, "user.security_alert") == ["UserSecurityAlertHandler", "AuditLogHandler"]
    ensures Names(TABLE, "user.account_created") == ["UserAccountCreatedHandler", "AuditLogHandler"]
    ensures Names(TABLE, "payment.initiated") == ["PaymentInitiatedHandler", "AuditLogHandler"]
    ensures Names(TABLE, "payment.completed") == ["PaymentCompletedHandler", "AuditLogHandler"]
    ensures Names(TABLE, "payment.failed") == ["PaymentFailedHandler", "AuditLogHandler"]
    ensures Names(TABLE, "payment.refunded") == ["PaymentRefundedHandler", "AuditLogHandler"]
    ensures Names(TABLE, "levy.created") == ["LevyCreatedHandler", "AuditLogHandler"]
    ensures Names(TABLE, "levy.due_reminder") == ["LevyDueReminderHandler", "AuditLogHandler"]
    ensures Names(TABLE, "levy.overdue") == ["LevyOverdueHandler", "AuditLogHandler"]
    ensures Names(TABLE, "levy.paid") == ["LevyPaidHandler", "AuditLogHandler"]
  {
    TypesDistinct();
    SpecificThenAudit(SPECIFIC, EVENT_TYPES, 0);
    SpecificThenAudit(SPECIFIC, EVENT_TYPES, 1);
    SpecificThenAudit(SPECIFIC, EVENT_TYPES, 2);
    SpecificThenAudit(SPECIFIC, EVENT_TYPES, 3);
    SpecificThenAudit(SPECIFIC, EVENT_TYPES, 4);
    SpecificThenAudit(SPECIFIC, EVENT_TYPES, 5);
    SpecificThenAudit(SPECIFIC, EVENT_TYPES, 6);
    SpecificThenAudit(SPECIFIC, EVENT_TYPES, 7);
    SpecificThenAudit(SPECIFIC, EVENT_TYPES, 8);
    SpecificThenAudit(SPECIFIC, EVENT_TYPES, 9);
    SpecificThenAudit(SPECIFIC, EVENT_TYPES, 10);
    SpecificThenAudit(SPECIFIC, EVENT_TYPES, 11);
    SpecificThenAudit(SPECIFIC, EVENT_TYPES, 12);
    SpecificThenAudit(SPECIFIC, EVENT_TYPES, 13);
    SpecificThenAudit(SPECIFIC, EVENT_TYPES, 14);
    SpecificThenAudit(SPECIFIC, EVENT_TYPES, 15);
  }

  /** registerHandlers: the specific handlers in bulk, then the audit handler once per type. */
  method RegisterHandlersFor(dispatcher: EventDispatcher, specific: seq<(string, string)>, types: seq<string>)
    requires dispatcher.handlers == map[]
    modifies dispatcher
    ensures dispatcher.handlers == Table(specific, types)
  {
    dispatcher.RegisterHandlers(specific);
    ghost var base := dispatcher.handlers;
    for i := 0 to |types|
      invariant dispatcher.handlers == RegisterAll(base, AuditPairs(types[..i]))
    {
      assert types[..i + 1][..i] == types[..i];
      dispatcher.RegisterHandler(types[i], AUDIT_HANDLER);
    }
    assert types[..|types|] == types;
  }

  method RegisterHandlers(dispatcher: EventDispatcher)
    requires dispatcher.handlers == map[]
    modifies dispatcher
    ensures dispatcher.handlers == TABLE
  {
    RegisterHandlersFor(dispatcher, SPECIFIC, EVENT_TYPES);
  }
}
