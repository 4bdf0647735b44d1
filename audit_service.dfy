/** AuditService: an audit log keyed by the decimal text of ids drawn from a
    counter that starts at 1 and is never reset. */
module Audit {
  import opened Wrappers
  import opened Text
  import TM = TransactionModel

  datatype AuditEntry = AuditEntry(
    id: Option<int>,
    eventType: Option<string>,
    methodName: Option<string>,
    arguments: Option<string>,
    result: Option<string>,
    error: Option<string>,
    errorType: Option<string>,
    executionTime: Option<int>,
    userId: Option<string>,
    clientIp: Option<string>,
    userAgent: Option<string>,
    traceId: Option<string>,
    checkType: Option<string>,
    violationType: Option<string>,
    alertType: Option<string>,
    message: Option<string>,
    details: Option<string>,
    severity: Option<string>,
    timestamp: Option<TM.Timestamp>)

  /** AuditEntry.builder() before any setter. */
  function EmptyEntry(): AuditEntry {
    AuditEntry(None, None, None, None, None, None, None, None, None, None, None, None,
               None, None, None, None, None, None, None)
  }

  // ---------------------------------------------------------------------------
  // The entry each record* method builds (without its id)
  // ---------------------------------------------------------------------------

  function MethodEntryEntry(methodName: string, arguments: string, userId: string, clientIp: string,
                            userAgent: string, traceId: Option<string>, now: TM.Timestamp): (e: AuditEntry)
    ensures e.id.None? && e.eventType == Some("METHOD_ENTRY") && e.timestamp == Some(now)
    ensures e.methodName == Some(methodName) && e.arguments == Some(arguments)
    ensures e.userId == Some(userId) && e.clientIp == Some(clientIp)
    ensures e.userAgent == Some(userAgent)
    ensures e.traceId == traceId
    ensures e.severity.None?
  {
    EmptyEntry().(eventType := Some("METHOD_ENTRY"), methodName := Some(methodName),
      arguments := Some(arguments), userId := Some(userId), clientIp := Some(clientIp),
      userAgent := Some(userAgent), traceId := traceId, timestamp := Some(now))
  }

  function MethodSuccessEntry(methodName: string, result: string, executionTime: int, userId: string,
                              traceId: Option<string>, now: TM.Timestamp): (e: AuditEntry)
    ensures e.id.None? && e.eventType == Some("METHOD_SUCCESS") && e.timestamp == Some(now)
    ensures e.methodName == Some(methodName) && e.result == Some(result)
    ensures e.executionTime == Some(executionTime) && e.userId == Some(userId)
    ensures e.traceId == traceId
    ensures e.severity.None?
  {
    EmptyEntry().(eventType := Some("METHOD_SUCCESS"), methodName := Some(methodName),
      result := Some(result), executionTime := Some(executionTime), userId := Some(userId),
      traceId := traceId, timestamp := Some(now))
  }

  function MethodFailureEntry(methodName: string, error: string, executionTime: int, userId: string,
                              traceId: Option<string>, now: TM.Timestamp): (e: AuditEntry)
    ensures e.id.None? && e.eventType == Some("METHOD_FAILURE") && e.timestamp == Some(now)
    ensures e.methodName == Some(methodName) && e.error == Some(error)
    ensures e.executionTime == Some(executionTime) && e.userId == Some(userId)
    ensures e.traceId == traceId
    ensures e.severity.None?
  {
    EmptyEntry().(eventType := Some("METHOD_FAILURE"), methodName := Some(methodName),
      error := Some(error), executionTime := Some(executionTime), userId := Some(userId),
      traceId := traceId, timestamp := Some(now))
  }

  function DataModificationAttemptEntry(methodName: string, arguments: string, userId: string,
                                        clientIp: string, timestamp: TM.Timestamp): (e: AuditEntry)
    ensures e.id.None? && e.eventType == Some("DATA_MODIFICATION_ATTEMPT")
    ensures e.timestamp == Some(timestamp)
    ensures e.methodName == Some(methodName) && e.arguments == Some(arguments)
    ensures e.userId == Some(userId) && e.clientIp == Some(clientIp)
    ensures e.severity.None?
  {
    EmptyEntry().(eventType := Some("DATA_MODIFICATION_ATTEMPT"), methodName := Some(methodName),
      arguments := Some(arguments), userId := Some(userId), clientIp := Some(clientIp),
      timestamp := Some(timestamp))
  }

  function DataModificationSuccessEntry(methodName: string, result: string, userId: string,
                                        timestamp: TM.Timestamp): (e: AuditEntry)
    ensures e.id.None? && e.eventType == Some("DATA_MODIFICATION_SUCCESS")
    ensures e.timestamp == Some(timestamp)
    ensures e.methodName == Some(methodName) && e.result == Some(result) && e.userId == Some(userId)
    ensures e.severity.None?
  {
    EmptyEntry().(eventType := Some("DATA_MODIFICATION_SUCCESS"), methodName := Some(methodName),
      result := Some(result), userId := Some(userId), timestamp := Some(timestamp))
  }

  function DataModificationFailureEntry(methodName: string, error: string, errorType: string,
                                        userId: string, timestamp: TM.Timestamp): (e: AuditEntry)
    ensures e.id.None? && e.eventType == Some("DATA_MODIFICATION_FAILURE")
    ensures e.timestamp == Some(timestamp)
    ensures e.methodName == Some(methodName) && e.error == Some(error)
    ensures e.errorType == Some(errorType) && e.userId == Some(userId)
    ensures e.severity.None?
  {
    EmptyEntry().(eventType := Some("DATA_MODIFICATION_FAILURE"), methodName := Some(methodName),
      error := Some(error), errorType := Some(errorType), userId := Some(userId),
      timestamp := Some(timestamp))
  }

  function SecurityCheckEntry(methodName: string, userId: string, clientIp: string, checkType: string,
                              timestamp: TM.Timestamp): (e: AuditEntry)
    ensures e.id.None? && e.eventType == Some("SECURITY_CHECK") && e.timestamp == Some(timestamp)
    ensures e.methodName == Some(methodName) && e.userId == Some(userId)
    ensures e.clientIp == Some(clientIp) && e.checkType == Some(checkType)
    ensures e.severity.None?
  {
    EmptyEntry().(eventType := Some("SECURITY_CHECK"), methodName := Some(methodName),
      userId := Some(userId), clientIp := Some(clientIp), checkType := Some(checkType),
      timestamp := Some(timestamp))
  }

  function SecurityViolationEntry(violationType: string, methodName: string, userId: string,
                                  clientIp: string, details: string, now: TM.Timestamp): (e: AuditEntry)
    ensures e.id.None? && e.eventType == Some("SECURITY_VIOLATION") && e.timestamp == Some(now)
    ensures e.violationType == Some(violationType) && e.methodName == Some(methodName)
    ensures e.userId == Some(userId) && e.clientIp == Some(clientIp) && e.details == Some(details)
    ensures e.severity == Some("HIGH")
  {
    EmptyEntry().(eventType := Some("SECURITY_VIOLATION"), violationType := Some(violationType),
      methodName := Some(methodName), userId := Some(userId), clientIp := Some(clientIp),
      details := Some(details), timestamp := Some(now), severity := Some("HIGH"))
  }

  function SecurityAlertEntry(alertType: string, message: string, userId: string, clientIp: string,
                              severity: string, now: TM.Timestamp): (e: AuditEntry)
    ensures e.id.None? && e.eventType == Some("SECURITY_ALERT") && e.timestamp == Some(now)
    ensures e.alertType == Some(alertType) && e.message == Some(message) && e.userId == Some(userId)
    ensures e.clientIp == Some(clientIp)
    ensures e.severity == Some(severity)
  {
    EmptyEntry().(eventType := Some("SECURITY_ALERT"), alertType := Some(alertType),
      message := Some(message), userId := Some(userId), clientIp := Some(clientIp),
      severity := Some(severity), timestamp := Some(now))
  }

  /** A security violation is always logged with severity HIGH, whatever the
      caller passed; a security alert keeps the caller's severity. */
  lemma SeverityRules(violationType: string, methodName: string, userId: string, clientIp: string,
                      details: string, alertType: string, message: string, severity: string, now: TM.Timestamp)
    ensures SecurityViolationEntry(violationType, methodName, userId, clientIp, details, now).severity == Some("HIGH")
    ensures SecurityAlertEntry(alertType, message, userId, clientIp, severity, now).severity == Some(severity)
    ensures SecurityViolationEntry(violationType, methodName, userId, clientIp, details, now).eventType
         != SecurityAlertEntry(alertType, message, userId, clientIp, severity, now).eventType
  {
  }

  // ---------------------------------------------------------------------------
  // The log as a value
  // ---------------------------------------------------------------------------

  datatype AuditLog = AuditLog(entries: map<string, AuditEntry>, nextEntryId: int)

  /** Every entry sits under the decimal text of its own id, which is below the
      counter. */
  predicate LogValid(a: AuditLog) {
    && a.nextEntryId >= 1
    && forall key :: key in a.entries ==>
         && a.entries[key].id.Some?
         && 1 <= a.entries[key].id.value < a.nextEntryId
         && key == NatToString(a.entries[key].id.value)
  }

  /** auditLog.put(entry.getId().toString(), entry) with the id drawn by
      entryIdGenerator.getAndIncrement(). */
  function Record(a: AuditLog, e: AuditEntry): (b: AuditLog)
    requires a.nextEntryId >= 1
    ensures b.nextEntryId == a.nextEntryId + 1
    ensures b.entries.Keys == a.entries.Keys + {NatToString(a.nextEntryId)}
    ensures b.entries[NatToString(a.nextEntryId)] == e.(id := Some(a.nextEntryId))
    ensures forall key | key in a.entries && key != NatToString(a.nextEntryId) :: b.entries[key] == a.entries[key]
  {
    var id := a.nextEntryId;
    AuditLog(a.entries[NatToString(id) := e.(id := Some(id))], id + 1)
  }

  /** auditLog.clear(): the counter is not reset. */
  function Clear(a: AuditLog): (b: AuditLog)
    ensures b.entries == map[] && b.nextEntryId == a.nextEntryId
    ensures LogValid(a) ==> LogValid(b)
  {
    a.(entries := map[])
  }

  /** Recording adds exactly one entry, under a key no earlier entry has, with
      the id the counter held; earlier entries stay as they were. */
  lemma RecordAddsOne(a: AuditLog, e: AuditEntry)
    requires LogValid(a)
    ensures var b := Record(a, e);
      && LogValid(b)
      && NatToString(a.nextEntryId) !in a.entries
      && |b.entries| == |a.entries| + 1
      && b.entries[NatToString(a.nextEntryId)] == e.(id := Some(a.nextEntryId))
      && (forall key :: key in a.entries ==> key in b.entries && b.entries[key] == a.entries[key])
      && b.nextEntryId == a.nextEntryId + 1
  {
    var key := NatToString(a.nextEntryId);
    if key in a.entries {
      NatToStringInjective(a.entries[key].id.value, a.nextEntryId);
      assert false;
    }
  }

  /** After a clear the log is empty, and the next entry gets an id larger than
      that of every entry recorded before the clear. */
  lemma ClearKeepsCounter(a: AuditLog, e: AuditEntry)
    requires LogValid(a)
    ensures |Clear(a).entries| == 0 && LogValid(Clear(a))
    ensures var b := Record(Clear(a), e);
      forall key :: key in a.entries ==>
        a.entries[key].id.value < b.entries[NatToString(a.nextEntryId)].id.value
  {
  }

  /** The event-specific methods that only log. */
  datatype LoggedEvent =
    | TransactionCreation | Approval | Rejection | SecurityEvent
    | ComplianceCheck | TransferInitiation | BalanceChange

  class AuditService {
    /** auditLog */
    var entries: map<string, AuditEntry>
    /** entryIdGenerator */
    var nextEntryId: int

    function State(): AuditLog
      reads this
    {
      AuditLog(entries, nextEntryId)
    }

    ghost predicate Valid()
      reads this
    {
      LogValid(State())
    }

    constructor ()
      ensures Valid()
      ensures entries == map[] && nextEntryId == 1
    {
      entries := map[];
      nextEntryId := 1;
    }

    /** Draws an id and stores the entry under its decimal text. */
    method Append(e: AuditEntry)
      requires Valid()
      modifies this
      ensures Valid()
      ensures State() == Record(old(State()), e)
      ensures TotalAuditEntries() == old(TotalAuditEntries()) + 1
    {
      RecordAddsOne(State(), e);
      var id := nextEntryId;
      nextEntryId := nextEntryId + 1;
      entries := entries[NatToString(id) := e.(id := Some(id))];
    }

    method RecordMethodEntry(methodName: string, arguments: string, userId: string, clientIp: string,
                             userAgent: string, traceId: Option<string>, now: TM.Timestamp)
      requires Valid()
      modifies this
      ensures Valid()
      ensures State() == Record(old(State()), MethodEntryEntry(methodName, arguments, userId, clientIp, userAgent, traceId, now))
    {
      Append(MethodEntryEntry(methodName, arguments, userId, clientIp, userAgent, traceId, now));
    }

    method RecordMethodSuccess(methodName: string, result: string, executionTime: int, userId: string,
                               traceId: Option<string>, now: TM.Timestamp)
      requires Valid()
      modifies this
      ensures Valid()
      ensures State() == Record(old(State()), MethodSuccessEntry(methodName, result, executionTime, userId, traceId, now))
    {
      Append(MethodSuccessEntry(methodName, result, executionTime, userId, traceId, now));
    }

    method RecordMethodFailure(methodName: string, error: string, executionTime: int, userId: string,
                               traceId: Option<string>, now: TM.Timestamp)
      requires Valid()
      modifies this
      ensures Valid()
      ensures State() == Record(old(State()), MethodFailureEntry(methodName, error, executionTime, userId, traceId, now))
    {
      Append(MethodFailureEntry(methodName, error, executionTime, userId, traceId, now));
    }

    method RecordDataModificationAttempt(methodName: string, arguments: string, userId: string,
                                         clientIp: string, timestamp: TM.Timestamp)
      requires Valid()
      modifies this
      ensures Valid()
      ensures State() == Record(old(State()), DataModificationAttemptEntry(methodName, arguments, userId, clientIp, timestamp))
    {
      Append(DataModificationAttemptEntry(methodName, arguments, userId, clientIp, timestamp));
    }

    method RecordDataModificationSuccess(methodName: string, result: string, userId: string,
                                         timestamp: TM.Timestamp)
      requires Valid()
      modifies this
      ensures Valid()
      ensures State() == Record(old(State()), DataModificationSuccessEntry(methodName, result, userId, timestamp))
    {
      Append(DataModificationSuccessEntry(methodName, result, userId, timestamp));
    }

    method RecordDataModificationFailure(methodName: string, error: string, errorType: string,
                                         userId: string, timestamp: TM.Timestamp)
      requires Valid()
      modifies this
      ensures Valid()
      ensures State() == Record(old(State()), DataModificationFailureEntry(methodName, error, errorType, userId, timestamp))
    {
      Append(DataModificationFailureEntry(methodName, error, errorType, userId, timestamp));
    }

    method RecordSecurityCheck(methodName: string, userId: string, clientIp: string, checkType: string,
                               timestamp: TM.Timestamp)
      requires Valid()
      modifies this
      ensures Valid()
      ensures State() == Record(old(State()), SecurityCheckEntry(methodName, userId, clientIp, checkType, timestamp))
    {
      Append(SecurityCheckEntry(methodName, userId, clientIp, checkType, timestamp));
    }

    method RecordSecurityViolation(violationType: string, methodName: string, userId: string,
                                   clientIp: string, details: string, now: TM.Timestamp)
      requires Valid()
      modifies this
      ensures Valid()
      ensures State() == Record(old(State()), SecurityViolationEntry(violationType, methodName, userId, clientIp, details, now))
    {
      Append(SecurityViolationEntry(violationType, methodName, userId, clientIp, details, now));
    }

    method RecordSecurityAlert(alertType: string, message: string, userId: string, clientIp: string,
                               severity: string, now: TM.Timestamp)
      requires Valid()
      modifies this
      ensures Valid()
      ensures State() == Record(old(State()), SecurityAlertEntry(alertType, message, userId, clientIp, severity, now))
    {
      Append(SecurityAlertEntry(alertType, message, userId, clientIp, severity, now));
    }

    /** recordTransactionCreation .. recordBalanceChange: they only write to
        the application log. */
    method RecordLoggedEvent(kind: LoggedEvent)
      ensures unchanged(this)
    {
    }

    /** getTotalAuditEntries */
    function TotalAuditEntries(): int
      reads this
    {
      |entries|
    }

    /** clearAuditLog */
    method ClearAuditLog()
      requires Valid()
      modifies this
      ensures Valid()
      ensures State() == Clear(old(State()))
      ensures TotalAuditEntries() == 0
    {
      entries := map[];
    }
  }

  /** Ids keep growing across a clear: after two records, a clear and a third
      record, the log holds one entry, under key "3". */
  method ClearThenRecord(now: TM.Timestamp) returns (service: AuditService)
    ensures service.TotalAuditEntries() == 1
    ensures "3" in service.entries && service.entries["3"].id == Some(3)
  {
    service := new AuditService();
    service.RecordSecurityCheck("create", "alice", "10.0.0.1", "ROLE", now);
    service.RecordSecurityCheck("create", "alice", "10.0.0.1", "ROLE", now);
    assert service.nextEntryId == 3;
    service.ClearAuditLog();
    assert service.entries == map[] && service.nextEntryId == 3;
    service.RecordSecurityAlert("LOGIN", "repeated failures", "alice", "10.0.0.1", "MEDIUM", now);
    assert NatToString(3) == "3";
    assert service.entries.Keys == {"3"};
  }
}
