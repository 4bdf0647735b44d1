/** BankingEventHandler: each handler is a function from the event to the
    downstream calls it makes, in order, and the exception that stops it, if
    any. The risk score that fraud detection computes is an input; the
    exceptions its computation throws are modelled. */
module EventHandling {
  import opened Wrappers
  import opened Exceptions
  import TM = TransactionModel
  import TS = TransactionStore

  // ---------------------------------------------------------------------------
  // The events (BankingEvents); every field may be null
  // ---------------------------------------------------------------------------

  datatype TransactionCreatedEvent = TransactionCreatedEvent(
    transactionId: Option<int>, accountId: Option<string>, transactionType: Option<string>,
    amount: Option<real>, currency: Option<string>, description: Option<string>,
    idempotencyKey: Option<string>, createdBy: Option<string>, createdAt: Option<TM.Timestamp>,
    clientIp: Option<string>, userAgent: Option<string>)

  datatype TransactionApprovedEvent = TransactionApprovedEvent(
    transactionId: Option<int>, accountId: Option<string>, amount: Option<real>,
    approvedBy: Option<string>, approvedAt: Option<TM.Timestamp>, approvalReason: Option<string>)

  datatype TransactionRejectedEvent = TransactionRejectedEvent(
    transactionId: Option<int>, accountId: Option<string>, amount: Option<real>,
    rejectedBy: Option<string>, rejectedAt: Option<TM.Timestamp>, rejectionReason: Option<string>,
    errorCode: Option<string>)

  datatype TransferInitiatedEvent = TransferInitiatedEvent(
    transactionId: Option<int>, sourceAccount: Option<string>, targetAccount: Option<string>,
    amount: Option<real>, currency: Option<string>, reference: Option<string>,
    initiatedAt: Option<TM.Timestamp>)

  datatype FraudSuspectedEvent = FraudSuspectedEvent(
    transactionId: Option<int>, accountId: Option<string>, amount: Option<real>,
    suspicionReason: Option<string>, riskScore: Option<real>, detectedAt: Option<TM.Timestamp>,
    detectionSource: Option<string>)

  datatype AccountBalanceUpdatedEvent = AccountBalanceUpdatedEvent(
    accountId: Option<string>, previousBalance: Option<real>, newBalance: Option<real>,
    transactionAmount: Option<real>, transactionId: Option<int>, updatedAt: Option<TM.Timestamp>)

  datatype ComplianceCheckRequiredEvent = ComplianceCheckRequiredEvent(
    transactionId: Option<int>, accountId: Option<string>, amount: Option<real>,
    transactionType: Option<string>, regulationType: Option<string>,
    triggeredAt: Option<TM.Timestamp>)

  // ---------------------------------------------------------------------------
  // Downstream calls
  // ---------------------------------------------------------------------------

  datatype Action =
    | RecordTransactionCreation(created: TransactionCreatedEvent)
    | SendTransactionAlert(created: TransactionCreatedEvent)
    | RecordApproval(approved: TransactionApprovedEvent)
    | SendApprovalNotification(approved: TransactionApprovedEvent)
    | RecordRejection(rejected: TransactionRejectedEvent)
    | SendRejectionNotification(rejected: TransactionRejectedEvent)
    | SuggestAlternatives(rejected: TransactionRejectedEvent)
    | RecordSecurityEvent(fraud: FraudSuspectedEvent)
    | SendFraudAlert(fraud: FraudSuspectedEvent)
    | FreezeAccount(accountId: Option<string>, reason: string)
    | RecordComplianceCheck(check: ComplianceCheckRequiredEvent)
    | PerformAmlCheck(check: ComplianceCheckRequiredEvent)
    | PerformKycCheck(check: ComplianceCheckRequiredEvent)
    | PerformFatcaCheck(check: ComplianceCheckRequiredEvent)
    | RecordTransferInitiation(transfer: TransferInitiatedEvent)
    | SendTransferConfirmation(transfer: TransferInitiatedEvent)
    | RecordBalanceChange(balance: AccountBalanceUpdatedEvent)
    | SendLowBalanceAlert(balance: AccountBalanceUpdatedEvent)

  /** The calls a handler made, and the exception it ended with, if any. */
  datatype Run = Run(actions: seq<Action>, thrown: Option<Exception>)

  function Then(r: Run, next: Run): Run {
    if r.thrown.Some? then r else Run(r.actions + next.actions, next.thrown)
  }

  function Calls(actions: seq<Action>): Run {
    Run(actions, None)
  }

  function Throws(): Run {
    Run([], Some(Unhandled(NullPointer, None)))
  }

  /** The double literals 0.7 and 0.9, as the exact values of the binary64
      numbers they denote. */
  const FraudThreshold: real := 0.6999999999999999555910790149937383830547332763671875
  const FreezeThreshold: real := 0.90000000000000002220446049250313080847263336181640625
  const ComplianceThreshold: real := 10000.0
  const LowBalanceThreshold: real := 100.0
  const FreezeReason: string := "High fraud risk detected"

  // ---------------------------------------------------------------------------
  // Handlers
  // ---------------------------------------------------------------------------

  /** publishFraudSuspectedEvent's derived event. */
  function FraudEventOf(source: TransactionCreatedEvent, riskScore: real): (f: FraudSuspectedEvent)
    ensures f.transactionId == source.transactionId && f.accountId == source.accountId
    ensures f.amount == source.amount && f.detectedAt == source.createdAt
    ensures f.riskScore == Some(riskScore)
    ensures f.suspicionReason == Some("Automated risk analysis") && f.detectionSource == Some("ML_MODEL")
  {
    FraudSuspectedEvent(source.transactionId, source.accountId, source.amount,
      Some("Automated risk analysis"), Some(riskScore), source.createdAt, Some("ML_MODEL"))
  }

  /** publishComplianceCheckEvent's derived event. */
  function ComplianceEventOf(source: TransactionCreatedEvent): (c: ComplianceCheckRequiredEvent)
    ensures c.transactionId == source.transactionId && c.accountId == source.accountId
    ensures c.amount == source.amount && c.transactionType == source.transactionType
    ensures c.regulationType == Some("AML") && c.triggeredAt == source.createdAt
  {
    ComplianceCheckRequiredEvent(source.transactionId, source.accountId, source.amount,
      source.transactionType, Some("AML"), source.createdAt)
  }

  /** handleFraudSuspected: unboxing a null risk score throws. The event is
      always audited and alerted first. */
  function HandleFraudSuspected(e: FraudSuspectedEvent): (r: Run)
    ensures |r.actions| >= 2 && r.actions[..2] == [RecordSecurityEvent(e), SendFraudAlert(e)]
    ensures r.thrown.Some? <==> e.riskScore.None?
  {
    Then(Calls([RecordSecurityEvent(e), SendFraudAlert(e)]),
      if e.riskScore.None? then Throws()
      else if e.riskScore.value > FreezeThreshold then Calls([FreezeAccount(e.accountId, FreezeReason)])
      else Calls([]))
  }

  /** handleComplianceCheckRequired: a switch on a null type throws. The
      check is always audited first, and at most one check follows. */
  function HandleComplianceCheckRequired(e: ComplianceCheckRequiredEvent): (r: Run)
    ensures 1 <= |r.actions| <= 2 && r.actions[0] == RecordComplianceCheck(e)
    ensures r.thrown.Some? <==> e.regulationType.None?
  {
    Then(Calls([RecordComplianceCheck(e)]),
      match e.regulationType
      case None => Throws()
      case Some(kind) =>
        if kind == "AML" then Calls([PerformAmlCheck(e)])
        else if kind == "KYC" then Calls([PerformKycCheck(e)])
        else if kind == "FATCA" then Calls([PerformFatcaCheck(e)])
        else Calls([]))
  }

  /** handleTransactionCreated: audit, the risk score, the fraud chain above
      0.7, the compliance chain from 10000 on, then the alert. The derived
      events are handled in the same call, in that order. Computing the risk
      score reads the amount and the creation hour without a null check, so
      an event missing either throws right after the audit. The event is
      always audited first, and the handler throws iff one of them is
      missing. */
  function HandleTransactionCreated(e: TransactionCreatedEvent, riskScore: real): (r: Run)
    ensures |r.actions| >= 1 && r.actions[0] == RecordTransactionCreation(e)
    ensures r.thrown.Some? <==> e.amount.None? || e.createdAt.None?
  {
    var audited := Calls([RecordTransactionCreation(e)]);
    if e.amount.None? || e.createdAt.None? then Then(audited, Throws())
    else Then(Then(Then(audited, FraudChain(e, riskScore)), ComplianceChain(e)), Calls([SendTransactionAlert(e)]))
  }

  /** publishFraudSuspectedEvent when the score is above 0.7. */
  function FraudChain(e: TransactionCreatedEvent, riskScore: real): Run {
    if riskScore > FraudThreshold then HandleFraudSuspected(FraudEventOf(e, riskScore)) else Calls([])
  }

  /** publishComplianceCheckEvent when the amount is at least 10000. */
  function ComplianceChain(e: TransactionCreatedEvent): Run
    requires e.amount.Some?
  {
    if e.amount.value >= ComplianceThreshold then HandleComplianceCheckRequired(ComplianceEventOf(e)) else Calls([])
  }

  /** handleTransactionApproved: audited first, never throws. */
  function HandleTransactionApproved(e: TransactionApprovedEvent): (r: Run)
    ensures r.thrown.None? && |r.actions| >= 1 && r.actions[0] == RecordApproval(e)
  {
    Calls([RecordApproval(e), SendApprovalNotification(e)])
  }

  /** handleTransactionRejected: "INSUFFICIENT_FUNDS".equals(errorCode) is
      false for a null code, so it never throws; audited first. */
  function HandleTransactionRejected(e: TransactionRejectedEvent): (r: Run)
    ensures r.thrown.None? && |r.actions| >= 1 && r.actions[0] == RecordRejection(e)
  {
    Calls([RecordRejection(e), SendRejectionNotification(e)]
          + (if e.errorCode == Some("INSUFFICIENT_FUNDS") then [SuggestAlternatives(e)] else []))
  }

  /** handleTransferInitiated: audited first, never throws. */
  function HandleTransferInitiated(e: TransferInitiatedEvent): (r: Run)
    ensures r.thrown.None? && |r.actions| >= 1 && r.actions[0] == RecordTransferInitiation(e)
  {
    Calls([RecordTransferInitiation(e), SendTransferConfirmation(e)])
  }

  /** handleBalanceUpdated: comparing a null balance throws, after the
      audit. */
  function HandleBalanceUpdated(e: AccountBalanceUpdatedEvent): (r: Run)
    ensures |r.actions| >= 1 && r.actions[0] == RecordBalanceChange(e)
    ensures r.thrown.Some? <==> e.newBalance.None?
  {
    Then(Calls([RecordBalanceChange(e)]),
      if e.newBalance.None? then Throws()
      else if e.newBalance.value < LowBalanceThreshold then Calls([SendLowBalanceAlert(e)])
      else Calls([]))
  }

  // ---------------------------------------------------------------------------
  // Properties
  // ---------------------------------------------------------------------------

  predicate IsFraudCall(a: Action) {
    a.RecordSecurityEvent? || a.SendFraudAlert? || a.FreezeAccount?
  }

  predicate IsComplianceCall(a: Action) {
    a.RecordComplianceCheck? || a.PerformAmlCheck? || a.PerformKycCheck? || a.PerformFatcaCheck?
  }

  /** A created event with an amount and a creation time is audited first
      and alerted last, and nothing throws. */
  lemma CreatedAuditsAndAlerts(e: TransactionCreatedEvent, riskScore: real)
    requires e.amount.Some? && e.createdAt.Some?
    ensures var r := HandleTransactionCreated(e, riskScore);
      && r.thrown.None?
      && |r.actions| >= 2
      && r.actions[0] == RecordTransactionCreation(e)
      && r.actions[|r.actions| - 1] == SendTransactionAlert(e)
  {
    CreatedRun(e, riskScore);
  }

  /** With an amount and a creation time nothing throws, and the calls are
      the audit, the fraud chain, the compliance chain and the alert. */
  lemma CreatedRun(e: TransactionCreatedEvent, riskScore: real)
    requires e.amount.Some? && e.createdAt.Some?
    ensures HandleTransactionCreated(e, riskScore) ==
      Run([RecordTransactionCreation(e)] + FraudChain(e, riskScore).actions + ComplianceChain(e).actions
          + [SendTransactionAlert(e)], None)
  {
    FraudChainCalls(e, riskScore);
    ComplianceChainCalls(e);
  }

  /** The fraud chain's calls: none at or below 0.7, otherwise the audit and
      the alert of the derived event, and the freeze above 0.9. */
  lemma FraudChainCalls(e: TransactionCreatedEvent, riskScore: real)
    ensures FraudChain(e, riskScore).thrown.None?
    ensures FraudChain(e, riskScore).actions ==
      if riskScore <= FraudThreshold then []
      else [RecordSecurityEvent(FraudEventOf(e, riskScore)), SendFraudAlert(FraudEventOf(e, riskScore))]
           + (if riskScore > FreezeThreshold then [FreezeAccount(e.accountId, FreezeReason)] else [])
  {
  }

  /** The compliance chain's calls: none below 10000, otherwise the audit and
      the AML check of the derived event. */
  lemma ComplianceChainCalls(e: TransactionCreatedEvent)
    requires e.amount.Some?
    ensures ComplianceChain(e).thrown.None?
    ensures ComplianceChain(e).actions ==
      if e.amount.value < ComplianceThreshold then []
      else [RecordComplianceCheck(ComplianceEventOf(e)), PerformAmlCheck(ComplianceEventOf(e))]
  {
  }

  /** A call of a created event's run is the audit, a call of one of the two
      chains, or the alert. */
  lemma InCreatedRun(e: TransactionCreatedEvent, riskScore: real, a: Action)
    requires e.amount.Some? && e.createdAt.Some?
    ensures a in HandleTransactionCreated(e, riskScore).actions <==>
      a == RecordTransactionCreation(e) || a in FraudChain(e, riskScore).actions
      || a in ComplianceChain(e).actions || a == SendTransactionAlert(e)
  {
    CreatedRun(e, riskScore);
  }

  /** A created event without an amount or without a creation time is
      audited, and then the risk-score computation throws a
      NullPointerException: no fraud chain, no compliance chain, no alert. */
  lemma CreatedWithoutAmountThrows(e: TransactionCreatedEvent, riskScore: real)
    requires e.amount.None? || e.createdAt.None?
    ensures var r := HandleTransactionCreated(e, riskScore);
      && r.thrown == Some(Unhandled(NullPointer, None))
      && r.actions == [RecordTransactionCreation(e)]
      && SendTransactionAlert(e) !in r.actions
      && (forall a | a in r.actions :: !IsComplianceCall(a) && !IsFraudCall(a))
  {
  }

  /** The fraud chain runs iff the risk score is above 0.7; its event copies
      the id, account and amount, takes the creation time as detection time,
      and the account is frozen iff the score is above 0.9. */
  lemma FraudChainRule(e: TransactionCreatedEvent, riskScore: real)
    requires e.amount.Some? && e.createdAt.Some?
    ensures var r := HandleTransactionCreated(e, riskScore);
      && ((exists a | a in r.actions :: IsFraudCall(a)) <==> riskScore > FraudThreshold)
      && (riskScore > FraudThreshold ==>
            var f := r.actions[1].fraud;
            && r.actions[1].RecordSecurityEvent?
            && f.transactionId == e.transactionId && f.accountId == e.accountId
            && f.amount == e.amount && f.detectedAt == e.createdAt
            && f.riskScore == Some(riskScore))
      && (FreezeAccount(e.accountId, FreezeReason) in r.actions <==> riskScore > FreezeThreshold)
  {
    var r := HandleTransactionCreated(e, riskScore);
    CreatedRun(e, riskScore);
    FraudChainCalls(e, riskScore);
    ComplianceChainCalls(e);
    InCreatedRun(e, riskScore, FreezeAccount(e.accountId, FreezeReason));
    if riskScore > FraudThreshold {
      assert r.actions[1] == RecordSecurityEvent(FraudEventOf(e, riskScore));
      assert IsFraudCall(r.actions[1]);
    } else {
      forall a | a in r.actions
        ensures !IsFraudCall(a)
      {
        InCreatedRun(e, riskScore, a);
      }
    }
  }

  /** The compliance chain runs iff the amount is at least 10000, and it is
      always an AML check. */
  lemma ComplianceChainRule(e: TransactionCreatedEvent, riskScore: real)
    requires e.amount.Some? && e.createdAt.Some?
    ensures var r := HandleTransactionCreated(e, riskScore);
      && ((exists a | a in r.actions :: IsComplianceCall(a)) <==> e.amount.value >= ComplianceThreshold)
      && (PerformAmlCheck(ComplianceEventOf(e)) in r.actions <==> e.amount.value >= ComplianceThreshold)
      && (forall a | a in r.actions :: !a.PerformKycCheck? && !a.PerformFatcaCheck?)
  {
    var r := HandleTransactionCreated(e, riskScore);
    FraudChainCalls(e, riskScore);
    ComplianceChainCalls(e);
    InCreatedRun(e, riskScore, PerformAmlCheck(ComplianceEventOf(e)));
    if e.amount.value >= ComplianceThreshold {
      InCreatedRun(e, riskScore, RecordComplianceCheck(ComplianceEventOf(e)));
      assert IsComplianceCall(RecordComplianceCheck(ComplianceEventOf(e)));
    }
    forall a | a in r.actions
      ensures !a.PerformKycCheck? && !a.PerformFatcaCheck?
      ensures e.amount.value < ComplianceThreshold ==> !IsComplianceCall(a)
    {
      InCreatedRun(e, riskScore, a);
    }
  }

  /** A created event of exactly 10000 triggers the compliance check although
      the service stores that amount as COMPLETED, without approval. */
  lemma TenThousandCheckedYetCompleted(e: TransactionCreatedEvent, riskScore: real,
                                        t: TM.Txn, id: int, clock: TS.ClockReadings)
    requires e.amount == Some(10000.0) && e.createdAt.Some? && t.amount == Some(10000.0)
    ensures PerformAmlCheck(ComplianceEventOf(e)) in HandleTransactionCreated(e, riskScore).actions
    ensures TS.Process(t, id, clock, false).Created?
    ensures TS.Process(t, id, clock, false).record.status == Some("COMPLETED")
  {
    ComplianceChainRule(e, riskScore);
    TS.TenThousandCompletes(t, id, clock);
  }

  /** A rejected event suggests alternatives iff its error code is
      INSUFFICIENT_FUNDS; a null code does not throw. */
  lemma RejectedRule(e: TransactionRejectedEvent)
    ensures var r := HandleTransactionRejected(e);
      && r.thrown.None?
      && r.actions[..2] == [RecordRejection(e), SendRejectionNotification(e)]
      && (SuggestAlternatives(e) in r.actions <==> e.errorCode == Some("INSUFFICIENT_FUNDS"))
  {
  }

  /** An approved event is audited, then notified. */
  lemma ApprovedRule(a: TransactionApprovedEvent)
    ensures HandleTransactionApproved(a) == Run([RecordApproval(a), SendApprovalNotification(a)], None)
  {
  }

  /** A transfer-initiated event is audited, then confirmed. */
  lemma TransferRule(t: TransferInitiatedEvent)
    ensures HandleTransferInitiated(t) == Run([RecordTransferInitiation(t), SendTransferConfirmation(t)], None)
  {
  }

  predicate IsCheck(a: Action) {
    a.PerformAmlCheck? || a.PerformKycCheck? || a.PerformFatcaCheck?
  }

  /** The compliance check is always audited; AML, KYC and FATCA each reach
      their own check, any other type none, and a null type throws after the
      audit. */
  lemma ComplianceDispatch(e: ComplianceCheckRequiredEvent)
    ensures var r := HandleComplianceCheckRequired(e);
      && r.actions[0] == RecordComplianceCheck(e)
      && (r.thrown.Some? <==> e.regulationType.None?)
      && (PerformAmlCheck(e) in r.actions <==> e.regulationType == Some("AML"))
      && (PerformKycCheck(e) in r.actions <==> e.regulationType == Some("KYC"))
      && (PerformFatcaCheck(e) in r.actions <==> e.regulationType == Some("FATCA"))
      && ((exists a | a in r.actions :: IsCheck(a)) <==>
            e.regulationType.Some? && e.regulationType.value in {"AML", "KYC", "FATCA"})
  {
    var r := HandleComplianceCheckRequired(e);
    if e.regulationType.Some? && e.regulationType.value !in {"AML", "KYC", "FATCA"} {
      assert r.actions == [RecordComplianceCheck(e)];
    }
  }

  /** A fraud event is audited and alerted; the account is frozen iff the
      score is above 0.9. */
  lemma FraudSuspectedRule(e: FraudSuspectedEvent)
    requires e.riskScore.Some?
    ensures var r := HandleFraudSuspected(e);
      && r.thrown.None?
      && r.actions[..2] == [RecordSecurityEvent(e), SendFraudAlert(e)]
      && (FreezeAccount(e.accountId, FreezeReason) in r.actions <==> e.riskScore.value > FreezeThreshold)
  {
  }

  /** A low-balance alert goes out iff the new balance is below 100. */
  lemma BalanceRule(e: AccountBalanceUpdatedEvent)
    ensures var r := HandleBalanceUpdated(e);
      && r.actions[0] == RecordBalanceChange(e)
      && (r.thrown.Some? <==> e.newBalance.None?)
      && (SendLowBalanceAlert(e) in r.actions <==> e.newBalance.Some? && e.newBalance.value < LowBalanceThreshold)
  {
  }
}
