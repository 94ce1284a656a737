/** What each storage transaction does to the committed tables, as functions of the tables.
    The class in Database.dfy performs them step by step; Protocol.dfy interleaves them. */
module Transactions {
  import opened Wrappers
  import opened DeliveryModel

  datatype TxError =
    | LeaseLost
    | NotFound
    | WebhookProcessing
    | AttemptInProgress
    | InvalidResultStatus
    | InvalidWebhookId
    | BadSelection

  // ---------- Receiving ----------

  function NewWebhook(source: string, headers: string, payload: Bytes, receivedAt: int): Webhook {
    Webhook(source, headers, payload, receivedAt, Pending, [], 0, "", None, None, 0, None, "")
  }

  function Saved(s: Store, id: nat, webhook: Webhook): Store {
    s.(webhooks := s.webhooks[id := webhook], webhookIds := s.webhookIds + {id})
  }

  // ---------- Claiming ----------

  /** The status part of the claim query's WHERE clause. */
  predicate Due(w: Webhook, now: int) {
    || w.status.Pending?
    || (w.status.Retrying? && w.nextRetryAt.Some? && w.nextRetryAt.value <= now)
    || (w.status.Processing? && w.leaseUntil.Some? && w.leaseUntil.value <= now)
  }

  predicate Deliverable(w: Webhook, now: int, paused: set<string>) {
    Due(w, now) && w.source !in paused
  }

  function PausedSources(s: Store): set<string> {
    set source | source in s.rules && s.rules[source].paused
  }

  function ClaimedRow(w: Webhook, leaseUntil: int): Webhook {
    w.(status := Processing, nextRetryAt := None, leaseUntil := Some(leaseUntil), leaseVersion := w.leaseVersion + 1)
  }

  function InterruptedRow(a: DeliveryAttempt, now: int): DeliveryAttempt {
    a.(status := Interrupted, errorMessage := "delivery worker lease expired", completedAt := Some(now))
  }

  /** Attempts that a claim of `ids` closes: the pending ones of webhooks still marked processing. */
  predicate ClosedByClaim(s: Store, ids: set<nat>, a: nat)
    requires a in s.attempts
  {
    var id := s.attempts[a].webhookId;
    s.attempts[a].status.InFlight? && id in ids && id in s.webhooks && s.webhooks[id].status.Processing?
  }

  function ClaimedStore(s: Store, ids: set<nat>, now: int, leaseUntil: int): Store {
    s.(webhooks := map id | id in s.webhooks ::
         if id in ids then ClaimedRow(s.webhooks[id], leaseUntil) else s.webhooks[id],
       attempts := map a | a in s.attempts ::
         if ClosedByClaim(s, ids, a) then InterruptedRow(s.attempts[a], now) else s.attempts[a])
  }

  // ---------- Delivering ----------

  /** The lease check of CreateDeliveryAttempt and FinishDelivery: first on the caller's copy,
      then on the locked row. */
  predicate HoldsLease(s: Store, claim: Claim, now: int) {
    && claim.webhook.leaseUntil.Some?
    && now < claim.webhook.leaseUntil.value
    && claim.id in s.webhooks
    && claim.webhook.leaseVersion > 0
    && s.webhooks[claim.id].leaseVersion == claim.webhook.leaseVersion
    && s.webhooks[claim.id].status.Processing?
    && s.webhooks[claim.id].leaseUntil.Some?
    && now < s.webhooks[claim.id].leaseUntil.value
  }

  predicate IsOpenAttempt(s: Store, a: nat, id: nat) {
    a in s.attempts && s.attempts[a].webhookId == id && s.attempts[a].status.InFlight?
  }

  predicate HasOpenAttempt(s: Store, id: nat) {
    exists a :: a in s.attempts && IsOpenAttempt(s, a, id)
  }

  function CreateOutcome(s: Store, claim: Claim, now: int): Outcome<TxError> {
    if !HoldsLease(s, claim, now) then Fail(LeaseLost)
    else if HasOpenAttempt(s, claim.id) then Fail(AttemptInProgress)
    else Pass
  }

  function AttemptCreated(s: Store, claim: Claim, target: string, attemptId: nat, at: int): Store
    requires claim.id in s.webhooks
  {
    var attempt := DeliveryAttempt(claim.id, s.webhooks[claim.id].source, target, InFlight, "", 0, at, None, NO_RESPONSE);
    s.(attempts := s.attempts[attemptId := attempt], attemptIds := s.attemptIds + {attemptId})
  }

  predicate IsFinal(status: AttemptStatus) {
    status.Succeeded? || status.Failed? || status.Cancelled? || status.NotForwarded?
  }

  function FinishOutcome(s: Store, claim: Claim, attemptId: nat, result: DeliveryResult, now: int): Outcome<TxError> {
    if !IsFinal(result.status) then Fail(InvalidResultStatus)
    else if !HoldsLease(s, claim, now) then Fail(LeaseLost)
    else if !IsOpenAttempt(s, attemptId, claim.id) then Fail(LeaseLost)
    else Pass
  }

  function FinishedAttempt(a: DeliveryAttempt, result: DeliveryResult, at: int): DeliveryAttempt {
    a.(status := result.status, errorMessage := result.errorMessage, durationMs := result.durationMs,
       completedAt := Some(at), response := result.response)
  }

  function FinishedRow(w: Webhook, result: DeliveryResult, at: int): Webhook {
    var released := w.(leaseUntil := None,
                       response := if result.status.NotForwarded? then w.response else result.response.body);
    match result.status
    case Succeeded => Settled(released, Delivered)
    case NotForwarded => Settled(released, Skipped)
    case Cancelled => released.(status := Pending)
    case _ =>
      var failed := released.(failureCount := w.failureCount + 1, lastError := result.errorMessage, nextRetryAt := result.nextRetryAt);
      if result.nextRetryAt.None? then
        failed.(status := DeadLettered, deadLetteredAt := Some(at), deadLetterReason := result.errorMessage)
      else
        failed.(status := Retrying, deadLetteredAt := None, deadLetterReason := "")
  }

  function Settled(w: Webhook, status: WebhookStatus): Webhook {
    w.(status := status, failureCount := 0, lastError := "", nextRetryAt := None, deadLetteredAt := None, deadLetterReason := "")
  }

  function FinishedStore(s: Store, claim: Claim, attemptId: nat, result: DeliveryResult, at: int): Store
    requires claim.id in s.webhooks && attemptId in s.attempts
  {
    s.(webhooks := s.webhooks[claim.id := FinishedRow(s.webhooks[claim.id], result, at)],
       attempts := s.attempts[attemptId := FinishedAttempt(s.attempts[attemptId], result, at)])
  }

  // ---------- Requeueing and removing ----------

  function RequeuedRow(w: Webhook): Webhook {
    w.(status := Pending, response := [], failureCount := 0, lastError := "", nextRetryAt := None,
       leaseUntil := None, deadLetteredAt := None, deadLetterReason := "")
  }

  function RequeuedStore(s: Store, ids: set<nat>): Store {
    s.(webhooks := map id | id in s.webhooks :: if id in ids then RequeuedRow(s.webhooks[id]) else s.webhooks[id])
  }

  /** Reset and delete both refuse a webhook that a worker may be delivering. */
  function IdleOutcome(s: Store, id: nat): Outcome<TxError> {
    if id !in s.webhooks then Fail(NotFound)
    else if s.webhooks[id].status.Processing? then Fail(WebhookProcessing)
    else Pass
  }

  function RemovedStore(s: Store, ids: set<nat>): Store {
    s.(webhooks := map id | id in s.webhooks && id !in ids :: s.webhooks[id],
       attempts := map a | a in s.attempts && s.attempts[a].webhookId !in ids :: s.attempts[a])
  }

  predicate Expired(w: Webhook, before: int) {
    w.receivedAt < before && !w.status.Pending? && !w.status.Processing? && !w.status.Retrying?
  }

  // ---------- Forwarding rules ----------

  /** The upsert never overwrites `paused` of an existing rule. */
  function RuleSaved(s: Store, source: string, rule: ForwardingRule): Store {
    var paused := if source in s.rules then s.rules[source].paused else rule.paused;
    s.(rules := s.rules[source := rule.(paused := paused)])
  }

  function RulePaused(s: Store, source: string, paused: bool): Store {
    if source in s.rules then s.(rules := s.rules[source := s.rules[source].(paused := paused)]) else s
  }

  function RuleDeleted(s: Store, source: string): Store {
    s.(rules := s.rules - {source})
  }
}
