/** The rows that WebhookHub keeps in PostgreSQL, and the values workers carry around.

    Times and durations are integers in nanoseconds. A nullable column is an Option. */
module DeliveryModel {
  import opened Wrappers

  newtype uint8 = x: int | 0 <= x < 256

  type Bytes = seq<uint8>

  const SECOND := 1_000_000_000

  /** "pending", "processing", "retrying", "success", "skipped" and "dead_lettered". */
  datatype WebhookStatus = Pending | Processing | Retrying | Delivered | Skipped | DeadLettered

  datatype Webhook = Webhook(
    source: string,
    headers: string,
    payload: Bytes,
    receivedAt: int,
    status: WebhookStatus,
    response: Bytes,
    failureCount: int,
    lastError: string,
    nextRetryAt: Option<int>,
    leaseUntil: Option<int>,
    leaseVersion: int,
    deadLetteredAt: Option<int>,
    deadLetterReason: string)

  /** "pending", "success", "failed", "cancelled", "skipped" and "interrupted". */
  datatype AttemptStatus = InFlight | Succeeded | Failed | Cancelled | NotForwarded | Interrupted

  datatype DeliveryResponse = DeliveryResponse(
    httpStatus: int,
    body: Bytes,
    headers: string,
    captured: bool,
    truncated: bool)

  const NO_RESPONSE := DeliveryResponse(0, [], "", false, false)

  datatype DeliveryAttempt = DeliveryAttempt(
    webhookId: nat,
    source: string,
    target: string,
    status: AttemptStatus,
    errorMessage: string,
    durationMs: int,
    startedAt: int,
    completedAt: Option<int>,
    response: DeliveryResponse)

  datatype ForwardingRule = ForwardingRule(
    target: string,
    paused: bool,
    verifySecret: string,
    verifyHeader: string,
    toleranceSeconds: int,
    outgoingSecret: string,
    retryMaxAttempts: int,
    retryBackoffSeconds: int)

  /** What a worker reports when it finishes; `Failed` without `nextRetryAt` is final. */
  datatype DeliveryResult = DeliveryResult(
    status: AttemptStatus,
    response: DeliveryResponse,
    errorMessage: string,
    durationMs: int,
    nextRetryAt: Option<int>)

  /** The copy of a webhook row that a worker received when it claimed the webhook. */
  datatype Claim = Claim(id: nat, webhook: Webhook)

  /** The committed tables. `webhookIds` and `attemptIds` are all primary keys ever used:
      a PostgreSQL sequence never hands out a value twice, not even after a delete. */
  datatype Store = Store(
    webhooks: map<nat, Webhook>,
    attempts: map<nat, DeliveryAttempt>,
    rules: map<string, ForwardingRule>,
    webhookIds: set<nat>,
    attemptIds: set<nat>)

  const EMPTY_STORE := Store(map[], map[], map[], {}, {})
}
