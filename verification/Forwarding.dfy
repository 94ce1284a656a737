/** The decisions that internal/forwarder/forwarder.go takes around one HTTP request:
    how long it may run, how its reply is judged, and what is reported to the store. */
module Forwarding {
  import opened Wrappers
  import opened DeliveryModel
  import opened Arithmetic
  import opened Backoff
  import opened Decimal

  const DEFAULT_DELIVERY_TIMEOUT := 5 * SECOND
  const FINALIZATION_RESERVE := 5 * SECOND
  const MAX_BODY := 0x10_0000

  /** What came back from the HTTP client. `body` is what was read, at most MAX_BODY + 1 bytes. */
  datatype HttpReply =
    | NoReply(error: string)
    | Replied(httpStatus: int, headers: Result<string, string>, body: Bytes, readError: Option<string>)

  datatype Exchange = Exchange(response: DeliveryResponse, errorMessage: string, success: bool)

  predicate IsSuccessStatus(httpStatus: int) {
    200 <= httpStatus < 300
  }

  // ---------- Deadline ----------

  function EffectiveTimeout(timeout: int): (t: int)
    ensures t > 0
  {
    if timeout <= 0 then DEFAULT_DELIVERY_TIMEOUT else timeout
  }

  function RequestDeadline(now: int, timeout: int, leaseUntil: Option<int>): (deadline: int)
    ensures deadline <= now + EffectiveTimeout(timeout)
    ensures leaseUntil.Some? ==> deadline + FINALIZATION_RESERVE <= leaseUntil.value
    ensures deadline == now + EffectiveTimeout(timeout)
         || (leaseUntil.Some? && deadline + FINALIZATION_RESERVE == leaseUntil.value)
  {
    var byTimeout := now + EffectiveTimeout(timeout);
    if leaseUntil.Some? && leaseUntil.value - FINALIZATION_RESERVE < byTimeout
    then leaseUntil.value - FINALIZATION_RESERVE
    else byTimeout
  }

  method ComputeDeadline(now: int, timeout: int, leaseUntil: Option<int>) returns (deadline: int)
    ensures deadline == RequestDeadline(now, timeout, leaseUntil)
    ensures var byTimeout := now + if timeout > 0 then timeout else 5 * SECOND;
            deadline == if leaseUntil.Some? then Min(byTimeout, leaseUntil.value - 5 * SECOND) else byTimeout
  {
    var t := timeout;
    if t <= 0 {
      t := DEFAULT_DELIVERY_TIMEOUT;
    }
    deadline := now + t;
    if leaseUntil.Some? {
      var leaseDeadline := leaseUntil.value - FINALIZATION_RESERVE;
      if leaseDeadline < deadline {
        deadline := leaseDeadline;
      }
    }
  }

  // ---------- Judging the reply ----------

  function Judge(reply: HttpReply): Exchange {
    match reply
    case NoReply(error) => Exchange(NO_RESPONSE, error, false)
    case Replied(httpStatus, headers, body, readError) =>
      if headers.Failure? then
        Exchange(NO_RESPONSE.(httpStatus := httpStatus, captured := true), "failed to serialize response headers: " + headers.error, false)
      else
        var kept := if |body| > MAX_BODY then body[..MAX_BODY] else body;
        var response := DeliveryResponse(httpStatus, kept, headers.value, true, |body| > MAX_BODY);
        if readError.Some? then Exchange(response, "failed to read response body: " + readError.value, false)
        else if IsSuccessStatus(httpStatus) then Exchange(response, "", true)
        else Exchange(response, "target responded with status " + FormatInt(httpStatus), false)
  }

  /** What is reported as the error: the first thing that went wrong, the request, the headers, the body or the status. */
  function Complaint(reply: HttpReply): string {
    match reply
    case NoReply(error) => error
    case Replied(_, Failure(error), _, _) => "failed to serialize response headers: " + error
    case Replied(_, Success(_), _, Some(error)) => "failed to read response body: " + error
    case Replied(httpStatus, Success(_), _, None) =>
      if 200 <= httpStatus < 300 then "" else "target responded with status " + FormatInt(httpStatus)
  }

  /** A delivery is a success exactly when a 2xx reply was read without an error. Of a reply with readable headers,
      these and the first MiB of the body are kept, and the rest of a longer body is reported as cut. */
  lemma JudgeSuccess(reply: HttpReply)
    ensures Judge(reply).success <==>
              reply.Replied? && 200 <= reply.httpStatus < 300 && reply.headers.Success? && reply.readError.None?
    ensures Judge(reply).response ==
              match reply
              case NoReply(_) => DeliveryResponse(0, [], "", false, false)
              case Replied(httpStatus, Success(headers), body, _) =>
                DeliveryResponse(httpStatus, body[..Min(|body|, 1_048_576)], headers, true, |body| > 1_048_576)
              case Replied(httpStatus, Failure(_), _, _) => DeliveryResponse(httpStatus, [], "", true, false)
    ensures Judge(reply).errorMessage == Complaint(reply)
  {
  }

  // ---------- What Forward reports ----------

  /** The target of the rule that was read; a missing rule is the zero rule. */
  function Target(rule: Option<ForwardingRule>): string {
    if rule.Some? then rule.value.target else ""
  }

  function MaxAttempts(rule: Option<ForwardingRule>): (m: int)
    ensures m >= 1
  {
    NormalizeMaxAttempts(if rule.Some? then rule.value.retryMaxAttempts else 0)
  }

  function RetryTime(rule: ForwardingRule, failureCount: int, now: int): int {
    now + RetryDelay(NormalizeBackoffSeconds(rule.retryBackoffSeconds), failureCount + 1)
  }

  /** The result of one delivery: of `exchange` if the rule has a target, overridden by a cancelled worker. */
  function Report(rule: Option<ForwardingRule>, exchange: Exchange, failureCount: int, cancelled: Option<string>,
                  now: int, durationMs: int): DeliveryResult
  {
    var outcome :=
      if Target(rule) == "" then DeliveryResult(NotForwarded, NO_RESPONSE, "no forwarding target configured", durationMs, None)
      else if exchange.success then DeliveryResult(Succeeded, exchange.response, exchange.errorMessage, durationMs, None)
      else
        DeliveryResult(Failed, exchange.response, exchange.errorMessage, durationMs,
          if failureCount + 1 < MaxAttempts(rule) then Some(RetryTime(rule.value, failureCount, now)) else None);
    if cancelled.Some? then
      outcome.(status := Cancelled, errorMessage := cancelled.value, nextRetryAt := None)
    else
      outcome
  }

  /** An attempt limit and a base of the backoff that are not positive stand for 3 and 2. */
  function LimitOf(rule: ForwardingRule): int {
    if rule.retryMaxAttempts > 0 then rule.retryMaxAttempts else 3
  }

  function BaseOf(rule: ForwardingRule): int {
    if rule.retryBackoffSeconds > 0 then rule.retryBackoffSeconds else 2
  }

  /** The wait after the `n`-th failure: the base, doubled for each failure before, and at most 30 seconds. For a
      base so large that the code's arithmetic may overflow it is what the loop computes, see Backoff.dfy. */
  predicate IsBackoff(rule: ForwardingRule, n: int, wait: int)
    requires n >= 1
  {
    wait == if BaseOf(rule) <= 4_611_686_018 then Min(BaseOf(rule) * SECOND * Pow2(n - 1), 30 * SECOND) else RetryDelay(BaseOf(rule), n)
  }

  lemma RetryTimeBacksOff(rule: ForwardingRule, failureCount: int, now: int)
    requires failureCount >= 0
    ensures IsBackoff(rule, failureCount + 1, RetryTime(rule, failureCount, now) - now)
  {
    if BaseOf(rule) <= 4_611_686_018 {
      SafeBaseIsExact(BaseOf(rule), failureCount + 1);
    }
  }

  /** The report on an answered request, or on a rule without a target, with the time of the decision. */
  predicate IsDecision(rule: Option<ForwardingRule>, exchange: Option<Exchange>, failureCount: int, cancelled: Option<string>,
                       now: int, result: DeliveryResult)
    requires failureCount >= 0 && (exchange.Some? ==> rule.Some?)
  {
    && result.response == (if exchange.Some? then exchange.value.response else DeliveryResponse(0, [], "", false, false))
    && if cancelled.Some? then
         result.status.Cancelled? && result.errorMessage == cancelled.value && result.nextRetryAt.None?
       else if exchange.None? then
         result.status.NotForwarded? && result.errorMessage == "no forwarding target configured" && result.nextRetryAt.None?
       else if exchange.value.success then
         result.status.Succeeded? && result.nextRetryAt.None?
       else
         && result.status.Failed? && result.errorMessage == exchange.value.errorMessage
         && (result.nextRetryAt.Some? <==> failureCount + 1 < LimitOf(rule.value))
         && (result.nextRetryAt.Some? ==> IsBackoff(rule.value, failureCount + 1, result.nextRetryAt.value - now))
  }

  lemma ReportIsDecision(rule: Option<ForwardingRule>, exchange: Option<Exchange>, failureCount: int, cancelled: Option<string>,
                         now: int, durationMs: int)
    requires failureCount >= 0
    requires exchange.Some? <==> Target(rule) != ""
    ensures IsDecision(rule, exchange, failureCount, cancelled, now,
                       Report(rule, if exchange.Some? then exchange.value else Exchange(NO_RESPONSE, "", false),
                              failureCount, cancelled, now, durationMs))
  {
    if rule.Some? {
      RetryTimeBacksOff(rule.value, failureCount, now);
    }
  }

  /** The body of Forward after the attempt was created, assigning the result step by step. */
  method ComputeReport(rule: Option<ForwardingRule>, exchange: Exchange, failureCount: int, cancelled: Option<string>,
                       now: int, durationMs: int) returns (result: DeliveryResult)
    requires 0 <= failureCount
    ensures result == Report(rule, exchange, failureCount, cancelled, now, durationMs)
    ensures IsDecision(rule, if rule.Some? && rule.value.target != "" then Some(exchange) else None, failureCount, cancelled, now, result)
    ensures result.durationMs == durationMs
  {
    ReportIsDecision(rule, if Target(rule) != "" then Some(exchange) else None, failureCount, cancelled, now, durationMs);
    result := DeliveryResult(NotForwarded, NO_RESPONSE, "no forwarding target configured", 0, None);
    if Target(rule) != "" {
      result := DeliveryResult(Failed, exchange.response, exchange.errorMessage, 0, None);
      if exchange.success {
        result := result.(status := Succeeded);
      } else if failureCount + 1 < NormalizeMaxAttempts(rule.value.retryMaxAttempts) {
        var delay := ComputeRetryDelay(NormalizeBackoffSeconds(rule.value.retryBackoffSeconds), failureCount + 1);
        result := result.(nextRetryAt := Some(now + delay));
      }
    }
    if cancelled.Some? {
      result := result.(status := Cancelled, errorMessage := cancelled.value, nextRetryAt := None);
    }
    result := result.(durationMs := durationMs);
  }
}
