/** One delivery from its claim to its finish, traced through the steps of a run: what the worker loaded, sent,
    read and decided, and what of that is stored. */
module Deliveries {
  import opened Wrappers
  import opened DeliveryModel
  import opened Arithmetic
  import opened Forwarding
  import opened Protocol
  import opened Ownership
  import opened TimedExclusion
  import opened Effects

  // ---------- How a worker got where it is ----------

  /** The step brings the worker to its place in `after`. */
  predicate BringsTo(sys: System, step: Step, worker: nat, after: Worker) {
    match after.phase
    case Holding =>
      step.ClaimOne? && step.worker == worker && step.id == after.claim.id
    case Ready(rule) =>
      && step == LoadRule(worker) && At(sys, worker) && sys.workers[worker] == Worker(after.claim, Holding)
      && (var source := after.claim.webhook.source;
          rule == if source in sys.store.rules then Some(sys.store.rules[source]) else None)
    case Prepared(rule, attempt) =>
      && step.Create? && step.worker == worker && step.attempt == attempt && CreateSucceeds(sys, worker, attempt, step.now)
      && sys.workers[worker] == Worker(after.claim, Ready(rule))
    case Requesting(rule, attempt, request) =>
      && step.Send? && step.worker == worker && At(sys, worker) && sys.workers[worker] == Worker(after.claim, Prepared(rule, attempt))
    case Answered(rule, attempt, exchange) =>
      && At(sys, worker) && sys.workers[worker].claim == after.claim
      && (match step
          case Reply(w, reply) =>
           && w == worker && sys.workers[worker].phase.Requesting?
           && sys.workers[worker].phase.rule == rule && sys.workers[worker].phase.attempt == attempt
           && exchange == Judge(reply)
          case Unsent(w, error) =>
           && w == worker && sys.workers[worker].phase == Prepared(rule, attempt)
           && exchange == Exchange(NO_RESPONSE, error, false)
          case _ => false)
    case Reporting(rule, attempt, result) =>
      && step.Decide? && step.worker == worker && At(sys, worker) && sys.workers[worker].claim == after.claim
      && (sys.workers[worker].phase.Answered? || NothingToSend(sys.workers[worker].phase))
      && sys.workers[worker].phase.rule == rule && sys.workers[worker].phase.attempt == attempt
      && result == Report(rule, if sys.workers[worker].phase.Answered? then sys.workers[worker].phase.exchange
                                else Exchange(NO_RESPONSE, "", false),
                          after.claim.webhook.failureCount, step.cancelled, sys.clock, step.durationMs)
  }

  lemma WorkerAfterStep(sys: System, step: Step, worker: nat)
    requires Enabled(sys, step) && worker in Apply(sys, step).workers
    ensures var after := Apply(sys, step).workers[worker];
            (worker in sys.workers && sys.workers[worker] == after) || BringsTo(sys, step, worker, after)
  {
  }

  /** The step that brought the worker to its place. */
  lemma {:induction false} LastMove(states: seq<System>, steps: seq<Step>, k: nat, worker: nat) returns (j: nat)
    requires IsRun(states, steps) && k < |states| && worker in states[k].workers
    ensures j < k && BringsTo(states[j], steps[j], worker, states[k].workers[worker])
    ensures worker in states[j + 1].workers && states[j + 1].workers[worker] == states[k].workers[worker]
    decreases k
  {
    assert StepAt(states, steps, k - 1);
    WorkerAfterStep(states[k - 1], steps[k - 1], worker);
    if worker in states[k - 1].workers && states[k - 1].workers[worker] == states[k].workers[worker] {
      j := LastMove(states, steps, k - 1, worker);
    } else {
      j := k - 1;
    }
  }

  // ---------- What a worker decides ----------

  /** Only a rule with a target leads to a request. */
  lemma RequestsHaveTargets(states: seq<System>, steps: seq<Step>, k: nat, worker: nat)
    requires IsRun(states, steps) && k < |states| && worker in states[k].workers
    requires states[k].workers[worker].phase.Requesting? || states[k].workers[worker].phase.Answered?
    ensures Target(states[k].workers[worker].phase.rule) != ""
  {
    var j := LastMove(states, steps, k, worker);
    assert StepAt(states, steps, j);
    if states[k].workers[worker].phase.Answered? && steps[j].Reply? {
      RequestsHaveTargets(states, steps, j, worker);
    }
  }

  function ExchangeOf(w: Worker): Option<Exchange> {
    if w.phase.Answered? then Some(w.phase.exchange) else None
  }

  /** In every run, what a worker decides about a delivery follows from the rule it loaded, the answer it got and
      the failures so far; a retry is asked for below the limit only, and after the exponential backoff. */
  lemma DecisionsFollowTheRule(states: seq<System>, steps: seq<Step>, k: nat)
    requires IsRun(states, steps) && k < |steps| && steps[k].Decide?
    ensures steps[k].worker in states[k].workers && steps[k].worker in states[k + 1].workers
    ensures var before, after := states[k].workers[steps[k].worker], states[k + 1].workers[steps[k].worker];
            && after.claim == before.claim && after.phase.Reporting?
            && (before.phase.Prepared? || before.phase.Answered?)
            && after.phase.rule == before.phase.rule && after.phase.attempt == before.phase.attempt
            && before.claim.webhook.failureCount >= 0
            && (before.phase.Answered? <==> before.phase.rule.Some? && before.phase.rule.value.target != "")
            && IsDecision(before.phase.rule, ExchangeOf(before), before.claim.webhook.failureCount,
                          steps[k].cancelled, states[k].clock, after.phase.result)
  {
    var sys, worker := states[k], steps[k].worker;
    assert StepAt(states, steps, k);
    RunsAreOwned(states, steps, k);
    var w := sys.workers[worker];
    assert WorkerOk(sys, w);
    if w.phase.Answered? {
      RequestsHaveTargets(states, steps, k, worker);
    }
    ReportIsDecision(w.phase.rule, ExchangeOf(w), w.claim.webhook.failureCount, steps[k].cancelled, sys.clock, steps[k].durationMs);
  }

  // ---------- From the claim to the finish ----------

  /** The steps of one delivery that got an answer. */
  datatype Trace = Trace(claimed: nat, loaded: nat, created: nat, answered: nat, decided: nat)

  predicate IsAnswer(step: Step, worker: nat) {
    (step.Reply? || step.Unsent?) && step.worker == worker
  }

  /** The rule that was stored when the worker loaded it. */
  function LoadedRule(s: Store, source: string): Option<ForwardingRule> {
    if source in s.rules then Some(s.rules[source]) else None
  }

  /** The worker went through these steps, in this order, to the report that it has at `k`. */
  ghost predicate IsTrace(states: seq<System>, steps: seq<Step>, k: nat, worker: nat, t: Trace)
    requires |states| == |steps| + 1 && k < |states| && worker in states[k].workers && states[k].workers[worker].phase.Reporting?
  {
    var w := states[k].workers[worker];
    && t.claimed < t.loaded < t.created < t.answered < t.decided < k
    && steps[t.claimed].ClaimOne? && steps[t.claimed].worker == worker && steps[t.claimed].id == w.claim.id
    && steps[t.loaded] == LoadRule(worker)
    && w.phase.rule == LoadedRule(states[t.loaded].store, w.claim.webhook.source)
    && steps[t.created].Create? && steps[t.created].worker == worker && steps[t.created].attempt == w.phase.attempt
    && IsAnswer(steps[t.answered], worker)
    && steps[t.decided].Decide? && steps[t.decided].worker == worker
    && worker in states[t.decided].workers && worker in states[t.decided + 1].workers
    && states[t.decided + 1].workers[worker] == w
    && states[t.decided].workers[worker].claim == w.claim
    && states[t.decided].workers[worker].phase.Answered?
    && states[t.decided].workers[worker].phase.rule == w.phase.rule
    && states[t.decided].workers[worker].phase.exchange == Answer(steps[t.answered])
  }

  /** What became of the request: a reply, or the error that kept it from being sent. */
  function Answer(step: Step): Exchange
    requires step.Reply? || step.Unsent?
  {
    if step.Reply? then Judge(step.reply) else Exchange(DeliveryResponse(0, [], "", false, false), step.error, false)
  }

  /** The steps that brought a worker with an attempt there. */
  lemma PreparedBy(states: seq<System>, steps: seq<Step>, k: nat, worker: nat) returns (claimed: nat, loaded: nat, created: nat)
    requires IsRun(states, steps) && k < |states| && worker in states[k].workers && states[k].workers[worker].phase.Prepared?
    ensures claimed < loaded < created < k
    ensures var w := states[k].workers[worker];
            && steps[claimed].ClaimOne? && steps[claimed].worker == worker && steps[claimed].id == w.claim.id
            && steps[loaded] == LoadRule(worker) && w.phase.rule == LoadedRule(states[loaded].store, w.claim.webhook.source)
            && steps[created].Create? && steps[created].worker == worker && steps[created].attempt == w.phase.attempt
  {
    created := LastMove(states, steps, k, worker);
    loaded := LastMove(states, steps, created, worker);
    claimed := LastMove(states, steps, loaded, worker);
  }

  lemma AnsweredBy(states: seq<System>, steps: seq<Step>, k: nat, worker: nat) returns (prepared: nat, answered: nat)
    requires IsRun(states, steps) && k < |states| && worker in states[k].workers && states[k].workers[worker].phase.Answered?
    ensures prepared <= answered < k
    ensures var w := states[k].workers[worker];
            && worker in states[prepared].workers
            && states[prepared].workers[worker] == Worker(w.claim, Prepared(w.phase.rule, w.phase.attempt))
            && IsAnswer(steps[answered], worker) && w.phase.exchange == Answer(steps[answered])
  {
    answered := LastMove(states, steps, k, worker);
    prepared := answered;
    if steps[answered].Reply? {
      prepared := LastMove(states, steps, answered, worker);
    }
  }

  lemma DecidedBy(states: seq<System>, steps: seq<Step>, k: nat, worker: nat) returns (decided: nat)
    requires IsRun(states, steps) && k < |states| && worker in states[k].workers && states[k].workers[worker].phase.Reporting?
    ensures decided < k && steps[decided].Decide? && steps[decided].worker == worker
    ensures worker in states[decided].workers && worker in states[decided + 1].workers
    ensures states[decided + 1].workers[worker] == states[k].workers[worker]
  {
    decided := LastMove(states, steps, k, worker);
  }

  /** Every report under a rule with a target has such a trace. */
  lemma EveryReportHasATrace(states: seq<System>, steps: seq<Step>, k: nat, worker: nat) returns (t: Trace)
    requires IsRun(states, steps) && k < |states| && worker in states[k].workers && states[k].workers[worker].phase.Reporting?
    requires states[k].workers[worker].phase.rule.Some? && states[k].workers[worker].phase.rule.value.target != ""
    ensures IsTrace(states, steps, k, worker, t)
  {
    var decided := DecidedBy(states, steps, k, worker);
    DecisionsFollowTheRule(states, steps, decided);
    var prepared, answered := AnsweredBy(states, steps, decided, worker);
    var claimed, loaded, created := PreparedBy(states, steps, prepared, worker);
    t := Trace(claimed, loaded, created, answered, decided);
  }

  // ---------- What is stored ----------

  /** A 2xx reply that was read without an error. */
  predicate IsSuccess(answer: Step) {
    && answer.Reply? && answer.reply.Replied? && 200 <= answer.reply.httpStatus < 300
    && answer.reply.headers.Success? && answer.reply.readError.None?
  }

  /** The first MiB of the body, if there was a reply with readable headers. */
  function Kept(answer: Step): Bytes {
    if answer.Reply? && answer.reply.Replied? && answer.reply.headers.Success?
    then answer.reply.body[..Min(|answer.reply.body|, 1_048_576)] else []
  }

  function ErrorOf(answer: Step): string
    requires answer.Reply? || answer.Unsent?
  {
    if answer.Reply? then Complaint(answer.reply) else answer.error
  }

  /** The row that an answer leads to under `rule`: `before` with the delivery's outcome, decided at one time and
      stored at another. */
  predicate IsOutcome(before: Webhook, rule: ForwardingRule, answer: Step, cancelled: bool, decidedAt: int, storedAt: int, after: Webhook)
    requires (answer.Reply? || answer.Unsent?) && before.failureCount >= 0
  {
    if cancelled then
      after == before.(status := Pending, response := Kept(answer), leaseUntil := None)
    else if IsSuccess(answer) then
      after == before.(status := Delivered, response := Kept(answer), failureCount := 0, lastError := "",
                       nextRetryAt := None, leaseUntil := None, deadLetteredAt := None, deadLetterReason := "")
    else if before.failureCount + 1 < LimitOf(rule) then
      && after.nextRetryAt.Some? && IsBackoff(rule, before.failureCount + 1, after.nextRetryAt.value - decidedAt)
      && after == before.(status := Retrying, response := Kept(answer), failureCount := before.failureCount + 1,
                          lastError := ErrorOf(answer), nextRetryAt := after.nextRetryAt, leaseUntil := None,
                          deadLetteredAt := None, deadLetterReason := "")
    else
      after == before.(status := DeadLettered, response := Kept(answer), failureCount := before.failureCount + 1,
                       lastError := ErrorOf(answer), nextRetryAt := None, leaseUntil := None,
                       deadLetteredAt := Some(storedAt), deadLetterReason := ErrorOf(answer))
  }

  lemma DecisionLeadsToOutcome(before: Webhook, rule: ForwardingRule, answer: Step, cancelled: Option<string>, decidedAt: int,
                               result: DeliveryResult, storedAt: int, after: Webhook)
    requires (answer.Reply? || answer.Unsent?) && before.failureCount >= 0
    requires IsDecision(Some(rule), Some(Answer(answer)), before.failureCount, cancelled, decidedAt, result)
    requires IsFinished(before, result, storedAt, after)
    ensures IsOutcome(before, rule, answer, cancelled.Some?, decidedAt, storedAt, after)
  {
    if answer.Reply? {
      JudgeSuccess(answer.reply);
    }
  }

  /** Whatever interleaves, a delivery that finishes stores what its target answered. Its claim, its load of the
      rule, its create, the answer and the decision are steps of its worker in this order, and the row is the
      outcome of that answer under the rule that was stored when it was loaded. */
  lemma FinishStoresTheAnswer(states: seq<System>, steps: seq<Step>, k: nat) returns (t: Trace)
    requires IsRun(states, steps) && k < |steps|
    requires steps[k].Finish? && FinishSucceeds(states[k], steps[k].worker, steps[k].now)
    requires var rule := states[k].workers[steps[k].worker].phase.rule; rule.Some? && rule.value.target != ""
    ensures IsTrace(states, steps, k, steps[k].worker, t)
    ensures var id := states[k].workers[steps[k].worker].claim.id;
            id in states[k].store.webhooks && id in states[k + 1].store.webhooks &&
            var before := states[k].store.webhooks[id];
            && before.failureCount >= 0 && before.source in states[t.loaded].store.rules
            && IsOutcome(before, states[t.loaded].store.rules[before.source], steps[t.answered], steps[t.decided].cancelled.Some?,
                         states[t.decided].clock, steps[k].at, states[k + 1].store.webhooks[id])
  {
    var worker := steps[k].worker;
    t := EveryReportHasATrace(states, steps, k, worker);
    DecisionsFollowTheRule(states, steps, t.decided);
    FinishWrites(states, steps, k);
    var w := states[k].workers[worker];
    DecisionLeadsToOutcome(w.claim.webhook, w.phase.rule.value, steps[t.answered], steps[t.decided].cancelled,
                           states[t.decided].clock, w.phase.result, steps[k].at, states[k + 1].store.webhooks[w.claim.id]);
  }

  lemma FinishWrites(states: seq<System>, steps: seq<Step>, k: nat)
    requires IsRun(states, steps) && k < |steps|
    requires steps[k].Finish? && FinishSucceeds(states[k], steps[k].worker, steps[k].now)
    ensures var w := states[k].workers[steps[k].worker];
            && w.claim.id in states[k].store.webhooks && states[k].store.webhooks[w.claim.id] == w.claim.webhook
            && w.claim.id in states[k + 1].store.webhooks
            && IsFinished(w.claim.webhook, w.phase.result, steps[k].at, states[k + 1].store.webhooks[w.claim.id])
  {
    RunsAreOwned(states, steps, k);
    assert WorkerOk(states[k], states[k].workers[steps[k].worker]);
    assert StepAt(states, steps, k);
    RowAfterStep(states[k], steps[k], states[k].workers[steps[k].worker].claim.id);
  }

  /** The reply as it is kept with the attempt. */
  function ResponseTo(answer: Step): DeliveryResponse {
    if answer.Reply? && answer.reply.Replied? then
      DeliveryResponse(answer.reply.httpStatus, Kept(answer),
                       if answer.reply.headers.Success? then answer.reply.headers.value else "",
                       true,
                       answer.reply.headers.Success? && |answer.reply.body| > 1_048_576)
    else DeliveryResponse(0, [], "", false, false)
  }

  lemma AnswerIsKept(answer: Step)
    requires answer.Reply? || answer.Unsent?
    ensures Answer(answer).response == ResponseTo(answer)
  {
    if answer.Reply? {
      JudgeSuccess(answer.reply);
    }
  }

  /** The attempt is closed with the reply's status, headers and kept body, and the webhook gets the same body. */
  lemma AttemptRecordsTheAnswer(states: seq<System>, steps: seq<Step>, k: nat) returns (t: Trace)
    requires IsRun(states, steps) && k < |steps|
    requires steps[k].Finish? && FinishSucceeds(states[k], steps[k].worker, steps[k].now)
    requires var rule := states[k].workers[steps[k].worker].phase.rule; rule.Some? && rule.value.target != ""
    ensures IsTrace(states, steps, k, steps[k].worker, t)
    ensures var Worker(claim, phase) := states[k].workers[steps[k].worker];
            && phase.attempt in states[k + 1].store.attempts && claim.id in states[k + 1].store.webhooks
            && var attempt := states[k + 1].store.attempts[phase.attempt];
               && attempt.webhookId == claim.id
               && attempt.status == (if steps[t.decided].cancelled.Some? then Cancelled
                                     else if IsSuccess(steps[t.answered]) then Succeeded else Failed)
               && attempt.response == ResponseTo(steps[t.answered])
               && attempt.completedAt == Some(steps[k].at)
               && states[k + 1].store.webhooks[claim.id].response == attempt.response.body
  {
    t := EveryReportHasATrace(states, steps, k, steps[k].worker);
    DecisionsFollowTheRule(states, steps, t.decided);
    AnswerIsKept(steps[t.answered]);
    if steps[t.answered].Reply? {
      JudgeSuccess(steps[t.answered].reply);
    }
    FinishWrites(states, steps, k);
    FinishCloses(states, steps, k);
  }

  lemma FinishCloses(states: seq<System>, steps: seq<Step>, k: nat)
    requires IsRun(states, steps) && k < |steps|
    requires steps[k].Finish? && FinishSucceeds(states[k], steps[k].worker, steps[k].now)
    ensures var Worker(claim, phase) := states[k].workers[steps[k].worker];
            && phase.attempt in states[k + 1].store.attempts
            && var attempt := states[k + 1].store.attempts[phase.attempt];
               && attempt.webhookId == claim.id && attempt.status == phase.result.status
               && attempt.response == phase.result.response && attempt.completedAt == Some(steps[k].at)
  {
    assert StepAt(states, steps, k);
    AttemptAfterFinish(states[k], steps[k], states[k].workers[steps[k].worker].phase.attempt);
  }

  /** Without a target the webhook is skipped and keeps its response, or, if its worker was cancelled, waits again. */
  lemma FinishWithoutTarget(states: seq<System>, steps: seq<Step>, k: nat) returns (d: nat)
    requires IsRun(states, steps) && k < |steps|
    requires steps[k].Finish? && FinishSucceeds(states[k], steps[k].worker, steps[k].now)
    requires var rule := states[k].workers[steps[k].worker].phase.rule; rule.None? || rule.value.target == ""
    ensures d < k && steps[d].Decide? && steps[d].worker == steps[k].worker
    ensures var id := states[k].workers[steps[k].worker].claim.id;
            id in states[k].store.webhooks && id in states[k + 1].store.webhooks &&
            var before, after := states[k].store.webhooks[id], states[k + 1].store.webhooks[id];
            if steps[d].cancelled.Some? then after == before.(status := Pending, response := [], leaseUntil := None)
            else after == before.(status := Skipped, failureCount := 0, lastError := "", nextRetryAt := None, leaseUntil := None,
                                  deadLetteredAt := None, deadLetterReason := "")
  {
    var worker := steps[k].worker;
    d := DecidedBy(states, steps, k, worker);
    DecisionsFollowTheRule(states, steps, d);
    FinishWrites(states, steps, k);
  }

  // ---------- When it is tried again ----------

  /** The finish that left the webhook waiting for its retry. */
  lemma LastFailure(states: seq<System>, steps: seq<Step>, k: nat, id: nat) returns (f: nat)
    requires IsRun(states, steps) && k < |states| && id in states[k].store.webhooks && states[k].store.webhooks[id].status.Retrying?
    ensures f < k && steps[f].Finish? && FinishSucceeds(states[f], steps[f].worker, steps[f].now)
    ensures states[f].workers[steps[f].worker].claim.id == id
    ensures states[f].workers[steps[f].worker].phase.result.status.Failed?
    ensures id in states[f + 1].store.webhooks && states[f + 1].store.webhooks[id] == states[k].store.webhooks[id]
  {
    f := EveryRowIsItsLastWrite(states, steps, k, id);
    RetryingWrite(states[f], steps[f], id, states[k].store.webhooks[id]);
  }

  lemma RetryingWrite(sys: System, step: Step, id: nat, after: Webhook)
    requires WritesRow(sys, step, id) && RowWritten(sys, step, id, after) && after.status.Retrying?
    ensures step.Finish? && sys.workers[step.worker].phase.result.status.Failed?
  {
  }

  /** A failure is reported under a rule with a target only. */
  lemma DecidedFailure(states: seq<System>, steps: seq<Step>, k: nat)
    requires IsRun(states, steps) && k < |steps|
    requires steps[k].Finish? && FinishSucceeds(states[k], steps[k].worker, steps[k].now)
    requires states[k].workers[steps[k].worker].phase.result.status.Failed?
    ensures var rule := states[k].workers[steps[k].worker].phase.rule; rule.Some? && rule.value.target != ""
  {
    var d := DecidedBy(states, steps, k, steps[k].worker);
    DecisionsFollowTheRule(states, steps, d);
  }

  /** A webhook waits for its retry exactly as long as the backoff asks, counted from the decision. */
  lemma RetryTimeIsBackoff(states: seq<System>, steps: seq<Step>, k: nat, id: nat) returns (t: Trace, f: nat)
    requires IsRun(states, steps) && k < |states| && id in states[k].store.webhooks && states[k].store.webhooks[id].status.Retrying?
    ensures f < k && steps[f].Finish? && FinishSucceeds(states[f], steps[f].worker, steps[f].now)
    ensures IsTrace(states, steps, f, steps[f].worker, t) && steps[t.claimed].id == id
    ensures var row := states[k].store.webhooks[id];
            && row.failureCount >= 1 && row.nextRetryAt.Some? && row.source in states[t.loaded].store.rules
            && IsBackoff(states[t.loaded].store.rules[row.source], row.failureCount, row.nextRetryAt.value - states[t.decided].clock)
  {
    f := LastFailure(states, steps, k, id);
    DecidedFailure(states, steps, f);
    t := FinishStoresTheAnswer(states, steps, f);
  }

  /** In every run a webhook that waits for a retry is not claimed before the backoff has passed since the
      decision that asked for it, by the clock reading of the claim, whatever interleaves. */
  lemma RetriesWaitOutTheBackoff(states: seq<System>, steps: seq<Step>, k: nat) returns (t: Trace, f: nat, wait: int)
    requires IsRun(states, steps) && k < |steps| && steps[k].ClaimOne?
    requires steps[k].id in states[k].store.webhooks && states[k].store.webhooks[steps[k].id].status.Retrying?
    ensures f < k && steps[f].Finish? && FinishSucceeds(states[f], steps[f].worker, steps[f].now)
    ensures IsTrace(states, steps, f, steps[f].worker, t) && steps[t.claimed].id == steps[k].id
    ensures var row := states[k].store.webhooks[steps[k].id];
            && row.failureCount >= 1 && row.source in states[t.loaded].store.rules
            && IsBackoff(states[t.loaded].store.rules[row.source], row.failureCount, wait)
            && states[t.decided].clock + wait <= steps[k].now
  {
    var id := steps[k].id;
    t, f := RetryTimeIsBackoff(states, steps, k, id);
    wait := states[k].store.webhooks[id].nextRetryAt.value - states[t.decided].clock;
    assert StepAt(states, steps, k);
  }
}
