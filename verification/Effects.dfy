/** What the calls write, column by column, and that in every run each row, attempt and rule is what the last
    call that concerned it wrote. */
module Effects {
  import opened Wrappers
  import opened DeliveryModel
  import opened Transactions
  import opened Protocol
  import opened Ownership
  import opened TimedExclusion

  // ---------- Webhooks ----------

  /** The step writes the row of webhook `id`. */
  predicate WritesRow(sys: System, step: Step, id: nat) {
    match step
    case Receive(i, _, _, _, _) => i == id
    case ClaimOne(_, i, _, _, _) => i == id
    case Finish(worker, now, _) => FinishSucceeds(sys, worker, now) && sys.workers[worker].claim.id == id
    case Reset(i) => i == id && id in sys.store.webhooks && !sys.store.webhooks[id].status.Processing?
    case BulkReplay(ids) => id in ids
    case _ => false
  }

  predicate IsRequeued(before: Webhook, after: Webhook) {
    after == before.(status := Pending, response := [], failureCount := 0, lastError := "", nextRetryAt := None,
                     leaseUntil := None, deadLetteredAt := None, deadLetterReason := "")
  }

  /** The verdict of a delivery as it is stored at `at`: only a skipped one leaves the response alone, only a
      cancelled one the error and the failure count, and a failure without a retry time is a dead letter. */
  predicate IsFinished(before: Webhook, result: DeliveryResult, at: int, after: Webhook) {
    match result.status
    case Succeeded =>
      after == before.(status := Delivered, response := result.response.body, failureCount := 0, lastError := "",
                       nextRetryAt := None, leaseUntil := None, deadLetteredAt := None, deadLetterReason := "")
    case NotForwarded =>
      after == before.(status := Skipped, failureCount := 0, lastError := "",
                       nextRetryAt := None, leaseUntil := None, deadLetteredAt := None, deadLetterReason := "")
    case Cancelled =>
      after == before.(status := Pending, response := result.response.body, leaseUntil := None)
    case Failed =>
      after == before.(
        status := if result.nextRetryAt.Some? then Retrying else DeadLettered,
        response := result.response.body,
        failureCount := before.failureCount + 1,
        lastError := result.errorMessage,
        nextRetryAt := result.nextRetryAt,
        leaseUntil := None,
        deadLetteredAt := if result.nextRetryAt.Some? then None else Some(at),
        deadLetterReason := if result.nextRetryAt.Some? then "" else result.errorMessage)
    case _ => false
  }

  /** `after` is what the step leaves of the row. */
  predicate RowWritten(sys: System, step: Step, id: nat, after: Webhook) {
    match step
    case Receive(_, source, headers, payload, receivedAt) =>
      id !in sys.store.webhooks && after == Webhook(source, headers, payload, receivedAt, Pending, [], 0, "", None, None, 0, None, "")
    case ClaimOne(_, _, now, leaseUntil, _) =>
      id in sys.store.webhooks &&
      var before := sys.store.webhooks[id];
      after == before.(status := Processing, nextRetryAt := None, leaseUntil := Some(leaseUntil), leaseVersion := before.leaseVersion + 1)
    case Finish(worker, _, at) =>
      id in sys.store.webhooks && CallsFinish(sys, worker) &&
      IsFinished(sys.store.webhooks[id], sys.workers[worker].phase.result, at, after)
    case Reset(_) => id in sys.store.webhooks && IsRequeued(sys.store.webhooks[id], after)
    case BulkReplay(_) =>
      id in sys.store.webhooks && sys.store.webhooks[id].status.DeadLettered? && IsRequeued(sys.store.webhooks[id], after)
    case _ => false
  }

  /** The step removes the webhook with its attempts. */
  predicate RemovesRow(sys: System, step: Step, id: nat) {
    match step
    case Delete(i) => i == id && id in sys.store.webhooks && !sys.store.webhooks[id].status.Processing?
    case Cleanup(ids, _) => id in ids
    case _ => false
  }

  /** A step writes, removes or keeps a row. */
  predicate RowFollows(sys: System, step: Step, next: map<nat, Webhook>, id: nat) {
    if WritesRow(sys, step, id) then id in next && RowWritten(sys, step, id, next[id])
    else if RemovesRow(sys, step, id) then id !in next
    else (id in next <==> id in sys.store.webhooks) && (id in next ==> next[id] == sys.store.webhooks[id])
  }

  lemma RowAfterStep(sys: System, step: Step, id: nat)
    requires OwnershipOk(sys) && Enabled(sys, step)
    ensures RowFollows(sys, step, Apply(sys, step).store.webhooks, id)
  {
    if IsQuiet(step) {
      QuietSteps(sys, step);
    } else if step.Create? || step.Finish? {
      RowAfterCall(sys, step, id);
    } else if step.Receive? {
      RowAfterReceive(sys, step, id);
    } else if step.ClaimOne? {
      RowAfterClaim(sys, step, id);
    } else {
      RowAfterAdminStep(sys, step, id);
    }
  }

  lemma RowAfterCall(sys: System, step: Step, id: nat)
    requires Enabled(sys, step) && (step.Create? || step.Finish?)
    ensures RowFollows(sys, step, Apply(sys, step).store.webhooks, id)
  {
  }

  lemma RowAfterReceive(sys: System, step: Step, id: nat)
    requires OwnershipOk(sys) && Enabled(sys, step) && step.Receive?
    ensures RowFollows(sys, step, Apply(sys, step).store.webhooks, id)
  {
  }

  lemma RowAfterClaim(sys: System, step: Step, id: nat)
    requires Enabled(sys, step) && step.ClaimOne?
    ensures RowFollows(sys, step, Apply(sys, step).store.webhooks, id)
  {
  }

  lemma RowAfterAdminStep(sys: System, step: Step, id: nat)
    requires Enabled(sys, step) && (step.Reset? || step.Delete? || step.BulkReplay? || step.Cleanup?)
    ensures RowFollows(sys, step, Apply(sys, step).store.webhooks, id)
  {
  }

  /** In every run a stored row is, in every column, what the last call that concerned it wrote. */
  lemma {:induction false} EveryRowIsItsLastWrite(states: seq<System>, steps: seq<Step>, k: nat, id: nat) returns (j: nat)
    requires IsRun(states, steps) && k < |states| && id in states[k].store.webhooks
    ensures j < k && WritesRow(states[j], steps[j], id) && RowWritten(states[j], steps[j], id, states[k].store.webhooks[id])
    ensures forall i :: j < i < k ==> !WritesRow(states[i], steps[i], id) && !RemovesRow(states[i], steps[i], id)
    ensures forall i :: j < i <= k ==> id in states[i].store.webhooks && states[i].store.webhooks[id] == states[k].store.webhooks[id]
    decreases k
  {
    assert StepAt(states, steps, k - 1);
    RunsAreOwned(states, steps, k - 1);
    RowAfterStep(states[k - 1], steps[k - 1], id);
    if WritesRow(states[k - 1], steps[k - 1], id) {
      j := k - 1;
    } else {
      j := EveryRowIsItsLastWrite(states, steps, k - 1, id);
    }
  }

  /** No call changes what was received. */
  lemma {:induction false} ReceivedDataIsKept(states: seq<System>, steps: seq<Step>, k: nat, id: nat) returns (j: nat)
    requires IsRun(states, steps) && k < |states| && id in states[k].store.webhooks
    ensures var row := states[k].store.webhooks[id];
            j < k && steps[j] == Receive(id, row.source, row.headers, row.payload, row.receivedAt)
    decreases k
  {
    var write := EveryRowIsItsLastWrite(states, steps, k, id);
    if steps[write].Receive? {
      j := write;
    } else {
      j := ReceivedDataIsKept(states, steps, write, id);
    }
  }

  // ---------- Attempts ----------

  predicate OpensAttempt(sys: System, step: Step, a: nat) {
    step.Create? && step.attempt == a && CreateSucceeds(sys, step.worker, a, step.now)
  }

  /** A pending attempt with what the claim's worker knows. */
  predicate IsOpened(sys: System, step: Step, after: DeliveryAttempt)
    requires step.Create? && At(sys, step.worker) && sys.workers[step.worker].phase.Ready?
  {
    var Worker(claim, Ready(rule)) := sys.workers[step.worker];
    && claim.id in sys.store.webhooks
    && after == DeliveryAttempt(claim.id, sys.store.webhooks[claim.id].source, if rule.Some? then rule.value.target else "",
                                InFlight, "", 0, step.at, None, DeliveryResponse(0, [], "", false, false))
  }

  predicate ClosesAttempt(sys: System, step: Step, a: nat) {
    match step
    case Finish(worker, now, _) => FinishSucceeds(sys, worker, now) && sys.workers[worker].phase.attempt == a
    case ClaimOne(_, id, _, _, _) => IsOpenAttempt(sys.store, a, id)
    case _ => false
  }

  /** By its worker's report, or by the claim that takes its webhook over. */
  predicate IsClosed(sys: System, step: Step, before: DeliveryAttempt, after: DeliveryAttempt) {
    match step
    case Finish(worker, _, at) =>
      CallsFinish(sys, worker) &&
      var result := sys.workers[worker].phase.result;
      after == before.(status := result.status, errorMessage := result.errorMessage, durationMs := result.durationMs,
                       completedAt := Some(at), response := result.response)
    case ClaimOne(_, _, now, _, _) =>
      after == before.(status := Interrupted, errorMessage := "delivery worker lease expired", completedAt := Some(now))
    case _ => false
  }

  /** A step opens, closes or keeps an attempt, or removes it with its webhook. */
  predicate AttemptFollows(sys: System, step: Step, next: map<nat, DeliveryAttempt>, a: nat) {
    if OpensAttempt(sys, step, a) then a !in sys.store.attempts && a in next && IsOpened(sys, step, next[a])
    else if ClosesAttempt(sys, step, a) then
      && a in sys.store.attempts && sys.store.attempts[a].status.InFlight?
      && a in next && !next[a].status.InFlight? && IsClosed(sys, step, sys.store.attempts[a], next[a])
    else
      && (a in next <==> a in sys.store.attempts && !RemovesRow(sys, step, sys.store.attempts[a].webhookId))
      && (a in next ==> next[a] == sys.store.attempts[a])
  }

  lemma AttemptAfterStep(sys: System, step: Step, a: nat)
    requires OwnershipOk(sys) && Enabled(sys, step)
    ensures AttemptFollows(sys, step, Apply(sys, step).store.attempts, a)
  {
    if IsQuiet(step) {
      QuietSteps(sys, step);
    } else if step.Create? {
      AttemptAfterCreate(sys, step, a);
    } else if step.Finish? {
      AttemptAfterFinish(sys, step, a);
    } else if step.ClaimOne? {
      AttemptAfterClaim(sys, step, a);
    } else {
      AttemptAfterAdminStep(sys, step, a);
    }
  }

  lemma AttemptAfterCreate(sys: System, step: Step, a: nat)
    requires OwnershipOk(sys) && Enabled(sys, step) && step.Create?
    ensures AttemptFollows(sys, step, Apply(sys, step).store.attempts, a)
  {
  }

  lemma AttemptAfterFinish(sys: System, step: Step, a: nat)
    requires Enabled(sys, step) && step.Finish?
    ensures AttemptFollows(sys, step, Apply(sys, step).store.attempts, a)
  {
  }

  lemma AttemptAfterClaim(sys: System, step: Step, a: nat)
    requires OwnershipOk(sys) && Enabled(sys, step) && step.ClaimOne?
    ensures AttemptFollows(sys, step, Apply(sys, step).store.attempts, a)
  {
    if IsOpenAttempt(sys.store, a, step.id) {
      assert StoreInvariant.Owned(sys.store, a);
    }
  }

  lemma AttemptAfterAdminStep(sys: System, step: Step, a: nat)
    requires Enabled(sys, step)
    requires step.Receive? || step.Reset? || step.Delete? || step.BulkReplay? || step.Cleanup?
    ensures AttemptFollows(sys, step, Apply(sys, step).store.attempts, a)
  {
  }

  /** The attempt was opened by step `created`. It is still as it was then if `closed` is `k`; otherwise step
      `closed` closed it, and it is as that left it. */
  ghost predicate IsAttemptStory(states: seq<System>, steps: seq<Step>, k: nat, a: nat, created: nat, closed: nat, pending: DeliveryAttempt)
    requires |states| == |steps| + 1 && k < |states| && a in states[k].store.attempts
  {
    var attempt := states[k].store.attempts[a];
    && created < closed <= k
    && OpensAttempt(states[created], steps[created], a) && IsOpened(states[created], steps[created], pending)
    && (if closed == k then attempt == pending
        else ClosesAttempt(states[closed], steps[closed], a) && IsClosed(states[closed], steps[closed], pending, attempt))
    && (attempt.status.InFlight? <==> closed == k)
  }

  lemma AttemptStoryGoesOn(states: seq<System>, steps: seq<Step>, k: nat, a: nat, created: nat, closed: nat, pending: DeliveryAttempt)
    returns (next: nat)
    requires |states| == |steps| + 1 && k < |steps| && a in states[k].store.attempts && a in states[k + 1].store.attempts
    requires IsAttemptStory(states, steps, k, a, created, closed, pending)
    requires !OpensAttempt(states[k], steps[k], a) && AttemptFollows(states[k], steps[k], states[k + 1].store.attempts, a)
    ensures IsAttemptStory(states, steps, k + 1, a, created, next, pending)
  {
    next := if closed < k || ClosesAttempt(states[k], steps[k], a) then closed else k + 1;
  }

  /** In every run a stored attempt is, in every column, what its create wrote, changed by at most one call that
      closed it: its worker's finish or the claim that took the webhook over. */
  lemma {:induction false} EveryAttemptClosesOnce(states: seq<System>, steps: seq<Step>, k: nat, a: nat)
    returns (created: nat, closed: nat, pending: DeliveryAttempt)
    requires IsRun(states, steps) && k < |states| && a in states[k].store.attempts
    ensures IsAttemptStory(states, steps, k, a, created, closed, pending)
    decreases k
  {
    var j := k - 1;
    assert StepAt(states, steps, j);
    RunsAreOwned(states, steps, j);
    AttemptAfterStep(states[j], steps[j], a);
    if OpensAttempt(states[j], steps[j], a) {
      return j, k, states[k].store.attempts[a];
    }
    created, closed, pending := EveryAttemptClosesOnce(states, steps, j, a);
    closed := AttemptStoryGoesOn(states, steps, j, a, created, closed, pending);
  }

  // ---------- Rules ----------

  /** All that a rule says except whether it is paused. */
  predicate SameSettings(a: ForwardingRule, b: ForwardingRule) {
    && a.target == b.target && a.verifySecret == b.verifySecret && a.verifyHeader == b.verifyHeader
    && a.toleranceSeconds == b.toleranceSeconds && a.outgoingSecret == b.outgoingSecret
    && a.retryMaxAttempts == b.retryMaxAttempts && a.retryBackoffSeconds == b.retryBackoffSeconds
  }

  predicate RuleFollows(sys: System, step: Step, next: map<string, ForwardingRule>, source: string) {
    match step
    case SaveRule(s, rule) =>
      if s == source then
        && source in next && SameSettings(next[source], rule)
        && next[source].paused == if source in sys.store.rules then sys.store.rules[source].paused else rule.paused
      else RuleKept(sys, next, source)
    case SetPaused(s, paused) =>
      if s == source && source in sys.store.rules then
        source in next && SameSettings(next[source], sys.store.rules[source]) && next[source].paused == paused
      else RuleKept(sys, next, source)
    case DeleteRule(s) => if s == source then source !in next else RuleKept(sys, next, source)
    case _ => RuleKept(sys, next, source)
  }

  predicate RuleKept(sys: System, next: map<string, ForwardingRule>, source: string) {
    (source in next <==> source in sys.store.rules) && (source in next ==> next[source] == sys.store.rules[source])
  }

  lemma RuleAfterStep(sys: System, step: Step, source: string)
    requires Enabled(sys, step)
    ensures RuleFollows(sys, step, Apply(sys, step).store.rules, source)
  {
    if !IsRuleEdit(step) {
      OtherStepsKeepRules(sys, step);
    }
  }

  predicate Edits(step: Step, source: string) {
    (step.SaveRule? || step.DeleteRule?) && step.source == source
  }

  /** In every run the settings of a rule are those of the last save, every one of them. */
  lemma {:induction false} EveryRuleIsItsLastSave(states: seq<System>, steps: seq<Step>, k: nat, source: string) returns (j: nat)
    requires IsRun(states, steps) && k < |states| && source in states[k].store.rules
    ensures j < k && steps[j].SaveRule? && steps[j].source == source
    ensures SameSettings(states[k].store.rules[source], steps[j].rule)
    ensures forall i :: j < i < k ==> !Edits(steps[i], source)
    decreases k
  {
    assert StepAt(states, steps, k - 1);
    RuleAfterStep(states[k - 1], steps[k - 1], source);
    if Edits(steps[k - 1], source) {
      j := k - 1;
    } else {
      j := EveryRuleIsItsLastSave(states, steps, k - 1, source);
    }
  }

  /** A rule stays from its save until it is deleted, with what was saved until it is saved again. */
  lemma {:induction false} SavedRuleStays(states: seq<System>, steps: seq<Step>, j: nat, k: nat, source: string)
    requires IsRun(states, steps) && j < k < |states|
    requires steps[j].SaveRule? && steps[j].source == source && forall i :: j < i < k ==> !Edits(steps[i], source)
    ensures source in states[k].store.rules && SameSettings(states[k].store.rules[source], steps[j].rule)
    decreases k
  {
    assert StepAt(states, steps, k - 1);
    RuleAfterStep(states[k - 1], steps[k - 1], source);
    if j < k - 1 {
      SavedRuleStays(states, steps, j, k - 1, source);
    }
  }
}
