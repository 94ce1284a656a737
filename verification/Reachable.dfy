/** What holds of the queue in every reachable state: nothing gets stuck, lost or requeued twice. */
module Reachable {
  import opened DeliveryModel
  import opened Transactions
  import opened StoreInvariant
  import opened Protocol
  import opened Ownership
  import opened TimedExclusion

  /** A webhook has at most one pending attempt; its webhook exists, is processing, and the attempt was created
      under the webhook's current lease version. No attempt outlives its webhook. */
  lemma PendingAttemptsAreOwned(states: seq<System>, steps: seq<Step>, k: nat, a: nat)
    requires IsRun(states, steps) && k < |states| && a in states[k].store.attempts
    ensures var s, attempt := states[k].store, states[k].store.attempts[a];
            && attempt.webhookId in s.webhooks
            && (attempt.status.InFlight? ==>
                  && s.webhooks[attempt.webhookId].status.Processing?
                  && a in states[k].openedUnder
                  && states[k].openedUnder[a] == s.webhooks[attempt.webhookId].leaseVersion
                  && forall b :: IsOpenAttempt(s, b, attempt.webhookId) ==> b == a)
  {
    RunsAreOwned(states, steps, k);
    var s := states[k].store;
    assert Owned(s, a);
    if s.attempts[a].status.InFlight? {
      forall b | IsOpenAttempt(s, b, s.attempts[a].webhookId) ensures b == a {
        OpenAttemptIsUnique(s, a, b, s.attempts[a].webhookId);
      }
    }
  }

  // ---------- Status and columns ----------

  predicate IsTerminal(w: Webhook) {
    w.status.Delivered? || w.status.Skipped? || w.status.DeadLettered?
  }

  /** The status of every stored webhook agrees with its nullable columns. */
  lemma StatusMatchesColumns(states: seq<System>, steps: seq<Step>, k: nat, id: nat)
    requires IsRun(states, steps) && k < |states| && id in states[k].store.webhooks
    ensures var w := states[k].store.webhooks[id];
            && (w.status.Processing? <==> w.leaseUntil.Some?)
            && (w.status.Retrying? <==> w.nextRetryAt.Some?)
            && (w.status.DeadLettered? <==> w.deadLetteredAt.Some?)
  {
    RunsAreOwned(states, steps, k);
    assert RowOk(states[k].store.webhooks[id]);
  }

  /** No webhook gets stuck: a free worker can claim a webhook that is not in a final state, at any clock
      reading at or after its lease or retry time, exactly when its source is not paused. */
  lemma NothingGetsStuck(states: seq<System>, steps: seq<Step>, k: nat, id: nat, worker: nat, now: int, leaseUntil: int)
    requires IsRun(states, steps) && k < |states| && id in states[k].store.webhooks
    requires worker !in states[k].workers && now <= states[k].clock
    ensures var sys := states[k];
            var w, paused := sys.store.webhooks[id], PausedSources(sys.store);
            (w.status.Retrying? ==> w.nextRetryAt.Some?) && (w.status.Processing? ==> w.leaseUntil.Some?) &&
            (Enabled(sys, ClaimOne(worker, id, now, leaseUntil, paused)) <==>
              && !(w.status.Delivered? || w.status.Skipped? || w.status.DeadLettered?)
              && (w.status.Retrying? ==> w.nextRetryAt.value <= now)
              && (w.status.Processing? ==> w.leaseUntil.value <= now)
              && !(w.source in sys.store.rules && sys.store.rules[w.source].paused))
  {
    RunsAreOwned(states, steps, k);
    assert RowOk(states[k].store.webhooks[id]);
  }

  // ---------- Removal ----------

  /** A stored webhook only disappears by a delete while it is not processing, or by a cleanup while it is
      in a final state and older than the cutoff. */
  lemma RemovedOnlyWhenIdle(states: seq<System>, steps: seq<Step>, k: nat, id: nat)
    requires IsRun(states, steps) && k < |steps|
    requires id in states[k].store.webhooks && id !in states[k + 1].store.webhooks
    ensures var w := states[k].store.webhooks[id];
            || (steps[k] == Delete(id) && !w.status.Processing?)
            || (steps[k].Cleanup? && id in steps[k].ids && w.receivedAt < steps[k].before
                && (w.status.Delivered? || w.status.Skipped? || w.status.DeadLettered?))
  {
    var sys, step := states[k], steps[k];
    assert StepAt(states, steps, k);
    if IsQuiet(step) {
      QuietSteps(sys, step);
    }
  }

  /** Retention takes a webhook exactly when it is older than the cutoff and in a final state. */
  lemma RetentionTakesIff(sys: System, id: nat, before: int)
    ensures Enabled(sys, Cleanup({id}, before)) <==>
              && id in sys.store.webhooks && sys.store.webhooks[id].receivedAt < before
              && var status := sys.store.webhooks[id].status;
                 status.Delivered? || status.Skipped? || status.DeadLettered?
  {
    assert id in {id};
  }

  // ---------- Bulk replay ----------

  predicate Requeues(sys: System, step: Step, id: nat) {
    || (step == Reset(id) && IdleOutcome(sys.store, id).Pass?)
    || (step.BulkReplay? && id in step.ids)
  }

  predicate IsDead(sys: System, id: nat) {
    id in sys.store.webhooks && sys.store.webhooks[id].status.DeadLettered?
  }

  /** Step `i` is a finish that dead-letters the webhook. */
  predicate DeadLetters(states: seq<System>, steps: seq<Step>, i: nat, id: nat)
    requires i < |steps| < |states|
  {
    !IsDead(states[i], id) && IsDead(states[i + 1], id) && steps[i].Finish? && At(states[i], steps[i].worker)
    && states[i].workers[steps[i].worker].claim.id == id
  }

  lemma OnlyFinishesDeadLetter(sys: System, step: Step, id: nat)
    requires OwnershipOk(sys) && Enabled(sys, step)
    requires !IsDead(sys, id) && IsDead(Apply(sys, step), id)
    ensures step.Finish? && At(sys, step.worker) && sys.workers[step.worker].claim.id == id
  {
    if IsQuiet(step) {
      QuietSteps(sys, step);
    }
  }

  lemma {:induction false} DeadLetteredBetween(states: seq<System>, steps: seq<Step>, j: nat, k: nat, id: nat) returns (i: nat)
    requires IsRun(states, steps) && j <= k < |states|
    requires !IsDead(states[j], id) && IsDead(states[k], id)
    ensures j <= i < k && DeadLetters(states, steps, i, id)
    decreases k
  {
    if IsDead(states[k - 1], id) {
      i := DeadLetteredBetween(states, steps, j, k - 1, id);
    } else {
      i := k - 1;
      RunsAreOwned(states, steps, i);
      assert StepAt(states, steps, i);
      OnlyFinishesDeadLetter(states[i], steps[i], id);
    }
  }

  /** However replays overlap, a bulk replay never requeues a webhook a second time: between any earlier
      requeue and it lies a finish that dead-lettered the webhook again. */
  lemma BulkReplayRequeuesOnce(states: seq<System>, steps: seq<Step>, j: nat, k: nat, id: nat) returns (i: nat)
    requires IsRun(states, steps) && j < k < |steps|
    requires Requeues(states[j], steps[j], id)
    requires steps[k].BulkReplay? && id in steps[k].ids
    ensures j < i < k && DeadLetters(states, steps, i, id)
  {
    assert StepAt(states, steps, j) && StepAt(states, steps, k);
    i := DeadLetteredBetween(states, steps, j + 1, k, id);
  }
}
