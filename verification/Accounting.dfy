/** Where every delivery attempt of a run comes from: the failures that its source's limit allows a webhook, and
    what arrivals, replays, takeovers, cancellations and edited rules add to them. */
module Accounting {
  import opened Wrappers
  import opened DeliveryModel
  import opened Transactions
  import opened StoreInvariant
  import opened Forwarding
  import opened Protocol
  import opened Ownership
  import opened Reports
  import opened TimedExclusion
  import opened Fencing
  import opened Reachable
  import opened Retries

  function AtLeast(x: int, least: int): int {
    if x < least then least else x
  }

  /** How many more attempts a webhook may still start by the rules as they are: one for each failure left to it,
      and at least one while it is in play. An attempt in progress is already spent. */
  function Credit(s: Store, id: nat): (c: nat)
    ensures id !in s.webhooks || IsTerminal(s.webhooks[id]) ==> c == 0
  {
    if id in s.webhooks && !IsTerminal(s.webhooks[id]) then
      AtLeast(Limit(s, s.webhooks[id].source) - s.webhooks[id].failureCount, 1) - if HasOpenAttempt(s, id) then 1 else 0
    else 0
  }

  function Budget(s: Store, n: nat): nat {
    if n == 0 then 0 else Budget(s, n - 1) + Credit(s, n - 1)
  }

  predicate StartsAttempt(sys: System, step: Step) {
    step.Create? && CreateSucceeds(sys, step.worker, step.attempt, step.now)
  }

  /** The webhook for which a step starts an attempt, if any. */
  function Spent(sys: System, step: Step): Option<nat> {
    if StartsAttempt(sys, step) then Some(sys.workers[step.worker].claim.id) else None
  }

  predicate InPlay(s: Store, id: nat, source: string) {
    id in s.webhooks && s.webhooks[id].source == source && !IsTerminal(s.webhooks[id])
  }

  /** The retry was decided under a rule with a larger limit than the source has now. */
  predicate OutdatedRetry(s: Store, w: Worker)
    requires w.phase.Reporting? && w.claim.id in s.webhooks
  {
    var row := s.webhooks[w.claim.id];
    w.phase.result.status.Failed? && w.phase.result.nextRetryAt.Some? && Limit(s, row.source) <= row.failureCount + 1
  }

  /** The attempts that a step makes possible for webhook `id`: a full allowance when it arrives or is requeued; one
      when a takeover closes an attempt that never reported, when a cancellation is recorded, and when a retry is
      recorded that the present limit would not allow; and what an edited rule raises the limit by. */
  function Granted(sys: System, step: Step, id: nat): nat
    requires Enabled(sys, step)
  {
    match step
    case Receive(i, source, _, _, _) => if i == id then Limit(sys.store, source) else 0
    case Reset(i) => if i == id && IdleOutcome(sys.store, id).Pass? then Limit(sys.store, sys.store.webhooks[id].source) else 0
    case BulkReplay(ids) => if id in ids then Limit(sys.store, sys.store.webhooks[id].source) else 0
    case ClaimOne(_, i, _, _, _) => if i == id && HasOpenAttempt(sys.store, id) then 1 else 0
    case Finish(worker, now, _) => if FinishSucceeds(sys, worker, now) then GrantedByFinish(sys, worker, id) else 0
    case SaveRule(source, rule) => if InPlay(sys.store, id, source) then Raise(sys, source, Some(rule)) else 0
    case DeleteRule(source) => if InPlay(sys.store, id, source) then Raise(sys, source, None) else 0
    case _ => 0
  }

  function GrantedByFinish(sys: System, worker: nat, id: nat): nat
    requires CallsFinish(sys, worker) && sys.workers[worker].claim.id in sys.store.webhooks
  {
    var w := sys.workers[worker];
    if w.claim.id == id && (w.phase.result.status.Cancelled? || OutdatedRetry(sys.store, w)) then 1 else 0
  }

  function Raise(sys: System, source: string, rule: Option<ForwardingRule>): nat {
    AtLeast(MaxAttempts(rule) - Limit(sys.store, source), 0)
  }

  /** The sum of what a step grants to the webhooks below `n`. */
  function GrantedBelow(sys: System, step: Step, n: nat): nat
    requires Enabled(sys, step)
  {
    if n == 0 then 0 else GrantedBelow(sys, step, n - 1) + Granted(sys, step, n - 1)
  }

  function AttemptsStarted(states: seq<System>, steps: seq<Step>, j: nat, k: nat): nat
    requires |states| == |steps| + 1 && j <= k <= |steps|
    decreases k
  {
    if j == k then 0
    else AttemptsStarted(states, steps, j, k - 1) + if StartsAttempt(states[k - 1], steps[k - 1]) then 1 else 0
  }

  function GrantedInRun(states: seq<System>, steps: seq<Step>, j: nat, k: nat, n: nat): nat
    requires |states| == |steps| + 1 && j <= k <= |steps|
    requires forall i :: 0 <= i < |steps| ==> StepAt(states, steps, i)
    decreases k
  {
    if j == k then 0
    else
      assert StepAt(states, steps, k - 1);
      GrantedInRun(states, steps, j, k - 1, n) + GrantedBelow(states[k - 1], steps[k - 1], n)
  }

  // ---------- One step, one webhook ----------

  /** The credit depends on the row's source and failures, the source's limit and open attempts. */
  lemma SameCredit(s: Store, t: Store, id: nat)
    requires id in s.webhooks && id in t.webhooks
    requires t.webhooks[id].source == s.webhooks[id].source && t.webhooks[id].failureCount == s.webhooks[id].failureCount
    requires IsTerminal(t.webhooks[id]) <==> IsTerminal(s.webhooks[id])
    requires HasOpenAttempt(s, id) ==> HasOpenAttempt(t, id)
    ensures Credit(t, id) <= Credit(s, id) + AtLeast(Limit(t, t.webhooks[id].source) - Limit(s, s.webhooks[id].source), 0)
  {
  }

  lemma OpenStaysOpen(s: Store, t: Store, id: nat)
    requires forall a :: a in s.attempts && IsOpenAttempt(s, a, id) ==> IsOpenAttempt(t, a, id)
    ensures HasOpenAttempt(s, id) ==> HasOpenAttempt(t, id)
  {
    if HasOpenAttempt(s, id) {
      var a :| a in s.attempts && IsOpenAttempt(s, a, id);
      assert IsOpenAttempt(t, a, id);
    }
  }

  lemma RuleEditCredit(sys: System, step: Step, id: nat)
    requires Enabled(sys, step) && (step.SaveRule? || step.DeleteRule?)
    ensures Credit(Apply(sys, step).store, id) <= Credit(sys.store, id) + Granted(sys, step, id)
  {
    var s, t := sys.store, Apply(sys, step).store;
    OpenStaysOpen(s, t, id);
    if id in s.webhooks && !IsTerminal(s.webhooks[id]) {
      SameCredit(s, t, id);
      LimitAfterEdit(sys, step, s.webhooks[id].source);
    }
  }

  lemma LimitAfterEdit(sys: System, step: Step, source: string)
    requires Enabled(sys, step) && (step.SaveRule? || step.DeleteRule?)
    ensures Apply(sys, step).store.webhooks == sys.store.webhooks
    ensures Limit(Apply(sys, step).store, source)
         == if step.source != source then Limit(sys.store, source)
            else MaxAttempts(if step.SaveRule? then Some(step.rule) else None)
  {
  }

  lemma PauseCredit(sys: System, changed: string, paused: bool, id: nat)
    ensures Credit(AfterSetPaused(sys, changed, paused).store, id) <= Credit(sys.store, id)
  {
    var s, t := sys.store, AfterSetPaused(sys, changed, paused).store;
    OpenStaysOpen(s, t, id);
    if id in s.webhooks {
      PauseKeepsLimit(sys, changed, paused, s.webhooks[id].source);
      SameCredit(s, t, id);
    }
  }

  lemma QuietCredit(sys: System, step: Step, id: nat)
    requires Enabled(sys, step) && IsQuiet(step)
    ensures Credit(Apply(sys, step).store, id) <= Credit(sys.store, id) + Granted(sys, step, id)
  {
    if step.SaveRule? || step.DeleteRule? {
      RuleEditCredit(sys, step, id);
    } else if step.SetPaused? {
      PauseCredit(sys, step.source, step.paused, id);
    } else {
      QuietSteps(sys, step);
      OtherStepsKeepRules(sys, step);
      OpenStaysOpen(sys.store, Apply(sys, step).store, id);
    }
  }

  lemma ReceiveCredit(sys: System, received: nat, w: Webhook, id: nat)
    requires OwnershipOk(sys) && received !in sys.store.webhookIds && w.failureCount == 0
    ensures Credit(AfterReceive(sys, received, w).store, id)
         <= Credit(sys.store, id) + if received == id then Limit(sys.store, w.source) else 0
  {
    OpenStaysOpen(sys.store, AfterReceive(sys, received, w).store, id);
  }

  lemma RequeueCredit(sys: System, ids: set<nat>, inBulk: bool, id: nat)
    requires ids <= sys.store.webhooks.Keys
    ensures Credit(AfterRequeue(sys, ids, inBulk).store, id)
         <= Credit(sys.store, id) + if id in ids then Limit(sys.store, sys.store.webhooks[id].source) else 0
  {
    OpenStaysOpen(sys.store, AfterRequeue(sys, ids, inBulk).store, id);
  }

  lemma RemoveCredit(sys: System, ids: set<nat>, id: nat)
    ensures Credit(AfterRemove(sys, ids).store, id) <= Credit(sys.store, id)
  {
    if id !in ids {
      OpenStaysOpen(sys.store, AfterRemove(sys, ids).store, id);
    }
  }

  lemma ClaimCredit(sys: System, worker: nat, claimed: nat, now: int, leaseUntil: int, id: nat)
    requires claimed in sys.store.webhooks && !IsTerminal(sys.store.webhooks[claimed])
    ensures Credit(AfterClaim(sys, worker, claimed, now, leaseUntil).store, id)
         <= Credit(sys.store, id) + if claimed == id && HasOpenAttempt(sys.store, id) then 1 else 0
  {
    if id != claimed {
      OpenStaysOpen(sys.store, AfterClaim(sys, worker, claimed, now, leaseUntil).store, id);
    }
  }

  lemma CreateCredit(sys: System, worker: nat, attempt: nat, now: int, at: int, id: nat)
    requires OwnershipOk(sys) && CreateSucceeds(sys, worker, attempt, now)
    ensures var t := AfterCreate(sys, worker, attempt, at).store;
            Credit(t, id) <= Credit(sys.store, id) - if id == sys.workers[worker].claim.id then 1 else 0
  {
    var s, t := sys.store, AfterCreate(sys, worker, attempt, at).store;
    if id == sys.workers[worker].claim.id {
      assert IsOpenAttempt(t, attempt, id);
    } else {
      OpenStaysOpen(s, t, id);
    }
  }

  lemma FinishCredit(sys: System, worker: nat, now: int, at: int, id: nat)
    requires OwnershipOk(sys) && ReportsOk(sys) && FinishSucceeds(sys, worker, now)
    ensures Credit(AfterFinish(sys, worker, at).store, id) <= Credit(sys.store, id) + GrantedByFinish(sys, worker, id)
  {
    if id == sys.workers[worker].claim.id {
      OwnFinishCredit(sys, worker, now, at);
    } else {
      OpenStaysOpen(sys.store, AfterFinish(sys, worker, at).store, id);
    }
  }

  lemma OwnFinishCredit(sys: System, worker: nat, now: int, at: int)
    requires OwnershipOk(sys) && ReportsOk(sys) && FinishSucceeds(sys, worker, now)
    ensures var id := sys.workers[worker].claim.id;
            Credit(AfterFinish(sys, worker, at).store, id) <= Credit(sys.store, id) + GrantedByFinish(sys, worker, id)
  {
    var s, w := sys.store, sys.workers[worker];
    assert WorkerOk(sys, w) && ReportOk(w);
    assert IsOpenAttempt(s, w.phase.attempt, w.claim.id) && HasOpenAttempt(s, w.claim.id);
  }

  /** Every step keeps the account: what a webhook may still start grows by no more than what the step grants,
      less the attempt it starts. */
  lemma StepCredit(sys: System, step: Step, id: nat)
    requires OwnershipOk(sys) && ReportsOk(sys) && Enabled(sys, step)
    ensures Credit(Apply(sys, step).store, id)
         <= Credit(sys.store, id) + Granted(sys, step, id) - if Spent(sys, step) == Some(id) then 1 else 0
  {
    if IsQuiet(step) {
      QuietCredit(sys, step, id);
    } else if step.ClaimOne? || step.Create? || step.Finish? {
      CallCredit(sys, step, id);
    } else {
      AdminCredit(sys, step, id);
    }
  }

  lemma CallCredit(sys: System, step: Step, id: nat)
    requires OwnershipOk(sys) && ReportsOk(sys) && Enabled(sys, step) && (step.ClaimOne? || step.Create? || step.Finish?)
    ensures Credit(Apply(sys, step).store, id)
         <= Credit(sys.store, id) + Granted(sys, step, id) - if Spent(sys, step) == Some(id) then 1 else 0
  {
    if step.ClaimOne? {
      ClaimCredit(sys, step.worker, step.id, step.now, step.leaseUntil, id);
    } else if step.Create? {
      if StartsAttempt(sys, step) {
        CreateCredit(sys, step.worker, step.attempt, step.now, step.at, id);
      }
    } else if FinishSucceeds(sys, step.worker, step.now) {
      FinishCredit(sys, step.worker, step.now, step.at, id);
    }
  }

  lemma AdminCredit(sys: System, step: Step, id: nat)
    requires OwnershipOk(sys) && Enabled(sys, step) && !IsQuiet(step) && !step.ClaimOne? && !step.Create? && !step.Finish?
    ensures Credit(Apply(sys, step).store, id) <= Credit(sys.store, id) + Granted(sys, step, id)
  {
    match step
    case Receive(i, source, headers, payload, receivedAt) =>
      ReceiveCredit(sys, i, NewWebhook(source, headers, payload, receivedAt), id);
    case Reset(i) => if IdleOutcome(sys.store, i).Pass? { RequeueCredit(sys, {i}, false, id); }
    case BulkReplay(ids) => RequeueCredit(sys, ids, true, id);
    case Delete(i) => if IdleOutcome(sys.store, i).Pass? { RemoveCredit(sys, {i}, id); }
    case Cleanup(ids, _) => RemoveCredit(sys, ids, id);
  }

  // ---------- Whole runs ----------

  lemma {:induction false} BudgetGrows(sys: System, step: Step, n: nat)
    requires Enabled(sys, step)
    requires forall id: nat :: Credit(Apply(sys, step).store, id)
               <= Credit(sys.store, id) + Granted(sys, step, id) - if Spent(sys, step) == Some(id) then 1 else 0
    ensures Budget(Apply(sys, step).store, n)
         <= Budget(sys.store, n) + GrantedBelow(sys, step, n) - if Spent(sys, step).Some? && Spent(sys, step).value < n then 1 else 0
  {
    if n > 0 {
      BudgetGrows(sys, step, n - 1);
      assert Credit(Apply(sys, step).store, n - 1)
          <= Credit(sys.store, n - 1) + Granted(sys, step, n - 1) - if Spent(sys, step) == Some(n - 1) then 1 else 0;
    }
  }

  lemma SpentIsKnown(sys: System, step: Step)
    requires OwnershipOk(sys) && Enabled(sys, step)
    ensures Spent(sys, step).Some? ==> Spent(sys, step).value in sys.store.webhookIds
  {
  }

  lemma LastStepBudget(states: seq<System>, steps: seq<Step>, k: nat, n: nat)
    requires IsRun(states, steps) && k < |steps|
    requires forall id :: id in states[k].store.webhookIds ==> id < n
    ensures StepAt(states, steps, k)
    ensures Budget(states[k + 1].store, n) + (if StartsAttempt(states[k], steps[k]) then 1 else 0)
         <= Budget(states[k].store, n) + GrantedBelow(states[k], steps[k], n)
  {
    var sys, step := states[k], steps[k];
    assert StepAt(states, steps, k);
    RunsAreOwned(states, steps, k);
    RunsReport(states, steps, k);
    forall id: nat ensures Credit(Apply(sys, step).store, id)
        <= Credit(sys.store, id) + Granted(sys, step, id) - if Spent(sys, step) == Some(id) then 1 else 0 {
      StepCredit(sys, step, id);
    }
    BudgetGrows(sys, step, n);
    SpentIsKnown(sys, step);
  }

  /** Every attempt is accounted for: in any part of any run, with any rules and any edits of them, the attempts
      started and the budget left at its end are at most the budget at its beginning and what its steps grant. */
  lemma {:induction false} AttemptsAreAccountedFor(states: seq<System>, steps: seq<Step>, j: nat, k: nat, n: nat)
    requires IsRun(states, steps) && j <= k < |states|
    requires forall id :: id in states[k].store.webhookIds ==> id < n
    ensures AttemptsStarted(states, steps, j, k) + Budget(states[k].store, n)
         <= Budget(states[j].store, n) + GrantedInRun(states, steps, j, k, n)
    decreases k
  {
    if j < k {
      IdsOnlyGrow(states, steps, k - 1, k);
      AttemptsAreAccountedFor(states, steps, j, k - 1, n);
      LastStepBudget(states, steps, k - 1, n);
    }
  }

  lemma {:induction false} NothingToStartWith(n: nat)
    ensures Budget(INITIAL.store, n) == 0
  {
    if n > 0 {
      NothingToStartWith(n - 1);
    }
  }

  /** From the empty system on, no attempt is started that some step did not grant. */
  lemma AttemptsAreGranted(states: seq<System>, steps: seq<Step>, k: nat, n: nat)
    requires IsRun(states, steps) && k < |states|
    requires forall id :: id in states[k].store.webhookIds ==> id < n
    ensures AttemptsStarted(states, steps, 0, k) <= GrantedInRun(states, steps, 0, k, n)
  {
    AttemptsAreAccountedFor(states, steps, 0, k, n);
    NothingToStartWith(n);
  }

  // ---------- Calm stretches ----------

  ghost predicate WithinLimits(sys: System) {
    forall source :: WithinLimit(sys, source)
  }

  /** No arrival, replay, cancellation or takeover of an expired lease, and no change of a limit in use. */
  ghost predicate Calm(sys: System, step: Step)
    requires Enabled(sys, step)
  {
    && (forall source :: KeepsLimit(sys, step, source))
    && !step.Receive?
    && !step.Reset?
    && !step.BulkReplay?
    && (step.ClaimOne? ==> !sys.store.webhooks[step.id].status.Processing?)
    && (step.Finish? && FinishSucceeds(sys, step.worker, step.now) ==>
          !sys.workers[step.worker].phase.result.status.Cancelled?)
  }

  lemma CalmGrantsNothing(sys: System, step: Step, id: nat)
    requires OwnershipOk(sys) && ReportsOk(sys) && WithinLimits(sys) && Enabled(sys, step) && Calm(sys, step)
    ensures Granted(sys, step, id) == 0
  {
    if step.ClaimOne? && HasOpenAttempt(sys.store, id) {
      var a :| a in sys.store.attempts && IsOpenAttempt(sys.store, a, id);
      assert Owned(sys.store, a);
    } else if step.Finish? && FinishSucceeds(sys, step.worker, step.now) {
      CalmFinishGrantsNothing(sys, step.worker, step.now, id);
    } else if step.SaveRule? || step.DeleteRule? {
      assert KeepsLimit(sys, step, step.source);
    }
  }

  lemma CalmFinishGrantsNothing(sys: System, worker: nat, now: int, id: nat)
    requires OwnershipOk(sys) && ReportsOk(sys) && WithinLimits(sys) && FinishSucceeds(sys, worker, now)
    requires !sys.workers[worker].phase.result.status.Cancelled?
    ensures GrantedByFinish(sys, worker, id) == 0
  {
    var w := sys.workers[worker];
    assert WorkerOk(sys, w) && ReportOk(w) && WithinLimit(sys, w.claim.webhook.source) && KnowsLimit(sys.store, w);
  }

  lemma {:induction false} CalmGrantsNothingBelow(sys: System, step: Step, n: nat)
    requires OwnershipOk(sys) && ReportsOk(sys) && WithinLimits(sys) && Enabled(sys, step) && Calm(sys, step)
    ensures GrantedBelow(sys, step, n) == 0
  {
    if n > 0 {
      CalmGrantsNothingBelow(sys, step, n - 1);
      CalmGrantsNothing(sys, step, n - 1);
    }
  }

  lemma CalmStepKeepsIds(sys: System, step: Step)
    requires Enabled(sys, step) && !step.Receive?
    ensures Apply(sys, step).store.webhookIds == sys.store.webhookIds
  {
    if IsQuiet(step) {
      QuietSteps(sys, step);
    }
  }

  lemma AllStayWithinLimits(states: seq<System>, steps: seq<Step>, k: nat)
    requires IsRun(states, steps) && k < |steps| && WithinLimits(states[k])
    requires forall source :: KeepsLimit(states[k], steps[k], source)
    ensures WithinLimits(states[k + 1])
  {
    var next := states[k + 1];
    forall source ensures WithinLimit(next, source) {
      assert WithinLimit(states[k], source) && KeepsLimit(states[k], steps[k], source);
      RunsStayWithinLimits(states, steps, k, k + 1, source);
    }
  }

  lemma CalmStepBudget(states: seq<System>, steps: seq<Step>, k: nat, n: nat)
    requires IsRun(states, steps) && k < |steps| && WithinLimits(states[k])
    requires StepAt(states, steps, k) && Calm(states[k], steps[k])
    requires forall id :: id in states[k].store.webhookIds ==> id < n
    ensures Budget(states[k + 1].store, n) + (if StartsAttempt(states[k], steps[k]) then 1 else 0) <= Budget(states[k].store, n)
    ensures WithinLimits(states[k + 1]) && states[k + 1].store.webhookIds == states[k].store.webhookIds
  {
    LastStepBudget(states, steps, k, n);
    RunsAreOwned(states, steps, k);
    RunsReport(states, steps, k);
    CalmGrantsNothingBelow(states[k], steps[k], n);
    AllStayWithinLimits(states, steps, k);
    CalmStepKeepsIds(states[k], steps[k]);
  }

  /** A calm stretch of a run starts at most as many attempts as the budget it began with, and every attempt
      started shrinks the budget. */
  lemma {:induction false} AttemptsAreBounded(states: seq<System>, steps: seq<Step>, j: nat, k: nat, n: nat)
    requires IsRun(states, steps) && j <= k < |states| && WithinLimits(states[j])
    requires forall i {:trigger StepAt(states, steps, i)} :: j <= i < k && StepAt(states, steps, i) ==> Calm(states[i], steps[i])
    requires forall id :: id in states[j].store.webhookIds ==> id < n
    ensures AttemptsStarted(states, steps, j, k) + Budget(states[k].store, n) <= Budget(states[j].store, n)
    ensures WithinLimits(states[k]) && states[k].store.webhookIds == states[j].store.webhookIds
    decreases k
  {
    if j < k {
      AttemptsAreBounded(states, steps, j, k - 1, n);
      assert StepAt(states, steps, k - 1);
      CalmStepBudget(states, steps, k - 1, n);
    }
  }

  /** The sum of M - failure_count over the webhooks that are not in a final state. */
  function Headroom(s: Store, n: nat): int {
    if n == 0 then 0
    else Headroom(s, n - 1) +
         if n - 1 in s.webhooks && !IsTerminal(s.webhooks[n - 1]) then Limit(s, s.webhooks[n - 1].source) - s.webhooks[n - 1].failureCount else 0
  }

  lemma {:induction false} BudgetBelowHeadroom(sys: System, n: nat)
    requires WithinLimits(sys)
    ensures Budget(sys.store, n) <= Headroom(sys.store, n)
  {
    if n > 0 {
      BudgetBelowHeadroom(sys, n - 1);
      var id := n - 1;
      if id in sys.store.webhooks {
        assert WithinLimit(sys, sys.store.webhooks[id].source) && BelowLimit(sys.store, id);
      }
    }
  }

  /** The bound in terms of the failure counts alone. */
  lemma AttemptsAtMostHeadroom(states: seq<System>, steps: seq<Step>, j: nat, k: nat, n: nat)
    requires IsRun(states, steps) && j <= k < |states| && WithinLimits(states[j])
    requires forall i {:trigger StepAt(states, steps, i)} :: j <= i < k && StepAt(states, steps, i) ==> Calm(states[i], steps[i])
    requires forall id :: id in states[j].store.webhookIds ==> id < n
    ensures AttemptsStarted(states, steps, j, k) <= Headroom(states[j].store, n)
  {
    AttemptsAreBounded(states, steps, j, k, n);
    BudgetBelowHeadroom(states[j], n);
  }
}
