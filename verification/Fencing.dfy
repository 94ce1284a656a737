/** The lease version as a fencing token, over whole runs. */
module Fencing {
  import opened DeliveryModel
  import opened StoreInvariant
  import opened Protocol
  import opened Ownership
  import opened Reports
  import opened TimedExclusion

  predicate Claims(step: Step, id: nat) {
    step.ClaimOne? && step.id == id
  }

  /** One step raises the version of a webhook by one if it claims that webhook, and keeps it otherwise. */
  lemma StepVersion(sys: System, step: Step, id: nat)
    requires OwnershipOk(sys) && Enabled(sys, step)
    requires id in Apply(sys, step).store.webhooks && id in sys.store.webhookIds
    ensures id in sys.store.webhooks
    ensures Apply(sys, step).store.webhooks[id].leaseVersion
         == sys.store.webhooks[id].leaseVersion + if Claims(step, id) then 1 else 0
  {
    if IsQuiet(step) {
      QuietSteps(sys, step);
    } else if step.Create? || step.Finish? {
      CallKeepsVersion(sys, step, id);
    } else {
      TableStepVersion(sys, step, id);
    }
  }

  lemma TableStepVersion(sys: System, step: Step, id: nat)
    requires OwnershipOk(sys) && Enabled(sys, step) && !IsQuiet(step) && !step.Create? && !step.Finish?
    requires id in Apply(sys, step).store.webhooks && id in sys.store.webhookIds
    ensures id in sys.store.webhooks
    ensures Apply(sys, step).store.webhooks[id].leaseVersion
         == sys.store.webhooks[id].leaseVersion + if Claims(step, id) then 1 else 0
  {
  }

  lemma CallKeepsVersion(sys: System, step: Step, id: nat)
    requires Enabled(sys, step) && (step.Create? || step.Finish?)
    ensures id in Apply(sys, step).store.webhooks <==> id in sys.store.webhooks
    ensures id in sys.store.webhooks ==> Apply(sys, step).store.webhooks[id].leaseVersion == sys.store.webhooks[id].leaseVersion
  {
  }

  function ClaimCount(steps: seq<Step>, id: nat): nat {
    if steps == [] then 0
    else ClaimCount(steps[..|steps| - 1], id) + if Claims(steps[|steps| - 1], id) then 1 else 0
  }

  lemma StepGrowsIds(sys: System, step: Step)
    requires Enabled(sys, step)
    ensures sys.store.webhookIds <= Apply(sys, step).store.webhookIds
    ensures forall k :: k in sys.grants ==> k in Apply(sys, step).grants
  {
  }

  /** From any state to any later one, the version of a webhook grows by exactly the number of claims between. */
  lemma {:induction false} VersionCountsClaims(states: seq<System>, steps: seq<Step>, j: nat, k: nat, id: nat)
    requires IsRun(states, steps) && j <= k < |states|
    requires id in states[j].store.webhookIds && id in states[k].store.webhooks
    ensures id in states[j].store.webhooks
    ensures states[k].store.webhooks[id].leaseVersion == states[j].store.webhooks[id].leaseVersion + ClaimCount(steps[j..k], id)
    decreases k
  {
    if j < k {
      IdsOnlyGrow(states, steps, j, k - 1);
      RunStepVersion(states, steps, k - 1, id);
      VersionCountsClaims(states, steps, j, k - 1, id);
      assert steps[j..k][..k - 1 - j] == steps[j..k - 1];
    }
  }

  lemma RunStepVersion(states: seq<System>, steps: seq<Step>, k: nat, id: nat)
    requires IsRun(states, steps) && k < |steps|
    requires id in states[k].store.webhookIds && id in states[k + 1].store.webhooks
    ensures id in states[k].store.webhooks
    ensures states[k + 1].store.webhooks[id].leaseVersion
         == states[k].store.webhooks[id].leaseVersion + if Claims(steps[k], id) then 1 else 0
  {
    RunsAreOwned(states, steps, k);
    assert StepAt(states, steps, k);
    StepVersion(states[k], steps[k], id);
  }

  lemma {:induction false} IdsOnlyGrow(states: seq<System>, steps: seq<Step>, j: nat, k: nat)
    requires IsRun(states, steps) && j <= k < |states|
    ensures states[j].store.webhookIds <= states[k].store.webhookIds
    decreases k
  {
    if j < k {
      IdsOnlyGrow(states, steps, j, k - 1);
      assert StepAt(states, steps, k - 1);
      StepGrowsIds(states[k - 1], steps[k - 1]);
    }
  }

  /** The version a claim step hands out. */
  function IssuedVersion(sys: System, step: Step): int
    requires step.ClaimOne? && step.id in sys.store.webhooks
  {
    sys.store.webhooks[step.id].leaseVersion + 1
  }

  /** Every (webhook, version) pair is issued at most once: a later claim of a webhook gets a larger version. */
  lemma VersionsAreIssuedOnce(states: seq<System>, steps: seq<Step>, j: nat, k: nat)
    requires IsRun(states, steps) && j < k < |steps|
    requires steps[j].ClaimOne? && steps[k].ClaimOne? && steps[j].id == steps[k].id
    ensures steps[j].id in states[j].store.webhooks && steps[k].id in states[k].store.webhooks
    ensures 0 < IssuedVersion(states[j], steps[j]) < IssuedVersion(states[k], steps[k])
  {
    var id := steps[j].id;
    assert StepAt(states, steps, j) && StepAt(states, steps, k);
    RunsAreOwned(states, steps, j);
    assert RowOk(states[j].store.webhooks[id]);
    VersionCountsClaims(states, steps, j + 1, k, id);
    RunStepVersion(states, steps, j, id);
  }

  // ---------- Stale workers ----------

  /** A worker still owns its webhook: no newer claim, no deletion, lease running at the clock reading `now`. */
  predicate StillOwns(sys: System, claim: Claim, now: int) {
    Current(sys, claim) && claim.webhook.leaseUntil.Some? && now < claim.webhook.leaseUntil.value
  }

  /** In every reachable state a create or finish succeeds exactly when the worker still owns its webhook;
      otherwise it leaves every table as it was. */
  lemma CallsSucceedIffStillOwner(states: seq<System>, steps: seq<Step>, k: nat)
    requires IsRun(states, steps) && k < |steps| && (steps[k].Create? || steps[k].Finish?)
    ensures steps[k].worker in states[k].workers
    ensures var owns := StillOwns(states[k], states[k].workers[steps[k].worker].claim, steps[k].now);
            && (owns <==> states[k + 1].store != states[k].store)
            && (steps[k].Create? ==> (owns <==> CreateSucceeds(states[k], steps[k].worker, steps[k].attempt, steps[k].now)))
            && (steps[k].Finish? ==> (owns <==> FinishSucceeds(states[k], steps[k].worker, steps[k].now)))
  {
    var sys, step := states[k], steps[k];
    RunsAreOwned(states, steps, k);
    assert StepAt(states, steps, k);
    if step.Create? {
      OwnersCreate(sys, step.worker, step.attempt, step.now, step.at);
    } else {
      RunsReport(states, steps, k);
      OwnersFinish(sys, step.worker, step.now, step.at);
    }
  }

  lemma OwnersCreate(sys: System, worker: nat, attempt: nat, now: int, at: int)
    requires OwnershipOk(sys) && CallsCreate(sys, worker, attempt)
    ensures StillOwns(sys, sys.workers[worker].claim, now) <==> CreateSucceeds(sys, worker, attempt, now)
    ensures CreateSucceeds(sys, worker, attempt, now) ==> AfterCreate(sys, worker, attempt, at).store != sys.store
  {
    var w := sys.workers[worker];
    assert WorkerOk(sys, w);
    if CreateSucceeds(sys, worker, attempt, now) {
      assert attempt in AfterCreate(sys, worker, attempt, at).store.attemptIds;
    }
  }

  lemma OwnersFinish(sys: System, worker: nat, now: int, at: int)
    requires OwnershipOk(sys) && ReportsOk(sys) && CallsFinish(sys, worker)
    ensures StillOwns(sys, sys.workers[worker].claim, now) <==> FinishSucceeds(sys, worker, now)
    ensures FinishSucceeds(sys, worker, now) ==> AfterFinish(sys, worker, at).store != sys.store
  {
    var w := sys.workers[worker];
    assert WorkerOk(sys, w) && ReportOk(w);
    if FinishSucceeds(sys, worker, now) {
      assert AfterFinish(sys, worker, at).store.webhooks[w.claim.id].leaseUntil.None?;
    }
  }

  /** A successful finish completes the attempt that the same claim created, and its claim copy is the
      locked row, so the failure count Forward decided with is the one that is incremented. */
  lemma FinishCompletesOwnAttempt(states: seq<System>, steps: seq<Step>, k: nat)
    requires IsRun(states, steps) && k < |steps| && steps[k].Finish? && FinishSucceeds(states[k], steps[k].worker, steps[k].now)
    ensures var sys, next := states[k], states[k + 1];
            var Worker(claim, phase) := sys.workers[steps[k].worker];
            && phase.attempt in sys.openedUnder && sys.openedUnder[phase.attempt] == claim.webhook.leaseVersion
            && phase.attempt in sys.store.attempts && sys.store.attempts[phase.attempt].webhookId == claim.id
            && claim.id in sys.store.webhooks && sys.store.webhooks[claim.id] == claim.webhook
            && claim.id in next.store.webhooks
            && next.store.webhooks[claim.id].failureCount ==
                 (match phase.result.status
                  case Failed => claim.webhook.failureCount + 1
                  case Cancelled => claim.webhook.failureCount
                  case _ => 0)
  {
    RunsAreOwned(states, steps, k);
    RunsReport(states, steps, k);
    assert StepAt(states, steps, k);
    var w := states[k].workers[steps[k].worker];
    assert WorkerOk(states[k], w) && ReportOk(w);
  }

  // ---------- One finish per claim ----------

  /** Only a claim makes a webhook processing. */
  lemma OnlyClaimsStartProcessing(sys: System, step: Step, id: nat)
    requires OwnershipOk(sys) && Enabled(sys, step) && !Claims(step, id)
    requires id in sys.store.webhooks && id in Apply(sys, step).store.webhooks
    requires Apply(sys, step).store.webhooks[id].status.Processing?
    ensures sys.store.webhooks[id].status.Processing?
  {
    if IsQuiet(step) {
      QuietSteps(sys, step);
    } else if step.Create? || step.Finish? {
      CallsStartNoProcessing(sys, step, id);
    } else {
      BusyStepsStartNoProcessing(sys, step, id);
    }
  }

  lemma CallsStartNoProcessing(sys: System, step: Step, id: nat)
    requires OwnershipOk(sys) && Enabled(sys, step) && (step.Create? || step.Finish?)
    requires id in sys.store.webhooks && id in Apply(sys, step).store.webhooks
    requires Apply(sys, step).store.webhooks[id].status.Processing?
    ensures sys.store.webhooks[id].status.Processing?
  {
  }

  lemma BusyStepsStartNoProcessing(sys: System, step: Step, id: nat)
    requires OwnershipOk(sys) && Enabled(sys, step) && !IsQuiet(step) && !Claims(step, id)
    requires !step.Create? && !step.Finish?
    requires id in sys.store.webhooks && id in Apply(sys, step).store.webhooks
    requires Apply(sys, step).store.webhooks[id].status.Processing?
    ensures sys.store.webhooks[id].status.Processing?
  {
  }

  lemma IdleStaysIdle(states: seq<System>, steps: seq<Step>, k: nat, id: nat)
    requires IsRun(states, steps) && k < |steps| && !Claims(steps[k], id)
    requires id in states[k].store.webhooks && !states[k].store.webhooks[id].status.Processing?
    requires id in states[k + 1].store.webhooks
    ensures !states[k + 1].store.webhooks[id].status.Processing?
  {
    RunsAreOwned(states, steps, k);
    assert StepAt(states, steps, k);
    if states[k + 1].store.webhooks[id].status.Processing? {
      OnlyClaimsStartProcessing(states[k], steps[k], id);
    }
  }

  lemma {:induction false} IdleUntilClaimed(states: seq<System>, steps: seq<Step>, j: nat, k: nat, id: nat)
    requires IsRun(states, steps) && j <= k < |states|
    requires id in states[j].store.webhooks && !states[j].store.webhooks[id].status.Processing?
    requires id in states[k].store.webhooks && ClaimCount(steps[j..k], id) == 0
    ensures !states[k].store.webhooks[id].status.Processing?
    decreases k
  {
    if j < k {
      RunsAreOwned(states, steps, j);
      IdsOnlyGrow(states, steps, j, k - 1);
      RunStepVersion(states, steps, k - 1, id);
      assert steps[j..k][..k - 1 - j] == steps[j..k - 1];
      IdleUntilClaimed(states, steps, j, k - 1, id);
      IdleStaysIdle(states, steps, k - 1, id);
    }
  }

  /** A successful finish ends its claim: a later successful finish of the same webhook was made under
      a larger version, so each (webhook, version) pair yields at most one. */
  lemma FinishesHaveGrowingVersions(states: seq<System>, steps: seq<Step>, j: nat, k: nat)
    requires IsRun(states, steps) && j < k < |steps|
    requires steps[j].Finish? && FinishSucceeds(states[j], steps[j].worker, steps[j].now)
    requires steps[k].Finish? && FinishSucceeds(states[k], steps[k].worker, steps[k].now)
    requires states[j].workers[steps[j].worker].claim.id == states[k].workers[steps[k].worker].claim.id
    ensures states[j].workers[steps[j].worker].claim.webhook.leaseVersion < states[k].workers[steps[k].worker].claim.webhook.leaseVersion
  {
    var id := states[j].workers[steps[j].worker].claim.id;
    FinishLeavesIdle(states, steps, j);
    RunsAreOwned(states, steps, j + 1);
    VersionCountsClaims(states, steps, j + 1, k, id);
    if ClaimCount(steps[j + 1..k], id) == 0 {
      IdleUntilClaimed(states, steps, j + 1, k, id);
    }
  }

  lemma FinishLeavesIdle(states: seq<System>, steps: seq<Step>, j: nat)
    requires IsRun(states, steps) && j < |steps| && steps[j].Finish? && FinishSucceeds(states[j], steps[j].worker, steps[j].now)
    ensures var claim := states[j].workers[steps[j].worker].claim;
            && claim.id in states[j + 1].store.webhooks
            && states[j + 1].store.webhooks[claim.id].leaseVersion == claim.webhook.leaseVersion
            && !states[j + 1].store.webhooks[claim.id].status.Processing?
  {
    assert StepAt(states, steps, j);
  }
}
