/** Attempt limits: a failure is final by the limit that its worker loaded, and while a source's limit stays as
    it is, its webhooks are dead-lettered by their M-th failure. */
module Retries {
  import opened Wrappers
  import opened DeliveryModel
  import opened Transactions
  import opened Forwarding
  import opened Protocol
  import opened Ownership
  import opened Reports
  import opened TimedExclusion
  import opened Reachable

  function Limit(s: Store, source: string): (m: int)
    ensures m >= 1
  {
    MaxAttempts(if source in s.rules then Some(s.rules[source]) else None)
  }

  predicate KnowsLimit(s: Store, w: Worker) {
    !w.phase.Holding? ==> MaxAttempts(w.phase.rule) == Limit(s, w.claim.webhook.source)
  }

  predicate BelowLimit(s: Store, id: nat)
    requires id in s.webhooks
  {
    !IsTerminal(s.webhooks[id]) ==> 0 <= s.webhooks[id].failureCount < Limit(s, s.webhooks[id].source)
  }

  /** Every webhook of the source that is still in play is below its limit, and no worker carries a rule of the
      source with another limit. */
  predicate WithinLimit(sys: System, source: string) {
    && (forall id :: id in sys.store.webhooks && sys.store.webhooks[id].source == source ==> BelowLimit(sys.store, id))
    && (forall w :: w in sys.workers && sys.workers[w].claim.webhook.source == source ==> KnowsLimit(sys.store, sys.workers[w]))
  }

  /** There is no webhook of the source, and no worker has one. */
  predicate IsUnused(sys: System, source: string) {
    && (forall id :: id in sys.store.webhooks ==> sys.store.webhooks[id].source != source)
    && (forall w :: w in sys.workers ==> sys.workers[w].claim.webhook.source != source)
  }

  /** The step does not change the source's limit while the source is in use. */
  predicate KeepsLimit(sys: System, step: Step, source: string) {
    || IsUnused(sys, source)
    || (&& (step.SaveRule? && step.source == source ==> MaxAttempts(Some(step.rule)) == Limit(sys.store, source))
        && (step.DeleteRule? && step.source == source ==> MaxAttempts(None) == Limit(sys.store, source)))
  }

  lemma SaveKeepsLimit(sys: System, saved: string, rule: ForwardingRule, source: string)
    requires saved == source ==> MaxAttempts(Some(rule)) == Limit(sys.store, source)
    ensures Limit(AfterSaveRule(sys, saved, rule).store, source) == Limit(sys.store, source)
  {
  }

  lemma PauseKeepsLimit(sys: System, changed: string, paused: bool, source: string)
    ensures Limit(AfterSetPaused(sys, changed, paused).store, source) == Limit(sys.store, source)
  {
  }

  lemma DeleteKeepsLimit(sys: System, deleted: string, source: string)
    requires deleted == source ==> MaxAttempts(None) == Limit(sys.store, source)
    ensures Limit(AfterDeleteRule(sys, deleted).store, source) == Limit(sys.store, source)
  {
  }

  lemma LimitStays(sys: System, step: Step, source: string)
    requires Enabled(sys, step) && KeepsLimit(sys, step, source) && !IsUnused(sys, source)
    ensures Limit(Apply(sys, step).store, source) == Limit(sys.store, source)
  {
    if step.SaveRule? {
      SaveKeepsLimit(sys, step.source, step.rule, source);
    } else if step.SetPaused? {
      PauseKeepsLimit(sys, step.source, step.paused, source);
    } else if step.DeleteRule? {
      DeleteKeepsLimit(sys, step.source, source);
    } else {
      OtherStepsKeepRules(sys, step);
    }
  }

  // ---------- Below the limit ----------

  lemma QuietKeepsLimit(sys: System, step: Step, source: string)
    requires WithinLimit(sys, source) && Enabled(sys, step) && KeepsLimit(sys, step, source) && IsQuiet(step)
    ensures WithinLimit(Apply(sys, step), source)
  {
    var next := Apply(sys, step);
    QuietSteps(sys, step);
    forall id | id in next.store.webhooks && next.store.webhooks[id].source == source ensures BelowLimit(next.store, id) {
      assert BelowLimit(sys.store, id);
      LimitStays(sys, step, source);
    }
    forall w | w in next.workers && next.workers[w].claim.webhook.source == source ensures KnowsLimit(next.store, next.workers[w]) {
      QuietKeepsWorkersLimit(sys, step, w);
    }
  }

  lemma QuietKeepsWorkersLimit(sys: System, step: Step, w: nat)
    requires Enabled(sys, step) && IsQuiet(step) && w in Apply(sys, step).workers
    requires var source := Apply(sys, step).workers[w].claim.webhook.source;
             WithinLimit(sys, source) && KeepsLimit(sys, step, source)
    ensures KnowsLimit(Apply(sys, step).store, Apply(sys, step).workers[w])
  {
    QuietKeepsRule(sys, step, w);
    assert KnowsLimit(sys.store, sys.workers[w]);
    LimitStays(sys, step, sys.workers[w].claim.webhook.source);
  }

  /** A worker keeps the rule it has loaded, or loads the one that is stored. */
  lemma QuietKeepsRule(sys: System, step: Step, w: nat)
    requires Enabled(sys, step) && IsQuiet(step) && w in Apply(sys, step).workers
    ensures w in sys.workers && Apply(sys, step).workers[w].claim == sys.workers[w].claim
    ensures !Apply(sys, step).workers[w].phase.Holding? ==>
              var rule := Apply(sys, step).workers[w].phase.rule;
              || (!sys.workers[w].phase.Holding? && rule == sys.workers[w].phase.rule)
              || (step.LoadRule? && MaxAttempts(rule) == Limit(sys.store, sys.workers[w].claim.webhook.source))
  {
  }

  lemma FinishKeepsLimit(sys: System, worker: nat, now: int, at: int, source: string)
    requires OwnershipOk(sys) && ReportsOk(sys) && WithinLimit(sys, source) && FinishSucceeds(sys, worker, now)
    ensures WithinLimit(AfterFinish(sys, worker, at), source)
  {
    var next := AfterFinish(sys, worker, at);
    forall id | id in next.store.webhooks && next.store.webhooks[id].source == source ensures BelowLimit(next.store, id) {
      FinishKeepsBelow(sys, worker, now, at, id);
    }
    forall v | v in next.workers && next.workers[v].claim.webhook.source == source ensures KnowsLimit(next.store, next.workers[v]) {
      FinishKeepsKnown(sys, worker, now, at, v);
    }
  }

  lemma FinishKeepsKnown(sys: System, worker: nat, now: int, at: int, v: nat)
    requires FinishSucceeds(sys, worker, now) && v in AfterFinish(sys, worker, at).workers
    requires WithinLimit(sys, AfterFinish(sys, worker, at).workers[v].claim.webhook.source)
    ensures KnowsLimit(AfterFinish(sys, worker, at).store, AfterFinish(sys, worker, at).workers[v])
  {
    assert KnowsLimit(sys.store, sys.workers[v]);
  }

  lemma FinishKeepsBelow(sys: System, worker: nat, now: int, at: int, id: nat)
    requires OwnershipOk(sys) && ReportsOk(sys) && FinishSucceeds(sys, worker, now)
    requires id in sys.store.webhooks && WithinLimit(sys, sys.store.webhooks[id].source)
    ensures var next := AfterFinish(sys, worker, at);
            id in next.store.webhooks && next.store.webhooks[id].source == sys.store.webhooks[id].source && BelowLimit(next.store, id)
  {
    var w := sys.workers[worker];
    assert BelowLimit(sys.store, id);
    if id == w.claim.id {
      assert WorkerOk(sys, w) && ReportOk(w) && KnowsLimit(sys.store, w);
      ReportBelowLimit(sys.store, w, at);
    }
  }

  lemma ReportBelowLimit(s: Store, w: Worker, at: int)
    requires w.claim.id in s.webhooks && s.webhooks[w.claim.id] == w.claim.webhook && w.phase.Reporting?
    requires ReportOk(w) && KnowsLimit(s, w) && BelowLimit(s, w.claim.id) && !IsTerminal(w.claim.webhook)
    ensures var row := FinishedRow(w.claim.webhook, w.phase.result, at);
            row.source == w.claim.webhook.source && (IsTerminal(row) || 0 <= row.failureCount < Limit(s, row.source))
  {
  }

  lemma CallKeepsLimit(sys: System, step: Step, source: string)
    requires WithinLimit(sys, source) && Enabled(sys, step) && (step.ClaimOne? || step.Create? || step.Finish?)
    requires step.Finish? ==> !FinishSucceeds(sys, step.worker, step.now)
    ensures WithinLimit(Apply(sys, step), source)
  {
    CallKeepsRows(sys, step);
    CallKeepsPhases(sys, step);
    var next := Apply(sys, step);
    forall id | id in next.store.webhooks && next.store.webhooks[id].source == source ensures BelowLimit(next.store, id) {
      assert BelowLimit(sys.store, id);
    }
    forall w | w in next.workers && next.workers[w].claim.webhook.source == source ensures KnowsLimit(next.store, next.workers[w]) {
      if !next.workers[w].phase.Holding? {
        assert KnowsLimit(sys.store, sys.workers[w]);
      }
    }
  }

  /** What limits depend on in the rows: a claim only takes webhooks in play. */
  lemma CallKeepsRows(sys: System, step: Step)
    requires Enabled(sys, step) && (step.ClaimOne? || step.Create? || step.Finish?)
    requires step.Finish? ==> !FinishSucceeds(sys, step.worker, step.now)
    ensures var next := Apply(sys, step);
            && next.store.rules == sys.store.rules
            && forall id :: id in next.store.webhooks ==>
                 && id in sys.store.webhooks
                 && next.store.webhooks[id].source == sys.store.webhooks[id].source
                 && next.store.webhooks[id].failureCount == sys.store.webhooks[id].failureCount
                 && (IsTerminal(next.store.webhooks[id]) <==> IsTerminal(sys.store.webhooks[id]))
  {
  }

  lemma CallKeepsPhases(sys: System, step: Step)
    requires Enabled(sys, step) && (step.ClaimOne? || step.Create? || step.Finish?)
    requires step.Finish? ==> !FinishSucceeds(sys, step.worker, step.now)
    ensures var next := Apply(sys, step);
            forall w :: w in next.workers && !next.workers[w].phase.Holding? ==>
              && w in sys.workers
              && next.workers[w].claim == sys.workers[w].claim
              && !sys.workers[w].phase.Holding?
              && next.workers[w].phase.rule == sys.workers[w].phase.rule
  {
  }

  lemma AdminStepKeepsLimit(sys: System, step: Step, source: string)
    requires WithinLimit(sys, source) && Enabled(sys, step)
    requires step.Receive? || step.Reset? || step.Delete? || step.BulkReplay? || step.Cleanup?
    ensures WithinLimit(Apply(sys, step), source)
  {
    AdminStepKeepsRows(sys, step);
    var next := Apply(sys, step);
    forall id | id in next.store.webhooks && next.store.webhooks[id].source == source ensures BelowLimit(next.store, id) {
      assert next.store.webhooks[id].failureCount == 0 || BelowLimit(sys.store, id);
    }
    forall w | w in next.workers && next.workers[w].claim.webhook.source == source ensures KnowsLimit(next.store, next.workers[w]) {
      assert KnowsLimit(sys.store, sys.workers[w]);
    }
  }

  /** Rows are added and requeued without failures, and otherwise kept. */
  lemma AdminStepKeepsRows(sys: System, step: Step)
    requires Enabled(sys, step)
    requires step.Receive? || step.Reset? || step.Delete? || step.BulkReplay? || step.Cleanup?
    ensures Apply(sys, step).workers == sys.workers && Apply(sys, step).store.rules == sys.store.rules
    ensures var rows := Apply(sys, step).store.webhooks;
            forall id :: id in rows ==>
              rows[id].failureCount == 0 || (id in sys.store.webhooks && rows[id] == sys.store.webhooks[id])
  {
  }

  lemma BusyStepKeepsLimit(sys: System, step: Step, source: string)
    requires OwnershipOk(sys) && ReportsOk(sys) && WithinLimit(sys, source) && Enabled(sys, step) && !IsQuiet(step)
    ensures WithinLimit(Apply(sys, step), source)
  {
    if step.Finish? && FinishSucceeds(sys, step.worker, step.now) {
      FinishKeepsLimit(sys, step.worker, step.now, step.at, source);
    } else if step.ClaimOne? || step.Create? || step.Finish? {
      CallKeepsLimit(sys, step, source);
    } else {
      AdminStepKeepsLimit(sys, step, source);
    }
  }

  lemma StepKeepsWithinLimit(sys: System, step: Step, source: string)
    requires OwnershipOk(sys) && ReportsOk(sys) && WithinLimit(sys, source)
    requires Enabled(sys, step) && KeepsLimit(sys, step, source)
    ensures WithinLimit(Apply(sys, step), source)
  {
    if IsQuiet(step) {
      QuietKeepsLimit(sys, step, source);
    } else {
      BusyStepKeepsLimit(sys, step, source);
    }
  }

  lemma RunStepKeepsLimit(states: seq<System>, steps: seq<Step>, k: nat, source: string)
    requires IsRun(states, steps) && k < |steps| && WithinLimit(states[k], source) && KeepsLimit(states[k], steps[k], source)
    ensures WithinLimit(states[k + 1], source)
  {
    RunsAreOwned(states, steps, k);
    RunsReport(states, steps, k);
    assert StepAt(states, steps, k);
    StepKeepsWithinLimit(states[k], steps[k], source);
  }

  /** From a state within the source's limit, every later state is, as long as that limit is not changed while
      the source is in use. Other sources' limits may change. */
  lemma {:induction false} RunsStayWithinLimits(states: seq<System>, steps: seq<Step>, j: nat, k: nat, source: string)
    requires IsRun(states, steps) && j <= k < |states| && WithinLimit(states[j], source)
    requires forall i :: j <= i < k ==> KeepsLimit(states[i], steps[i], source)
    ensures WithinLimit(states[k], source)
    decreases k
  {
    if j < k {
      RunsStayWithinLimits(states, steps, j, k - 1, source);
      RunStepKeepsLimit(states, steps, k - 1, source);
    }
  }

  /** A source that nobody uses is within its limit, whatever rule it has: so is every source at the start, and
      a new one whose rule is saved before its first webhook. */
  lemma UnusedIsWithinLimit(sys: System, source: string)
    requires IsUnused(sys, source)
    ensures WithinLimit(sys, source)
  {
  }

  // ---------- The last failure ----------

  /** In every run, a recorded failure dead-letters the webhook exactly when the failures have reached the limit
      of the rule that its worker loaded; otherwise the webhook waits for its retry time. */
  lemma FailuresAreJudgedByLoadedRule(states: seq<System>, steps: seq<Step>, k: nat)
    requires IsRun(states, steps) && k < |steps|
    requires steps[k].Finish? && FinishSucceeds(states[k], steps[k].worker, steps[k].now)
    requires states[k].workers[steps[k].worker].phase.result.status.Failed?
    ensures var w := states[k].workers[steps[k].worker];
            w.claim.id in states[k].store.webhooks && w.claim.id in states[k + 1].store.webhooks &&
            var before, after := states[k].store.webhooks[w.claim.id], states[k + 1].store.webhooks[w.claim.id];
            && after.failureCount == before.failureCount + 1
            && (after.status.DeadLettered? <==> after.failureCount >= MaxAttempts(w.phase.rule))
            && (after.status.Retrying? <==> after.failureCount < MaxAttempts(w.phase.rule))
  {
    RunsAreOwned(states, steps, k);
    RunsReport(states, steps, k);
    assert StepAt(states, steps, k);
    JudgedFailure(states[k], steps[k].worker, steps[k].now, steps[k].at);
  }

  lemma JudgedFailure(sys: System, worker: nat, now: int, at: int)
    requires OwnershipOk(sys) && ReportsOk(sys) && FinishSucceeds(sys, worker, now)
    requires sys.workers[worker].phase.result.status.Failed?
    ensures var w := sys.workers[worker];
            var before, after := sys.store.webhooks[w.claim.id], AfterFinish(sys, worker, at).store.webhooks[w.claim.id];
            && before == w.claim.webhook
            && after.failureCount == before.failureCount + 1
            && (after.status.DeadLettered? <==> after.failureCount >= MaxAttempts(w.phase.rule))
            && (after.status.Retrying? <==> after.failureCount < MaxAttempts(w.phase.rule))
  {
    var w := sys.workers[worker];
    assert WorkerOk(sys, w) && ReportOk(w);
  }

  /** While the source's limit stays as it is, that is exactly the M-th failure. */
  lemma DeadLetteredOnLastFailure(states: seq<System>, steps: seq<Step>, j: nat, k: nat)
    requires IsRun(states, steps) && j <= k < |steps|
    requires steps[k].Finish? && FinishSucceeds(states[k], steps[k].worker, steps[k].now)
    requires states[k].workers[steps[k].worker].phase.result.status.Failed?
    requires var source := states[k].workers[steps[k].worker].claim.webhook.source;
             WithinLimit(states[j], source) && forall i :: j <= i < k ==> KeepsLimit(states[i], steps[i], source)
    ensures var id := states[k].workers[steps[k].worker].claim.id;
            id in states[k].store.webhooks && id in states[k + 1].store.webhooks &&
            var before, after := states[k].store.webhooks[id], states[k + 1].store.webhooks[id];
            && after.failureCount == before.failureCount + 1
            && (after.status.DeadLettered? <==> after.failureCount == Limit(states[k].store, before.source))
            && (after.status.Retrying? <==> after.failureCount < Limit(states[k].store, before.source))
  {
    var w := states[k].workers[steps[k].worker];
    RunsStayWithinLimits(states, steps, j, k, w.claim.webhook.source);
    FailuresAreJudgedByLoadedRule(states, steps, k);
    RunsAreOwned(states, steps, k);
    RunsReport(states, steps, k);
    JudgedFailure(states[k], steps[k].worker, steps[k].now, steps[k].at);
    assert KnowsLimit(states[k].store, w) && BelowLimit(states[k].store, w.claim.id);
  }
}
