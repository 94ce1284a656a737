/** A webhook row is what its history says: failure count, saved response and success are
    recomputed from the log of finished attempts and requeues. */
module History {
  import opened Wrappers
  import opened DeliveryModel
  import opened Transactions
  import opened Forwarding
  import opened Protocol
  import opened Ownership
  import opened Reports
  import opened TimedExclusion

  // ---------- Reading the log ----------

  /** The attempts that failed since the webhook was received, requeued, delivered or skipped. */
  function FailedRun(log: seq<Event>, id: nat): set<nat> {
    if log == [] then {}
    else
      var earlier := FailedRun(log[..|log| - 1], id);
      match log[|log| - 1]
      case Received(i) => if i == id then {} else earlier
      case Requeued(ids, _) => if id in ids then {} else earlier
      case Finished(i, _, attempt, result) =>
        if i != id then earlier
        else if result.status.Failed? then earlier + {attempt}
        else if result.status.Cancelled? then earlier
        else {}
      case _ => earlier
  }

  /** The body of the latest attempt that finished and was not skipped, since the last reset. */
  function LatestBody(log: seq<Event>, id: nat): Bytes {
    if log == [] then []
    else
      var earlier := LatestBody(log[..|log| - 1], id);
      match log[|log| - 1]
      case Received(i) => if i == id then [] else earlier
      case Requeued(ids, _) => if id in ids then [] else earlier
      case Finished(i, _, _, result) => if i == id && !result.status.NotForwarded? then result.response.body else earlier
      case _ => earlier
  }

  datatype Verdict = Verdict(version: int, attempt: nat, result: DeliveryResult)

  /** The last finished attempt of the current epoch: since the webhook was received or requeued. */
  function LastVerdict(log: seq<Event>, id: nat): Option<Verdict> {
    if log == [] then None
    else
      var earlier := LastVerdict(log[..|log| - 1], id);
      match log[|log| - 1]
      case Received(i) => if i == id then None else earlier
      case Requeued(ids, _) => if id in ids then None else earlier
      case Finished(i, version, attempt, result) => if i == id then Some(Verdict(version, attempt, result)) else earlier
      case _ => earlier
  }

  predicate IsFinal2xx(v: Verdict) {
    v.result.status.Succeeded? && IsSuccessStatus(v.result.response.httpStatus)
  }

  predicate IsDeadLetter(v: Verdict) {
    v.result.status.Failed? && v.result.nextRetryAt.None?
  }

  // ---------- Rows agree with the log ----------

  /** The attempt table still holds the attempt as it was reported. */
  predicate Recorded(s: Store, id: nat, attempt: nat, result: DeliveryResult) {
    && attempt in s.attempts
    && s.attempts[attempt].webhookId == id
    && s.attempts[attempt].status == result.status
    && s.attempts[attempt].response == result.response
    && IsFinal(result.status)
  }

  predicate FailedAttempt(s: Store, id: nat, attempt: nat) {
    attempt in s.attempts && s.attempts[attempt].webhookId == id && s.attempts[attempt].status.Failed?
  }

  predicate RowAgrees(s: Store, log: seq<Event>, id: nat)
    requires id in s.webhooks
  {
    var row, verdict := s.webhooks[id], LastVerdict(log, id);
    && row.failureCount == |FailedRun(log, id)|
    && row.response == LatestBody(log, id)
    && (forall a :: a in FailedRun(log, id) ==> FailedAttempt(s, id, a))
    && (verdict.Some? ==> Recorded(s, id, verdict.value.attempt, verdict.value.result))
    && (row.status.Delivered? ==> verdict.Some? && IsFinal2xx(verdict.value))
    && (row.status.DeadLettered? ==> verdict.Some? && IsDeadLetter(verdict.value))
  }

  predicate HistoryOk(sys: System) {
    forall id :: id in sys.store.webhooks ==> RowAgrees(sys.store, sys.log, id)
  }

  lemma LogTail(log: seq<Event>, event: Event)
    ensures (log + [event])[..|log + [event]| - 1] == log
  {
  }

  /** An event that concerns no webhook's verdicts. */
  predicate Neutral(event: Event) {
    event.Opened? || event.Removed? || event.RuleAdded? || event.PauseSet? || event.RuleRemoved?
  }

  /** Same history for `id`, same row, and its closed attempts still there. */
  lemma SameRowAgrees(sys: System, next: System, id: nat)
    requires id in sys.store.webhooks && RowAgrees(sys.store, sys.log, id)
    requires id in next.store.webhooks
    requires var row, before := next.store.webhooks[id], sys.store.webhooks[id];
             && row.failureCount == before.failureCount
             && row.response == before.response
             && (row.status == before.status || row.status.Processing?)
    requires FailedRun(next.log, id) == FailedRun(sys.log, id)
    requires LatestBody(next.log, id) == LatestBody(sys.log, id)
    requires LastVerdict(next.log, id) == LastVerdict(sys.log, id)
    requires forall a :: a in sys.store.attempts && sys.store.attempts[a].webhookId == id && !sys.store.attempts[a].status.InFlight? ==>
               a in next.store.attempts && next.store.attempts[a] == sys.store.attempts[a]
    ensures RowAgrees(next.store, next.log, id)
  {
  }

  lemma QuietKeepsHistory(sys: System, step: Step)
    requires OwnershipOk(sys) && HistoryOk(sys) && Enabled(sys, step) && IsQuiet(step)
    ensures HistoryOk(Apply(sys, step))
  {
    QuietSteps(sys, step);
    QuietLog(sys, step);
    NeutralKeepsHistory(sys, Apply(sys, step));
  }

  lemma NeutralKeepsHistory(sys: System, next: System)
    requires HistoryOk(sys)
    requires next.store.webhooks == sys.store.webhooks && next.store.attempts == sys.store.attempts
    requires next.log == sys.log || (|next.log| > 0 && Neutral(next.log[|next.log| - 1]) && next.log == sys.log + [next.log[|next.log| - 1]])
    ensures HistoryOk(next)
  {
    if next.log != sys.log {
      LogTail(sys.log, next.log[|next.log| - 1]);
    }
    forall id | id in next.store.webhooks ensures RowAgrees(next.store, next.log, id) {
      SameRowAgrees(sys, next, id);
    }
  }

  lemma QuietLog(sys: System, step: Step)
    requires Enabled(sys, step) && IsQuiet(step)
    ensures var log := Apply(sys, step).log; log == sys.log || (|log| > 0 && Neutral(log[|log| - 1]) && log == sys.log + [log[|log| - 1]])
  {
  }

  lemma ReceiveKeepsHistory(sys: System, id: nat, webhook: Webhook)
    requires OwnershipOk(sys) && HistoryOk(sys) && id !in sys.store.webhookIds
    requires webhook.failureCount == 0 && webhook.response == [] && webhook.status.Pending?
    ensures HistoryOk(AfterReceive(sys, id, webhook))
  {
    var next := AfterReceive(sys, id, webhook);
    LogTail(sys.log, Received(id));
    forall i | i in next.store.webhooks ensures RowAgrees(next.store, next.log, i) {
      if i != id {
        SameRowAgrees(sys, next, i);
      }
    }
  }

  lemma ClaimKeepsHistory(sys: System, worker: nat, id: nat, now: int, leaseUntil: int)
    requires OwnershipOk(sys) && HistoryOk(sys) && id in sys.store.webhooks
    ensures HistoryOk(AfterClaim(sys, worker, id, now, leaseUntil))
  {
    var next := AfterClaim(sys, worker, id, now, leaseUntil);
    forall i | i in next.store.webhooks ensures RowAgrees(next.store, next.log, i) {
      SameRowAgrees(sys, next, i);
    }
  }

  lemma CreateKeepsHistory(sys: System, worker: nat, attempt: nat, now: int, at: int)
    requires OwnershipOk(sys) && HistoryOk(sys) && CreateSucceeds(sys, worker, attempt, now)
    ensures HistoryOk(AfterCreate(sys, worker, attempt, at))
  {
    var next := AfterCreate(sys, worker, attempt, at);
    LogTail(sys.log, next.log[|sys.log|]);
    forall i | i in next.store.webhooks ensures RowAgrees(next.store, next.log, i) {
      SameRowAgrees(sys, next, i);
    }
  }

  lemma RequeueKeepsHistory(sys: System, ids: set<nat>, inBulk: bool)
    requires OwnershipOk(sys) && HistoryOk(sys)
    ensures HistoryOk(AfterRequeue(sys, ids, inBulk))
  {
    var next := AfterRequeue(sys, ids, inBulk);
    LogTail(sys.log, Requeued(ids, inBulk));
    forall i | i in next.store.webhooks ensures RowAgrees(next.store, next.log, i) {
      if i !in ids {
        SameRowAgrees(sys, next, i);
      }
    }
  }

  lemma RemoveKeepsHistory(sys: System, ids: set<nat>)
    requires OwnershipOk(sys) && HistoryOk(sys)
    ensures HistoryOk(AfterRemove(sys, ids))
  {
    var next := AfterRemove(sys, ids);
    LogTail(sys.log, Removed(ids));
    forall i | i in next.store.webhooks ensures RowAgrees(next.store, next.log, i) {
      SameRowAgrees(sys, next, i);
    }
  }

  lemma FinishKeepsHistory(sys: System, worker: nat, now: int, at: int)
    requires OwnershipOk(sys) && HistoryOk(sys) && ReportsOk(sys) && FinishSucceeds(sys, worker, now)
    ensures HistoryOk(AfterFinish(sys, worker, at))
  {
    var next := AfterFinish(sys, worker, at);
    var w := sys.workers[worker];
    assert ReportOk(w);
    assert forall a :: IsOpenAttempt(sys.store, a, w.claim.id) ==> a == w.phase.attempt;
    FinishKeepsRowsAgreeing(sys, next, w.claim, w.phase.attempt, w.phase.result, at);
  }

  /** The finished row against the log with the finish appended, and every other row as before. */
  lemma FinishKeepsRowsAgreeing(sys: System, next: System, claim: Claim, attempt: nat, result: DeliveryResult, at: int)
    requires HistoryOk(sys)
    requires claim.id in sys.store.webhooks && IsOpenAttempt(sys.store, attempt, claim.id)
    requires IsFinal(result.status) && (result.status.Succeeded? ==> IsSuccessStatus(result.response.httpStatus))
    requires next.store == FinishedStore(sys.store, claim, attempt, result, at)
    requires next.log == sys.log + [Finished(claim.id, claim.webhook.leaseVersion, attempt, result)]
    ensures HistoryOk(next)
  {
    LogTail(sys.log, Finished(claim.id, claim.webhook.leaseVersion, attempt, result));
    forall i | i in next.store.webhooks ensures RowAgrees(next.store, next.log, i) {
      assert RowAgrees(sys.store, sys.log, i);
      if i != claim.id {
        SameRowAgrees(sys, next, i);
      } else {
        var run := FailedRun(sys.log, i);
        assert attempt !in run;
        assert |run + {attempt}| == |run| + 1;
      }
    }
  }

  lemma StepKeepsHistory(sys: System, step: Step)
    requires OwnershipOk(sys) && ReportsOk(sys) && HistoryOk(sys) && Enabled(sys, step)
    ensures HistoryOk(Apply(sys, step))
  {
    if IsQuiet(step) {
      QuietKeepsHistory(sys, step);
    } else {
      BusyStepKeepsHistory(sys, step);
    }
  }

  lemma BusyStepKeepsHistory(sys: System, step: Step)
    requires OwnershipOk(sys) && ReportsOk(sys) && HistoryOk(sys) && Enabled(sys, step) && !IsQuiet(step)
    ensures HistoryOk(Apply(sys, step))
  {
    match step
    case Receive(id, source, headers, payload, receivedAt) =>
      ReceiveKeepsHistory(sys, id, NewWebhook(source, headers, payload, receivedAt));
    case ClaimOne(w, id, now, leaseUntil, pausedSeen) => ClaimKeepsHistory(sys, w, id, now, leaseUntil);
    case Create(w, attempt, now, at) =>
      if CreateSucceeds(sys, w, attempt, now) { CreateKeepsHistory(sys, w, attempt, now, at); }
    case Finish(w, now, at) =>
      if FinishSucceeds(sys, w, now) { FinishKeepsHistory(sys, w, now, at); }
    case Reset(id) => RequeueKeepsHistory(sys, {id}, false);
    case Delete(id) => RemoveKeepsHistory(sys, {id});
    case BulkReplay(ids) => RequeueKeepsHistory(sys, ids, true);
    case Cleanup(ids, _) => RemoveKeepsHistory(sys, ids);
  }

  // ---------- Whole runs ----------

  lemma {:induction false} RunsKeepHistory(states: seq<System>, steps: seq<Step>, k: nat)
    requires IsRun(states, steps) && k < |states|
    ensures HistoryOk(states[k])
  {
    if k > 0 {
      RunsKeepHistory(states, steps, k - 1);
      RunsAreOwned(states, steps, k - 1);
      RunsReport(states, steps, k - 1);
      assert StepAt(states, steps, k - 1);
      StepKeepsHistory(states[k - 1], steps[k - 1]);
    }
  }

  /** The failure count is the number of attempts recorded as failed since the webhook was last received,
      requeued, delivered or skipped. */
  lemma FailureCountIsHistory(states: seq<System>, steps: seq<Step>, k: nat, id: nat)
    requires IsRun(states, steps) && k < |states| && id in states[k].store.webhooks
    ensures var failed := FailedRun(states[k].log, id);
            && states[k].store.webhooks[id].failureCount == |failed|
            && forall a :: a in failed ==> FailedAttempt(states[k].store, id, a)
  {
    RunsKeepHistory(states, steps, k);
    assert RowAgrees(states[k].store, states[k].log, id);
  }

  /** The saved response is the body of the latest attempt that finished and was not skipped since the
      last reset, and a delivered webhook has a recorded 2xx success in its current epoch. */
  lemma ResponseAndSuccessAreJustified(states: seq<System>, steps: seq<Step>, k: nat, id: nat)
    requires IsRun(states, steps) && k < |states| && id in states[k].store.webhooks
    ensures var sys := states[k];
            var row, verdict := sys.store.webhooks[id], LastVerdict(sys.log, id);
            && row.response == LatestBody(sys.log, id)
            && (row.status.Delivered? ==>
                  && verdict.Some?
                  && verdict.value.attempt in sys.store.attempts
                  && sys.store.attempts[verdict.value.attempt].webhookId == id
                  && sys.store.attempts[verdict.value.attempt].status.Succeeded?
                  && 200 <= sys.store.attempts[verdict.value.attempt].response.httpStatus < 300)
  {
    RunsKeepHistory(states, steps, k);
    assert RowAgrees(states[k].store, states[k].log, id);
  }

  /** A dead-lettered webhook's last verdict in its current epoch is a recorded failure that asked for no retry. */
  lemma DeadLettersAreJustified(states: seq<System>, steps: seq<Step>, k: nat, id: nat)
    requires IsRun(states, steps) && k < |states| && id in states[k].store.webhooks
    requires states[k].store.webhooks[id].status.DeadLettered?
    ensures var sys, verdict := states[k], LastVerdict(states[k].log, id);
            && verdict.Some?
            && verdict.value.result.status.Failed? && verdict.value.result.nextRetryAt.None?
            && verdict.value.attempt in sys.store.attempts
            && sys.store.attempts[verdict.value.attempt].webhookId == id
            && sys.store.attempts[verdict.value.attempt].status.Failed?
  {
    RunsKeepHistory(states, steps, k);
    assert RowAgrees(states[k].store, states[k].log, id);
  }
}
