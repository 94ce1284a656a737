/** Who owns a webhook: claims, grants and pending attempts in every reachable state. */
module Ownership {
  import opened DeliveryModel
  import opened Transactions
  import opened StoreInvariant
  import opened Protocol

  /** The claim is the latest one of its webhook. */
  predicate Current(sys: System, claim: Claim) {
    claim.id in sys.store.webhooks && sys.store.webhooks[claim.id].leaseVersion == claim.webhook.leaseVersion
  }

  predicate ClaimOk(sys: System, claim: Claim) {
    && claim.id in sys.store.webhookIds
    && RowOk(claim.webhook)
    && claim.webhook.status.Processing?
    && (claim.id in sys.store.webhooks ==> claim.webhook.leaseVersion <= sys.store.webhooks[claim.id].leaseVersion)
    && (Current(sys, claim) ==> sys.store.webhooks[claim.id] == claim.webhook)
    && (sys.clock < claim.webhook.leaseUntil.value ==> Current(sys, claim))
  }

  predicate AttemptOk(sys: System, claim: Claim, attempt: nat) {
    && attempt in sys.openedUnder
    && attempt in sys.store.attemptIds
    && sys.openedUnder[attempt] == claim.webhook.leaseVersion
    && (Current(sys, claim) ==> IsOpenAttempt(sys.store, attempt, claim.id))
  }

  predicate WorkerOk(sys: System, w: Worker) {
    && ClaimOk(sys, w.claim)
    && w.Key() in sys.grants
    && sys.grants[w.Key()].leaseUntil == w.claim.webhook.leaseUntil.value
    && (w.phase.HasAttempt() ==> AttemptOk(sys, w.claim, w.phase.attempt))
    && (!w.phase.HasAttempt() && Current(sys, w.claim) ==> !HasOpenAttempt(sys.store, w.claim.id))
  }

  predicate WorkersOk(sys: System) {
    && (forall w :: w in sys.workers ==> WorkerOk(sys, sys.workers[w]))
    && (forall w1, w2 :: w1 in sys.workers && w2 in sys.workers && w1 != w2 ==> sys.workers[w1].Key() != sys.workers[w2].Key())
  }

  /** A pending attempt was created under the current lease version of its webhook. */
  predicate AttemptsOk(sys: System) {
    forall a :: a in sys.store.attempts ==>
      && a in sys.openedUnder
      && sys.store.attempts[a].webhookId in sys.store.webhooks
      && (sys.store.attempts[a].status.InFlight? ==>
            sys.openedUnder[a] == sys.store.webhooks[sys.store.attempts[a].webhookId].leaseVersion)
  }

  predicate GrantOk(sys: System, k: (nat, int))
    requires k in sys.grants
  {
    var g := sys.grants[k];
    && k.0 in sys.store.webhookIds
    && k.1 >= 1
    && g.now <= g.at <= sys.clock
    && (k.0 in sys.store.webhooks ==> k.1 <= sys.store.webhooks[k.0].leaseVersion)
    && (g.takeover ==> (k.0, k.1 - 1) in sys.grants && sys.grants[(k.0, k.1 - 1)].leaseUntil <= g.now)
  }

  predicate RowGranted(sys: System, id: nat)
    requires id in sys.store.webhooks
  {
    var row := sys.store.webhooks[id];
    && (forall v :: 1 <= v <= row.leaseVersion ==> (id, v) in sys.grants)
    && (row.status.Processing? ==>
          row.leaseUntil.Some? && row.leaseVersion >= 1
          && sys.grants[(id, row.leaseVersion)].leaseUntil == row.leaseUntil.value)
  }

  /** Grants are numbered 1, 2, 3, ... per webhook, up to the version in its row. */
  predicate GrantsOk(sys: System) {
    && (forall k :: k in sys.grants ==> GrantOk(sys, k))
    && (forall id :: id in sys.store.webhooks ==> RowGranted(sys, id))
  }

  predicate OwnershipOk(sys: System) {
    StoreOk(sys.store) && WorkersOk(sys) && AttemptsOk(sys) && GrantsOk(sys)
  }

  // ---------- Steps that leave webhooks and attempts alone ----------

  predicate SameRows(sys: System, next: System) {
    && next.store.webhooks == sys.store.webhooks
    && next.store.attempts == sys.store.attempts
    && next.store.webhookIds == sys.store.webhookIds
    && next.store.attemptIds == sys.store.attemptIds
    && next.grants == sys.grants
    && next.openedUnder == sys.openedUnder
  }

  /** No worker gains a claim or an attempt. */
  predicate NoNewWork(sys: System, next: System) {
    forall w :: w in next.workers ==>
      && w in sys.workers
      && next.workers[w].claim == sys.workers[w].claim
      && (next.workers[w].phase.HasAttempt() <==> sys.workers[w].phase.HasAttempt())
      && (next.workers[w].phase.HasAttempt() ==> next.workers[w].phase.attempt == sys.workers[w].phase.attempt)
  }

  /** Steps of one worker that touch no webhook and no attempt. */
  predicate IsPrivate(step: Step) {
    step.LoadRule? || step.Send? || step.Reply? || step.Unsent? || step.Decide? || step.Crash?
  }

  predicate IsRuleEdit(step: Step) {
    step.SaveRule? || step.SetPaused? || step.DeleteRule?
  }

  predicate IsQuiet(step: Step) {
    step.Tick? || IsPrivate(step) || IsRuleEdit(step)
  }

  lemma PrivateSteps(sys: System, step: Step)
    requires Enabled(sys, step) && IsPrivate(step)
    ensures SameRows(sys, Apply(sys, step)) && NoNewWork(sys, Apply(sys, step)) && sys.clock == Apply(sys, step).clock
  {
  }

  /** Steps other than rule edits touch no rule and log nothing about rules. */
  lemma OtherStepsKeepRules(sys: System, step: Step)
    requires Enabled(sys, step) && !IsRuleEdit(step)
    ensures Apply(sys, step).store.rules == sys.store.rules
    ensures var log := Apply(sys, step).log;
            || log == sys.log
            || (|log| > 0 && log == sys.log + [log[|log| - 1]] && !log[|log| - 1].RuleAdded? && !log[|log| - 1].PauseSet? && !log[|log| - 1].RuleRemoved?)
  {
  }

  lemma QuietSteps(sys: System, step: Step)
    requires Enabled(sys, step) && IsQuiet(step)
    ensures SameRows(sys, Apply(sys, step)) && NoNewWork(sys, Apply(sys, step)) && sys.clock <= Apply(sys, step).clock
  {
    if IsPrivate(step) {
      PrivateSteps(sys, step);
    }
  }

  /** No claim is granted, and a row stays processing only under the same lease. */
  predicate SameLeases(sys: System, next: System) {
    && next.grants == sys.grants
    && sys.clock <= next.clock
    && sys.store.webhookIds <= next.store.webhookIds
    && forall id :: id in next.store.webhooks ==>
         && id in sys.store.webhooks
         && next.store.webhooks[id].leaseVersion == sys.store.webhooks[id].leaseVersion
         && (next.store.webhooks[id].status.Processing? ==> next.store.webhooks[id] == sys.store.webhooks[id])
  }

  lemma SameLeasesKeepGrants(sys: System, next: System)
    requires GrantsOk(sys) && SameLeases(sys, next)
    ensures GrantsOk(next)
  {
    forall k | k in next.grants ensures GrantOk(next, k) {
      assert GrantOk(sys, k);
    }
    forall id | id in next.store.webhooks ensures RowGranted(next, id) {
      assert RowGranted(sys, id);
    }
  }

  lemma QuietKeepsOwnership(sys: System, next: System)
    requires OwnershipOk(sys) && SameRows(sys, next) && NoNewWork(sys, next) && sys.clock <= next.clock
    ensures OwnershipOk(next)
  {
    forall a | a in next.store.attempts ensures Owned(next.store, a) {
      assert Owned(sys.store, a);
    }
    forall w | w in next.workers ensures WorkerOk(next, next.workers[w]) {
      assert WorkerOk(sys, sys.workers[w]);
    }
    SameLeasesKeepGrants(sys, next);
  }

  // ---------- Steps that change webhooks or attempts ----------

  lemma ReceiveKeepsOwnership(sys: System, id: nat, webhook: Webhook)
    requires OwnershipOk(sys) && id !in sys.store.webhookIds
    requires RowOk(webhook) && webhook.leaseVersion == 0
    ensures OwnershipOk(AfterReceive(sys, id, webhook))
  {
    var next := AfterReceive(sys, id, webhook);
    SavedKeepsStoreOk(sys.store, id, webhook);
    forall w | w in next.workers ensures WorkerOk(next, next.workers[w]) {
      assert WorkerOk(sys, sys.workers[w]);
    }
    forall k | k in next.grants ensures GrantOk(next, k) {
      assert GrantOk(sys, k);
    }
    forall i | i in next.store.webhooks ensures RowGranted(next, i) {
      assert i != id ==> RowGranted(sys, i);
    }
  }

  lemma ClaimKeepsOwnership(sys: System, worker: nat, id: nat, now: int, leaseUntil: int, pausedSeen: set<string>)
    requires OwnershipOk(sys) && CanClaim(sys, worker, id, now, pausedSeen)
    ensures OwnershipOk(AfterClaim(sys, worker, id, now, leaseUntil))
  {
    ClaimedKeepsStoreOk(sys.store, {id}, now, leaseUntil);
    ClaimKeepsWorkers(sys, worker, id, now, leaseUntil, pausedSeen);
    ClaimKeepsGrants(sys, worker, id, now, leaseUntil, pausedSeen);
    ClaimKeepsAttempts(sys, worker, id, now, leaseUntil, pausedSeen);
  }

  lemma ClaimKeepsAttempts(sys: System, worker: nat, id: nat, now: int, leaseUntil: int, pausedSeen: set<string>)
    requires OwnershipOk(sys) && CanClaim(sys, worker, id, now, pausedSeen)
    ensures AttemptsOk(AfterClaim(sys, worker, id, now, leaseUntil))
  {
  }

  lemma ClaimKeepsGrants(sys: System, worker: nat, id: nat, now: int, leaseUntil: int, pausedSeen: set<string>)
    requires OwnershipOk(sys) && CanClaim(sys, worker, id, now, pausedSeen)
    ensures GrantsOk(AfterClaim(sys, worker, id, now, leaseUntil))
  {
    var next := AfterClaim(sys, worker, id, now, leaseUntil);
    assert RowGranted(sys, id);
    assert RowOk(sys.store.webhooks[id]);
    forall k | k in next.grants ensures GrantOk(next, k) {
      assert k in sys.grants ==> GrantOk(sys, k);
    }
    forall i | i in next.store.webhooks ensures RowGranted(next, i) {
      assert RowGranted(sys, i);
    }
  }

  lemma ClaimKeepsWorkers(sys: System, worker: nat, id: nat, now: int, leaseUntil: int, pausedSeen: set<string>)
    requires OwnershipOk(sys) && CanClaim(sys, worker, id, now, pausedSeen)
    ensures WorkersOk(AfterClaim(sys, worker, id, now, leaseUntil))
  {
    var next := AfterClaim(sys, worker, id, now, leaseUntil);
    var row := sys.store.webhooks[id];
    assert RowOk(row);
    assert !HasOpenAttempt(next.store, id) by {
      ClaimedKeepsStoreOk(sys.store, {id}, now, leaseUntil);
    }
    forall w | w in next.workers ensures WorkerOk(next, next.workers[w]) {
      if w != worker {
        ClaimKeepsOtherWorker(sys, worker, id, now, leaseUntil, pausedSeen, w);
      }
    }
    forall w | w in sys.workers ensures sys.workers[w].Key() != (id, row.leaseVersion + 1) {
      assert WorkerOk(sys, sys.workers[w]);
    }
  }

  lemma ClaimKeepsOtherWorker(sys: System, worker: nat, id: nat, now: int, leaseUntil: int, pausedSeen: set<string>, w: nat)
    requires OwnershipOk(sys) && CanClaim(sys, worker, id, now, pausedSeen) && w in sys.workers && w != worker
    ensures WorkerOk(AfterClaim(sys, worker, id, now, leaseUntil), sys.workers[w])
  {
    assert WorkerOk(sys, sys.workers[w]);
    assert RowOk(sys.store.webhooks[id]);
    assert sys.workers[w].Key() != (id, sys.store.webhooks[id].leaseVersion + 1);
  }

  lemma CreateKeepsOwnership(sys: System, worker: nat, attempt: nat, now: int, at: int)
    requires OwnershipOk(sys) && CreateSucceeds(sys, worker, attempt, now)
    ensures OwnershipOk(AfterCreate(sys, worker, attempt, at))
  {
    var next := AfterCreate(sys, worker, attempt, at);
    var w := sys.workers[worker];
    CreatedKeepsStoreOk(sys.store, w.claim, Forwarding.Target(w.phase.rule), attempt, now, at);
    CreateKeepsWorkers(sys, worker, attempt, now, at);
    SameLeasesKeepGrants(sys, next);
  }

  lemma CreateKeepsWorkers(sys: System, worker: nat, attempt: nat, now: int, at: int)
    requires OwnershipOk(sys) && CreateSucceeds(sys, worker, attempt, now)
    ensures WorkersOk(AfterCreate(sys, worker, attempt, at))
  {
    var next := AfterCreate(sys, worker, attempt, at);
    forall w | w in next.workers ensures WorkerOk(next, next.workers[w]) {
      CreateKeepsWorker(sys, worker, attempt, now, at, w);
    }
  }

  lemma CreateKeepsWorker(sys: System, worker: nat, attempt: nat, now: int, at: int, w: nat)
    requires OwnershipOk(sys) && CreateSucceeds(sys, worker, attempt, now) && w in sys.workers
    ensures WorkerOk(AfterCreate(sys, worker, attempt, at), AfterCreate(sys, worker, attempt, at).workers[w])
  {
    assert WorkerOk(sys, sys.workers[w]);
    assert w != worker ==> sys.workers[w].Key() != sys.workers[worker].Key();
  }

  lemma FinishKeepsOwnership(sys: System, worker: nat, now: int, at: int)
    requires OwnershipOk(sys) && FinishSucceeds(sys, worker, now)
    ensures OwnershipOk(AfterFinish(sys, worker, at))
  {
    var next := AfterFinish(sys, worker, at);
    var w := sys.workers[worker];
    FinishedKeepsStoreOk(sys.store, w.claim, w.phase.attempt, w.phase.result, now, at);
    FinishKeepsWorkers(sys, worker, now, at);
    FinishKeepsAttempts(sys, worker, now, at);
    FinishKeepsLeases(sys, worker, now, at);
    SameLeasesKeepGrants(sys, next);
  }

  lemma FinishKeepsLeases(sys: System, worker: nat, now: int, at: int)
    requires OwnershipOk(sys) && FinishSucceeds(sys, worker, now)
    ensures SameLeases(sys, AfterFinish(sys, worker, at))
  {
  }

  lemma FinishKeepsAttempts(sys: System, worker: nat, now: int, at: int)
    requires OwnershipOk(sys) && FinishSucceeds(sys, worker, now)
    ensures AttemptsOk(AfterFinish(sys, worker, at))
  {
  }

  lemma FinishKeepsWorkers(sys: System, worker: nat, now: int, at: int)
    requires OwnershipOk(sys) && FinishSucceeds(sys, worker, now)
    ensures WorkersOk(AfterFinish(sys, worker, at))
  {
    var next := AfterFinish(sys, worker, at);
    forall w | w in next.workers ensures WorkerOk(next, next.workers[w]) {
      FinishKeepsWorker(sys, worker, now, at, w);
    }
  }

  lemma FinishKeepsWorker(sys: System, worker: nat, now: int, at: int, w: nat)
    requires OwnershipOk(sys) && FinishSucceeds(sys, worker, now) && w in sys.workers && w != worker
    ensures WorkerOk(AfterFinish(sys, worker, at), sys.workers[w])
  {
    assert WorkerOk(sys, sys.workers[worker]);
    assert WorkerOk(sys, sys.workers[w]);
    assert sys.workers[w].Key() != sys.workers[worker].Key();
  }

  lemma RequeueKeepsOwnership(sys: System, ids: set<nat>, inBulk: bool)
    requires OwnershipOk(sys)
    requires forall id :: id in ids ==> id in sys.store.webhooks && !sys.store.webhooks[id].status.Processing?
    ensures OwnershipOk(AfterRequeue(sys, ids, inBulk))
  {
    var next := AfterRequeue(sys, ids, inBulk);
    RequeuedKeepsStoreOk(sys.store, ids);
    forall w | w in next.workers ensures WorkerOk(next, next.workers[w]) {
      assert WorkerOk(sys, sys.workers[w]);
    }
    SameLeasesKeepGrants(sys, next);
  }

  lemma RemoveKeepsOwnership(sys: System, ids: set<nat>)
    requires OwnershipOk(sys)
    requires forall id :: id in ids ==> id in sys.store.webhooks && !sys.store.webhooks[id].status.Processing?
    ensures OwnershipOk(AfterRemove(sys, ids))
  {
    var next := AfterRemove(sys, ids);
    RemovedKeepsStoreOk(sys.store, ids);
    forall w | w in next.workers ensures WorkerOk(next, next.workers[w]) {
      assert WorkerOk(sys, sys.workers[w]);
    }
    SameLeasesKeepGrants(sys, next);
  }

  lemma DropKeepsOwnership(sys: System, worker: nat)
    requires OwnershipOk(sys) && At(sys, worker)
    ensures OwnershipOk(Dropped(sys, worker))
  {
    QuietKeepsOwnership(sys, Dropped(sys, worker));
  }

  lemma StepKeepsOwnership(sys: System, step: Step)
    requires OwnershipOk(sys) && Enabled(sys, step)
    ensures OwnershipOk(Apply(sys, step))
  {
    if IsQuiet(step) {
      QuietSteps(sys, step);
      QuietKeepsOwnership(sys, Apply(sys, step));
    } else {
      BusyStepKeepsOwnership(sys, step);
    }
  }

  lemma BusyStepKeepsOwnership(sys: System, step: Step)
    requires OwnershipOk(sys) && Enabled(sys, step) && !IsQuiet(step)
    ensures OwnershipOk(Apply(sys, step))
  {
    match step
    case Receive(id, source, headers, payload, receivedAt) =>
      ReceiveKeepsOwnership(sys, id, NewWebhook(source, headers, payload, receivedAt));
    case ClaimOne(w, id, now, leaseUntil, pausedSeen) => ClaimKeepsOwnership(sys, w, id, now, leaseUntil, pausedSeen);
    case Create(w, attempt, now, at) =>
      if CreateSucceeds(sys, w, attempt, now) { CreateKeepsOwnership(sys, w, attempt, now, at); } else { DropKeepsOwnership(sys, w); }
    case Finish(w, now, at) =>
      if FinishSucceeds(sys, w, now) { FinishKeepsOwnership(sys, w, now, at); } else { DropKeepsOwnership(sys, w); }
    case Reset(id) => if IdleOutcome(sys.store, id).Pass? { RequeueKeepsOwnership(sys, {id}, false); }
    case Delete(id) => if IdleOutcome(sys.store, id).Pass? { RemoveKeepsOwnership(sys, {id}); }
    case BulkReplay(ids) => RequeueKeepsOwnership(sys, ids, true);
    case Cleanup(ids, _) => RemoveKeepsOwnership(sys, ids);
  }
}
