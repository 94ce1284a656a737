/** HTTP requests of different claims of one webhook never overlap in time. */
module TimedExclusion {
  import opened Wrappers
  import opened DeliveryModel
  import opened Transactions
  import opened Forwarding
  import opened Protocol
  import opened Ownership

  predicate IsOf(r: Request, key: (nat, int)) {
    (r.webhook, r.version) == key
  }

  /** While a request is open its claim is the latest of a webhook that is still processing. */
  predicate OpenRequestOk(sys: System, i: nat)
    requires i < |sys.requests|
  {
    var r := sys.requests[i];
    && sys.clock <= r.deadline
    && r.webhook in sys.store.webhooks
    && sys.store.webhooks[r.webhook].leaseVersion == r.version
    && sys.store.webhooks[r.webhook].status.Processing?
    && forall w :: w in sys.workers && IsOf(r, sys.workers[w].Key()) ==>
         sys.workers[w].phase.Requesting? && sys.workers[w].phase.request == i
  }

  predicate RequestOk(sys: System, i: nat)
    requires i < |sys.requests|
  {
    var r := sys.requests[i];
    && r.webhook in sys.store.webhookIds
    && (r.webhook in sys.store.webhooks ==> r.version <= sys.store.webhooks[r.webhook].leaseVersion)
    && (r.webhook, r.version) in sys.grants
    && r.deadline + FINALIZATION_RESERVE <= sys.grants[(r.webhook, r.version)].leaseUntil
    && r.start <= r.deadline
    && r.start <= sys.clock
    && (r.stop.Some? ==> r.start <= r.stop.value <= r.deadline && r.stop.value <= sys.clock)
    && (r.stop.None? ==> OpenRequestOk(sys, i))
  }

  /** Two requests for one webhook belong to different claims, and the earlier one has ended. */
  predicate Disjoint(r1: Request, r2: Request) {
    r1.webhook == r2.webhook ==> r1.version < r2.version && r1.stop.Some? && r1.stop.value <= r2.start
  }

  predicate WorkerRequestOk(sys: System, w: Worker) {
    && (w.phase.BeforeRequest() ==> forall i :: 0 <= i < |sys.requests| ==> !IsOf(sys.requests[i], w.Key()))
    && (w.phase.Requesting? ==>
          && w.phase.request < |sys.requests|
          && IsOf(sys.requests[w.phase.request], w.Key())
          && sys.requests[w.phase.request].stop.None?)
  }

  predicate RequestsOk(sys: System) {
    && (forall i :: 0 <= i < |sys.requests| ==> RequestOk(sys, i))
    && (forall i, j :: 0 <= i < j < |sys.requests| ==> Disjoint(sys.requests[i], sys.requests[j]))
    && (forall w :: w in sys.workers ==> WorkerRequestOk(sys, sys.workers[w]))
  }

  // ---------- Steps that start or end no request ----------

  /** Workers only leave, keep their place, or move on without touching a request. */
  predicate NoRequestMoves(sys: System, next: System) {
    && next.requests == sys.requests
    && forall w :: w in next.workers ==>
         && w in sys.workers
         && next.workers[w].claim == sys.workers[w].claim
         && (next.workers[w].phase.BeforeRequest() ==> sys.workers[w].phase.BeforeRequest())
         && (next.workers[w].phase.Requesting? <==> sys.workers[w].phase.Requesting?)
         && (next.workers[w].phase.Requesting? ==> next.workers[w].phase.request == sys.workers[w].phase.request)
  }

  /** A webhook with an open request keeps its row. */
  predicate OpenRowsKept(sys: System, next: System) {
    && sys.store.webhookIds <= next.store.webhookIds
    && next.grants == sys.grants
    && (forall id :: id in next.store.webhooks && id in sys.store.webhookIds ==>
          id in sys.store.webhooks && next.store.webhooks[id].leaseVersion == sys.store.webhooks[id].leaseVersion)
    && (forall i :: 0 <= i < |sys.requests| && sys.requests[i].stop.None? ==>
          && sys.requests[i].webhook in sys.store.webhooks
          && sys.requests[i].webhook in next.store.webhooks
          && next.store.webhooks[sys.requests[i].webhook] == sys.store.webhooks[sys.requests[i].webhook])
  }

  lemma IdleKeepsRequests(sys: System, next: System)
    requires RequestsOk(sys) && NoRequestMoves(sys, next) && OpenRowsKept(sys, next)
    requires sys.clock <= next.clock
    requires forall i :: 0 <= i < |sys.requests| && sys.requests[i].stop.None? ==> next.clock <= sys.requests[i].deadline
    ensures RequestsOk(next)
  {
    forall i | 0 <= i < |next.requests| ensures RequestOk(next, i) {
      assert RequestOk(sys, i);
    }
    forall w | w in next.workers ensures WorkerRequestOk(next, next.workers[w]) {
      assert WorkerRequestOk(sys, sys.workers[w]);
    }
  }

  // ---------- Starting and ending a request ----------

  lemma SendKeepsRequests(sys: System, worker: nat, timeout: int)
    requires OwnershipOk(sys) && RequestsOk(sys) && CanSend(sys, worker, timeout)
    ensures RequestsOk(AfterSend(sys, worker, timeout))
  {
    var next := AfterSend(sys, worker, timeout);
    SendKeepsEach(sys, worker, timeout);
    SendKeepsDisjoint(sys, worker, timeout);
    SendIsCurrent(sys, worker, timeout);
    forall v | v in next.workers ensures WorkerRequestOk(next, next.workers[v]) {
      assert WorkerRequestOk(sys, sys.workers[v]);
      assert v != worker ==> sys.workers[v].Key() != sys.workers[worker].Key();
    }
  }

  lemma SendKeepsEach(sys: System, worker: nat, timeout: int)
    requires OwnershipOk(sys) && RequestsOk(sys) && CanSend(sys, worker, timeout)
    ensures forall i :: 0 <= i < |AfterSend(sys, worker, timeout).requests| ==> RequestOk(AfterSend(sys, worker, timeout), i)
  {
    var next, n := AfterSend(sys, worker, timeout), |sys.requests|;
    SendIsCurrent(sys, worker, timeout);
    forall i | 0 <= i < |next.requests| ensures RequestOk(next, i) {
      if i < n {
        SendKeepsOlder(sys, worker, timeout, i);
      }
    }
  }

  lemma SendKeepsOlder(sys: System, worker: nat, timeout: int, i: nat)
    requires OwnershipOk(sys) && RequestsOk(sys) && CanSend(sys, worker, timeout) && i < |sys.requests|
    ensures i < |AfterSend(sys, worker, timeout).requests| && RequestOk(AfterSend(sys, worker, timeout), i)
  {
    SendIsCurrent(sys, worker, timeout);
    assert RequestOk(sys, i);
    SameRequestStaysOk(sys, AfterSend(sys, worker, timeout), i);
  }

  lemma SameRequestStaysOk(sys: System, next: System, i: nat)
    requires i < |sys.requests| && RequestOk(sys, i) && i < |next.requests| && next.requests[i] == sys.requests[i]
    requires next.store == sys.store && next.grants == sys.grants && next.clock == sys.clock
    requires forall w :: w in next.workers && IsOf(sys.requests[i], next.workers[w].Key()) ==>
               w in sys.workers && next.workers[w] == sys.workers[w]
    ensures RequestOk(next, i)
  {
  }

  lemma SendKeepsDisjoint(sys: System, worker: nat, timeout: int)
    requires OwnershipOk(sys) && RequestsOk(sys) && CanSend(sys, worker, timeout)
    ensures var rs := AfterSend(sys, worker, timeout).requests; forall i, j :: 0 <= i < j < |rs| ==> Disjoint(rs[i], rs[j])
  {
    var next, n := AfterSend(sys, worker, timeout), |sys.requests|;
    SendIsCurrent(sys, worker, timeout);
    forall i, j | 0 <= i < j < |next.requests| ensures Disjoint(next.requests[i], next.requests[j]) {
      assert RequestOk(sys, i) && !IsOf(sys.requests[i], sys.workers[worker].Key());
      assert j < n ==> Disjoint(sys.requests[i], sys.requests[j]);
    }
  }

  /** A worker only sends while its lease still has the finalization reserve left, so its claim is the latest. */
  lemma SendIsCurrent(sys: System, worker: nat, timeout: int)
    requires OwnershipOk(sys) && RequestsOk(sys) && CanSend(sys, worker, timeout)
    ensures var w := sys.workers[worker];
            && Current(sys, w.claim)
            && sys.store.webhooks[w.claim.id] == w.claim.webhook
            && w.claim.webhook.status.Processing?
            && w.Key() in sys.grants
            && Deadline(sys, worker, timeout) + 5 * SECOND <= sys.grants[w.Key()].leaseUntil
            && forall i :: 0 <= i < |sys.requests| ==> !IsOf(sys.requests[i], w.Key())
  {
    assert WorkerOk(sys, sys.workers[worker]);
    assert WorkerRequestOk(sys, sys.workers[worker]);
  }

  /** Ending request `i` of a worker that then stops being in a request. */
  lemma StopKeepsRequests(sys: System, next: System, worker: nat, i: nat)
    requires OwnershipOk(sys) && RequestsOk(sys)
    requires At(sys, worker) && sys.workers[worker].phase.Requesting? && sys.workers[worker].phase.request == i
    requires next == Stopped(sys, i).(workers := next.workers)
    requires forall w :: w in next.workers && w != worker ==> w in sys.workers && next.workers[w] == sys.workers[w]
    requires worker in next.workers ==> next.workers[worker].claim == sys.workers[worker].claim && next.workers[worker].phase.Answered?
    ensures RequestsOk(next)
  {
    assert WorkerRequestOk(sys, sys.workers[worker]);
    StopKeepsEachRequest(sys, next, worker, i);
    forall k, j | 0 <= k < j < |next.requests| ensures Disjoint(next.requests[k], next.requests[j]) {
      assert Disjoint(sys.requests[k], sys.requests[j]);
    }
    forall w | w in next.workers ensures WorkerRequestOk(next, next.workers[w]) {
      StopKeepsWorker(sys, next, worker, i, w);
    }
  }

  lemma StopKeepsWorker(sys: System, next: System, worker: nat, i: nat, w: nat)
    requires OwnershipOk(sys) && RequestsOk(sys)
    requires At(sys, worker) && sys.workers[worker].phase.Requesting? && sys.workers[worker].phase.request == i
    requires i < |sys.requests| && next.requests == sys.requests[i := sys.requests[i].(stop := Some(sys.clock))]
    requires w in sys.workers && w in next.workers
    requires if w != worker then next.workers[w] == sys.workers[w] else next.workers[w].phase.Answered?
    ensures WorkerRequestOk(next, next.workers[w])
  {
    assert WorkerRequestOk(sys, sys.workers[worker]);
    assert WorkerRequestOk(sys, sys.workers[w]);
    assert w != worker ==> sys.workers[w].Key() != sys.workers[worker].Key();
  }

  lemma StopKeepsEachRequest(sys: System, next: System, worker: nat, i: nat)
    requires RequestsOk(sys)
    requires At(sys, worker) && sys.workers[worker].phase.Requesting? && sys.workers[worker].phase.request == i
    requires next == Stopped(sys, i).(workers := next.workers)
    requires forall w :: w in next.workers && w != worker ==> w in sys.workers && next.workers[w] == sys.workers[w]
    requires worker in next.workers ==> next.workers[worker].claim == sys.workers[worker].claim
    ensures forall k :: 0 <= k < |next.requests| ==> RequestOk(next, k)
  {
    assert WorkerRequestOk(sys, sys.workers[worker]);
    forall k | 0 <= k < |next.requests| ensures RequestOk(next, k) {
      assert RequestOk(sys, k);
      if k != i {
        OtherRequest(sys, i, k);
      }
    }
  }

  lemma OtherRequest(sys: System, i: nat, k: nat)
    requires RequestsOk(sys) && i < |sys.requests| && k < |sys.requests| && i != k
    ensures !IsOf(sys.requests[k], (sys.requests[i].webhook, sys.requests[i].version))
  {
    assert i < k ==> Disjoint(sys.requests[i], sys.requests[k]);
    assert k < i ==> Disjoint(sys.requests[k], sys.requests[i]);
  }

  // ---------- Steps that change rows ----------

  /** A webhook with an open request cannot be claimed: its lease outlives the request's deadline. */
  lemma OpenIsNotClaimable(sys: System, i: nat, worker: nat, id: nat, now: int, pausedSeen: set<string>)
    requires OwnershipOk(sys) && RequestsOk(sys) && i < |sys.requests| && sys.requests[i].stop.None?
    requires CanClaim(sys, worker, id, now, pausedSeen)
    ensures sys.requests[i].webhook != id
  {
    assert RequestOk(sys, i);
    assert RowGranted(sys, sys.requests[i].webhook);
  }

  lemma NewKeyIsUnused(sys: System, id: nat, i: nat)
    requires OwnershipOk(sys) && RequestsOk(sys) && id in sys.store.webhooks && i < |sys.requests|
    ensures !IsOf(sys.requests[i], (id, sys.store.webhooks[id].leaseVersion + 1))
  {
    var key := (id, sys.store.webhooks[id].leaseVersion + 1);
    assert key in sys.grants ==> GrantOk(sys, key);
    assert RequestOk(sys, i);
  }

  lemma ClaimKeepsRequest(sys: System, worker: nat, id: nat, now: int, leaseUntil: int, pausedSeen: set<string>, i: nat)
    requires OwnershipOk(sys) && RequestsOk(sys) && CanClaim(sys, worker, id, now, pausedSeen) && i < |sys.requests|
    ensures RequestOk(AfterClaim(sys, worker, id, now, leaseUntil), i)
    ensures !IsOf(sys.requests[i], (id, sys.store.webhooks[id].leaseVersion + 1))
  {
    NewKeyIsUnused(sys, id, i);
    assert RequestOk(sys, i);
    if sys.requests[i].stop.None? {
      OpenIsNotClaimable(sys, i, worker, id, now, pausedSeen);
    }
  }

  lemma ClaimKeepsRequests(sys: System, worker: nat, id: nat, now: int, leaseUntil: int, pausedSeen: set<string>)
    requires OwnershipOk(sys) && RequestsOk(sys) && CanClaim(sys, worker, id, now, pausedSeen)
    ensures RequestsOk(AfterClaim(sys, worker, id, now, leaseUntil))
  {
    var next := AfterClaim(sys, worker, id, now, leaseUntil);
    var key := (id, sys.store.webhooks[id].leaseVersion + 1);
    assert key !in sys.grants by {
      assert key in sys.grants ==> GrantOk(sys, key);
    }
    forall i | 0 <= i < |next.requests| ensures RequestOk(next, i) && !IsOf(next.requests[i], key) {
      ClaimKeepsRequest(sys, worker, id, now, leaseUntil, pausedSeen, i);
    }
    forall w | w in next.workers ensures WorkerRequestOk(next, next.workers[w]) {
      assert w != worker ==> WorkerRequestOk(sys, sys.workers[w]);
    }
  }

  /** Requeueing and removing webhooks that are not processing. */
  lemma IdleRowsKeepRequests(sys: System, next: System, ids: set<nat>)
    requires OwnershipOk(sys) && RequestsOk(sys)
    requires forall id :: id in ids ==> id in sys.store.webhooks && !sys.store.webhooks[id].status.Processing?
    requires (exists inBulk :: next == AfterRequeue(sys, ids, inBulk)) || next == AfterRemove(sys, ids)
    ensures RequestsOk(next)
  {
    forall i | 0 <= i < |sys.requests| && sys.requests[i].stop.None?
      ensures sys.requests[i].webhook in sys.store.webhooks && sys.requests[i].webhook !in ids && sys.clock <= sys.requests[i].deadline
    {
      assert RequestOk(sys, i);
    }
    assert OpenRowsKept(sys, next);
    IdleKeepsRequests(sys, next);
  }

  /** No request is open for the webhook of a worker whose report is accepted. */
  lemma OpenRequestElsewhere(sys: System, worker: nat, now: int, i: nat)
    requires OwnershipOk(sys) && RequestsOk(sys) && FinishSucceeds(sys, worker, now)
    requires i < |sys.requests| && sys.requests[i].stop.None?
    ensures sys.requests[i].webhook in sys.store.webhooks && sys.requests[i].webhook != sys.workers[worker].claim.id
    ensures sys.clock <= sys.requests[i].deadline
  {
    assert WorkerOk(sys, sys.workers[worker]);
    assert RequestOk(sys, i);
    assert !IsOf(sys.requests[i], sys.workers[worker].Key());
  }

  lemma FinishMovesNoRequest(sys: System, worker: nat, now: int, at: int)
    requires FinishSucceeds(sys, worker, now)
    ensures NoRequestMoves(sys, AfterFinish(sys, worker, at))
  {
  }

  lemma FinishKeepsOpenRows(sys: System, worker: nat, now: int, at: int)
    requires OwnershipOk(sys) && RequestsOk(sys) && FinishSucceeds(sys, worker, now)
    ensures OpenRowsKept(sys, AfterFinish(sys, worker, at))
  {
    FinishKeepsOtherRows(sys, worker, now, at);
    forall i | 0 <= i < |sys.requests| && sys.requests[i].stop.None?
      ensures sys.requests[i].webhook in sys.store.webhooks && sys.requests[i].webhook != sys.workers[worker].claim.id
    {
      OpenRequestElsewhere(sys, worker, now, i);
    }
  }

  lemma FinishKeepsOtherRows(sys: System, worker: nat, now: int, at: int)
    requires FinishSucceeds(sys, worker, now)
    ensures var next := AfterFinish(sys, worker, at);
            && next.store.webhookIds == sys.store.webhookIds && next.grants == sys.grants
            && next.store.webhooks.Keys == sys.store.webhooks.Keys
            && forall id :: id in sys.store.webhooks ==>
                 && next.store.webhooks[id].leaseVersion == sys.store.webhooks[id].leaseVersion
                 && (id != sys.workers[worker].claim.id ==> next.store.webhooks[id] == sys.store.webhooks[id])
  {
  }

  lemma FinishKeepsRequests(sys: System, worker: nat, now: int, at: int)
    requires OwnershipOk(sys) && RequestsOk(sys) && FinishSucceeds(sys, worker, now)
    ensures RequestsOk(AfterFinish(sys, worker, at))
  {
    FinishKeepsOpenRows(sys, worker, now, at);
    FinishMovesNoRequest(sys, worker, now, at);
    forall i | 0 <= i < |sys.requests| && sys.requests[i].stop.None? ensures sys.clock <= sys.requests[i].deadline {
      OpenRequestElsewhere(sys, worker, now, i);
    }
    IdleKeepsRequests(sys, AfterFinish(sys, worker, at));
  }

  lemma UntouchedRowsKeepRequests(sys: System, next: System)
    requires OwnershipOk(sys) && RequestsOk(sys) && NoRequestMoves(sys, next)
    requires next.store.webhooks == sys.store.webhooks && next.store.webhookIds == sys.store.webhookIds
    requires next.grants == sys.grants && next.clock == sys.clock
    ensures RequestsOk(next)
  {
    forall i | 0 <= i < |sys.requests| && sys.requests[i].stop.None?
      ensures sys.requests[i].webhook in sys.store.webhooks && sys.clock <= sys.requests[i].deadline
    {
      assert RequestOk(sys, i);
    }
    IdleKeepsRequests(sys, next);
  }

  lemma DropKeepsRequests(sys: System, worker: nat)
    requires OwnershipOk(sys) && RequestsOk(sys) && At(sys, worker)
    ensures RequestsOk(Dropped(sys, worker))
  {
    var phase := sys.workers[worker].phase;
    if phase.Requesting? {
      StopKeepsRequests(sys, Dropped(sys, worker), worker, phase.request);
    } else {
      UntouchedRowsKeepRequests(sys, Dropped(sys, worker));
    }
  }

  lemma TickKeepsRequests(sys: System, step: Step)
    requires RequestsOk(sys) && Enabled(sys, step) && step.Tick?
    ensures RequestsOk(Apply(sys, step))
  {
    forall i | 0 <= i < |sys.requests| && sys.requests[i].stop.None?
      ensures sys.requests[i].webhook in sys.store.webhooks
    {
      assert RequestOk(sys, i);
    }
    IdleKeepsRequests(sys, Apply(sys, step));
  }

  lemma ReceiveKeepsRequests(sys: System, id: nat, webhook: Webhook)
    requires OwnershipOk(sys) && RequestsOk(sys) && id !in sys.store.webhookIds
    ensures RequestsOk(AfterReceive(sys, id, webhook))
  {
    var next := AfterReceive(sys, id, webhook);
    forall i | 0 <= i < |sys.requests| ensures RequestOk(next, i) {
      assert RequestOk(sys, i);
    }
    forall w | w in next.workers ensures WorkerRequestOk(next, next.workers[w]) {
      assert WorkerRequestOk(sys, sys.workers[w]);
    }
  }

  lemma PrivateStepKeepsRequests(sys: System, step: Step)
    requires OwnershipOk(sys) && RequestsOk(sys) && Enabled(sys, step) && IsPrivate(step)
    ensures RequestsOk(Apply(sys, step))
  {
    if step.Send? {
      SendKeepsRequests(sys, step.worker, step.timeout);
    } else if step.Reply? {
      ReplyKeepsRequests(sys, step);
    } else if step.Crash? {
      DropKeepsRequests(sys, step.worker);
    } else {
      ThinkingKeepsRequests(sys, step);
    }
  }

  lemma ReplyKeepsRequests(sys: System, step: Step)
    requires OwnershipOk(sys) && RequestsOk(sys) && Enabled(sys, step) && step.Reply?
    ensures RequestsOk(Apply(sys, step))
  {
    StopKeepsRequests(sys, Apply(sys, step), step.worker, sys.workers[step.worker].phase.request);
  }

  lemma ThinkingKeepsRequests(sys: System, step: Step)
    requires OwnershipOk(sys) && RequestsOk(sys) && Enabled(sys, step)
    requires step.LoadRule? || step.Unsent? || step.Decide?
    ensures RequestsOk(Apply(sys, step))
  {
    UntouchedRowsKeepRequests(sys, Apply(sys, step));
  }

  lemma CallKeepsRequests(sys: System, step: Step)
    requires OwnershipOk(sys) && RequestsOk(sys) && Enabled(sys, step)
    requires step.ClaimOne? || step.Create? || step.Finish?
    ensures RequestsOk(Apply(sys, step))
  {
    match step
    case ClaimOne(w, id, now, leaseUntil, pausedSeen) => ClaimKeepsRequests(sys, w, id, now, leaseUntil, pausedSeen);
    case Create(w, attempt, now, at) =>
      if CreateSucceeds(sys, w, attempt, now) { CreateKeepsRequests(sys, w, attempt, now, at); } else { DropKeepsRequests(sys, w); }
    case Finish(w, now, at) =>
      if FinishSucceeds(sys, w, now) { FinishKeepsRequests(sys, w, now, at); } else { DropKeepsRequests(sys, w); }
  }

  lemma CreateKeepsRequests(sys: System, worker: nat, attempt: nat, now: int, at: int)
    requires OwnershipOk(sys) && RequestsOk(sys) && CreateSucceeds(sys, worker, attempt, now)
    ensures RequestsOk(AfterCreate(sys, worker, attempt, at))
  {
    CreateMovesNoRequest(sys, worker, attempt, at);
    UntouchedRowsKeepRequests(sys, AfterCreate(sys, worker, attempt, at));
  }

  lemma CreateMovesNoRequest(sys: System, worker: nat, attempt: nat, at: int)
    requires At(sys, worker) && sys.workers[worker].phase.Ready? && sys.workers[worker].claim.id in sys.store.webhooks
    ensures NoRequestMoves(sys, AfterCreate(sys, worker, attempt, at))
  {
  }

  lemma RuleEditKeepsRequests(sys: System, step: Step)
    requires OwnershipOk(sys) && RequestsOk(sys) && Enabled(sys, step) && IsRuleEdit(step)
    ensures RequestsOk(Apply(sys, step))
  {
    var next := Apply(sys, step);
    assert next == sys.(store := next.store, log := next.log) && next.store == sys.store.(rules := next.store.rules);
    UntouchedRowsKeepRequests(sys, next);
  }

  lemma AdminStepKeepsRequests(sys: System, step: Step)
    requires OwnershipOk(sys) && RequestsOk(sys) && Enabled(sys, step)
    requires step.Reset? || step.Delete? || step.BulkReplay? || step.Cleanup?
    ensures RequestsOk(Apply(sys, step))
  {
    match step
    case Reset(id) => if IdleOutcome(sys.store, id).Pass? { IdleRowsKeepRequests(sys, AfterRequeue(sys, {id}, false), {id}); }
    case Delete(id) => if IdleOutcome(sys.store, id).Pass? { IdleRowsKeepRequests(sys, AfterRemove(sys, {id}), {id}); }
    case BulkReplay(ids) => IdleRowsKeepRequests(sys, AfterRequeue(sys, ids, true), ids);
    case Cleanup(ids, _) => IdleRowsKeepRequests(sys, AfterRemove(sys, ids), ids);
  }

  lemma StepKeepsRequests(sys: System, step: Step)
    requires OwnershipOk(sys) && RequestsOk(sys) && Enabled(sys, step)
    ensures RequestsOk(Apply(sys, step))
  {
    if IsPrivate(step) {
      PrivateStepKeepsRequests(sys, step);
    } else if IsRuleEdit(step) {
      RuleEditKeepsRequests(sys, step);
    } else if step.ClaimOne? || step.Create? || step.Finish? {
      CallKeepsRequests(sys, step);
    } else if step.Receive? {
      ReceiveKeepsRequests(sys, step.id, NewWebhook(step.source, step.headers, step.payload, step.receivedAt));
    } else if step.Tick? {
      TickKeepsRequests(sys, step);
    } else {
      AdminStepKeepsRequests(sys, step);
    }
  }

  // ---------- Whole runs ----------

  lemma {:induction false} RunsAreOwned(states: seq<System>, steps: seq<Step>, k: nat)
    requires IsRun(states, steps) && k < |states|
    ensures OwnershipOk(states[k]) && RequestsOk(states[k])
  {
    if k > 0 {
      RunsAreOwned(states, steps, k - 1);
      assert StepAt(states, steps, k - 1);
      StepKeepsOwnership(states[k - 1], steps[k - 1]);
      StepKeepsRequests(states[k - 1], steps[k - 1]);
    }
  }

  /** Timed mutual exclusion. In every reachable state of every run, with crashes, stale workers, replays and
      retries, an earlier HTTP request for a webhook ended before the next one for it started, and belongs
      to an older claim. So at most one request per webhook is open, and at most one exists per claim. */
  lemma RequestsNeverOverlap(states: seq<System>, steps: seq<Step>, k: nat, i: nat, j: nat)
    requires IsRun(states, steps) && k < |states|
    requires i < j < |states[k].requests| && states[k].requests[i].webhook == states[k].requests[j].webhook
    ensures var r1, r2 := states[k].requests[i], states[k].requests[j];
            && r1.version < r2.version
            && r1.stop.Some?
            && r1.start <= r1.stop.value <= r2.start
  {
    RunsAreOwned(states, steps, k);
    assert Disjoint(states[k].requests[i], states[k].requests[j]);
    assert RequestOk(states[k], i);
  }

  /** A claim that takes over an expired lease is granted at least five seconds after any request
      of the claim it replaces had ended, by the claimant's own clock reading. */
  lemma TakeoverLeavesTheReserve(states: seq<System>, steps: seq<Step>, k: nat, i: nat)
    requires IsRun(states, steps) && k < |states| && i < |states[k].requests|
    requires var r := states[k].requests[i];
             (r.webhook, r.version + 1) in states[k].grants && states[k].grants[(r.webhook, r.version + 1)].takeover
    ensures var r, sys := states[k].requests[i], states[k];
            var grant := sys.grants[(r.webhook, r.version + 1)];
            && r.stop.Some?
            && r.stop.value + 5 * SECOND <= grant.now <= grant.at <= sys.clock
  {
    RunsAreOwned(states, steps, k);
    var sys := states[k];
    var r := sys.requests[i];
    assert RequestOk(sys, i);
    assert GrantOk(sys, (r.webhook, r.version + 1));
  }
}
