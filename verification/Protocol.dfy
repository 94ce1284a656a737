/** Many workers over one PostgreSQL store: every transaction, HTTP request, crash and clock tick
    is a step, and the steps interleave freely. */
module Protocol {
  import opened Wrappers
  import opened DeliveryModel
  import opened Transactions
  import opened Forwarding

  /** How far a worker has come with its claim. */
  datatype Phase =
    | Holding
    | Ready(rule: Option<ForwardingRule>)
    | Prepared(rule: Option<ForwardingRule>, attempt: nat)
    | Requesting(rule: Option<ForwardingRule>, attempt: nat, request: nat)
    | Answered(rule: Option<ForwardingRule>, attempt: nat, exchange: Exchange)
    | Reporting(rule: Option<ForwardingRule>, attempt: nat, result: DeliveryResult)
  {
    predicate HasAttempt() {
      Prepared? || Requesting? || Answered? || Reporting?
    }

    predicate BeforeRequest() {
      Holding? || Ready? || Prepared?
    }
  }

  datatype Worker = Worker(claim: Claim, phase: Phase) {
    function Key(): (nat, int) {
      (claim.id, claim.webhook.leaseVersion)
    }
  }

  /** One HTTP request of the claim (webhook, version). It runs until `stop`, which is None while it is open. */
  datatype Request = Request(webhook: nat, version: int, start: int, deadline: int, stop: Option<int>)

  /** A claim as it was granted: by a worker that read the clock at `now`, committed at `at`.
      A takeover claims a webhook whose previous lease ran out. */
  datatype Grant = Grant(now: int, at: int, leaseUntil: int, takeover: bool)

  datatype Event =
    | Received(id: nat)
    | Opened(id: nat, version: int, attempt: nat)
    | Finished(id: nat, version: int, attempt: nat, result: DeliveryResult)
    | Requeued(ids: set<nat>, inBulk: bool)
    | Removed(ids: set<nat>)
    | RuleAdded(source: string, paused: bool)
    | PauseSet(source: string, paused: bool)
    | RuleRemoved(source: string)

  /** Everything but `store`, `clock` and `workers` is history that no step reads. */
  datatype System = System(
    store: Store,
    clock: int,
    workers: map<nat, Worker>,
    requests: seq<Request>,
    grants: map<(nat, int), Grant>,
    openedUnder: map<nat, int>,
    log: seq<Event>)

  const INITIAL := System(EMPTY_STORE, 0, map[], [], map[], map[], [])

  /** `now` is the clock reading a call works with: it may be older than the moment of the commit.
      `pausedSeen` are the sources the claim query saw as paused. */
  datatype Step =
    | Tick(time: int)
    | Receive(id: nat, source: string, headers: string, payload: Bytes, receivedAt: int)
    | ClaimOne(worker: nat, id: nat, now: int, leaseUntil: int, pausedSeen: set<string>)
    | LoadRule(worker: nat)
    | Create(worker: nat, attempt: nat, now: int, at: int)
    | Send(worker: nat, timeout: int)
    | Reply(worker: nat, reply: HttpReply)
    | Unsent(worker: nat, error: string)
    | Decide(worker: nat, cancelled: Option<string>, durationMs: int)
    | Finish(worker: nat, now: int, at: int)
    | Crash(worker: nat)
    | Reset(id: nat)
    | Delete(id: nat)
    | BulkReplay(ids: set<nat>)
    | Cleanup(ids: set<nat>, before: int)
    | SaveRule(source: string, rule: ForwardingRule)
    | SetPaused(source: string, paused: bool)
    | DeleteRule(source: string)

  predicate At(sys: System, worker: nat) {
    worker in sys.workers
  }

  function Deadline(sys: System, worker: nat, timeout: int): int
    requires At(sys, worker)
  {
    RequestDeadline(sys.clock, timeout, sys.workers[worker].claim.webhook.leaseUntil)
  }

  /** The worker has nothing to send: its rule has no target. */
  predicate NothingToSend(phase: Phase) {
    phase.Prepared? && Target(phase.rule) == ""
  }

  predicate CanClaim(sys: System, worker: nat, id: nat, now: int, pausedSeen: set<string>) {
    !At(sys, worker) && now <= sys.clock && id in sys.store.webhooks && Deliverable(sys.store.webhooks[id], now, pausedSeen)
  }

  predicate CanSend(sys: System, worker: nat, timeout: int) {
    && At(sys, worker) && sys.workers[worker].phase.Prepared? && Target(sys.workers[worker].phase.rule) != ""
    && sys.clock < Deadline(sys, worker, timeout)
  }

  predicate CallsCreate(sys: System, worker: nat, attempt: nat) {
    At(sys, worker) && sys.workers[worker].phase.Ready? && attempt !in sys.store.attemptIds
  }

  predicate CreateSucceeds(sys: System, worker: nat, attempt: nat, now: int) {
    CallsCreate(sys, worker, attempt) && CreateOutcome(sys.store, sys.workers[worker].claim, now).Pass?
  }

  predicate CallsFinish(sys: System, worker: nat) {
    At(sys, worker) && sys.workers[worker].phase.Reporting?
  }

  predicate FinishSucceeds(sys: System, worker: nat, now: int) {
    CallsFinish(sys, worker) &&
    var w := sys.workers[worker];
    FinishOutcome(sys.store, w.claim, w.phase.attempt, w.phase.result, now).Pass?
  }

  predicate AllDeadLettered(s: Store, ids: set<nat>) {
    forall id :: id in ids ==> id in s.webhooks && s.webhooks[id].status.DeadLettered?
  }

  predicate AllExpired(s: Store, ids: set<nat>, before: int) {
    forall id :: id in ids ==> id in s.webhooks && Expired(s.webhooks[id], before)
  }

  predicate Enabled(sys: System, step: Step) {
    match step
    case Tick(time) =>
      // The deadline of its context ends an HTTP request, so the clock cannot pass it.
      && sys.clock <= time
      && forall i :: 0 <= i < |sys.requests| && sys.requests[i].stop.None? ==> time <= sys.requests[i].deadline
    case Receive(id, _, _, _, _) => id !in sys.store.webhookIds
    case ClaimOne(worker, id, now, _, pausedSeen) => CanClaim(sys, worker, id, now, pausedSeen)
    case LoadRule(worker) =>
      && At(sys, worker) && sys.workers[worker].phase.Holding?
      && sys.workers[worker].claim.webhook.leaseUntil.Some?
      && sys.clock < sys.workers[worker].claim.webhook.leaseUntil.value - FINALIZATION_RESERVE
    case Create(worker, attempt, now, at) => CallsCreate(sys, worker, attempt) && now <= at <= sys.clock
    case Send(worker, timeout) => CanSend(sys, worker, timeout)
    case Reply(worker, _) => At(sys, worker) && sys.workers[worker].phase.Requesting?
    case Unsent(worker, _) =>
      At(sys, worker) && sys.workers[worker].phase.Prepared? && Target(sys.workers[worker].phase.rule) != ""
    case Decide(worker, _, _) =>
      At(sys, worker) && (sys.workers[worker].phase.Answered? || NothingToSend(sys.workers[worker].phase))
    case Finish(worker, now, at) => CallsFinish(sys, worker) && now <= at <= sys.clock
    case Crash(worker) => At(sys, worker)
    case Reset(id) => true
    case Delete(id) => true
    case BulkReplay(ids) => AllDeadLettered(sys.store, ids)
    case Cleanup(ids, before) => AllExpired(sys.store, ids, before)
    case SaveRule(_, _) => true
    case SetPaused(_, _) => true
    case DeleteRule(_) => true
  }

  /** The worker leaves its claim; a request it still has open ends with it. */
  function Dropped(sys: System, worker: nat): System
    requires At(sys, worker)
  {
    var rest := sys.(workers := sys.workers - {worker});
    var phase := sys.workers[worker].phase;
    if phase.Requesting? then Stopped(rest, phase.request) else rest
  }

  function Stopped(sys: System, i: nat): System {
    if i < |sys.requests| then sys.(requests := sys.requests[i := sys.requests[i].(stop := Some(sys.clock))]) else sys
  }

  function Moved(sys: System, worker: nat, phase: Phase): System
    requires At(sys, worker)
  {
    sys.(workers := sys.workers[worker := sys.workers[worker].(phase := phase)])
  }

  function Logged(sys: System, event: Event): System {
    sys.(log := sys.log + [event])
  }

  function AfterReceive(sys: System, id: nat, webhook: Webhook): System {
    Logged(sys.(store := Saved(sys.store, id, webhook)), Received(id))
  }

  function AfterClaim(sys: System, worker: nat, id: nat, now: int, leaseUntil: int): System
    requires id in sys.store.webhooks
  {
    var row := sys.store.webhooks[id];
    var claim := Claim(id, ClaimedRow(row, leaseUntil));
    sys.(store := ClaimedStore(sys.store, {id}, now, leaseUntil),
         workers := sys.workers[worker := Worker(claim, Holding)],
         grants := sys.grants[(id, row.leaseVersion + 1) := Grant(now, sys.clock, leaseUntil, row.status.Processing?)])
  }

  function AfterCreate(sys: System, worker: nat, attempt: nat, at: int): System
    requires At(sys, worker) && sys.workers[worker].phase.Ready? && sys.workers[worker].claim.id in sys.store.webhooks
  {
    var Worker(claim, Ready(rule)) := sys.workers[worker];
    var version := claim.webhook.leaseVersion;
    Logged(Moved(sys.(store := AttemptCreated(sys.store, claim, Target(rule), attempt, at),
                      openedUnder := sys.openedUnder[attempt := version]), worker, Prepared(rule, attempt)),
           Opened(claim.id, version, attempt))
  }

  function AfterFinish(sys: System, worker: nat, at: int): System
    requires CallsFinish(sys, worker)
    requires sys.workers[worker].claim.id in sys.store.webhooks && sys.workers[worker].phase.attempt in sys.store.attempts
  {
    var Worker(claim, Reporting(_, attempt, result)) := sys.workers[worker];
    Logged(sys.(store := FinishedStore(sys.store, claim, attempt, result, at), workers := sys.workers - {worker}),
           Finished(claim.id, claim.webhook.leaseVersion, attempt, result))
  }

  function AfterRequeue(sys: System, ids: set<nat>, inBulk: bool): System {
    Logged(sys.(store := RequeuedStore(sys.store, ids)), Requeued(ids, inBulk))
  }

  function AfterSend(sys: System, worker: nat, timeout: int): System
    requires CanSend(sys, worker, timeout)
  {
    var w := sys.workers[worker];
    var request := Request(w.claim.id, w.claim.webhook.leaseVersion, sys.clock, Deadline(sys, worker, timeout), None);
    Moved(sys.(requests := sys.requests + [request]), worker, Requesting(w.phase.rule, w.phase.attempt, |sys.requests|))
  }

  function AfterSaveRule(sys: System, source: string, rule: ForwardingRule): System {
    var saved := sys.(store := RuleSaved(sys.store, source, rule));
    if source in sys.store.rules then saved else Logged(saved, RuleAdded(source, rule.paused))
  }

  function AfterSetPaused(sys: System, source: string, paused: bool): System {
    if source in sys.store.rules then Logged(sys.(store := RulePaused(sys.store, source, paused)), PauseSet(source, paused)) else sys
  }

  function AfterDeleteRule(sys: System, source: string): System {
    Logged(sys.(store := RuleDeleted(sys.store, source)), RuleRemoved(source))
  }

  function AfterRemove(sys: System, ids: set<nat>): System {
    Logged(sys.(store := RemovedStore(sys.store, ids)), Removed(ids))
  }

  function Apply(sys: System, step: Step): System
    requires Enabled(sys, step)
  {
    match step
    case Tick(time) => sys.(clock := time)
    case Receive(id, source, headers, payload, receivedAt) =>
      AfterReceive(sys, id, NewWebhook(source, headers, payload, receivedAt))
    case ClaimOne(worker, id, now, leaseUntil, _) => AfterClaim(sys, worker, id, now, leaseUntil)
    case LoadRule(worker) =>
      var source := sys.workers[worker].claim.webhook.source;
      Moved(sys, worker, Ready(if source in sys.store.rules then Some(sys.store.rules[source]) else None))
    case Create(worker, attempt, now, at) =>
      if CreateSucceeds(sys, worker, attempt, now) then AfterCreate(sys, worker, attempt, at) else Dropped(sys, worker)
    case Send(worker, timeout) => AfterSend(sys, worker, timeout)
    case Reply(worker, reply) =>
      var phase := sys.workers[worker].phase;
      Moved(Stopped(sys, phase.request), worker, Answered(phase.rule, phase.attempt, Judge(reply)))
    case Unsent(worker, error) =>
      var phase := sys.workers[worker].phase;
      Moved(sys, worker, Answered(phase.rule, phase.attempt, Exchange(NO_RESPONSE, error, false)))
    case Decide(worker, cancelled, durationMs) =>
      var w := sys.workers[worker];
      var exchange := if w.phase.Answered? then w.phase.exchange else Exchange(NO_RESPONSE, "", false);
      Moved(sys, worker, Reporting(w.phase.rule, w.phase.attempt,
        Report(w.phase.rule, exchange, w.claim.webhook.failureCount, cancelled, sys.clock, durationMs)))
    case Finish(worker, now, at) =>
      if FinishSucceeds(sys, worker, now) then AfterFinish(sys, worker, at) else Dropped(sys, worker)
    case Crash(worker) => Dropped(sys, worker)
    case Reset(id) =>
      if IdleOutcome(sys.store, id).Pass? then AfterRequeue(sys, {id}, false) else sys
    case Delete(id) =>
      if IdleOutcome(sys.store, id).Pass? then AfterRemove(sys, {id}) else sys
    case BulkReplay(ids) => AfterRequeue(sys, ids, true)
    case Cleanup(ids, _) => AfterRemove(sys, ids)
    case SaveRule(source, rule) => AfterSaveRule(sys, source, rule)
    case SetPaused(source, paused) => AfterSetPaused(sys, source, paused)
    case DeleteRule(source) => AfterDeleteRule(sys, source)
  }

  // ---------- Runs ----------

  predicate Next(sys: System, step: Step, next: System) {
    Enabled(sys, step) && next == Apply(sys, step)
  }

  predicate StepAt(states: seq<System>, steps: seq<Step>, k: nat)
    requires k < |steps| < |states|
  {
    Next(states[k], steps[k], states[k + 1])
  }

  /** `states[0]` is the empty system and each step leads from one state to the next. */
  ghost predicate IsRun(states: seq<System>, steps: seq<Step>) {
    && |states| == |steps| + 1
    && states[0] == INITIAL
    && forall k :: 0 <= k < |steps| ==> StepAt(states, steps, k)
  }
}
