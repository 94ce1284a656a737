/** Transactions taken apart: each one locks its webhook rows one by one, keeps what it read, and writes
    it back at its commit, while other transactions run in between. At PostgreSQL's Read Committed level
    (section 13.2.1 of its documentation) a row is re-checked when its lock is granted. Because every
    mutation locks the webhook first, this refines the atomic steps of Protocol.dfy. */
module RowLocks {
  import opened Wrappers
  import opened DeliveryModel
  import opened Transactions
  import opened Protocol
  import opened Ownership
  import opened Forwarding

  /** A transaction in progress: the call it carries out, the webhooks it is about, and the rows it has
      locked with their attempts, as they were when the lock was granted. `unfit` are rows that failed the
      re-check when their lock was granted: the transaction leaves them alone, but keeps the locks. */
  datatype Session = Session(
    step: Step,
    targets: set<nat>,
    rows: map<nat, Webhook>,
    attempts: map<nat, DeliveryAttempt>,
    unfit: set<nat>)
  {
    predicate Holds(id: nat) {
      id in rows || id in unfit
    }
  }

  datatype Locked = Locked(sys: System, sessions: map<nat, Session>)

  datatype LockStep =
    | Begin(session: nat, step: Step)
    | Acquire(session: nat, id: nat)
    | AcquireUnfit(session: nat, id: nat)
    | ReadClock(session: nat)
    | Commit(session: nat)
    | Rollback(session: nat)
    | Direct(step: Step)

  const START := Locked(INITIAL, map[])

  /** Calls that change existing webhooks or attempts. Everything else is one statement, or no storage at all. */
  predicate IsTransaction(step: Step) {
    step.ClaimOne? || step.Create? || step.Finish? || step.Reset? || step.Delete? || step.BulkReplay? || step.Cleanup?
  }

  // ---------- What a transaction locks ----------

  /** The webhooks a call works on. */
  function Targets(sys: System, step: Step): set<nat> {
    match step
    case ClaimOne(_, id, _, _, _) => {id}
    case Create(w, _, _, _) => if At(sys, w) then {sys.workers[w].claim.id} else {}
    case Finish(w, _, _) => if At(sys, w) then {sys.workers[w].claim.id} else {}
    case Reset(id) => {id}
    case Delete(id) => {id}
    case BulkReplay(ids) => ids
    case Cleanup(ids, _) => ids
    case _ => {}
  }

  /** The condition of the locking query on a row. */
  predicate Qualifies(step: Step, row: Webhook) {
    match step
    case ClaimOne(_, _, now, _, pausedSeen) => Deliverable(row, now, pausedSeen)
    case BulkReplay(_) => row.status.DeadLettered?
    case Cleanup(_, before) => Expired(row, before)
    case _ => true
  }

  /** Bulk replay locks in ascending order of id; the other calls lock one row, or skip locked ones. */
  predicate InLockOrder(session: Session, id: nat) {
    session.step.BulkReplay? ==> forall held :: held in session.rows.Keys + session.unfit ==> held < id
  }

  predicate IsFree(l: Locked, id: nat) {
    forall other :: other in l.sessions ==> !l.sessions[other].Holds(id)
  }

  function AttemptsOf(s: Store, ids: set<nat>): map<nat, DeliveryAttempt> {
    map a | a in s.attempts && s.attempts[a].webhookId in ids :: s.attempts[a]
  }

  // ---------- What a transaction writes ----------

  /** The tables as a transaction sees them: its own locked rows and their attempts as it read them. */
  function View(s: Store, session: Session): Store {
    s.(webhooks := s.webhooks + session.rows,
       attempts := (map a | a in s.attempts && s.attempts[a].webhookId !in session.rows :: s.attempts[a]) + session.attempts)
  }

  /** The conditions on the caller alone: where its worker stands, what its clock read, a fresh attempt id. */
  predicate CallerReady(sys: System, step: Step) {
    match step
    case ClaimOne(worker, _, now, _, _) => !At(sys, worker) && now <= sys.clock
    case Create(worker, attempt, now, at) => CallsCreate(sys, worker, attempt) && now <= at <= sys.clock
    case Finish(worker, now, at) => CallsFinish(sys, worker) && now <= at <= sys.clock
    case _ => true
  }

  predicate LocksManyOrSkips(step: Step) {
    step.ClaimOne? || step.BulkReplay? || step.Cleanup?
  }

  /** All targets are locked; reset, delete, create and finish also go on when their row does not exist. */
  predicate HoldsTargets(sys: System, session: Session) {
    && session.targets == Targets(sys, session.step)
    && (|| session.rows.Keys == session.targets
        || (!LocksManyOrSkips(session.step) && session.rows == map[] && session.targets !! sys.store.webhooks.Keys))
  }

  function CommitEffect(sys: System, session: Session): System {
    var view := sys.(store := View(sys.store, session));
    if Enabled(view, session.step) then Apply(view, session.step) else sys
  }

  // ---------- Steps ----------

  /** The worker is where its code makes the call. */
  predicate CallerPresent(sys: System, step: Step) {
    match step
    case ClaimOne(worker, _, _, _, _) => !At(sys, worker)
    case Create(worker, _, _, _) => At(sys, worker) && sys.workers[worker].phase.Ready?
    case Finish(worker, _, _) => CallsFinish(sys, worker)
    case _ => true
  }

  /** Create and finish check the lease against the clock as soon as they have the row's lock, and read the
      clock again for the time they record. */
  predicate ChecksLease(step: Step) {
    step.Create? || step.Finish?
  }

  function Stamped(step: Step, at: int): Step
    requires ChecksLease(step)
  {
    step.(at := at)
  }

  /** The check is made by the worker, in the phase that makes the call. A create is given up when the time
      left to its lease is down to the reserve. */
  predicate CheckIsNow(sys: System, session: Session)
    requires ChecksLease(session.step)
  {
    && CallerPresent(sys, session.step)
    && session.targets == Targets(sys, session.step)
    && session.step.now == sys.clock
    && (session.step.Create? ==>
          var lease := sys.workers[session.step.worker].claim.webhook.leaseUntil;
          lease.Some? && sys.clock < lease.value - FINALIZATION_RESERVE)
  }

  /** A query sees the rows that are committed when it begins, and selects among them. Which of them it will take
      depends on the locks it meets; the target of a claim stands for the row that the query ends up with. */
  predicate SelectsTargets(sys: System, call: Step) {
    LocksManyOrSkips(call) ==>
      forall id :: id in Targets(sys, call) ==> id in sys.store.webhooks && Qualifies(call, sys.store.webhooks[id])
  }

  predicate LockEnabled(l: Locked, step: LockStep) {
    match step
    case Begin(sid, call) =>
      && sid !in l.sessions
      && IsTransaction(call)
      && CallerPresent(l.sys, call)
      && SelectsTargets(l.sys, call)
      && (call.ClaimOne? ==> call.now <= l.sys.clock && call.pausedSeen == PausedSources(l.sys.store))
    case Acquire(sid, id) =>
      && sid in l.sessions
      && id in l.sessions[sid].targets
      && id in l.sys.store.webhooks
      && IsFree(l, id)
      && Qualifies(l.sessions[sid].step, l.sys.store.webhooks[id])
      && InLockOrder(l.sessions[sid], id)
      && (ChecksLease(l.sessions[sid].step) ==> CheckIsNow(l.sys, l.sessions[sid]))
    case AcquireUnfit(sid, id) =>
      && sid in l.sessions
      && LocksManyOrSkips(l.sessions[sid].step)
      && id in l.sys.store.webhooks
      && IsFree(l, id)
      && !Qualifies(l.sessions[sid].step, l.sys.store.webhooks[id])
      && InLockOrder(l.sessions[sid], id)
    case ReadClock(sid) => sid in l.sessions && ChecksLease(l.sessions[sid].step)
    case Commit(sid) => sid in l.sessions && CallerReady(l.sys, l.sessions[sid].step) && HoldsTargets(l.sys, l.sessions[sid])
    case Rollback(sid) => sid in l.sessions
    case Direct(call) => !IsTransaction(call) && Enabled(l.sys, call)
  }

  function LockApply(l: Locked, step: LockStep): Locked
    requires LockEnabled(l, step)
  {
    match step
    case Begin(sid, call) => l.(sessions := l.sessions[sid := Session(call, Targets(l.sys, call), map[], map[], {})])
    case Acquire(sid, id) =>
      var session := l.sessions[sid];
      var rows := session.rows[id := l.sys.store.webhooks[id]];
      l.(sessions := l.sessions[sid := session.(rows := rows, attempts := session.attempts + AttemptsOf(l.sys.store, {id}))])
    case AcquireUnfit(sid, id) =>
      l.(sessions := l.sessions[sid := l.sessions[sid].(unfit := l.sessions[sid].unfit + {id})])
    case ReadClock(sid) =>
      l.(sessions := l.sessions[sid := l.sessions[sid].(step := Stamped(l.sessions[sid].step, l.sys.clock))])
    case Commit(sid) => Locked(CommitEffect(l.sys, l.sessions[sid]), l.sessions - {sid})
    case Rollback(sid) => l.(sessions := l.sessions - {sid})
    case Direct(call) => l.(sys := Apply(l.sys, call))
  }

  // ---------- Locked rows are frozen ----------

  /** What a session read is still what is stored. */
  predicate IsFrozen(sys: System, session: Session) {
    && (forall id :: id in session.rows ==> id in sys.store.webhooks && session.rows[id] == sys.store.webhooks[id])
    && (forall id :: id in session.rows ==> Qualifies(session.step, session.rows[id]))
    && session.attempts == AttemptsOf(sys.store, session.rows.Keys)
  }

  ghost predicate LocksOk(l: Locked) {
    && (forall sid :: sid in l.sessions ==> IsFrozen(l.sys, l.sessions[sid]))
    && (forall s1, s2, id :: s1 in l.sessions && s2 in l.sessions && l.sessions[s1].Holds(id) && l.sessions[s2].Holds(id) ==> s1 == s2)
  }

  /** A transaction that still sees what is stored works on the stored tables. */
  lemma FrozenViewIsStore(sys: System, session: Session)
    requires IsFrozen(sys, session)
    ensures View(sys.store, session) == sys.store
  {
    var view := View(sys.store, session);
    assert view.webhooks == sys.store.webhooks;
    assert view.attempts == sys.store.attempts;
  }

  /** A commit finds its call still possible: the qualification checked when the locks were granted holds. */
  lemma CommitIsEnabled(sys: System, session: Session)
    requires IsFrozen(sys, session) && IsTransaction(session.step)
    requires CallerReady(sys, session.step) && HoldsTargets(sys, session)
    ensures Enabled(sys, session.step)
  {
    match session.step
    case ClaimOne(_, id, _, _, _) => assert id in session.rows;
    case BulkReplay(ids) => assert forall id :: id in ids ==> id in session.rows;
    case Cleanup(ids, _) => assert forall id :: id in ids ==> id in session.rows;
    case _ =>
  }

  /** A webhook keeps its row and all its attempts. */
  predicate Untouched(sys: System, next: System, id: nat)
    requires id in sys.store.webhooks
  {
    && id in next.store.webhooks
    && next.store.webhooks[id] == sys.store.webhooks[id]
    && (forall a :: a in sys.store.attempts && sys.store.attempts[a].webhookId == id ==>
          a in next.store.attempts && next.store.attempts[a] == sys.store.attempts[a])
    && (forall a :: a in next.store.attempts && next.store.attempts[a].webhookId == id ==>
          a in sys.store.attempts && next.store.attempts[a] == sys.store.attempts[a])
  }

  lemma CreateTouchesOnlyTarget(sys: System, worker: nat, attempt: nat, now: int, at: int, id: nat)
    requires OwnershipOk(sys) && CreateSucceeds(sys, worker, attempt, now)
    requires id in sys.store.webhooks && id != sys.workers[worker].claim.id
    ensures Untouched(sys, AfterCreate(sys, worker, attempt, at), id)
  {
  }

  lemma FinishTouchesOnlyTarget(sys: System, worker: nat, now: int, at: int, id: nat)
    requires FinishSucceeds(sys, worker, now)
    requires id in sys.store.webhooks && id != sys.workers[worker].claim.id
    ensures Untouched(sys, AfterFinish(sys, worker, at), id)
  {
  }

  lemma ClaimTouchesOnlyTarget(sys: System, worker: nat, claimed: nat, now: int, leaseUntil: int, id: nat)
    requires claimed in sys.store.webhooks && id in sys.store.webhooks && id != claimed
    ensures Untouched(sys, AfterClaim(sys, worker, claimed, now, leaseUntil), id)
  {
  }

  lemma CallTouchesOnlyTarget(sys: System, step: Step, id: nat)
    requires OwnershipOk(sys) && Enabled(sys, step) && (step.ClaimOne? || step.Create? || step.Finish?)
    requires id in sys.store.webhooks && id !in Targets(sys, step)
    ensures Untouched(sys, Apply(sys, step), id)
  {
    if step.ClaimOne? {
      ClaimTouchesOnlyTarget(sys, step.worker, step.id, step.now, step.leaseUntil, id);
    } else if step.Create? {
      if CreateSucceeds(sys, step.worker, step.attempt, step.now) {
        CreateTouchesOnlyTarget(sys, step.worker, step.attempt, step.now, step.at, id);
      }
    } else if FinishSucceeds(sys, step.worker, step.now) {
      FinishTouchesOnlyTarget(sys, step.worker, step.now, step.at, id);
    }
  }

  /** Every step leaves a webhook outside its targets alone, with all its attempts. */
  lemma StepTouchesOnlyTargets(sys: System, step: Step, id: nat)
    requires OwnershipOk(sys) && Enabled(sys, step)
    requires id in sys.store.webhooks && id !in Targets(sys, step)
    ensures Untouched(sys, Apply(sys, step), id)
  {
    if IsQuiet(step) {
      QuietSteps(sys, step);
    } else if step.ClaimOne? || step.Create? || step.Finish? {
      CallTouchesOnlyTarget(sys, step, id);
    } else if step.Receive? {
      ReceiveTouchesNothing(sys, step, id);
    } else if step.Reset? || step.Delete? {
      AdminStepTouchesOnlyTargets(sys, step, id);
    } else {
      BulkStepTouchesOnlyTargets(sys, step, id);
    }
  }

  lemma RequeueTouchesOnlyTargets(sys: System, ids: set<nat>, inBulk: bool, id: nat)
    requires id in sys.store.webhooks && id !in ids
    ensures Untouched(sys, AfterRequeue(sys, ids, inBulk), id)
  {
  }

  lemma RemoveTouchesOnlyTargets(sys: System, ids: set<nat>, id: nat)
    requires id in sys.store.webhooks && id !in ids
    ensures Untouched(sys, AfterRemove(sys, ids), id)
  {
  }

  lemma AdminStepTouchesOnlyTargets(sys: System, step: Step, id: nat)
    requires OwnershipOk(sys) && Enabled(sys, step) && (step.Reset? || step.Delete?)
    requires id in sys.store.webhooks && id !in Targets(sys, step)
    ensures Untouched(sys, Apply(sys, step), id)
  {
    if step.Reset? {
      RequeueTouchesOnlyTargets(sys, {step.id}, false, id);
    } else {
      RemoveTouchesOnlyTargets(sys, {step.id}, id);
    }
  }

  lemma BulkStepTouchesOnlyTargets(sys: System, step: Step, id: nat)
    requires OwnershipOk(sys) && Enabled(sys, step) && (step.BulkReplay? || step.Cleanup?)
    requires id in sys.store.webhooks && id !in Targets(sys, step)
    ensures Untouched(sys, Apply(sys, step), id)
  {
    if step.BulkReplay? {
      RequeueTouchesOnlyTargets(sys, step.ids, true, id);
    } else {
      RemoveTouchesOnlyTargets(sys, step.ids, id);
    }
  }

  lemma ReceiveTouchesNothing(sys: System, step: Step, id: nat)
    requires OwnershipOk(sys) && Enabled(sys, step) && step.Receive? && id in sys.store.webhooks
    ensures Untouched(sys, Apply(sys, step), id)
  {
  }

  lemma UntouchedStaysFrozen(sys: System, next: System, session: Session)
    requires IsFrozen(sys, session)
    requires forall id :: id in session.rows ==> Untouched(sys, next, id)
    ensures IsFrozen(next, session)
  {
    var ids := session.rows.Keys;
    forall a | a in next.store.attempts && next.store.attempts[a].webhookId in ids
      ensures a in sys.store.attempts && sys.store.attempts[a] == next.store.attempts[a]
    {
      assert Untouched(sys, next, next.store.attempts[a].webhookId);
    }
    forall a | a in sys.store.attempts && sys.store.attempts[a].webhookId in ids
      ensures a in next.store.attempts && sys.store.attempts[a] == next.store.attempts[a]
    {
      assert Untouched(sys, next, sys.store.attempts[a].webhookId);
    }
    assert AttemptsOf(next.store, ids) == AttemptsOf(sys.store, ids);
  }

  // ---------- Refinement ----------

  /** A session locks only its targets, and only bulk replays and cleanups can have several. */
  predicate SessionOk(session: Session) {
    && IsTransaction(session.step)
    && session.rows.Keys <= session.targets
    && session.rows.Keys !! session.unfit
    && (session.unfit == {} || LocksManyOrSkips(session.step))
    && (session.step.ClaimOne? ==> session.targets == {session.step.id})
    && (!session.step.BulkReplay? && !session.step.Cleanup? ==> forall a, b :: a in session.targets && b in session.targets ==> a == b)
  }

  ghost predicate LockedOk(l: Locked) {
    OwnershipOk(l.sys) && LocksOk(l) && forall sid :: sid in l.sessions ==> SessionOk(l.sessions[sid])
  }

  lemma GrownSessionIsFrozen(sys: System, session: Session, id: nat, rows: map<nat, Webhook>, attempts: map<nat, DeliveryAttempt>)
    requires IsFrozen(sys, session) && id in sys.store.webhooks && Qualifies(session.step, sys.store.webhooks[id])
    requires rows == session.rows[id := sys.store.webhooks[id]]
    requires attempts == session.attempts + AttemptsOf(sys.store, {id})
    ensures IsFrozen(sys, session.(rows := rows, attempts := attempts))
  {
    assert rows.Keys == session.rows.Keys + {id};
    assert attempts == AttemptsOf(sys.store, rows.Keys);
  }

  /** One session changes, and only takes locks that no other session holds. */
  lemma ChangedSessionKeepsLocks(l: Locked, sid: nat, session: Session)
    requires LockedOk(l) && IsFrozen(l.sys, session) && SessionOk(session)
    requires forall other, id :: other in l.sessions && other != sid && session.Holds(id) ==> !l.sessions[other].Holds(id)
    ensures LockedOk(l.(sessions := l.sessions[sid := session]))
  {
  }

  lemma AcquireKeepsLocks(l: Locked, sid: nat, id: nat)
    requires LockedOk(l) && LockEnabled(l, Acquire(sid, id))
    ensures LockedOk(LockApply(l, Acquire(sid, id)))
  {
    var session, locked := l.sessions[sid], LockApply(l, Acquire(sid, id)).sessions[sid];
    assert IsFrozen(l.sys, session) && SessionOk(session) && !session.Holds(id);
    GrownSessionIsFrozen(l.sys, session, id, locked.rows, locked.attempts);
    assert locked.rows.Keys == session.rows.Keys + {id};
    ChangedSessionKeepsLocks(l, sid, locked);
  }

  lemma AcquireUnfitKeepsLocks(l: Locked, sid: nat, id: nat)
    requires LockedOk(l) && LockEnabled(l, AcquireUnfit(sid, id))
    ensures LockedOk(LockApply(l, AcquireUnfit(sid, id)))
  {
    var session := l.sessions[sid];
    assert IsFrozen(l.sys, session) && SessionOk(session) && !session.Holds(id);
    ChangedSessionKeepsLocks(l, sid, session.(unfit := session.unfit + {id}));
  }

  lemma ReadClockKeepsLocks(l: Locked, sid: nat)
    requires LockedOk(l) && LockEnabled(l, ReadClock(sid))
    ensures LockedOk(LockApply(l, ReadClock(sid)))
  {
    var session := l.sessions[sid];
    assert IsFrozen(l.sys, session) && SessionOk(session);
    ChangedSessionKeepsLocks(l, sid, session.(step := Stamped(session.step, l.sys.clock)));
  }

  /** A commit is one atomic step of the call on the tables as they are at that moment. */
  lemma CommitIsAtomic(l: Locked, sid: nat)
    requires LockedOk(l) && LockEnabled(l, Commit(sid))
    ensures Next(l.sys, l.sessions[sid].step, LockApply(l, Commit(sid)).sys)
  {
    var session := l.sessions[sid];
    assert IsFrozen(l.sys, session);
    FrozenViewIsStore(l.sys, session);
    assert l.sys.(store := View(l.sys.store, session)) == l.sys;
    CommitIsEnabled(l.sys, session);
  }

  lemma CommitKeepsLocks(l: Locked, sid: nat)
    requires LockedOk(l) && LockEnabled(l, Commit(sid))
    ensures LockedOk(LockApply(l, Commit(sid)))
  {
    var next := LockApply(l, Commit(sid));
    var session := l.sessions[sid];
    CommitIsAtomic(l, sid);
    StepKeepsOwnership(l.sys, session.step);
    forall other | other in next.sessions ensures IsFrozen(next.sys, next.sessions[other]) {
      assert IsFrozen(l.sys, l.sessions[other]);
      forall id | id in l.sessions[other].rows ensures Untouched(l.sys, next.sys, id) {
        assert l.sessions[other].Holds(id) && !session.Holds(id);
        assert id !in Targets(l.sys, session.step);
        StepTouchesOnlyTargets(l.sys, session.step, id);
      }
      UntouchedStaysFrozen(l.sys, next.sys, l.sessions[other]);
    }
  }

  lemma DirectKeepsLocks(l: Locked, call: Step)
    requires LockedOk(l) && LockEnabled(l, Direct(call))
    ensures LockedOk(LockApply(l, Direct(call)))
  {
    var next := LockApply(l, Direct(call));
    StepKeepsOwnership(l.sys, call);
    forall sid | sid in next.sessions ensures IsFrozen(next.sys, next.sessions[sid]) {
      assert IsFrozen(l.sys, l.sessions[sid]);
      forall id | id in l.sessions[sid].rows ensures Untouched(l.sys, next.sys, id) {
        StepTouchesOnlyTargets(l.sys, call, id);
      }
      UntouchedStaysFrozen(l.sys, next.sys, l.sessions[sid]);
    }
  }

  lemma LockStepKeepsLocks(l: Locked, step: LockStep)
    requires LockedOk(l) && LockEnabled(l, step)
    ensures LockedOk(LockApply(l, step))
  {
    match step
    case Begin(sid, call) => BeginKeepsLocks(l, sid, call);
    case Acquire(sid, id) => AcquireKeepsLocks(l, sid, id);
    case AcquireUnfit(sid, id) => AcquireUnfitKeepsLocks(l, sid, id);
    case ReadClock(sid) => ReadClockKeepsLocks(l, sid);
    case Commit(sid) => CommitKeepsLocks(l, sid);
    case Rollback(sid) => assert LockApply(l, step).sys == l.sys;
    case Direct(call) => DirectKeepsLocks(l, call);
  }

  lemma NewSessionIsOk(sys: System, call: Step)
    requires IsTransaction(call)
    ensures SessionOk(Session(call, Targets(sys, call), map[], map[], {}))
  {
  }

  lemma NewSessionIsFrozen(sys: System, call: Step, targets: set<nat>)
    ensures IsFrozen(sys, Session(call, targets, map[], map[], {}))
  {
    assert AttemptsOf(sys.store, {}) == map[];
  }

  lemma BeginKeepsLocks(l: Locked, sid: nat, call: Step)
    requires LockedOk(l) && LockEnabled(l, Begin(sid, call))
    ensures LockedOk(LockApply(l, Begin(sid, call)))
  {
    NewSessionIsOk(l.sys, call);
    NewSessionIsFrozen(l.sys, call, Targets(l.sys, call));
    ChangedSessionKeepsLocks(l, sid, Session(call, Targets(l.sys, call), map[], map[], {}));
  }

  // ---------- Whole runs ----------

  predicate LockStepAt(states: seq<Locked>, steps: seq<LockStep>, k: nat)
    requires k < |steps| < |states|
  {
    LockEnabled(states[k], steps[k]) && states[k + 1] == LockApply(states[k], steps[k])
  }

  ghost predicate IsLockedRun(states: seq<Locked>, steps: seq<LockStep>) {
    && |states| == |steps| + 1
    && states[0] == START
    && forall k :: 0 <= k < |steps| ==> LockStepAt(states, steps, k)
  }

  lemma {:induction false} LockedRunsAreOk(states: seq<Locked>, steps: seq<LockStep>, k: nat)
    requires IsLockedRun(states, steps) && k < |states|
    ensures LockedOk(states[k])
  {
    if k > 0 {
      LockedRunsAreOk(states, steps, k - 1);
      assert LockStepAt(states, steps, k - 1);
      LockStepKeepsLocks(states[k - 1], steps[k - 1]);
    }
  }

  /** The atomic call that a lock-level step performs, if it performs one. */
  function AtomicStep(l: Locked, step: LockStep): Option<Step> {
    match step
    case Commit(sid) => if sid in l.sessions then Some(l.sessions[sid].step) else None
    case Direct(call) => Some(call)
    case _ => None
  }

  lemma LockStepRefines(l: Locked, step: LockStep)
    requires LockedOk(l) && LockEnabled(l, step)
    ensures match AtomicStep(l, step)
            case Some(call) => Next(l.sys, call, LockApply(l, step).sys)
            case None => LockApply(l, step).sys == l.sys
  {
    if step.Commit? {
      CommitIsAtomic(l, step.session);
    }
  }

  /** The calls that the first `k` lock-level steps performed, in the order of their commits. */
  function Performed(states: seq<Locked>, steps: seq<LockStep>, k: nat): seq<Step>
    requires k <= |steps| <= |states|
  {
    if k == 0 then []
    else
      match AtomicStep(states[k - 1], steps[k - 1])
      case None => Performed(states, steps, k - 1)
      case Some(call) => Performed(states, steps, k - 1) + [call]
  }

  /** Refinement. Up to any point, a lock-level run does what the atomic system does when it performs the same
      calls in the order of their commits: everything proved of atomic runs holds of interleaved transactions. */
  lemma {:induction false} LockedRunsRefineAtomicRuns(states: seq<Locked>, steps: seq<LockStep>, k: nat) returns (atomic: seq<System>)
    requires IsLockedRun(states, steps) && k < |states|
    ensures IsRun(atomic, Performed(states, steps, k))
    ensures atomic[|atomic| - 1] == states[k].sys
  {
    if k == 0 {
      return [INITIAL];
    }
    atomic := LockedRunsRefineAtomicRuns(states, steps, k - 1);
    LockedRunsAreOk(states, steps, k - 1);
    assert LockStepAt(states, steps, k - 1);
    LockStepRefines(states[k - 1], steps[k - 1]);
    match AtomicStep(states[k - 1], steps[k - 1])
    case None =>
    case Some(call) => atomic := ExtendRun(atomic, Performed(states, steps, k - 1), call, states[k].sys);
  }

  lemma ExtendRun(states: seq<System>, steps: seq<Step>, call: Step, next: System) returns (longer: seq<System>)
    requires IsRun(states, steps) && Next(states[|states| - 1], call, next)
    ensures longer == states + [next] && IsRun(longer, steps + [call])
  {
    longer := states + [next];
    forall k | 0 <= k < |steps| + 1 ensures StepAt(longer, steps + [call], k) {
      if k < |steps| {
        assert StepAt(states, steps, k);
      }
    }
  }

  // ---------- No deadlock ----------

  /** The session may be waiting for the lock on `id`. Claims and cleanups never wait: they skip locked rows.
      A bulk replay may also wait for a row that will turn out not to be a dead letter any more. */
  predicate MayWait(session: Session, id: nat) {
    && (id in session.targets || session.step.BulkReplay?)
    && !session.Holds(id)
    && !session.step.ClaimOne?
    && !session.step.Cleanup?
    && InLockOrder(session, id)
  }

  /** Session `sids[i]` waits for `ids[i]`, which session `sids[i + 1]` holds. */
  predicate WaitsAt(l: Locked, sids: seq<nat>, ids: seq<nat>, i: nat)
    requires i < |ids| < |sids|
  {
    && sids[i] in l.sessions
    && MayWait(l.sessions[sids[i]], ids[i])
    && sids[i + 1] in l.sessions
    && l.sessions[sids[i + 1]].Holds(ids[i])
  }

  ghost predicate WaitChain(l: Locked, sids: seq<nat>, ids: seq<nat>) {
    |sids| == |ids| + 1 && forall i :: 0 <= i < |ids| ==> WaitsAt(l, sids, ids, i)
  }

  /** A session that both holds and waits is a bulk replay, and it waits for a larger id than it holds. */
  lemma WaitsForLarger(session: Session, held: nat, id: nat)
    requires SessionOk(session) && session.Holds(held) && MayWait(session, id)
    ensures held < id
  {
    assert held in session.rows.Keys + session.unfit;
    assert !session.step.BulkReplay? ==> held in session.targets;
  }

  lemma {:induction false} ChainAscends(l: Locked, sids: seq<nat>, ids: seq<nat>, j: nat)
    requires WaitChain(l, sids, ids) && j < |ids|
    requires forall sid :: sid in l.sessions ==> SessionOk(l.sessions[sid])
    ensures ids[0] <= ids[j]
    decreases j
  {
    if j > 0 {
      ChainAscends(l, sids, ids, j - 1);
      assert WaitsAt(l, sids, ids, j - 1) && WaitsAt(l, sids, ids, j);
      WaitsForLarger(l.sessions[sids[j]], ids[j - 1], ids[j]);
    }
  }

  /** No deadlock: in no reachable state do sessions wait for each other in a circle. */
  lemma NoDeadlock(states: seq<Locked>, steps: seq<LockStep>, k: nat, sids: seq<nat>, ids: seq<nat>)
    requires IsLockedRun(states, steps) && k < |states|
    requires WaitChain(states[k], sids, ids) && |ids| > 0
    ensures sids[0] != sids[|ids|]
  {
    LockedRunsAreOk(states, steps, k);
    var last := |ids| - 1;
    ChainAscends(states[k], sids, ids, last);
    assert WaitsAt(states[k], sids, ids, last) && WaitsAt(states[k], sids, ids, 0);
    if sids[0] == sids[|ids|] {
      WaitsForLarger(states[k].sessions[sids[0]], ids[last], ids[0]);
    }
  }
}
