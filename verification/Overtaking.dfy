/** Exactly which webhooks a pause holds back. A claim whose query ran before the pause can still take its
    webhook after it, if the webhook is free for the taking, or becomes so by what its worker reports. */
module Overtaking {
  import opened Wrappers
  import opened DeliveryModel
  import opened Transactions
  import opened StoreInvariant
  import opened Forwarding
  import opened Protocol
  import opened Ownership
  import opened Reports
  import opened Fencing
  import opened RowLocks
  import opened Pausing

  // ---------- Who can still give a webhook back ----------

  predicate IsOwner(sys: System, w: nat, id: nat) {
    At(sys, w) && sys.workers[w].claim.id == id && Current(sys, sys.workers[w].claim)
  }

  /** A finish of the worker has passed its lease check and is about to commit. */
  predicate IsReport(session: Session, w: nat, id: nat, lease: int) {
    session.step.Finish? && session.step.worker == w && id in session.rows && session.step.now < lease
  }

  /** A create of the worker has passed its lease check and is about to commit. */
  predicate IsCreation(sys: System, session: Session, w: nat, id: nat) {
    session.step.Create? && session.step.worker == w && id in session.rows && session.step.attempt !in sys.store.attemptIds
  }

  predicate ReportUnderWay(l: Locked, w: nat, id: nat, lease: int) {
    exists f :: f in l.sessions && IsReport(l.sessions[f], w, id, lease)
  }

  predicate CreationUnderWay(l: Locked, w: nat, id: nat) {
    exists f :: f in l.sessions && IsCreation(l.sys, l.sessions[f], w, id)
  }

  /** The worker has time left to report, or its report is on its way. */
  predicate CanReport(l: Locked, w: nat, id: nat, lease: int)
    requires At(l.sys, w)
  {
    match l.sys.workers[w].phase
    case Holding => l.sys.clock < lease - FINALIZATION_RESERVE
    case Ready(_) => l.sys.clock < lease && (l.sys.clock < lease - FINALIZATION_RESERVE || CreationUnderWay(l, w, id))
    case Reporting(_, _, _) => l.sys.clock < lease || ReportUnderWay(l, w, id, lease)
    case _ => l.sys.clock < lease
  }

  predicate OwnerCanReport(l: Locked, id: nat, lease: int) {
    exists w :: w in l.sys.workers && IsOwner(l.sys, w, id) && CanReport(l, w, id, lease)
  }

  /** The claim of session `sid` can still take its webhook: nobody has it, or the lease on it had run out when
      the claim read the clock, or its owner can still report. */
  predicate IsWithinReach(l: Locked, sid: nat, id: nat)
    requires sid in l.sessions && l.sessions[sid].step.ClaimOne? && id in l.sys.store.webhooks
  {
    var row := l.sys.store.webhooks[id];
    row.status.Processing? && row.leaseUntil.Some? ==>
      row.leaseUntil.value <= l.sessions[sid].step.now || OwnerCanReport(l, id, row.leaseUntil.value)
  }

  predicate CanBeOvertaken(l: Locked, id: nat, source: string)
    requires id in l.sys.store.webhooks
  {
    exists sid :: sid in l.sessions && IsStaleClaim(l, sid, id, source) && IsWithinReach(l, sid, id)
  }

  // ---------- Out of reach stays out of reach ----------

  /** The webhook is processing, and its owner, if there still is one, has no time left. */
  ghost predicate IsStranded(sys: System, id: nat, version: int, lease: int) {
    && id in sys.store.webhooks
    && sys.store.webhooks[id].status.Processing?
    && sys.store.webhooks[id].leaseVersion == version
    && sys.store.webhooks[id].leaseUntil == Some(lease)
    && forall w :: w in sys.workers && sys.workers[w].Key() == (id, version) ==>
         if sys.workers[w].phase.Holding? || sys.workers[w].phase.Ready? then lease - FINALIZATION_RESERVE <= sys.clock
         else lease <= sys.clock
  }

  /** The step neither claims the webhook, nor reports on it, nor creates its attempt in time. */
  predicate LeavesStranded(sys: System, step: Step, id: nat, version: int, lease: int)
    requires Enabled(sys, step)
  {
    && !Claims(step, id)
    && (step.Finish? && sys.workers[step.worker].Key() == (id, version) ==> lease <= step.now)
    && (step.Create? && sys.workers[step.worker].Key() == (id, version) ==> lease <= sys.clock)
  }

  lemma StrandedRowStays(sys: System, step: Step, id: nat, version: int, lease: int)
    requires OwnershipOk(sys) && Enabled(sys, step)
    requires IsStranded(sys, id, version, lease) && LeavesStranded(sys, step, id, version, lease)
    ensures id in Apply(sys, step).store.webhooks && Apply(sys, step).store.webhooks[id] == sys.store.webhooks[id]
  {
    if id !in Targets(sys, step) {
      StepTouchesOnlyTargets(sys, step, id);
    } else if step.Finish? {
      StrandedFinishFails(sys, step, id, version, lease);
    } else if step.Create? {
    }
  }

  lemma StrandedFinishFails(sys: System, step: Step, id: nat, version: int, lease: int)
    requires OwnershipOk(sys) && Enabled(sys, step) && step.Finish? && Targets(sys, step) == {id}
    requires IsStranded(sys, id, version, lease) && LeavesStranded(sys, step, id, version, lease)
    ensures !FinishSucceeds(sys, step.worker, step.now)
  {
  }

  /** Workers with a claim keep it, leave, or move on; only a claim brings one in, and only loading a rule ends
      the first phase. */
  lemma KeyStays(sys: System, step: Step, w: nat, id: nat, version: int)
    requires Enabled(sys, step) && !Claims(step, id) && w in Apply(sys, step).workers
    requires Apply(sys, step).workers[w].Key() == (id, version)
    ensures w in sys.workers && sys.workers[w].Key() == (id, version)
    ensures Apply(sys, step).workers[w].phase == sys.workers[w].phase
         || (step.LoadRule? && step.worker == w && sys.workers[w].phase.Holding?)
         || (step.Create? && step.worker == w && sys.workers[w].phase.Ready?)
         || (!sys.workers[w].phase.Holding? && !sys.workers[w].phase.Ready?
             && !Apply(sys, step).workers[w].phase.Holding? && !Apply(sys, step).workers[w].phase.Ready?)
  {
  }

  lemma StrandedStays(sys: System, step: Step, id: nat, version: int, lease: int)
    requires OwnershipOk(sys) && Enabled(sys, step)
    requires IsStranded(sys, id, version, lease) && LeavesStranded(sys, step, id, version, lease)
    ensures IsStranded(Apply(sys, step), id, version, lease)
  {
    var next := Apply(sys, step);
    StrandedRowStays(sys, step, id, version, lease);
    ClockNeverGoesBack(sys, step);
    forall w | w in next.workers && next.workers[w].Key() == (id, version)
      ensures if next.workers[w].phase.Holding? || next.workers[w].phase.Ready? then lease - FINALIZATION_RESERVE <= next.clock
              else lease <= next.clock
    {
      KeyStays(sys, step, w, id, version);
      assert WorkerOk(sys, sys.workers[w]);
    }
  }

  lemma ClockNeverGoesBack(sys: System, step: Step)
    requires Enabled(sys, step)
    ensures sys.clock <= Apply(sys, step).clock
  {
  }

  predicate SameRow(sys: System, next: System, id: nat) {
    id in sys.store.webhooks && id in next.store.webhooks && next.store.webhooks[id] == sys.store.webhooks[id]
  }

  /** No transaction in progress can claim the webhook, report on it, or create its attempt in time. */
  ghost predicate IsBlocked(l: Locked, id: nat, source: string, version: int, lease: int) {
    && LockedOk(l)
    && IsStranded(l.sys, id, version, lease)
    && l.sys.store.webhooks[id].source == source
    && forall sid :: sid in l.sessions ==> CannotMove(l, sid, id, source, version, lease)
  }

  predicate CannotMove(l: Locked, sid: nat, id: nat, source: string, version: int, lease: int)
    requires sid in l.sessions
  {
    var session := l.sessions[sid];
    && (IsStaleClaim(l, sid, id, source) ==> session.step.now < lease)
    && (ChecksLease(session.step) && id in session.rows && At(l.sys, session.step.worker)
        && l.sys.workers[session.step.worker].Key() == (id, version) ==>
          if session.step.Finish? then lease <= session.step.now
          else l.sys.workers[session.step.worker].phase.Ready? && session.step.attempt !in l.sys.store.attemptIds ==>
                 lease <= l.sys.clock)
  }

  /** The call of a commit leaves a blocked webhook stranded. */
  lemma BlockedCommitLeaves(l: Locked, sid: nat, id: nat, source: string, version: int, lease: int)
    requires IsBlocked(l, id, source, version, lease) && LockEnabled(l, Commit(sid))
    ensures Enabled(l.sys, l.sessions[sid].step) && LeavesStranded(l.sys, l.sessions[sid].step, id, version, lease)
  {
    var session := l.sessions[sid];
    assert CannotMove(l, sid, id, source, version, lease);
    assert SessionOk(session) && IsFrozen(l.sys, session);
    CommitIsAtomic(l, sid);
    if session.step.ClaimOne? {
      CommittingClaimIsStale(l, sid);
    }
  }

  lemma OtherSessionStaysUnmoved(l: Locked, next: Locked, call: Step, sid: nat, id: nat, source: string, version: int, lease: int)
    requires Enabled(l.sys, call) && next.sys == Apply(l.sys, call) && !Claims(call, id)
    requires IsStranded(l.sys, id, version, lease) && OwnershipOk(l.sys)
    requires sid in l.sessions && sid in next.sessions && next.sessions[sid] == l.sessions[sid]
    requires CannotMove(l, sid, id, source, version, lease)
    ensures CannotMove(next, sid, id, source, version, lease)
  {
    var worker := if ChecksLease(l.sessions[sid].step) then l.sessions[sid].step.worker else 0;
    if At(next.sys, worker) && next.sys.workers[worker].Key() == (id, version) {
      KeyStays(l.sys, call, worker, id, version);
      assert WorkerOk(l.sys, l.sys.workers[worker]);
    }
    ClockNeverGoesBack(l.sys, call);
    StepGrowsIds(l.sys, call);
    AttemptIdsGrow(l.sys, call);
  }

  lemma AttemptIdsGrow(sys: System, step: Step)
    requires Enabled(sys, step)
    ensures sys.store.attemptIds <= Apply(sys, step).store.attemptIds
  {
  }

  lemma BlockedCommit(l: Locked, sid: nat, id: nat, source: string, version: int, lease: int)
    requires IsBlocked(l, id, source, version, lease) && LockEnabled(l, Commit(sid))
    ensures IsBlocked(LockApply(l, Commit(sid)), id, source, version, lease)
    ensures SameRow(l.sys, LockApply(l, Commit(sid)).sys, id)
  {
    var next, call := LockApply(l, Commit(sid)), l.sessions[sid].step;
    CommitIsAtomic(l, sid);
    CommitKeepsLocks(l, sid);
    BlockedCommitLeaves(l, sid, id, source, version, lease);
    StrandedRowStays(l.sys, call, id, version, lease);
    StrandedStays(l.sys, call, id, version, lease);
    forall other | other in next.sessions ensures CannotMove(next, other, id, source, version, lease) {
      OtherSessionStaysUnmoved(l, next, call, other, id, source, version, lease);
    }
  }

  lemma BlockedDirect(l: Locked, call: Step, id: nat, source: string, version: int, lease: int)
    requires IsBlocked(l, id, source, version, lease) && LockEnabled(l, Direct(call))
    ensures IsBlocked(LockApply(l, Direct(call)), id, source, version, lease)
    ensures SameRow(l.sys, LockApply(l, Direct(call)).sys, id)
  {
    var next := LockApply(l, Direct(call));
    DirectKeepsLocks(l, call);
    StrandedRowStays(l.sys, call, id, version, lease);
    StrandedStays(l.sys, call, id, version, lease);
    forall other | other in next.sessions ensures CannotMove(next, other, id, source, version, lease) {
      OtherSessionStaysUnmoved(l, next, call, other, id, source, version, lease);
    }
  }

  /** A lease check that is made now comes too late for a stranded webhook. */
  lemma BlockedAcquire(l: Locked, sid: nat, locked: nat, id: nat, source: string, version: int, lease: int)
    requires IsBlocked(l, id, source, version, lease) && LockEnabled(l, Acquire(sid, locked))
    ensures CannotMove(LockApply(l, Acquire(sid, locked)), sid, id, source, version, lease)
  {
    var session := l.sessions[sid];
    assert CannotMove(l, sid, id, source, version, lease);
    assert SessionOk(session) && !session.Holds(locked);
    if ChecksLease(session.step) {
      assert WorkerOk(l.sys, l.sys.workers[session.step.worker]);
    }
  }

  lemma BlockedSession(l: Locked, step: LockStep, id: nat, source: string, version: int, lease: int)
    requires IsBlocked(l, id, source, version, lease) && IsPaused(l.sys, source) && LockEnabled(l, step)
    requires !step.Commit? && !step.Direct?
    ensures IsBlocked(LockApply(l, step), id, source, version, lease)
    ensures SameRow(l.sys, LockApply(l, step).sys, id)
  {
    var next := LockApply(l, step);
    LockStepKeepsLocks(l, step);
    forall sid | sid in next.sessions ensures CannotMove(next, sid, id, source, version, lease) {
      BlockedSessionStays(l, step, sid, id, source, version, lease);
    }
  }

  lemma BlockedSessionStays(l: Locked, step: LockStep, sid: nat, id: nat, source: string, version: int, lease: int)
    requires IsBlocked(l, id, source, version, lease) && IsPaused(l.sys, source) && LockEnabled(l, step)
    requires !step.Commit? && !step.Direct? && sid in LockApply(l, step).sessions
    ensures CannotMove(LockApply(l, step), sid, id, source, version, lease)
  {
    if step.Acquire? && step.session == sid {
      BlockedAcquire(l, sid, step.id, id, source, version, lease);
    } else {
      assert sid in l.sessions ==> CannotMove(l, sid, id, source, version, lease);
    }
  }

  lemma BlockedStep(l: Locked, step: LockStep, id: nat, source: string, version: int, lease: int)
    requires IsBlocked(l, id, source, version, lease) && IsPaused(l.sys, source) && LockEnabled(l, step)
    ensures IsBlocked(LockApply(l, step), id, source, version, lease)
    ensures SameRow(l.sys, LockApply(l, step).sys, id)
  {
    if step.Commit? {
      BlockedCommit(l, step.session, id, source, version, lease);
    } else if step.Direct? {
      BlockedDirect(l, step.step, id, source, version, lease);
    } else {
      BlockedSession(l, step, id, source, version, lease);
    }
  }

  lemma {:induction false} BlockedPath(states: seq<Locked>, steps: seq<LockStep>, k: nat, id: nat, source: string, version: int, lease: int)
    requires IsPausedPath(states, steps, source) && k < |states| && IsBlocked(states[0], id, source, version, lease)
    ensures IsBlocked(states[k], id, source, version, lease)
    ensures SameRow(states[0].sys, states[k].sys, id)
    decreases k
  {
    if k > 0 {
      BlockedPath(states, steps, k - 1, id, source, version, lease);
      var l, step := states[k - 1], steps[k - 1];
      assert LockStepAt(states, steps, k - 1) && IsPaused(l.sys, source);
      BlockedStep(l, step, id, source, version, lease);
    }
  }

  lemma HeldBackWhenBlocked(l: Locked, id: nat, source: string, version: int, lease: int)
    requires IsBlocked(l, id, source, version, lease)
    ensures forall m :: Leads(l, m, source) ==> SameRow(l.sys, m.sys, id)
    ensures HeldBack(l, id, source)
  {
    forall m | Leads(l, m, source) ensures SameRow(l.sys, m.sys, id) {
      var states, steps :| IsPausedPath(states, steps, source) && states[0] == l && states[|steps|] == m;
      BlockedPath(states, steps, |steps|, id, source, version, lease);
    }
  }

  // ---------- Paths, one step at a time ----------

  lemma LeadsNowhere(l: Locked, source: string)
    ensures Leads(l, l, source)
  {
    assert IsPausedPath([l], [], source);
  }

  lemma LeadsOneMore(l: Locked, m: Locked, step: LockStep, source: string)
    requires Leads(l, m, source) && LockEnabled(m, step) && IsPaused(m.sys, source)
    ensures Leads(l, LockApply(m, step), source)
  {
    var states, steps :| IsPausedPath(states, steps, source) && states[0] == l && states[|steps|] == m;
    var path, moves := states + [LockApply(m, step)], steps + [step];
    forall i | 0 <= i < |moves| ensures LockStepAt(path, moves, i) && IsPaused(path[i].sys, source) {
      if i < |steps| {
        assert LockStepAt(states, steps, i) && IsPaused(states[i].sys, source);
      }
    }
    assert IsPausedPath(path, moves, source) && path[0] == l && path[|moves|] == LockApply(m, step);
  }

  lemma {:induction false} Unused(ids: set<nat>) returns (n: nat)
    ensures forall id :: id in ids ==> id < n
    decreases |ids|
  {
    if ids == {} {
      return 0;
    }
    var id :| id in ids;
    var rest := Unused(ids - {id});
    n := if rest <= id then id + 1 else rest;
    assert forall other :: other in ids ==> other == id || other in ids - {id};
  }

  /** A call about one existing webhook, made now. */
  ghost predicate IsCallAbout(sys: System, call: Step, id: nat) {
    && (call.Reset? || call.Create? || call.Finish?)
    && id in sys.store.webhooks
    && Targets(sys, call) == {id}
    && CallerReady(sys, call)
    && CallerPresent(sys, call)
    && (ChecksLease(call) ==> CheckIsNow(sys, Session(call, {id}, map[], map[], {})))
  }

  lemma CallBegins(l: Locked, m: Locked, n: nat, call: Step, id: nat, source: string) returns (began: Locked)
    requires Leads(l, m, source) && LockedOk(m) && IsPaused(m.sys, source) && n !in m.sessions
    requires IsCallAbout(m.sys, call, id) && IsFree(m, id)
    ensures Leads(l, began, source) && LockedOk(began) && IsFree(began, id)
    ensures began == m.(sessions := m.sessions[n := Session(call, {id}, map[], map[], {})])
  {
    began := LockApply(m, Begin(n, call));
    BeginKeepsLocks(m, n, call);
    LeadsOneMore(l, m, Begin(n, call), source);
  }

  lemma CallLocks(l: Locked, began: Locked, n: nat, call: Step, id: nat, source: string) returns (held: Locked)
    requires Leads(l, began, source) && LockedOk(began) && IsPaused(began.sys, source)
    requires n in began.sessions && began.sessions[n] == Session(call, {id}, map[], map[], {})
    requires IsCallAbout(began.sys, call, id) && IsFree(began, id)
    ensures Leads(l, held, source) && LockedOk(held) && held.sys == began.sys
    ensures n in held.sessions && held.sessions == began.sessions[n := held.sessions[n]]
    ensures held.sessions[n].step == call && held.sessions[n].rows.Keys == {id} == held.sessions[n].targets
  {
    held := LockApply(began, Acquire(n, id));
    AcquireKeepsLocks(began, n, id);
    LeadsOneMore(l, began, Acquire(n, id), source);
  }

  lemma CallCommits(l: Locked, held: Locked, n: nat, id: nat, source: string) returns (next: Locked)
    requires Leads(l, held, source) && LockedOk(held) && IsPaused(held.sys, source) && n in held.sessions
    requires held.sessions[n].rows.Keys == {id} == held.sessions[n].targets
    requires Targets(held.sys, held.sessions[n].step) == {id} && CallerReady(held.sys, held.sessions[n].step)
    ensures Leads(l, next, source) && LockedOk(next) && next.sessions == held.sessions - {n}
    ensures Next(held.sys, held.sessions[n].step, next.sys)
  {
    next := LockApply(held, Commit(n));
    CommitKeepsLocks(held, n);
    LeadsOneMore(l, held, Commit(n), source);
    CommitIsAtomic(held, n);
  }

  lemma AddedThenRemoved(sessions: map<nat, Session>, n: nat, session: Session)
    requires n !in sessions
    ensures sessions[n := session] - {n} == sessions
  {
  }

  lemma ChangedThenRemoved(sessions: map<nat, Session>, n: nat, session: Session)
    ensures sessions[n := session] - {n} == sessions - {n}
  {
  }

  lemma CallEnds(l: Locked, began: Locked, n: nat, call: Step, id: nat, source: string) returns (next: Locked)
    requires Leads(l, began, source) && LockedOk(began) && IsPaused(began.sys, source)
    requires n in began.sessions && began.sessions[n] == Session(call, {id}, map[], map[], {})
    requires IsCallAbout(began.sys, call, id) && IsFree(began, id)
    ensures Leads(l, next, source) && LockedOk(next) && next.sessions == began.sessions - {n}
    ensures Next(began.sys, call, next.sys)
  {
    var held := CallLocks(l, began, n, call, id, source);
    next := CallCommits(l, held, n, id, source);
    ChangedThenRemoved(began.sessions, n, held.sessions[n]);
  }

  /** A call about a webhook that nobody holds can run through at once. */
  lemma CallRunsThrough(l: Locked, m: Locked, call: Step, id: nat, source: string) returns (next: Locked)
    requires Leads(l, m, source) && LockedOk(m) && IsPaused(m.sys, source)
    requires IsCallAbout(m.sys, call, id) && IsFree(m, id)
    ensures Leads(l, next, source) && LockedOk(next) && next.sessions == m.sessions
    ensures Next(m.sys, call, next.sys)
  {
    var n := Unused(m.sessions.Keys);
    var began := CallBegins(l, m, n, call, id, source);
    next := CallEnds(l, began, n, call, id, source);
    AddedThenRemoved(m.sessions, n, began.sessions[n]);
  }

  lemma DirectRuns(l: Locked, m: Locked, call: Step, source: string) returns (next: Locked)
    requires Leads(l, m, source) && LockedOk(m) && IsPaused(m.sys, source) && !IsTransaction(call) && Enabled(m.sys, call)
    ensures Leads(l, next, source) && LockedOk(next) && next.sessions == m.sessions
    ensures Next(m.sys, call, next.sys)
  {
    next := LockApply(m, Direct(call));
    DirectKeepsLocks(m, call);
    LeadsOneMore(l, m, Direct(call), source);
  }

  // ---------- An owner in time can report ----------

  /** Worker `w` owns the webhook, and its lease is running. */
  ghost predicate IsHolder(sys: System, w: nat, id: nat, source: string, version: int, lease: int) {
    && OwnershipOk(sys)
    && IsPaused(sys, source)
    && IsOwner(sys, w, id)
    && ReportOk(sys.workers[w])
    && sys.store.webhooks[id].status.Processing?
    && sys.store.webhooks[id].source == source
    && sys.store.webhooks[id].leaseVersion == version
    && sys.store.webhooks[id].leaseUntil == Some(lease)
    && sys.clock < lease
  }

  predicate HasReserve(sys: System, w: nat, lease: int)
    requires At(sys, w)
  {
    sys.workers[w].phase.Holding? || sys.workers[w].phase.Ready? ==> sys.clock < lease - FINALIZATION_RESERVE
  }

  function StepsToReport(phase: Phase): nat {
    match phase
    case Holding => 5
    case Ready(_) => 4
    case Prepared(_, _) => 3
    case Requesting(_, _, _) => 2
    case Answered(_, _, _) => 1
    case Reporting(_, _, _) => 0
  }

  /** What the worker can do next to get to its report: a delivery that its worker's shutdown cancels. */
  function NextCall(sys: System, w: nat, attempt: nat): Step
    requires At(sys, w)
  {
    var phase := sys.workers[w].phase;
    match phase
    case Holding => LoadRule(w)
    case Ready(_) => Create(w, attempt, sys.clock, sys.clock)
    case Prepared(_, _) => if NothingToSend(phase) then Decide(w, Some("cancelled"), 0) else Unsent(w, "cancelled")
    case Requesting(_, _, _) => Reply(w, NoReply("cancelled"))
    case Answered(_, _, _) => Decide(w, Some("cancelled"), 0)
    case Reporting(_, _, _) => Finish(w, sys.clock, sys.clock)
  }

  lemma NextCallIsPossible(sys: System, w: nat, id: nat, source: string, version: int, lease: int, attempt: nat)
    requires IsHolder(sys, w, id, source, version, lease) && HasReserve(sys, w, lease) && attempt !in sys.store.attemptIds
    ensures var call := NextCall(sys, w, attempt);
            Enabled(sys, call) && (if IsTransaction(call) then IsCallAbout(sys, call, id) else true)
  {
    assert WorkerOk(sys, sys.workers[w]);
  }

  /** What the worker has become after a step that is no transaction. */
  lemma ThinkingMoves(sys: System, w: nat, attempt: nat)
    requires At(sys, w) && !sys.workers[w].phase.Ready? && !sys.workers[w].phase.Reporting?
    requires Enabled(sys, NextCall(sys, w, attempt)) && ReportOk(sys.workers[w])
    ensures var next := Apply(sys, NextCall(sys, w, attempt));
            && At(next, w) && next.workers[w].claim == sys.workers[w].claim && ReportOk(next.workers[w])
            && StepsToReport(next.workers[w].phase) < StepsToReport(sys.workers[w].phase)
            && (next.workers[w].phase.Holding? || next.workers[w].phase.Ready? ==> sys.workers[w].phase.Holding?)
            && next.store == sys.store && next.clock == sys.clock
  {
  }

  lemma ThinkingGoesOn(sys: System, w: nat, id: nat, source: string, version: int, lease: int, attempt: nat)
    requires IsHolder(sys, w, id, source, version, lease) && HasReserve(sys, w, lease)
    requires !sys.workers[w].phase.Ready? && !sys.workers[w].phase.Reporting? && Enabled(sys, NextCall(sys, w, attempt))
    ensures var next := Apply(sys, NextCall(sys, w, attempt));
            && IsHolder(next, w, id, source, version, lease) && HasReserve(next, w, lease) && next.clock == sys.clock
            && StepsToReport(next.workers[w].phase) < StepsToReport(sys.workers[w].phase)
  {
    StepKeepsOwnership(sys, NextCall(sys, w, attempt));
    ThinkingMoves(sys, w, attempt);
  }

  /** A create that checked its lease in time succeeds. */
  lemma CreatingMoves(sys: System, w: nat, call: Step)
    requires OwnershipOk(sys) && call.Create? && call.worker == w && Enabled(sys, call)
    requires StillOwns(sys, sys.workers[w].claim, call.now)
    ensures var next := Apply(sys, call);
            && At(next, w) && next.workers[w].claim == sys.workers[w].claim && next.workers[w].phase.Prepared?
            && next.store.webhooks == sys.store.webhooks && next.store.rules == sys.store.rules && next.clock == sys.clock
  {
    OwnersCreate(sys, w, call.attempt, call.now, call.at);
  }

  lemma CreatingGoesOn(sys: System, w: nat, id: nat, source: string, version: int, lease: int, call: Step)
    requires IsHolder(sys, w, id, source, version, lease) && call.Create? && call.worker == w && Enabled(sys, call)
    ensures var next := Apply(sys, call);
            && IsHolder(next, w, id, source, version, lease) && next.clock == sys.clock
            && next.workers[w].phase.Prepared?
  {
    assert WorkerOk(sys, sys.workers[w]);
    StepKeepsOwnership(sys, call);
    CreatingMoves(sys, w, call);
  }

  lemma ReportedRow(w: Webhook, result: DeliveryResult, at: int)
    requires IsFinal(result.status)
    ensures var row := FinishedRow(w, result, at);
            !row.status.Processing? && row.leaseVersion == w.leaseVersion && row.source == w.source
  {
  }

  /** A finish that checked its lease in time gives the webhook back. */
  lemma FinishingReleases(sys: System, w: nat, id: nat, call: Step)
    requires OwnershipOk(sys) && IsOwner(sys, w, id) && ReportOk(sys.workers[w])
    requires call.Finish? && call.worker == w && Enabled(sys, call) && StillOwns(sys, sys.workers[w].claim, call.now)
    ensures var next := Apply(sys, call);
            && id in next.store.webhooks && !next.store.webhooks[id].status.Processing?
            && next.store.webhooks[id].leaseVersion == sys.store.webhooks[id].leaseVersion
            && next.store.webhooks[id].source == sys.store.webhooks[id].source
            && next.store.rules == sys.store.rules && next.clock == sys.clock
  {
    OwnersReport(sys, w, call.now);
    ReportedRow(sys.store.webhooks[id], sys.workers[w].phase.result, call.at);
  }

  lemma OwnersReport(sys: System, w: nat, now: int)
    requires OwnershipOk(sys) && CallsFinish(sys, w) && ReportOk(sys.workers[w]) && StillOwns(sys, sys.workers[w].claim, now)
    ensures FinishSucceeds(sys, w, now)
  {
    assert WorkerOk(sys, sys.workers[w]);
  }

  // ---------- A claim within reach can commit ----------

  /** The claim of session `sid` can still make its way to a commit. */
  ghost predicate IsUnderWay(m: Locked, sid: nat, id: nat, source: string, version: int) {
    && LockedOk(m) && IsPaused(m.sys, source) && HasVersion(m, id, source, version)
    && IsStaleClaim(m, sid, id, source) && m.sessions[sid].step.now <= m.sys.clock
  }

  lemma RollbackFrees(m: Locked, sid: nat, other: nat, id: nat)
    requires LockedOk(m) && sid in m.sessions && other in m.sessions && other != sid && m.sessions[other].Holds(id)
    ensures var next := LockApply(m, Rollback(other));
            && LockedOk(next) && next.sys == m.sys && sid in next.sessions && next.sessions[sid] == m.sessions[sid]
            && forall o :: o in next.sessions && o != sid ==> !next.sessions[o].Holds(id)
  {
    LockStepKeepsLocks(m, Rollback(other));
  }

  /** Another transaction that holds the webhook can roll back. */
  lemma OthersLetGo(l: Locked, m: Locked, sid: nat, id: nat, source: string, version: int) returns (next: Locked)
    requires Leads(l, m, source) && IsUnderWay(m, sid, id, source, version)
    ensures Leads(l, next, source) && IsUnderWay(next, sid, id, source, version)
    ensures next.sys == m.sys && next.sessions[sid] == m.sessions[sid]
    ensures forall other :: other in next.sessions && other != sid ==> !next.sessions[other].Holds(id)
  {
    if other :| other in m.sessions && other != sid && m.sessions[other].Holds(id) {
      RollbackFrees(m, sid, other, id);
      LeadsOneMore(l, m, Rollback(other), source);
      next := LockApply(m, Rollback(other));
    } else {
      next := m;
    }
  }

  lemma OwnerMoves(l: Locked, m: Locked, w: nat, id: nat, source: string, version: int, lease: int) returns (next: Locked)
    requires Leads(l, m, source) && LockedOk(m) && IsFree(m, id)
    requires IsHolder(m.sys, w, id, source, version, lease) && HasReserve(m.sys, w, lease) && !m.sys.workers[w].phase.Reporting?
    ensures Leads(l, next, source) && LockedOk(next) && next.sessions == m.sessions && next.sys.clock == m.sys.clock
    ensures IsHolder(next.sys, w, id, source, version, lease) && HasReserve(next.sys, w, lease)
    ensures StepsToReport(next.sys.workers[w].phase) < StepsToReport(m.sys.workers[w].phase)
  {
    var attempt := Unused(m.sys.store.attemptIds);
    var call := NextCall(m.sys, w, attempt);
    NextCallIsPossible(m.sys, w, id, source, version, lease, attempt);
    if m.sys.workers[w].phase.Ready? {
      next := CallRunsThrough(l, m, call, id, source);
      CreatingGoesOn(m.sys, w, id, source, version, lease, call);
    } else {
      next := DirectRuns(l, m, call, source);
      ThinkingGoesOn(m.sys, w, id, source, version, lease, attempt);
    }
  }

  /** An owner in time can get its report through. */
  lemma {:induction false} OwnerReports(l: Locked, m: Locked, w: nat, id: nat, source: string, version: int, lease: int)
      returns (next: Locked)
    requires Leads(l, m, source) && LockedOk(m) && IsFree(m, id)
    requires IsHolder(m.sys, w, id, source, version, lease) && HasReserve(m.sys, w, lease)
    ensures Leads(l, next, source) && LockedOk(next) && next.sessions == m.sessions && next.sys.clock == m.sys.clock
    ensures IsPaused(next.sys, source) && HasVersion(next, id, source, version)
    ensures !next.sys.store.webhooks[id].status.Processing?
    decreases StepsToReport(m.sys.workers[w].phase)
  {
    if m.sys.workers[w].phase.Reporting? {
      next := OwnerFinishes(l, m, w, id, source, version, lease);
    } else {
      var moved := OwnerMoves(l, m, w, id, source, version, lease);
      next := OwnerReports(l, moved, w, id, source, version, lease);
    }
  }

  lemma OwnerFinishes(l: Locked, m: Locked, w: nat, id: nat, source: string, version: int, lease: int) returns (next: Locked)
    requires Leads(l, m, source) && LockedOk(m) && IsFree(m, id)
    requires IsHolder(m.sys, w, id, source, version, lease) && m.sys.workers[w].phase.Reporting?
    ensures Leads(l, next, source) && LockedOk(next) && next.sessions == m.sessions && next.sys.clock == m.sys.clock
    ensures IsPaused(next.sys, source) && HasVersion(next, id, source, version)
    ensures !next.sys.store.webhooks[id].status.Processing?
  {
    var attempt := Unused(m.sys.store.attemptIds);
    var call := NextCall(m.sys, w, attempt);
    NextCallIsPossible(m.sys, w, id, source, version, lease, attempt);
    assert WorkerOk(m.sys, m.sys.workers[w]);
    next := CallRunsThrough(l, m, call, id, source);
    FinishingReleases(m.sys, w, id, call);
  }

  // ---------- Calls that are about to commit ----------

  /** A lease check was made in the past, and the worker of a checked finish is waiting for it. */
  ghost predicate ChecksAreInPlace(l: Locked) {
    forall f :: f in l.sessions && ChecksLease(l.sessions[f].step) && l.sessions[f].rows != map[] ==>
      CheckIsInPlace(l.sys, l.sessions[f])
  }

  predicate CheckIsInPlace(sys: System, session: Session)
    requires ChecksLease(session.step)
  {
    && session.step.now <= sys.clock
    && (session.step.Finish? && At(sys, session.step.worker) && sys.workers[session.step.worker].claim.id in session.rows ==>
          sys.workers[session.step.worker].phase.Reporting?)
  }

  lemma ReportingWorkerWaits(sys: System, step: Step, w: nat)
    requires Enabled(sys, step) && w in sys.workers && sys.workers[w].phase.Reporting? && w in Apply(sys, step).workers
    ensures Apply(sys, step).workers[w] == sys.workers[w]
  {
  }

  lemma CheckStaysInPlace(sys: System, step: Step, session: Session)
    requires Enabled(sys, step) && ChecksLease(session.step) && CheckIsInPlace(sys, session)
    requires forall id :: id in session.rows ==> !Claims(step, id)
    ensures CheckIsInPlace(Apply(sys, step), session)
  {
    var next, w := Apply(sys, step), session.step.worker;
    ClockNeverGoesBack(sys, step);
    if session.step.Finish? && At(next, w) && next.workers[w].claim.id in session.rows {
      KeyStays(sys, step, w, next.workers[w].claim.id, next.workers[w].claim.webhook.leaseVersion);
      ReportingWorkerWaits(sys, step, w);
    }
  }

  /** While a check's transaction holds its rows, nothing claims them. */
  lemma HeldIsNotClaimed(l: Locked, step: LockStep, f: nat, id: nat)
    requires LockedOk(l) && LockEnabled(l, step) && f in l.sessions && ChecksLease(l.sessions[f].step) && id in l.sessions[f].rows
    ensures AtomicStep(l, step).Some? ==> !Claims(AtomicStep(l, step).value, id)
  {
    if step.Commit? && l.sessions[step.session].step.ClaimOne? {
      var claim := l.sessions[step.session];
      assert SessionOk(claim) && claim.rows.Keys == claim.targets;
      assert claim.step.id == id ==> claim.Holds(id) && l.sessions[f].Holds(id);
    }
  }

  lemma CheckOfSessionStays(l: Locked, step: LockStep, f: nat)
    requires LockedOk(l) && LockEnabled(l, step) && ChecksAreInPlace(l)
    requires f in LockApply(l, step).sessions
    requires ChecksLease(LockApply(l, step).sessions[f].step) && LockApply(l, step).sessions[f].rows != map[]
    ensures CheckIsInPlace(LockApply(l, step).sys, LockApply(l, step).sessions[f])
  {
    LockStepRefines(l, step);
    if AtomicStep(l, step).Some? {
      forall id | id in l.sessions[f].rows ensures !Claims(AtomicStep(l, step).value, id) {
        HeldIsNotClaimed(l, step, f, id);
      }
      CheckStaysInPlace(l.sys, AtomicStep(l, step).value, l.sessions[f]);
    }
  }

  lemma ChecksStayOneStep(l: Locked, step: LockStep)
    requires LockedOk(l) && LockEnabled(l, step) && ChecksAreInPlace(l)
    ensures ChecksAreInPlace(LockApply(l, step))
  {
    var next := LockApply(l, step);
    forall f | f in next.sessions && ChecksLease(next.sessions[f].step) && next.sessions[f].rows != map[]
      ensures CheckIsInPlace(next.sys, next.sessions[f])
    {
      CheckOfSessionStays(l, step, f);
    }
  }

  lemma {:induction false} ChecksStayInPlace(states: seq<Locked>, steps: seq<LockStep>, k: nat)
    requires IsLockedRun(states, steps) && k < |states|
    ensures ChecksAreInPlace(states[k])
  {
    if k > 0 {
      ChecksStayInPlace(states, steps, k - 1);
      LockedRunsAreOk(states, steps, k - 1);
      assert LockStepAt(states, steps, k - 1);
      ChecksStayOneStep(states[k - 1], steps[k - 1]);
    }
  }

  lemma OneTarget(session: Session, id: nat)
    requires SessionOk(session) && ChecksLease(session.step) && id in session.rows
    ensures session.rows.Keys == {id} == session.targets
  {
  }

  /** A call that has checked its lease can read the clock again and commit. */
  lemma CheckedCallCommits(l: Locked, m: Locked, f: nat, id: nat, source: string) returns (next: Locked)
    requires Leads(l, m, source) && LockedOk(m) && IsPaused(m.sys, source) && f in m.sessions
    requires ChecksLease(m.sessions[f].step) && id in m.sessions[f].rows && m.sessions[f].step.now <= m.sys.clock
    requires CallerPresent(m.sys, m.sessions[f].step) && m.sys.workers[m.sessions[f].step.worker].claim.id == id
    requires m.sessions[f].step.Create? ==> m.sessions[f].step.attempt !in m.sys.store.attemptIds
    ensures Leads(l, next, source) && LockedOk(next) && next.sessions == m.sessions - {f} && IsFree(next, id)
    ensures Next(m.sys, Stamped(m.sessions[f].step, m.sys.clock), next.sys)
  {
    OneTarget(m.sessions[f], id);
    var read := ClockIsRead(l, m, f, source);
    CheckedCallIsReady(m.sys, m.sessions[f].step, id);
    next := CallCommits(l, read, f, id, source);
    ChangedThenRemoved(m.sessions, f, read.sessions[f]);
    HolderLeft(m, next, f, id);
  }

  lemma ClockIsRead(l: Locked, m: Locked, f: nat, source: string) returns (read: Locked)
    requires Leads(l, m, source) && LockedOk(m) && IsPaused(m.sys, source) && f in m.sessions && ChecksLease(m.sessions[f].step)
    ensures Leads(l, read, source) && LockedOk(read)
    ensures read == m.(sessions := m.sessions[f := m.sessions[f].(step := Stamped(m.sessions[f].step, m.sys.clock))])
  {
    read := LockApply(m, ReadClock(f));
    ReadClockKeepsLocks(m, f);
    LeadsOneMore(l, m, ReadClock(f), source);
  }

  lemma CheckedCallIsReady(sys: System, step: Step, id: nat)
    requires ChecksLease(step) && CallerPresent(sys, step) && sys.workers[step.worker].claim.id == id && step.now <= sys.clock
    requires step.Create? ==> step.attempt !in sys.store.attemptIds
    ensures var stamped := Stamped(step, sys.clock); CallerReady(sys, stamped) && Targets(sys, stamped) == {id}
  {
  }

  lemma HolderLeft(m: Locked, next: Locked, f: nat, id: nat)
    requires LockedOk(m) && f in m.sessions && id in m.sessions[f].rows && next.sessions == m.sessions - {f}
    ensures IsFree(next, id)
  {
    assert m.sessions[f].Holds(id);
  }

  // ---------- Putting it together ----------

  /** A replay can make the webhook fit for the claim again. */
  lemma MadeFit(l: Locked, m: Locked, sid: nat, id: nat, source: string, version: int) returns (next: Locked)
    requires Leads(l, m, source) && IsUnderWay(m, sid, id, source, version) && IsFree(m, id)
    requires !m.sys.store.webhooks[id].status.Processing? || Qualifies(m.sessions[sid].step, m.sys.store.webhooks[id])
    ensures Leads(l, next, source) && IsUnderWay(next, sid, id, source, version)
    ensures next.sessions == m.sessions && Qualifies(next.sessions[sid].step, next.sys.store.webhooks[id])
  {
    if Qualifies(m.sessions[sid].step, m.sys.store.webhooks[id]) {
      next := m;
    } else {
      next := CallRunsThrough(l, m, Reset(id), id, source);
      assert IdleOutcome(m.sys.store, id).Pass?;
    }
  }

  lemma ClaimTakesLock(l: Locked, m: Locked, sid: nat, id: nat, source: string, version: int) returns (next: Locked)
    requires Leads(l, m, source) && IsUnderWay(m, sid, id, source, version) && IsFree(m, id)
    requires Qualifies(m.sessions[sid].step, m.sys.store.webhooks[id])
    ensures Leads(l, next, source) && IsUnderWay(next, sid, id, source, version) && id in next.sessions[sid].rows
  {
    assert SessionOk(m.sessions[sid]);
    next := LockApply(m, Acquire(sid, id));
    LockStepKeepsLocks(m, Acquire(sid, id));
    LeadsOneMore(l, m, Acquire(sid, id), source);
  }

  lemma ClaimHoldsWebhook(l: Locked, m: Locked, sid: nat, id: nat, source: string, version: int) returns (next: Locked)
    requires Leads(l, m, source) && IsUnderWay(m, sid, id, source, version)
    requires id in m.sessions[sid].rows || IsFree(m, id)
    requires id in m.sessions[sid].rows || !m.sys.store.webhooks[id].status.Processing?
             || Qualifies(m.sessions[sid].step, m.sys.store.webhooks[id])
    ensures Leads(l, next, source) && IsUnderWay(next, sid, id, source, version) && id in next.sessions[sid].rows
  {
    next := m;
    if id !in m.sessions[sid].rows {
      next := MadeFit(l, m, sid, id, source, version);
      next := ClaimTakesLock(l, next, sid, id, source, version);
    }
  }

  lemma CrashFreesWorker(m: Locked, worker: nat)
    requires LockedOk(m) && At(m.sys, worker)
    ensures LockEnabled(m, Direct(Crash(worker)))
    ensures var next := LockApply(m, Direct(Crash(worker)));
            && LockedOk(next) && next.sessions == m.sessions && !At(next.sys, worker)
            && next.sys.store == m.sys.store && next.sys.clock == m.sys.clock
  {
    DirectKeepsLocks(m, Crash(worker));
  }

  /** The worker that claims may still be at an earlier webhook; a crash ends that. */
  lemma WorkerIsFreed(l: Locked, m: Locked, sid: nat, id: nat, source: string, version: int) returns (next: Locked)
    requires Leads(l, m, source) && IsUnderWay(m, sid, id, source, version) && id in m.sessions[sid].rows
    ensures Leads(l, next, source) && IsUnderWay(next, sid, id, source, version) && id in next.sessions[sid].rows
    ensures !At(next.sys, next.sessions[sid].step.worker)
  {
    var worker := m.sessions[sid].step.worker;
    if At(m.sys, worker) {
      CrashFreesWorker(m, worker);
      LeadsOneMore(l, m, Direct(Crash(worker)), source);
      next := LockApply(m, Direct(Crash(worker)));
    } else {
      next := m;
    }
  }

  lemma ReadyClaimCommits(l: Locked, ready: Locked, sid: nat, id: nat, source: string, version: int) returns (done: Locked)
    requires Leads(l, ready, source) && IsUnderWay(ready, sid, id, source, version) && id in ready.sessions[sid].rows
    requires !At(ready.sys, ready.sessions[sid].step.worker)
    ensures Leads(l, done, source) && id in done.sys.store.webhooks
    ensures done.sys.store.webhooks[id].leaseVersion == version + 1
  {
    assert SessionOk(ready.sessions[sid]);
    PausedCommit(ready, sid, ready.sessions[sid].step);
    LeadsOneMore(l, ready, Commit(sid), source);
    done := LockApply(ready, Commit(sid));
  }

  /** A stale claim that holds its webhook, or could lock it once a replay has made it fit, commits. */
  lemma ClaimGoesThrough(l: Locked, m: Locked, sid: nat, id: nat, source: string, version: int)
    requires Leads(l, m, source) && IsUnderWay(m, sid, id, source, version) && HasVersion(l, id, source, version)
    requires id in m.sessions[sid].rows || IsFree(m, id)
    requires id in m.sessions[sid].rows || !m.sys.store.webhooks[id].status.Processing?
             || Qualifies(m.sessions[sid].step, m.sys.store.webhooks[id])
    ensures !HeldBack(l, id, source)
  {
    var held := ClaimHoldsWebhook(l, m, sid, id, source, version);
    var ready := WorkerIsFreed(l, held, sid, id, source, version);
    var done := ReadyClaimCommits(l, ready, sid, id, source, version);
  }

  /** What is known of a state that a run reaches. */
  ghost predicate IsReached(l: Locked) {
    LockedOk(l) && ReportsOk(l.sys) && ChecksAreInPlace(l)
  }

  /** A stale claim does not notice what another transaction commits. */
  lemma StaleClaimStays(l: Locked, next: Locked, sid: nat, f: nat, id: nat, source: string, version: int)
    requires IsUnderWay(l, sid, id, source, version) && f in l.sessions && ChecksLease(l.sessions[f].step)
    requires LockedOk(next) && next.sessions == l.sessions - {f}
    requires HasVersion(next, id, source, version) && next.sys.store.rules == l.sys.store.rules && next.sys.clock == l.sys.clock
    ensures IsUnderWay(next, sid, id, source, version)
  {
  }

  lemma CheckedFinish(l: Locked, f: nat, w: nat, id: nat, lease: int)
    requires IsReached(l) && IsOwner(l.sys, w, id) && l.sys.store.webhooks[id].leaseUntil == Some(lease)
    requires l.sys.store.webhooks[id].status.Processing?
    requires f in l.sessions && IsReport(l.sessions[f], w, id, lease)
    ensures CallerPresent(l.sys, l.sessions[f].step) && l.sessions[f].step.now <= l.sys.clock
    ensures ReportOk(l.sys.workers[w]) && StillOwns(l.sys, l.sys.workers[w].claim, l.sessions[f].step.now)
  {
    assert CheckIsInPlace(l.sys, l.sessions[f]);
    assert WorkerOk(l.sys, l.sys.workers[w]) && ReportOk(l.sys.workers[w]);
  }

  /** Case of a report on its way. */
  lemma ReportThenClaim(l: Locked, sid: nat, f: nat, w: nat, id: nat, source: string, version: int, lease: int)
    requires IsReached(l) && IsUnderWay(l, sid, id, source, version) && IsOwner(l.sys, w, id)
    requires l.sys.store.webhooks[id].status.Processing? && l.sys.store.webhooks[id].leaseUntil == Some(lease)
    requires f in l.sessions && IsReport(l.sessions[f], w, id, lease)
    ensures !HeldBack(l, id, source)
  {
    CheckedFinish(l, f, w, id, lease);
    LeadsNowhere(l, source);
    var next := CheckedCallCommits(l, l, f, id, source);
    FinishingReleases(l.sys, w, id, Stamped(l.sessions[f].step, l.sys.clock));
    StaleClaimStays(l, next, sid, f, id, source, version);
    ClaimGoesThrough(l, next, sid, id, source, version);
  }

  lemma OwnerThenClaim(l: Locked, m: Locked, sid: nat, w: nat, id: nat, source: string, version: int, lease: int)
    requires Leads(l, m, source) && IsUnderWay(m, sid, id, source, version) && HasVersion(l, id, source, version)
    requires IsFree(m, id) && IsHolder(m.sys, w, id, source, version, lease) && HasReserve(m.sys, w, lease)
    ensures !HeldBack(l, id, source)
  {
    var next := OwnerReports(l, m, w, id, source, version, lease);
    ClaimGoesThrough(l, next, sid, id, source, version);
  }

  lemma CheckedCreate(l: Locked, f: nat, w: nat, id: nat, source: string, version: int, lease: int)
    requires IsReached(l) && IsHolder(l.sys, w, id, source, version, lease) && l.sys.workers[w].phase.Ready?
    requires f in l.sessions && IsCreation(l.sys, l.sessions[f], w, id)
    ensures CallerPresent(l.sys, l.sessions[f].step) && l.sessions[f].step.now <= l.sys.clock
    ensures Enabled(l.sys, Stamped(l.sessions[f].step, l.sys.clock))
  {
    assert CheckIsInPlace(l.sys, l.sessions[f]);
  }

  /** Case of a create on its way. */
  lemma CreationThenClaim(l: Locked, sid: nat, f: nat, w: nat, id: nat, source: string, version: int, lease: int)
    requires IsReached(l) && IsUnderWay(l, sid, id, source, version) && IsHolder(l.sys, w, id, source, version, lease)
    requires l.sys.workers[w].phase.Ready? && f in l.sessions && IsCreation(l.sys, l.sessions[f], w, id)
    ensures !HeldBack(l, id, source)
  {
    CheckedCreate(l, f, w, id, source, version, lease);
    LeadsNowhere(l, source);
    var next := CheckedCallCommits(l, l, f, id, source);
    CreatingGoesOn(l.sys, w, id, source, version, lease, Stamped(l.sessions[f].step, l.sys.clock));
    CreatedStaleClaimStays(l, next, sid, f, w, id, source, version, lease);
    OwnerThenClaim(l, next, sid, w, id, source, version, lease);
  }

  lemma CreatedStaleClaimStays(l: Locked, next: Locked, sid: nat, f: nat, w: nat, id: nat, source: string, version: int, lease: int)
    requires IsUnderWay(l, sid, id, source, version) && f in l.sessions && ChecksLease(l.sessions[f].step)
    requires LockedOk(next) && next.sessions == l.sessions - {f}
    requires IsHolder(next.sys, w, id, source, version, lease) && next.sys.clock == l.sys.clock
    ensures IsUnderWay(next, sid, id, source, version)
  {
  }

  /** Case of an owner that has to start its calls. */
  lemma TimelyOwnerThenClaim(l: Locked, sid: nat, w: nat, id: nat, source: string, version: int, lease: int)
    requires IsReached(l) && IsUnderWay(l, sid, id, source, version) && id !in l.sessions[sid].rows
    requires IsHolder(l.sys, w, id, source, version, lease) && HasReserve(l.sys, w, lease)
    ensures !HeldBack(l, id, source)
  {
    LeadsNowhere(l, source);
    var m := OthersLetGo(l, l, sid, id, source, version);
    OwnerThenClaim(l, m, sid, w, id, source, version, lease);
  }

  lemma OwnerGivesWay(l: Locked, sid: nat, w: nat, id: nat, source: string, version: int, lease: int)
    requires IsReached(l) && IsUnderWay(l, sid, id, source, version) && id !in l.sessions[sid].rows
    requires l.sys.store.webhooks[id].status.Processing? && l.sys.store.webhooks[id].leaseUntil == Some(lease)
    requires IsOwner(l.sys, w, id) && CanReport(l, w, id, lease)
    ensures !HeldBack(l, id, source)
  {
    assert ReportOk(l.sys.workers[w]);
    if lease <= l.sys.clock {
      var f :| f in l.sessions && IsReport(l.sessions[f], w, id, lease);
      ReportThenClaim(l, sid, f, w, id, source, version, lease);
    } else if HasReserve(l.sys, w, lease) {
      TimelyOwnerThenClaim(l, sid, w, id, source, version, lease);
    } else {
      var f :| f in l.sessions && IsCreation(l.sys, l.sessions[f], w, id);
      CreationThenClaim(l, sid, f, w, id, source, version, lease);
    }
  }

  /** A stale claim within reach can commit while the source is paused. */
  lemma StaleClaimOvertakes(l: Locked, sid: nat, id: nat, source: string, version: int)
    requires IsReached(l) && IsUnderWay(l, sid, id, source, version) && IsWithinReach(l, sid, id)
    ensures !HeldBack(l, id, source)
  {
    LeadsNowhere(l, source);
    var row := l.sys.store.webhooks[id];
    assert RowOk(row);
    if id in l.sessions[sid].rows {
      ClaimGoesThrough(l, l, sid, id, source, version);
    } else if !row.status.Processing? || row.leaseUntil.value <= l.sessions[sid].step.now {
      var m := OthersLetGo(l, l, sid, id, source, version);
      ClaimGoesThrough(l, m, sid, id, source, version);
    } else {
      var w :| w in l.sys.workers && IsOwner(l.sys, w, id) && CanReport(l, w, id, row.leaseUntil.value);
      OwnerGivesWay(l, sid, w, id, source, version, row.leaseUntil.value);
    }
  }

  /** A claim in progress read a clock that is now past. */
  lemma {:induction false} ClaimsReadThePast(states: seq<Locked>, steps: seq<LockStep>, k: nat, sid: nat)
    requires IsLockedRun(states, steps) && k < |states| && sid in states[k].sessions && states[k].sessions[sid].step.ClaimOne?
    ensures states[k].sessions[sid].step.now <= states[k].sys.clock
  {
    assert LockStepAt(states, steps, k - 1);
    var before, step := states[k - 1], steps[k - 1];
    if step != Begin(sid, states[k].sessions[sid].step) {
      ClaimsReadThePast(states, steps, k - 1, sid);
      LockedRunsAreOk(states, steps, k - 1);
      LockStepRefines(before, step);
      if AtomicStep(before, step).Some? {
        ClockNeverGoesBack(before.sys, AtomicStep(before, step).value);
      }
    }
  }

  lemma OwnersCannotReport(l: Locked, id: nat, version: int, lease: int)
    requires id in l.sys.store.webhooks && l.sys.store.webhooks[id].leaseVersion == version && !OwnerCanReport(l, id, lease)
    ensures forall w :: w in l.sys.workers && l.sys.workers[w].Key() == (id, version) ==> !CanReport(l, w, id, lease)
  {
    forall w | w in l.sys.workers && l.sys.workers[w].Key() == (id, version) ensures !CanReport(l, w, id, lease) {
      assert IsOwner(l.sys, w, id);
    }
  }

  lemma SilentOwnersStrand(l: Locked, id: nat, version: int, lease: int)
    requires id in l.sys.store.webhooks && l.sys.store.webhooks[id].leaseVersion == version
    requires l.sys.store.webhooks[id].status.Processing? && l.sys.store.webhooks[id].leaseUntil == Some(lease)
    requires forall w :: w in l.sys.workers && l.sys.workers[w].Key() == (id, version) ==> !CanReport(l, w, id, lease)
    ensures IsStranded(l.sys, id, version, lease)
  {
  }

  lemma OutOfReachIsBlocked(l: Locked, id: nat, source: string)
    requires IsReached(l) && id in l.sys.store.webhooks && l.sys.store.webhooks[id].source == source
    requires HasStaleClaim(l, id, source) && !CanBeOvertaken(l, id, source)
    ensures l.sys.store.webhooks[id].leaseUntil.Some?
    ensures IsBlocked(l, id, source, l.sys.store.webhooks[id].leaseVersion, l.sys.store.webhooks[id].leaseUntil.value)
  {
    var row := l.sys.store.webhooks[id];
    var stale :| stale in l.sessions && IsStaleClaim(l, stale, id, source);
    assert !IsWithinReach(l, stale, id);
    var version, lease := row.leaseVersion, row.leaseUntil.value;
    assert RowOk(row);
    OwnersCannotReport(l, id, version, lease);
    SilentOwnersStrand(l, id, version, lease);
    forall sid | sid in l.sessions ensures CannotMove(l, sid, id, source, version, lease) {
      OutOfReachCannotMove(l, sid, id, source, version, lease);
    }
  }

  lemma OutOfReachCannotMove(l: Locked, sid: nat, id: nat, source: string, version: int, lease: int)
    requires IsReached(l) && sid in l.sessions && id in l.sys.store.webhooks && l.sys.store.webhooks[id].source == source
    requires l.sys.store.webhooks[id].leaseUntil == Some(lease) && l.sys.store.webhooks[id].status.Processing?
    requires !CanBeOvertaken(l, id, source)
    requires forall w :: w in l.sys.workers && l.sys.workers[w].Key() == (id, version) ==> !CanReport(l, w, id, lease)
    ensures CannotMove(l, sid, id, source, version, lease)
  {
    var session := l.sessions[sid];
    assert IsStaleClaim(l, sid, id, source) ==> !IsWithinReach(l, sid, id);
    if ChecksLease(session.step) && id in session.rows {
      assert CheckIsInPlace(l.sys, session);
    }
  }

  lemma RunsAreReached(states: seq<Locked>, steps: seq<LockStep>, p: nat)
    requires IsLockedRun(states, steps) && p < |states|
    ensures IsReached(states[p])
  {
    LockedRunsAreOk(states, steps, p);
    ChecksStayInPlace(states, steps, p);
    var atomic := LockedRunsRefineAtomicRuns(states, steps, p);
    RunsReport(atomic, Performed(states, steps, p), |atomic| - 1);
  }

  /** Exactly which webhooks a pause holds back: a webhook keeps its lease version through every continuation in
      which the source stays paused, if and only if no claim of it that did not see the pause is both under way
      and within reach of it. */
  lemma PauseHoldsTheQueueIff(states: seq<Locked>, steps: seq<LockStep>, p: nat, id: nat, source: string)
    requires IsLockedRun(states, steps) && p < |states| && IsPaused(states[p].sys, source)
    requires id in states[p].sys.store.webhooks && states[p].sys.store.webhooks[id].source == source
    ensures HeldBack(states[p], id, source) <==> !CanBeOvertaken(states[p], id, source)
  {
    var l := states[p];
    var row := l.sys.store.webhooks[id];
    RunsAreReached(states, steps, p);
    if sid :| sid in l.sessions && IsStaleClaim(l, sid, id, source) && IsWithinReach(l, sid, id) {
      ClaimsReadThePast(states, steps, p, sid);
      StaleClaimOvertakes(l, sid, id, source, row.leaseVersion);
    } else if HasStaleClaim(l, id, source) {
      OutOfReachIsBlocked(l, id, source);
      HeldBackWhenBlocked(l, id, source, row.leaseVersion, row.leaseUntil.value);
    } else {
      HeldBackWithoutStaleClaims(l, id, source);
    }
  }
}
