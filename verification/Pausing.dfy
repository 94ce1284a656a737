/** What pausing a source does to its queue over whole runs: which webhooks it holds back, and which claims
    it comes too late for. */
module Pausing {
  import opened Wrappers
  import opened DeliveryModel
  import opened Transactions
  import opened Protocol
  import opened Ownership
  import opened Fencing
  import opened RowLocks

  predicate IsPaused(sys: System, source: string) {
    source in sys.store.rules && sys.store.rules[source].paused
  }

  /** The last pause setting of a source since its rule was created, else the value it was created with. */
  function PauseSetting(log: seq<Event>, source: string): Option<bool> {
    if log == [] then None
    else
      var earlier := PauseSetting(log[..|log| - 1], source);
      match log[|log| - 1]
      case RuleAdded(s, paused) => if s == source then Some(paused) else earlier
      case PauseSet(s, paused) => if s == source then Some(paused) else earlier
      case RuleRemoved(s) => if s == source then None else earlier
      case _ => earlier
  }

  predicate RuleAgrees(s: Store, log: seq<Event>, source: string) {
    && (PauseSetting(log, source).Some? <==> source in s.rules)
    && (source in s.rules ==> s.rules[source].paused == PauseSetting(log, source).value)
  }

  lemma PauseTail(log: seq<Event>, event: Event, source: string)
    ensures PauseSetting(log + [event], source) ==
              match event
              case RuleAdded(s, paused) => if s == source then Some(paused) else PauseSetting(log, source)
              case PauseSet(s, paused) => if s == source then Some(paused) else PauseSetting(log, source)
              case RuleRemoved(s) => if s == source then None else PauseSetting(log, source)
              case _ => PauseSetting(log, source)
  {
    assert (log + [event])[..|log|] == log;
  }

  lemma SaveKeepsAgreement(sys: System, saved: string, rule: ForwardingRule, source: string)
    requires RuleAgrees(sys.store, sys.log, source)
    ensures var next := AfterSaveRule(sys, saved, rule); RuleAgrees(next.store, next.log, source)
  {
    PauseTail(sys.log, RuleAdded(saved, rule.paused), source);
  }

  lemma PauseKeepsAgreement(sys: System, changed: string, paused: bool, source: string)
    requires RuleAgrees(sys.store, sys.log, source)
    ensures var next := AfterSetPaused(sys, changed, paused); RuleAgrees(next.store, next.log, source)
  {
    PauseTail(sys.log, PauseSet(changed, paused), source);
  }

  lemma DeleteKeepsAgreement(sys: System, deleted: string, source: string)
    requires RuleAgrees(sys.store, sys.log, source)
    ensures var next := AfterDeleteRule(sys, deleted); RuleAgrees(next.store, next.log, source)
  {
    PauseTail(sys.log, RuleRemoved(deleted), source);
  }

  lemma RuleEditKeepsAgreement(sys: System, step: Step, source: string)
    requires Enabled(sys, step) && IsRuleEdit(step) && RuleAgrees(sys.store, sys.log, source)
    ensures RuleAgrees(Apply(sys, step).store, Apply(sys, step).log, source)
  {
    match step
    case SaveRule(saved, rule) => SaveKeepsAgreement(sys, saved, rule, source);
    case SetPaused(changed, paused) => PauseKeepsAgreement(sys, changed, paused, source);
    case DeleteRule(deleted) => DeleteKeepsAgreement(sys, deleted, source);
  }

  /** The paused flag is the last pause setting since the rule was created, whatever rule saves interleave. */
  lemma {:induction false} PausedFlagIsLastSetting(states: seq<System>, steps: seq<Step>, k: nat, source: string)
    requires IsRun(states, steps) && k < |states|
    ensures RuleAgrees(states[k].store, states[k].log, source)
  {
    if k > 0 {
      PausedFlagIsLastSetting(states, steps, k - 1, source);
      var sys, step := states[k - 1], steps[k - 1];
      assert StepAt(states, steps, k - 1);
      if IsRuleEdit(step) {
        RuleEditKeepsAgreement(sys, step, source);
      } else {
        OtherStepsKeepRules(sys, step);
        if states[k].log != sys.log {
          PauseTail(sys.log, states[k].log[|sys.log|], source);
        }
      }
    }
  }

  // ---------- Where a claim comes from ----------

  /** A claim commits with the paused sources its query saw when it began. */
  lemma {:induction false} SessionsBegan(states: seq<Locked>, steps: seq<LockStep>, k: nat, sid: nat) returns (j: nat)
    requires IsLockedRun(states, steps) && k < |states| && sid in states[k].sessions && states[k].sessions[sid].step.ClaimOne?
    ensures j < k && steps[j] == Begin(sid, states[k].sessions[sid].step)
    ensures forall i :: j < i <= k ==> sid in states[i].sessions && states[i].sessions[sid].step == states[k].sessions[sid].step
  {
    assert LockStepAt(states, steps, k - 1);
    if steps[k - 1] == Begin(sid, states[k].sessions[sid].step) {
      j := k - 1;
    } else {
      j := SessionsBegan(states, steps, k - 1, sid);
    }
  }

  /** A webhook only gains a lease version from a claim whose query ran while the source was not paused. A claim
      can therefore commit after a pause only if it had begun before it. */
  lemma ClaimsBeganUnpaused(states: seq<Locked>, steps: seq<LockStep>, k: nat, sid: nat) returns (j: nat)
    requires IsLockedRun(states, steps) && k < |steps| && steps[k] == Commit(sid)
    requires sid in states[k].sessions && states[k].sessions[sid].step.ClaimOne?
    ensures j < k && steps[j] == Begin(sid, states[k].sessions[sid].step)
    ensures var id := states[k].sessions[sid].step.id;
            && id in states[k].sys.store.webhooks
            && states[k].sys.store.webhooks[id].source !in PausedSources(states[j].sys.store)
  {
    assert LockStepAt(states, steps, k);
    LockedRunsAreOk(states, steps, k);
    assert IsFrozen(states[k].sys, states[k].sessions[sid]);
    assert states[k].sessions[sid].step.id in states[k].sessions[sid].rows;
    j := SessionsBegan(states, steps, k, sid);
    assert LockStepAt(states, steps, j);
  }

  // ---------- Paths while a source is paused ----------

  /** States that lock-level steps lead through; the source is paused in all of them but possibly the last. */
  ghost predicate IsPausedPath(states: seq<Locked>, steps: seq<LockStep>, source: string) {
    && |states| == |steps| + 1
    && (forall i :: 0 <= i < |steps| ==> LockStepAt(states, steps, i))
    && forall i :: 0 <= i < |steps| ==> IsPaused(states[i].sys, source)
  }

  ghost predicate Leads(l: Locked, m: Locked, source: string) {
    exists states, steps :: IsPausedPath(states, steps, source) && states[0] == l && states[|steps|] == m
  }

  predicate HasVersion(l: Locked, id: nat, source: string, version: int) {
    && id in l.sys.store.webhooks
    && l.sys.store.webhooks[id].source == source
    && l.sys.store.webhooks[id].leaseVersion == version
  }

  /** A claim of the webhook is under way that did not see the pause, and has not given the webhook up. */
  predicate IsStaleClaim(l: Locked, sid: nat, id: nat, source: string) {
    && sid in l.sessions
    && l.sessions[sid].step.ClaimOne?
    && l.sessions[sid].step.id == id
    && source !in l.sessions[sid].step.pausedSeen
    && id !in l.sessions[sid].unfit
  }

  predicate HasStaleClaim(l: Locked, id: nat, source: string) {
    exists sid :: sid in l.sessions && IsStaleClaim(l, sid, id, source)
  }

  /** Whatever happens from here while the source is paused, the webhook gains no lease version. */
  ghost predicate HeldBack(l: Locked, id: nat, source: string)
    requires id in l.sys.store.webhooks
  {
    forall m :: Leads(l, m, source) && id in m.sys.store.webhooks ==>
      m.sys.store.webhooks[id].leaseVersion == l.sys.store.webhooks[id].leaseVersion
  }

  // ---------- Without a stale claim the webhook is held back ----------

  /** A claim that could commit holds its webhook, which qualified under the paused sources the claim saw. */
  lemma CommittingClaimIsStale(l: Locked, sid: nat)
    requires LockedOk(l) && LockEnabled(l, Commit(sid)) && l.sessions[sid].step.ClaimOne?
    ensures var id := l.sessions[sid].step.id;
            && id in l.sys.store.webhooks
            && IsStaleClaim(l, sid, id, l.sys.store.webhooks[id].source)
            && Qualifies(l.sessions[sid].step, l.sys.store.webhooks[id])
  {
    var session := l.sessions[sid];
    assert SessionOk(session) && IsFrozen(l.sys, session);
    assert session.step.id in session.rows;
  }

  lemma PausedStepClaimsNothing(l: Locked, step: LockStep, id: nat)
    requires LockedOk(l) && LockEnabled(l, step) && id in l.sys.store.webhooks
    requires !HasStaleClaim(l, id, l.sys.store.webhooks[id].source)
    ensures AtomicStep(l, step).Some? ==> !Claims(AtomicStep(l, step).value, id)
  {
    if step.Commit? && l.sessions[step.session].step.ClaimOne? {
      CommittingClaimIsStale(l, step.session);
    }
  }

  /** No claim that begins during the pause is stale. */
  lemma PausedStepKeepsClaimsFresh(l: Locked, step: LockStep, id: nat, source: string)
    requires LockEnabled(l, step) && IsPaused(l.sys, source) && !HasStaleClaim(l, id, source)
    ensures !HasStaleClaim(LockApply(l, step), id, source)
  {
    var next := LockApply(l, step);
    forall sid | sid in next.sessions ensures !IsStaleClaim(next, sid, id, source) {
      assert sid in l.sessions ==> !IsStaleClaim(l, sid, id, source);
    }
  }

  lemma PausedStepKeepsVersion(l: Locked, step: LockStep, id: nat, source: string, version: int)
    requires LockedOk(l) && LockEnabled(l, step) && id in l.sys.store.webhookIds
    requires id in l.sys.store.webhooks ==> HasVersion(l, id, source, version)
    requires !HasStaleClaim(l, id, source)
    ensures id in LockApply(l, step).sys.store.webhookIds
    ensures id in LockApply(l, step).sys.store.webhooks ==> HasVersion(LockApply(l, step), id, source, version)
  {
    var next := LockApply(l, step);
    LockStepRefines(l, step);
    match AtomicStep(l, step)
    case None =>
    case Some(call) =>
      StepGrowsIds(l.sys, call);
      if id in next.sys.store.webhooks {
        StepVersion(l.sys, call, id);
        PausedStepClaimsNothing(l, step, id);
        SourcesAreFixed(l.sys, call, id);
      }
  }

  lemma SourcesAreFixed(sys: System, step: Step, id: nat)
    requires Enabled(sys, step) && id in sys.store.webhookIds
    requires id in sys.store.webhooks && id in Apply(sys, step).store.webhooks
    ensures Apply(sys, step).store.webhooks[id].source == sys.store.webhooks[id].source
  {
    if IsQuiet(step) {
      QuietSteps(sys, step);
    }
  }

  lemma {:induction false} PausedPathKeepsVersion(states: seq<Locked>, steps: seq<LockStep>, k: nat, id: nat, source: string, version: int)
    requires IsPausedPath(states, steps, source) && k < |states| && LockedOk(states[0])
    requires HasVersion(states[0], id, source, version) && !HasStaleClaim(states[0], id, source)
    ensures LockedOk(states[k]) && !HasStaleClaim(states[k], id, source) && id in states[k].sys.store.webhookIds
    ensures id in states[k].sys.store.webhooks ==> HasVersion(states[k], id, source, version)
    decreases k
  {
    if k > 0 {
      PausedPathKeepsVersion(states, steps, k - 1, id, source, version);
      assert LockStepAt(states, steps, k - 1) && IsPaused(states[k - 1].sys, source);
      LockStepKeepsLocks(states[k - 1], steps[k - 1]);
      PausedStepKeepsClaimsFresh(states[k - 1], steps[k - 1], id, source);
      PausedStepKeepsVersion(states[k - 1], steps[k - 1], id, source, version);
    }
  }

  lemma HeldBackWithoutStaleClaims(l: Locked, id: nat, source: string)
    requires LockedOk(l) && id in l.sys.store.webhooks && l.sys.store.webhooks[id].source == source
    requires !HasStaleClaim(l, id, source)
    ensures HeldBack(l, id, source)
  {
    forall m | Leads(l, m, source) && id in m.sys.store.webhooks
      ensures m.sys.store.webhooks[id].leaseVersion == l.sys.store.webhooks[id].leaseVersion
    {
      var states, steps :| IsPausedPath(states, steps, source) && states[0] == l && states[|steps|] == m;
      PausedPathKeepsVersion(states, steps, |steps|, id, source, l.sys.store.webhooks[id].leaseVersion);
    }
  }

  lemma PausedPartOfRun(states: seq<Locked>, steps: seq<LockStep>, p: nat, k: nat, source: string)
    requires IsLockedRun(states, steps) && p <= k < |states|
    requires forall i :: p <= i < k ==> IsPaused(states[i].sys, source)
    ensures IsPausedPath(states[p..k + 1], steps[p..k], source)
  {
    var path, moves := states[p..k + 1], steps[p..k];
    forall i | 0 <= i < |moves| ensures LockStepAt(path, moves, i) && IsPaused(path[i].sys, source) {
      assert LockStepAt(states, steps, p + i);
    }
  }

  /** From a pause until a resume or the deletion of the rule, no webhook of the source gains a lease version,
      unless a claim of that webhook is under way when the pause takes effect. */
  lemma PauseHoldsTheQueue(states: seq<Locked>, steps: seq<LockStep>, p: nat, k: nat, id: nat, source: string)
    requires IsLockedRun(states, steps) && p <= k < |states|
    requires forall i :: p <= i < k ==> IsPaused(states[i].sys, source)
    requires id in states[p].sys.store.webhooks && states[p].sys.store.webhooks[id].source == source
    requires !HasStaleClaim(states[p], id, source)
    requires id in states[k].sys.store.webhooks
    ensures states[k].sys.store.webhooks[id].leaseVersion == states[p].sys.store.webhooks[id].leaseVersion
  {
    LockedRunsAreOk(states, steps, p);
    PausedPartOfRun(states, steps, p, k, source);
    PausedPathKeepsVersion(states[p..k + 1], steps[p..k], k - p, id, source, states[p].sys.store.webhooks[id].leaseVersion);
  }

  // ---------- Such a claim exists ----------

  /** A claim could begin here and now, and lock its webhook at once. */
  ghost predicate ClaimCouldStart(l: Locked, sid: nat, claim: Step) {
    && LockedOk(l) && sid !in l.sessions && claim.ClaimOne?
    && !At(l.sys, claim.worker) && claim.now <= l.sys.clock && claim.pausedSeen == PausedSources(l.sys.store)
    && claim.id in l.sys.store.webhooks && IsFree(l, claim.id)
    && Deliverable(l.sys.store.webhooks[claim.id], claim.now, claim.pausedSeen)
  }

  lemma ClaimLocks(l: Locked, sid: nat, claim: Step) returns (began: Locked, locked: Locked)
    requires ClaimCouldStart(l, sid, claim)
    ensures LockEnabled(l, Begin(sid, claim)) && began == LockApply(l, Begin(sid, claim))
    ensures LockEnabled(began, Acquire(sid, claim.id)) && locked == LockApply(began, Acquire(sid, claim.id))
    ensures LockedOk(locked) && locked.sys == l.sys && sid in locked.sessions
    ensures locked.sessions[sid].step == claim && locked.sessions[sid].targets == locked.sessions[sid].rows.Keys == {claim.id}
  {
    ClaimBegins(l, sid, claim);
    began := LockApply(l, Begin(sid, claim));
    locked := LockApply(began, Acquire(sid, claim.id));
    AcquireKeepsLocks(began, sid, claim.id);
  }

  lemma ClaimBegins(l: Locked, sid: nat, claim: Step)
    requires ClaimCouldStart(l, sid, claim)
    ensures LockEnabled(l, Begin(sid, claim))
    ensures var began := LockApply(l, Begin(sid, claim));
            && LockedOk(began) && IsFree(began, claim.id)
            && began == l.(sessions := l.sessions[sid := Session(claim, {claim.id}, map[], map[], {})])
  {
    BeginKeepsLocks(l, sid, claim);
  }

  /** Such a claim exists. From any state in which it could start, a claim can begin, lock its webhook, be
      overtaken by a pause of the source, and commit: the webhook of the paused source gains a version. */
  lemma PauseOvertakesClaim(l: Locked, sid: nat, claim: Step) returns (began: Locked, locked: Locked, paused: Locked, done: Locked)
    requires ClaimCouldStart(l, sid, claim) && l.sys.store.webhooks[claim.id].source in l.sys.store.rules
    ensures LockEnabled(l, Begin(sid, claim)) && began == LockApply(l, Begin(sid, claim))
    ensures LockEnabled(began, Acquire(sid, claim.id)) && locked == LockApply(began, Acquire(sid, claim.id))
    ensures var pause := Direct(SetPaused(l.sys.store.webhooks[claim.id].source, true));
            LockEnabled(locked, pause) && paused == LockApply(locked, pause)
    ensures LockEnabled(paused, Commit(sid)) && done == LockApply(paused, Commit(sid))
    ensures l.sys.store.webhooks[claim.id].source in PausedSources(paused.sys.store)
    ensures paused.sys.store.webhooks == l.sys.store.webhooks
    ensures claim.id in paused.sys.store.webhooks && claim.id in done.sys.store.webhooks
    ensures done.sys.store.webhooks[claim.id].leaseVersion == paused.sys.store.webhooks[claim.id].leaseVersion + 1
  {
    began, locked := ClaimLocks(l, sid, claim);
    paused := PauseLocked(locked, sid, l.sys.store.webhooks[claim.id].source);
    PausedCommit(paused, sid, claim);
    done := LockApply(paused, Commit(sid));
  }

  lemma PauseLocked(l: Locked, sid: nat, source: string) returns (paused: Locked)
    requires LockedOk(l) && sid in l.sessions && source in l.sys.store.rules
    ensures LockEnabled(l, Direct(SetPaused(source, true))) && paused == LockApply(l, Direct(SetPaused(source, true)))
    ensures LockedOk(paused) && paused.sessions == l.sessions && source in PausedSources(paused.sys.store)
    ensures paused.sys.workers == l.sys.workers && paused.sys.clock == l.sys.clock
    ensures paused.sys.store.webhooks == l.sys.store.webhooks
  {
    paused := LockApply(l, Direct(SetPaused(source, true)));
    DirectKeepsLocks(l, SetPaused(source, true));
  }

  lemma PausedCommit(l: Locked, sid: nat, claim: Step)
    requires LockedOk(l) && sid in l.sessions && l.sessions[sid].step == claim && claim.ClaimOne?
    requires l.sessions[sid].targets == l.sessions[sid].rows.Keys == {claim.id}
    requires !At(l.sys, claim.worker) && claim.now <= l.sys.clock
    ensures LockEnabled(l, Commit(sid)) && claim.id in l.sys.store.webhooks
    ensures var done := LockApply(l, Commit(sid));
            && claim.id in done.sys.store.webhooks
            && done.sys.store.webhooks[claim.id].leaseVersion == l.sys.store.webhooks[claim.id].leaseVersion + 1
  {
    CommitIsAtomic(l, sid);
    assert IsFrozen(l.sys, l.sessions[sid]) && claim.id in l.sessions[sid].rows;
  }

  /** A state in which that happens: one pending webhook of a source with a rule, nobody working. */
  function OvertakeStart(): Locked {
    var rule := ForwardingRule("http://target", false, "", "", 0, "", 0, 0);
    Locked(AfterSaveRule(AfterReceive(INITIAL, 1, NewWebhook("s", "", [], 0)), "s", rule), map[])
  }

  /** That state is reached by receiving the webhook and saving the rule ... */
  lemma OvertakeStartIsReached()
    ensures LockEnabled(START, Direct(Receive(1, "s", "", [], 0)))
    ensures var received := LockApply(START, Direct(Receive(1, "s", "", [], 0)));
            var saveRule := Direct(SaveRule("s", OvertakeStart().sys.store.rules["s"]));
            LockEnabled(received, saveRule) && OvertakeStart() == LockApply(received, saveRule)
    ensures LockedOk(OvertakeStart())
  {
    assert LockedOk(START);
    DirectKeepsLocks(START, Receive(1, "s", "", [], 0));
    DirectKeepsLocks(LockApply(START, Direct(Receive(1, "s", "", [], 0))), SaveRule("s", OvertakeStart().sys.store.rules["s"]));
  }

  /** ... a claim that PauseOvertakesClaim applies to can start there ... */
  lemma OvertakingCanStart()
    ensures var l := OvertakeStart();
            ClaimCouldStart(l, 7, ClaimOne(0, 1, 0, 10, {})) && l.sys.store.webhooks[1].source in l.sys.store.rules
  {
    OvertakeStartIsReached();
    assert PausedSources(OvertakeStart().sys.store) == {};
  }

  lemma RunGrows(states: seq<Locked>, steps: seq<LockStep>, step: LockStep, next: Locked)
      returns (longer: seq<Locked>, more: seq<LockStep>)
    requires IsLockedRun(states, steps) && LockEnabled(states[|steps|], step) && next == LockApply(states[|steps|], step)
    ensures IsLockedRun(longer, more) && longer == states + [next] && more == steps + [step] && longer[|more|] == next
  {
    longer, more := states + [next], steps + [step];
    forall i | 0 <= i < |more| ensures LockStepAt(longer, more, i) {
      if i < |steps| {
        assert LockStepAt(states, steps, i);
      }
    }
  }

  lemma RunToOvertakeStart() returns (states: seq<Locked>, steps: seq<LockStep>)
    ensures IsLockedRun(states, steps) && states[|steps|] == OvertakeStart()
  {
    OvertakeStartIsReached();
    var receive := Direct(Receive(1, "s", "", [], 0));
    var saveRule := Direct(SaveRule("s", OvertakeStart().sys.store.rules["s"]));
    states, steps := RunGrows([START], [], receive, LockApply(START, receive));
    states, steps := RunGrows(states, steps, saveRule, OvertakeStart());
  }

  lemma RunToPause(began: Locked, locked: Locked, paused: Locked, claim: Step) returns (states: seq<Locked>, steps: seq<LockStep>)
    requires LockEnabled(OvertakeStart(), Begin(7, claim)) && began == LockApply(OvertakeStart(), Begin(7, claim))
    requires LockEnabled(began, Acquire(7, 1)) && locked == LockApply(began, Acquire(7, 1))
    requires LockEnabled(locked, Direct(SetPaused("s", true))) && paused == LockApply(locked, Direct(SetPaused("s", true)))
    ensures IsLockedRun(states, steps) && |steps| > 0 && states[|steps|] == paused
    ensures steps[|steps| - 1] == Direct(SetPaused("s", true))
  {
    states, steps := RunToOvertakeStart();
    states, steps := RunGrows(states, steps, Begin(7, claim), began);
    states, steps := RunGrows(states, steps, Acquire(7, 1), locked);
    states, steps := RunGrows(states, steps, Direct(SetPaused("s", true)), paused);
  }

  /** ... so there is a run in which a commit claims a webhook of a source that the step before had paused. */
  lemma PauseCanBeOvertaken() returns (states: seq<Locked>, steps: seq<LockStep>, p: nat)
    ensures IsLockedRun(states, steps) && 0 < p < |steps|
    ensures steps[p - 1] == Direct(SetPaused("s", true)) && IsPaused(states[p].sys, "s")
    ensures 1 in states[p].sys.store.webhooks && 1 in states[p + 1].sys.store.webhooks
    ensures states[p].sys.store.webhooks[1].source == "s"
    ensures states[p + 1].sys.store.webhooks[1].leaseVersion == states[p].sys.store.webhooks[1].leaseVersion + 1
  {
    OvertakingCanStart();
    var claim := ClaimOne(0, 1, 0, 10, {});
    var began, locked, paused, done := PauseOvertakesClaim(OvertakeStart(), 7, claim);
    states, steps := RunToPause(began, locked, paused, claim);
    p := |steps|;
    states, steps := RunGrows(states, steps, Commit(7), done);
  }
}
