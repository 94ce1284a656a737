/** Deliveries can always be made: from every reachable state, a webhook that is due can be claimed, sent and
    finished, and its row then is the outcome of whatever its target answers. */
module Progress {
  import opened Wrappers
  import opened DeliveryModel
  import opened Transactions
  import opened StoreInvariant
  import opened Forwarding
  import opened Protocol
  import opened Ownership
  import opened TimedExclusion
  import opened Effects
  import opened Deliveries

  /** The worker has reached `phase` with the latest claim of its webhook, and time for a delivery is left. */
  ghost predicate IsAt(sys: System, worker: nat, claim: Claim, phase: Phase) {
    && OwnershipOk(sys) && RequestsOk(sys)
    && worker in sys.workers && sys.workers[worker] == Worker(claim, phase)
    && claim.id in sys.store.webhooks && sys.store.webhooks[claim.id] == claim.webhook
    && claim.webhook.leaseVersion >= 1 && claim.webhook.status.Processing?
    && claim.webhook.leaseUntil.Some? && sys.clock + 5 * SECOND < claim.webhook.leaseUntil.value
  }

  lemma NextIsOwned(sys: System, step: Step)
    requires OwnershipOk(sys) && RequestsOk(sys) && Enabled(sys, step)
    ensures OwnershipOk(Apply(sys, step)) && RequestsOk(Apply(sys, step))
  {
    StepKeepsOwnership(sys, step);
    StepKeepsRequests(sys, step);
  }

  /** The webhook is due: it waits and its retry time has come, or its worker's lease has run out; and its source
      is not paused and has a target. */
  predicate IsDue(sys: System, id: nat) {
    && id in sys.store.webhooks
    && var w := sys.store.webhooks[id];
       && w.source in sys.store.rules && !sys.store.rules[w.source].paused && sys.store.rules[w.source].target != ""
       && (|| w.status.Pending?
           || (w.status.Retrying? && w.nextRetryAt.Some? && w.nextRetryAt.value <= sys.clock)
           || (w.status.Processing? && w.leaseUntil.Some? && w.leaseUntil.value <= sys.clock))
  }

  lemma CanStart(sys: System, worker: nat, id: nat, leaseUntil: int) returns (claim: Claim)
    requires OwnershipOk(sys) && RequestsOk(sys) && worker !in sys.workers && IsDue(sys, id) && sys.clock + 5 * SECOND < leaseUntil
    ensures var step := ClaimOne(worker, id, sys.clock, leaseUntil, PausedSources(sys.store));
            Enabled(sys, step) && IsAt(Apply(sys, step), worker, claim, Holding)
            && Apply(sys, step).store.rules == sys.store.rules && Apply(sys, step).clock == sys.clock
            && Apply(sys, step).store.attemptIds == sys.store.attemptIds
    ensures var before := sys.store.webhooks[id];
            claim == Claim(id, before.(status := Processing, nextRetryAt := None, leaseUntil := Some(leaseUntil),
                                       leaseVersion := before.leaseVersion + 1))
  {
    assert RowOk(sys.store.webhooks[id]);
    claim := Claim(id, ClaimedRow(sys.store.webhooks[id], leaseUntil));
    NextIsOwned(sys, ClaimOne(worker, id, sys.clock, leaseUntil, PausedSources(sys.store)));
  }

  lemma CanLoad(sys: System, worker: nat, claim: Claim)
    requires IsAt(sys, worker, claim, Holding) && claim.webhook.source in sys.store.rules
    ensures Enabled(sys, LoadRule(worker))
    ensures var next := Apply(sys, LoadRule(worker));
            && IsAt(next, worker, claim, Ready(Some(sys.store.rules[claim.webhook.source])))
            && next.store == sys.store && next.clock == sys.clock
  {
    NextIsOwned(sys, LoadRule(worker));
  }

  lemma CanCreate(sys: System, worker: nat, claim: Claim, rule: Option<ForwardingRule>, attempt: nat)
    requires IsAt(sys, worker, claim, Ready(rule)) && attempt !in sys.store.attemptIds
    ensures var step := Create(worker, attempt, sys.clock, sys.clock);
            Enabled(sys, step) && IsAt(Apply(sys, step), worker, claim, Prepared(rule, attempt)) && Apply(sys, step).clock == sys.clock
  {
    assert WorkerOk(sys, sys.workers[worker]);
    assert CreateSucceeds(sys, worker, attempt, sys.clock);
    NextIsOwned(sys, Create(worker, attempt, sys.clock, sys.clock));
  }

  lemma CanBeSent(sys: System, worker: nat, claim: Claim, rule: ForwardingRule, attempt: nat, timeout: int)
    requires IsAt(sys, worker, claim, Prepared(Some(rule), attempt)) && rule.target != ""
    ensures Enabled(sys, Send(worker, timeout))
    ensures var next := Apply(sys, Send(worker, timeout));
            IsAt(next, worker, claim, Requesting(Some(rule), attempt, |sys.requests|)) && next.clock == sys.clock
  {
    NextIsOwned(sys, Send(worker, timeout));
  }

  lemma CanReply(sys: System, worker: nat, claim: Claim, rule: Option<ForwardingRule>, attempt: nat, request: nat, reply: HttpReply)
    requires IsAt(sys, worker, claim, Requesting(rule, attempt, request))
    ensures Enabled(sys, Reply(worker, reply))
    ensures var next := Apply(sys, Reply(worker, reply));
            IsAt(next, worker, claim, Answered(rule, attempt, Judge(reply))) && next.clock == sys.clock
  {
    NextIsOwned(sys, Reply(worker, reply));
  }

  lemma CanDecide(sys: System, worker: nat, claim: Claim, rule: ForwardingRule, attempt: nat, exchange: Exchange)
    returns (result: DeliveryResult)
    requires IsAt(sys, worker, claim, Answered(Some(rule), attempt, exchange)) && rule.target != "" && claim.webhook.failureCount >= 0
    ensures var step := Decide(worker, None, 0);
            Enabled(sys, step) && IsAt(Apply(sys, step), worker, claim, Reporting(Some(rule), attempt, result))
            && Apply(sys, step).clock == sys.clock
    ensures IsDecision(Some(rule), Some(exchange), claim.webhook.failureCount, None, sys.clock, result)
  {
    result := Report(Some(rule), exchange, claim.webhook.failureCount, None, sys.clock, 0);
    ReportIsDecision(Some(rule), Some(exchange), claim.webhook.failureCount, None, sys.clock, 0);
    NextIsOwned(sys, Decide(worker, None, 0));
  }

  lemma CanFinish(sys: System, worker: nat, claim: Claim, rule: Option<ForwardingRule>, attempt: nat, result: DeliveryResult)
    requires IsAt(sys, worker, claim, Reporting(rule, attempt, result)) && (result.status.Succeeded? || result.status.Failed?)
    ensures var step := Finish(worker, sys.clock, sys.clock);
            && Enabled(sys, step)
            && claim.id in Apply(sys, step).store.webhooks
            && IsFinished(claim.webhook, result, sys.clock, Apply(sys, step).store.webhooks[claim.id])
  {
    assert WorkerOk(sys, sys.workers[worker]);
    assert FinishSucceeds(sys, worker, sys.clock);
    RowAfterStep(sys, Finish(worker, sys.clock, sys.clock), claim.id);
  }

  // ---------- One step after the other ----------

  /** The calls can be made one after the other and end in `end`. */
  ghost predicate Leads(sys: System, calls: seq<Step>, end: System)
    decreases |calls|
  {
    if calls == [] then sys == end else Enabled(sys, calls[0]) && Leads(Apply(sys, calls[0]), calls[1..], end)
  }

  lemma LeadsFrom(sys: System, call: Step, next: System, rest: seq<Step>, end: System)
    requires Enabled(sys, call) && next == Apply(sys, call) && Leads(next, rest, end)
    ensures Leads(sys, [call] + rest, end)
  {
    assert ([call] + rest)[1..] == rest;
  }

  lemma RunGoesOn(states: seq<System>, steps: seq<Step>, step: Step) returns (longer: seq<System>, more: seq<Step>)
    requires IsRun(states, steps) && Enabled(states[|steps|], step)
    ensures IsRun(longer, more) && more == steps + [step] && longer[|more|] == Apply(states[|steps|], step)
  {
    longer, more := states + [Apply(states[|steps|], step)], steps + [step];
    forall i | 0 <= i < |more| ensures StepAt(longer, more, i) {
      if i < |steps| {
        assert StepAt(states, steps, i);
      }
    }
  }

  lemma {:induction false} RunAlong(states: seq<System>, steps: seq<Step>, calls: seq<Step>, end: System)
    returns (longer: seq<System>)
    requires IsRun(states, steps) && Leads(states[|steps|], calls, end)
    ensures IsRun(longer, steps + calls) && longer[|steps + calls|] == end
    decreases |calls|
  {
    if calls == [] {
      assert steps + calls == steps;
      longer := states;
    } else {
      var more;
      longer, more := RunGoesOn(states, steps, calls[0]);
      longer := RunAlong(longer, more, calls[1..], end);
      assert more + calls[1..] == steps + calls;
    }
  }

  function CallsFromReport(worker: nat, clock: int): seq<Step> {
    [Finish(worker, clock, clock)]
  }

  function CallsFromRequest(worker: nat, clock: int, reply: HttpReply): seq<Step> {
    [Reply(worker, reply)] + ([Decide(worker, None, 0)] + CallsFromReport(worker, clock))
  }

  function CallsFromRule(worker: nat, clock: int, attempt: nat, timeout: int, reply: HttpReply): seq<Step> {
    [Create(worker, attempt, clock, clock)] + ([Send(worker, timeout)] + CallsFromRequest(worker, clock, reply))
  }

  /** The webhook of the claim ended as the reply says. */
  ghost predicate Ends(end: System, claim: Claim, rule: ForwardingRule, reply: HttpReply, clock: int)
    requires claim.webhook.failureCount >= 0
  {
    && claim.id in end.store.webhooks
    && IsOutcome(claim.webhook, rule, Reply(0, reply), false, clock, clock, end.store.webhooks[claim.id])
  }

  lemma FromReport(sys: System, worker: nat, claim: Claim, rule: ForwardingRule, attempt: nat, reply: HttpReply, result: DeliveryResult)
    returns (end: System)
    requires IsAt(sys, worker, claim, Reporting(Some(rule), attempt, result)) && claim.webhook.failureCount >= 0
    requires IsDecision(Some(rule), Some(Judge(reply)), claim.webhook.failureCount, None, sys.clock, result)
    ensures Leads(sys, CallsFromReport(worker, sys.clock), end) && Ends(end, claim, rule, reply, sys.clock)
  {
    CanFinish(sys, worker, claim, Some(rule), attempt, result);
    end := Apply(sys, Finish(worker, sys.clock, sys.clock));
    assert Leads(end, [], end);
    LeadsFrom(sys, Finish(worker, sys.clock, sys.clock), end, [], end);
    assert [Finish(worker, sys.clock, sys.clock)] + [] == CallsFromReport(worker, sys.clock);
    DecisionLeadsToOutcome(claim.webhook, rule, Reply(0, reply), None, sys.clock, result, sys.clock, end.store.webhooks[claim.id]);
  }

  lemma FromAnswer(sys: System, worker: nat, claim: Claim, rule: ForwardingRule, attempt: nat, reply: HttpReply) returns (end: System)
    requires IsAt(sys, worker, claim, Answered(Some(rule), attempt, Judge(reply)))
    requires rule.target != "" && claim.webhook.failureCount >= 0
    ensures Leads(sys, [Decide(worker, None, 0)] + CallsFromReport(worker, sys.clock), end) && Ends(end, claim, rule, reply, sys.clock)
  {
    var result := CanDecide(sys, worker, claim, rule, attempt, Judge(reply));
    var next := Apply(sys, Decide(worker, None, 0));
    end := FromReport(next, worker, claim, rule, attempt, reply, result);
    LeadsFrom(sys, Decide(worker, None, 0), next, CallsFromReport(worker, sys.clock), end);
  }

  lemma FromRequest(sys: System, worker: nat, claim: Claim, rule: ForwardingRule, attempt: nat, request: nat, reply: HttpReply)
    returns (end: System)
    requires IsAt(sys, worker, claim, Requesting(Some(rule), attempt, request))
    requires rule.target != "" && claim.webhook.failureCount >= 0
    ensures Leads(sys, CallsFromRequest(worker, sys.clock, reply), end) && Ends(end, claim, rule, reply, sys.clock)
  {
    CanReply(sys, worker, claim, Some(rule), attempt, request, reply);
    var next := Apply(sys, Reply(worker, reply));
    end := FromAnswer(next, worker, claim, rule, attempt, reply);
    LeadsFrom(sys, Reply(worker, reply), next, [Decide(worker, None, 0)] + CallsFromReport(worker, sys.clock), end);
  }

  lemma FromAttempt(sys: System, worker: nat, claim: Claim, rule: ForwardingRule, attempt: nat, timeout: int, reply: HttpReply)
    returns (end: System)
    requires IsAt(sys, worker, claim, Prepared(Some(rule), attempt))
    requires rule.target != "" && claim.webhook.failureCount >= 0
    ensures Leads(sys, [Send(worker, timeout)] + CallsFromRequest(worker, sys.clock, reply), end)
    ensures Ends(end, claim, rule, reply, sys.clock)
  {
    CanBeSent(sys, worker, claim, rule, attempt, timeout);
    var next := Apply(sys, Send(worker, timeout));
    end := FromRequest(next, worker, claim, rule, attempt, |sys.requests|, reply);
    LeadsFrom(sys, Send(worker, timeout), next, CallsFromRequest(worker, sys.clock, reply), end);
  }

  lemma FromRule(sys: System, worker: nat, claim: Claim, rule: ForwardingRule, attempt: nat, timeout: int, reply: HttpReply)
    returns (end: System)
    requires IsAt(sys, worker, claim, Ready(Some(rule))) && attempt !in sys.store.attemptIds
    requires rule.target != "" && claim.webhook.failureCount >= 0
    ensures Leads(sys, CallsFromRule(worker, sys.clock, attempt, timeout, reply), end) && Ends(end, claim, rule, reply, sys.clock)
  {
    CanCreate(sys, worker, claim, Some(rule), attempt);
    var next := Apply(sys, Create(worker, attempt, sys.clock, sys.clock));
    end := FromAttempt(next, worker, claim, rule, attempt, timeout, reply);
    LeadsFrom(sys, Create(worker, attempt, sys.clock, sys.clock), next,
              [Send(worker, timeout)] + CallsFromRequest(worker, sys.clock, reply), end);
  }

  lemma FromClaim(sys: System, worker: nat, claim: Claim, attempt: nat, timeout: int, reply: HttpReply) returns (end: System)
    requires IsAt(sys, worker, claim, Holding) && attempt !in sys.store.attemptIds && claim.webhook.failureCount >= 0
    requires claim.webhook.source in sys.store.rules && sys.store.rules[claim.webhook.source].target != ""
    ensures Leads(sys, [LoadRule(worker)] + CallsFromRule(worker, sys.clock, attempt, timeout, reply), end)
    ensures Ends(end, claim, sys.store.rules[claim.webhook.source], reply, sys.clock)
  {
    CanLoad(sys, worker, claim);
    var next := Apply(sys, LoadRule(worker));
    end := FromRule(next, worker, claim, sys.store.rules[claim.webhook.source], attempt, timeout, reply);
    LeadsFrom(sys, LoadRule(worker), next, CallsFromRule(worker, sys.clock, attempt, timeout, reply), end);
  }

  lemma FromDue(sys: System, worker: nat, id: nat, attempt: nat, leaseUntil: int, timeout: int, reply: HttpReply)
    returns (claim: Claim, end: System)
    requires OwnershipOk(sys) && RequestsOk(sys) && worker !in sys.workers && attempt !in sys.store.attemptIds
    requires IsDue(sys, id) && sys.clock + 5 * SECOND < leaseUntil
    ensures Leads(sys, [ClaimOne(worker, id, sys.clock, leaseUntil, PausedSources(sys.store))]
                       + ([LoadRule(worker)] + CallsFromRule(worker, sys.clock, attempt, timeout, reply)), end)
    ensures var before := sys.store.webhooks[id];
            && before.failureCount >= 0
            && claim == Claim(id, before.(status := Processing, nextRetryAt := None, leaseUntil := Some(leaseUntil),
                                          leaseVersion := before.leaseVersion + 1))
            && Ends(end, claim, sys.store.rules[before.source], reply, sys.clock)
  {
    assert RowOk(sys.store.webhooks[id]);
    claim := CanStart(sys, worker, id, leaseUntil);
    var step := ClaimOne(worker, id, sys.clock, leaseUntil, PausedSources(sys.store));
    var next := Apply(sys, step);
    end := FromClaim(next, worker, claim, attempt, timeout, reply);
    LeadsFrom(sys, step, next, [LoadRule(worker)] + CallsFromRule(worker, sys.clock, attempt, timeout, reply), end);
  }

  /** From every reachable state, every webhook that is due can be delivered within a lease of more than five
      seconds, under every timeout. Whatever the target replies, its row ends as the outcome of that reply under the
      stored rule, with the next lease version. */
  lemma DueWebhooksCanBeDelivered(states: seq<System>, steps: seq<Step>, worker: nat, id: nat, attempt: nat, leaseUntil: int,
                                  timeout: int, reply: HttpReply)
    returns (longer: seq<System>, calls: seq<Step>)
    requires IsRun(states, steps)
    requires var sys := states[|steps|];
             worker !in sys.workers && attempt !in sys.store.attemptIds && IsDue(sys, id) && sys.clock + 5 * SECOND < leaseUntil
    ensures var sys := states[|steps|];
            && calls == [ClaimOne(worker, id, sys.clock, leaseUntil, PausedSources(sys.store)), LoadRule(worker),
                         Create(worker, attempt, sys.clock, sys.clock), Send(worker, timeout), Reply(worker, reply),
                         Decide(worker, None, 0), Finish(worker, sys.clock, sys.clock)]
            && IsRun(longer, steps + calls)
            && id in longer[|steps + calls|].store.webhooks
            && var before := sys.store.webhooks[id];
               && before.failureCount >= 0
               && IsOutcome(before.(leaseVersion := before.leaseVersion + 1), sys.store.rules[before.source], Reply(worker, reply),
                            false, sys.clock, sys.clock, longer[|steps + calls|].store.webhooks[id])
  {
    var sys := states[|steps|];
    RunsAreOwned(states, steps, |steps|);
    calls := [ClaimOne(worker, id, sys.clock, leaseUntil, PausedSources(sys.store))]
             + ([LoadRule(worker)] + CallsFromRule(worker, sys.clock, attempt, timeout, reply));
    var claim, end := FromDue(sys, worker, id, attempt, leaseUntil, timeout, reply);
    longer := RunAlong(states, steps, calls, end);
  }
}
