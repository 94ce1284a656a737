/** The storage layer as an object whose tables the transactions update, statement by statement.
    Each method is proved to make exactly the change that Transactions.dfy describes. */
module Database {
  import opened Wrappers
  import opened DeliveryModel
  import opened Transactions
  import opened StoreInvariant

  const MAX_BULK_REPLAY := 20
  const DEFAULT_BATCH_SIZE := 300

  datatype BulkReplayResult = BulkReplayResult(requeued: int, skipped: int)

  /** The claim query's sort key: COALESCE(next_retry_at, received_at). */
  function QueueTime(w: Webhook): int {
    if w.nextRetryAt.Some? then w.nextRetryAt.value else w.receivedAt
  }

  /** The queue's order by status: a retrying webhook counts from its retry time, any other from its arrival. */
  predicate IsNotLater(x: Webhook, y: Webhook) {
    if x.status.Retrying? then
      x.nextRetryAt.Some? &&
      if y.status.Retrying? then y.nextRetryAt.Some? && x.nextRetryAt.value <= y.nextRetryAt.value
      else x.nextRetryAt.value <= y.receivedAt
    else if y.status.Retrying? then y.nextRetryAt.Some? && x.receivedAt <= y.nextRetryAt.value
    else x.receivedAt <= y.receivedAt
  }

  function DeliverableIds(s: Store, now: int, locked: set<nat>): set<nat> {
    set id | id in s.webhooks && id !in locked && Deliverable(s.webhooks[id], now, PausedSources(s))
  }

  lemma DeliverableIdsAre(s: Store, now: int, locked: set<nat>, id: nat)
    ensures id in DeliverableIds(s, now, locked) <==>
              && id in s.webhooks && id !in locked
              && var w := s.webhooks[id];
                 && (|| w.status.Pending?
                     || (w.status.Retrying? && w.nextRetryAt.Some? && w.nextRetryAt.value <= now)
                     || (w.status.Processing? && w.leaseUntil.Some? && w.leaseUntil.value <= now))
                 && !(w.source in s.rules && s.rules[w.source].paused)
  {
  }

  function ExpiredIds(s: Store, before: int, locked: set<nat>): set<nat> {
    set id | id in s.webhooks && id !in locked && Expired(s.webhooks[id], before)
  }

  lemma ExpiredIdsAre(s: Store, before: int, locked: set<nat>, id: nat)
    ensures id in ExpiredIds(s, before, locked) <==>
              && id in s.webhooks && id !in locked
              && var w := s.webhooks[id];
                 w.receivedAt < before && (w.status.Delivered? || w.status.Skipped? || w.status.DeadLettered?)
  {
  }

  function DeadLetteredIds(s: Store, ids: set<int>): set<nat> {
    set id | id in s.webhooks && id in ids && s.webhooks[id].status.DeadLettered?
  }

  lemma DeadLetteredIdsAre(s: Store, ids: seq<int>, id: nat)
    ensures id in DeadLetteredIds(s, Elements(ids)) <==> id in ids && id in s.webhooks && s.webhooks[id].status.DeadLettered?
  {
    assert id in ids <==> id in Elements(ids);
  }

  /** The webhooks of a source that wait for delivery or whose worker lost its lease. */
  predicate IsQueued(w: Webhook, now: int) {
    w.status.Pending? || w.status.Retrying? || (w.status.Processing? && w.leaseUntil.Some? && w.leaseUntil.value <= now)
  }

  function QueuedIds(s: Store, ids: set<nat>, source: string, now: int): set<nat> {
    set id | id in ids && id in s.webhooks && s.webhooks[id].source == source && IsQueued(s.webhooks[id], now)
  }

  lemma QueuedIdsAre(s: Store, ids: set<nat>, source: string, now: int, id: nat)
    ensures id in QueuedIds(s, ids, source, now) <==>
              && id in ids && id in s.webhooks
              && var w := s.webhooks[id];
                 && w.source == source
                 && (|| w.status.Pending? || w.status.Retrying?
                     || (w.status.Processing? && w.leaseUntil.Some? && w.leaseUntil.value <= now))
  {
  }

  function IdsOf(hooks: seq<Claim>): set<nat> {
    set i | 0 <= i < |hooks| :: hooks[i].id
  }

  predicate Distinct(hooks: seq<Claim>) {
    forall i, j :: 0 <= i < j < |hooks| ==> hooks[i].id != hooks[j].id
  }

  function Elements(s: seq<int>): set<int> {
    set i | 0 <= i < |s| :: s[i]
  }

  /** `part` are the smallest ids of `whole`. */
  predicate IsFirstOf(part: set<nat>, whole: set<nat>) {
    part <= whole && forall id, other :: id in part && other in whole && other !in part ==> id < other
  }

  lemma FirstOfExtends(part: set<nat>, more: set<nat>, whole: set<nat>)
    requires IsFirstOf(part, whole) && IsFirstOf(more, whole - part)
    ensures IsFirstOf(part + more, whole)
    ensures |part + more| == |part| + |more|
  {
    assert part !! more;
  }

  lemma DistinctCount(s: seq<int>)
    requires forall i, j :: 0 <= i < j < |s| ==> s[i] != s[j]
    ensures |Elements(s)| == |s|
  {
    if s == [] {
      assert Elements(s) == {};
    } else {
      var last := |s| - 1;
      DistinctCount(s[..last]);
      assert Elements(s) == Elements(s[..last]) + {s[last]};
    }
  }

  class DB {
    var webhooks: map<nat, Webhook>
    var attempts: map<nat, DeliveryAttempt>
    var rules: map<string, ForwardingRule>
    var webhookSequence: nat
    var attemptSequence: nat
    ghost var webhookIds: set<nat>
    ghost var attemptIds: set<nat>

    /** The sequences are ahead of every id handed out. */
    ghost predicate Valid()
      reads this
    {
      && webhooks.Keys <= webhookIds
      && attempts.Keys <= attemptIds
      && (forall id :: id in webhookIds ==> id < webhookSequence)
      && (forall a :: a in attemptIds ==> a < attemptSequence)
    }

    ghost function Contents(): Store
      reads this
    {
      Store(webhooks, attempts, rules, webhookIds, attemptIds)
    }

    constructor ()
      ensures Valid() && Contents() == EMPTY_STORE
    {
      webhooks, attempts, rules := map[], map[], map[];
      webhookSequence, attemptSequence := 1, 1;
      webhookIds, attemptIds := {}, {};
    }

    method Save(webhook: Webhook) returns (id: nat)
      requires Valid()
      modifies this
      ensures Valid()
      ensures id !in old(Contents()).webhookIds
      ensures Contents() == Saved(old(Contents()), id, webhook)
    {
      id := webhookSequence;
      webhookSequence := webhookSequence + 1;
      webhooks := webhooks[id := webhook];
      webhookIds := webhookIds + {id};
    }

    // ---------- Claiming ----------

    method FindEarliest(ids: set<nat>) returns (id: nat)
      requires ids != {} && ids <= webhooks.Keys
      ensures id in ids
      ensures forall other :: other in ids ==> QueueTime(webhooks[id]) <= QueueTime(webhooks[other])
    {
      id :| id in ids;
      var rest := ids - {id};
      while rest != {}
        invariant id in ids && rest <= ids
        invariant forall other :: other in ids && other !in rest ==> QueueTime(webhooks[id]) <= QueueTime(webhooks[other])
        decreases |rest|
      {
        var next :| next in rest;
        if QueueTime(webhooks[next]) < QueueTime(webhooks[id]) {
          id := next;
        }
        rest := rest - {next};
      }
    }

    /** The hooks are rows of `candidates`, each once, earliest first, and none left out is earlier. */
    ghost predicate EarliestFirst(hooks: seq<Claim>, candidates: set<nat>)
      reads this
      requires candidates <= webhooks.Keys
    {
      && Distinct(hooks)
      && (forall i :: 0 <= i < |hooks| ==> hooks[i].id in candidates && hooks[i].webhook == webhooks[hooks[i].id])
      && (forall i, j :: 0 <= i < j < |hooks| ==> QueueTime(hooks[i].webhook) <= QueueTime(hooks[j].webhook))
      && (forall i, id :: 0 <= i < |hooks| && id in candidates && id !in IdsOf(hooks) ==>
            QueueTime(hooks[i].webhook) <= QueueTime(webhooks[id]))
    }

    /** By statuses and columns, for rows as they are in every reachable store: a selected webhook is not later than
        the next one nor than one left out. */
    lemma EarliestIsInQueueOrder(hooks: seq<Claim>, candidates: set<nat>)
      requires candidates <= webhooks.Keys && EarliestFirst(hooks, candidates)
      requires forall id :: id in candidates ==> RowOk(webhooks[id])
      ensures forall i, j :: 0 <= i < j < |hooks| ==> IsNotLater(hooks[i].webhook, hooks[j].webhook)
      ensures forall i, id :: 0 <= i < |hooks| && id in candidates && id !in IdsOf(hooks) ==>
                IsNotLater(hooks[i].webhook, webhooks[id])
    {
    }

    /** SELECT ... ORDER BY ... LIMIT ... FOR UPDATE SKIP LOCKED over the webhooks in `candidates`. */
    method SelectEarliest(candidates: set<nat>, limit: nat) returns (hooks: seq<Claim>)
      requires candidates <= webhooks.Keys
      ensures |hooks| == (if |candidates| <= limit then |candidates| else limit)
      ensures EarliestFirst(hooks, candidates)
    {
      hooks := [];
      var rest := candidates;
      while |hooks| < limit && rest != {}
        invariant |hooks| <= limit && |hooks| + |rest| == |candidates|
        invariant rest == candidates - IdsOf(hooks)
        invariant EarliestFirst(hooks, candidates)
        decreases rest
      {
        var id := FindEarliest(rest);
        SelectedOneMore(hooks, candidates, id);
        hooks := hooks + [Claim(id, webhooks[id])];
        rest := rest - {id};
      }
    }

    lemma SelectedOneMore(hooks: seq<Claim>, candidates: set<nat>, id: nat)
      requires candidates <= webhooks.Keys && EarliestFirst(hooks, candidates)
      requires id in candidates && id !in IdsOf(hooks)
      requires forall other :: other in candidates && other !in IdsOf(hooks) ==> QueueTime(webhooks[id]) <= QueueTime(webhooks[other])
      ensures EarliestFirst(hooks + [Claim(id, webhooks[id])], candidates)
      ensures candidates - IdsOf(hooks + [Claim(id, webhooks[id])]) == candidates - IdsOf(hooks) - {id}
    {
      IdsOfAppend(hooks, Claim(id, webhooks[id]));
      assert forall i :: 0 <= i < |hooks| ==> hooks[i].id in IdsOf(hooks);
    }

    /** `locked` are the webhooks that other transactions hold, which SKIP LOCKED passes over. The claims
        returned are the selected rows, and each carries the row as it is now stored. */
    method ClaimDeliverableWebhooks(limit: int, now: int, leaseUntil: int, locked: set<nat>)
        returns (hooks: seq<Claim>, ghost selected: seq<Claim>)
      requires Valid()
      modifies this
      ensures Valid()
      ensures var due := DeliverableIds(old(Contents()), now, locked);
              && due <= old(webhooks).Keys
              && |selected| == (if limit <= 0 then 0 else if |due| <= limit then |due| else limit)
              && old(EarliestFirst(selected, due))
      ensures SameIds(hooks, selected)
      ensures Contents() == ClaimedStore(old(Contents()), IdsOf(hooks), now, leaseUntil)
      ensures forall i :: 0 <= i < |hooks| ==> hooks[i].id in webhooks && hooks[i].webhook == webhooks[hooks[i].id]
    {
      hooks, selected := [], [];
      if limit <= 0 {
        assert Contents() == ClaimedStore(old(Contents()), {}, now, leaseUntil);
        return;
      }
      var paused := set source | source in rules && rules[source].paused;
      var due := set id | id in webhooks && id !in locked && Deliverable(webhooks[id], now, paused);
      assert due == DeliverableIds(Contents(), now, locked);
      hooks := SelectEarliest(due, limit);
      selected := hooks;
      UpdateClaimed(hooks, now, leaseUntil);
      assert forall i :: 0 <= i < |selected| ==> selected[i].id in IdsOf(selected);
      hooks := RefreshClaims(hooks, leaseUntil);
      SameIdsSameSet(hooks, selected);
    }

    /** The two UPDATE statements of a claim. */
    method UpdateClaimed(hooks: seq<Claim>, now: int, leaseUntil: int)
      requires Valid()
      requires forall i :: 0 <= i < |hooks| ==> hooks[i].id in webhooks && hooks[i].webhook == webhooks[hooks[i].id]
      modifies this
      ensures Valid()
      ensures Contents() == ClaimedStore(old(Contents()), IdsOf(hooks), now, leaseUntil)
    {
      var ids: set<nat> := {};
      var staleIds: set<nat> := {};
      for i := 0 to |hooks|
        modifies {}
        invariant ids == IdsOf(hooks[..i])
        invariant staleIds == set id | id in ids && id in webhooks && webhooks[id].status.Processing?
      {
        assert hooks[..i + 1] == hooks[..i] + [hooks[i]];
        IdsOfAppend(hooks[..i], hooks[i]);
        ids := ids + {hooks[i].id};
        if hooks[i].webhook.status.Processing? {
          staleIds := staleIds + {hooks[i].id};
        }
      }
      assert hooks[..|hooks|] == hooks;
      attempts := map a | a in attempts ::
        if attempts[a].webhookId in staleIds && attempts[a].status.InFlight? then InterruptedRow(attempts[a], now) else attempts[a];
      webhooks := map id | id in webhooks :: if id in ids then ClaimedRow(webhooks[id], leaseUntil) else webhooks[id];
      assert Contents() == ClaimedStore(old(Contents()), IdsOf(hooks), now, leaseUntil);
    }

    // ---------- Delivering ----------

    method LockDeliveryLease(claim: Claim, now: int) returns (row: Result<Webhook, TxError>)
      ensures row.Success? <==>
                && claim.id in webhooks
                && claim.webhook.leaseVersion > 0
                && webhooks[claim.id].leaseVersion == claim.webhook.leaseVersion
                && webhooks[claim.id].status.Processing?
                && webhooks[claim.id].leaseUntil.Some?
                && now < webhooks[claim.id].leaseUntil.value
      ensures row.Success? ==> row.value == webhooks[claim.id]
      ensures row.Failure? ==> row.error == LeaseLost
    {
      if claim.id !in webhooks {
        return Failure(LeaseLost);
      }
      var webhook := webhooks[claim.id];
      if claim.webhook.leaseVersion <= 0 || webhook.leaseVersion != claim.webhook.leaseVersion
         || !webhook.status.Processing? || webhook.leaseUntil.None? || !(now < webhook.leaseUntil.value) {
        return Failure(LeaseLost);
      }
      return Success(webhook);
    }

    method CreateDeliveryAttempt(claim: Claim, target: string, now: int, at: int) returns (result: Result<nat, TxError>)
      requires Valid()
      modifies this
      ensures Valid()
      ensures match CreateOutcome(old(Contents()), claim, now)
              case Fail(error) => result == Failure(error) && Contents() == old(Contents())
              case Pass =>
                && result.Success?
                && result.value !in old(Contents()).attemptIds
                && claim.id in old(Contents()).webhooks
                && claim.webhook.leaseUntil.Some? && now < claim.webhook.leaseUntil.value
                && (forall a :: a in old(attempts) && old(attempts)[a].webhookId == claim.id ==> !old(attempts)[a].status.InFlight?)
                && Contents() == AttemptCreated(old(Contents()), claim, target, result.value, at)
    {
      if claim.webhook.leaseUntil.None? || !(now < claim.webhook.leaseUntil.value) {
        return Failure(LeaseLost);
      }
      var locked := LockDeliveryLease(claim, now);
      if locked.Failure? {
        return Failure(locked.error);
      }
      var open := set a | a in attempts && attempts[a].webhookId == claim.id && attempts[a].status.InFlight?;
      if |open| != 0 {
        assert exists a :: a in open;
        assert HasOpenAttempt(Contents(), claim.id) by {
          var a :| a in open;
          assert IsOpenAttempt(Contents(), a, claim.id);
        }
        return Failure(AttemptInProgress);
      }
      assert !HasOpenAttempt(Contents(), claim.id) by {
        assert open == {};
        assert forall a :: IsOpenAttempt(Contents(), a, claim.id) ==> a in open;
      }
      var id := attemptSequence;
      attemptSequence := attemptSequence + 1;
      attempts := attempts[id := DeliveryAttempt(claim.id, locked.value.source, target, InFlight, "", 0, at, None, NO_RESPONSE)];
      attemptIds := attemptIds + {id};
      return Success(id);
    }

    method FinishDelivery(claim: Claim, attemptId: nat, result: DeliveryResult, now: int, at: int) returns (outcome: Outcome<TxError>)
      requires Valid()
      modifies this
      ensures Valid()
      ensures outcome == FinishOutcome(old(Contents()), claim, attemptId, result, now)
      ensures outcome == Fail(InvalidResultStatus) <==> result.status.InFlight? || result.status.Interrupted?
      ensures outcome.Pass? ==> claim.webhook.leaseUntil.Some? && now < claim.webhook.leaseUntil.value
      ensures outcome.Fail? ==> Contents() == old(Contents())
      ensures outcome.Pass? ==>
                && claim.id in old(webhooks) && attemptId in old(attempts)
                && Contents() == FinishedStore(old(Contents()), claim, attemptId, result, at)
    {
      match result.status {
        case InFlight => return Fail(InvalidResultStatus);
        case Interrupted => return Fail(InvalidResultStatus);
        case _ =>
      }
      if claim.webhook.leaseUntil.None? || !(now < claim.webhook.leaseUntil.value) {
        return Fail(LeaseLost);
      }
      var locked := LockDeliveryLease(claim, now);
      if locked.Failure? {
        return Fail(locked.error);
      }
      if attemptId !in attempts || attempts[attemptId].webhookId != claim.id || !attempts[attemptId].status.InFlight? {
        return Fail(LeaseLost);
      }
      attempts := attempts[attemptId := attempts[attemptId].(
                    status := result.status,
                    errorMessage := result.errorMessage,
                    durationMs := result.durationMs,
                    completedAt := Some(at),
                    response := result.response)];
      var row := locked.value.(leaseUntil := None);
      if !result.status.NotForwarded? {
        row := row.(response := result.response.body);
      }
      match result.status {
        case Succeeded => row := row.(status := Delivered);
        case NotForwarded => row := row.(status := Skipped);
        case Cancelled => row := row.(status := Pending);
        case InFlight => assert false;
        case Interrupted => assert false;
        case Failed =>
          row := row.(failureCount := locked.value.failureCount + 1, lastError := result.errorMessage, nextRetryAt := result.nextRetryAt);
          if result.nextRetryAt.None? {
            row := row.(status := DeadLettered, deadLetteredAt := Some(at), deadLetterReason := result.errorMessage);
          } else {
            row := row.(status := Retrying, deadLetteredAt := None, deadLetterReason := "");
          }
      }
      if result.status.Succeeded? || result.status.NotForwarded? {
        row := row.(failureCount := 0, lastError := "", nextRetryAt := None, deadLetteredAt := None, deadLetterReason := "");
      }
      webhooks := webhooks[claim.id := row];
      return Pass;
    }

    // ---------- Requeueing and removing ----------

    method ResetWebhookDeliveryState(id: nat) returns (outcome: Outcome<TxError>)
      requires Valid()
      modifies this
      ensures Valid()
      ensures outcome == if id !in old(webhooks) then Fail(NotFound)
                         else if old(webhooks)[id].status.Processing? then Fail(WebhookProcessing)
                         else Pass
      ensures Contents() == if outcome.Pass? then RequeuedStore(old(Contents()), {id}) else old(Contents())
    {
      if id !in webhooks {
        return Fail(NotFound);
      }
      if webhooks[id].status.Processing? {
        return Fail(WebhookProcessing);
      }
      webhooks := webhooks[id := RequeuedRow(webhooks[id])];
      assert webhooks == RequeuedStore(old(Contents()), {id}).webhooks;
      return Pass;
    }

    method DeleteWebhook(id: nat) returns (outcome: Outcome<TxError>)
      requires Valid()
      modifies this
      ensures Valid()
      ensures outcome == if id !in old(webhooks) then Fail(NotFound)
                         else if old(webhooks)[id].status.Processing? then Fail(WebhookProcessing)
                         else Pass
      ensures Contents() == if outcome.Pass? then RemovedStore(old(Contents()), {id}) else old(Contents())
    {
      if id !in webhooks {
        return Fail(NotFound);
      }
      if webhooks[id].status.Processing? {
        return Fail(WebhookProcessing);
      }
      attempts := map a | a in attempts && attempts[a].webhookId != id :: attempts[a];
      webhooks := webhooks - {id};
      assert Contents() == RemovedStore(old(Contents()), {id});
      return Pass;
    }

    /** Requeues the dead letters among `ids`; every distinct id is either requeued or skipped. */
    method BulkReplayDeadLetters(ids: seq<int>) returns (result: Result<BulkReplayResult, TxError>)
      requires Valid()
      modifies this
      ensures Valid()
      ensures result.Failure? ==> Contents() == old(Contents())
      ensures result == Failure(InvalidWebhookId) <==> exists i :: 0 <= i < |ids| && ids[i] <= 0
      ensures result == Failure(BadSelection) <==>
                (forall i :: 0 <= i < |ids| ==> ids[i] > 0) && (|Elements(ids)| == 0 || |Elements(ids)| > 20)
      ensures result.Failure? ==> result.error in {InvalidWebhookId, BadSelection}
      ensures result.Success? ==>
                var dead := DeadLetteredIds(old(Contents()), Elements(ids));
                && Contents() == RequeuedStore(old(Contents()), dead)
                && result.value.requeued == |dead|
                && result.value.requeued + result.value.skipped == |Elements(ids)|
    {
      var unique: seq<int> := [];
      var seen: set<int> := {};
      for i := 0 to |ids|
        modifies {}
        invariant forall j :: 0 <= j < i ==> ids[j] > 0
        invariant seen == Elements(ids[..i]) == Elements(unique)
        invariant forall j, k :: 0 <= j < k < |unique| ==> unique[j] != unique[k]
      {
        if ids[i] <= 0 {
          return Failure(InvalidWebhookId);
        }
        assert ids[..i + 1] == ids[..i] + [ids[i]];
        ElementsAppend(ids[..i], ids[i]);
        if ids[i] !in seen {
          ElementsAppend(unique, ids[i]);
          assert forall j :: 0 <= j < |unique| ==> unique[j] in Elements(unique);
          seen := seen + {ids[i]};
          unique := unique + [ids[i]];
        }
      }
      assert ids[..|ids|] == ids;
      DistinctCount(unique);
      if |unique| == 0 || |unique| > MAX_BULK_REPLAY {
        return Failure(BadSelection);
      }
      var eligible := set id | id in webhooks && id in unique && webhooks[id].status.DeadLettered?;
      assert eligible == DeadLetteredIds(Contents(), Elements(ids)) by {
        assert forall id :: id in unique <==> id in Elements(unique);
      }
      var skipped := |unique| - |eligible|;
      if eligible == {} {
        assert Contents() == RequeuedStore(old(Contents()), {});
        return Success(BulkReplayResult(0, skipped));
      }
      webhooks := map id | id in webhooks :: if id in eligible then RequeuedRow(webhooks[id]) else webhooks[id];
      return Success(BulkReplayResult(|eligible|, skipped));
    }

    /** The ids of the first `limit` webhooks of `candidates` in id order. */
    method SelectFirst(candidates: set<nat>, limit: nat) returns (ids: set<nat>)
      ensures IsFirstOf(ids, candidates)
      ensures |ids| == (if |candidates| <= limit then |candidates| else limit)
    {
      ids := {};
      var rest := candidates;
      while |ids| < limit && rest != {}
        invariant rest == candidates - ids && |ids| + |rest| == |candidates| && |ids| <= limit
        invariant IsFirstOf(ids, candidates)
        decreases |rest|
      {
        var first := FindLeast(rest);
        FirstOfExtends(ids, {first}, candidates);
        ids := ids + {first};
        rest := rest - {first};
      }
    }

    method FindLeast(ids: set<nat>) returns (least: nat)
      requires ids != {}
      ensures least in ids && forall id :: id in ids ==> least <= id
    {
      least :| least in ids;
      var rest := ids - {least};
      while rest != {}
        invariant least in ids && rest <= ids
        invariant forall id :: id in ids && id !in rest ==> least <= id
        decreases |rest|
      {
        var next :| next in rest;
        if next < least {
          least := next;
        }
        rest := rest - {next};
      }
    }

    /** One cleanup transaction: the first `size` expired webhooks go, with all their attempts. */
    method CleanupBatch(before: int, size: nat, locked: set<nat>) returns (ids: set<nat>)
      requires Valid()
      modifies this
      ensures Valid()
      ensures var expired := ExpiredIds(old(Contents()), before, locked);
              IsFirstOf(ids, expired) && |ids| == if |expired| <= size then |expired| else size
      ensures Contents() == RemovedStore(old(Contents()), ids)
    {
      var candidates := set id | id in webhooks && id !in locked && Expired(webhooks[id], before);
      assert candidates == ExpiredIds(Contents(), before, locked);
      ids := SelectFirst(candidates, size);
      if ids == {} {
        assert Contents() == RemovedStore(Contents(), {});
        return;
      }
      attempts := map a | a in attempts && attempts[a].webhookId !in ids :: attempts[a];
      webhooks := map id | id in webhooks && id !in ids :: webhooks[id];
    }

    /** Removes all expired webhooks that are not locked, batch by batch, unless the context is found
        cancelled after `cancelAfter` rounds; then the oldest ids are gone, and the count still is exact. */
    method CleanupExpiredWebhooks(before: int, batchSize: int, locked: set<nat>, cancelAfter: Option<nat>)
        returns (totalDeleted: int, cancelled: bool, ghost removed: set<nat>)
      requires Valid()
      modifies this
      ensures Valid()
      ensures IsFirstOf(removed, ExpiredIds(old(Contents()), before, locked))
      ensures !cancelled ==> removed == ExpiredIds(old(Contents()), before, locked)
      ensures cancelled ==> cancelAfter.Some? && totalDeleted == cancelAfter.value * if batchSize > 0 then batchSize else 300
      ensures totalDeleted == |removed|
      ensures Contents() == RemovedStore(old(Contents()), removed)
      ensures cancelAfter.None? ==> !cancelled
    {
      var size := batchSize;
      if size <= 0 {
        size := DEFAULT_BATCH_SIZE;
      }
      totalDeleted, cancelled, removed := 0, false, {};
      ghost var start := Contents();
      ghost var expired := ExpiredIds(start, before, locked);
      RemovedNothing(start);
      var rounds := 0;
      ghost var deleted := 0;
      while true
        invariant Valid() && !cancelled
        invariant IsFirstOf(removed, expired) && totalDeleted == |removed| == deleted && deleted == rounds * size
        invariant cancelAfter.Some? ==> rounds <= cancelAfter.value
        invariant Contents() == RemovedStore(start, removed)
        decreases |expired - removed|
      {
        if cancelAfter.Some? && rounds >= cancelAfter.value {
          cancelled := true;
          return;
        }
        ExpiredAfterRemoval(start, removed, before, locked);
        var ids := CleanupBatch(before, size, locked);
        RemovedTwice(start, removed, ids);
        FirstOfExtends(removed, ids, expired);
        SmallerRest(expired, removed, ids);
        removed := removed + ids;
        totalDeleted := totalDeleted + |ids|;
        if |ids| < size {
          return;
        }
        OneMoreRound(rounds, size);
        rounds, deleted := rounds + 1, deleted + size;
      }
    }

    // ---------- Forwarding rules ----------

    method SaveForwardingRule(source: string, rule: ForwardingRule)
      requires Valid()
      modifies this
      ensures Valid()
      ensures Contents() == RuleSaved(old(Contents()), source, rule)
    {
      if source in rules {
        var existing := rules[source];
        rules := rules[source := existing.(
                   target := rule.target,
                   verifySecret := rule.verifySecret,
                   verifyHeader := rule.verifyHeader,
                   toleranceSeconds := rule.toleranceSeconds,
                   outgoingSecret := rule.outgoingSecret,
                   retryMaxAttempts := rule.retryMaxAttempts,
                   retryBackoffSeconds := rule.retryBackoffSeconds)];
      } else {
        rules := rules[source := rule];
      }
    }

    method SetForwardingPaused(source: string, paused: bool) returns (outcome: Outcome<TxError>)
      requires Valid()
      modifies this
      ensures Valid()
      ensures outcome == if source in old(rules) then Pass else Fail(NotFound)
      ensures Contents() == RulePaused(old(Contents()), source, paused)
    {
      if source !in rules {
        return Fail(NotFound);
      }
      rules := rules[source := rules[source].(paused := paused)];
      return Pass;
    }

    method DeleteForwardingRule(source: string)
      requires Valid()
      modifies this
      ensures Valid()
      ensures Contents() == RuleDeleted(old(Contents()), source)
    {
      rules := rules - {source};
    }

    method QueuedWebhookCounts(now: int) returns (counts: map<string, int>)
      ensures CountsQueued(Contents(), webhooks.Keys, now, counts)
    {
      counts := map[];
      var rest := webhooks.Keys;
      while rest != {}
        invariant rest <= webhooks.Keys
        invariant CountsQueued(Contents(), webhooks.Keys - rest, now, counts)
        decreases |rest|
      {
        var id :| id in rest;
        ghost var done, earlier := webhooks.Keys - rest, counts;
        var w := webhooks[id];
        if IsQueued(w, now) {
          counts := counts[w.source := 1 + if w.source in counts then counts[w.source] else 0];
        }
        CountOneMore(Contents(), done, id, now, earlier, counts);
        rest := rest - {id};
        assert webhooks.Keys - rest == done + {id};
      }
      assert webhooks.Keys - {} == webhooks.Keys;
    }
  }

  /** One count per source that has a queued webhook among `ids`, and no other. */
  ghost predicate CountsQueued(s: Store, ids: set<nat>, now: int, counts: map<string, int>) {
    forall source ::
      && (source in counts <==> QueuedIds(s, ids, source, now) != {})
      && (source in counts ==> counts[source] == |QueuedIds(s, ids, source, now)|)
  }

  lemma QueuedOneMore(s: Store, done: set<nat>, id: nat, source: string, now: int)
    requires id in s.webhooks && id !in done
    ensures var counts := s.webhooks[id].source == source && IsQueued(s.webhooks[id], now);
            QueuedIds(s, done + {id}, source, now) == QueuedIds(s, done, source, now) + if counts then {id} else {}
    ensures id !in QueuedIds(s, done, source, now)
  {
  }

  lemma CountOneMore(s: Store, done: set<nat>, id: nat, now: int, counts: map<string, int>, next: map<string, int>)
    requires id in s.webhooks && id !in done && CountsQueued(s, done, now, counts)
    requires var w := s.webhooks[id];
             next == if IsQueued(w, now) then counts[w.source := 1 + if w.source in counts then counts[w.source] else 0] else counts
    ensures CountsQueued(s, done + {id}, now, next)
  {
    forall source
      ensures source in next <==> QueuedIds(s, done + {id}, source, now) != {}
      ensures source in next ==> next[source] == |QueuedIds(s, done + {id}, source, now)|
    {
      QueuedOneMore(s, done, id, source, now);
      var before, after := QueuedIds(s, done, source, now), QueuedIds(s, done + {id}, source, now);
      assert (source in counts <==> before != {}) && (source in counts ==> counts[source] == |before|);
      assert after == before || (after == before + {id} && |after| == |before| + 1);
    }
  }

  /** The caller's copies are brought up to date in place, without reading the rows again. */
  method RefreshClaims(hooks: seq<Claim>, leaseUntil: int) returns (claims: seq<Claim>)
    ensures SameIds(claims, hooks)
    ensures forall i :: 0 <= i < |hooks| ==> claims[i].webhook == ClaimedRow(hooks[i].webhook, leaseUntil)
  {
    claims := hooks;
    for i := 0 to |hooks|
      invariant SameIds(claims, hooks)
      invariant forall j :: 0 <= j < i ==> claims[j].webhook == ClaimedRow(hooks[j].webhook, leaseUntil)
      invariant forall j :: i <= j < |hooks| ==> claims[j] == hooks[j]
    {
      var hook := claims[i].webhook;
      hook := hook.(leaseVersion := hook.leaseVersion + 1);
      hook := hook.(status := Processing);
      hook := hook.(nextRetryAt := None);
      hook := hook.(leaseUntil := Some(leaseUntil));
      claims := claims[i := Claim(claims[i].id, hook)];
    }
  }

  predicate SameIds(a: seq<Claim>, b: seq<Claim>) {
    |a| == |b| && forall i :: 0 <= i < |a| ==> a[i].id == b[i].id
  }

  lemma SameIdsSameSet(a: seq<Claim>, b: seq<Claim>)
    requires SameIds(a, b)
    ensures IdsOf(a) == IdsOf(b)
  {
    forall id | id in IdsOf(a) ensures id in IdsOf(b) {
      var i :| 0 <= i < |a| && a[i].id == id;
      assert b[i].id == id;
    }
    forall id | id in IdsOf(b) ensures id in IdsOf(a) {
      var i :| 0 <= i < |b| && b[i].id == id;
      assert a[i].id == id;
    }
  }

  lemma IdsOfAppend(hooks: seq<Claim>, hook: Claim)
    ensures IdsOf(hooks + [hook]) == IdsOf(hooks) + {hook.id}
  {
    var longer := hooks + [hook];
    assert longer[|hooks|] == hook;
    assert forall i :: 0 <= i < |hooks| ==> longer[i] == hooks[i];
  }

  lemma ElementsAppend(s: seq<int>, x: int)
    ensures Elements(s + [x]) == Elements(s) + {x}
  {
    var t := s + [x];
    assert forall i :: 0 <= i < |s| ==> t[i] == s[i];
    assert t[|s|] == x;
  }

  lemma RemovedTwice(s: Store, first: set<nat>, second: set<nat>)
    ensures RemovedStore(RemovedStore(s, first), second) == RemovedStore(s, first + second)
  {
  }

  lemma RemovedNothing(s: Store)
    ensures RemovedStore(s, {}) == s
  {
  }

  lemma ExpiredAfterRemoval(s: Store, removed: set<nat>, before: int, locked: set<nat>)
    ensures ExpiredIds(RemovedStore(s, removed), before, locked) == ExpiredIds(s, before, locked) - removed
  {
  }

  lemma OneMoreRound(rounds: int, size: int)
    ensures (rounds + 1) * size == rounds * size + size
  {
  }

  lemma SmallerRest(whole: set<nat>, part: set<nat>, more: set<nat>)
    requires more <= whole - part
    ensures |whole - (part + more)| == |whole - part| - |more|
    ensures |more| == |whole - part| ==> part <= whole ==> part + more == whole
  {
    assert whole - (part + more) == (whole - part) - more;
  }
}
