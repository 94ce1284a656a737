/** What the committed tables always satisfy, and that every transaction keeps it. */
module StoreInvariant {
  import opened DeliveryModel
  import opened Transactions

  /** The status of a row agrees with its nullable columns. */
  predicate RowOk(w: Webhook) {
    && w.failureCount >= 0
    && w.leaseVersion >= 0
    && (w.status.Processing? <==> w.leaseUntil.Some?)
    && (w.status.Processing? ==> w.leaseVersion >= 1)
    && (w.status.Retrying? <==> w.nextRetryAt.Some?)
    && (w.status.DeadLettered? <==> w.deadLetteredAt.Some?)
  }

  predicate Owned(s: Store, a: nat)
    requires a in s.attempts
  {
    && s.attempts[a].webhookId in s.webhooks
    && (s.attempts[a].status.InFlight? ==> s.webhooks[s.attempts[a].webhookId].status.Processing?)
  }

  /** Rows are consistent, no attempt is orphaned, and a webhook has at most one pending attempt,
      and only while it is processing. */
  predicate StoreOk(s: Store) {
    && s.webhooks.Keys <= s.webhookIds
    && s.attempts.Keys <= s.attemptIds
    && (forall id :: id in s.webhooks ==> RowOk(s.webhooks[id]))
    && (forall a :: a in s.attempts ==> Owned(s, a))
    && (forall a, b | a in s.attempts && b in s.attempts && s.attempts[a].webhookId == s.attempts[b].webhookId
          :: s.attempts[a].status.InFlight? && s.attempts[b].status.InFlight? ==> a == b)
  }

  lemma SavedKeepsStoreOk(s: Store, id: nat, w: Webhook)
    requires StoreOk(s) && id !in s.webhookIds && RowOk(w)
    ensures StoreOk(Saved(s, id, w))
  {
    var t := Saved(s, id, w);
    forall a | a in t.attempts ensures Owned(t, a) {
      assert Owned(s, a);
    }
  }

  lemma ClaimedKeepsStoreOk(s: Store, ids: set<nat>, now: int, leaseUntil: int)
    requires StoreOk(s)
    requires forall id :: id in ids && id in s.webhooks ==> Due(s.webhooks[id], now)
    ensures StoreOk(ClaimedStore(s, ids, now, leaseUntil))
    ensures forall id :: id in ids && id in s.webhooks ==> !HasOpenAttempt(ClaimedStore(s, ids, now, leaseUntil), id)
  {
    var t := ClaimedStore(s, ids, now, leaseUntil);
    forall id | id in t.webhooks ensures RowOk(t.webhooks[id]) {
      assert RowOk(s.webhooks[id]);
    }
    forall a | a in t.attempts ensures Owned(t, a) {
      assert Owned(s, a);
    }
  }

  lemma CreatedKeepsStoreOk(s: Store, claim: Claim, target: string, attemptId: nat, now: int, at: int)
    requires StoreOk(s) && attemptId !in s.attemptIds
    requires CreateOutcome(s, claim, now).Pass?
    ensures StoreOk(AttemptCreated(s, claim, target, attemptId, at))
  {
    var t := AttemptCreated(s, claim, target, attemptId, at);
    forall a | a in t.attempts ensures Owned(t, a) {
      assert a in s.attempts ==> Owned(s, a);
    }
  }

  lemma FinishedKeepsStoreOk(s: Store, claim: Claim, attemptId: nat, result: DeliveryResult, now: int, at: int)
    requires StoreOk(s)
    requires FinishOutcome(s, claim, attemptId, result, now).Pass?
    ensures StoreOk(FinishedStore(s, claim, attemptId, result, at))
  {
    var t := FinishedStore(s, claim, attemptId, result, at);
    assert RowOk(s.webhooks[claim.id]);
    assert RowOk(t.webhooks[claim.id]);
    forall a | a in t.attempts ensures Owned(t, a) {
      assert Owned(s, a);
    }
  }

  lemma RequeuedKeepsStoreOk(s: Store, ids: set<nat>)
    requires StoreOk(s)
    requires forall id :: id in ids && id in s.webhooks ==> !s.webhooks[id].status.Processing?
    ensures StoreOk(RequeuedStore(s, ids))
  {
    var t := RequeuedStore(s, ids);
    forall id | id in t.webhooks ensures RowOk(t.webhooks[id]) {
      assert RowOk(s.webhooks[id]);
    }
    forall a | a in t.attempts ensures Owned(t, a) {
      assert Owned(s, a);
    }
  }

  lemma RemovedKeepsStoreOk(s: Store, ids: set<nat>)
    requires StoreOk(s)
    ensures StoreOk(RemovedStore(s, ids))
  {
    var t := RemovedStore(s, ids);
    forall a | a in t.attempts ensures Owned(t, a) {
      assert Owned(s, a);
    }
  }

  /** Whether a pending attempt can be finished by a claim is decided by the claim alone: it is the
      only pending attempt of that webhook. */
  lemma OpenAttemptIsUnique(s: Store, a: nat, b: nat, id: nat)
    requires StoreOk(s)
    requires IsOpenAttempt(s, a, id) && IsOpenAttempt(s, b, id)
    ensures a == b
  {
  }
}
