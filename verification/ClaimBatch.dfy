/** A claim of several webhooks is the same as claims of one webhook after the other. */
module ClaimBatch {
  import opened Wrappers
  import opened DeliveryModel
  import opened Transactions
  import opened Protocol

  /** A webhook and the worker that will deliver it. */
  datatype Pick = Pick(worker: nat, id: nat)

  function PickedIds(picks: seq<Pick>): set<nat> {
    set p | p in picks :: p.id
  }

  ghost predicate CanClaimAll(sys: System, picks: seq<Pick>, now: int, pausedSeen: set<string>) {
    && (forall i, j :: 0 <= i < j < |picks| ==> picks[i].worker != picks[j].worker && picks[i].id != picks[j].id)
    && forall i :: 0 <= i < |picks| ==> CanClaim(sys, picks[i].worker, picks[i].id, now, pausedSeen)
  }

  /** Claiming one webhook after the other, if every claim is possible when its turn comes. */
  function ClaimInTurn(sys: System, picks: seq<Pick>, now: int, leaseUntil: int, pausedSeen: set<string>): Option<System>
    decreases |picks|
  {
    if picks == [] then Some(sys)
    else
      var step := ClaimOne(picks[0].worker, picks[0].id, now, leaseUntil, pausedSeen);
      if Enabled(sys, step) then ClaimInTurn(Apply(sys, step), picks[1..], now, leaseUntil, pausedSeen) else None
  }

  lemma ClaimedTwice(s: Store, id: nat, ids: set<nat>, now: int, leaseUntil: int)
    requires id !in ids
    ensures ClaimedStore(ClaimedStore(s, {id}, now, leaseUntil), ids, now, leaseUntil) == ClaimedStore(s, {id} + ids, now, leaseUntil)
  {
    var first := ClaimedStore(s, {id}, now, leaseUntil);
    var both := ClaimedStore(s, {id} + ids, now, leaseUntil);
    forall a | a in s.attempts
      ensures ClaimedStore(first, ids, now, leaseUntil).attempts[a] == both.attempts[a]
    {
      assert ClosedByClaim(s, {id}, a) ==> s.attempts[a].webhookId == id;
    }
    assert ClaimedStore(first, ids, now, leaseUntil).attempts == both.attempts;
    assert ClaimedStore(first, ids, now, leaseUntil).webhooks == both.webhooks;
  }

  lemma OthersStayClaimable(sys: System, first: Pick, other: Pick, now: int, leaseUntil: int, pausedSeen: set<string>)
    requires CanClaim(sys, first.worker, first.id, now, pausedSeen)
    requires CanClaim(sys, other.worker, other.id, now, pausedSeen)
    requires first.worker != other.worker && first.id != other.id
    ensures CanClaim(AfterClaim(sys, first.worker, first.id, now, leaseUntil), other.worker, other.id, now, pausedSeen)
  {
  }

  /** Any webhooks that can all be claimed at once can be claimed one after the other in any order, and the
      tables end up the same. */
  lemma {:induction false} BatchIsSingleClaims(sys: System, picks: seq<Pick>, now: int, leaseUntil: int, pausedSeen: set<string>)
    requires CanClaimAll(sys, picks, now, pausedSeen)
    ensures var end := ClaimInTurn(sys, picks, now, leaseUntil, pausedSeen);
            end.Some? && end.value.store == ClaimedStore(sys.store, PickedIds(picks), now, leaseUntil)
    decreases |picks|
  {
    if picks == [] {
      assert ClaimedStore(sys.store, {}, now, leaseUntil) == sys.store;
    } else {
      var first, rest := picks[0], picks[1..];
      var next := AfterClaim(sys, first.worker, first.id, now, leaseUntil);
      forall i | 0 <= i < |rest| ensures CanClaim(next, rest[i].worker, rest[i].id, now, pausedSeen) {
        OthersStayClaimable(sys, first, rest[i], now, leaseUntil, pausedSeen);
      }
      BatchIsSingleClaims(next, rest, now, leaseUntil, pausedSeen);
      assert picks == [first] + rest && PickedIds(picks) == {first.id} + PickedIds(rest);
      ClaimedTwice(sys.store, first.id, PickedIds(rest), now, leaseUntil);
    }
  }
}
