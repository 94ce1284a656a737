/** The login limiter as it is built: a map of shared entry objects, reservations that point at them, and a
    lazy sweep. Its methods perform the steps of LoginLimits.dfy on the entries' values, and an open
    reservation's entry is always the one the map holds for its key. */
module LoginLimiter {
  import opened Wrappers
  import opened DeliveryModel
  import opened LoginLimits

  class LoginAttempt {
    var failures: int
    var pending: int
    var windowEnd: nat
    ghost const key: string
    /** The reservations that point at this entry and have not finished yet. */
    ghost var holders: set<LoginReservation>

    constructor (ghost key: string)
      ensures this.key == key && Holds(NEW_ENTRY) && holders == {}
    {
      this.key := key;
      failures, pending, windowEnd, holders := 0, 0, 0, {};
    }

    /** The entry has the value `e`, and counts exactly its own open reservations as pending. */
    ghost predicate Holds(e: Entry)
      reads this
    {
      && failures == e.failures
      && pending == e.pending == |holders|
      && windowEnd == e.windowEnd
      && forall r :: r in holders ==> r.entry == this
    }

    method Renew(now: nat, ghost e: Entry)
      requires Holds(e)
      modifies this`failures, this`windowEnd
      ensures Holds(Renewed(e, now))
    {
      if !(now < windowEnd) {
        failures := 0;
        windowEnd := now + WINDOW;
      }
    }

    method Take(ghost e: Entry) returns (r: LoginReservation)
      requires Holds(e)
      modifies this`pending, this`holders
      ensures Holds(e.(pending := e.pending + 1))
      ensures fresh(r) && r.entry == this && r.windowEnd == e.windowEnd && holders == old(holders) + {r}
    {
      pending := pending + 1;
      r := new LoginReservation(this, windowEnd);
      holders := holders + {r};
    }
  }

  class LoginReservation {
    const entry: LoginAttempt
    const windowEnd: nat

    constructor (entry: LoginAttempt, windowEnd: nat)
      ensures this.entry == entry && this.windowEnd == windowEnd
    {
      this.entry, this.windowEnd := entry, windowEnd;
    }
  }

  class Limiter {
    var attempts: map<string, LoginAttempt>
    var nextSweep: nat
    /** The entries as values. */
    ghost var values: map<string, Entry>
    ghost var repr: set<LoginAttempt>
    /** The granted reservations that have not finished yet. */
    ghost var open: set<LoginReservation>
    /** All calls so far, and the reservations they were granted, in that order. */
    ghost var calls: seq<Call>
    ghost var issued: seq<LoginReservation>

    ghost predicate EntriesOk()
      reads `attempts, `values, `repr, repr
    {
      && values.Keys == attempts.Keys
      && forall key :: key in attempts ==>
           && attempts[key] in repr
           && attempts[key].key == key
           && attempts[key].Holds(values[key])
    }

    /** An open reservation's entry is the one the map holds for its key. */
    ghost predicate OpenOk()
      reads `attempts, `open, `repr, repr
    {
      && (forall key :: key in attempts ==> attempts[key] in repr && attempts[key].holders <= open)
      && forall r :: r in open ==>
           && r.entry.key in attempts
           && attempts[r.entry.key] == r.entry
           && r.entry in repr
           && r in r.entry.holders
    }

    ghost predicate Valid()
      reads `attempts, `values, `open, `repr, repr
    {
      EntriesOk() && OpenOk()
    }

    /** The limiter is where LoginLimits.dfy is after the same calls. */
    ghost predicate Follows()
      reads `values, `nextSweep, `open, `calls, `issued
    {
      Legal(calls, true) && Mirrors(values, nextSweep, issued, open, Run(calls, true))
    }

    constructor ()
      ensures Valid() && Follows() && fresh(repr)
      ensures open == {} && calls == []
    {
      attempts, nextSweep := map[], 0;
      values, repr, open, calls, issued := map[], {}, {}, [], [];
    }

    method DropIfIdle(key: string, now: nat)
      requires Valid() && key in attempts
      modifies this`attempts, this`values
      ensures Valid()
      ensures attempts == if Idle(old(values)[key], now) then old(attempts) - {key} else old(attempts)
      ensures values == if Idle(old(values)[key], now) then old(values) - {key} else old(values)
    {
      var entry := attempts[key];
      if entry.pending == 0 && entry.windowEnd <= now {
        attempts := attempts - {key};
        values := values - {key};
      }
    }

    /** Keys are visited in any order. */
    method DropIdle(now: nat)
      requires Valid()
      modifies this`attempts, this`values
      ensures Valid() && values == Swept(old(values), now)
      ensures forall key :: key in values ==> attempts[key] == old(attempts)[key]
    {
      var rest := attempts.Keys;
      while rest != {}
        invariant Valid() && rest <= values.Keys <= old(values).Keys
        invariant forall key :: key in values ==> values[key] == old(values)[key] && attempts[key] == old(attempts)[key]
        invariant forall key :: key in old(values) && key !in rest ==> (key in values <==> !Idle(old(values)[key], now))
        decreases rest
      {
        var key :| key in rest;
        rest := rest - {key};
        DropIfIdle(key, now);
      }
    }

    method Sweep(now: nat)
      requires Valid()
      modifies this`attempts, this`values, this`nextSweep
      ensures Valid()
      ensures values == if now < old(nextSweep) then old(values) else Swept(old(values), now)
      ensures nextSweep == if now < old(nextSweep) then old(nextSweep) else now + WINDOW
    {
      if now < nextSweep {
        return;
      }
      DropIdle(now);
      nextSweep := now + WINDOW;
    }

    method FindOrAdd(key: string) returns (entry: LoginAttempt)
      requires Valid()
      modifies this`attempts, this`values, this`repr
      ensures Valid() && fresh(repr - old(repr)) && old(repr) <= repr
      ensures key in attempts && entry == attempts[key]
      ensures values == old(values)[key := EntryFor(old(values), key)]
      ensures attempts == old(attempts)[key := entry]
      ensures key in old(attempts) ==> entry == old(attempts)[key]
    {
      if key in attempts {
        return attempts[key];
      }
      entry := new LoginAttempt(key);
      attempts := attempts[key := entry];
      values, repr := values[key := NEW_ENTRY], repr + {entry};
    }

    method Admit(entry: LoginAttempt, now: nat) returns (r: LoginReservation?, retryAfter: int)
      requires EntriesOk() && entry.key in attempts && attempts[entry.key] == entry
      modifies this`values, entry
      ensures EntriesOk()
      ensures values == old(values)[entry.key := Reserved(Renewed(old(values)[entry.key], now), now)]
      ensures match AnswerFor(Renewed(old(values)[entry.key], now), now)
              case Granted(windowEnd) =>
                && r != null && fresh(r) && retryAfter == 0 && r.entry == entry && r.windowEnd == windowEnd
                && entry.holders == old(entry.holders) + {r}
              case Refused(seconds) => r == null && retryAfter == seconds && entry.holders == old(entry.holders)
    {
      ghost var e := values[entry.key];
      values := values[entry.key := Reserved(Renewed(e, now), now)];
      entry.Renew(now, e);
      if entry.failures >= MAX_ATTEMPTS {
        var remaining := entry.windowEnd - now;
        return null, (remaining + SECOND - 1) / SECOND;
      }
      if entry.failures + entry.pending >= MAX_ATTEMPTS {
        return null, 1;
      }
      r := entry.Take(Renewed(e, now));
      return r, 0;
    }

    /** Counts a new reservation among the open ones. */
    ghost method Open(entry: LoginAttempt, r: LoginReservation)
      requires EntriesOk() && entry.key in attempts && attempts[entry.key] == entry && r.entry == entry && r in entry.holders
      requires forall key :: key in attempts ==> attempts[key].holders <= open + {r}
      requires forall other :: other in open ==>
                 && other.entry.key in attempts && attempts[other.entry.key] == other.entry && other in other.entry.holders
      modifies `open
      ensures Valid() && open == old(open) + {r}
    {
      open := open + {r};
    }

    method AdmitAndOpen(entry: LoginAttempt, now: nat) returns (r: LoginReservation?, retryAfter: int)
      requires Valid() && entry.key in attempts && attempts[entry.key] == entry
      modifies this`values, this`open, entry
      ensures Valid()
      ensures values == old(values)[entry.key := Reserved(Renewed(old(values)[entry.key], now), now)]
      ensures match AnswerFor(Renewed(old(values)[entry.key], now), now)
              case Granted(windowEnd) =>
                && r != null && fresh(r) && retryAfter == 0 && r.entry == entry && r.windowEnd == windowEnd
                && open == old(open) + {r}
              case Refused(seconds) => r == null && retryAfter == seconds && open == old(open)
    {
      r, retryAfter := Admit(entry, now);
      if r != null {
        Open(entry, r);
      }
    }

    /** The part of a reservation after the sweep. */
    method ReserveEntry(key: string, now: nat) returns (r: LoginReservation?, retryAfter: int)
      requires Valid()
      modifies this`attempts, this`values, this`repr, this`open, repr
      ensures Valid() && fresh(repr - old(repr))
      ensures values == AfterReserve(old(values), key, now)
      ensures match ReserveAnswer(old(values), key, now)
              case Granted(windowEnd) =>
                && r != null && fresh(r) && retryAfter == 0
                && r.entry.key == key && r.windowEnd == windowEnd && open == old(open) + {r}
              case Refused(seconds) => r == null && retryAfter == seconds && open == old(open)
    {
      var entry := FindOrAdd(key);
      SetTwice(old(values), key, EntryFor(old(values), key), Reserved(Renewed(EntryFor(old(values), key), now), now));
      r, retryAfter := AdmitAndOpen(entry, now);
    }

    method SweepAndReserve(key: string, now: nat) returns (r: LoginReservation?, retryAfter: int)
      requires Valid()
      modifies this`attempts, this`values, this`nextSweep, this`repr, this`open, repr
      ensures Valid() && fresh(repr - old(repr))
      ensures nextSweep == if now < old(nextSweep) then old(nextSweep) else now + WINDOW
      ensures values == AfterReserve(SweptIfDue(old(values), old(nextSweep), now), key, now)
      ensures match ReserveAnswer(SweptIfDue(old(values), old(nextSweep), now), key, now)
              case Granted(windowEnd) =>
                && r != null && fresh(r) && retryAfter == 0
                && r.entry.key == key && r.windowEnd == windowEnd && open == old(open) + {r}
              case Refused(seconds) => r == null && retryAfter == seconds && open == old(open)
    {
      Sweep(now);
      r, retryAfter := ReserveEntry(key, now);
    }

    /** Notes a call in the history. */
    ghost method Record(call: Call, r: LoginReservation?)
      requires Valid() && Legal(calls, true) && Clock(calls) <= call.now && Enabled(Run(calls, true), call)
      requires Mirrors(values, nextSweep, Extended(issued, r), open, Next(Run(calls, true), call, true).0)
      modifies `calls, `issued
      ensures Valid() && Follows() && calls == old(calls) + [call] && issued == Extended(old(issued), r)
      ensures Answers(calls, true)[|calls| - 1] == Next(Run(old(calls), true), call, true).1
    {
      RunOneMore(calls, call, true);
      calls, issued := calls + [call], Extended(issued, r);
    }

    /** Answers as the run of all calls so far does. A granted reservation is open, and no other one closes. */
    method Reserve(key: string, now: nat) returns (r: LoginReservation?, retryAfter: int)
      requires Valid() && Follows() && Clock(calls) <= now
      modifies this, repr
      ensures Valid() && Follows() && fresh(repr - old(repr))
      ensures calls == old(calls) + [Call.Reserve(key, now)]
      ensures match Answers(calls, true)[|calls| - 1]
              case Some(Granted(windowEnd)) =>
                && r != null && fresh(r) && retryAfter == 0
                && r.entry.key == key && r.windowEnd == windowEnd && open == old(open) + {r}
              case Some(Refused(seconds)) => r == null && retryAfter == seconds && open == old(open)
              case None => false
    {
      r, retryAfter := SweepAndReserve(key, now);
      ReserveMirrored(old(values), old(nextSweep), issued, old(open), Run(calls, true), key, now, r);
      Record(Call.Reserve(key, now), r);
    }

    method Release(r: LoginReservation, outcome: LoginOutcome, now: nat)
      requires EntriesOk() && r.entry.key in attempts && attempts[r.entry.key] == r.entry && r in r.entry.holders
      modifies this`values, r.entry
      ensures EntriesOk() && r.entry.holders == old(r.entry.holders) - {r}
      ensures values == old(values)[r.entry.key := Completed(old(values)[r.entry.key], r.windowEnd, outcome, now)]
    {
      var entry := r.entry;
      ghost var e := values[entry.key];
      entry.pending := entry.pending - 1;
      entry.holders := entry.holders - {r};
      values := values[entry.key := Completed(e, r.windowEnd, outcome, now)];
      if !(now < r.windowEnd) || entry.windowEnd != r.windowEnd {
        return;
      }
      match outcome {
        case Aborted =>
        case Failed => entry.failures := entry.failures + 1;
        case Succeeded => entry.failures := 0;
      }
    }

    method ReleaseAndClose(r: LoginReservation, outcome: LoginOutcome, now: nat)
      requires Valid() && r in open
      modifies this`values, this`open, r.entry
      ensures Valid() && open == old(open) - {r}
      ensures r.entry.key in old(values)
      ensures values == old(values)[r.entry.key := Completed(old(values)[r.entry.key], r.windowEnd, outcome, now)]
    {
      Release(r, outcome, now);
      open := open - {r};
    }

    /** Called once for each reservation; the entry it points at is the one the map holds for its key. */
    method Finish(r: LoginReservation, outcome: LoginOutcome, now: nat) returns (ghost i: nat)
      requires Valid() && Follows() && r in open && Clock(calls) <= now
      modifies this`values, this`open, this`calls, this`issued, r.entry
      ensures Valid() && Follows() && open == old(open) - {r}
      ensures issued == old(issued)
      ensures i < |issued| && issued[i] == r && calls == old(calls) + [Complete(i, outcome, now)]
    {
      i :| 0 <= i < |issued| && issued[i] == r;
      ReleaseAndClose(r, outcome, now);
      CompleteMirrored(old(values), nextSweep, issued, old(open), Run(calls, true), i, outcome, now);
      Record(Complete(i, outcome, now), null);
    }
  }

  // ---------- The objects mirror the machine ----------

  /** The `i`-th reservation granted is the `i`-th in the machine's history, and open if that is. */
  ghost predicate Stands(r: LoginReservation, open: set<LoginReservation>, reservation: Reservation) {
    r.entry.key == reservation.key && r.windowEnd == reservation.windowEnd && (r in open <==> reservation.open)
  }

  ghost predicate ReservationsMirror(issued: seq<LoginReservation>, open: set<LoginReservation>, reservations: seq<Reservation>) {
    && |issued| == |reservations|
    && (forall i, j :: 0 <= i < j < |issued| ==> issued[i] != issued[j])
    && (forall r :: r in open ==> r in issued)
    && forall i :: 0 <= i < |issued| ==> Stands(issued[i], open, reservations[i])
  }

  ghost predicate Mirrors(values: map<string, Entry>, nextSweep: nat, issued: seq<LoginReservation>, open: set<LoginReservation>,
                          l: LoginLimits.Limiter)
  {
    values == l.entries && nextSweep == l.nextSweep && ReservationsMirror(issued, open, l.reservations)
  }

  ghost function Extended(issued: seq<LoginReservation>, r: LoginReservation?): seq<LoginReservation> {
    if r != null then issued + [r] else issued
  }

  function SweptIfDue(values: map<string, Entry>, nextSweep: nat, now: nat): map<string, Entry> {
    if now < nextSweep then values else Swept(values, now)
  }

  lemma ReserveMirrored(values: map<string, Entry>, nextSweep: nat, issued: seq<LoginReservation>, open: set<LoginReservation>,
                        l: LoginLimits.Limiter, key: string, now: nat, r: LoginReservation?)
    requires Mirrors(values, nextSweep, issued, open, l)
    requires match ReserveAnswer(SweptIfDue(values, nextSweep, now), key, now)
             case Granted(windowEnd) => r != null && r.entry.key == key && r.windowEnd == windowEnd && r !in issued
             case Refused(_) => r == null
    ensures Next(l, Call.Reserve(key, now), true).1 == Some(ReserveAnswer(SweptIfDue(values, nextSweep, now), key, now))
    ensures Mirrors(AfterReserve(SweptIfDue(values, nextSweep, now), key, now),
                    if now < nextSweep then nextSweep else now + WINDOW,
                    Extended(issued, r),
                    if r != null then open + {r} else open,
                    Next(l, Call.Reserve(key, now), true).0)
  {
    assert MaybeSwept(l, now, true).entries == SweptIfDue(values, nextSweep, now);
  }

  lemma CompleteMirrored(values: map<string, Entry>, nextSweep: nat, issued: seq<LoginReservation>, open: set<LoginReservation>,
                         l: LoginLimits.Limiter, i: nat, outcome: LoginOutcome, now: nat)
    requires Mirrors(values, nextSweep, issued, open, l) && i < |issued| && issued[i] in open
    requires issued[i].entry.key in values
    ensures Enabled(l, Complete(i, outcome, now))
    ensures var key := issued[i].entry.key;
            Mirrors(values[key := Completed(values[key], issued[i].windowEnd, outcome, now)], nextSweep, issued, open - {issued[i]},
                    Next(l, Complete(i, outcome, now), true).0)
  {
  }

  lemma SetTwice(m: map<string, Entry>, key: string, first: Entry, second: Entry)
    ensures m[key := first][key] == first && m[key := first][key := second] == m[key := second]
  {
  }
}
