/** The login limiter as a state machine over values: what a reservation and its completion do, with or
    without the lazy sweep, and the history that the limiter itself forgets. */
module LoginLimits {
  import opened Wrappers
  import opened DeliveryModel

  const MAX_ATTEMPTS := 10
  const WINDOW := 15 * 60 * SECOND

  datatype LoginOutcome = Aborted | Failed | Succeeded

  datatype Entry = Entry(failures: int, pending: int, windowEnd: nat)

  /** A new entry has Go's zero time as its window end: no clock reading is before it. */
  const NEW_ENTRY := Entry(0, 0, 0)

  datatype Answer = Granted(windowEnd: nat) | Refused(retryAfter: int)

  // ---------- One reservation, one completion, one sweep ----------

  function EntryFor(m: map<string, Entry>, key: string): Entry {
    if key in m then m[key] else NEW_ENTRY
  }

  /** A window that has ended is replaced by one that starts now; pending checks stay counted. */
  function Renewed(e: Entry, now: nat): Entry {
    if e.windowEnd <= now then Entry(0, e.pending, now + WINDOW) else e
  }

  function CeilSeconds(d: int): int {
    (d + SECOND - 1) / SECOND
  }

  function AnswerFor(e: Entry, now: nat): Answer {
    if e.failures >= MAX_ATTEMPTS then Refused(CeilSeconds(e.windowEnd - now))
    else if e.failures + e.pending >= MAX_ATTEMPTS then Refused(1)
    else Granted(e.windowEnd)
  }

  function Reserved(e: Entry, now: nat): Entry {
    if AnswerFor(e, now).Granted? then e.(pending := e.pending + 1) else e
  }

  function AfterReserve(m: map<string, Entry>, key: string, now: nat): map<string, Entry> {
    m[key := Reserved(Renewed(EntryFor(m, key), now), now)]
  }

  function ReserveAnswer(m: map<string, Entry>, key: string, now: nat): Answer {
    AnswerFor(Renewed(EntryFor(m, key), now), now)
  }

  /** A completion counts only inside the window its reservation was granted in. */
  predicate CountsInWindow(e: Entry, windowEnd: nat, now: nat) {
    now < windowEnd && e.windowEnd == windowEnd
  }

  function Completed(e: Entry, windowEnd: nat, outcome: LoginOutcome, now: nat): Entry {
    var released := e.(pending := e.pending - 1);
    if !CountsInWindow(e, windowEnd, now) then released
    else
      match outcome
      case Aborted => released
      case Failed => released.(failures := e.failures + 1)
      case Succeeded => released.(failures := 0)
  }

  predicate Idle(e: Entry, now: nat) {
    e.pending == 0 && e.windowEnd <= now
  }

  function Swept(m: map<string, Entry>, now: nat): map<string, Entry> {
    map key | key in m && !Idle(m[key], now) :: m[key]
  }

  // ---------- The limiter with its history ----------

  /** What happened in the current window of a key. */
  datatype Tally = Tally(granted: int, aborted: int, succeeded: int, cleared: int, late: int)

  const NO_TALLY := Tally(0, 0, 0, 0, 0)

  datatype Reservation = Reservation(key: string, windowEnd: nat, open: bool)

  /** `reservations` are all that were ever granted; with `tallies` they are history that no step reads,
      except that a completion belongs to its reservation. */
  datatype Limiter = Limiter(entries: map<string, Entry>, nextSweep: nat, reservations: seq<Reservation>, tallies: map<string, Tally>)

  const EMPTY := Limiter(map[], 0, [], map[])

  datatype Call = Reserve(key: string, now: nat) | Complete(reservation: nat, outcome: LoginOutcome, now: nat)

  predicate Enabled(l: Limiter, call: Call) {
    call.Complete? ==> call.reservation < |l.reservations| && l.reservations[call.reservation].open
  }

  function MaybeSwept(l: Limiter, now: nat, sweeping: bool): Limiter {
    if sweeping && l.nextSweep <= now then l.(entries := Swept(l.entries, now), nextSweep := now + WINDOW) else l
  }

  function TallyFor(l: Limiter, key: string, now: nat): Tally {
    if key in l.tallies && now < EntryFor(l.entries, key).windowEnd then l.tallies[key] else NO_TALLY
  }

  function Next(l: Limiter, call: Call, sweeping: bool): (Limiter, Option<Answer>)
    requires Enabled(l, call)
  {
    match call
    case Reserve(key, now) =>
      var s := MaybeSwept(l, now, sweeping);
      var answer := ReserveAnswer(s.entries, key, now);
      var tally := TallyFor(s, key, now);
      (s.(entries := AfterReserve(s.entries, key, now),
          reservations := if answer.Granted? then s.reservations + [Reservation(key, answer.windowEnd, true)] else s.reservations,
          tallies := s.tallies[key := if answer.Granted? then tally.(granted := tally.granted + 1) else tally]),
       Some(answer))
    case Complete(i, outcome, now) =>
      var r := l.reservations[i];
      var e := EntryFor(l.entries, r.key);
      (l.(entries := l.entries[r.key := Completed(e, r.windowEnd, outcome, now)],
          reservations := l.reservations[i := r.(open := false)],
          tallies := l.tallies[r.key := Counted(if r.key in l.tallies then l.tallies[r.key] else NO_TALLY, e, r, outcome, now)]),
       None)
  }

  function Counted(t: Tally, e: Entry, r: Reservation, outcome: LoginOutcome, now: nat): Tally {
    if e.windowEnd != r.windowEnd then t
    else if r.windowEnd <= now then t.(late := t.late + 1)
    else
      match outcome
      case Aborted => t.(aborted := t.aborted + 1)
      case Failed => t
      case Succeeded => t.(succeeded := t.succeeded + 1, cleared := t.cleared + e.failures)
  }

  // ---------- Runs under a clock that never goes back ----------

  /** Calls one after the other; a completion ends an open reservation, and time does not go back. */
  ghost predicate Legal(calls: seq<Call>, sweeping: bool)
    decreases |calls|, 0
  {
    calls != [] ==>
      var earlier := calls[..|calls| - 1];
      && Legal(earlier, sweeping)
      && Clock(earlier) <= calls[|calls| - 1].now
      && Enabled(Run(earlier, sweeping), calls[|calls| - 1])
  }

  function Clock(calls: seq<Call>): nat {
    if calls == [] then 0 else calls[|calls| - 1].now
  }

  ghost function Run(calls: seq<Call>, sweeping: bool): Limiter
    requires Legal(calls, sweeping)
    decreases |calls|, 1
  {
    if calls == [] then EMPTY else Next(Run(calls[..|calls| - 1], sweeping), calls[|calls| - 1], sweeping).0
  }

  /** The grants and Retry-After values handed out. */
  ghost function Answers(calls: seq<Call>, sweeping: bool): (answers: seq<Option<Answer>>)
    requires Legal(calls, sweeping)
    ensures |answers| == |calls|
  {
    if calls == [] then []
    else
      var earlier := calls[..|calls| - 1];
      Answers(earlier, sweeping) + [Next(Run(earlier, sweeping), calls[|calls| - 1], sweeping).1]
  }

  lemma RunOneMore(calls: seq<Call>, call: Call, sweeping: bool)
    requires Legal(calls, sweeping) && Clock(calls) <= call.now && Enabled(Run(calls, sweeping), call)
    ensures Legal(calls + [call], sweeping)
    ensures Run(calls + [call], sweeping) == Next(Run(calls, sweeping), call, sweeping).0
    ensures Answers(calls + [call], sweeping) == Answers(calls, sweeping) + [Next(Run(calls, sweeping), call, sweeping).1]
  {
    assert (calls + [call])[..|calls|] == calls;
  }

  // ---------- Conservation ----------

  function OpenFor(rs: seq<Reservation>, key: string): nat {
    if rs == [] then 0 else OpenFor(rs[..|rs| - 1], key) + if rs[|rs| - 1].open && rs[|rs| - 1].key == key then 1 else 0
  }

  function OpenInWindow(rs: seq<Reservation>, key: string, windowEnd: nat): nat {
    if rs == [] then 0
    else
      var last := rs[|rs| - 1];
      OpenInWindow(rs[..|rs| - 1], key, windowEnd) + if last.open && last.key == key && last.windowEnd == windowEnd then 1 else 0
  }

  predicate EntryOk(l: Limiter, key: string)
    requires key in l.entries
  {
    var e := l.entries[key];
    && 0 <= e.failures
    && e.failures + e.pending <= MAX_ATTEMPTS
    && e.pending == OpenFor(l.reservations, key)
    && key in l.tallies
    && var t := l.tallies[key];
       t.granted - t.aborted - t.succeeded - t.cleared - t.late == e.failures + OpenInWindow(l.reservations, key, e.windowEnd)
  }

  /** In the limiter that never sweeps, every reservation belongs to a remembered entry and to its
      current window or an older one. */
  predicate LimiterOk(l: Limiter, clock: nat) {
    && (forall key :: key in l.entries ==> EntryOk(l, key) && l.entries[key].windowEnd <= clock + WINDOW)
    && (forall i :: 0 <= i < |l.reservations| ==>
          l.reservations[i].key in l.entries && l.reservations[i].windowEnd <= l.entries[l.reservations[i].key].windowEnd)
  }

  lemma {:induction false} CloseOne(rs: seq<Reservation>, i: nat, key: string, windowEnd: nat)
    requires i < |rs| && rs[i].open
    ensures var closed := rs[i := rs[i].(open := false)];
            && OpenFor(closed, key) == OpenFor(rs, key) - (if rs[i].key == key then 1 else 0)
            && OpenInWindow(closed, key, windowEnd)
            == OpenInWindow(rs, key, windowEnd) - if rs[i].key == key && rs[i].windowEnd == windowEnd then 1 else 0
  {
    var closed := rs[i := rs[i].(open := false)];
    var last := |rs| - 1;
    if i < last {
      CloseOne(rs[..last], i, key, windowEnd);
      assert closed[..last] == rs[..last][i := rs[i].(open := false)];
    } else {
      assert closed[..last] == rs[..last];
    }
  }

  lemma OpenAppend(rs: seq<Reservation>, r: Reservation, key: string, windowEnd: nat)
    ensures OpenFor(rs + [r], key) == OpenFor(rs, key) + (if r.open && r.key == key then 1 else 0)
    ensures OpenInWindow(rs + [r], key, windowEnd)
         == OpenInWindow(rs, key, windowEnd) + if r.open && r.key == key && r.windowEnd == windowEnd then 1 else 0
  {
    assert (rs + [r])[..|rs|] == rs;
  }

  lemma {:induction false} NoneInNewWindow(rs: seq<Reservation>, key: string, windowEnd: nat)
    requires forall i :: 0 <= i < |rs| && rs[i].key == key ==> rs[i].windowEnd < windowEnd
    ensures OpenInWindow(rs, key, windowEnd) == 0
  {
    if rs != [] {
      NoneInNewWindow(rs[..|rs| - 1], key, windowEnd);
    }
  }

  lemma {:induction false} OpenIsCounted(rs: seq<Reservation>, i: nat)
    requires i < |rs| && rs[i].open
    ensures OpenFor(rs, rs[i].key) >= 1 && OpenInWindow(rs, rs[i].key, rs[i].windowEnd) >= 1
  {
    if i < |rs| - 1 {
      OpenIsCounted(rs[..|rs| - 1], i);
    }
  }

  lemma {:induction false} WindowWithinOpen(rs: seq<Reservation>, key: string, windowEnd: nat)
    ensures OpenInWindow(rs, key, windowEnd) <= OpenFor(rs, key)
  {
    if rs != [] {
      WindowWithinOpen(rs[..|rs| - 1], key, windowEnd);
    }
  }

  lemma {:induction false} NoneOpenWithoutEntry(rs: seq<Reservation>, key: string)
    requires forall i :: 0 <= i < |rs| ==> rs[i].key != key
    ensures OpenFor(rs, key) == 0
  {
    if rs != [] {
      NoneOpenWithoutEntry(rs[..|rs| - 1], key);
    }
  }

  lemma ReserveKeepsLimiter(l: Limiter, clock: nat, key: string, now: nat)
    requires LimiterOk(l, clock) && clock <= now
    ensures LimiterOk(Next(l, Reserve(key, now), false).0, now)
  {
    var next := Next(l, Reserve(key, now), false).0;
    ReservedEntryOk(l, clock, key, now);
    forall k | k in next.entries && k != key ensures EntryOk(next, k) && next.entries[k].windowEnd <= now + WINDOW {
      OtherEntryOk(l, key, now, k);
      assert EntryOk(l, k);
    }
    assert next.entries[key].windowEnd <= now + WINDOW;
    assert EntryFor(l.entries, key).windowEnd <= next.entries[key].windowEnd;
  }

  lemma OtherEntryOk(l: Limiter, key: string, now: nat, k: string)
    requires k in l.entries && k != key && EntryOk(l, k)
    ensures k in Next(l, Reserve(key, now), false).0.entries && EntryOk(Next(l, Reserve(key, now), false).0, k)
  {
    var next := Next(l, Reserve(key, now), false).0;
    if next.reservations != l.reservations {
      OpenAppend(l.reservations, next.reservations[|l.reservations|], k, next.entries[k].windowEnd);
    }
  }

  /** The entry as a reservation finds it, before it is counted. */
  function WithRenewed(l: Limiter, key: string, now: nat): Limiter {
    l.(entries := l.entries[key := Renewed(EntryFor(l.entries, key), now)], tallies := l.tallies[key := TallyFor(l, key, now)])
  }

  lemma RenewedEntryOk(l: Limiter, clock: nat, key: string, now: nat)
    requires LimiterOk(l, clock) && clock <= now
    ensures EntryOk(WithRenewed(l, key, now), key)
  {
    if key !in l.entries {
      NoneOpenWithoutEntry(l.reservations, key);
    } else {
      assert EntryOk(l, key);
    }
    if EntryFor(l.entries, key).windowEnd <= now {
      NoneInNewWindow(l.reservations, key, now + WINDOW);
    }
  }

  lemma ReservedEntryOk(l: Limiter, clock: nat, key: string, now: nat)
    requires LimiterOk(l, clock) && clock <= now
    ensures EntryOk(Next(l, Reserve(key, now), false).0, key)
  {
    var next, renewed := Next(l, Reserve(key, now), false).0, WithRenewed(l, key, now);
    RenewedEntryOk(l, clock, key, now);
    if next.reservations != l.reservations {
      OpenAppend(l.reservations, next.reservations[|l.reservations|], key, renewed.entries[key].windowEnd);
    }
  }

  lemma CompleteKeepsEntry(l: Limiter, clock: nat, i: nat, outcome: LoginOutcome, now: nat, key: string)
    requires LimiterOk(l, clock) && clock <= now && Enabled(l, Complete(i, outcome, now)) && key in l.entries
    ensures key in Next(l, Complete(i, outcome, now), false).0.entries && EntryOk(Next(l, Complete(i, outcome, now), false).0, key)
  {
    OpenIsCounted(l.reservations, i);
    assert EntryOk(l, key);
    CloseOne(l.reservations, i, key, l.entries[key].windowEnd);
    WindowWithinOpen(l.reservations, key, l.entries[key].windowEnd);
  }

  lemma CompleteKeepsLimiter(l: Limiter, clock: nat, i: nat, outcome: LoginOutcome, now: nat)
    requires LimiterOk(l, clock) && clock <= now && Enabled(l, Complete(i, outcome, now))
    ensures LimiterOk(Next(l, Complete(i, outcome, now), false).0, now)
  {
    var next := Next(l, Complete(i, outcome, now), false).0;
    forall k | k in next.entries ensures EntryOk(next, k) {
      CompleteKeepsEntry(l, clock, i, outcome, now, k);
    }
  }

  lemma {:induction false} RunsKeepLimiter(calls: seq<Call>)
    requires Legal(calls, false)
    ensures LimiterOk(Run(calls, false), Clock(calls))
    decreases |calls|
  {
    if calls != [] {
      var earlier, call := calls[..|calls| - 1], calls[|calls| - 1];
      RunsKeepLimiter(earlier);
      match call
      case Reserve(key, now) => ReserveKeepsLimiter(Run(earlier, false), Clock(earlier), key, now);
      case Complete(i, outcome, now) => CompleteKeepsLimiter(Run(earlier, false), Clock(earlier), i, outcome, now);
    }
  }

  // ---------- Sweeping ----------

  /** The sweeping limiter has forgotten at most idle entries whose window has ended. */
  predicate Forgets(swept: Limiter, full: Limiter, clock: nat) {
    && swept.reservations == full.reservations
    && swept.tallies == full.tallies
    && (forall key :: key in swept.entries ==> key in full.entries && swept.entries[key] == full.entries[key])
    && (forall key :: key in full.entries && key !in swept.entries ==> Idle(full.entries[key], clock))
  }

  lemma SweepForgets(swept: Limiter, full: Limiter, clock: nat, now: nat)
    requires Forgets(swept, full, clock) && clock <= now
    ensures Forgets(MaybeSwept(swept, now, true), full, now)
  {
  }

  /** Without the sweep itself, the next reservation meets the same entry, remembered or forgotten. */
  lemma ReserveForgets(swept: Limiter, full: Limiter, key: string, now: nat)
    requires Forgets(swept, full, now)
    ensures Forgets(Next(swept, Reserve(key, now), false).0, Next(full, Reserve(key, now), false).0, now)
    ensures Next(swept, Reserve(key, now), false).1 == Next(full, Reserve(key, now), false).1
  {
    assert Renewed(EntryFor(swept.entries, key), now) == Renewed(EntryFor(full.entries, key), now);
    assert TallyFor(swept, key, now) == TallyFor(full, key, now);
  }

  lemma CompleteForgets(swept: Limiter, full: Limiter, clock: nat, i: nat, outcome: LoginOutcome, now: nat)
    requires Forgets(swept, full, clock) && LimiterOk(full, clock) && clock <= now
    requires Enabled(full, Complete(i, outcome, now))
    ensures Forgets(Next(swept, Complete(i, outcome, now), true).0, Next(full, Complete(i, outcome, now), false).0, now)
  {
    var r := full.reservations[i];
    OpenIsCounted(full.reservations, i);
    assert EntryOk(full, r.key);
    assert r.key in swept.entries;
  }

  lemma StepForgets(swept: Limiter, full: Limiter, clock: nat, call: Call)
    requires Forgets(swept, full, clock) && LimiterOk(full, clock) && clock <= call.now
    requires Enabled(full, call)
    ensures Enabled(swept, call)
    ensures Forgets(Next(swept, call, true).0, Next(full, call, false).0, call.now)
    ensures Next(swept, call, true).1 == Next(full, call, false).1
  {
    match call
    case Reserve(key, now) =>
      var s := MaybeSwept(swept, now, true);
      SweepForgets(swept, full, clock, now);
      ReserveForgets(s, full, key, now);
      assert Next(swept, call, true).0 == Next(s, call, false).0;
    case Complete(i, outcome, now) => CompleteForgets(swept, full, clock, i, outcome, now);
  }

  lemma {:induction false} RunsForget(calls: seq<Call>)
    requires Legal(calls, false)
    ensures Legal(calls, true)
    ensures Forgets(Run(calls, true), Run(calls, false), Clock(calls))
    ensures Answers(calls, true) == Answers(calls, false)
    decreases |calls|
  {
    if calls != [] {
      var earlier := calls[..|calls| - 1];
      RunsForget(earlier);
      RunsKeepLimiter(earlier);
      StepForgets(Run(earlier, true), Run(earlier, false), Clock(earlier), calls[|calls| - 1]);
    }
  }

  lemma {:induction false} LegalEitherWay(calls: seq<Call>)
    requires Legal(calls, true)
    ensures Legal(calls, false)
    decreases |calls|
  {
    if calls != [] {
      var earlier := calls[..|calls| - 1];
      LegalEitherWay(earlier);
      RunsForget(earlier);
    }
  }

  /** Sweeping is unobservable: whatever is called under a clock that never goes back, the limiter gives the
      same grants and Retry-After values as one that never deletes an entry. */
  lemma SweepingIsUnobservable(calls: seq<Call>)
    requires Legal(calls, true) || Legal(calls, false)
    ensures Legal(calls, true) && Legal(calls, false)
    ensures Answers(calls, true) == Answers(calls, false)
  {
    if Legal(calls, true) {
      LegalEitherWay(calls);
    }
    RunsForget(calls);
  }

  /** Conservation in the limiter as it runs, sweeping: pending counts the open reservations, failures and
      pending together never exceed ten, and within a window what was granted and not aborted, successful,
      cleared or late is still a failure or pending. An open reservation's entry is never dropped. */
  lemma LimiterConservation(calls: seq<Call>, key: string)
    requires Legal(calls, true)
    ensures var l := Run(calls, true);
            && (key in l.entries ==>
                  var e := l.entries[key];
                  && 0 <= e.failures && 0 <= e.pending && e.failures + e.pending <= 10
                  && e.pending == OpenFor(l.reservations, key)
                  && key in l.tallies
                  && var t := l.tallies[key];
                     t.granted - t.aborted - t.succeeded - t.cleared - t.late
                     == e.failures + OpenInWindow(l.reservations, key, e.windowEnd))
            && (OpenFor(l.reservations, key) > 0 ==> key in l.entries)
  {
    LegalEitherWay(calls);
    RunsForget(calls);
    RunsKeepLimiter(calls);
    var full := Run(calls, false);
    if key in full.entries {
      assert EntryOk(full, key);
    } else {
      NoneOpenWithoutEntry(full.reservations, key);
    }
  }

  lemma OpenReservationHasEntry(calls: seq<Call>, i: nat)
    requires Legal(calls, true) && i < |Run(calls, true).reservations| && Run(calls, true).reservations[i].open
    ensures Run(calls, true).reservations[i].key in Run(calls, true).entries
  {
    OpenIsCounted(Run(calls, true).reservations, i);
    LimiterConservation(calls, Run(calls, true).reservations[i].key);
  }

  /** In every legal sequence, a completion of a reservation whose window is not its entry's any more, or has
      ended, changes nothing but the pending count of that one entry. */
  lemma OldCompletionOnlyReleases(calls: seq<Call>, i: nat, outcome: LoginOutcome, now: nat)
    requires Legal(calls + [Complete(i, outcome, now)], true) && Legal(calls, true)
    requires var before := Run(calls, true);
             && i < |before.reservations|
             && var r := before.reservations[i];
                r.windowEnd != EntryFor(before.entries, r.key).windowEnd || r.windowEnd <= now
    ensures var before, after := Run(calls, true), Run(calls + [Complete(i, outcome, now)], true);
            && before.reservations[i].key in before.entries
            && after.entries.Keys == before.entries.Keys
            && forall key :: key in before.entries ==>
                 after.entries[key]
                 == before.entries[key].(pending := before.entries[key].pending - if key == before.reservations[i].key then 1 else 0)
  {
    var longer := calls + [Complete(i, outcome, now)];
    assert longer[..|longer| - 1] == calls;
    OpenReservationHasEntry(calls, i);
  }

  lemma EntryOfRun(calls: seq<Call>, key: string)
    requires Legal(calls, true)
    ensures var e := EntryFor(Run(calls, true).entries, key);
            0 <= e.failures && 0 <= e.pending && e.failures + e.pending <= MAX_ATTEMPTS && e.windowEnd <= Clock(calls) + WINDOW
  {
    LimiterConservation(calls, key);
    LegalEitherWay(calls);
    RunsForget(calls);
    RunsKeepLimiter(calls);
  }

  lemma RefusalOf(e: Entry, now: nat, retry: int)
    requires AnswerFor(e, now) == Refused(retry) && now < e.windowEnd <= now + WINDOW
    ensures 1 <= retry <= 900
    ensures e.failures >= MAX_ATTEMPTS ==> (retry - 1) * SECOND < e.windowEnd - now <= retry * SECOND
    ensures e.failures < MAX_ATTEMPTS ==> retry == 1 && e.failures + e.pending >= MAX_ATTEMPTS
  {
  }

  /** In every legal sequence, a refusal asks the client to wait 1 to 900 seconds: if ten failures are recorded,
      until the window ends, rounded up; otherwise one second, and then the entry is full of pending checks. */
  lemma RetryAfterIsTheRemainingWindow(calls: seq<Call>, key: string, now: nat, retry: int)
    requires Legal(calls + [Reserve(key, now)], true) && Legal(calls, true)
    requires Next(Run(calls, true), Reserve(key, now), true).1 == Some(Refused(retry))
    ensures 1 <= retry <= 900
    ensures key in Run(calls + [Reserve(key, now)], true).entries
    ensures var e := Run(calls + [Reserve(key, now)], true).entries[key];
            && (e.failures >= 10 ==> (retry - 1) * SECOND < e.windowEnd - now <= retry * SECOND)
            && (e.failures < 10 ==> retry == 1 && e.failures + e.pending == 10)
  {
    var longer := calls + [Reserve(key, now)];
    assert longer[..|longer| - 1] == calls;
    EntryOfRun(calls, key);
    EntryOfRun(longer, key);
    RefusalOf(Run(longer, true).entries[key], now, retry);
  }

  predicate IsBounded(answer: Option<Answer>) {
    answer.Some? && answer.value.Refused? ==> 1 <= answer.value.retryAfter <= 900
  }

  lemma NextIsBounded(calls: seq<Call>, call: Call)
    requires Legal(calls, true) && Legal(calls + [call], true) && Enabled(Run(calls, true), call)
    ensures IsBounded(Next(Run(calls, true), call, true).1)
  {
    var answer := Next(Run(calls, true), call, true).1;
    if answer.Some? && answer.value.Refused? {
      RetryAfterIsTheRemainingWindow(calls, call.key, call.now, answer.value.retryAfter);
    }
  }

  /** No legal sequence gets a refusal outside 1 to 900 seconds, at any point. */
  lemma {:induction false} RefusalsAreBounded(calls: seq<Call>)
    requires Legal(calls, true)
    ensures forall answer :: answer in Answers(calls, true) ==> IsBounded(answer)
    decreases |calls|
  {
    if calls != [] {
      var earlier, call := calls[..|calls| - 1], calls[|calls| - 1];
      assert calls == earlier + [call];
      RefusalsAreBounded(earlier);
      NextIsBounded(earlier, call);
    }
  }

  // ---------- What is counted ----------

  /** What a reservation finds: the failures of a window that has not ended yet, all pending checks, and the end
      of that window or of a new one of 15 minutes. */
  function Found(m: map<string, Entry>, key: string, now: nat): Entry {
    if key !in m then Entry(0, 0, now + 900 * SECOND)
    else if now < m[key].windowEnd then m[key]
    else Entry(0, m[key].pending, now + 900 * SECOND)
  }

  /** A reservation is granted exactly when fewer than ten failures and pending checks are counted, and then is one
      more pending check. No other entry changes; some that count nothing are forgotten. */
  predicate IsReserved(before: map<string, Entry>, key: string, now: nat, answer: Option<Answer>, after: map<string, Entry>) {
    var found := Found(before, key, now);
    && answer.Some?
    && (found.failures + found.pending < 10 ==> answer == Some(Granted(found.windowEnd)))
    && (found.failures + found.pending >= 10 ==> answer.value.Refused?)
    && key in after && after[key] == (if found.failures + found.pending < 10 then found.(pending := found.pending + 1) else found)
    && (forall other :: other in after && other != key ==> other in before && after[other] == before[other])
    && (forall other :: other in before && other !in after ==> before[other].pending == 0 && before[other].windowEnd <= now)
  }

  lemma ReserveStep(l: Limiter, key: string, now: nat)
    requires EntryFor(l.entries, key).pending >= 0
    ensures IsReserved(l.entries, key, now, Next(l, Reserve(key, now), true).1, Next(l, Reserve(key, now), true).0.entries)
  {
  }

  /** A completion releases its pending check. Within the running window that its reservation was granted in, a
      failed login is one failure more, a successful one clears them, and an aborted one leaves them. */
  predicate IsCompleted(before: map<string, Entry>, r: Reservation, outcome: LoginOutcome, now: nat, after: map<string, Entry>) {
    && r.key in before
    && var e := before[r.key];
       var counts := e.windowEnd == r.windowEnd && now < r.windowEnd;
       after == before[r.key := Entry(
         if counts && outcome.Failed? then e.failures + 1 else if counts && outcome.Succeeded? then 0 else e.failures,
         e.pending - 1,
         e.windowEnd)]
  }

  lemma CompleteStep(l: Limiter, i: nat, outcome: LoginOutcome, now: nat)
    requires Enabled(l, Complete(i, outcome, now)) && l.reservations[i].key in l.entries
    ensures IsCompleted(l.entries, l.reservations[i], outcome, now, Next(l, Complete(i, outcome, now), true).0.entries)
  {
  }

  /** What the calls do to the entries in every legal sequence. */
  lemma CallsMean(calls: seq<Call>, call: Call)
    requires Legal(calls, true) && Clock(calls) <= call.now && Enabled(Run(calls, true), call)
    ensures Legal(calls + [call], true)
    ensures var before, after := Run(calls, true), Run(calls + [call], true).entries;
            match call
            case Reserve(key, now) => IsReserved(before.entries, key, now, Answers(calls + [call], true)[|calls|], after)
            case Complete(i, outcome, now) => IsCompleted(before.entries, before.reservations[i], outcome, now, after)
  {
    RunOneMore(calls, call, true);
    match call
    case Reserve(key, now) =>
      LimiterConservation(calls, key);
      ReserveStep(Run(calls, true), key, now);
    case Complete(i, outcome, now) =>
      OpenReservationHasEntry(calls, i);
      CompleteStep(Run(calls, true), i, outcome, now);
  }

  /** Sweeps happen with a reservation, at least 15 minutes apart. One that is due forgets every entry that counts
      nothing, one that is not due forgets none. */
  lemma SweepsWhenDue(calls: seq<Call>, key: string, now: nat)
    requires Legal(calls, true) && Clock(calls) <= now
    ensures var before := Run(calls, true);
            Legal(calls + [Reserve(key, now)], true) &&
            var after := Run(calls + [Reserve(key, now)], true);
            if before.nextSweep <= now then
              && after.nextSweep == now + 900 * SECOND
              && forall other :: other in after.entries && other != key ==>
                   after.entries[other].pending != 0 || now < after.entries[other].windowEnd
            else after.nextSweep == before.nextSweep && after.entries.Keys == before.entries.Keys + {key}
  {
    RunOneMore(calls, Reserve(key, now), true);
  }

  // ---------- Lockout ----------

  ghost predicate IsLockedOut(l: Limiter, key: string, entry: Entry) {
    key in l.entries && l.entries[key] == entry && entry.failures >= 10
  }

  lemma NoneIsPending(calls: seq<Call>, key: string, entry: Entry, i: nat)
    requires Legal(calls, true) && IsLockedOut(Run(calls, true), key, entry)
    requires i < |Run(calls, true).reservations| && Run(calls, true).reservations[i].open
    ensures Run(calls, true).reservations[i].key != key && entry.pending == 0
  {
    LimiterConservation(calls, key);
    OpenIsCounted(Run(calls, true).reservations, i);
  }

  lemma LockoutSurvives(calls: seq<Call>, call: Call, key: string, entry: Entry)
    requires Legal(calls, true) && Clock(calls) <= call.now < entry.windowEnd && Enabled(Run(calls, true), call)
    requires IsLockedOut(Run(calls, true), key, entry)
    ensures Legal(calls + [call], true) && IsLockedOut(Run(calls + [call], true), key, entry)
    ensures call.Reserve? && call.key == key ==>
              var answer := Answers(calls + [call], true)[|calls|]; answer.Some? && answer.value.Refused?
  {
    CallsMean(calls, call);
    LimiterConservation(calls, key);
    if call.Complete? {
      NoneIsPending(calls, key, entry, call.reservation);
    }
  }

  lemma LegalPrefix(calls: seq<Call>, call: Call)
    requires Legal(calls + [call], true)
    ensures Legal(calls, true) && Clock(calls) <= call.now && Enabled(Run(calls, true), call)
    ensures Answers(calls + [call], true) == Answers(calls, true) + [Next(Run(calls, true), call, true).1]
  {
    assert (calls + [call])[..|calls|] == calls;
  }

  /** Every reservation of the key from the `n`-th call on was refused. */
  ghost predicate AllRefused(calls: seq<Call>, n: nat, key: string)
    requires Legal(calls, true)
  {
    forall i :: n <= i < |calls| && calls[i].Reserve? && calls[i].key == key ==>
      Answers(calls, true)[i].Some? && Answers(calls, true)[i].value.Refused?
  }

  lemma OneMoreRefused(calls: seq<Call>, call: Call, n: nat, key: string)
    requires Legal(calls, true) && Legal(calls + [call], true) && AllRefused(calls, n, key)
    requires call.Reserve? && call.key == key ==>
               var answer := Answers(calls + [call], true)[|calls|]; answer.Some? && answer.value.Refused?
    ensures AllRefused(calls + [call], n, key)
  {
    LegalPrefix(calls, call);
    forall i | n <= i < |calls| + 1 && (calls + [call])[i].Reserve? && (calls + [call])[i].key == key
      ensures Answers(calls + [call], true)[i].Some? && Answers(calls + [call], true)[i].value.Refused?
    {
      if i < |calls| {
        assert Answers(calls + [call], true)[i] == Answers(calls, true)[i];
      }
    }
  }

  lemma LockoutGoesOn(calls: seq<Call>, call: Call, n: nat, key: string, entry: Entry)
    requires Legal(calls, true) && Legal(calls + [call], true) && call.now < entry.windowEnd
    requires IsLockedOut(Run(calls, true), key, entry) && AllRefused(calls, n, key)
    ensures IsLockedOut(Run(calls + [call], true), key, entry) && AllRefused(calls + [call], n, key)
  {
    LegalPrefix(calls, call);
    LockoutSurvives(calls, call, key, entry);
    OneMoreRefused(calls, call, n, key);
  }

  lemma LegalFront(calls: seq<Call>)
    requires calls != [] && Legal(calls, true)
    ensures Legal(calls[..|calls| - 1], true)
  {
  }

  lemma LockoutReaches(calls: seq<Call>, n: nat, key: string, entry: Entry)
    requires n < |calls| && Legal(calls, true) && calls[|calls| - 1].now < entry.windowEnd
    requires Legal(calls[..|calls| - 1], true)
    requires IsLockedOut(Run(calls[..|calls| - 1], true), key, entry) && AllRefused(calls[..|calls| - 1], n, key)
    ensures IsLockedOut(Run(calls, true), key, entry) && AllRefused(calls, n, key)
  {
    var earlier, call := calls[..|calls| - 1], calls[|calls| - 1];
    assert earlier + [call] == calls;
    LockoutGoesOn(earlier, call, n, key, entry);
  }

  /** Ten failures lock a key out: in every continuation until the window's end, whatever is reserved and completed
      for whichever keys, every reservation of that key is refused and its entry stays as it is. */
  lemma {:induction false} TenFailuresLockOut(calls: seq<Call>, n: nat, key: string, entry: Entry)
    requires n <= |calls| && Legal(calls, true) && Legal(calls[..n], true) && IsLockedOut(Run(calls[..n], true), key, entry)
    requires forall i :: n <= i < |calls| ==> calls[i].now < entry.windowEnd
    ensures IsLockedOut(Run(calls, true), key, entry) && AllRefused(calls, n, key)
    decreases |calls|
  {
    if n == |calls| {
      assert calls[..n] == calls;
    } else {
      LegalFront(calls);
      assert calls[..|calls| - 1][..n] == calls[..n];
      TenFailuresLockOut(calls[..|calls| - 1], n, key, entry);
      LockoutReaches(calls, n, key, entry);
    }
  }
}
