/** `process_sync` and `process_async` as they run against the store when nobody interferes, and the proof that such a
    call is a run of the protocol. */
module RemediationEngine {
  import opened Wrappers
  import opened Timestamps
  import opened StateStore
  import opened Protocol

  datatype Audit = Skipped | Started | Ended(status: Status, error: Option<string>)

  // The audit records a step writes.
  function Emits(action: Option<Action>, pc: Pc): seq<Audit> {
    match pc
    case Creating(_, exempt) => if exempt && action.None? then [Skipped] else []
    case Granted(_, _) => [Started]
    case Reporting(o, _) => [Ended(Report(o).status, Report(o).error)]
    case Auditing(_) => [Ended(FAILED, Some(EXHAUSTED))]
    case _ => []
  }

  datatype Solo = Solo(action: Option<Action>, pc: Pc, trail: seq<Audit>)

  // A call that takes `n` steps with a working store and no interference.
  function Alone(action: Option<Action>, max: int, now: nat, pc: Pc, outcome: Outcome, n: nat): Solo
    decreases n
  {
    if n == 0 then Solo(action, pc, [])
    else
      var (action', pc') := Local(action, max, now, pc, Healthy, outcome, now);
      var rest := Alone(action', max, now, pc', outcome, n - 1);
      rest.(trail := Emits(action, pc) + rest.trail)
  }

  lemma {:induction false} AloneFinished(action: Option<Action>, max: int, now: nat, pc: Pc, outcome: Outcome, n: nat)
    requires pc.Finished?
    ensures Alone(action, max, now, pc, outcome, n) == Solo(action, pc, [])
  {
    if n > 0 { AloneFinished(action, max, now, pc, outcome, n - 1); }
  }

  function Repeat(e: Event, n: nat): seq<Event> {
    if n == 0 then [] else Repeat(e, n - 1) + [e]
  }

  // From `s` on, call `c` has come to `t`, which has the record and the place of `alone`.
  predicate Reaches(s: State, c: nat, t: State, alone: Solo) {
    c in t.clients && t.action == alone.action && t.clients[c] == alone.pc && t.max == s.max && t.now == s.now
  }

  /** In any state of the protocol, a call that takes all its steps without interference leaves what `Alone` says. */
  lemma {:induction false} AloneIsARun(s: State, c: nat, outcome: Outcome, n: nat)
    requires c in s.clients
    ensures Reaches(s, c, After(s, Repeat(Advance(c, Healthy, outcome, s.now), n)),
                    Alone(s.action, s.max, s.now, s.clients[c], outcome, n))
  {
    hide Local;
    if n > 0 {
      var e := Advance(c, Healthy, outcome, s.now);
      AloneIsARun(s, c, outcome, n - 1);
      AfterRepeat(s, e, n);
      AloneLast(s.action, s.max, s.now, s.clients[c], outcome, n - 1);
    }
  }

  lemma AfterRepeat(s: State, e: Event, n: nat)
    requires n > 0
    ensures After(s, Repeat(e, n)) == Apply(After(s, Repeat(e, n - 1)), e)
  {
    hide Apply;
    assert Repeat(e, n)[..|Repeat(e, n)| - 1] == Repeat(e, n - 1);
  }

  lemma {:induction false} AloneLast(action: Option<Action>, max: int, now: nat, pc: Pc, outcome: Outcome, n: nat)
    decreases n
    ensures var some, more := Alone(action, max, now, pc, outcome, n), Alone(action, max, now, pc, outcome, n + 1);
            (more.action, more.pc) == Local(some.action, max, now, some.pc, Healthy, outcome, now)
  {
    if n > 0 {
      var (action', pc') := Local(action, max, now, pc, Healthy, outcome, now);
      AloneLast(action', max, now, pc', outcome, n - 1);
    }
  }

  // No call takes more steps than this.
  const STEPS: nat := 8

  function Record(actions: map<string, Action>, id: string): Option<Action> {
    if id in actions then Some(actions[id]) else None
  }

  datatype Reply = Rejected | Conflict | Record200(action: Action)

  class RemediationEngine {
    const store: MemoryStateStore
    const max: int
    var audit: seq<Audit>

    constructor (store: MemoryStateStore, max: int)
      ensures this.store == store && this.max == max && audit == []
    {
      this.store := store;
      this.max := max;
      audit := [];
    }

    // Both calls go on alike once they have read the record `data` and try to claim it.
    method ClaimAndRun(id: string, ghost data: Action, ghost payload: string, worker: Option<string>, outcome: Outcome,
                       now: nat, until: nat)
      returns (ghost pc: Pc, ran: bool, closed: bool)
      requires store.Valid() && InRange(now) && InRange(until) && until == now + LEASE_SECONDS * MICROS
      requires id in store.actions && store.actions[id] == data
      modifies store, this`audit
      ensures store.Valid()
      ensures var role := if worker.Some? then Queue(worker.value) else Web;
        var alone := Alone(Some(data), max, now, Claiming(payload, data, role, now), outcome, 4);
        && alone.action.Some? && alone.pc.Finished? && pc == alone.pc
        && store.actions == old(store.actions)[id := alone.action.value]
        && audit == old(audit) + alone.trail
        && ran == Claimable(data, max, ClaimantOf(role, now), now)
        && closed == (!ran && Exhausted(data, max))
        && pc == (if ran then AfterReport(outcome, ClaimantOf(role, now))
                  else if closed then AfterClose(role) else AfterRefusal(data, max, role))
    {
      hide Alone;
      hide Local;
      ghost var role := if worker.Some? then Queue(worker.value) else Web;
      ghost var claiming := Claiming(payload, data, role, now);
      closed := false;
      ran := store.Claim(id, [PENDING, FAILED_RETRYABLE], max, worker, now, until);
      if ran {
        audit := audit + [Started];
        var updates := Report(outcome);
        var ok := store.Update(id, updates, IN_PROGRESS);
        audit := audit + [Ended(updates.status, updates.error)];
        RunsAlone(data, max, now, claiming, outcome, 4);
        pc := AfterReport(outcome, Who(claiming, now));
        return;
      }
      var seen := store.Get(id);
      if seen.value.status == FAILED_RETRYABLE && seen.value.attempts >= max {
        closed := store.Update(id, Updates(FAILED, Some(EXHAUSTED)), FAILED_RETRYABLE);
        if closed { audit := audit + [Ended(FAILED, Some(EXHAUSTED))]; }
        ClosesAlone(data, max, now, claiming, outcome, 4);
        pc := AfterClose(role);
        return;
      }
      RefusedAlone(data, max, now, claiming, outcome, 4);
      pc := AfterRefusal(data, max, role);
    }

    /** `fingerprint` is the digest of the request, `outcome` what the tag mutation would return. */
    method ProcessSync(valid: bool, key: string, fingerprint: string, exempt: bool, outcome: Outcome, now: nat)
      returns (r: Reply)
      requires store.Valid() && InRange(now) && InRange(now + LEASE_SECONDS * MICROS)
      modifies store, this`audit
      ensures store.Valid()
      ensures !valid ==> r == Rejected && store.actions == old(store.actions) && audit == old(audit)
      ensures valid ==>
        var id := if key == "" then fingerprint else key;
        var alone := Alone(old(Record(store.actions, id)), max, now, Creating(fingerprint, exempt), outcome, STEPS);
        && alone.action.Some? && alone.pc.Finished?
        && store.actions == old(store.actions)[id := alone.action.value]
        && audit == old(audit) + alone.trail
        && r == (if alone.pc.result == Mismatch then Conflict else Record200(alone.action.value))
    {
      hide Alone;
      hide Local;
      if !valid { return Rejected; }
      var id := if key == "" then fingerprint else key;
      ghost var before := Record(store.actions, id);
      var data := NewAction(fingerprint, exempt);
      var created := store.Create(id, data);
      FirstSteps(before, max, now, fingerprint, exempt, outcome);
      if !created {
        var existing := store.Get(id);
        if existing.value.fingerprint != fingerprint { return Conflict; }
        if existing.value.status in {IN_PROGRESS, COMPLETED, SKIPPED_EXEMPT, FAILED} {
          return Record200(existing.value);
        }
        data := existing.value;
      }
      if data.status == SKIPPED_EXEMPT {
        audit := audit + [Skipped];
        return Record200(data);
      }
      ghost var pc;
      var ran, closed;
      pc, ran, closed := ClaimAndRun(id, data, fingerprint, None, outcome, now, now + LEASE_SECONDS * MICROS);
      var final := store.Get(id);
      return Record200(final.value);
    }

    /** Returns whether the queue message may be deleted. */
    method ProcessAsync(id: string, worker: string, outcome: Outcome, now: nat) returns (delete: bool)
      requires store.Valid() && InRange(now) && InRange(now + LEASE_SECONDS * MICROS)
      modifies store, this`audit
      ensures store.Valid()
      ensures
        var alone := Alone(old(Record(store.actions, id)), max, now, Reading(worker), outcome, STEPS);
        && alone.pc.Finished?
        && (id in old(store.actions) <==> alone.action.Some?)
        && store.actions == (if alone.action.Some? then old(store.actions)[id := alone.action.value]
                             else old(store.actions))
        && audit == old(audit) + alone.trail
        && delete == alone.pc.result.Deletable?
    {
      hide Alone;
      hide Local;
      var action := store.Get(id);
      FirstRead(action, max, now, worker, outcome);
      if action.None? { return false; }
      if action.value.status in {COMPLETED, FAILED, SKIPPED_EXEMPT} { return true; }
      ghost var pc;
      var ran, closed;
      pc, ran, closed := ClaimAndRun(id, action.value, action.value.fingerprint, Some(worker), outcome, now,
                                     now + LEASE_SECONDS * MICROS);
      if ran { return !outcome.Retryable?; }
      return closed;
    }
  }

  // ----- What a call does before it claims.

  // Four steps complete a call from its claim; more change nothing.
  lemma EnoughSteps(a: Action, max: int, now: nat, pc: Pc, outcome: Outcome, n: nat)
    requires n >= 4 && pc.Claiming? && pc.seen == a && pc.since == now
    ensures Alone(Some(a), max, now, pc, outcome, n) == Alone(Some(a), max, now, pc, outcome, 4)
  {
    if Claimable(a, max, Who(pc, now), now) {
      RunsAlone(a, max, now, pc, outcome, n);
      RunsAlone(a, max, now, pc, outcome, 4);
    } else if Exhausted(a, max) {
      ClosesAlone(a, max, now, pc, outcome, n);
      ClosesAlone(a, max, now, pc, outcome, 4);
    } else {
      RefusedAlone(a, max, now, pc, outcome, n);
      RefusedAlone(a, max, now, pc, outcome, 4);
    }
  }

  lemma FirstSteps(before: Option<Action>, max: int, now: nat, fp: string, exempt: bool, outcome: Outcome)
    ensures var alone := Alone(before, max, now, Creating(fp, exempt), outcome, STEPS);
            var initial := NewAction(fp, exempt);
            match before
            case None =>
              if exempt then alone == Solo(Some(initial), Finished(Answered), [Skipped])
              else alone == Alone(Some(initial), max, now, Claiming(fp, initial, Web, now), outcome, 4)
            case Some(a) =>
              if a.fingerprint != fp then alone == Solo(before, Finished(Mismatch), [])
              else if a.status in {PENDING, FAILED_RETRYABLE}
              then alone == Alone(before, max, now, Claiming(fp, a, Web, now), outcome, 4)
              else alone == Solo(before, Finished(Answered), [])
  {
    var (a1, pc1) := Local(before, max, now, Creating(fp, exempt), Healthy, outcome, now);
    assert Alone(before, max, now, Creating(fp, exempt), outcome, STEPS).(trail := []) ==
           Alone(a1, max, now, pc1, outcome, STEPS - 1).(trail := []);
    if before.None? {
      if exempt { AloneFinished(a1, max, now, pc1, outcome, STEPS - 1); }
      else { EnoughSteps(a1.value, max, now, pc1, outcome, STEPS - 1); }
    } else {
      var (a2, pc2) := Local(before, max, now, Resolving(fp), Healthy, outcome, now);
      assert Alone(before, max, now, Resolving(fp), outcome, STEPS - 1) ==
          Alone(before, max, now, pc2, outcome, STEPS - 2);
      if pc2.Finished? { AloneFinished(a2, max, now, pc2, outcome, STEPS - 2); }
      else { EnoughSteps(before.value, max, now, pc2, outcome, STEPS - 2); }
    }
  }

  lemma FirstRead(before: Option<Action>, max: int, now: nat, worker: string, outcome: Outcome)
    ensures var alone := Alone(before, max, now, Reading(worker), outcome, STEPS);
            match before
            case None => alone == Solo(None, Finished(Kept), [])
            case Some(a) =>
              if Terminal(a) then alone == Solo(before, Finished(Deletable(AlreadyDone)), [])
              else alone == Alone(before, max, now, Claiming(a.fingerprint, a, Queue(worker), now), outcome, 4)
  {
    var (a1, pc1) := Local(before, max, now, Reading(worker), Healthy, outcome, now);
    assert Alone(before, max, now, Reading(worker), outcome, STEPS) == Alone(before, max, now, pc1, outcome, STEPS - 1);
    if pc1.Finished? { AloneFinished(a1, max, now, pc1, outcome, STEPS - 1); }
    else { EnoughSteps(before.value, max, now, pc1, outcome, STEPS - 1); }
  }

  // ----- The three ways a call goes on from its claim.

  function Who(pc: Pc, now: nat): Claimant
    requires pc.Claiming?
  {
    ClaimantOf(pc.role, now)
  }

  lemma RefusedAlone(a: Action, max: int, now: nat, pc: Pc, outcome: Outcome, n: nat)
    requires n >= 2 && pc.Claiming? && pc.seen == a
    requires !Claimable(a, max, Who(pc, now), now) && !Exhausted(a, max)
    ensures Alone(Some(a), max, now, pc, outcome, n) == Solo(Some(a), AfterRefusal(a, max, pc.role), [])
  {
    AloneFinished(Some(a), max, now, AfterRefusal(a, max, pc.role), outcome, n - 2);
    assert Local(Some(a), max, now, Refused(a, pc.role), Healthy, outcome, now).1 == AfterRefusal(a, max, pc.role);
  }

  lemma ClosesAlone(a: Action, max: int, now: nat, pc: Pc, outcome: Outcome, n: nat)
    requires n >= 4 && pc.Claiming? && pc.seen == a && Exhausted(a, max)
    ensures Alone(Some(a), max, now, pc, outcome, n) ==
            Solo(Some(Updated(a, CLOSE_OUT)), AfterClose(pc.role), [Ended(FAILED, Some(EXHAUSTED))])
  {
    var b := Some(Updated(a, CLOSE_OUT));
    AloneFinished(b, max, now, AfterClose(pc.role), outcome, n - 4);
    assert Alone(b, max, now, Auditing(pc.role), outcome, n - 3) ==
           Solo(b, AfterClose(pc.role), [Ended(FAILED, Some(EXHAUSTED))]);
    assert Alone(Some(a), max, now, Closing(pc.role), outcome, n - 2) ==
        Alone(b, max, now, Auditing(pc.role), outcome, n - 3);
    assert Alone(Some(a), max, now, Refused(a, pc.role), outcome, n - 1) ==
           Alone(Some(a), max, now, Closing(pc.role), outcome, n - 2);
  }

  lemma RunsAlone(a: Action, max: int, now: nat, pc: Pc, outcome: Outcome, n: nat)
    requires n >= 4 && pc.Claiming? && pc.since == now && Claimable(a, max, Who(pc, now), now)
    ensures Alone(Some(a), max, now, pc, outcome, n) ==
            Solo(Some(Updated(Claimed(a, Who(pc, now)), Report(outcome))), AfterReport(outcome, Who(pc, now)),
                 [Started, Ended(Report(outcome).status, Report(outcome).error)])
  {
    var who := Who(pc, now);
    var b := Some(Claimed(a, who));
    var c := Some(Updated(Claimed(a, who), Report(outcome)));
    AloneFinished(c, max, now, AfterReport(outcome, who), outcome, n - 4);
    assert Alone(b, max, now, Reporting(outcome, who), outcome, n - 3) ==
           Solo(c, AfterReport(outcome, who), [Ended(Report(outcome).status, Report(outcome).error)]);
    assert Alone(b, max, now, Executing(pc.payload, who), outcome, n - 2) ==
           Alone(b, max, now, Reporting(outcome, who), outcome, n - 3);
    assert Alone(b, max, now, Granted(pc.payload, who), outcome, n - 1).trail ==
           [Started, Ended(Report(outcome).status, Report(outcome).error)];
  }

  // ----- What a call leaves behind, case by case.

  // The record after an execution with that outcome.
  function Ran(a: Action, o: Outcome): Action {
    var b := a.(attempts := a.attempts + 1);
    match o
    case Succeeded => b.(status := COMPLETED)
    case Permanent(e) => b.(status := FAILED, error := Some(e))
    case Retryable(e) => b.(status := FAILED_RETRYABLE, error := Some(e))
  }

  predicate Executed(trail: seq<Audit>) {
    Started in trail
  }

  /** A web call that nobody interferes with, case by case: an exempt request records a skipped action and executes
      nothing, an action once skipped is never executed, and a new or waiting one is executed if an attempt is left. */
  lemma SyncByCases(before: Option<Action>, max: int, now: nat, fp: string, exempt: bool, outcome: Outcome)
    ensures var alone := Alone(before, max, now, Creating(fp, exempt), outcome, STEPS);
      var made := Action(fp, PENDING, 0, None, None, None);
      match before
      case None =>
        if exempt then alone.action == Some(made.(status := SKIPPED_EXEMPT)) && alone.trail == [Skipped]
        else
          && alone.action == Some(if max >= 1 then Ran(made, outcome) else made)
          && (Executed(alone.trail) <==> max >= 1)
      case Some(a) =>
        if a.fingerprint != fp || a.status !in {PENDING, FAILED_RETRYABLE} then
          alone.action == before && alone.trail == []
        else if a.attempts < max then alone.action == Some(Ran(a, outcome)) && Executed(alone.trail)
        else if a.status == PENDING then alone.action == before && alone.trail == []
        else
          && alone.action == Some(a.(status := FAILED, error := Some("MAX_RETRIES_EXHAUSTED")))
          && !Executed(alone.trail)
  {
    hide Alone, Local;
    FirstSteps(before, max, now, fp, exempt, outcome);
    var a := if before.Some? then before.value else NewAction(fp, exempt);
    var claiming := Claiming(fp, a, Web, now);
    if Claimable(a, max, Who(claiming, now), now) {
      RunsAlone(a, max, now, claiming, outcome, 4);
      assert [Started, Ended(Report(outcome).status, Report(outcome).error)][0] == Started;
    }
    else if Exhausted(a, max) { ClosesAlone(a, max, now, claiming, outcome, 4); }
    else { RefusedAlone(a, max, now, claiming, outcome, 4); }
  }

  /** A worker call that nobody interferes with, case by case. It holds its claim for 300 seconds, and only an action
      whose lease has run out is taken over. */
  lemma AsyncByCases(before: Option<Action>, max: int, now: nat, worker: string, outcome: Outcome)
    ensures var alone := Alone(before, max, now, Reading(worker), outcome, STEPS);
      match before
      case None => alone.action == None && alone.trail == []
      case Some(a) =>
        var leased := a.(worker := Some(worker), lease := Some(now + 300_000_000));
        if a.status in {COMPLETED, FAILED, SKIPPED_EXEMPT} then alone.action == before && alone.trail == []
        else if a.status == IN_PROGRESS && (a.lease.None? || now <= a.lease.value)
        then alone.action == before && alone.trail == []
        else if a.attempts < max then alone.action == Some(Ran(leased, outcome)) && Executed(alone.trail)
        else if a.status != FAILED_RETRYABLE then alone.action == before && alone.trail == []
        else
          && alone.action == Some(a.(status := FAILED, error := Some("MAX_RETRIES_EXHAUSTED")))
          && !Executed(alone.trail)
  {
    hide Alone, Local;
    FirstRead(before, max, now, worker, outcome);
    if before.Some? && !Terminal(before.value) {
      var a := before.value;
      var claiming := Claiming(a.fingerprint, a, Queue(worker), now);
      if Claimable(a, max, Who(claiming, now), now) {
        RunsAlone(a, max, now, claiming, outcome, 4);
        assert [Started, Ended(Report(outcome).status, Report(outcome).error)][0] == Started;
      }
      else if Exhausted(a, max) { ClosesAlone(a, max, now, claiming, outcome, 4); }
      else { RefusedAlone(a, max, now, claiming, outcome, 4); }
    }
  }
}
