/** What the remediation protocol guarantees over whole runs. */
module ProtocolRuns {
  import opened Wrappers
  import opened StateStore
  import opened Protocol

  // The state after the first `i` events of a run that starts without a record.
  function At(max: int, now: nat, es: seq<Event>, i: nat): State
    requires i <= |es|
  {
    After(Init(max, now), es[..i])
  }

  lemma AtNext(max: int, now: nat, es: seq<Event>, i: nat)
    requires i < |es|
    ensures At(max, now, es, i + 1) == Apply(At(max, now, es, i), es[i])
    ensures Inv(At(max, now, es, i)) && Inv(At(max, now, es, i + 1))
    ensures At(max, now, es, i).max == max
  {
    assert es[..i + 1][..i] == es[..i];
    Reachable(max, now, es[..i]);
    Reachable(max, now, es[..i + 1]);
    KeepsMax(Init(max, now), es[..i]);
  }

  lemma {:induction false} KeepsMax(s: State, es: seq<Event>)
    ensures After(s, es).max == s.max
  {
    if es != [] { KeepsMax(s, es[..|es| - 1]); }
  }

  // Every event changes the record in one of the ways `RecordStep` lists, or not at all.
  lemma ApplyRecordStep(s: State, e: Event)
    ensures Apply(s, e).action == s.action ||
            (e.Advance? && e.c in s.clients && RecordStep(s.clients[e.c], s.max, s.action, Apply(s, e).action))
    ensures Apply(s, e).max == s.max
  {
    if e.Advance? && e.c in s.clients { LocalRecordStep(s, s.clients[e.c], e.fault, e.outcome, e.clock); }
  }

  // ----- Mutual exclusion.

  predicate Holder(s: State, c: nat) {
    c in s.clients && Holds(s.clients[c])
  }

  predicate Overlap(s: State) {
    exists c, d :: c in s.clients && d in s.clients && c != d && Holder(s, c) && Holder(s, d)
  }

  predicate Live(s: State) {
    exists c :: c in s.clients && Holder(s, c)
  }

  // A claim that is granted through the expired-lease branch.
  predicate TakesOver(s: State, e: Event) {
    && e.Advance? && e.c in s.clients && e.fault.Healthy?
    && s.clients[e.c].Claiming?
    && s.action.Some? && s.action.value.status == IN_PROGRESS
    && CanClaim(s.action, s.max, s.clients[e.c].role, Clock(s.clients[e.c].since, s.now, e.clock))
  }

  // The same while the previous claim has not been reported.
  predicate TakesOverLive(s: State, e: Event) {
    TakesOver(s, e) && Live(s)
  }

  predicate Exclusive(s: State) {
    && !Overlap(s)
    && (Live(s) ==> s.action.Some? && s.action.value.status == IN_PROGRESS)
  }

  // A call starts to hold only by a granted claim, and while it holds it keeps its lease and the record as it is.
  lemma HoldingStep(s: State, pc: Pc, fault: Fault, outcome: Outcome, clock: nat)
    ensures var (action, pc') := Local(s.action, s.max, s.now, pc, fault, outcome, clock);
            && (Holds(pc') && !Holds(pc) ==>
                  && pc.Claiming? && fault.Healthy?
                  && var t := Clock(pc.since, s.now, clock);
                     CanClaim(s.action, s.max, pc.role, t)
                     && action == Some(Claimed(s.action.value, ClaimantOf(pc.role, t)))
                     && pc'.who == ClaimantOf(pc.role, t))
            && (Holds(pc') && Holds(pc) ==> pc'.who == pc.who && action == s.action)
  {}

  lemma ExclusiveStep(s: State, e: Event)
    requires Inv(s) && Exclusive(s) && !TakesOverLive(s, e)
    ensures Exclusive(Apply(s, e))
  {
    var t := Apply(s, e);
    if e.Advance? && e.c in s.clients {
      ApplyRecordStep(s, e);
      HoldingStep(s, s.clients[e.c], e.fault, e.outcome, e.clock);
      hide Local, Inv;
      forall c, d | Holder(s, c) && Holder(s, d) ensures c == d && Live(s) {}
      assert Holder(t, e.c) && !Holder(s, e.c) ==> !Live(s);
      forall c | Holder(t, c) && c != e.c ensures Holder(s, c) {}
    } else {
      assert forall c :: Holder(t, c) ==> Holder(s, c);
    }
  }

  lemma TakeoverOverlaps(s: State, e: Event)
    requires TakesOverLive(s, e)
    ensures Overlap(Apply(s, e))
  {
    var c :| c in s.clients && Holder(s, c);
    var t := Apply(s, e);
    assert Holder(t, c) && Holder(t, e.c) && c != e.c;
  }

  lemma {:induction false} ExclusiveUntil(max: int, now: nat, es: seq<Event>, i: nat)
    requires i <= |es| && forall k :: 0 <= k < i ==> !TakesOverLive(At(max, now, es, k), es[k])
    ensures Exclusive(At(max, now, es, i))
  {
    if i > 0 {
      ExclusiveUntil(max, now, es, i - 1);
      AtNext(max, now, es, i - 1);
      ExclusiveStep(At(max, now, es, i - 1), es[i - 1]);
    }
  }

  /** Two calls hold the action at once in a run exactly when some claim of the run takes over a live holder. */
  lemma OverlapExactly(max: int, now: nat, es: seq<Event>)
    ensures (exists i :: 0 <= i <= |es| && Overlap(At(max, now, es, i)))
       <==> (exists k :: 0 <= k < |es| && TakesOverLive(At(max, now, es, k), es[k]))
  {
    if k :| 0 <= k < |es| && TakesOverLive(At(max, now, es, k), es[k]) {
      AtNext(max, now, es, k);
      TakeoverOverlaps(At(max, now, es, k), es[k]);
      assert Overlap(At(max, now, es, k + 1));
    } else {
      forall i | 0 <= i <= |es| ensures !Overlap(At(max, now, es, i)) {
        ExclusiveUntil(max, now, es, i);
      }
    }
  }

  // ----- Web callers alone never overlap, however long they take.

  predicate WebCall(pc: Pc) {
    match pc
    case Reading(_) => false
    case Claiming(_, _, role, _) => role.Web?
    case _ => true
  }

  predicate WebCalls(s: State) {
    forall c :: c in s.clients ==> WebCall(s.clients[c])
  }

  lemma WebStep(s: State, e: Event)
    requires WebCalls(s) && !e.Deliver?
    ensures WebCalls(Apply(s, e)) && !TakesOver(s, e)
  {
    if e.Advance? && e.c in s.clients { assert WebCall(s.clients[e.c]); }
  }

  lemma {:induction false} WebUntil(max: int, now: nat, es: seq<Event>, i: nat)
    requires i <= |es| && forall e :: e in es ==> !e.Deliver?
    ensures WebCalls(At(max, now, es, i))
  {
    hide Apply;
    if i > 0 {
      WebUntil(max, now, es, i - 1);
      AtNext(max, now, es, i - 1);
      assert es[i - 1] in es;
      WebStep(At(max, now, es, i - 1), es[i - 1]);
    }
  }

  /** Without queue workers no two calls ever hold the action together. */
  lemma WebOnlyExclusive(max: int, now: nat, es: seq<Event>, i: nat)
    requires i <= |es| && forall e :: e in es ==> !e.Deliver?
    ensures !Overlap(At(max, now, es, i))
  {
    forall k | 0 <= k < i ensures !TakesOverLive(At(max, now, es, k), es[k]) {
      WebUntil(max, now, es, k);
      WebStep(At(max, now, es, k), es[k]);
    }
    ExclusiveUntil(max, now, es, i);
  }

  // ----- Workers alone never overlap if each reports before its lease ends.

  function WhoHolds(pc: Pc): Claimant
    requires Holds(pc)
  {
    pc.who
  }

  // Every holder is a worker whose lease still runs.
  predicate Timely(s: State) {
    forall c :: c in s.clients && Holder(s, c) ==>
      WhoHolds(s.clients[c]).Worker? && s.now <= WhoHolds(s.clients[c]).until
  }

  // The lease on record is the holder's.
  predicate LeaseHeld(s: State) {
    forall c :: c in s.clients && Holder(s, c) && WhoHolds(s.clients[c]).Worker? ==>
      s.action.Some? && s.action.value.lease == Some(WhoHolds(s.clients[c]).until)
  }

  lemma TimelyStep(s: State, e: Event)
    requires Exclusive(s) && Timely(s) && LeaseHeld(s)
    requires e.Advance? && e.c in s.clients && s.clients[e.c].Claiming? ==> s.clients[e.c].since <= s.now
    ensures !TakesOverLive(s, e) && LeaseHeld(Apply(s, e))
  {
    var t := Apply(s, e);
    if e.Advance? && e.c in s.clients {
      ApplyRecordStep(s, e);
      HoldingStep(s, s.clients[e.c], e.fault, e.outcome, e.clock);
      hide Local;
      if c :| c in s.clients && Holder(s, c) {
        assert s.action.value.lease == Some(WhoHolds(s.clients[c]).until);
        assert s.now <= s.action.value.lease.value;
      }
      forall c, d | Holder(s, c) && Holder(s, d) ensures c == d {}
      forall c | c in t.clients && Holder(t, c) && WhoHolds(t.clients[c]).Worker?
        ensures t.action.Some? && t.action.value.lease == Some(WhoHolds(t.clients[c]).until)
      {
        if c != e.c { assert Holder(s, c); }
      }
    } else {
      assert forall c :: c in t.clients && Holder(t, c) ==> Holder(s, c) && t.clients[c] == s.clients[c];
    }
  }

  lemma {:induction false} TimelyUntil(max: int, now: nat, es: seq<Event>, i: nat)
    requires i <= |es| && forall k :: 0 <= k <= i ==> Timely(At(max, now, es, k))
    ensures Exclusive(At(max, now, es, i)) && LeaseHeld(At(max, now, es, i))
  {
    if i > 0 {
      TimelyUntil(max, now, es, i - 1);
      AtNext(max, now, es, i - 1);
      assert var s, e := At(max, now, es, i - 1), es[i - 1];
             e.Advance? && e.c in s.clients ==> ClientInv(s, e.c);
      hide Apply, Inv;
      TimelyStep(At(max, now, es, i - 1), es[i - 1]);
      ExclusiveStep(At(max, now, es, i - 1), es[i - 1]);
    }
  }

  /** If only workers hold claims, and each holds no longer than its lease, no two ever hold together. */
  lemma TimelyWorkersExclusive(max: int, now: nat, es: seq<Event>)
    requires forall k :: 0 <= k <= |es| ==> Timely(At(max, now, es, k))
    ensures forall i :: 0 <= i <= |es| ==> !Overlap(At(max, now, es, i))
  {
    forall i | 0 <= i <= |es| ensures !Overlap(At(max, now, es, i)) {
      TimelyUntil(max, now, es, i);
    }
  }

  // ----- Attempts.

  /** The mutation runs at most once per counted attempt, and attempts are bounded. */
  lemma MutationsBounded(max: int, now: nat, es: seq<Event>)
    ensures var s := After(Init(max, now), es);
            && (s.action.None? ==> s.mutations == 0)
            && (s.action.Some? ==> s.mutations <= s.action.value.attempts)
            && (s.action.Some? && s.action.value.attempts > 0 ==> s.action.value.attempts <= max)
  {
    var s := After(Init(max, now), es);
    Reachable(max, now, es);
    KeepsMax(Init(max, now), es);
    Subset(s.started, s.claimers);
  }

  function Rank(status: Status): nat {
    match status
    case IN_PROGRESS => 2
    case PENDING => 1
    case FAILED_RETRYABLE => 1
    case _ => 0
  }

  function Limit(max: int): nat {
    if max < 0 then 0 else max
  }

  // Bounds the changes still to come.
  function Measure(s: State): int {
    if s.action.None? then 2 * Limit(s.max) + 1
    else 2 * (Limit(s.max) - s.action.value.attempts) + Rank(s.action.value.status)
  }

  // How often a run changes an existing record.
  function Transitions(s: State, es: seq<Event>): nat {
    if es == [] then 0 else
      var t := After(s, es[..|es| - 1]);
      Transitions(s, es[..|es| - 1]) + (if t.action.Some? && Apply(t, es[|es| - 1]).action != t.action then 1 else 0)
  }

  lemma MeasureStep(s: State, e: Event)
    requires Inv(s)
    ensures s.action.Some? && Apply(s, e).action != s.action ==> Measure(Apply(s, e)) < Measure(s)
    ensures Measure(Apply(s, e)) <= Measure(s)
  {
    ApplyRecordStep(s, e);
    hide Apply;
  }

  lemma {:induction false} TransitionsAndMeasure(max: int, now: nat, es: seq<Event>)
    ensures Transitions(Init(max, now), es) + Measure(After(Init(max, now), es)) <= 2 * Limit(max) + 1
  {
    if es != [] {
      var front := es[..|es| - 1];
      TransitionsAndMeasure(max, now, front);
      Reachable(max, now, front);
      MeasureStep(After(Init(max, now), front), es[|es| - 1]);
    }
  }

  /** No run changes the record more than 2 * max + 1 times after creating it. */
  lemma TransitionsBounded(max: int, now: nat, es: seq<Event>)
    ensures Transitions(Init(max, now), es) <= 2 * Limit(max) + 1
  {
    TransitionsAndMeasure(max, now, es);
    Reachable(max, now, es);
    KeepsMax(Init(max, now), es);
  }

  // ----- Terminal states.

  lemma TerminalStep(s: State, e: Event)
    requires s.action.Some? && Terminal(s.action.value)
    ensures Apply(s, e).action == s.action && Apply(s, e).claimers == s.claimers
  {
    ApplyRecordStep(s, e);
  }

  /** A terminal record never changes again, and no further claim is granted, in whatever state the calls are. */
  lemma {:induction false} TerminalAbsorbs(max: int, now: nat, es: seq<Event>, i: nat, j: nat)
    requires i <= j <= |es|
    requires At(max, now, es, i).action.Some? && Terminal(At(max, now, es, i).action.value)
    ensures At(max, now, es, j).action == At(max, now, es, i).action
    ensures At(max, now, es, j).claimers == At(max, now, es, i).claimers
    decreases j
  {
    hide Apply, Inv;
    if i < j {
      TerminalAbsorbs(max, now, es, i, j - 1);
      AtNext(max, now, es, j - 1);
      TerminalStep(At(max, now, es, j - 1), es[j - 1]);
    }
  }

  // The claim is granted and the mutation comes next.
  predicate AboutToRun(s: State, c: nat) {
    c in s.clients && s.clients[c].Granted?
  }

  predicate NoneAboutToRun(s: State) {
    forall c :: c in s.clients ==> !AboutToRun(s, c)
  }

  // From `s` to `t`, only calls that were about to run the mutation in `s` have run it or still may.
  ghost predicate OnlyGrantedRun(s: State, t: State) {
    && (forall c :: AboutToRun(t, c) ==> AboutToRun(s, c))
    && (forall c :: c in t.started && c !in s.started ==> AboutToRun(s, c))
    && (NoneAboutToRun(s) ==> t.mutations == s.mutations && t.started == s.started)
  }

  lemma RunsNext(s: State, e: Event)
    requires s.action.Some? && Terminal(s.action.value)
    ensures OnlyGrantedRun(s, Apply(s, e))
  {
    if e.Advance? && e.c in s.clients { HoldingStep(s, s.clients[e.c], e.fault, e.outcome, e.clock); }
  }

  lemma OnlyGrantedRunTwice(s: State, t: State, u: State)
    requires OnlyGrantedRun(s, t) && OnlyGrantedRun(t, u)
    ensures OnlyGrantedRun(s, u)
  {
    assert NoneAboutToRun(s) ==> NoneAboutToRun(t);
  }

  lemma {:induction false} OnlyGrantedRunLater(max: int, now: nat, es: seq<Event>, i: nat, j: nat)
    requires i <= j <= |es|
    requires At(max, now, es, i).action.Some? && Terminal(At(max, now, es, i).action.value)
    ensures OnlyGrantedRun(At(max, now, es, i), At(max, now, es, j))
    decreases j
  {
    hide Apply, Inv;
    if i < j {
      OnlyGrantedRunLater(max, now, es, i, j - 1);
      TerminalAbsorbs(max, now, es, i, j - 1);
      AtNext(max, now, es, j - 1);
      RunsNext(At(max, now, es, j - 1), es[j - 1]);
      hide OnlyGrantedRun;
      OnlyGrantedRunTwice(At(max, now, es, i), At(max, now, es, j - 1), At(max, now, es, j));
    }
  }

  /** Once the record is terminal, only a call that was granted its claim before can still run the mutation. */
  lemma NoLateMutation(max: int, now: nat, es: seq<Event>, i: nat, j: nat)
    requires i <= j <= |es|
    requires At(max, now, es, i).action.Some? && Terminal(At(max, now, es, i).action.value)
    ensures var s, t := At(max, now, es, i), At(max, now, es, j);
      && (forall c :: c in t.started && c !in s.started ==> AboutToRun(s, c))
      && (forall c :: c !in s.claimers ==> c !in t.started && c !in t.outcomes)
      && (NoneAboutToRun(s) ==> t.mutations == s.mutations && t.started == s.started)
  {
    OnlyGrantedRunLater(max, now, es, i, j);
    TerminalAbsorbs(max, now, es, i, j);
    Reachable(max, now, es[..j]);
    assert LogInv(At(max, now, es, j));
    hide At, Inv;
  }

  // The next step of a granted call runs the mutation, whatever the record says by then.
  lemma GrantedRuns(s: State, c: nat, fault: Fault, outcome: Outcome, clock: nat)
    requires AboutToRun(s, c)
    ensures Apply(s, Advance(c, fault, outcome, clock)).mutations == s.mutations + 1
  {}

  // No later event starts the mutation.
  ghost predicate NeverRunsAgain(s: State) {
    forall es :: After(s, es).mutations == s.mutations
  }

  // The mutation is still to come or under way, so that its writes may be too.
  predicate MayWrite(s: State, c: nat) {
    c in s.clients && (s.clients[c].Granted? || s.clients[c].Executing?)
  }

  predicate NoneMayWrite(s: State) {
    forall c :: c in s.clients ==> !MayWrite(s, c)
  }

  // No later event starts or ends a mutation.
  ghost predicate NeverWritesAgain(s: State) {
    forall es :: After(s, es).mutations == s.mutations && After(s, es).outcomes == s.outcomes
  }

  lemma {:induction false} NoneRuns(s: State, es: seq<Event>)
    requires s.action.Some? && Terminal(s.action.value) && NoneAboutToRun(s)
    ensures var t := After(s, es); t.mutations == s.mutations && t.action == s.action && NoneAboutToRun(t)
  {
    hide Apply;
    if es != [] {
      var t := After(s, es[..|es| - 1]);
      NoneRuns(s, es[..|es| - 1]);
      TerminalStep(t, es[|es| - 1]);
      RunsNext(t, es[|es| - 1]);
    }
  }

  lemma WritesNext(s: State, e: Event)
    requires s.action.Some? && Terminal(s.action.value) && NoneMayWrite(s)
    ensures var t := Apply(s, e); NoneMayWrite(t) && t.mutations == s.mutations && t.outcomes == s.outcomes
  {
    if e.Advance? && e.c in s.clients { assert !MayWrite(s, e.c); }
  }

  lemma {:induction false} NoneWrites(s: State, es: seq<Event>)
    requires s.action.Some? && Terminal(s.action.value) && NoneMayWrite(s)
    ensures var t := After(s, es);
      && t.action == s.action && NoneMayWrite(t) && t.mutations == s.mutations && t.outcomes == s.outcomes
  {
    hide Apply;
    if es != [] {
      var t := After(s, es[..|es| - 1]);
      NoneWrites(s, es[..|es| - 1]);
      TerminalStep(t, es[|es| - 1]);
      WritesNext(t, es[|es| - 1]);
    }
  }

  lemma WritesOn(s: State, c: nat)
    requires MayWrite(s, c)
    ensures !NeverWritesAgain(s)
  {
    var o := if c in s.outcomes && s.outcomes[c].Succeeded? then Permanent("") else Succeeded;
    var e := Advance(c, Healthy, o, 0);
    assert [e][..0] == [] && After(s, [e]) == Apply(s, e);
  }

  /** A terminal record lets no further mutation start exactly when no call is between its claim and its mutation, and
      ends all writing exactly when no mutation is to come or under way. */
  lemma LateMutationExactly(s: State)
    requires s.action.Some? && Terminal(s.action.value)
    ensures NeverRunsAgain(s) <==> NoneAboutToRun(s)
    ensures NeverWritesAgain(s) <==> NoneMayWrite(s)
  {
    if c :| c in s.clients && AboutToRun(s, c) {
      var e := Advance(c, Healthy, Succeeded, 0);
      GrantedRuns(s, c, Healthy, Succeeded, 0);
      assert [e][..0] == [] && After(s, [e]) == Apply(s, e);
    } else {
      forall es ensures After(s, es).mutations == s.mutations { NoneRuns(s, es); }
    }
    if c :| c in s.clients && MayWrite(s, c) {
      WritesOn(s, c);
    } else {
      forall es ensures After(s, es).mutations == s.mutations && After(s, es).outcomes == s.outcomes {
        NoneWrites(s, es);
      }
    }
  }

  /** In runs where no claim takes over a live holder, a terminal record ends the mutations of all calls, those under
      way included. */
  lemma NoLateMutationWithoutTakeover(max: int, now: nat, es: seq<Event>, i: nat)
    requires i <= |es| && forall k :: 0 <= k < i ==> !TakesOverLive(At(max, now, es, k), es[k])
    requires At(max, now, es, i).action.Some? && Terminal(At(max, now, es, i).action.value)
    ensures NeverRunsAgain(At(max, now, es, i)) && NeverWritesAgain(At(max, now, es, i))
  {
    var s := At(max, now, es, i);
    ExclusiveUntil(max, now, es, i);
    forall c | c in s.clients ensures !AboutToRun(s, c) && !MayWrite(s, c) {
      assert AboutToRun(s, c) || MayWrite(s, c) ==> Holder(s, c);
    }
    LateMutationExactly(s);
  }

  /** So it does in runs without queue workers. */
  lemma WebOnlyNoLateMutation(max: int, now: nat, es: seq<Event>, i: nat)
    requires i <= |es| && forall e :: e in es ==> !e.Deliver?
    requires At(max, now, es, i).action.Some? && Terminal(At(max, now, es, i).action.value)
    ensures NeverRunsAgain(At(max, now, es, i)) && NeverWritesAgain(At(max, now, es, i))
  {
    forall k | 0 <= k < i ensures !TakesOverLive(At(max, now, es, k), es[k]) {
      WebUntil(max, now, es, k);
      WebStep(At(max, now, es, k), es[k]);
    }
    NoLateMutationWithoutTakeover(max, now, es, i);
  }

  /** COMPLETED and FAILED are earned, and exhaustion is audited at most once. */
  lemma OutcomesJustified(max: int, now: nat, es: seq<Event>)
    ensures var s := After(Init(max, now), es);
            && s.audits <= 1
            && (s.action.Some? && s.action.value.status == COMPLETED ==>
                  exists c :: c in s.started && c in s.outcomes && s.outcomes[c].Succeeded?)
            && (s.action.Some? && s.action.value.status == FAILED ==>
                  s.action.value.attempts >= max ||
                  exists c :: c in s.started && c in s.outcomes && s.outcomes[c].Permanent?)
  {
    Reachable(max, now, es);
    KeepsMax(Init(max, now), es);
  }

  // ----- Idempotency.

  /** The record is created once: it never disappears and keeps its fingerprint. */
  lemma {:induction false} OneRecord(max: int, now: nat, es: seq<Event>, i: nat, j: nat)
    requires i <= j <= |es| && At(max, now, es, i).action.Some?
    ensures At(max, now, es, j).action.Some?
    ensures At(max, now, es, j).action.value.fingerprint == At(max, now, es, i).action.value.fingerprint
    decreases j
  {
    if i < j {
      OneRecord(max, now, es, i, j - 1);
      AtNext(max, now, es, j - 1);
      ApplyRecordStep(At(max, now, es, j - 1), es[j - 1]);
    }
  }

  // A web call with another payload: it waits, was refused with 409, met a broken store, or crashed.
  predicate Refusable(s: State, c: nat, payload: string) {
    c in s.clients && c !in s.claimers && c !in s.started && c !in s.closers &&
    match s.clients[c]
    case Creating(fp, _) => fp == payload
    case Resolving(fp) => fp == payload
    case Finished(r) => r in {Mismatch, Broken}
    case Crashed => true
    case _ => false
  }

  lemma MismatchStep(s: State, e: Event, c: nat, payload: string)
    requires s.action.Some? && s.action.value.fingerprint != payload && Refusable(s, c, payload)
    ensures Refusable(Apply(s, e), c, payload)
    ensures e.Advance? && e.c == c ==> Apply(s, e).action == s.action && Apply(s, e).audits == s.audits
    ensures e.Advance? && e.c == c ==> Apply(s, e).mutations == s.mutations
    ensures e.Advance? && e.c == c && e.fault.Healthy? && s.clients[c].Resolving? ==>
              Apply(s, e).clients[c] == Finished(Mismatch)
  {}

  /** A web call whose payload differs from the record's never changes the record nor runs the mutation; with a working
      store it ends in a mismatch. */
  lemma {:induction false} MismatchChangesNothing(max: int, now: nat, es: seq<Event>, i: nat, j: nat, c: nat,
                                                  payload: string)
    requires i <= j <= |es|
    requires At(max, now, es, i).action.Some? && At(max, now, es, i).action.value.fingerprint != payload
    requires c in At(max, now, es, i).clients && At(max, now, es, i).clients[c].Creating?
    requires At(max, now, es, i).clients[c].payload == payload
    ensures Refusable(At(max, now, es, j), c, payload)
    decreases j
  {
    if i == j {
      Reachable(max, now, es[..i]);
      assert ClientInv(At(max, now, es, i), c);
      assert c !in At(max, now, es, i).started;
    } else {
      MismatchChangesNothing(max, now, es, i, j - 1, c, payload);
      OneRecord(max, now, es, i, j - 1);
      AtNext(max, now, es, j - 1);
      MismatchStep(At(max, now, es, j - 1), es[j - 1], c, payload);
    }
  }

  /** Whoever runs the mutation runs it with the payload the record was created for. */
  lemma OnePayload(max: int, now: nat, es: seq<Event>, c: nat)
    requires c in After(Init(max, now), es).clients && After(Init(max, now), es).clients[c].Executing?
    ensures var s := After(Init(max, now), es);
            s.action.Some? && s.clients[c].payload == s.action.value.fingerprint
  {
    Reachable(max, now, es);
    assert ClientInv(After(Init(max, now), es), c);
  }

  // ----- Deleting queue messages.

  predicate Reliable(es: seq<Event>) {
    forall e :: e in es && e.Advance? ==> e.fault.Healthy?
  }

  predicate Deleting(s: State, c: nat) {
    c in s.clients && s.clients[c].Finished? && s.clients[c].result.Deletable?
  }

  predicate DeletesWhenDone(s: State, ownReports: bool) {
    forall c :: c in s.clients && Deleting(s, c) && (s.clients[c].result.via != OwnReport || ownReports) ==>
      s.action.Some? && Terminal(s.action.value)
  }

  lemma DeleteStep(s: State, e: Event, ownReports: bool)
    requires Inv(s) && DeletesWhenDone(s, ownReports) && (ownReports ==> Exclusive(s))
    requires e.Advance? ==> e.fault.Healthy?
    ensures DeletesWhenDone(Apply(s, e), ownReports)
  {
    ApplyRecordStep(s, e);
    if e.Advance? && e.c in s.clients {
      assert ClientInv(s, e.c);
      if ownReports && s.clients[e.c].Reporting? { assert Holder(s, e.c); }
    }
  }

  lemma {:induction false} DeletesUntil(max: int, now: nat, es: seq<Event>, i: nat, ownReports: bool)
    requires i <= |es| && Reliable(es)
    requires ownReports ==> forall k :: 0 <= k < i ==> !TakesOverLive(At(max, now, es, k), es[k])
    ensures DeletesWhenDone(At(max, now, es, i), ownReports)
  {
    if i > 0 {
      DeletesUntil(max, now, es, i - 1, ownReports);
      AtNext(max, now, es, i - 1);
      assert es[i - 1] in es;
      if ownReports { ExclusiveUntil(max, now, es, i - 1); }
      DeleteStep(At(max, now, es, i - 1), es[i - 1], ownReports);
    }
  }

  /** With a working store: a message deleted because the action was found done, or was closed as exhausted, belongs to
      a terminal action under every interleaving; after a worker's own report this holds in runs where no claim takes
      over a live holder. */
  lemma DeletedOnlyWhenDone(max: int, now: nat, es: seq<Event>, c: nat)
    requires Reliable(es) && Deleting(After(Init(max, now), es), c)
    requires After(Init(max, now), es).clients[c].result.via == OwnReport ==>
               forall k :: 0 <= k < |es| ==> !TakesOverLive(At(max, now, es, k), es[k])
    ensures var s := After(Init(max, now), es); s.action.Some? && Terminal(s.action.value)
  {
    assert es[..|es|] == es;
    DeletesUntil(max, now, es, |es|, After(Init(max, now), es).clients[c].result.via == OwnReport);
  }

  predicate Done(s: State) {
    s.action.Some? && Terminal(s.action.value)
  }

  // The step of call `c` deletes its message although the action is left unfinished: a worker's own report of a final
  // outcome that the store drops, or that finds the record waiting for a retry; or a close-out that the store drops.
  predicate DeletesBlindly(s: State, c: nat, fault: Fault)
    requires c in s.clients
  {
    s.action.Some? && !Done(s) &&
    match s.clients[c]
    case Reporting(o, who) =>
      who.Worker? && !o.Retryable? && (fault.Dropped? || s.action.value.status == FAILED_RETRYABLE)
    case Closing(role) => role.Queue? && fault.Dropped?
    case _ => false
  }

  /** In every run, whatever the store does, a step of a call deletes the message of an unfinished action exactly in
      these cases. */
  lemma UnsafeDeletionExactly(max: int, now: nat, es: seq<Event>, c: nat, fault: Fault, outcome: Outcome, clock: nat)
    requires var s := After(Init(max, now), es); c in s.clients && !s.clients[c].Finished?
    ensures var s := After(Init(max, now), es);
            var t := Apply(s, Advance(c, fault, outcome, clock));
            Deleting(t, c) && !Done(t) <==> DeletesBlindly(s, c, fault)
  {
    var s := After(Init(max, now), es);
    Reachable(max, now, es);
    hide After;
    assert ClientInv(s, c);
    ApplyRecordStep(s, Advance(c, fault, outcome, clock));
    assert s.action.None? ==> s.claimers == {} && s.closers == {};
    if s.clients[c].Reporting? { assert c in s.claimers; }
  }

  predicate Keeping(s: State, c: nat) {
    c in s.clients && s.clients[c] == Finished(Kept)
  }

  // The step of call `c` keeps its message: a worker cannot read the action, or was refused the claim to an action that
  // is not finished and has attempts left, or reports a failure to be retried.
  predicate KeepsMessage(s: State, c: nat, fault: Fault)
    requires c in s.clients
  {
    match s.clients[c]
    case Reading(_) => !fault.Healthy? || s.action.None?
    case Refused(_, role) =>
      role.Queue? &&
      (!fault.Healthy? || s.action.None? ||
       !(s.action.value.status in {COMPLETED, FAILED, SKIPPED_EXEMPT} ||
         (s.action.value.status == FAILED_RETRYABLE && s.action.value.attempts >= s.max)))
    case Reporting(o, who) => who.Worker? && o.Retryable?
    case _ => false
  }

  /** In every state, whatever the store does, a step of a call keeps its message exactly in these cases. */
  lemma KeptExactly(s: State, c: nat, fault: Fault, outcome: Outcome, clock: nat)
    requires c in s.clients && !s.clients[c].Finished?
    ensures Keeping(Apply(s, Advance(c, fault, outcome, clock)), c) <==> KeepsMessage(s, c, fault)
  {}

  /** A worker that stalls before its claim may be judged by any time it could have read since: a waiting action with an
      attempt left is claimed, and the lease ends 300 seconds after that time. */
  lemma ClaimedAtReading(s: State, c: nat, t: nat, outcome: Outcome)
    requires c in s.clients && s.clients[c].Claiming? && s.clients[c].role.Queue? && s.clients[c].since <= t <= s.now
    requires s.action.Some? && s.action.value.attempts < s.max
    requires s.action.value.status in {PENDING, FAILED_RETRYABLE} ||
             (s.action.value.status == IN_PROGRESS && s.action.value.lease.Some? && s.action.value.lease.value < t)
    ensures var a := Apply(s, Advance(c, Healthy, outcome, t)).action;
      && a.Some? && a.value.status == IN_PROGRESS && a.value.attempts == s.action.value.attempts + 1
      && a.value.lease == Some(t + 300_000_000) && a.value.worker == Some(s.clients[c].role.worker)
  {}
}
