/** The remediation protocol of one action: web callers and queue workers, each running its calls step by step against
    the shared record, in any order, with crashes and an unreliable store. */
module Protocol {
  import opened Wrappers
  import opened StateStore

  const MICROS: nat := 1_000_000
  const EXHAUSTED := "MAX_RETRIES_EXHAUSTED"

  // What the store does to one request: serve it; apply it but fail to answer; fail before applying it.
  datatype Fault = Healthy | LostReply | Dropped

  // What the tag mutation returns.
  datatype Outcome = Succeeded | Permanent(error: string) | Retryable(error: string)

  datatype Role = Web | Queue(worker: string)

  // Why a queue message may be deleted.
  datatype Via = AlreadyDone | Exhaustion | OwnReport
  datatype Result = Answered | Mismatch | Broken | Kept | Deletable(via: Via)

  // Where a call stands: the name says which step it takes next.
  datatype Pc =
    | Creating(payload: string, exempt: bool)
    | Resolving(payload: string)
    | Reading(worker: string)
    | Claiming(payload: string, seen: Action, role: Role, since: nat)
    | Refused(seen: Action, role: Role)
    | Closing(role: Role)
    | Auditing(role: Role)
    | Granted(payload: string, who: Claimant)
    | Executing(payload: string, who: Claimant)
    | Reporting(outcome: Outcome, who: Claimant)
    | Finished(result: Result)
    | Crashed

  // A holder has been granted the claim and has not reported yet.
  predicate Holds(pc: Pc) {
    pc.Granted? || pc.Executing? || pc.Reporting?
  }

  datatype State = State(
    max: int,
    now: nat,
    action: Option<Action>,
    clients: map<nat, Pc>,
    claimers: set<nat>,            // calls whose claim the store applied
    started: set<nat>,             // calls that entered the tag mutation
    mutations: nat,                // how often it was entered; its writes come between this and its outcome
    outcomes: map<nat, Outcome>,   // what it returned
    closers: set<nat>,             // calls whose exhaustion update the store applied
    audits: nat)                   // exhaustion audit records written

  datatype Event =
    | Tick(elapsed: nat)
    | Request(c: nat, payload: string, exempt: bool)
    | Deliver(c: nat, worker: string)
    | Crash(c: nat)
    | Advance(c: nat, fault: Fault, outcome: Outcome, clock: nat)

  function NewAction(payload: string, exempt: bool): Action {
    Action(payload, if exempt then SKIPPED_EXEMPT else PENDING, 0, None, None, None)
  }

  function Report(o: Outcome): Updates {
    match o
    case Succeeded => Updates(COMPLETED, None)
    case Permanent(e) => Updates(FAILED, Some(e))
    case Retryable(e) => Updates(FAILED_RETRYABLE, Some(e))
  }

  const CLOSE_OUT := Updates(FAILED, Some(EXHAUSTED))

  // The clock reading a client uses: taken at some time since it reached the step.
  function Clock(since: nat, now: nat, choice: nat): nat {
    if since <= choice <= now then choice else now
  }

  function ClaimantOf(role: Role, t: nat): Claimant {
    match role
    case Web => Caller
    case Queue(w) => Worker(w, t + LEASE_SECONDS * MICROS)
  }

  predicate Exhausted(a: Action, max: int) {
    a.status == FAILED_RETRYABLE && a.attempts >= max
  }

  function AfterClose(role: Role): Pc {
    Finished(if role.Web? then Answered else Deletable(Exhaustion))
  }

  function AfterReport(o: Outcome, who: Claimant): Pc {
    Finished(if who.Caller? then Answered else if o.Retryable? then Kept else Deletable(OwnReport))
  }

  // What a client concludes from re-reading the record after a refused claim.
  function AfterRefusal(a: Action, max: int, role: Role): Pc {
    if Exhausted(a, max) then Closing(role)
    else if role.Web? then Finished(Answered)
    else if Terminal(a) then Finished(Deletable(AlreadyDone))
    else Finished(Kept)
  }

  predicate CanClaim(action: Option<Action>, max: int, role: Role, t: nat) {
    action.Some? && Claimable(action.value, max, ClaimantOf(role, t), t)
  }

  predicate CanUpdate(action: Option<Action>, expected: Status, u: Updates) {
    action.Some? && Updatable(action.value, expected, u)
  }

  // One step of one call: the record and the place it leaves behind.
  function Local(action: Option<Action>, max: int, now: nat, pc: Pc, fault: Fault, outcome: Outcome, clock: nat)
    : (Option<Action>, Pc)
  {
    match pc
    case Creating(fp, exempt) =>
      var initial := NewAction(fp, exempt);
      if fault.Dropped? then (action, Finished(Broken))
      else if action.Some? then (action, if fault.Healthy? then Resolving(fp) else Finished(Broken))
      else (Some(initial),
            if fault.LostReply? then Finished(Broken)
            else if exempt then Finished(Answered)
            else Claiming(fp, initial, Web, now))
    case Resolving(fp) =>
      if !fault.Healthy? || action.None? then (action, Finished(Broken))
      else if action.value.fingerprint != fp then (action, Finished(Mismatch))
      else if action.value.status in {PENDING, FAILED_RETRYABLE} then (action, Claiming(fp, action.value, Web, now))
      else (action, Finished(Answered))
    case Reading(w) =>
      if !fault.Healthy? || action.None? then (action, Finished(Kept))
      else if Terminal(action.value) then (action, Finished(Deletable(AlreadyDone)))
      else (action, Claiming(action.value.fingerprint, action.value, Queue(w), now))
    case Claiming(fp, seen, role, since) =>
      var t := Clock(since, now, clock);
      if fault.Dropped? || !CanClaim(action, max, role, t) then (action, Refused(seen, role))
      else (Some(Claimed(action.value, ClaimantOf(role, t))),
            if fault.Healthy? then Granted(fp, ClaimantOf(role, t)) else Refused(seen, role))
    case Refused(seen, role) =>
      if fault.Healthy? && action.Some? then (action, AfterRefusal(action.value, max, role))
      else if role.Web? then (action, AfterRefusal(seen, max, role))
      else (action, Finished(Kept))
    case Closing(role) =>
      if fault.Dropped? || !CanUpdate(action, FAILED_RETRYABLE, CLOSE_OUT) then (action, AfterClose(role))
      else (Some(Updated(action.value, CLOSE_OUT)), if fault.Healthy? then Auditing(role) else AfterClose(role))
    case Auditing(role) => (action, AfterClose(role))
    case Granted(fp, who) => (action, Executing(fp, who))
    case Executing(fp, who) => (action, Reporting(outcome, who))
    case Reporting(o, who) =>
      if fault.Dropped? || !CanUpdate(action, IN_PROGRESS, Report(o)) then (action, AfterReport(o, who))
      else (Some(Updated(action.value, Report(o))), AfterReport(o, who))
    case Finished(_) => (action, pc)
    case Crashed => (action, pc)
  }

  // The bookkeeping of a step of call `c` that leaves `action` and `pc` behind.
  function Step(s: State, c: nat, action: Option<Action>, pc: Pc, outcome: Outcome): State
    requires c in s.clients
  {
    var was := s.clients[c];
    s.(action := action,
       clients := s.clients[c := pc],
       claimers := if was.Claiming? && action != s.action then s.claimers + {c} else s.claimers,
       started := if was.Granted? then s.started + {c} else s.started,
       mutations := if was.Granted? then s.mutations + 1 else s.mutations,
       outcomes := if was.Executing? then s.outcomes[c := outcome] else s.outcomes,
       closers := if was.Closing? && action != s.action then s.closers + {c} else s.closers,
       audits := if was.Auditing? then s.audits + 1 else s.audits)
  }

  function Move(s: State, c: nat, fault: Fault, outcome: Outcome, clock: nat): State
    requires c in s.clients
  {
    var (action, pc) := Local(s.action, s.max, s.now, s.clients[c], fault, outcome, clock);
    Step(s, c, action, pc, outcome)
  }

  function Apply(s: State, e: Event): State {
    match e
    case Tick(elapsed) => s.(now := s.now + elapsed)
    case Request(c, fp, exempt) => if c in s.clients then s else s.(clients := s.clients[c := Creating(fp, exempt)])
    case Deliver(c, w) => if c in s.clients then s else s.(clients := s.clients[c := Reading(w)])
    case Crash(c) => if c in s.clients && !s.clients[c].Finished? then s.(clients := s.clients[c := Crashed]) else s
    case Advance(c, fault, outcome, clock) => if c in s.clients then Move(s, c, fault, outcome, clock) else s
  }

  function Init(max: int, now: nat): State {
    State(max, now, None, map[], {}, {}, 0, map[], {}, 0)
  }

  // The state a run reaches. A run is any sequence of events; an event that is not possible changes nothing.
  function After(s: State, es: seq<Event>): State {
    if es == [] then s else Apply(After(s, es[..|es| - 1]), es[|es| - 1])
  }

  // ----- What holds in every reachable state.

  predicate Fits(s: State, payload: string) {
    s.action.Some? && s.action.value.fingerprint == payload
  }

  // No attempt is left and none is under way.
  predicate Spent(s: State) {
    s.action.Some? && s.action.value.attempts >= s.max && (Exhausted(s.action.value, s.max) || Terminal(s.action.value))
  }

  predicate NotAhead(s: State, seen: Action) {
    s.action.Some? && (Exhausted(seen, s.max) ==> Spent(s))
  }

  predicate ClientInv(s: State, c: nat)
    requires c in s.clients
  {
    match s.clients[c]
    case Creating(_, _) => c !in s.claimers && c !in s.closers
    case Resolving(_) => c !in s.claimers && c !in s.closers
    case Reading(_) => c !in s.claimers && c !in s.closers
    case Claiming(fp, seen, _, since) =>
      c !in s.claimers && c !in s.closers && Fits(s, fp) && NotAhead(s, seen) && since <= s.now
    case Refused(seen, _) => c !in s.started && c !in s.closers && NotAhead(s, seen)
    case Closing(_) => c !in s.started && c !in s.closers && Spent(s)
    case Auditing(_) => c in s.closers && s.audits == 0
    case Granted(fp, _) => c in s.claimers && c !in s.started && c !in s.closers && Fits(s, fp)
    case Executing(fp, _) => c in s.started && c !in s.outcomes && c !in s.closers && Fits(s, fp)
    case Reporting(o, _) => c in s.outcomes && s.outcomes[c] == o && c !in s.closers
    case Finished(_) => true
    case Crashed => true
  }

  predicate RecordInv(s: State) {
    if s.action.None? then s.claimers == {} && s.closers == {}
    else
      var a := s.action.value;
      && a.attempts == |s.claimers|
      && (a.attempts == 0 || a.attempts <= s.max)
      && (a.status in {PENDING, SKIPPED_EXEMPT} ==> a.attempts == 0)
      && (a.status == COMPLETED ==> exists c :: c in s.outcomes && s.outcomes[c].Succeeded?)
      && (a.status == FAILED ==> a.attempts >= s.max || exists c :: c in s.outcomes && s.outcomes[c].Permanent?)
      && (s.closers != {} ==> a.status == FAILED)
  }

  predicate LogInv(s: State) {
    && s.claimers <= s.clients.Keys
    && s.closers <= s.clients.Keys
    && s.started <= s.claimers
    && s.outcomes.Keys <= s.started
    && s.mutations == |s.started|
    && |s.closers| <= 1
    && s.audits <= |s.closers|
  }

  predicate Inv(s: State) {
    RecordInv(s) && LogInv(s) && forall c :: c in s.clients ==> ClientInv(s, c)
  }

  // The only ways a step changes the record, and which calls change it.
  predicate RecordStep(pc: Pc, max: int, before: Option<Action>, after: Option<Action>) {
    || after == before
    || (pc.Creating? && before.None? && after == Some(NewAction(pc.payload, pc.exempt)))
    || (before.Some? && after.Some? && after.value.fingerprint == before.value.fingerprint &&
        var a, b := before.value, after.value;
        || (pc.Claiming? && a.attempts < max && !Terminal(a) && b.status == IN_PROGRESS && b.attempts == a.attempts + 1)
        || (pc.Closing? && a.status == FAILED_RETRYABLE && b == Updated(a, CLOSE_OUT))
        || (pc.Reporting? && a.status == IN_PROGRESS && b == Updated(a, Report(pc.outcome))))
  }

  lemma LocalRecordStep(s: State, pc: Pc, fault: Fault, outcome: Outcome, clock: nat)
    ensures RecordStep(pc, s.max, s.action, Local(s.action, s.max, s.now, pc, fault, outcome, clock).0)
  {}

  lemma StepKeepsRecord(s: State, c: nat, after: Option<Action>, pc: Pc, outcome: Outcome)
    requires Inv(s) && c in s.clients && RecordStep(s.clients[c], s.max, s.action, after)
    ensures RecordInv(Step(s, c, after, pc, outcome))
  {
    var t := Step(s, c, after, pc, outcome);
    assert ClientInv(s, c);
    if after.Some? {
      forall d | d in s.outcomes ensures d in t.outcomes && t.outcomes[d] == s.outcomes[d] {}
      if s.clients[c].Reporting? { assert s.outcomes[c] == s.clients[c].outcome; }
    }
  }

  lemma StepKeepsLogs(s: State, c: nat, after: Option<Action>, pc: Pc, outcome: Outcome)
    requires Inv(s) && c in s.clients && RecordStep(s.clients[c], s.max, s.action, after)
    ensures LogInv(Step(s, c, after, pc, outcome))
  {
    assert ClientInv(s, c);
  }

  lemma StepKeepsOthers(s: State, c: nat, after: Option<Action>, pc: Pc, outcome: Outcome, d: nat)
    requires Inv(s) && c in s.clients && RecordStep(s.clients[c], s.max, s.action, after)
    requires d in s.clients && d != c
    ensures ClientInv(Step(s, c, after, pc, outcome), d)
  {
    assert ClientInv(s, c) && ClientInv(s, d);
    if s.clients[c].Auditing? && s.clients[d].Auditing? {
      assert {c, d} <= s.closers;
      Subset({c, d}, s.closers);
    }
  }

  lemma Subset<T>(a: set<T>, b: set<T>)
    requires a <= b
    ensures |a| <= |b|
  {
    assert b == a + (b - a);
  }

  lemma ReadersKeepOwn(s: State, c: nat, fault: Fault, outcome: Outcome, clock: nat)
    requires Inv(s) && c in s.clients
    requires var pc := s.clients[c]; pc.Creating? || pc.Resolving? || pc.Reading? || pc.Refused?
    ensures ClientInv(Move(s, c, fault, outcome, clock), c)
  {
    assert ClientInv(s, c);
  }

  lemma WritersKeepOwn(s: State, c: nat, fault: Fault, outcome: Outcome, clock: nat)
    requires Inv(s) && c in s.clients
    requires var pc := s.clients[c]; pc.Claiming? || pc.Closing?
    ensures ClientInv(Move(s, c, fault, outcome, clock), c)
  {
    assert ClientInv(s, c);
  }

  lemma HoldersKeepOwn(s: State, c: nat, fault: Fault, outcome: Outcome, clock: nat)
    requires Inv(s) && c in s.clients
    requires var pc := s.clients[c]; Holds(pc) || pc.Auditing? || pc.Finished? || pc.Crashed?
    ensures ClientInv(Move(s, c, fault, outcome, clock), c)
  {
    assert ClientInv(s, c);
  }

  lemma MoveKeepsOwn(s: State, c: nat, fault: Fault, outcome: Outcome, clock: nat)
    requires Inv(s) && c in s.clients
    ensures ClientInv(Move(s, c, fault, outcome, clock), c)
  {
    hide Local, Inv, ClientInv;
    var pc := s.clients[c];
    if pc.Creating? || pc.Resolving? || pc.Reading? || pc.Refused? { ReadersKeepOwn(s, c, fault, outcome, clock); }
    else if pc.Claiming? || pc.Closing? { WritersKeepOwn(s, c, fault, outcome, clock); }
    else { HoldersKeepOwn(s, c, fault, outcome, clock); }
  }

  lemma MoveKeepsInv(s: State, c: nat, fault: Fault, outcome: Outcome, clock: nat)
    requires Inv(s) && c in s.clients
    ensures Inv(Move(s, c, fault, outcome, clock))
  {
    var (after, pc) := Local(s.action, s.max, s.now, s.clients[c], fault, outcome, clock);
    LocalRecordStep(s, s.clients[c], fault, outcome, clock);
    StepKeepsRecord(s, c, after, pc, outcome);
    StepKeepsLogs(s, c, after, pc, outcome);
    MoveKeepsOwn(s, c, fault, outcome, clock);
    hide Local, RecordInv, LogInv, ClientInv;
    var t := Move(s, c, fault, outcome, clock);
    forall d | d in t.clients ensures ClientInv(t, d) {
      if d != c { StepKeepsOthers(s, c, after, pc, outcome, d); }
    }
  }

  lemma OtherEventsKeepClient(s: State, e: Event, d: nat)
    requires Inv(s) && !e.Advance? && d in Apply(s, e).clients
    ensures ClientInv(Apply(s, e), d)
  {
    assert d in s.clients ==> ClientInv(s, d);
  }

  lemma OtherEventsKeepInv(s: State, e: Event)
    requires Inv(s) && !e.Advance?
    ensures Inv(Apply(s, e))
  {
    forall d | d in Apply(s, e).clients ensures ClientInv(Apply(s, e), d) { OtherEventsKeepClient(s, e, d); }
  }

  lemma InvStep(s: State, e: Event)
    requires Inv(s)
    ensures Inv(Apply(s, e))
  {
    hide Inv, Move;
    if e.Advance? {
      if e.c in s.clients { MoveKeepsInv(s, e.c, e.fault, e.outcome, e.clock); }
    } else {
      OtherEventsKeepInv(s, e);
    }
  }

  /** The invariant holds in every state of every run. */
  lemma {:induction false} Reachable(max: int, now: nat, es: seq<Event>)
    ensures Inv(After(Init(max, now), es))
  {
    hide Apply;
    if es != [] {
      Reachable(max, now, es[..|es| - 1]);
      InvStep(After(Init(max, now), es[..|es| - 1]), es[|es| - 1]);
    }
  }
}
