/** Protected tags of one resource: live values, their baseline, and the change events still to be handled. */
module Drift {
  import opened Wrappers
  import opened TagStore

  datatype Mode = Off | Detect | Revert

  // A change event: the keys that changed, and all tags right after the change.
  datatype TagEvent = TagEvent(changed: set<string>, tags: TagMap)

  // ----- Judging one event.

  function DriftKeys(base: TagMap, protected: set<string>, e: TagEvent): set<string> {
    set k | k in e.changed && k in protected && k in base && Get(e.tags, k) != Some(base[k])
  }

  // Protected keys seen for the first time.
  function Learned(base: TagMap, protected: set<string>, e: TagEvent): TagMap {
    map k | k in e.changed && k in protected && k !in base && k in e.tags :: e.tags[k]
  }

  function Expected(base: TagMap, drift: set<string>): TagMap {
    map k | k in drift && k in base :: base[k]
  }

  function Accepted(base: TagMap, drift: set<string>, tags: TagMap): TagMap {
    base - drift + map k | k in drift && k in tags :: tags[k]
  }

  function Seeded(base: TagMap, protected: set<string>, tags: TagMap): TagMap {
    base + map k | k in tags && k in protected && k !in base :: tags[k]
  }

  // ----- The machine. Events arrive in order and none is lost.

  datatype State = State(live: TagMap, base: TagMap, queue: seq<TagEvent>)

  datatype Step =
    | External(payload: Payload)
    | AppWrite(payload: Payload)
    | Scan
    | Handle(exempt: bool, ok: bool)

  datatype Env = Env(mode: Mode, protected: set<string>)

  function Diff(a: TagMap, b: TagMap): set<string> {
    set k | k in a.Keys + b.Keys && Get(a, k) != Get(b, k)
  }

  // The tags become `live`; an event tells of the keys that really changed.
  function Emit(s: State, live: TagMap): State {
    if Diff(s.live, live) == {} then s.(live := live)
    else State(live, s.base, s.queue + [TagEvent(Diff(s.live, live), live)])
  }

  predicate Reverts(env: Env, s: State, step: Step) {
    && step.Handle? && s.queue != [] && env.mode == Revert && !step.exempt && step.ok
    && DriftKeys(s.base, env.protected, s.queue[0]) != {}
  }

  function HandleHead(env: Env, s: State, exempt: bool, ok: bool): State
    requires s.queue != []
  {
    var e, t := s.queue[0], s.(queue := s.queue[1..]);
    if env.mode == Off then t
    else
      var drift := DriftKeys(s.base, env.protected, e);
      var learnt := t.(base := s.base + Learned(s.base, env.protected, e));
      if drift == {} then learnt
      else if exempt then learnt.(base := Accepted(learnt.base, drift, e.tags))
      else if env.mode == Revert && ok then Emit(learnt, Written(s.live, Tag(Expected(s.base, drift))))
      else learnt
  }

  function Next(env: Env, s: State, step: Step): State {
    match step
    case External(p) => Emit(s, Written(s.live, p))
    case AppWrite(p) => Emit(s.(base := Recorded(s.base, p, env.protected)), Written(s.live, p))
    case Scan => if env.mode == Off then s else s.(base := Seeded(s.base, env.protected, s.live))
    case Handle(exempt, ok) => if s.queue == [] then s else HandleHead(env, s, exempt, ok)
  }

  function Exec(env: Env, s: State, steps: seq<Step>): State {
    if steps == [] then s else Next(env, Exec(env, s, steps[..|steps| - 1]), steps[|steps| - 1])
  }

  function RevertCount(env: Env, s: State, steps: seq<Step>): nat {
    if steps == [] then 0
    else
      RevertCount(env, s, steps[..|steps| - 1]) +
      if Reverts(env, Exec(env, s, steps[..|steps| - 1]), steps[|steps| - 1]) then 1 else 0
  }

  function ExternalCount(steps: seq<Step>): nat {
    if steps == [] then 0 else ExternalCount(steps[..|steps| - 1]) + if steps[|steps| - 1].External? then 1 else 0
  }

  // ----- In step: every baselined key has its baseline value, or an event about it is still to come.

  // What the last pending event about `k` saw.
  function Pending(queue: seq<TagEvent>, k: string): Option<Option<string>> {
    if queue == [] then None
    else if Pending(queue[1..], k).Some? then Pending(queue[1..], k)
    else if k in queue[0].changed then Some(Get(queue[0].tags, k))
    else None
  }

  lemma {:induction false} PendingNext(queue: seq<TagEvent>, e: TagEvent, k: string)
    ensures Pending(queue + [e], k) == if k in e.changed then Some(Get(e.tags, k)) else Pending(queue, k)
  {
    if queue != [] {
      assert (queue + [e])[1..] == queue[1..] + [e];
      PendingNext(queue[1..], e, k);
    } else {
      assert (queue + [e])[1..] == [];
    }
  }

  predicate InStepAt(env: Env, s: State, k: string) {
    match Pending(s.queue, k)
    case Some(seen) => seen == Get(s.live, k)
    case None => k in env.protected && k in s.base ==> Get(s.live, k) == Some(s.base[k])
  }

  ghost predicate InStep(env: Env, s: State) {
    forall k :: InStepAt(env, s, k)
  }

  // Reverts are on and succeed.
  predicate Working(env: Env, step: Step) {
    env.mode == Revert && (step.Handle? ==> step.ok)
  }

  lemma EmitPending(s: State, live: TagMap, k: string)
    ensures Pending(Emit(s, live).queue, k) ==
            if Get(s.live, k) != Get(live, k) then Some(Get(live, k)) else Pending(s.queue, k)
  {
    if Diff(s.live, live) != {} { PendingNext(s.queue, TagEvent(Diff(s.live, live), live), k); }
    assert Get(s.live, k) != Get(live, k) <==> k in Diff(s.live, live);
  }

  lemma HandleStaysInStep(env: Env, s: State, exempt: bool, k: string)
    requires InStepAt(env, s, k) && env.mode == Revert && s.queue != []
    ensures InStepAt(env, HandleHead(env, s, exempt, true), k)
  {
    hide Written;
    var e := s.queue[0];
    var drift := DriftKeys(s.base, env.protected, e);
    var t := s.(queue := s.queue[1..], base := s.base + Learned(s.base, env.protected, e));
    var live := Written(s.live, Tag(Expected(s.base, drift)));
    EmitPending(t, live, k);
    RevertedKey(s.live, s.base, drift, k);
    HandledBase(s.base, env.protected, e, k);
  }

  lemma RevertedKey(live: TagMap, base: TagMap, drift: set<string>, k: string)
    ensures Get(Written(live, Tag(Expected(base, drift))), k) ==
            if k in drift && k in base then Some(base[k]) else Get(live, k)
  {}

  lemma HandledBase(base: TagMap, protected: set<string>, e: TagEvent, k: string)
    ensures var drift, learnt := DriftKeys(base, protected, e), base + Learned(base, protected, e);
      && (k in base ==> Get(learnt, k) == Some(base[k]))
      && (k !in base ==> Get(learnt, k) == if k in e.changed && k in protected then Get(e.tags, k) else None)
      && Get(Accepted(learnt, drift, e.tags), k) == if k in drift then Get(e.tags, k) else Get(learnt, k)
  {}

  lemma StepStaysInStep(env: Env, s: State, step: Step, k: string)
    requires InStepAt(env, s, k) && Working(env, step)
    ensures InStepAt(env, Next(env, s, step), k)
  {
    hide HandleHead;
    match step {
      case External(p) => EmitPending(s, Written(s.live, p), k);
      case AppWrite(p) => EmitPending(s.(base := Recorded(s.base, p, env.protected)), Written(s.live, p), k);
      case Scan =>
      case Handle(exempt, ok) =>
        if s.queue != [] { HandleStaysInStep(env, s, exempt, k); }
    }
  }

  /** In revert mode with successful reverts, over any run of outside changes, writes of the app, scans and handled
      events: once no event is left, every baselined key of a protected tag has its baseline value. */
  lemma {:induction false} HandledEventsLeaveBaselineValues(env: Env, s: State, steps: seq<Step>)
    requires InStep(env, s) && forall i :: 0 <= i < |steps| ==> Working(env, steps[i])
    ensures InStep(env, Exec(env, s, steps))
    ensures var t := Exec(env, s, steps);
      t.queue == [] ==> forall k :: k in t.base && k in env.protected ==> Get(t.live, k) == Some(t.base[k])
  {
    if steps != [] {
      var t, step := Exec(env, s, steps[..|steps| - 1]), steps[|steps| - 1];
      HandledEventsLeaveBaselineValues(env, s, steps[..|steps| - 1]);
      forall k ensures InStepAt(env, Next(env, t, step), k) { StepStaysInStep(env, t, step, k); }
    }
    var t := Exec(env, s, steps);
    forall k | t.queue == [] && k in t.base && k in env.protected ensures Get(t.live, k) == Some(t.base[k]) {
      assert InStepAt(env, t, k);
    }
  }

  // ----- How often there can be a revert.

  // Judged against `base`, the event tells of nothing but baseline values.
  predicate Settled(env: Env, base: TagMap, e: TagEvent) {
    forall k :: k in e.changed && k in env.protected ==> k in base && Get(e.tags, k) == Some(base[k])
  }

  function Unsettled(env: Env, base: TagMap, queue: seq<TagEvent>): nat {
    if queue == [] then 0
    else (if Settled(env, base, queue[0]) then 0 else 1) + Unsettled(env, base, queue[1..])
  }

  lemma {:induction false} UnsettledNext(env: Env, base: TagMap, queue: seq<TagEvent>, e: TagEvent)
    ensures Unsettled(env, base, queue + [e]) == Unsettled(env, base, queue) + if Settled(env, base, e) then 0 else 1
    ensures Unsettled(env, base, queue) <= |queue|
  {
    if queue != [] {
      assert (queue + [e])[1..] == queue[1..] + [e];
      UnsettledNext(env, base, queue[1..], e);
    } else {
      assert (queue + [e])[1..] == [];
    }
  }

  lemma {:induction false} SettledStays(env: Env, base: TagMap, base': TagMap, queue: seq<TagEvent>)
    requires forall e :: e in queue && Settled(env, base, e) ==> Settled(env, base', e)
    ensures Unsettled(env, base', queue) <= Unsettled(env, base, queue)
  {
    if queue != [] { SettledStays(env, base, base', queue[1..]); }
  }

  predicate Extends(base: TagMap, base': TagMap) {
    forall k :: k in base ==> k in base' && base'[k] == base[k]
  }

  lemma SettledSurvives(env: Env, base: TagMap, base': TagMap, queue: seq<TagEvent>)
    requires Extends(base, base')
    ensures Unsettled(env, base', queue) <= Unsettled(env, base, queue)
  {
    SettledStays(env, base, base', queue);
  }

  lemma EmitCounts(env: Env, s: State, live: TagMap)
    ensures var t := Emit(s, live);
      && t.live == live && t.base == s.base
      && Unsettled(env, s.base, t.queue) <= Unsettled(env, s.base, s.queue) + 1
      && |s.queue| <= |t.queue| <= |s.queue| + 1
      && (Settled(env, s.base, TagEvent(Diff(s.live, live), live)) ==>
            Unsettled(env, s.base, t.queue) == Unsettled(env, s.base, s.queue))
  {
    UnsettledNext(env, s.base, s.queue, TagEvent(Diff(s.live, live), live));
  }

  // The event of a revert tells of nothing but baseline values.
  lemma RevertIsSettled(env: Env, live: TagMap, base: TagMap, base': TagMap, drift: set<string>)
    requires Extends(base, base') && forall k :: k in drift ==> k in base
    ensures var back := Written(live, Tag(Expected(base, drift))); Settled(env, base', TagEvent(Diff(live, back), back))
  {
    hide Written, Expected;
    var back := Written(live, Tag(Expected(base, drift)));
    forall x ensures Get(back, x) == if x in drift && x in base then Some(base[x]) else Get(live, x) {
      RevertedKey(live, base, drift, x);
    }
  }

  lemma LearningExtends(env: Env, base: TagMap, e: TagEvent)
    ensures Extends(base, base + Learned(base, env.protected, e))
    ensures DriftKeys(base, env.protected, e) != {} ==> !Settled(env, base, e)
  {}

  // Handling an event that no exemption covers: the baseline only grows, and only an unsettled event is reverted.
  lemma HandleCounts(env: Env, s: State, ok: bool)
    requires s.queue != []
    ensures var t, reverts := HandleHead(env, s, false, ok), Reverts(env, s, Handle(false, ok));
      && Extends(s.base, t.base)
      && Unsettled(env, t.base, t.queue) + (if reverts then 1 else 0) <= Unsettled(env, s.base, s.queue)
      && |t.queue| + Unsettled(env, t.base, t.queue) < |s.queue| + Unsettled(env, s.base, s.queue)
      && (!reverts ==> t.queue == s.queue[1..])
  {
    var e, rest := s.queue[0], s.queue[1..];
    var drift := DriftKeys(s.base, env.protected, e);
    var base := s.base + Learned(s.base, env.protected, e);
    LearningExtends(env, s.base, e);
    assert forall k :: k in drift ==> k in s.base;
    hide DriftKeys, Learned, Settled, Written, Expected, Emit;
    SettledSurvives(env, s.base, base, rest);
    RevertIsSettled(env, s.live, s.base, base, drift);
    EmitCounts(env, State(s.live, base, rest), Written(s.live, Tag(Expected(s.base, drift))));
    assert s.(queue := rest).(base := base) == State(s.live, base, rest);
  }

  // The app sets tags, and no protected key to what a pending event contradicts.
  predicate Compatible(env: Env, s: State, p: Payload) {
    p.Tag? &&
    forall e, k :: e in s.queue && k in e.changed && k in p.tags && k in env.protected ==>
        Get(e.tags, k) == Some(p.tags[k])
  }

  ghost predicate Fair(env: Env, s: State, steps: seq<Step>) {
    steps != [] ==>
      && Fair(env, s, steps[..|steps| - 1])
      && match steps[|steps| - 1]
         case AppWrite(p) => Compatible(env, Exec(env, s, steps[..|steps| - 1]), p)
         case Handle(exempt, _) => !exempt
         case _ => true
  }

  lemma AppWriteCounts(env: Env, s: State, p: Payload)
    requires Compatible(env, s, p)
    ensures var t := Next(env, s, AppWrite(p)); Unsettled(env, t.base, t.queue) <= Unsettled(env, s.base, s.queue)
  {
    var base, live := Recorded(s.base, p, env.protected), Written(s.live, p);
    SettledStays(env, s.base, base, s.queue);
    EmitCounts(env, s.(base := base), live);
    assert Settled(env, base, TagEvent(Diff(s.live, live), live));
  }

  /** No loop: without exemptions, when the app removes nothing and sets no key to what a pending event contradicts,
      there are no more reverts than outside changes, those still pending at the start included. */
  lemma {:induction false} RevertsWithoutRemovals(env: Env, s: State, steps: seq<Step>)
    requires Fair(env, s, steps)
    ensures var t := Exec(env, s, steps);
      RevertCount(env, s, steps) + Unsettled(env, t.base, t.queue) <=
      ExternalCount(steps) + Unsettled(env, s.base, s.queue)
  {
    if steps != [] {
      var front, step := steps[..|steps| - 1], steps[|steps| - 1];
      var t := Exec(env, s, front);
      RevertsWithoutRemovals(env, s, front);
      hide Unsettled, HandleHead, Emit, Compatible;
      match step {
        case External(p) => EmitCounts(env, t, Written(t.live, p));
        case AppWrite(p) => AppWriteCounts(env, t, p);
        case Scan => SettledStays(env, t.base, Seeded(t.base, env.protected, t.live), t.queue);
        case Handle(_, ok) => if t.queue != [] { HandleCounts(env, t, ok); }
      }
    }
  }

  // ----- Handling everything that is left.

  function Handles(n: nat): seq<Step> {
    seq(n, _ => Handle(false, true))
  }

  lemma HandlesNext(env: Env, s: State, n: nat)
    ensures var t, step := Exec(env, s, Handles(n)), Handle(false, true);
      && Handles(n + 1)[..n] == Handles(n) && |Handles(n + 1)| == n + 1 && Handles(n + 1)[n] == step
      && Exec(env, s, Handles(n + 1)) == (if t.queue == [] then t else HandleHead(env, t, false, true))
      && RevertCount(env, s, Handles(n + 1)) == RevertCount(env, s, Handles(n)) + if Reverts(env, t, step) then 1 else 0
  {
    hide HandleHead, Reverts;
    assert Handles(n + 1)[..n] == Handles(n);
  }

  // What is left to do: the pending events, and a revert for each that is unsettled.
  function Work(env: Env, s: State): nat {
    |s.queue| + Unsettled(env, s.base, s.queue)
  }

  lemma {:induction false} HandlesWorkOff(env: Env, s: State, n: nat)
    requires env.mode == Revert
    ensures var t := Exec(env, s, Handles(n)); t.queue == [] || Work(env, t) + n <= Work(env, s)
  {
    if n > 0 {
      HandlesNext(env, s, n - 1);
      HandlesWorkOff(env, s, n - 1);
      hide Unsettled, HandleHead, Handles, Exec, Reverts, Extends;
      var t := Exec(env, s, Handles(n - 1));
      if t.queue != [] { HandleCounts(env, t, true); }
    }
  }

  lemma {:induction false} HandlesAreFair(env: Env, s: State, n: nat)
    ensures Fair(env, s, Handles(n)) && ExternalCount(Handles(n)) == 0
  {
    if n > 0 {
      HandlesNext(env, s, n - 1);
      hide Handles, Exec;
      HandlesAreFair(env, s, n - 1);
    }
  }

  /** Two handled events for each pending one are enough to empty the queue, with at most one revert for each, and then
      the live tags agree with the baseline. */
  lemma PendingEventsDrain(env: Env, s: State)
    requires env.mode == Revert && InStep(env, s)
    ensures var t := Exec(env, s, Handles(2 * |s.queue|));
      && t.queue == []
      && (forall k :: k in t.base && k in env.protected ==> Get(t.live, k) == Some(t.base[k]))
      && RevertCount(env, s, Handles(2 * |s.queue|)) <= |s.queue|
  {
    var n := 2 * |s.queue|;
    HandlesWorkOff(env, s, n);
    HandlesAreFair(env, s, n);
    UnsettledNext(env, s.base, s.queue, TagEvent({}, map[]));
    HandledEventsLeaveBaselineValues(env, s, Handles(n));
    RevertsWithoutRemovals(env, s, Handles(n));
  }

  /** Handling a change and then the event of its own revert: the second is no drift and changes nothing. */
  lemma EchoIsAFixpoint(env: Env, s: State, e: TagEvent, ok: bool)
    requires env.mode == Revert && s.queue == [e]
    ensures var t := Next(env, s, Handle(false, ok));
      t.queue != [] ==>
        && DriftKeys(t.base, env.protected, t.queue[0]) == {}
        && Next(env, t, Handle(false, ok)) == t.(queue := [])
  {
    var t := Next(env, s, Handle(false, ok));
    HandleCounts(env, s, ok);
    if t.queue != [] { SettledIsQuiet(env, t.base, t.queue[0]); }
  }

  lemma SettledIsQuiet(env: Env, base: TagMap, e: TagEvent)
    requires Settled(env, base, e)
    ensures DriftKeys(base, env.protected, e) == {} && base + Learned(base, env.protected, e) == base
  {}

  /** The event of the app's own write, when it is the only one pending, is no drift and teaches nothing. */
  lemma OwnWriteIsQuiet(env: Env, s: State, p: Payload, exempt: bool, ok: bool)
    requires s.queue == []
    ensures var t := Next(env, s, AppWrite(p)); Next(env, t, Handle(exempt, ok)) == t.(queue := [])
  {
    var t := Next(env, s, AppWrite(p));
    if t.queue != [] {
      var e := t.queue[0];
      forall k | k in e.changed && k in env.protected ensures Get(t.base, k) == Get(e.tags, k) {
        assert k in Keys(p);
      }
      assert DriftKeys(t.base, env.protected, e) == {};
      assert t.base + Learned(t.base, env.protected, e) == t.base;
    }
  }

  // ----- When the app's own write leads to a revert.

  lemma ExtendsTwice(a: TagMap, b: TagMap, c: TagMap)
    requires Extends(a, b) && Extends(b, c)
    ensures Extends(a, c)
  {}

  lemma {:induction false} QuietSoFar(env: Env, s: State, n: nat)
    requires env.mode == Revert && n <= |s.queue| && RevertCount(env, s, Handles(n)) == 0
    ensures var t := Exec(env, s, Handles(n)); t.queue == s.queue[n..] && Extends(s.base, t.base)
  {
    if n > 0 {
      HandlesNext(env, s, n - 1);
      hide RevertCount, Exec, Handles, HandleHead, Unsettled, Reverts, Extends;
      QuietSoFar(env, s, n - 1);
      var u := Exec(env, s, Handles(n - 1));
      assert s.queue[n - 1..][1..] == s.queue[n..];
      HandleCounts(env, u, true);
      ExtendsTwice(s.base, u.base, HandleHead(env, u, false, true).base);
    }
  }

  lemma {:induction false} CountGrows(env: Env, s: State, n: nat, m: nat)
    requires n <= m
    ensures RevertCount(env, s, Handles(n)) <= RevertCount(env, s, Handles(m))
  {
    if n < m {
      HandlesNext(env, s, m - 1);
      hide RevertCount, Exec, Handles, HandleHead, Reverts;
      CountGrows(env, s, n, m - 1);
    }
  }

  lemma DriftIsReverted(env: Env, s: State, j: nat, k: string)
    requires env.mode == Revert && j < |s.queue| && k in DriftKeys(s.base, env.protected, s.queue[j])
    ensures RevertCount(env, s, Handles(|s.queue|)) > 0
  {
    if RevertCount(env, s, Handles(|s.queue|)) == 0 {
      CountGrows(env, s, j, |s.queue|);
      CountGrows(env, s, j + 1, |s.queue|);
      DriftStays(env, s, j, k);
    }
  }

  lemma DriftStays(env: Env, s: State, j: nat, k: string)
    requires env.mode == Revert && j < |s.queue| && k in DriftKeys(s.base, env.protected, s.queue[j])
    requires RevertCount(env, s, Handles(j)) == 0
    ensures RevertCount(env, s, Handles(j + 1)) > 0
  {
    HandlesNext(env, s, j);
    hide RevertCount, Exec, Handles, HandleHead;
    QuietSoFar(env, s, j);
    var t := Exec(env, s, Handles(j));
    assert k in DriftKeys(t.base, env.protected, t.queue[0]);
  }

  /** With only settled events pending, setting tags through the app leads to a needless revert call, of something
      nobody changed from outside, exactly when a pending event tells of another value for a protected key. */
  lemma NeedlessRevertExactly(env: Env, s: State, tags: TagMap)
    requires env.mode == Revert && Unsettled(env, s.base, s.queue) == 0
    ensures var t := Next(env, s, AppWrite(Tag(tags)));
      RevertCount(env, t, Handles(|t.queue|)) == 0 <==> Compatible(env, s, Tag(tags))
  {
    var p := Tag(tags);
    var t := Next(env, s, AppWrite(p));
    var n := |t.queue|;
    if Compatible(env, s, p) {
      AppWriteCounts(env, s, p);
      HandlesAreFair(env, t, n);
      RevertsWithoutRemovals(env, t, Handles(n));
    } else {
      var e, k :| e in s.queue && k in e.changed && k in tags && k in env.protected && Get(e.tags, k) != Some(tags[k]);
      var j :| 0 <= j < |s.queue| && s.queue[j] == e;
      assert t.queue[j] == e && t.base[k] == tags[k];
      DriftIsReverted(env, t, j, k);
    }
  }

  // Of each protected key the event is about, the baseline has a value, and that value is the live one or the one seen.
  predicate Undisturbing(env: Env, s: State, e: TagEvent) {
    forall k :: k in e.changed && k in env.protected ==>
      k in s.base && (Get(s.live, k) == Some(s.base[k]) || Get(e.tags, k) == Some(s.base[k]))
  }

  lemma UndisturbingHandled(env: Env, s: State, ok: bool)
    requires s.queue != [] && Undisturbing(env, s, s.queue[0])
    ensures HandleHead(env, s, false, ok) == s.(queue := s.queue[1..])
  {
    var e := s.queue[0];
    var drift := DriftKeys(s.base, env.protected, e);
    var back := Written(s.live, Tag(Expected(s.base, drift)));
    forall k ensures Get(back, k) == Get(s.live, k) { RevertedKey(s.live, s.base, drift, k); }
    assert Diff(s.live, back) == {};
    SameGets(back, s.live);
    assert s.base + Learned(s.base, env.protected, e) == s.base;
  }

  lemma {:induction false} UndisturbedSoFar(env: Env, t: State, n: nat)
    requires n <= |t.queue| && forall i :: 0 <= i < |t.queue| ==> Undisturbing(env, t, t.queue[i])
    ensures Exec(env, t, Handles(n)) == t.(queue := t.queue[n..])
  {
    if n > 0 {
      HandlesNext(env, t, n - 1);
      hide Exec, Handles, HandleHead;
      UndisturbedSoFar(env, t, n - 1);
      var u := t.(queue := t.queue[n - 1..]);
      assert u.queue[0] == t.queue[n - 1] && u.queue[1..] == t.queue[n..];
      UndisturbingHandled(env, u, true);
    }
  }

  /** Tags the app sets survive: with only settled events pending, handling them and the event of the write changes
      neither a live tag nor a baseline entry, whatever needless reverts it makes. */
  lemma OwnWriteSurvives(env: Env, s: State, tags: TagMap)
    requires Unsettled(env, s.base, s.queue) == 0
    ensures var t := Next(env, s, AppWrite(Tag(tags)));
      Exec(env, t, Handles(|t.queue|)) == t.(queue := [])
  {
    var t := Next(env, s, AppWrite(Tag(tags)));
    forall i | 0 <= i < |t.queue| ensures Undisturbing(env, t, t.queue[i]) {
      if i < |s.queue| { SettledIn(env, s.base, s.queue, i); }
    }
    UndisturbedSoFar(env, t, |t.queue|);
  }

  lemma {:induction false} SettledIn(env: Env, base: TagMap, queue: seq<TagEvent>, j: nat)
    requires Unsettled(env, base, queue) == 0 && j < |queue|
    ensures Settled(env, base, queue[j])
  {
    if j > 0 { SettledIn(env, base, queue[1..], j - 1); }
  }

  // No pending event is about a protected live key that is removed.
  predicate Untouched(env: Env, s: State, ks: set<string>) {
    forall e, k :: e in s.queue && k in e.changed && k in ks && k in env.protected ==> k !in s.live
  }

  // One of the first `n` events is about `k`.
  predicate Touched(queue: seq<TagEvent>, n: nat, k: string)
    requires n <= |queue|
  {
    n > 0 && (k in queue[n - 1].changed || Touched(queue, n - 1, k))
  }

  // `base` has the values of `orig`, but of the removed keys only those that have been learnt again.
  ghost predicate Relearnt(env: Env, orig: TagMap, ks: set<string>, queue: seq<TagEvent>, n: nat, base: TagMap)
    requires n <= |queue|
  {
    Extends(base, orig) &&
    forall k :: k in env.protected ==> (k in base <==> k in orig && (k !in ks || Touched(queue, n, k)))
  }

  lemma RelearntNext(env: Env, orig: TagMap, ks: set<string>, queue: seq<TagEvent>, n: nat, base: TagMap)
    requires n < |queue| && Relearnt(env, orig, ks, queue, n, base) && Settled(env, orig, queue[n])
    ensures DriftKeys(base, env.protected, queue[n]) == {}
    ensures Relearnt(env, orig, ks, queue, n + 1, base + Learned(base, env.protected, queue[n]))
  {}

  // Handling the events that were pending before the removal teaches old values back, and reverts nothing.
  lemma {:induction false} OldEventsAreQuiet(env: Env, s: State, ks: set<string>, n: nat)
    requires env.mode == Revert && Unsettled(env, s.base, s.queue) == 0 && n <= |s.queue|
    ensures var t := Next(env, s, AppWrite(Untag(ks)));
      && RevertCount(env, t, Handles(n)) == 0
      && Relearnt(env, s.base, ks, s.queue, n, Exec(env, t, Handles(n)).base)
  {
    var t := Next(env, s, AppWrite(Untag(ks)));
    RemovalEvent(env, s, ks);
    if n > 0 {
      HandlesNext(env, t, n - 1);
      hide RevertCount, Exec, Handles, Relearnt, Learned, DriftKeys, Diff, Next;
      OldEventsAreQuiet(env, s, ks, n - 1);
      QuietSoFar(env, t, n - 1);
      var u := Exec(env, t, Handles(n - 1));
      SettledIn(env, s.base, s.queue, n - 1);
      assert u.queue[0] == s.queue[n - 1];
      RelearntNext(env, s.base, ks, s.queue, n - 1, u.base);
    }
  }

  lemma RemovalEvent(env: Env, s: State, ks: set<string>)
    ensures var t, e := Next(env, s, AppWrite(Untag(ks))), TagEvent(Diff(s.live, s.live - ks), s.live - ks);
      t.queue == if exists k :: k in ks && k in s.live then s.queue + [e] else s.queue
  {
    if k :| k in ks && k in s.live { assert k in Diff(s.live, s.live - ks); }
  }

  lemma RemovalDrift(env: Env, s: State, ks: set<string>, base: TagMap, k: string)
    ensures k in DriftKeys(base, env.protected, TagEvent(Diff(s.live, s.live - ks), s.live - ks))
            <==> k in base && k in env.protected && k in ks && k in s.live
  {}

  lemma {:induction false} TouchedMeans(queue: seq<TagEvent>, n: nat, k: string)
    requires n <= |queue|
    ensures Touched(queue, n, k) <==> exists j :: 0 <= j < n && k in queue[j].changed
  {
    if n > 0 { TouchedMeans(queue, n - 1, k); }
  }

  // The event of the removal, handled after all others.
  lemma RemovalHandled(env: Env, s: State, ks: set<string>)
    requires env.mode == Revert && Unsettled(env, s.base, s.queue) == 0
    requires exists k :: k in ks && k in s.live
    ensures var t := Next(env, s, AppWrite(Untag(ks)));
      RevertCount(env, t, Handles(|s.queue| + 1)) == 0 <==> Untouched(env, s, ks)
  {
    hide Next, HandleHead, Diff, DriftKeys;
    var t, n := Next(env, s, AppWrite(Untag(ks))), |s.queue|;
    RemovalEvent(env, s, ks);
    OldEventsAreQuiet(env, s, ks, n);
    QuietSoFar(env, t, n);
    var u, e := Exec(env, t, Handles(n)), t.queue[n];
    HandlesNext(env, t, n);
    assert u.queue[0] == e;
    forall k ensures k in DriftKeys(u.base, env.protected, e) <==>
        k in u.base && k in env.protected && k in ks && k in s.live {
      RemovalDrift(env, s, ks, u.base, k);
    }
    if Untouched(env, s, ks) {
      forall k | k in ks && k in env.protected && k in s.live
        ensures !Touched(s.queue, n, k)
      {
        TouchedMeans(s.queue, n, k);
      }
      assert forall k :: k !in DriftKeys(u.base, env.protected, e);
    } else {
      var f, k :| f in s.queue && k in f.changed && k in ks && k in env.protected && k in s.live;
      var j :| 0 <= j < n && s.queue[j] == f;
      TouchedMeans(s.queue, n, k);
      SettledIn(env, s.base, s.queue, j);
      assert k in DriftKeys(u.base, env.protected, e);
    }
  }

  /** With only settled events pending, removing tags through the app leads to a revert exactly when a pending event is
      about a protected live key that is removed. */
  lemma OwnRemovalIsRevertedExactly(env: Env, s: State, ks: set<string>)
    requires env.mode == Revert && Unsettled(env, s.base, s.queue) == 0
    ensures var t := Next(env, s, AppWrite(Untag(ks)));
      RevertCount(env, t, Handles(|t.queue|)) == 0 <==> Untouched(env, s, ks)
  {
    RemovalEvent(env, s, ks);
    if exists k :: k in ks && k in s.live {
      RemovalHandled(env, s, ks);
    } else {
      OldEventsAreQuiet(env, s, ks, |s.queue|);
    }
  }

  /** The two calls of an undo, which set some keys and remove others, are not reverted when their events are
      handled. */
  lemma SettingThenRemovingIsQuiet(env: Env, s: State, tags: TagMap, ks: set<string>)
    requires env.mode == Revert && s.queue == [] && tags.Keys !! ks
    ensures var t := Next(env, Next(env, s, AppWrite(Tag(tags))), AppWrite(Untag(ks)));
      RevertCount(env, t, Handles(|t.queue|)) == 0
  {
    var mid := Next(env, s, AppWrite(Tag(tags)));
    AppWriteCounts(env, s, Tag(tags));
    assert Diff(s.live, mid.live) <= tags.Keys;
    assert Untouched(env, mid, ks);
    OwnRemovalIsRevertedExactly(env, mid, ks);
  }

  /** Two writes of the app in a row make a needless revert: the event of the first is taken for drift. */
  lemma TwoOwnWritesRevertNeedlessly(k: string, v: string, w: string)
    requires v != w
    ensures var env, empty := Env(Revert, {k}), State(map[], map[], []);
      var s := Next(env, empty, AppWrite(Tag(map[k := v])));
      && Unsettled(env, s.base, s.queue) == 0
      && RevertCount(env, Next(env, s, AppWrite(Tag(map[k := w]))), Handles(2)) > 0
  {
    var env, empty := Env(Revert, {k}), State(map[], map[], []);
    AppWriteCounts(env, empty, Tag(map[k := v]));
    var s := Next(env, empty, AppWrite(Tag(map[k := v])));
    assert k in Diff(map[], Written(map[], Tag(map[k := v])));
    var t := Next(env, s, AppWrite(Tag(map[k := w])));
    assert k in Diff(s.live, Written(s.live, Tag(map[k := w])));
    assert |t.queue| == 2;
    assert k in DriftKeys(t.base, env.protected, t.queue[0]);
    DriftIsReverted(env, t, 0, k);
  }

  /** A key the app removes while an event about it is pending is learnt again from that event and then put back. */
  lemma RemovalIsUndone(k: string, v: string)
    ensures var env, empty := Env(Revert, {k}), State(map[], map[], []);
      var s := Next(env, Next(env, empty, External(Tag(map[k := v]))), AppWrite(Untag({k})));
      var t := Next(env, s, Handle(false, true));
      var u := Next(env, t, Handle(false, true));
      Get(s.live, k) == None && Get(s.base, k) == None && Get(t.base, k) == Some(v) && Get(u.live, k) == Some(v)
  {
    var env, empty := Env(Revert, {k}), State(map[], map[], []);
    var r := Next(env, empty, External(Tag(map[k := v])));
    assert k in Diff(empty.live, Written(empty.live, Tag(map[k := v])));
    var s := Next(env, r, AppWrite(Untag({k})));
    assert k in Diff(r.live, Written(r.live, Untag({k})));
    assert |s.queue| == 2 && k in s.queue[0].changed && k in s.queue[1].changed;
    var t := Next(env, s, Handle(false, true));
    assert DriftKeys(s.base, env.protected, s.queue[0]) == {};
    assert t.queue == [s.queue[1]] && Get(t.base, k) == Some(v);
    assert k in DriftKeys(t.base, env.protected, t.queue[0]);
    RevertedKey(t.live, t.base, DriftKeys(t.base, env.protected, t.queue[0]), k);
  }

  // ----- Where baseline values come from.

  predicate Authorised(env: Env, s: State, step: Step, k: string) {
    match step
    case AppWrite(p) => k in Keys(p) && k in env.protected
    case Handle(exempt, _) => exempt && s.queue != [] && k in DriftKeys(s.base, env.protected, s.queue[0])
    case _ => false
  }

  // The new baseline value of `k` was written, or seen, in this very step.
  predicate Sourced(s: State, step: Step, t: State, k: string) {
    match step
    case AppWrite(_) => Get(t.base, k) == Get(t.live, k)
    case Scan => Get(t.base, k) == Get(s.live, k)
    case Handle(_, _) => s.queue != [] && k in s.queue[0].changed && Get(t.base, k) == Get(s.queue[0].tags, k)
    case External(_) => false
  }

  /** A baseline entry changes only by a write of the app or by an accepted exempt change, and then to what was written
      or seen; a new entry comes from a write, a scan of the live tags, or the event's own tags. */
  lemma BaselineProvenance(env: Env, s: State, step: Step, k: string)
    ensures var t := Next(env, s, step);
      && (k in s.base && Get(t.base, k) != Get(s.base, k) ==> Authorised(env, s, step, k))
      && (Get(t.base, k) != Get(s.base, k) ==> k in env.protected && Sourced(s, step, t, k))
  {
    if step.Handle? && s.queue != [] { HandledBase(s.base, env.protected, s.queue[0], k); }
  }

  /** Over a whole run without writes of the app and without exemptions, the baseline only grows. */
  lemma {:induction false} BaselineOnlyGrows(env: Env, s: State, steps: seq<Step>)
    requires forall i :: 0 <= i < |steps| ==> !steps[i].AppWrite? && (steps[i].Handle? ==> !steps[i].exempt)
    ensures Extends(s.base, Exec(env, s, steps).base)
  {
    if steps != [] {
      var t, step := Exec(env, s, steps[..|steps| - 1]), steps[|steps| - 1];
      BaselineOnlyGrows(env, s, steps[..|steps| - 1]);
      hide Next;
      forall k | k in s.base ensures Get(Next(env, t, step).base, k) == Get(s.base, k) {
        BaselineProvenance(env, t, step, k);
      }
    }
  }
}
