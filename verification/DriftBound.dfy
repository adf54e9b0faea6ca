/** How often there can be a revert when the app also removes tags. */
module DriftBound {
  import opened Wrappers
  import opened TagStore
  import opened Drift

  // ----- Which pending events outside changes account for.

  // A flag for each pending event: it comes from outside, or was unsettled at the start.
  function OwedNext(env: Env, s: State, step: Step, owed: seq<bool>): seq<bool> {
    var kept := if step.Handle? && s.queue != [] && owed != [] then owed[1..] else owed;
    if |Next(env, s, step).queue| > |kept| then kept + [step.External?] else kept
  }

  function Owed(env: Env, s: State, steps: seq<Step>): seq<bool> {
    if steps == [] then seq(|s.queue|, i requires 0 <= i < |s.queue| => !Settled(env, s.base, s.queue[i]))
    else OwedNext(env, Exec(env, s, steps[..|steps| - 1]), steps[|steps| - 1], Owed(env, s, steps[..|steps| - 1]))
  }

  function Count(owed: seq<bool>): nat {
    if owed == [] then 0 else (if owed[0] then 1 else 0) + Count(owed[1..])
  }

  // Handling the events in order, event `i` will be no drift: it tells of baseline values, and of the absence of a key
  // only when no event before it can teach that key.
  predicate Immune(env: Env, base: TagMap, queue: seq<TagEvent>, i: nat)
    requires i < |queue|
  {
    forall k :: k in queue[i].changed && k in env.protected ==>
      Get(queue[i].tags, k) == Get(base, k) &&
      (k !in base ==> forall j :: 0 <= j < i && k in queue[j].changed ==> k !in queue[j].tags)
  }

  ghost predicate Ledger(env: Env, base: TagMap, queue: seq<TagEvent>, owed: seq<bool>) {
    |owed| == |queue| && forall i :: 0 <= i < |queue| && !owed[i] ==> Immune(env, base, queue, i)
  }

  // ----- What the bound asks of the steps.

  // The app sets no protected key to what a pending event of its own contradicts, and removes none that any pending
  // event has a value for. A scan learns no key whose absence a pending event of the app's own tells of.
  predicate Orderly(env: Env, s: State, owed: seq<bool>, step: Step)
    requires |owed| == |s.queue|
  {
    match step
    case External(_) => true
    case AppWrite(Tag(tags)) =>
      forall i, k :: 0 <= i < |s.queue| && !owed[i] && k in s.queue[i].changed && k in env.protected && k in tags ==>
        Get(s.queue[i].tags, k) == Some(tags[k])
    case AppWrite(Untag(ks)) =>
      forall i, k :: 0 <= i < |s.queue| && k in s.queue[i].changed && k in env.protected && k in ks ==>
        k !in s.queue[i].tags
    case Scan =>
      forall i, k :: 0 <= i < |s.queue| && !owed[i] && k in s.queue[i].changed && k in env.protected ==>
        k in s.base || k in s.queue[i].tags || k !in s.live
    case Handle(exempt, _) => !exempt
  }

  ghost predicate OrderlyRun(env: Env, s: State, steps: seq<Step>) {
    steps != [] ==>
      var front := steps[..|steps| - 1];
      && OrderlyRun(env, s, front)
      && |Owed(env, s, front)| == |Exec(env, s, front).queue|
      && Orderly(env, Exec(env, s, front), Owed(env, s, front), steps[|steps| - 1])
  }

  // ----- One step.

  lemma {:induction false} CountNext(owed: seq<bool>, b: bool)
    ensures Count(owed + [b]) == Count(owed) + if b then 1 else 0
  {
    if owed == [] {
      assert owed + [b] == [b] && [b][1..] == [];
    } else {
      assert (owed + [b])[1..] == owed[1..] + [b];
      CountNext(owed[1..], b);
    }
  }

  // The ledger after the event of a change, if there was one.
  lemma LedgerEmit(env: Env, s: State, live: TagMap, owed: seq<bool>, b: bool)
    requires Ledger(env, s.base, s.queue, owed)
    requires !b ==> var e := TagEvent(Diff(s.live, live), live); Immune(env, s.base, s.queue + [e], |s.queue|)
    ensures var t := Emit(s, live);
      Ledger(env, s.base, t.queue, if |t.queue| > |owed| then owed + [b] else owed)
  {
    var t := Emit(s, live);
    if |t.queue| > |owed| {
      var e := TagEvent(Diff(s.live, live), live);
      assert t.queue == s.queue + [e];
      forall i | 0 <= i < |t.queue| && !(owed + [b])[i] ensures Immune(env, s.base, t.queue, i) {
        if i < |s.queue| { assert Immune(env, s.base, s.queue, i); }
      }
    }
  }

  // The baseline after a write of the app keeps what was immune immune.
  lemma LedgerRecorded(env: Env, s: State, owed: seq<bool>, p: Payload)
    requires Ledger(env, s.base, s.queue, owed) && Orderly(env, s, owed, AppWrite(p))
    ensures Ledger(env, Recorded(s.base, p, env.protected), s.queue, owed)
  {
    var base := Recorded(s.base, p, env.protected);
    forall i | 0 <= i < |s.queue| && !owed[i] ensures Immune(env, base, s.queue, i) {
      assert Immune(env, s.base, s.queue, i);
    }
  }

  lemma OwnEventIsImmune(env: Env, s: State, owed: seq<bool>, p: Payload)
    requires |owed| == |s.queue| && Orderly(env, s, owed, AppWrite(p))
    ensures var base, live := Recorded(s.base, p, env.protected), Written(s.live, p);
      Immune(env, base, s.queue + [TagEvent(Diff(s.live, live), live)], |s.queue|)
  {
    var live := Written(s.live, p);
    forall k | k in Diff(s.live, live) ensures k in Keys(p) {}
  }

  lemma LedgerSeeded(env: Env, s: State, owed: seq<bool>)
    requires Ledger(env, s.base, s.queue, owed) && Orderly(env, s, owed, Scan)
    ensures Ledger(env, Seeded(s.base, env.protected, s.live), s.queue, owed)
  {
    forall i | 0 <= i < |s.queue| && !owed[i] ensures Immune(env, Seeded(s.base, env.protected, s.live), s.queue, i) {
      assert Immune(env, s.base, s.queue, i);
    }
  }

  // What is immune stays so when the event before it has taught its keys.
  lemma LedgerLearned(env: Env, base: TagMap, queue: seq<TagEvent>, owed: seq<bool>)
    requires queue != [] && Ledger(env, base, queue, owed)
    ensures Ledger(env, base, queue[1..], owed[1..])
    ensures Ledger(env, base + Learned(base, env.protected, queue[0]), queue[1..], owed[1..])
  {
    var base', rest := base + Learned(base, env.protected, queue[0]), queue[1..];
    forall i | 0 <= i < |rest| && !owed[1..][i] ensures Immune(env, base', rest, i) && Immune(env, base, rest, i) {
      assert Immune(env, base, queue, i + 1);
      ImmuneShift(env, base, queue, i);
      ImmuneLearned(env, base, queue, i);
    }
  }

  lemma ImmuneShift(env: Env, base: TagMap, queue: seq<TagEvent>, i: nat)
    requires i + 1 < |queue| && Immune(env, base, queue, i + 1)
    ensures Immune(env, base, queue[1..], i)
  {
    var rest := queue[1..];
    forall k, j | k in rest[i].changed && k in env.protected && k !in base && 0 <= j < i && k in rest[j].changed
      ensures k !in rest[j].tags
    {
      assert rest[j] == queue[j + 1];
    }
  }

  lemma ImmuneLearned(env: Env, base: TagMap, queue: seq<TagEvent>, i: nat)
    requires i + 1 < |queue| && Immune(env, base, queue, i + 1)
    ensures Immune(env, base + Learned(base, env.protected, queue[0]), queue[1..], i)
  {
    ImmuneShift(env, base, queue, i);
    var base', rest := base + Learned(base, env.protected, queue[0]), queue[1..];
    forall k | k in rest[i].changed && k in env.protected ensures Get(base', k) == Get(base, k) {
      assert rest[i] == queue[i + 1];
    }
  }

  lemma DriftIsOwed(env: Env, base: TagMap, queue: seq<TagEvent>, owed: seq<bool>)
    requires queue != [] && Ledger(env, base, queue, owed)
    ensures owed != [] && (DriftKeys(base, env.protected, queue[0]) != {} ==> owed[0])
  {
    if !owed[0] { assert Immune(env, base, queue, 0); }
  }

  // What handling an event that no exemption covers leaves behind.
  lemma HandledForms(env: Env, s: State, ok: bool)
    requires s.queue != []
    ensures var e, t := s.queue[0], s.(queue := s.queue[1..]);
      var learnt := t.(base := s.base + Learned(s.base, env.protected, e));
      var back := Written(s.live, Tag(Expected(s.base, DriftKeys(s.base, env.protected, e))));
      HandleHead(env, s, false, ok) ==
        if env.mode == Off then t else if Reverts(env, s, Handle(false, ok)) then Emit(learnt, back) else learnt
  {
    hide Learned, DriftKeys, Expected, Written, Emit;
  }

  lemma LedgerHandled(env: Env, s: State, owed: seq<bool>, ok: bool)
    requires s.queue != [] && Ledger(env, s.base, s.queue, owed)
    ensures var t, step := HandleHead(env, s, false, ok), Handle(false, ok);
      && Ledger(env, t.base, t.queue, OwedNext(env, s, step, owed))
      && Count(OwedNext(env, s, step, owed)) + (if Reverts(env, s, step) then 1 else 0) <= Count(owed)
  {
    var drift := DriftKeys(s.base, env.protected, s.queue[0]);
    var base := s.base + Learned(s.base, env.protected, s.queue[0]);
    var t, live := State(s.live, base, s.queue[1..]), Written(s.live, Tag(Expected(s.base, drift)));
    assert forall k :: k in drift ==> k in s.base;
    hide HandleHead, Learned, DriftKeys, Expected, Written, Settled, Immune, Diff, Ledger, Get;
    HandledForms(env, s, ok);
    LedgerLearned(env, s.base, s.queue, owed);
    LedgerLength(env, s.base, s.queue, owed);
    DriftIsOwed(env, s.base, s.queue, owed);
    CountNext(owed[1..], false);
    LearningExtends(env, s.base, s.queue[0]);
    RevertIsSettled(env, s.live, s.base, base, drift);
    SettledIsImmune(env, base, s.queue[1..], TagEvent(Diff(s.live, live), live));
    LedgerEmit(env, t, live, owed[1..], false);
  }

  lemma LedgerLength(env: Env, base: TagMap, queue: seq<TagEvent>, owed: seq<bool>)
    requires Ledger(env, base, queue, owed)
    ensures |owed| == |queue|
  {}

  lemma SettledIsImmune(env: Env, base: TagMap, queue: seq<TagEvent>, e: TagEvent)
    requires Settled(env, base, e)
    ensures Immune(env, base, queue + [e], |queue|)
  {}

  lemma {:induction false} CountUnsettled(env: Env, base: TagMap, queue: seq<TagEvent>, owed: seq<bool>)
    requires |owed| == |queue| && forall i :: 0 <= i < |queue| ==> owed[i] == !Settled(env, base, queue[i])
    ensures Count(owed) == Unsettled(env, base, queue)
  {
    hide Settled;
    if queue != [] { CountUnsettled(env, base, queue[1..], owed[1..]); }
  }

  // One step keeps the ledger; the flags grow by outside changes and shrink by reverts.
  lemma LedgerStep(env: Env, s: State, owed: seq<bool>, step: Step)
    requires Ledger(env, s.base, s.queue, owed) && Orderly(env, s, owed, step)
    ensures var t, more := Next(env, s, step), OwedNext(env, s, step, owed);
      && Ledger(env, t.base, t.queue, more)
      && Count(more) + (if Reverts(env, s, step) then 1 else 0) <= Count(owed) + if step.External? then 1 else 0
  {
    CountNext(owed, step.External?);
    match step {
      case External(p) => LedgerEmit(env, s, Written(s.live, p), owed, true);
      case AppWrite(p) =>
        LedgerRecorded(env, s, owed, p);
        OwnEventIsImmune(env, s, owed, p);
        hide Written, Recorded, Immune;
        LedgerEmit(env, s.(base := Recorded(s.base, p, env.protected)), Written(s.live, p), owed, false);
      case Scan => LedgerSeeded(env, s, owed);
      case Handle(_, ok) =>
        hide HandleHead;
        if s.queue != [] { LedgerHandled(env, s, owed, ok); }
    }
  }

  // ----- Whole runs.

  lemma {:induction false} LedgerHolds(env: Env, s: State, steps: seq<Step>)
    requires OrderlyRun(env, s, steps)
    ensures var t := Exec(env, s, steps);
      && Ledger(env, t.base, t.queue, Owed(env, s, steps))
      && RevertCount(env, s, steps) + Count(Owed(env, s, steps)) <=
         ExternalCount(steps) + Unsettled(env, s.base, s.queue)
  {
    if steps == [] {
      CountUnsettled(env, s.base, s.queue, Owed(env, s, steps));
      forall i | 0 <= i < |s.queue| && Settled(env, s.base, s.queue[i]) ensures Immune(env, s.base, s.queue, i) {}
    } else {
      var front := steps[..|steps| - 1];
      hide Next, OwedNext, Ledger, Orderly, Unsettled;
      LedgerHolds(env, s, front);
      LedgerStep(env, Exec(env, s, front), Owed(env, s, front), steps[|steps| - 1]);
    }
  }

  /** No loop, removals included: in an orderly run there are no more reverts than outside changes, those still pending
      at the start included, and a pending event that no outside change accounts for will be no drift. */
  lemma RevertsNeverExceedChanges(env: Env, s: State, steps: seq<Step>)
    requires OrderlyRun(env, s, steps)
    ensures var t, owed := Exec(env, s, steps), Owed(env, s, steps);
      && RevertCount(env, s, steps) + Count(owed) <= ExternalCount(steps) + Unsettled(env, s.base, s.queue)
      && |owed| == |t.queue|
      && forall i :: 0 <= i < |t.queue| && !owed[i] ==> DriftKeys(t.base, env.protected, t.queue[i]) == {}
  {
    var t, owed := Exec(env, s, steps), Owed(env, s, steps);
    LedgerHolds(env, s, steps);
    forall i | 0 <= i < |t.queue| && !owed[i] ensures DriftKeys(t.base, env.protected, t.queue[i]) == {} {
      assert Immune(env, t.base, t.queue, i);
    }
  }

  // ----- The conditions are needed.

  lemma OneMoreStep(env: Env, s: State, steps: seq<Step>, step: Step)
    ensures var t := Exec(env, s, steps);
      && Exec(env, s, steps + [step]) == Next(env, t, step)
      && RevertCount(env, s, steps + [step]) == RevertCount(env, s, steps) + (if Reverts(env, t, step) then 1 else 0)
      && ExternalCount(steps + [step]) == ExternalCount(steps) + if step.External? then 1 else 0
  {
    hide Next, Reverts;
    assert (steps + [step])[..|steps|] == steps;
  }

  // The app removes two protected keys, one after the other, then both are set from outside, and a scan follows.
  lemma RelearningState(env: Env, k: string, l: string, v: string, w: string)
    requires k != l && env == Env(Revert, {k, l})
    ensures var m := map[k := v, l := w];
      var a := Next(env, State(m, m, []), AppWrite(Untag({k})));
      var b := Next(env, a, AppWrite(Untag({l})));
      var c := Next(env, b, External(Tag(m)));
      && Next(env, c, Scan) == State(m, m, [TagEvent({k}, map[l := w]), TagEvent({l}, map[]), TagEvent({k, l}, m)])
  {
    var m := map[k := v, l := w];
    assert m - {k} == map[l := w] && Diff(m, m - {k}) == {k};
    var a := Next(env, State(m, m, []), AppWrite(Untag({k})));
    assert a == State(map[l := w], map[l := w], [TagEvent({k}, map[l := w])]);
    assert map[l := w] - {l} == map[] && Diff(map[l := w], map[]) == {l};
    var b := Next(env, a, AppWrite(Untag({l})));
    assert b == State(map[], map[], [TagEvent({k}, map[l := w]), TagEvent({l}, map[])]);
    assert map[] + m == m && Diff(map[], m) == {k, l};
  }

  // Handling an event that tells of the absence of a live baselined key.
  lemma AbsenceReverted(env: Env, s: State, k: string)
    requires env.mode == Revert && s.queue != [] && s.live == s.base && k in s.base && k in env.protected
    requires s.queue[0].changed == {k} && k !in s.queue[0].tags
    ensures Reverts(env, s, Handle(false, true)) && Next(env, s, Handle(false, true)) == s.(queue := s.queue[1..])
  {
    assert k in DriftKeys(s.base, env.protected, s.queue[0]);
    UndisturbingHandled(env, s, true);
  }

  /** Without the condition on scans the bound can fail: one outside change, and two reverts, each of a key the app had
      removed while no event about it was pending. */
  lemma ScanCanCauseMoreReverts(k: string, l: string, v: string, w: string)
    requires k != l
    ensures var env, m, step := Env(Revert, {k, l}), map[k := v, l := w], Handle(false, true);
      var run := [AppWrite(Untag({k}))] + [AppWrite(Untag({l}))] + [External(Tag(m))] + [Scan] + [step] + [step];
      RevertCount(env, State(m, m, []), run) == 2 && ExternalCount(run) == 1
  {
    var env, m, step := Env(Revert, {k, l}), map[k := v, l := w], Handle(false, true);
    var s := State(m, m, []);
    var r1 := [AppWrite(Untag({k}))];
    var r2 := r1 + [AppWrite(Untag({l}))];
    var r3 := r2 + [External(Tag(m))];
    var r4 := r3 + [Scan];
    assert [] + r1 == r1 && Exec(env, s, []) == s;
    OneMoreStep(env, s, [], AppWrite(Untag({k})));
    OneMoreStep(env, s, r1, AppWrite(Untag({l})));
    OneMoreStep(env, s, r2, External(Tag(m)));
    OneMoreStep(env, s, r3, Scan);
    OneMoreStep(env, s, r4, step);
    OneMoreStep(env, s, r4 + [step], step);
    hide Next, Exec, RevertCount, ExternalCount;
    RelearningState(env, k, l, v, w);
    var u := Exec(env, s, r4);
    AbsenceReverted(env, u, k);
    var queue := u.queue[1..];
    assert queue == [TagEvent({l}, map[]), TagEvent({k, l}, m)];
    AbsenceReverted(env, u.(queue := queue), l);
  }

  // The app sets a key and removes it again.
  lemma SetAndRemovedState(env: Env, k: string, v: string)
    requires env == Env(Revert, {k})
    ensures var a := Next(env, State(map[], map[], []), AppWrite(Tag(map[k := v])));
      Next(env, a, AppWrite(Untag({k}))) ==
      State(map[], map[], [TagEvent({k}, map[k := v]), TagEvent({k}, map[])])
  {
    var m: TagMap := map[k := v];
    assert map[] + m == m && Diff(map[], m) == {k};
    var a := Next(env, State(map[], map[], []), AppWrite(Tag(m)));
    assert a.live == m && a.base == m && a.queue == [TagEvent({k}, m)];
    assert m - {k} == map[] && Diff(m, map[]) == {k};
  }

  // The first event teaches the removed key again, so that the second is drift.
  lemma RelearntIsReverted(env: Env, s: State, k: string)
    requires env.mode == Revert && k in env.protected && k !in s.base && |s.queue| == 2
    requires s.queue[0].changed == {k} && k in s.queue[0].tags && s.queue[1].changed == {k} && k !in s.queue[1].tags
    ensures var t := Next(env, s, Handle(false, true));
      !Reverts(env, s, Handle(false, true)) && Reverts(env, t, Handle(false, true))
  {
    assert DriftKeys(s.base, env.protected, s.queue[0]) == {};
    var t := Next(env, s, Handle(false, true));
    assert t.queue[0] == s.queue[1] && k in t.base;
    assert k in DriftKeys(t.base, env.protected, t.queue[0]);
  }

  /** Without the condition on removals there can be a revert although nothing was changed from outside: the app removes
      a key while the event of its own setting is pending. (For the condition on settings, see
      TwoOwnWritesRevertNeedlessly.) */
  lemma RemovalCanCauseRevert(k: string, v: string)
    ensures var env, step := Env(Revert, {k}), Handle(false, true);
      var run := [AppWrite(Tag(map[k := v]))] + [AppWrite(Untag({k}))] + [step] + [step];
      RevertCount(env, State(map[], map[], []), run) == 1 && ExternalCount(run) == 0
  {
    var env, step := Env(Revert, {k}), Handle(false, true);
    var s := State(map[], map[], []);
    var r1 := [AppWrite(Tag(map[k := v]))];
    var r2 := r1 + [AppWrite(Untag({k}))];
    assert [] + r1 == r1 && Exec(env, s, []) == s;
    OneMoreStep(env, s, [], AppWrite(Tag(map[k := v])));
    OneMoreStep(env, s, r1, AppWrite(Untag({k})));
    OneMoreStep(env, s, r2, step);
    OneMoreStep(env, s, r2 + [step], step);
    hide Next, Exec, RevertCount, ExternalCount;
    SetAndRemovedState(env, k, v);
    RelearntIsReverted(env, Exec(env, s, r2), k);
  }
}
