/** What exemptions do to the app's own writes: accepting an old event brings back the value from before the write. */
module DriftExemptions {
  import opened Wrappers
  import opened TagStore
  import opened Drift

  // One handled event for each flag, which says whether an exemption covers it; reverts succeed.
  function Judged(flags: seq<bool>): seq<Step> {
    seq(|flags|, i requires 0 <= i < |flags| => Handle(flags[i], true))
  }

  lemma JudgedNext(env: Env, s: State, flags: seq<bool>, n: nat)
    requires n < |flags|
    ensures Exec(env, s, Judged(flags[..n + 1])) == Next(env, Exec(env, s, Judged(flags[..n])), Handle(flags[n], true))
  {
    var steps := Judged(flags[..n + 1]);
    assert steps[..n] == Judged(flags[..n]) && steps[n] == Handle(flags[n], true);
    hide Next;
  }

  // One of the first `n` pending events is exempt, and tells of another value than the app sets `k` to.
  predicate Overruled(env: Env, queue: seq<TagEvent>, tags: TagMap, flags: seq<bool>, n: nat, k: string)
    requires n <= |queue| && n <= |flags|
  {
    && env.mode != Off && k in tags && k in env.protected
    && exists i :: 0 <= i < n && flags[i] && k in queue[i].changed && Get(queue[i].tags, k) != Some(tags[k])
  }

  // The write of the app changes `k`, so that its event is about it.
  predicate Changes(live: TagMap, tags: TagMap, k: string) {
    k in tags && Get(live, k) != Some(tags[k])
  }

  lemma OverruledNext(env: Env, queue: seq<TagEvent>, tags: TagMap, flags: seq<bool>, n: nat, k: string)
    requires n < |queue| && n < |flags|
    ensures Overruled(env, queue, tags, flags, n + 1, k) <==>
            || Overruled(env, queue, tags, flags, n, k)
            || (env.mode != Off && k in tags && k in env.protected && flags[n] && k in queue[n].changed &&
                Get(queue[n].tags, k) != Some(tags[k]))
  {}

  // Each value of `base` is the one of `orig`, or that of a protected key in `tags`.
  ghost predicate Between(env: Env, orig: TagMap, tags: TagMap, base: TagMap) {
    forall k :: (k in tags && k in env.protected && Get(base, k) == Some(tags[k])) || Get(base, k) == Get(orig, k)
  }

  // An exempt event puts the values of `orig` back where it is about protected keys.
  ghost predicate Restores(env: Env, orig: TagMap, e: TagEvent, exempt: bool, base: TagMap, base': TagMap) {
    forall k :: Get(base', k) ==
        Get(if env.mode != Off && exempt && k in e.changed && k in env.protected then orig else base, k)
  }

  // A settled event met after the write: its drift are the keys it contradicts whose new value still counts.
  lemma OldEventJudged(env: Env, s: State, tags: TagMap, u: State, exempt: bool)
    requires u.queue != [] && Settled(env, s.base, u.queue[0]) && u.live == Written(s.live, Tag(tags))
    requires Between(env, s.base, tags, u.base)
    ensures var t, e := Next(env, u, Handle(exempt, true)), u.queue[0];
      && t.live == u.live && t.queue == u.queue[1..] && Restores(env, s.base, e, exempt, u.base, t.base)
  {
    var e := u.queue[0];
    if env.mode != Off && exempt {
      HandledBaseOf(env, s.base, tags, u, e);
    } else if env.mode != Off {
      assert Undisturbing(env, u, e);
      UndisturbingHandled(env, u, true);
    }
  }

  lemma HandledBaseOf(env: Env, orig: TagMap, tags: TagMap, u: State, e: TagEvent)
    requires Settled(env, orig, e)
    requires Between(env, orig, tags, u.base)
    ensures var drift, learnt := DriftKeys(u.base, env.protected, e), u.base + Learned(u.base, env.protected, e);
      && learnt == u.base
      && forall k :: Get(Accepted(learnt, drift, e.tags), k) ==
           if k in e.changed && k in env.protected then Get(orig, k) else Get(u.base, k)
  {
    forall k | k in e.changed && k in env.protected ensures k in u.base { assert Get(u.base, k) != None; }
    assert Learned(u.base, env.protected, e) == map[];
    forall k ensures Get(Accepted(u.base, DriftKeys(u.base, env.protected, e), e.tags), k) ==
        if k in e.changed && k in env.protected then Get(orig, k) else Get(u.base, k)
    {
      HandledBase(u.base, env.protected, e, k);
    }
  }

  // After the first `n` events: the written values, but the old ones of overruled keys.
  ghost predicate JudgedBase(env: Env, s: State, tags: TagMap, flags: seq<bool>, n: nat, base: TagMap)
    requires n <= |s.queue| && n <= |flags|
  {
    forall k :: Get(base, k) == Get(if Overruled(env, s.queue, tags, flags, n, k) then s.base
                                    else Recorded(s.base, Tag(tags), env.protected), k)
  }

  ghost predicate JudgedUpTo(env: Env, s: State, tags: TagMap, flags: seq<bool>, n: nat, u: State)
    requires n <= |s.queue| && n <= |flags|
  {
    var t := Next(env, s, AppWrite(Tag(tags)));
    u.live == t.live && n <= |t.queue| && u.queue == t.queue[n..] && JudgedBase(env, s, tags, flags, n, u.base)
  }

  lemma JudgedBaseNext(env: Env, s: State, tags: TagMap, flags: seq<bool>, n: nat, base: TagMap, base': TagMap)
    requires n < |s.queue| && n < |flags| && Settled(env, s.base, s.queue[n])
    requires JudgedBase(env, s, tags, flags, n, base) && Restores(env, s.base, s.queue[n], flags[n], base, base')
    ensures JudgedBase(env, s, tags, flags, n + 1, base')
  {
    forall k ensures Get(base', k) == Get(if Overruled(env, s.queue, tags, flags, n + 1, k) then s.base
                                          else Recorded(s.base, Tag(tags), env.protected), k) {
      OverruledNext(env, s.queue, tags, flags, n, k);
    }
    hide Overruled;
  }

  lemma JudgedIsBetween(env: Env, s: State, tags: TagMap, flags: seq<bool>, n: nat, base: TagMap)
    requires n <= |s.queue| && n <= |flags| && JudgedBase(env, s, tags, flags, n, base)
    ensures Between(env, s.base, tags, base)
  {}

  lemma AfterWrite(env: Env, s: State, tags: TagMap)
    ensures var t := Next(env, s, AppWrite(Tag(tags)));
      && t.base == Recorded(s.base, Tag(tags), env.protected) && t.live == Written(s.live, Tag(tags))
      && |s.queue| <= |t.queue| && t.queue[..|s.queue|] == s.queue
  {}

  lemma JudgedStep(env: Env, s: State, tags: TagMap, flags: seq<bool>, n: nat, u: State)
    requires Unsettled(env, s.base, s.queue) == 0 && n < |s.queue| && n < |flags|
    requires JudgedUpTo(env, s, tags, flags, n, u)
    ensures JudgedUpTo(env, s, tags, flags, n + 1, Next(env, u, Handle(flags[n], true)))
  {
    var t := Next(env, s, AppWrite(Tag(tags)));
    SettledIn(env, s.base, s.queue, n);
    AfterWrite(env, s, tags);
    hide Next, Unsettled, Settled, Recorded, Written, JudgedBase, Between, Restores;
    assert u.queue[0] == t.queue[n] == t.queue[..|s.queue|][n];
    JudgedIsBetween(env, s, tags, flags, n, u.base);
    OldEventJudged(env, s, tags, u, flags[n]);
    JudgedBaseNext(env, s, tags, flags, n, u.base, Next(env, u, Handle(flags[n], true)).base);
  }

  lemma {:induction false} JudgedSoFar(env: Env, s: State, tags: TagMap, flags: seq<bool>, n: nat)
    requires Unsettled(env, s.base, s.queue) == 0 && n <= |s.queue| && n <= |flags|
    ensures JudgedUpTo(env, s, tags, flags, n, Exec(env, Next(env, s, AppWrite(Tag(tags))), Judged(flags[..n])))
  {
    var t := Next(env, s, AppWrite(Tag(tags)));
    if n > 0 {
      JudgedNext(env, t, flags, n - 1);
      hide Next, Exec, Judged, JudgedUpTo, Unsettled;
      JudgedSoFar(env, s, tags, flags, n - 1);
      JudgedStep(env, s, tags, flags, n - 1, Exec(env, t, Judged(flags[..n - 1])));
    } else {
      assert t.queue[0..] == t.queue && Judged(flags[..0]) == [];
    }
  }

  // Of `k` the state `u` has what is left when the event of the write has been judged as well.
  predicate LeftAt(env: Env, s: State, tags: TagMap, flags: seq<bool>, u: State, k: string)
    requires |s.queue| < |flags|
  {
    var t, n := Next(env, s, AppWrite(Tag(tags))), |s.queue|;
    var overruled, changed := Overruled(env, s.queue, tags, flags, n, k), Changes(s.live, tags, k);
    && Get(u.live, k) ==
       Get(if overruled && changed && !flags[n] && env.mode == Revert then s.base else t.live, k)
    && Get(u.base, k) == Get(if overruled && !(changed && flags[n]) then s.base else t.base, k)
  }

  ghost predicate Left(env: Env, s: State, tags: TagMap, flags: seq<bool>, u: State)
    requires |s.queue| < |flags|
  {
    forall k :: LeftAt(env, s, tags, flags, u, k)
  }

  lemma OverruledHadValue(env: Env, s: State, tags: TagMap, flags: seq<bool>, n: nat, k: string)
    requires Unsettled(env, s.base, s.queue) == 0 && n <= |s.queue| && n <= |flags|
    requires Overruled(env, s.queue, tags, flags, n, k)
    ensures k in s.base && k in tags && k in env.protected && s.base[k] != tags[k]
  {
    var i :| 0 <= i < n && flags[i] && k in s.queue[i].changed && Get(s.queue[i].tags, k) != Some(tags[k]);
    SettledIn(env, s.base, s.queue, i);
  }

  lemma WriteEvent(env: Env, s: State, tags: TagMap)
    ensures var t, e := Next(env, s, AppWrite(Tag(tags))), TagEvent(Diff(s.live, s.live + tags), s.live + tags);
      && t.live == s.live + tags
      && t.queue == (if exists k :: Changes(s.live, tags, k) then s.queue + [e] else s.queue)
      && (forall k :: k in e.changed <==> Changes(s.live, tags, k))
      && (forall k :: Get(t.base, k) == if k in tags && k in env.protected then Some(tags[k]) else Get(s.base, k))
  {
    var e := TagEvent(Diff(s.live, s.live + tags), s.live + tags);
    forall k ensures k in e.changed <==> Changes(s.live, tags, k) {}
    if k :| Changes(s.live, tags, k) { assert k in e.changed; }
  }

  // What judging the event of the write finds: the overruled keys it is about.
  lemma WriteDrift(env: Env, s: State, tags: TagMap, flags: seq<bool>, u: State, e: TagEvent)
    requires Unsettled(env, s.base, s.queue) == 0 && |s.queue| < |flags| && env.mode != Off
    requires JudgedUpTo(env, s, tags, flags, |s.queue|, u)
    requires e == TagEvent(Diff(s.live, s.live + tags), s.live + tags)
    ensures forall k :: k in DriftKeys(u.base, env.protected, e) <==>
        Changes(s.live, tags, k) && Overruled(env, s.queue, tags, flags, |s.queue|, k)
    ensures u.base + Learned(u.base, env.protected, e) == u.base
  {
    WriteEvent(env, s, tags);
    hide Next, Unsettled, Overruled;
    var t, n := Next(env, s, AppWrite(Tag(tags))), |s.queue|;
    forall k ensures k in DriftKeys(u.base, env.protected, e) <==>
        Changes(s.live, tags, k) && Overruled(env, s.queue, tags, flags, n, k) {
      if Overruled(env, s.queue, tags, flags, n, k) { OverruledHadValue(env, s, tags, flags, n, k); }
      assert Get(u.base, k) == Get(if Overruled(env, s.queue, tags, flags, n, k) then s.base else t.base, k);
    }
    forall k | k in e.changed && k in env.protected ensures k in u.base {
      if Overruled(env, s.queue, tags, flags, n, k) { OverruledHadValue(env, s, tags, flags, n, k); }
      assert Get(u.base, k) == Get(if Overruled(env, s.queue, tags, flags, n, k) then s.base else t.base, k);
    }
  }

  // Judging the last event, which teaches nothing: a revert puts baseline values back, an exemption accepts those of
  // the event.
  lemma LastJudged(env: Env, u: State, e: TagEvent, exempt: bool)
    requires u.queue == [e] && env.mode != Off && u.base + Learned(u.base, env.protected, e) == u.base
    ensures var v, drift := Next(env, u, Handle(exempt, true)), DriftKeys(u.base, env.protected, e);
      && |v.queue| <= 1 && Unsettled(env, v.base, v.queue) == 0
      && (forall k :: Get(v.live, k) ==
            if env.mode == Revert && !exempt && k in drift then Get(u.base, k) else Get(u.live, k))
      && (forall k :: Get(v.base, k) == if exempt && k in drift then Get(e.tags, k) else Get(u.base, k))
  {
    var drift := DriftKeys(u.base, env.protected, e);
    var back := Written(u.live, Tag(Expected(u.base, drift)));
    RevertIsSettled(env, u.live, u.base, u.base, drift);
    EmitCounts(env, State(u.live, u.base, []), back);
    forall k ensures Get(back, k) == if k in drift then Get(u.base, k) else Get(u.live, k) {
      RevertedKey(u.live, u.base, drift, k);
    }
    forall k ensures Get(Accepted(u.base, drift, e.tags), k) == if k in drift then Get(e.tags, k) else Get(u.base, k) {
      HandledBase(u.base, env.protected, e, k);
    }
    hide Written, Expected, DriftKeys, Learned, Diff, Settled, Accepted;
  }

  lemma WriteJudgedAt(env: Env, s: State, tags: TagMap, flags: seq<bool>, u: State, e: TagEvent, v: State, k: string)
    requires |s.queue| < |flags| && e.tags == s.live + tags
    requires JudgedUpTo(env, s, tags, flags, |s.queue|, u)
    requires var n, t := |s.queue|, Next(env, s, AppWrite(Tag(tags)));
      var drift := Changes(s.live, tags, k) && Overruled(env, s.queue, tags, flags, n, k);
      && Get(v.live, k) == (if env.mode == Revert && !flags[n] && drift then Get(u.base, k) else Get(u.live, k))
      && Get(v.base, k) == (if env.mode != Off && flags[n] && drift then Get(e.tags, k) else Get(u.base, k))
    ensures LeftAt(env, s, tags, flags, v, k)
  {
    WriteEvent(env, s, tags);
    assert Overruled(env, s.queue, tags, flags, |s.queue|, k) ==> k in tags && k in env.protected;
    hide Next, Overruled;
  }

  lemma WriteJudged(env: Env, s: State, tags: TagMap, flags: seq<bool>, u: State)
    requires Unsettled(env, s.base, s.queue) == 0 && |s.queue| < |flags|
    requires JudgedUpTo(env, s, tags, flags, |s.queue|, u) && u.queue != []
    ensures var v := Next(env, u, Handle(flags[|s.queue|], true));
      Left(env, s, tags, flags, v) && |v.queue| <= 1 && Unsettled(env, v.base, v.queue) == 0
  {
    var n, e := |s.queue|, TagEvent(Diff(s.live, s.live + tags), s.live + tags);
    WriteEvent(env, s, tags);
    assert u.queue == [e];
    if env.mode != Off {
      WriteDrift(env, s, tags, flags, u, e);
      LastJudged(env, u, e, flags[n]);
    }
    var v := Next(env, u, Handle(flags[n], true));
    hide Next, Unsettled, DriftKeys, Learned, Diff, Overruled, JudgedUpTo, LeftAt, Changes, Get;
    forall k ensures LeftAt(env, s, tags, flags, v, k) { WriteJudgedAt(env, s, tags, flags, u, e, v, k); }
  }

  // A settled event is no drift, exempt or not.
  lemma SettledJudged(env: Env, s: State, exempt: bool)
    requires |s.queue| <= 1 && Unsettled(env, s.base, s.queue) == 0
    ensures Next(env, s, Handle(exempt, true)) == s.(queue := [])
  {
    if s.queue != [] {
      SettledIn(env, s.base, s.queue, 0);
      SettledIsQuiet(env, s.base, s.queue[0]);
    }
  }

  // Without an event of its own the write changed nothing.
  lemma NothingWritten(env: Env, s: State, tags: TagMap, flags: seq<bool>, u: State)
    requires |s.queue| < |flags| && JudgedUpTo(env, s, tags, flags, |s.queue|, u)
    requires |Next(env, s, AppWrite(Tag(tags))).queue| == |s.queue|
    ensures Left(env, s, tags, flags, u) && u.queue == []
  {
    WriteEvent(env, s, tags);
    hide Next, Overruled;
    forall k ensures LeftAt(env, s, tags, flags, u, k) { assert !Changes(s.live, tags, k); }
  }

  lemma LastTwo(env: Env, t: State, flags: seq<bool>, n: nat)
    requires n + 1 <= |flags| <= n + 2
    ensures var u := Next(env, Exec(env, t, Judged(flags[..n])), Handle(flags[n], true));
      Exec(env, t, Judged(flags)) == if |flags| == n + 1 then u else Next(env, u, Handle(flags[n + 1], true))
  {
    JudgedNext(env, t, flags, n);
    if |flags| == n + 2 { JudgedNext(env, t, flags, n + 1); }
    assert flags[..|flags|] == flags;
  }

  lemma LeftByParts(env: Env, s: State, tags: TagMap, flags: seq<bool>, u: State, v: State)
    requires |s.queue| < |flags| && Left(env, s, tags, flags, u) && v.live == u.live && v.base == u.base
    ensures Left(env, s, tags, flags, v)
  {
    hide Next, Overruled, Changes;
    forall k ensures LeftAt(env, s, tags, flags, v, k) { assert LeftAt(env, s, tags, flags, u, k); }
  }

  lemma QueueLength(env: Env, s: State, tags: TagMap)
    ensures |s.queue| <= |Next(env, s, AppWrite(Tag(tags))).queue| <= |s.queue| + 1
  {
    WriteEvent(env, s, tags);
    hide Next;
  }

  /** What every mix of exempt and other events leaves of tags the app set while only settled events were pending, once
      everything is handled. A key keeps its new value unless an exempt event overruled it; then the old value is the
      accepted one, and unless the event of the write is exempt as well, it is put back. */
  lemma OwnWriteJudged(env: Env, s: State, tags: TagMap, flags: seq<bool>)
    requires Unsettled(env, s.base, s.queue) == 0
    requires |flags| == |Next(env, s, AppWrite(Tag(tags))).queue| + 1
    ensures |s.queue| < |flags|
    ensures var u := Exec(env, Next(env, s, AppWrite(Tag(tags))), Judged(flags));
      u.queue == [] && Left(env, s, tags, flags, u)
  {
    var t, n := Next(env, s, AppWrite(Tag(tags))), |s.queue|;
    QueueLength(env, s, tags);
    JudgedSoFar(env, s, tags, flags, n);
    LastTwo(env, t, flags, n);
    var u := Exec(env, t, Judged(flags[..n]));
    assert u.queue == t.queue[n..];
    if |t.queue| > n {
      hide Next, Exec, Judged, Unsettled, Left, JudgedUpTo;
      WriteJudged(env, s, tags, flags, u);
      var v := Next(env, u, Handle(flags[n], true));
      SettledJudged(env, v, flags[n + 1]);
      LeftByParts(env, s, tags, flags, v, v.(queue := []));
    } else {
      hide Exec, Judged, Unsettled, Left, JudgedUpTo;
      NothingWritten(env, s, tags, flags, u);
    }
  }

  lemma LeftDiffers(env: Env, s: State, tags: TagMap, flags: seq<bool>, u: State, k: string)
    requires env.mode == Revert && Unsettled(env, s.base, s.queue) == 0 && |s.queue| < |flags|
    requires LeftAt(env, s, tags, flags, u, k)
    ensures var t, overruled := Next(env, s, AppWrite(Tag(tags))), Overruled(env, s.queue, tags, flags, |s.queue|, k);
      && (Get(u.live, k) == Get(t.live, k) <==> !overruled || !Changes(s.live, tags, k) || flags[|s.queue|])
      && (Get(u.base, k) == Get(t.base, k) <==> !overruled || (Changes(s.live, tags, k) && flags[|s.queue|]))
  {
    WriteEvent(env, s, tags);
    hide Next, Unsettled, Overruled;
    if Overruled(env, s.queue, tags, flags, |s.queue|, k) { OverruledHadValue(env, s, tags, flags, |s.queue|, k); }
  }

  /** So the write survives as it was, live and in the baseline, exactly when every overruled key is one that the write
      changed, and the event of the write is exempt; its live tags survive exactly when that event is exempt or no
      overruled key was changed. */
  lemma OwnWriteSurvivesExactly(env: Env, s: State, tags: TagMap, flags: seq<bool>)
    requires env.mode == Revert && Unsettled(env, s.base, s.queue) == 0
    requires |flags| == |Next(env, s, AppWrite(Tag(tags))).queue| + 1 && |s.queue| < |flags|
    ensures var t, n := Next(env, s, AppWrite(Tag(tags))), |s.queue|;
      var u := Exec(env, t, Judged(flags));
      && (u == t.(queue := []) <==>
            forall k :: Overruled(env, s.queue, tags, flags, n, k) ==> Changes(s.live, tags, k) && flags[n])
      && (u.live == t.live <==>
            forall k :: Overruled(env, s.queue, tags, flags, n, k) && Changes(s.live, tags, k) ==> flags[n])
  {
    var t, n := Next(env, s, AppWrite(Tag(tags))), |s.queue|;
    var u := Exec(env, t, Judged(flags));
    OwnWriteJudged(env, s, tags, flags);
    hide Next, Exec, Unsettled, Overruled, Judged, Changes, LeftAt, Get;
    forall k
      ensures Get(u.live, k) == Get(t.live, k) <==>
        !Overruled(env, s.queue, tags, flags, n, k) || !Changes(s.live, tags, k) || flags[n]
      ensures Get(u.base, k) == Get(t.base, k) <==>
        !Overruled(env, s.queue, tags, flags, n, k) || (Changes(s.live, tags, k) && flags[n])
    {
      LeftDiffers(env, s, tags, flags, u, k);
    }
    MapsByGets(u.live, t.live);
    MapsByGets(u.base, t.base);
  }

  lemma MapsByGets(a: TagMap, b: TagMap)
    ensures a == b <==> forall k :: Get(a, k) == Get(b, k)
  {
    if forall k :: Get(a, k) == Get(b, k) { SameGets(a, b); }
  }

  /** The app sets a protected key twice. The event of the first write is judged exempt, which accepts the first value
      again; the event of the second is not, and auto-revert then undoes the second write. */
  lemma ExemptionUndoesOwnWrite(k: string, v: string, w: string)
    requires v != w
    ensures var env, empty := Env(Revert, {k}), State(map[], map[], []);
      var s := Next(env, empty, AppWrite(Tag(map[k := v])));
      var t := Next(env, s, AppWrite(Tag(map[k := w])));
      var u := Exec(env, t, Judged([true, false, false]));
      && Unsettled(env, s.base, s.queue) == 0
      && Get(t.live, k) == Get(t.base, k) == Some(w)
      && Get(u.live, k) == Get(u.base, k) == Some(v) && u.queue == []
  {
    var env, empty := Env(Revert, {k}), State(map[], map[], []);
    AppWriteCounts(env, empty, Tag(map[k := v]));
    WriteEvent(env, empty, map[k := v]);
    assert Changes(empty.live, map[k := v], k);
    var s, flags := Next(env, empty, AppWrite(Tag(map[k := v]))), [true, false, false];
    WriteEvent(env, s, map[k := w]);
    hide Next, Exec, Judged, Unsettled;
    assert Changes(s.live, map[k := w], k);
    assert flags[0] && k in s.queue[0].changed && Get(s.queue[0].tags, k) == Some(v);
    assert Overruled(env, s.queue, map[k := w], flags, 1, k);
    OwnWriteJudged(env, s, map[k := w], flags);
    assert LeftAt(env, s, map[k := w], flags, Exec(env, Next(env, s, AppWrite(Tag(map[k := w]))), Judged(flags)), k);
  }
}
