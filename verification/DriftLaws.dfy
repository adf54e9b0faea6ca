/** What one handled change event does to every key, said in terms of the event, the baseline and the live tags. */
module DriftLaws {
  import opened Wrappers
  import opened TagStore
  import opened Drift

  // The event tells that a protected key with a baseline value has another value, or none.
  predicate Drifted(protected: set<string>, e: TagEvent, base: TagMap, k: string) {
    k in e.changed && k in protected && k in base && !(k in e.tags && e.tags[k] == base[k])
  }

  // The event tells the value of a protected key that has no baseline value yet.
  predicate NewlySeen(protected: set<string>, e: TagEvent, base: TagMap, k: string) {
    k in e.changed && k in protected && k !in base && k in e.tags
  }

  predicate AnyDrift(protected: set<string>, e: TagEvent, base: TagMap) {
    exists k :: k in base && Drifted(protected, e, base, k)
  }

  // Only drifted keys are put back, and only in revert mode, without an exemption, by a call that works; only new keys
  // are learnt, and drifted ones accepted under an exemption.
  ghost predicate HandledRight(env: Env, e: TagEvent, exempt: bool, ok: bool, live: TagMap, base: TagMap,
                               live': TagMap, base': TagMap)
  {
    forall k ::
      && Get(live', k) == (if env.mode == Revert && !exempt && ok && Drifted(env.protected, e, base, k)
                           then Get(base, k) else Get(live, k))
      && Get(base', k) == (if env.mode != Off && ((exempt && Drifted(env.protected, e, base, k)) ||
                                                  NewlySeen(env.protected, e, base, k))
                           then Get(e.tags, k) else Get(base, k))
  }

  lemma DriftKeysMean(protected: set<string>, e: TagEvent, base: TagMap)
    ensures forall k :: k in DriftKeys(base, protected, e) <==> Drifted(protected, e, base, k)
    ensures DriftKeys(base, protected, e) != {} <==> AnyDrift(protected, e, base)
  {
    if k :| k in base && Drifted(protected, e, base, k) { assert k in DriftKeys(base, protected, e); }
    if DriftKeys(base, protected, e) != {} {
      var k :| k in DriftKeys(base, protected, e);
      assert Drifted(protected, e, base, k);
    }
  }

  lemma LearnedMean(protected: set<string>, e: TagEvent, base: TagMap, k: string)
    ensures Get(base + Learned(base, protected, e), k) ==
            if NewlySeen(protected, e, base, k) then Get(e.tags, k) else Get(base, k)
  {}

  /** What handling an event leaves of every live tag and every baseline value. */
  lemma HandledMeans(env: Env, s: State, exempt: bool, ok: bool)
    requires s.queue != []
    ensures var t := HandleHead(env, s, exempt, ok);
      HandledRight(env, s.queue[0], exempt, ok, s.live, s.base, t.live, t.base)
  {
    var e, t := s.queue[0], HandleHead(env, s, exempt, ok);
    DriftKeysMean(env.protected, e, s.base);
    forall k
      ensures Get(t.live, k) == (if env.mode == Revert && !exempt && ok && Drifted(env.protected, e, s.base, k)
                                 then Get(s.base, k) else Get(s.live, k))
      ensures Get(t.base, k) == (if env.mode != Off && ((exempt && Drifted(env.protected, e, s.base, k)) ||
                                                        NewlySeen(env.protected, e, s.base, k))
                                 then Get(e.tags, k) else Get(s.base, k))
    {
      LearnedMean(env.protected, e, s.base, k);
      assert k in DriftKeys(s.base, env.protected, e) <==> Drifted(env.protected, e, s.base, k);
      hide Learned, DriftKeys;
    }
  }
}
