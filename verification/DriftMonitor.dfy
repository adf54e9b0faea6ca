/** The drift detector and the baseline scan, as they act on the cloud, proved against the machine of `Drift`. */
module DriftMonitors {
  import opened Wrappers
  import opened TagStore
  import opened Drift
  import opened DriftLaws

  datatype Status = Disabled | InvalidEvent | NoProtectedChange | NoDrift | Exempt | Detected | Reverted | RevertFailed

  // What comes of an event about protected keys.
  function Verdict(mode: Mode, drift: set<string>, exempt: bool, ok: bool): Status {
    if drift == {} then NoDrift
    else if exempt then Exempt
    else if mode != Revert then Detected
    else if ok then Reverted else RevertFailed
  }

  // The baseline of `a` after a scan has listed `resources`, from `base`.
  function SeededFrom(base: TagMap, protected: set<string>, resources: seq<(string, TagMap)>, a: string): TagMap {
    if resources == [] then base
    else
      var (arn, tags) := resources[|resources| - 1];
      var b := SeededFrom(base, protected, resources[..|resources| - 1], a);
      if arn == a && arn != "" then Seeded(b, protected, tags) else b
  }

  // The first listed value of `k` on `a`.
  function FirstSeen(resources: seq<(string, TagMap)>, a: string, k: string): Option<string> {
    if resources == [] then None
    else if FirstSeen(resources[..|resources| - 1], a, k).Some? then FirstSeen(resources[..|resources| - 1], a, k)
    else if resources[|resources| - 1].0 == a && a != "" then Get(resources[|resources| - 1].1, k)
    else None
  }

  /** A scan never changes a baseline entry; a missing protected key gets the first value listed for it. */
  lemma {:induction false} ScanOnlyFillsGaps(base: TagMap, protected: set<string>, resources: seq<(string, TagMap)>,
                                             a: string,
                                             k: string)
    ensures Get(SeededFrom(base, protected, resources, a), k) ==
            if k in base then Some(base[k]) else if k in protected then FirstSeen(resources, a, k) else None
  {
    if resources != [] { ScanOnlyFillsGaps(base, protected, resources[..|resources| - 1], a, k); }
  }

  class DriftMonitor {
    const cloud: Cloud
    const mode: Mode
    const place: string -> Place

    constructor (cloud: Cloud, mode: Mode, place: string -> Place)
      ensures this.cloud == cloud && this.mode == mode && this.place == place
    {
      this.cloud := cloud;
      this.mode := mode;
      this.place := place;
    }

    method SeedOne(arn: string, tags: TagMap) returns (changed: bool)
      modifies cloud`baseline
      ensures Of(cloud.baseline, arn) == Seeded(old(Of(cloud.baseline, arn)), cloud.protected, tags)
      ensures forall a :: a != arn ==> Of(cloud.baseline, a) == old(Of(cloud.baseline, a))
      ensures !changed ==> cloud.baseline == old(cloud.baseline)
    {
      var base := Of(cloud.baseline, arn);
      var missing := map k | k in tags && k in cloud.protected && k !in base :: tags[k];
      if missing != map[] {
        cloud.baseline := cloud.baseline[arn := base + missing];
        return true;
      }
      NothingMissing(base, cloud.protected, tags);
      return false;
    }

    method SeedBaselines(resources: seq<(string, TagMap)>) returns (updated: nat)
      modifies cloud`baseline
      ensures mode == Off ==> updated == 0 && cloud.baseline == old(cloud.baseline)
      ensures mode != Off ==> forall a ::
                Of(cloud.baseline, a) == SeededFrom(old(Of(cloud.baseline, a)), cloud.protected, resources, a)
      ensures updated == 0 ==> cloud.baseline == old(cloud.baseline)
      ensures updated <= |resources|
    {
      hide Seeded, Of;
      updated := 0;
      if mode == Off { return; }
      var i := 0;
      while i < |resources|
        invariant i <= |resources| && updated <= i
        invariant forall a ::
          Of(cloud.baseline, a) == SeededFrom(old(Of(cloud.baseline, a)), cloud.protected, resources[..i], a)
        invariant updated == 0 ==> cloud.baseline == old(cloud.baseline)
      {
        var (arn, tags) := resources[i];
        assert resources[..i + 1][..i] == resources[..i];
        if arn != "" {
          var changed := SeedOne(arn, tags);
          if changed { updated := updated + 1; }
        }
        i := i + 1;
      }
      assert resources[..i] == resources;
    }

    /** Handles one change event: nothing but the event's own resource is touched, and that as the machine says. */
    method HandleTagChangeEvent(arn: string, e: TagEvent, exempt: bool, failing: set<string>) returns (status: Status)
      modifies cloud
      ensures status == if mode == Off then Disabled else if arn == "" then InvalidEvent
                        else if e.changed * cloud.protected == {} then NoProtectedChange
                        else Verdict(mode, DriftKeys(old(Of(cloud.baseline, arn)), cloud.protected, e), exempt,
                                     arn !in failing)
      ensures status in {Disabled, InvalidEvent, NoProtectedChange} ==>
                && cloud.live == old(cloud.live) && cloud.baseline == old(cloud.baseline)
                && cloud.calls == old(cloud.calls)
      ensures forall a :: a != arn ==>
                Of(cloud.live, a) == old(Of(cloud.live, a)) && Of(cloud.baseline, a) == old(Of(cloud.baseline, a))
      ensures arn != "" ==>
        var s := State(old(Of(cloud.live, arn)), old(Of(cloud.baseline, arn)), [e]);
        var t := HandleHead(Env(mode, cloud.protected), s, exempt, arn !in failing);
        && Of(cloud.live, arn) == t.live && Of(cloud.baseline, arn) == t.base
        && (status == Reverted <==> Reverts(Env(mode, cloud.protected), s, Handle(exempt, arn !in failing)))
      ensures arn != "" ==>
        HandledRight(Env(mode, cloud.protected), e, exempt, arn !in failing, old(Of(cloud.live, arn)),
                     old(Of(cloud.baseline, arn)), Of(cloud.live, arn), Of(cloud.baseline, arn))
      ensures var drifted := AnyDrift(cloud.protected, e, old(Of(cloud.baseline, arn)));
        && (status == Disabled <==> mode == Off)
        && (status == InvalidEvent <==> mode != Off && arn == "")
        && (status == NoProtectedChange <==>
              mode != Off && arn != "" && forall k :: k in e.changed ==> k !in cloud.protected)
        && (status == Exempt <==> mode != Off && arn != "" && drifted && exempt)
        && (status == Detected <==> mode == Detect && arn != "" && drifted && !exempt)
        && (status == Reverted <==> mode == Revert && arn != "" && drifted && !exempt && arn !in failing)
        && (status == RevertFailed <==> mode == Revert && arn != "" && drifted && !exempt && arn in failing)
    {
      ghost var s := State(Of(cloud.live, arn), Of(cloud.baseline, arn), [e]);
      HandledMeans(Env(mode, cloud.protected), s, exempt, arn !in failing);
      if mode == Off { return Disabled; }
      if arn == "" { return InvalidEvent; }
      HandledParts(Env(mode, cloud.protected), s, exempt, arn !in failing);
      DriftKeysMean(cloud.protected, e, s.base);
      NothingProtected(s.base, cloud.protected, e);
      hide HandledRight, AnyDrift, HandleHead, Learned, DriftKeys, Expected, Accepted, Written, Of;
      if e.changed * cloud.protected == {} { return NoProtectedChange; }
      status := JudgeAndAct(arn, e, exempt, failing);
    }

    /** The revert is one call for this resource alone, with the baseline values of the drifted keys. */
    method JudgeAndAct(arn: string, e: TagEvent, exempt: bool, failing: set<string>) returns (status: Status)
      requires mode != Off
      modifies cloud
      ensures var base := old(Of(cloud.baseline, arn));
        var drift, learnt := DriftKeys(base, cloud.protected, e), base + Learned(base, cloud.protected, e);
        && status == Verdict(mode, drift, exempt, arn !in failing)
        && Of(cloud.baseline, arn) == (if drift != {} && exempt then Accepted(learnt, drift, e.tags) else learnt)
        && Of(cloud.live, arn) ==
            (if status == Reverted then Written(old(Of(cloud.live, arn)), Tag(Expected(base, drift)))
                                   else old(Of(cloud.live, arn)))
        && cloud.calls == if status in {Reverted, RevertFailed}
                          then old(cloud.calls) + [Call(place(arn), Tag(Expected(base, drift)), [arn])]
                          else old(cloud.calls)
      ensures forall a :: a != arn ==>
                Of(cloud.live, a) == old(Of(cloud.live, a)) && Of(cloud.baseline, a) == old(Of(cloud.baseline, a))
    {
      hide Learned, DriftKeys, Expected, Accepted, Written;
      var base := Of(cloud.baseline, arn);
      var learned, drift := Judge(base, cloud.protected, e);
      var expected := Expected(base, drift);
      if learned != map[] { cloud.baseline := cloud.baseline[arn := base + learned]; }
      assert Of(cloud.baseline, arn) == base + learned;
      if drift == {} { return NoDrift; }
      status := ActOnDrift(arn, base + learned, drift, expected, e.tags, exempt, failing);
    }

    method ActOnDrift(arn: string, base: TagMap, drift: set<string>, expected: TagMap, tags: TagMap, exempt: bool,
                      failing: set<string>)
      returns (status: Status)
      requires mode != Off && Of(cloud.baseline, arn) == base
      modifies cloud
      ensures status == if exempt then Exempt else if mode == Detect then Detected
                        else if arn in failing then RevertFailed else Reverted
      ensures forall a :: a != arn ==>
                Of(cloud.live, a) == old(Of(cloud.live, a)) && Of(cloud.baseline, a) == old(Of(cloud.baseline, a))
      ensures Of(cloud.baseline, arn) == if exempt then Accepted(base, drift, tags) else base
      ensures Of(cloud.live, arn) ==
              if status == Reverted then Written(old(Of(cloud.live, arn)), Tag(expected)) else old(Of(cloud.live, arn))
      ensures cloud.calls == if status in {Reverted, RevertFailed}
                             then old(cloud.calls) + [Call(place(arn), Tag(expected), [arn])] else old(cloud.calls)
    {
      hide Accepted, Written;
      if exempt {
        var accepted := AcceptDrift(base, drift, tags);
        cloud.baseline := cloud.baseline[arn := accepted];
        return Exempt;
      }
      if mode == Revert {
        var failed := cloud.Send(place(arn), Tag(expected), [arn], failing);
        return if arn in failed then RevertFailed else Reverted;
      }
      return Detected;
    }
  }

  method Judge(base: TagMap, protected: set<string>, e: TagEvent) returns (learned: TagMap, drift: set<string>)
    ensures learned == Learned(base, protected, e) && drift == DriftKeys(base, protected, e)
  {
    var changed := e.changed * protected;
    learned := map k | k in changed && k !in base && k in e.tags :: e.tags[k];
    drift := set k | k in changed && k in base && Get(e.tags, k) != Some(base[k]);
  }

  // The new live tags and the new baseline.
  lemma HandledParts(env: Env, s: State, exempt: bool, ok: bool)
    requires s.queue != [] && env.mode != Off
    ensures var drift := DriftKeys(s.base, env.protected, s.queue[0]);
      var learnt := s.base + Learned(s.base, env.protected, s.queue[0]);
      && HandleHead(env, s, exempt, ok).base ==
         (if drift != {} && exempt then Accepted(learnt, drift, s.queue[0].tags) else learnt)
      && HandleHead(env, s, exempt, ok).live ==
         if Reverts(env, s, Handle(exempt, ok)) then Written(s.live, Tag(Expected(s.base, drift))) else s.live
  {}

  lemma AcceptedNext(base: TagMap, done: set<string>, tags: TagMap, k: string)
    ensures Accepted(base, {}, tags) == base
    ensures Accepted(base, done + {k}, tags) ==
            if k in tags then Accepted(base, done, tags)[k := tags[k]] else Accepted(base, done, tags) - {k}
  {}

  method AcceptDrift(base: TagMap, drift: set<string>, tags: TagMap) returns (b: TagMap)
    ensures b == Accepted(base, drift, tags)
  {
    hide Accepted;
    b := base;
    var rest := drift;
    AcceptedNext(base, {}, tags, "");
    assert drift - drift == {};
    while rest != {}
      invariant rest <= drift && b == Accepted(base, drift - rest, tags)
      decreases rest
    {
      var k :| k in rest;
      AcceptedNext(base, drift - rest, tags, k);
      assert drift - (rest - {k}) == drift - rest + {k};
      b := if k in tags then b[k := tags[k]] else b - {k};
      rest := rest - {k};
    }
    assert drift - {} == drift;
  }

  lemma NothingMissing(base: TagMap, protected: set<string>, tags: TagMap)
    requires (map k | k in tags && k in protected && k !in base :: tags[k]) == map[]
    ensures Seeded(base, protected, tags) == base
  {}

  lemma NothingProtected(base: TagMap, protected: set<string>, e: TagEvent)
    ensures e.changed * protected == {} ==>
              DriftKeys(base, protected, e) == {} && base + Learned(base, protected, e) == base
    ensures e.changed * protected == {} <==> forall k :: k in e.changed ==> k !in protected
  {
    assert forall k :: k in e.changed * protected <==> k in e.changed && k in protected;
  }
}
