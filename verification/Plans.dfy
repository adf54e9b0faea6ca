/** Planning a change set against live tags, and the token that pins a plan. */
module Plans {
  import opened Wrappers
  import opened Governance
  import opened GovernanceEngine
  import opened Compliance
  import opened TagStore
  import opened Targets

  // The order in which the tagging API lists the tags of a resource.
  type Listing = TagMap -> Tags

  ghost predicate Lists(t: Tags, m: TagMap) {
    Dict(t) && forall k :: Lookup(t, k) == Get(m, k)
  }

  ghost predicate Faithful(list: Listing) {
    forall m :: Lists(list(m), m)
  }

  datatype Settings = Settings(cfg: Config, mandatory: seq<string>, limit: nat)

  datatype PlanItem = PlanItem(
    arn: string, changes: Tags, before: TagMap, skipped: map<string, (string, string)>, invalid: seq<Violation>,
    compliantBefore: bool, compliantAfter: bool, remaining: seq<Violation>)

  // The values the changed keys have now; a key without one is left out.
  function Prior(ch: Tags, cur: Tags): TagMap {
    if ch == [] then map[]
    else
      var k := ch[|ch| - 1].0;
      if Has(cur, k) then Prior(ch[..|ch| - 1], cur)[k := Lookup(cur, k).value] else Prior(ch[..|ch| - 1], cur)
  }

  function Skipped(norm: Tags, cur: Tags, overwrite: bool): map<string, (string, string)> {
    if norm == [] then map[]
    else
      var rest := Skipped(norm[..|norm| - 1], cur, overwrite);
      var (k, v) := norm[|norm| - 1];
      if Lookup(cur, k) != Some(v) && Has(cur, k) && !overwrite then rest[k := (Lookup(cur, k).value, v)] else rest
  }

  /** A key is skipped exactly when it has another value that may not be overwritten; both values are reported. */
  lemma {:induction false} SkippedMeans(norm: Tags, cur: Tags, overwrite: bool, k: string)
    requires Dict(norm)
    ensures k in Skipped(norm, cur, overwrite) <==>
        Has(norm, k) && Has(cur, k) && Lookup(cur, k) != Lookup(norm, k) && !overwrite
    ensures k in Skipped(norm, cur, overwrite) ==>
              Skipped(norm, cur, overwrite)[k] == (Lookup(cur, k).value, Lookup(norm, k).value)
  {
    if norm != [] {
      LastIsNew(norm);
      SkippedMeans(norm[..|norm| - 1], cur, overwrite, k);
    }
  }

  // `p` is the plan for giving `wanted` to a resource whose tags are `cur`.
  ghost predicate PlanFor(s: Settings, arn: string, wanted: Tags, cur: Tags, overwrite: bool, p: PlanItem) {
    && p.arn == arn
    && p.changes == Changes(Norm(s.cfg, wanted), cur, overwrite)
    && p.before == Prior(p.changes, cur)
    && p.skipped == Skipped(Norm(s.cfg, wanted), cur, overwrite)
    && (forall v :: v in p.invalid <==> Violates(s.cfg, wanted, [], true, v))
    && (p.compliantBefore <==> forall v :: !Violates(s.cfg, cur, s.mandatory, false, v))
    && (forall v :: v in p.remaining <==> Violates(s.cfg, After(s.cfg, wanted, cur, overwrite), s.mandatory, false, v))
    && (p.compliantAfter <==> p.remaining == [])
  }

  lemma {:induction false} NormIsSome(cfg: Config, t: Tags)
    requires t != []
    ensures Norm(cfg, t) != []
  {
    if |t| > 1 { NormIsSome(cfg, t[..|t| - 1]); }
  }

  lemma {:induction false} UpdateDict(t: Tags, ch: Tags)
    requires Dict(t)
    ensures Dict(Update(t, ch))
  {
    if ch != [] {
      UpdateDict(t, ch[..|ch| - 1]);
      PutDict(Update(t, ch[..|ch| - 1]), ch[|ch| - 1].0, ch[|ch| - 1].1);
    }
  }

  lemma EmptyMeansNone(vs: seq<Violation>)
    ensures vs == [] <==> forall v :: v !in vs
  {
    if vs != [] {
      var v := vs[0];
      assert v in vs;
    }
  }

  method PlanChanges(norm: Tags, cur: Tags, overwrite: bool)
    returns (changes: Tags, before: TagMap, skipped: map<string, (string, string)>)
    ensures changes == Changes(norm, cur, overwrite) && before == Prior(changes, cur)
    ensures skipped == Skipped(norm, cur, overwrite)
  {
    changes, before, skipped := [], map[], map[];
    var i := 0;
    while i < |norm|
      invariant i <= |norm| && changes == Changes(norm[..i], cur, overwrite)
      invariant before == Prior(changes, cur) && skipped == Skipped(norm[..i], cur, overwrite)
    {
      var (k, v) := norm[i];
      assert norm[..i + 1][..i] == norm[..i];
      if Lookup(cur, k) == Some(v) {
      } else if Has(cur, k) && !overwrite {
        skipped := skipped[k := (Lookup(cur, k).value, v)];
      } else {
        assert (changes + [(k, v)])[..|changes|] == changes;
        if Has(cur, k) { before := before[k := Lookup(cur, k).value]; }
        changes := changes + [(k, v)];
      }
      i := i + 1;
    }
    assert norm[..i] == norm;
  }

  method Updated(cur: Tags, changes: Tags) returns (after: Tags)
    ensures after == Update(cur, changes)
  {
    hide Put;
    after := cur;
    var j := 0;
    while j < |changes|
      invariant j <= |changes| && after == Update(cur, changes[..j])
    {
      assert changes[..j + 1][..j] == changes[..j];
      after := Put(after, changes[j].0, changes[j].1);
      j := j + 1;
    }
    assert changes[..j] == changes;
  }

  method PlanOne(s: Settings, arn: string, wanted: Tags, cur: Tags, overwrite: bool) returns (p: PlanItem)
    requires Dict(s.cfg.rules) && Dict(wanted) && wanted != [] && Dict(cur)
    ensures PlanFor(s, arn, wanted, cur, overwrite, p)
  {
    hide Norm, Violates, Changes, Update, Prior, Skipped;
    var validation := Evaluate(s.cfg, wanted, [], true);
    var norm := if validation.normalized != [] then validation.normalized else wanted;
    NormIsSome(s.cfg, wanted);
    var changes, before, skipped := PlanChanges(norm, cur, overwrite);
    var after := Updated(cur, changes);
    UpdateDict(cur, changes);
    var beforeEval := Evaluate(s.cfg, cur, s.mandatory, false);
    var afterEval := Evaluate(s.cfg, after, s.mandatory, false);
    EmptyMeansNone(beforeEval.violations);
    p := PlanItem(arn, changes, before, skipped, validation.violations, beforeEval.compliant, afterEval.compliant,
                  afterEval.violations);
  }

  // A plan for `m`, one item per resource, in order.
  ghost predicate PlanOf(s: Settings, m: Merged, live: Live, list: Listing, overwrite: bool, plan: seq<PlanItem>) {
    |plan| == |m| &&
    forall i :: 0 <= i < |m| ==> PlanFor(s, m[i].0, m[i].1, list(Of(live, m[i].0)), overwrite, plan[i])
  }

  method BuildPlan(s: Settings, targets: seq<Target>, overwrite: bool, cloud: Cloud, list: Listing)
    returns (r: Result<seq<PlanItem>>)
    requires Dict(s.cfg.rules) && Faithful(list)
    ensures r == Err(TooManyResources) <==> |targets| > s.limit
    ensures r == Err(InvalidRequest) <==>
            |targets| == 0 ||
            (|targets| <= s.limit && exists i :: 0 <= i < |targets| && BadTarget(s.cfg.lower, targets[i]))
    ensures r.Err? ==> r.error in {TooManyResources, InvalidRequest}
    ensures r.Ok? ==> PlanOf(s, Merge(targets), cloud.live, list, overwrite, r.value)
  {
    hide PlanFor, Merge;
    var merged := ValidateTargets(targets, s.limit, s.cfg.lower);
    if merged.Err? { return Err(merged.error); }
    MergeMeans(targets, "", "");
    var m, plan, i := merged.value, [], 0;
    while i < |m|
      invariant i <= |m| && |plan| == i
      invariant forall k :: 0 <= k < i ==> PlanFor(s, m[k].0, m[k].1, list(Of(cloud.live, m[k].0)), overwrite, plan[k])
    {
      assert Lists(list(Of(cloud.live, m[i].0)), Of(cloud.live, m[i].0));
      var p := PlanOne(s, m[i].0, m[i].1, list(Of(cloud.live, m[i].0)), overwrite);
      plan := plan + [p];
      i := i + 1;
    }
    return Ok(plan);
  }

  /** For a valid item whose changes are all safe, a compliant resource stays compliant. */
  lemma PlanKeepsCompliance(s: Settings, arn: string, wanted: Tags, cur: Tags, overwrite: bool, p: PlanItem)
    requires Dict(cur) && PlanFor(s, arn, wanted, cur, overwrite, p)
    requires p.invalid == [] && p.compliantBefore && SafeChanges(s.cfg, cur, s.mandatory, p.changes)
    ensures p.compliantAfter
  {
    forall v ensures !Violates(s.cfg, wanted, [], true, v) { assert v !in p.invalid; }
    ValidPlanKeepsComplianceExactly(s.cfg, wanted, cur, overwrite, s.mandatory);
    EmptyMeansNone(p.remaining);
  }
}
