/** Tags that children should inherit from their parents: findings, their fixes, and what the fixes achieve. */
module Propagation {
  import opened Wrappers
  import opened TagStore

  // `allowed` is none when all keys propagate; both sets hold lower-cased keys.
  datatype Settings = Settings(lower: string -> string, excluded: set<string>, allowed: Option<set<string>>)

  datatype Child = Child(arn: string, tags: TagMap)

  // `config` are the operations that would fix configuration issues of the parent.
  datatype Relation = Relation(parentTags: TagMap, children: seq<Child>, config: seq<string>)

  datatype Finding =
    | ConfigFinding(op: string)
    | TagFinding(child: string, missing: TagMap, mismatched: map<string, (string, string)>)

  function PropagatedKeys(c: Settings, parent: TagMap): TagMap {
    map k | k in parent && parent[k] != "" && !("aws:" <= c.lower(k)) && c.lower(k) !in c.excluded &&
            (c.allowed.None? || c.lower(k) in c.allowed.value) :: parent[k]
  }

  function Missing(expected: TagMap, tags: TagMap): TagMap {
    map k | k in expected && k !in tags :: expected[k]
  }

  // Expected and actual values.
  function Mismatched(expected: TagMap, tags: TagMap): map<string, (string, string)> {
    map k | k in expected && k in tags && tags[k] != expected[k] :: (expected[k], tags[k])
  }

  function ChildFindings(expected: TagMap, children: seq<Child>): seq<Finding> {
    if children == [] then []
    else
      var c := children[|children| - 1];
      var f := TagFinding(c.arn, Missing(expected, c.tags), Mismatched(expected, c.tags));
      ChildFindings(expected, children[..|children| - 1]) +
      if f.missing != map[] || f.mismatched != map[] then [f] else []
  }

  function ConfigFindings(ops: seq<string>): seq<Finding> {
    seq(|ops|, i requires 0 <= i < |ops| => ConfigFinding(ops[i]))
  }

  function Findings(c: Settings, rels: seq<Relation>): seq<Finding> {
    if rels == [] then []
    else
      var r := rels[|rels| - 1];
      Findings(c, rels[..|rels| - 1]) + ConfigFindings(r.config) +
          ChildFindings(PropagatedKeys(c, r.parentTags), r.children)
  }

  function FixTags(f: Finding, overwrite: bool): TagMap
    requires f.TagFinding?
  {
    f.missing + if overwrite then map k | k in f.mismatched :: f.mismatched[k].0 else map[]
  }

  // What is to be written, resource by resource; later findings win.
  function FixTargets(fs: seq<Finding>, overwrite: bool): Live {
    if fs == [] then map[]
    else
      var f, rest := fs[|fs| - 1], FixTargets(fs[..|fs| - 1], overwrite);
      if f.ConfigFinding? || FixTags(f, overwrite) == map[] then rest
      else rest[f.child := Of(rest, f.child) + FixTags(f, overwrite)]
  }

  function FixOps(fs: seq<Finding>): seq<string> {
    if fs == [] then []
    else FixOps(fs[..|fs| - 1]) + if fs[|fs| - 1].ConfigFinding? then [fs[|fs| - 1].op] else []
  }

  // ----- The same, step by step.

  method FindingsOfChildren(expected: TagMap, children: seq<Child>) returns (fs: seq<Finding>)
    ensures fs == ChildFindings(expected, children)
  {
    hide Missing, Mismatched;
    fs := [];
    var j := 0;
    while j < |children|
      invariant j <= |children| && fs == ChildFindings(expected, children[..j])
    {
      var child := children[j];
      assert children[..j + 1][..j] == children[..j];
      var missing, mismatched := Missing(expected, child.tags), Mismatched(expected, child.tags);
      if missing != map[] || mismatched != map[] { fs := fs + [TagFinding(child.arn, missing, mismatched)]; }
      j := j + 1;
    }
    assert children[..j] == children;
  }

  method FindingsFor(c: Settings, rels: seq<Relation>) returns (fs: seq<Finding>)
    ensures fs == Findings(c, rels)
  {
    hide PropagatedKeys, ChildFindings;
    fs := [];
    var i := 0;
    while i < |rels|
      invariant i <= |rels| && fs == Findings(c, rels[..i])
    {
      var r := rels[i];
      assert rels[..i + 1][..i] == rels[..i];
      var expected := PropagatedKeys(c, r.parentTags);
      var issues: seq<Finding>, n := [], 0;
      while n < |r.config|
        invariant n <= |r.config| && issues == ConfigFindings(r.config)[..n]
      {
        issues := issues + [ConfigFinding(r.config[n])];
        n := n + 1;
      }
      fs := fs + issues;
      if expected == map[] {
        NothingExpected(r.children);
      } else {
        var more := FindingsOfChildren(expected, r.children);
        fs := fs + more;
      }
      i := i + 1;
    }
    assert rels[..i] == rels;
  }

  lemma {:induction false} NothingExpected(children: seq<Child>)
    ensures ChildFindings(map[], children) == []
  {
    if children != [] { NothingExpected(children[..|children| - 1]); }
  }

  method FixPlan(fs: seq<Finding>, overwrite: bool) returns (targets: Live, ops: seq<string>)
    ensures targets == FixTargets(fs, overwrite) && ops == FixOps(fs)
  {
    targets, ops := map[], [];
    var i := 0;
    while i < |fs|
      invariant i <= |fs| && targets == FixTargets(fs[..i], overwrite) && ops == FixOps(fs[..i])
    {
      var f := fs[i];
      assert fs[..i + 1][..i] == fs[..i];
      if f.ConfigFinding? {
        ops := ops + [f.op];
      } else {
        var tags := f.missing;
        if overwrite { tags := tags + map k | k in f.mismatched :: f.mismatched[k].0; }
        assert tags == FixTags(f, overwrite);
        if tags != map[] { targets := targets[f.child := Of(targets, f.child) + tags]; }
      }
      i := i + 1;
    }
    assert fs[..i] == fs;
  }

  function AllConfig(rels: seq<Relation>): seq<string> {
    if rels == [] then [] else AllConfig(rels[..|rels| - 1]) + rels[|rels| - 1].config
  }

  lemma {:induction false} OpsOfBoth(fs: seq<Finding>, gs: seq<Finding>)
    ensures FixOps(fs + gs) == FixOps(fs) + FixOps(gs)
  {
    if gs == [] {
      assert fs + gs == fs;
    } else {
      assert (fs + gs)[..|fs + gs| - 1] == fs + gs[..|gs| - 1];
      OpsOfBoth(fs, gs[..|gs| - 1]);
    }
  }

  lemma {:induction false} OpsOfConfig(ops: seq<string>)
    ensures FixOps(ConfigFindings(ops)) == ops
  {
    if ops != [] {
      assert ConfigFindings(ops)[..|ops| - 1] == ConfigFindings(ops[..|ops| - 1]);
      OpsOfConfig(ops[..|ops| - 1]);
      assert ops == ops[..|ops| - 1] + [ops[|ops| - 1]];
    }
  }

  lemma {:induction false} ChildrenHaveNoOps(expected: TagMap, children: seq<Child>)
    ensures FixOps(ChildFindings(expected, children)) == []
  {
    hide Missing, Mismatched;
    if children != [] {
      var front, c := children[..|children| - 1], children[|children| - 1];
      ChildrenHaveNoOps(expected, front);
      var f := TagFinding(c.arn, Missing(expected, c.tags), Mismatched(expected, c.tags));
      assert [f][..0] == [] && FixOps([f]) == [];
      OpsOfBoth(ChildFindings(expected, front), [f]);
      assert ChildFindings(expected, front) + [] == ChildFindings(expected, front);
    }
  }

  /** Every configuration fix of every parent is passed on, once and in order. */
  lemma {:induction false} OpsAreAllConfig(c: Settings, rels: seq<Relation>)
    ensures FixOps(Findings(c, rels)) == AllConfig(rels)
  {
    hide PropagatedKeys, ChildFindings, ConfigFindings;
    if rels != [] {
      var front, r := rels[..|rels| - 1], rels[|rels| - 1];
      var children := ChildFindings(PropagatedKeys(c, r.parentTags), r.children);
      OpsAreAllConfig(c, front);
      OpsOfBoth(Findings(c, front) + ConfigFindings(r.config), children);
      OpsOfBoth(Findings(c, front), ConfigFindings(r.config));
      OpsOfConfig(r.config);
      ChildrenHaveNoOps(PropagatedKeys(c, r.parentTags), r.children);
    }
  }

  // ----- What the fixes achieve. The parents keep their tags.

  // Child `j` of relation `i`, and what its parent expects.
  predicate At(rels: seq<Relation>, i: int, j: int) {
    0 <= i < |rels| && 0 <= j < |rels[i].children|
  }

  function Want(c: Settings, rels: seq<Relation>, i: int): TagMap
    requires 0 <= i < |rels|
  {
    PropagatedKeys(c, rels[i].parentTags)
  }

  ghost predicate Current(rels: seq<Relation>, live: Live) {
    forall i, j :: At(rels, i, j) ==> rels[i].children[j].tags == Of(live, rels[i].children[j].arn)
  }

  // The same relations, found again.
  ghost predicate Rediscovered(rels: seq<Relation>, again: seq<Relation>) {
    |rels| == |again| &&
    forall i :: 0 <= i < |rels| ==>
      again[i].parentTags == rels[i].parentTags && |again[i].children| == |rels[i].children| &&
      forall j :: 0 <= j < |rels[i].children| ==> again[i].children[j].arn == rels[i].children[j].arn
  }

  ghost predicate Fixed(live: Live, targets: Live, live': Live) {
    forall a :: Of(live', a) == Of(live, a) + Of(targets, a)
  }

  // The tag finding for child `j` of relation `i`, if there is any difference.
  function FindingAt(c: Settings, rels: seq<Relation>, i: int, j: int): Finding
    requires At(rels, i, j)
  {
    var child := rels[i].children[j];
    TagFinding(child.arn, Missing(Want(c, rels, i), child.tags), Mismatched(Want(c, rels, i), child.tags))
  }

  predicate Differs(f: Finding) {
    f.TagFinding? && (f.missing != map[] || f.mismatched != map[])
  }

  ghost predicate Found(c: Settings, rels: seq<Relation>, f: Finding) {
    exists i, j :: At(rels, i, j) && f == FindingAt(c, rels, i, j) && Differs(f)
  }

  lemma {:induction false} ChildFindingsMean(expected: TagMap, children: seq<Child>, f: Finding)
    ensures f in ChildFindings(expected, children) <==>
            exists j :: 0 <= j < |children| && Differs(f) &&
              f == TagFinding(children[j].arn, Missing(expected, children[j].tags),
                              Mismatched(expected, children[j].tags))
  {
    hide Missing, Mismatched;
    if children != [] { ChildFindingsMean(expected, children[..|children| - 1], f); }
  }

  lemma {:induction false} FindingsMean(c: Settings, rels: seq<Relation>, f: Finding)
    requires f.TagFinding?
    ensures f in Findings(c, rels) <==> Found(c, rels, f)
  {
    hide Missing, Mismatched, PropagatedKeys;
    if rels != [] {
      var front, r := rels[..|rels| - 1], rels[|rels| - 1];
      FindingsMean(c, front, f);
      ChildFindingsMean(PropagatedKeys(c, r.parentTags), r.children, f);
      if Found(c, front, f) {
        var i, j :| At(front, i, j) && f == FindingAt(c, front, i, j) && Differs(f);
        assert At(rels, i, j) && FindingAt(c, rels, i, j) == f;
      }
      if j :| 0 <= j < |r.children| && Differs(f) &&
              f == TagFinding(r.children[j].arn, Missing(PropagatedKeys(c, r.parentTags), r.children[j].tags),
                              Mismatched(PropagatedKeys(c, r.parentTags), r.children[j].tags)) {
        assert At(rels, |rels| - 1, j) && FindingAt(c, rels, |rels| - 1, j) == f;
      }
      if Found(c, rels, f) {
        var i, j :| At(rels, i, j) && f == FindingAt(c, rels, i, j) && Differs(f);
        if i < |front| { assert At(front, i, j) && FindingAt(c, front, i, j) == f; }
      }
    }
  }

  lemma {:induction false} TargetsComeFromFindings(fs: seq<Finding>, overwrite: bool, a: string, k: string)
    ensures Get(Of(FixTargets(fs, overwrite), a), k).Some? ==>
            exists n :: 0 <= n < |fs| && Gives(fs[n], overwrite, a, k) &&
              Get(Of(FixTargets(fs, overwrite), a), k) == Some(FixTags(fs[n], overwrite)[k])
    ensures (exists n :: 0 <= n < |fs| && Gives(fs[n], overwrite, a, k)) ==>
        Get(Of(FixTargets(fs, overwrite), a), k).Some?
  {
    hide FixTags;
    if fs != [] {
      var front, f := fs[..|fs| - 1], fs[|fs| - 1];
      TargetsComeFromFindings(front, overwrite, a, k);
      if Gives(f, overwrite, a, k) {
        assert Get(Of(FixTargets(fs, overwrite), a), k) == Some(FixTags(f, overwrite)[k]);
      } else {
        assert Get(Of(FixTargets(fs, overwrite), a), k) == Get(Of(FixTargets(front, overwrite), a), k);
        if n :| 0 <= n < |front| && Gives(front[n], overwrite, a, k) &&
                Get(Of(FixTargets(front, overwrite), a), k) == Some(FixTags(front[n], overwrite)[k]) {
          assert fs[n] == front[n];
        }
        if n :| 0 <= n < |fs| && Gives(fs[n], overwrite, a, k) {
          assert front[n] == fs[n];
        }
      }
    }
  }

  // The fix of `f` writes `k` on `a`.
  predicate Gives(f: Finding, overwrite: bool, a: string, k: string) {
    f.TagFinding? && f.child == a && k in FixTags(f, overwrite)
  }

  // What the fix of the finding for child `j` of relation `i` writes: the keys that are missing and, if asked for,
  // those with another value.
  lemma FixTagsMean(c: Settings, rels: seq<Relation>, i: int, j: int, overwrite: bool, k: string)
    requires At(rels, i, j)
    ensures var want, tags := Want(c, rels, i), rels[i].children[j].tags;
      Get(FixTags(FindingAt(c, rels, i, j), overwrite), k) ==
      if k in want && (k !in tags || (overwrite && tags[k] != want[k])) then Some(want[k]) else None
  {}

  // Relations `i` and `p` share a child and both have a word on `k`.
  predicate Shared(c: Settings, rels: seq<Relation>, i: int, j: int, p: int, q: int, k: string) {
    At(rels, i, j) && At(rels, p, q) && rels[i].children[j].arn == rels[p].children[q].arn &&
    k in Want(c, rels, i) && k in Want(c, rels, p)
  }

  // Relations that share a child expect the same of it; `onlyNew` asks that only of keys the child lacks.
  ghost predicate Agree(c: Settings, rels: seq<Relation>, onlyNew: bool) {
    forall i, j, p, q, k :: Shared(c, rels, i, j, p, q, k) ==>
      (onlyNew && k in rels[i].children[j].tags) || Want(c, rels, i)[k] == Want(c, rels, p)[k]
  }

  // What is written is what some parent of the child wants and the child does not have.
  lemma TargetValue(c: Settings, rels: seq<Relation>, live: Live, overwrite: bool, a: string, k: string)
    requires Current(rels, live) && Get(Of(FixTargets(Findings(c, rels), overwrite), a), k).Some?
    ensures k !in Of(live, a) || overwrite
    ensures exists p, q :: At(rels, p, q) && rels[p].children[q].arn == a && k in Want(c, rels, p) &&
              Get(Of(FixTargets(Findings(c, rels), overwrite), a), k) == Some(Want(c, rels, p)[k])
  {
    hide Findings, Want, FixTargets;
    var fs := Findings(c, rels);
    TargetsComeFromFindings(fs, overwrite, a, k);
    var n :| 0 <= n < |fs| && Gives(fs[n], overwrite, a, k) &&
             Get(Of(FixTargets(fs, overwrite), a), k) == Some(FixTags(fs[n], overwrite)[k]);
    assert fs[n] in fs;
    FindingsMean(c, rels, fs[n]);
    var p, q :| At(rels, p, q) && fs[n] == FindingAt(c, rels, p, q) && Differs(fs[n]);
    FixTagsMean(c, rels, p, q, overwrite, k);
    assert rels[p].children[q].arn == a;
  }

  lemma WantedIsTarget(c: Settings, rels: seq<Relation>, live: Live, overwrite: bool, i: int, j: int, k: string)
    requires Current(rels, live) && At(rels, i, j) && k in Want(c, rels, i)
    requires var tags := rels[i].children[j].tags; k !in tags || (overwrite && tags[k] != Want(c, rels, i)[k])
    ensures Get(Of(FixTargets(Findings(c, rels), overwrite), rels[i].children[j].arn), k).Some?
  {
    hide Findings, FixTargets;
    var f, fs := FindingAt(c, rels, i, j), Findings(c, rels);
    FixTagsMean(c, rels, i, j, overwrite, k);
    assert k in f.missing || k in f.mismatched;
    assert Differs(f);
    FindingsMean(c, rels, f);
    var n :| 0 <= n < |fs| && fs[n] == f;
    assert Gives(fs[n], overwrite, f.child, k);
    TargetsComeFromFindings(fs, overwrite, f.child, k);
  }

  // Fixing `rels` on `live` gives `live'`, where discovery finds `again`.
  ghost predicate Round(c: Settings, rels: seq<Relation>, live: Live, overwrite: bool, again: seq<Relation>,
                        live': Live)
  {
    && Current(rels, live) && Current(again, live') && Rediscovered(rels, again)
    && Fixed(live, FixTargets(Findings(c, rels), overwrite), live')
  }

  lemma RoundKey(c: Settings, rels: seq<Relation>, live: Live, overwrite: bool, again: seq<Relation>, live': Live,
                 i: int, j: int, k: string)
    requires Round(c, rels, live, overwrite, again, live') && At(rels, i, j)
    ensures At(again, i, j) && Want(c, again, i) == Want(c, rels, i)
    ensures var a := rels[i].children[j].arn;
      && again[i].children[j].arn == a
      && again[i].children[j].tags == Of(live', a) && rels[i].children[j].tags == Of(live, a)
      && Get(Of(live', a), k) ==
         var t := Get(Of(FixTargets(Findings(c, rels), overwrite), a), k); if t.Some? then t else Get(Of(live, a), k)
  {}

  ghost predicate Satisfied(c: Settings, rels: seq<Relation>) {
    forall i, j, k :: At(rels, i, j) && k in Want(c, rels, i) ==>
        Get(rels[i].children[j].tags, k) == Some(Want(c, rels, i)[k])
  }

  lemma NoFindingsMeanSatisfied(c: Settings, rels: seq<Relation>)
    ensures (forall f :: f in Findings(c, rels) ==> !f.TagFinding?) <==> Satisfied(c, rels)
  {
    hide Findings, Want;
    if Satisfied(c, rels) {
      forall f | f in Findings(c, rels) ensures !f.TagFinding? {
        if f.TagFinding? {
          FindingsMean(c, rels, f);
          var i, j :| At(rels, i, j) && f == FindingAt(c, rels, i, j) && Differs(f);
          var k :| k in f.missing || k in f.mismatched;
          assert false;
        }
      }
    } else {
      var i, j, k :| At(rels, i, j) && k in Want(c, rels, i) &&
                     Get(rels[i].children[j].tags, k) != Some(Want(c, rels, i)[k]);
      var f := FindingAt(c, rels, i, j);
      assert k in f.missing || k in f.mismatched;
      assert Differs(f);
      FindingsMean(c, rels, f);
    }
  }

  /** Fixing with overwrite leaves no tag finding exactly when relations that share a child agree. */
  lemma OverwriteConvergesExactly(c: Settings, rels: seq<Relation>, live: Live, again: seq<Relation>, live': Live)
    requires Round(c, rels, live, true, again, live')
    ensures (forall f :: f in Findings(c, again) ==> !f.TagFinding?) <==> Agree(c, rels, false)
  {
    hide Findings, Want, FixTargets, Round;
    NoFindingsMeanSatisfied(c, again);
    if Agree(c, rels, false) {
      forall i, j, k | At(again, i, j) && k in Want(c, again, i)
        ensures Get(again[i].children[j].tags, k) == Some(Want(c, again, i)[k])
      {
        SatisfiedAt(c, rels, live, again, live', i, j, k);
      }
    } else {
      var i, j, p, q, k :| Shared(c, rels, i, j, p, q, k) && Want(c, rels, i)[k] != Want(c, rels, p)[k];
      RoundKey(c, rels, live, true, again, live', i, j, k);
      RoundKey(c, rels, live, true, again, live', p, q, k);
    }
  }

  lemma SatisfiedAt(c: Settings, rels: seq<Relation>, live: Live, again: seq<Relation>, live': Live, i: int, j: int,
                    k: string)
    requires Round(c, rels, live, true, again, live') && Agree(c, rels, false)
    requires At(again, i, j) && k in Want(c, again, i)
    ensures Get(again[i].children[j].tags, k) == Some(Want(c, again, i)[k])
  {
    assert At(rels, i, j);
    RoundKey(c, rels, live, true, again, live', i, j, k);
    hide Findings, Want, FixTargets;
    var a := rels[i].children[j].arn;
    if Get(Of(live, a), k) != Some(Want(c, rels, i)[k]) { WantedIsTarget(c, rels, live, true, i, j, k); }
    if Get(Of(FixTargets(Findings(c, rels), true), a), k).Some? {
      TargetValue(c, rels, live, true, a, k);
      var p, q :| At(rels, p, q) && rels[p].children[q].arn == a && k in Want(c, rels, p) &&
                  Get(Of(FixTargets(Findings(c, rels), true), a), k) == Some(Want(c, rels, p)[k]);
      assert Shared(c, rels, i, j, p, q, k);
    }
  }

  /** Fixing without overwrite changes no value a resource has and leaves nothing missing. */
  lemma KeepingFillsGaps(c: Settings, rels: seq<Relation>, live: Live, again: seq<Relation>, live': Live)
    requires Round(c, rels, live, false, again, live')
    ensures forall a, k :: k in Of(live, a) ==> Get(Of(live', a), k) == Get(Of(live, a), k)
    ensures forall i, j, k :: At(rels, i, j) && k in Want(c, rels, i) ==> k in again[i].children[j].tags
  {
    hide Findings, Want, FixTargets;
    forall a, k | k in Of(live, a) ensures Get(Of(live', a), k) == Get(Of(live, a), k) {
      if Get(Of(FixTargets(Findings(c, rels), false), a), k).Some? { TargetValue(c, rels, live, false, a, k); }
    }
    forall i, j, k | At(rels, i, j) && k in Want(c, rels, i) ensures k in again[i].children[j].tags {
      RoundKey(c, rels, live, false, again, live', i, j, k);
      if k !in Of(live, rels[i].children[j].arn) { WantedIsTarget(c, rels, live, false, i, j, k); }
    }
  }

  ghost predicate SameMismatches(c: Settings, rels: seq<Relation>, again: seq<Relation>)
    requires Rediscovered(rels, again)
  {
    forall i, j :: At(rels, i, j) ==> FindingAt(c, again, i, j).mismatched == FindingAt(c, rels, i, j).mismatched
  }

  /** Fixing without overwrite leaves exactly the old mismatches if and only if relations that share a child agree on
      the keys it lacks. */
  lemma KeepingLeavesMismatchesExactly(c: Settings, rels: seq<Relation>, live: Live, again: seq<Relation>, live': Live)
    requires Round(c, rels, live, false, again, live')
    ensures SameMismatches(c, rels, again) <==> Agree(c, rels, true)
  {
    hide Findings, Want, FixTargets, Round;
    if Agree(c, rels, true) {
      forall i, j | At(rels, i, j) ensures At(again, i, j) { RoundKey(c, rels, live, false, again, live', i, j, ""); }
      forall i, j | At(rels, i, j)
        ensures FindingAt(c, again, i, j).mismatched == FindingAt(c, rels, i, j).mismatched
      {
        RoundKey(c, rels, live, false, again, live', i, j, "");
        forall k | k in Want(c, rels, i)
          ensures Get(again[i].children[j].tags, k) ==
                  if k in rels[i].children[j].tags then Get(rels[i].children[j].tags, k) else Some(Want(c, rels, i)[k])
        {
          KeptAt(c, rels, live, again, live', i, j, k);
        }
      }
    } else {
      var i, j, p, q, k :| Shared(c, rels, i, j, p, q, k) && k !in rels[i].children[j].tags &&
                           Want(c, rels, i)[k] != Want(c, rels, p)[k];
      RoundKey(c, rels, live, false, again, live', i, j, k);
      RoundKey(c, rels, live, false, again, live', p, q, k);
      KeepingFillsGaps(c, rels, live, again, live');
      var tags := again[i].children[j].tags;
      assert k in tags && (tags[k] != Want(c, rels, i)[k] || tags[k] != Want(c, rels, p)[k]);
      if tags[k] != Want(c, rels, i)[k] {
        assert k in FindingAt(c, again, i, j).mismatched && k !in FindingAt(c, rels, i, j).mismatched;
      } else {
        assert k in FindingAt(c, again, p, q).mismatched && k !in FindingAt(c, rels, p, q).mismatched;
      }
    }
  }

  lemma KeptAt(c: Settings, rels: seq<Relation>, live: Live, again: seq<Relation>, live': Live, i: int, j: int,
               k: string)
    requires Round(c, rels, live, false, again, live') && Agree(c, rels, true)
    requires At(rels, i, j) && k in Want(c, rels, i)
    ensures At(again, i, j)
    ensures Get(again[i].children[j].tags, k) ==
            if k in rels[i].children[j].tags then Get(rels[i].children[j].tags, k) else Some(Want(c, rels, i)[k])
  {
    RoundKey(c, rels, live, false, again, live', i, j, k);
    KeepingFillsGaps(c, rels, live, again, live');
    hide Findings, Want, FixTargets;
    var a := rels[i].children[j].arn;
    if k !in Of(live, a) {
      WantedIsTarget(c, rels, live, false, i, j, k);
      TargetValue(c, rels, live, false, a, k);
      var p, q :| At(rels, p, q) && rels[p].children[q].arn == a && k in Want(c, rels, p) &&
                  Get(Of(FixTargets(Findings(c, rels), false), a), k) == Some(Want(c, rels, p)[k]);
      assert Shared(c, rels, i, j, p, q, k);
    }
  }
}
