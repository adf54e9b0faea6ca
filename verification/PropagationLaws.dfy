/** Which tags a child is expected to have and what a fix writes, said key by key about findings and targets. */
module PropagationLaws {
  import opened Wrappers
  import opened TagStore
  import opened Propagation

  // A parent with tags `parent` passes `k` on: the value is not empty, the key is not reserved, not excluded, and, if
  // there is a list of keys, on it.
  predicate Inherits(c: Settings, parent: TagMap, k: string) {
    var low := c.lower(k);
    && k in parent && |parent[k]| > 0
    && !(|low| >= 4 && low[..4] == ['a', 'w', 's', ':'])
    && low !in c.excluded
    && (c.allowed.Some? ==> low in c.allowed.value)
  }

  // The child lacks the value its parent passes on.
  predicate Lacks(c: Settings, parent: TagMap, tags: TagMap, k: string) {
    Inherits(c, parent, k) && !(k in tags && tags[k] == parent[k])
  }

  // The finding lists exactly the keys that are missing, and those with another value together with both values.
  ghost predicate Describes(c: Settings, parent: TagMap, child: Child, f: Finding) {
    && f.TagFinding? && f.child == child.arn
    && (forall k :: k in f.missing <==> Inherits(c, parent, k) && k !in child.tags)
    && (forall k :: k in f.missing ==> f.missing[k] == parent[k])
    && (forall k :: k in f.mismatched <==> Lacks(c, parent, child.tags, k) && k in child.tags)
    && (forall k :: k in f.mismatched ==> f.mismatched[k] == (parent[k], child.tags[k]))
  }

  lemma WantMeans(c: Settings, rels: seq<Relation>, i: int, k: string)
    requires 0 <= i < |rels|
    ensures k in Want(c, rels, i) <==> Inherits(c, rels[i].parentTags, k)
    ensures k in Want(c, rels, i) ==> Want(c, rels, i)[k] == rels[i].parentTags[k]
  {
    assert ['a', 'w', 's', ':'] == "aws:";
  }

  lemma FindingDescribes(c: Settings, rels: seq<Relation>, i: int, j: int)
    requires At(rels, i, j)
    ensures Describes(c, rels[i].parentTags, rels[i].children[j], FindingAt(c, rels, i, j))
    ensures Differs(FindingAt(c, rels, i, j)) <==>
            exists k :: Lacks(c, rels[i].parentTags, rels[i].children[j].tags, k)
  {
    var f, parent, tags := FindingAt(c, rels, i, j), rels[i].parentTags, rels[i].children[j].tags;
    forall k
      ensures k in Want(c, rels, i) <==> Inherits(c, parent, k)
      ensures k in Want(c, rels, i) ==> Want(c, rels, i)[k] == parent[k]
    {
      WantMeans(c, rels, i, k);
    }
    hide Want, Inherits;
    forall k ensures (k in f.missing || k in f.mismatched) <==> Lacks(c, parent, tags, k) {}
    if k :| Lacks(c, parent, tags, k) { assert f.missing != map[] || f.mismatched != map[]; }
    if Differs(f) {
      var k :| k in f.missing || k in f.mismatched;
      assert Lacks(c, parent, tags, k);
    }
  }

  /** A child has a finding for a parent exactly when it lacks a value that parent passes on, and every tag finding
      describes such a child. */
  lemma FindingsSayWhatIsLacking(c: Settings, rels: seq<Relation>)
    ensures forall i, j, k :: At(rels, i, j) && Lacks(c, rels[i].parentTags, rels[i].children[j].tags, k) ==>
              exists f :: f in Findings(c, rels) && Describes(c, rels[i].parentTags, rels[i].children[j], f)
    ensures forall f :: f in Findings(c, rels) && f.TagFinding? ==>
              exists i, j, k :: At(rels, i, j) && Lacks(c, rels[i].parentTags, rels[i].children[j].tags, k) &&
                Describes(c, rels[i].parentTags, rels[i].children[j], f)
  {
    hide Findings, Describes, Lacks, FindingAt;
    forall i, j, k | At(rels, i, j) && Lacks(c, rels[i].parentTags, rels[i].children[j].tags, k)
      ensures exists f :: f in Findings(c, rels) && Describes(c, rels[i].parentTags, rels[i].children[j], f)
    {
      var f := FindingAt(c, rels, i, j);
      FindingDescribes(c, rels, i, j);
      FindingsMean(c, rels, f);
    }
    forall f | f in Findings(c, rels) && f.TagFinding?
      ensures exists i, j, k :: At(rels, i, j) && Lacks(c, rels[i].parentTags, rels[i].children[j].tags, k) &&
                Describes(c, rels[i].parentTags, rels[i].children[j], f)
    {
      FindingsMean(c, rels, f);
      var i, j :| At(rels, i, j) && f == FindingAt(c, rels, i, j) && Differs(f);
      FindingDescribes(c, rels, i, j);
      var k :| Lacks(c, rels[i].parentTags, rels[i].children[j].tags, k);
    }
  }

  // ----- What a fix writes.

  // What finding `f` says `k` of resource `a` is to become.
  function Says(f: Finding, overwrite: bool, a: string, k: string): Option<string> {
    if f.ConfigFinding? || f.child != a then None
    else if overwrite && k in f.mismatched then Some(f.mismatched[k].0)
    else if k in f.missing then Some(f.missing[k])
    else None
  }

  /** The value to be written is the one finding `n` gives, if it is the last with a word on it (`n` is -1 if there is
      none, and then nothing is written). */
  lemma {:induction false} LastFindingWins(fs: seq<Finding>, overwrite: bool, a: string, k: string, n: int)
    requires -1 <= n < |fs| && forall m :: n < m < |fs| ==> Says(fs[m], overwrite, a, k).None?
    requires n >= 0 ==> Says(fs[n], overwrite, a, k).Some?
    ensures Get(Of(FixTargets(fs, overwrite), a), k) == if n < 0 then None else Says(fs[n], overwrite, a, k)
  {
    if fs != [] {
      var front, f := fs[..|fs| - 1], fs[|fs| - 1];
      LastSays(front, f, overwrite, a, k);
      hide Says, FixTargets;
      assert fs == front + [f];
      if n < |fs| - 1 { LastFindingWins(front, overwrite, a, k, n); }
    }
  }

  lemma LastSays(front: seq<Finding>, f: Finding, overwrite: bool, a: string, k: string)
    ensures Get(Of(FixTargets(front + [f], overwrite), a), k) ==
            if Says(f, overwrite, a, k).Some? then Says(f, overwrite, a, k)
            else Get(Of(FixTargets(front, overwrite), a), k)
  {
    assert (front + [f])[..|front|] == front;
    if f.TagFinding? {
      assert k in FixTags(f, overwrite) <==> k in f.missing || (overwrite && k in f.mismatched);
    }
  }
}
