/** What a plan item says, from the schema, the requested tags and the live tags alone. */
module PlanLaws {
  import opened Wrappers
  import opened Governance
  import opened GovernanceLaws
  import opened Compliance
  import opened TagStore
  import opened Plans

  // The live tags with the changes: changed keys keep their place, new ones follow.
  predicate ChangedTags(cur: Tags, ch: Tags, after: Tags) {
    && |after| >= |cur| && (forall i :: 0 <= i < |cur| ==> after[i].0 == cur[i].0)
    && forall i :: |cur| <= i < |after| ==> Has(ch, after[i].0)
  }

  lemma PutMeans(t: Tags, k: string, v: string)
    requires Dict(t)
    ensures forall x :: Lookup(Put(t, k, v), x) == if x == k then Some(v) else Lookup(t, x)
    ensures |Put(t, k, v)| == |t| + (if Has(t, k) then 0 else 1)
    ensures forall i :: 0 <= i < |t| ==> Put(t, k, v)[i].0 == t[i].0
    ensures !Has(t, k) ==> Put(t, k, v)[|t|] == (k, v)
  {
    if Has(t, k) {
      ReplaceDict(t, k, v);
      forall x ensures Lookup(Replace(t, k, v), x) == if x == k then Some(v) else Lookup(t, x) {
        ReplaceMeans(t, k, v, x);
      }
    } else {
      DictSnoc(t, k, v);
    }
  }

  lemma {:induction false} ReplaceMeans(t: Tags, k: string, v: string, x: string)
    requires Dict(t) && Has(t, k)
    ensures Lookup(Replace(t, k, v), x) == if x == k then Some(v) else Lookup(t, x)
  {
    var front, last := t[..|t| - 1], t[|t| - 1];
    if last.0 == k {
      assert (front + [(k, v)])[..|front|] == front;
    } else {
      ReplaceMeans(front, k, v, x);
      assert (Replace(front, k, v) + [last])[..|Replace(front, k, v)|] == Replace(front, k, v);
    }
  }

  lemma {:induction false} UpdateMeans(cur: Tags, ch: Tags)
    requires Dict(cur)
    ensures Dict(Update(cur, ch)) && ChangedTags(cur, ch, Update(cur, ch))
    ensures forall k :: Lookup(Update(cur, ch), k) == if Has(ch, k) then Lookup(ch, k) else Lookup(cur, k)
  {
    UpdateDict(cur, ch);
    if ch != [] {
      var front, last, rest := ch[..|ch| - 1], ch[|ch| - 1], Update(cur, ch[..|ch| - 1]);
      UpdateMeans(cur, front);
      PutMeans(rest, last.0, last.1);
      hide Put;
      forall i | |cur| <= i < |Update(cur, ch)| ensures Has(ch, Update(cur, ch)[i].0) {
        if i < |rest| { assert Has(front, rest[i].0); }
      }
    }
  }

  lemma {:induction false} PriorMeans(ch: Tags, cur: Tags, k: string)
    ensures Get(Prior(ch, cur), k) == if Has(ch, k) then Lookup(cur, k) else None
  {
    if ch != [] { PriorMeans(ch[..|ch| - 1], cur, k); }
  }

  // Nothing to report means no violation of any kind.
  lemma NothingReported(cfg: Config, t: Tags, extra: seq<string>)
    requires Dict(cfg.rules)
    ensures Reported(cfg, t, extra, false, Norm(cfg, t), []) <==> forall v :: !Violates(cfg, t, extra, false, v)
  {
    if forall v :: !Violates(cfg, t, extra, false, v) {
      EvaluationRight(cfg, t, extra, false, []);
    } else {
      var v :| Violates(cfg, t, extra, false, v);
      Unreported(cfg, t, extra, v);
    }
  }

  lemma Unreported(cfg: Config, t: Tags, extra: seq<string>, v: Violation)
    requires Dict(cfg.rules) && Violates(cfg, t, extra, false, v)
    ensures !Reported(cfg, t, extra, false, Norm(cfg, t), [])
  {
    var n := Norm(cfg, t);
    NormRight(cfg, t);
    match v
    case Missing(k) =>
      RequiredMeans(cfg, extra, k);
      hide Norm, First, Required, Canonical;
      forall a | (k, a) in n ensures !Filled(a) { assert First(cfg, t, k) == Some(a); }
      assert !MissingReported(cfg, n, extra, false, []);
    case InvalidValue(k, a) =>
      ValuesMean(cfg, k, a);
      hide Norm, First, BadValue;
      assert !ValuesReported(cfg, n, []) by { assert (k, a) in n; }
    case InvalidFormat(k, a) =>
      ValuesMean(cfg, k, a);
      hide Norm, First, BadFormat;
      assert !ValuesReported(cfg, n, []) by { assert (k, a) in n; }
    case UnknownTag(k) =>
      UnruledMeans(cfg, t, k);
      hide Norm, First, Foreign, Unruled;
      assert !UnknownReported(cfg, n, []);
    case Conflict(k, ks) =>
      OriginalsTwice(cfg, t, k);
      hide Norm, Originals, Canonical;
      assert !ConflictsReported(cfg, t, []) by { assert !Conflicted([], k); }
  }

  /** A planned item: which requested keys are changed, from what, which are skipped, what is wrong with the request,
      and what is wrong with the resource before and after. `n`, `m` and `left` are the normalised tags requested,
      before and after. */
  lemma PlanItemMeans(s: Settings, arn: string, wanted: Tags, cur: Tags, overwrite: bool, p: PlanItem)
    returns (n: Tags, m: Tags, after: Tags, left: Tags)
    requires Dict(s.cfg.rules) && Dict(cur) && PlanFor(s, arn, wanted, cur, overwrite, p)
    ensures p.arn == arn && Dict(n) && Reported(s.cfg, wanted, [], true, n, p.invalid)
    ensures forall k :: Lookup(p.changes, k) ==
              if Has(n, k) && Lookup(cur, k) != Lookup(n, k) && (!Has(cur, k) || overwrite) then Lookup(n, k) else None
    ensures forall k :: Get(p.before, k) == if Has(p.changes, k) then Lookup(cur, k) else None
    ensures forall k :: k in p.skipped <==>
              Has(n, k) && Has(cur, k) && Lookup(cur, k) != Lookup(n, k) && !overwrite
    ensures forall k :: k in p.skipped ==>
              Has(n, k) && Has(cur, k) && p.skipped[k] == (Lookup(cur, k).value, Lookup(n, k).value)
    ensures p.compliantBefore <==> Reported(s.cfg, cur, s.mandatory, false, m, [])
    ensures ChangedTags(cur, p.changes, after)
    ensures forall k :: Lookup(after, k) == if Has(p.changes, k) then Lookup(p.changes, k) else Lookup(cur, k)
    ensures Reported(s.cfg, after, s.mandatory, false, left, p.remaining)
    ensures p.compliantAfter <==> p.remaining == []
  {
    n, m, after := Norm(s.cfg, wanted), Norm(s.cfg, cur), Update(cur, p.changes);
    left := Norm(s.cfg, after);
    NormIsDict(s.cfg, wanted);
    EvaluationRight(s.cfg, wanted, [], true, p.invalid);
    NothingReported(s.cfg, cur, s.mandatory);
    EvaluationRight(s.cfg, after, s.mandatory, false, p.remaining);
    UpdateMeans(cur, p.changes);
    assert CanonicalDict(s.cfg, n);
    hide Norm, Violates, Changes, Prior, Skipped, Update, Reported, ChangedTags, CanonicalDict;
    forall k
      ensures Lookup(p.changes, k) ==
              if Has(n, k) && Lookup(cur, k) != Lookup(n, k) && (!Has(cur, k) || overwrite) then Lookup(n, k) else None
      ensures Get(p.before, k) == if Has(p.changes, k) then Lookup(cur, k) else None
      ensures k in p.skipped <==> Has(n, k) && Has(cur, k) && Lookup(cur, k) != Lookup(n, k) && !overwrite
      ensures k in p.skipped ==>
                Has(n, k) && Has(cur, k) && p.skipped[k] == (Lookup(cur, k).value, Lookup(n, k).value)
    {
      ChangesView(s.cfg, n, cur, overwrite, k);
      PriorMeans(p.changes, cur, k);
      SkippedMeans(n, cur, overwrite, k);
    }
  }
}
