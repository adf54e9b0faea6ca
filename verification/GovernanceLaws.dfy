/** What keys mean and what an evaluation reports, said in terms of the rules of the schema one by one. */
module GovernanceLaws {
  import opened Wrappers
  import opened Text
  import opened Governance

  // ----- Canonical keys.

  predicate IsRule(cfg: Config, i: int, k: string) {
    0 <= i < |cfg.rules| && cfg.rules[i].0 == k
  }

  // Rule `i` has an alias that is `low` when lower-cased.
  predicate Aliases(cfg: Config, i: int, low: string) {
    0 <= i < |cfg.rules| && exists j :: 0 <= j < |cfg.rules[i].1.aliases| && cfg.lower(cfg.rules[i].1.aliases[j]) == low
  }

  lemma {:induction false} HasMeans<V>(t: seq<(string, V)>, k: string)
    ensures Has(t, k) <==> exists i :: 0 <= i < |t| && t[i].0 == k
  {
    if t != [] {
      HasMeans(t[..|t| - 1], k);
      if i :| 0 <= i < |t| && t[i].0 == k {
        if i < |t| - 1 { assert t[..|t| - 1][i].0 == k; }
      }
    }
  }

  lemma {:induction false} AliasesIntoMeans(aliases: seq<string>, key: string, lower: string -> string,
                                            m: map<string, string>, low: string)
    ensures var r := AliasesInto(aliases, key, lower, m);
      var here := exists j :: 0 <= j < |aliases| && lower(aliases[j]) == low;
      && (low in r <==> here || low in m)
      && (low in r ==> r[low] == if here then key else m[low])
  {
    if aliases != [] {
      var front := aliases[..|aliases| - 1];
      AliasesIntoMeans(front, key, lower, m, low);
      if j :| 0 <= j < |aliases| && lower(aliases[j]) == low {
        if j < |aliases| - 1 { assert front[j] == aliases[j]; }
      }
    }
  }

  // The last rule that has the alias wins.
  lemma {:induction false} AliasMapMeans(rules: seq<(string, Rule)>, lower: string -> string, low: string)
    returns (i: int)
    ensures low in AliasMap(rules, lower) <==> 0 <= i
    ensures 0 <= i ==> i < |rules| && AliasMap(rules, lower)[low] == rules[i].0
    ensures 0 <= i ==> exists j :: 0 <= j < |rules[i].1.aliases| && lower(rules[i].1.aliases[j]) == low
    ensures forall n, j :: i < n < |rules| && 0 <= n && 0 <= j < |rules[n].1.aliases| ==>
              lower(rules[n].1.aliases[j]) != low
  {
    if rules == [] {
      i := -1;
    } else {
      var front := rules[..|rules| - 1];
      var (key, rule) := rules[|rules| - 1];
      i := AliasMapMeans(front, lower, low);
      AliasesIntoMeans(rule.aliases, key, lower, AliasMap(front, lower), low);
      if exists j :: 0 <= j < |rule.aliases| && lower(rule.aliases[j]) == low {
        i := |rules| - 1;
      } else {
        assert 0 <= i ==> rules[i] == front[i];
        forall n, j | i < n < |rules| && 0 <= n && 0 <= j < |rules[n].1.aliases|
          ensures lower(rules[n].1.aliases[j]) != low
        {
          if n < |rules| - 1 { assert rules[n] == front[n]; }
        }
      }
    }
  }

  // The first rule whose key is the same but for case.
  lemma {:induction false} FoldedKeyMeans(rules: seq<(string, Rule)>, low: string, lower: string -> string)
    returns (i: nat)
    ensures i <= |rules| && (FoldedKey(rules, low, lower).Some? <==> i < |rules|)
    ensures i < |rules| ==> lower(rules[i].0) == low && FoldedKey(rules, low, lower) == Some(rules[i].0)
    ensures forall n :: 0 <= n < i ==> lower(rules[n].0) != low
  {
    if rules == [] || lower(rules[0].0) == low {
      i := 0;
    } else {
      i := FoldedKeyMeans(rules[1..], low, lower);
      i := i + 1;
      forall n | 0 <= n < i ensures lower(rules[n].0) != low {
        if n > 0 { assert rules[1..][n - 1] == rules[n]; }
      }
    }
  }

  /** What a key means: itself if it is in the schema; else the last rule with that alias, whatever the case; else the
      first rule whose key differs in case only; else itself. */
  lemma CanonicalMeans(cfg: Config, k: string)
    ensures !cfg.normalize ==> Canonical(cfg, k) == k
    ensures (exists i :: IsRule(cfg, i, k)) ==> Canonical(cfg, k) == k
    ensures cfg.normalize && !(exists i :: IsRule(cfg, i, k)) ==>
      var low := cfg.lower(k);
      && (forall i :: Aliases(cfg, i, low) && (forall n :: i < n ==> !Aliases(cfg, n, low)) ==>
            Canonical(cfg, k) == cfg.rules[i].0)
      && ((forall n :: !Aliases(cfg, n, low)) ==>
            && (forall i :: 0 <= i < |cfg.rules| && cfg.lower(cfg.rules[i].0) == low &&
                            (forall n :: 0 <= n < i ==> cfg.lower(cfg.rules[n].0) != low) ==>
                  Canonical(cfg, k) == cfg.rules[i].0)
            && ((forall n :: 0 <= n < |cfg.rules| ==> cfg.lower(cfg.rules[n].0) != low) ==> Canonical(cfg, k) == k))
  {
    HasMeans(cfg.rules, k);
    assert (exists i :: IsRule(cfg, i, k)) <==> Has(cfg.rules, k) by {
      if i :| 0 <= i < |cfg.rules| && cfg.rules[i].0 == k { assert IsRule(cfg, i, k); }
    }
    var low := cfg.lower(k);
    var a := AliasMapMeans(cfg.rules, cfg.lower, low);
    var f := FoldedKeyMeans(cfg.rules, low, cfg.lower);
    assert 0 <= a ==> Aliases(cfg, a, low);
    forall i | Aliases(cfg, i, low) && (forall n :: i < n ==> !Aliases(cfg, n, low)) ensures i == a {}
  }

  // ----- What is reported. `n` are the normalised tags.

  // Key `c` has the value of the first key that means it.
  predicate FirstOf(cfg: Config, t: Tags, i: int, c: string) {
    0 <= i < |t| && Canonical(cfg, t[i].0) == c && forall j :: 0 <= j < i ==> Canonical(cfg, t[j].0) != c
  }

  ghost predicate NormalizedRight(cfg: Config, t: Tags, n: Tags) {
    forall c, a :: (c, a) in n <==> exists i :: FirstOf(cfg, t, i, c) && t[i].1 == a
  }

  // None of the values that rule `i` allows is `a`.
  predicate NotAllowed(cfg: Config, i: int, k: string, a: string) {
    && IsRule(cfg, i, k) && cfg.rules[i].1.allowed != []
    && forall x :: 0 <= x < |cfg.rules[i].1.allowed| ==> cfg.rules[i].1.allowed[x] != a
  }

  predicate NotMatched(cfg: Config, i: int, k: string, a: string) {
    IsRule(cfg, i, k) && cfg.rules[i].1.pattern != "" && !cfg.matches(cfg.rules[i].1.pattern, a)
  }

  predicate RequiredBy(cfg: Config, i: int, k: string) {
    IsRule(cfg, i, k) && cfg.rules[i].1.required
  }

  // Some character of `a` is not white space.
  predicate Filled(a: string) {
    exists x :: 0 <= x < |a| && !Space(a[x])
  }

  ghost predicate ValuesReported(cfg: Config, n: Tags, vs: seq<Violation>) {
    && (forall k, a :: InvalidValue(k, a) in vs <==>
          (k, a) in n && Filled(a) && exists i :: NotAllowed(cfg, i, k, a))
    && (forall k, a :: InvalidFormat(k, a) in vs <==>
          (k, a) in n && Filled(a) && exists i :: NotMatched(cfg, i, k, a))
  }

  // A key that no rule has and that is not reserved.
  ghost predicate Unruled(cfg: Config, n: Tags, k: string) {
    && (exists a :: (k, a) in n) && (forall i :: !IsRule(cfg, i, k))
    && !(|cfg.lower(k)| >= 4 && cfg.lower(k)[..4] == ['a', 'w', 's', ':'])
  }

  ghost predicate UnknownReported(cfg: Config, n: Tags, vs: seq<Violation>) {
    forall k :: UnknownTag(k) in vs <==> cfg.unknown == Deny && Unruled(cfg, n, k)
  }

  ghost predicate UnknownWarned(cfg: Config, n: Tags, warnings: seq<Violation>) {
    forall v :: v in warnings <==> cfg.unknown == Warn && v.UnknownTag? && Unruled(cfg, n, v.tag)
  }

  ghost predicate MissingReported(cfg: Config, n: Tags, extra: seq<string>, partial: bool, vs: seq<Violation>) {
    forall k :: Missing(k) in vs <==>
      && !partial
      && ((exists i :: RequiredBy(cfg, i, k)) || exists x :: 0 <= x < |extra| && Canonical(cfg, extra[x]) == k)
      && forall a :: (k, a) in n ==> !Filled(a)
  }

  // Two keys mean `c`.
  predicate Twice(cfg: Config, t: Tags, i: int, j: int, c: string) {
    0 <= i < j < |t| && Canonical(cfg, t[i].0) == c && Canonical(cfg, t[j].0) == c
  }

  // Both keys are there, the first one earlier.
  predicate Before(t: Tags, o: string, p: string) {
    exists i, j :: 0 <= i < j < |t| && t[i].0 == o && t[j].0 == p
  }

  ghost predicate Conflicted(vs: seq<Violation>, c: string) {
    exists ks :: Conflict(c, ks) in vs
  }

  ghost predicate ConflictsReported(cfg: Config, t: Tags, vs: seq<Violation>) {
    && (forall c :: Conflicted(vs, c) <==> exists i, j :: Twice(cfg, t, i, j, c))
    && (forall c, ks :: Conflict(c, ks) in vs ==>
          && (forall o :: o in ks <==> exists i :: 0 <= i < |t| && t[i].0 == o && Canonical(cfg, o) == c)
          && forall x, y :: 0 <= x < y < |ks| ==> Before(t, ks[x], ks[y]))
  }

  // ----- Why.

  lemma RuleLookup(cfg: Config, k: string)
    requires Dict(cfg.rules)
    ensures Has(cfg.rules, k) <==> exists i :: IsRule(cfg, i, k)
    ensures forall i :: IsRule(cfg, i, k) ==> Lookup(cfg.rules, k) == Some(cfg.rules[i].1)
  {
    HasMeans(cfg.rules, k);
    forall i | IsRule(cfg, i, k) ensures Lookup(cfg.rules, k) == Some(cfg.rules[i].1) { LookupAt(cfg.rules, i); }
    if i :| 0 <= i < |cfg.rules| && cfg.rules[i].0 == k { assert IsRule(cfg, i, k); }
  }

  lemma ValuesMean(cfg: Config, k: string, a: string)
    requires Dict(cfg.rules)
    ensures BadValue(cfg, k, a) <==> Filled(a) && exists i :: NotAllowed(cfg, i, k, a)
    ensures BadFormat(cfg, k, a) <==> Filled(a) && exists i :: NotMatched(cfg, i, k, a)
  {
    RuleLookup(cfg, k);
    assert Blank(a) <==> !Filled(a);
    if i :| IsRule(cfg, i, k) {
      var allowed := cfg.rules[i].1.allowed;
      assert a !in allowed <==> forall x :: 0 <= x < |allowed| ==> allowed[x] != a;
      assert NotAllowed(cfg, i, k, a) <==> allowed != [] && a !in allowed;
      assert NotMatched(cfg, i, k, a) <==> cfg.rules[i].1.pattern != "" && !cfg.matches(cfg.rules[i].1.pattern, a);
    }
  }

  lemma RequiredMeans(cfg: Config, extra: seq<string>, k: string)
    requires Dict(cfg.rules)
    ensures Required(cfg, extra, k) <==>
        (exists i :: RequiredBy(cfg, i, k)) || exists x :: 0 <= x < |extra| && Canonical(cfg, extra[x]) == k
  {
    hide Canonical;
    RuleLookup(cfg, k);
    if i :| IsRule(cfg, i, k) { assert RequiredBy(cfg, i, k) <==> cfg.rules[i].1.required; }
    if e :| e in extra && Canonical(cfg, e) == k {
      var x :| 0 <= x < |extra| && extra[x] == e;
    }
  }

  lemma ForeignMeans(cfg: Config, k: string)
    requires Dict(cfg.rules)
    ensures Foreign(cfg, k) <==>
        (forall i :: !IsRule(cfg, i, k)) && !(|cfg.lower(k)| >= 4 && cfg.lower(k)[..4] == ['a', 'w', 's', ':'])
  {
    RuleLookup(cfg, k);
    assert ['a', 'w', 's', ':'] == "aws:";
  }

  lemma {:induction false} FirstMeans(cfg: Config, t: Tags, c: string, a: string)
    ensures First(cfg, t, c) == Some(a) <==> exists i :: FirstOf(cfg, t, i, c) && t[i].1 == a
  {
    hide Canonical;
    if t != [] {
      var front, n := t[..|t| - 1], |t| - 1;
      FirstMeans(cfg, front, c, a);
      FirstFound(cfg, front, c);
      forall i | 0 <= i < n ensures FirstOf(cfg, front, i, c) <==> FirstOf(cfg, t, i, c) {
        assert front[i] == t[i] && forall j :: 0 <= j < i ==> front[j] == t[j];
      }
      if i :| FirstOf(cfg, front, i, c) && front[i].1 == a { assert FirstOf(cfg, t, i, c); }
    }
  }

  lemma {:induction false} FirstFound(cfg: Config, t: Tags, c: string)
    ensures First(cfg, t, c).None? <==> forall i :: 0 <= i < |t| ==> Canonical(cfg, t[i].0) != c
  {
    hide Canonical;
    if t != [] { FirstFound(cfg, t[..|t| - 1], c); }
  }

  lemma NormRight(cfg: Config, t: Tags)
    ensures NormalizedRight(cfg, t, Norm(cfg, t))
    ensures forall c, a :: (c, a) in Norm(cfg, t) <==> First(cfg, t, c) == Some(a)
  {
    var n := Norm(cfg, t);
    NormIsDict(cfg, t);
    hide Norm, First, Canonical;
    forall c, a
      ensures (c, a) in n <==> First(cfg, t, c) == Some(a)
      ensures First(cfg, t, c) == Some(a) <==> exists i :: FirstOf(cfg, t, i, c) && t[i].1 == a
    {
      NormIsFirst(cfg, t, c);
      FirstMeans(cfg, t, c, a);
      if (c, a) in n {
        var i :| 0 <= i < |n| && n[i] == (c, a);
        LookupAt(n, i);
      } else if Has(n, c) {
        var i := LookupFinds(n, c);
      }
    }
  }

  lemma {:induction false} OriginalsFound(cfg: Config, t: Tags, c: string, o: string)
    ensures o in Originals(cfg, t, c) <==> exists i :: 0 <= i < |t| && t[i].0 == o && Canonical(cfg, o) == c
  {
    hide Canonical;
    if t != [] {
      var front, n := t[..|t| - 1], |t| - 1;
      OriginalsFound(cfg, front, c, o);
      if i :| 0 <= i < |t| && t[i].0 == o && Canonical(cfg, o) == c {
        if i < n { assert front[i] == t[i]; }
      }
    }
  }

  // The keys that mean `c` are listed in order.
  lemma {:induction false} OriginalsInOrder(cfg: Config, t: Tags, c: string)
    ensures forall x, y :: 0 <= x < y < |Originals(cfg, t, c)| ==>
              Before(t, Originals(cfg, t, c)[x], Originals(cfg, t, c)[y])
  {
    hide Canonical;
    if t != [] {
      var front, n := t[..|t| - 1], |t| - 1;
      var os, all := Originals(cfg, front, c), Originals(cfg, t, c);
      OriginalsInOrder(cfg, front, c);
      forall x, y | 0 <= x < y < |all| ensures Before(t, all[x], all[y]) {
        if y < |os| {
          assert Before(front, os[x], os[y]);
          var i, j :| 0 <= i < j < n && front[i].0 == os[x] && front[j].0 == os[y];
          assert t[i].0 == all[x] && t[j].0 == all[y];
        } else {
          OriginalsFound(cfg, front, c, os[x]);
          assert os[x] in os;
          var i :| 0 <= i < n && front[i].0 == os[x];
          assert t[i].0 == all[x] && t[n].0 == all[y];
        }
      }
    }
  }

  lemma {:induction false} OriginalsTwice(cfg: Config, t: Tags, c: string)
    ensures |Originals(cfg, t, c)| > 1 <==> exists i, j :: Twice(cfg, t, i, j, c)
  {
    hide Canonical;
    if t != [] {
      var front, n := t[..|t| - 1], |t| - 1;
      var os := Originals(cfg, front, c);
      OriginalsTwice(cfg, front, c);
      forall i, j | 0 <= i < j < n ensures Twice(cfg, front, i, j, c) <==> Twice(cfg, t, i, j, c) {}
      if Canonical(cfg, t[n].0) == c && os != [] {
        OriginalsFound(cfg, front, c, os[0]);
        var i :| 0 <= i < n && front[i].0 == os[0] && Canonical(cfg, os[0]) == c;
        assert Twice(cfg, t, i, n, c);
      } else if i, j :| Twice(cfg, t, i, j, c) {
        if j < n { assert Twice(cfg, front, i, j, c); }
        else { OriginalsFound(cfg, front, c, t[i].0); assert front[i].0 in os; }
      }
      if i, j :| Twice(cfg, front, i, j, c) { assert Twice(cfg, t, i, j, c); }
    }
  }

  lemma ConflictsRight(cfg: Config, t: Tags, vs: seq<Violation>)
    requires forall c, ks :: Conflict(c, ks) in vs <==> ks == Originals(cfg, t, c) && |ks| > 1
    ensures ConflictsReported(cfg, t, vs)
  {
    hide Canonical;
    forall c
      ensures Conflicted(vs, c) <==> |Originals(cfg, t, c)| > 1
      ensures |Originals(cfg, t, c)| > 1 <==> exists i, j :: Twice(cfg, t, i, j, c)
    {
      OriginalsTwice(cfg, t, c);
      assert |Originals(cfg, t, c)| > 1 ==> Conflict(c, Originals(cfg, t, c)) in vs;
    }
    forall c, ks | Conflict(c, ks) in vs
      ensures forall o :: o in ks <==> exists i :: 0 <= i < |t| && t[i].0 == o && Canonical(cfg, o) == c
      ensures forall x, y :: 0 <= x < y < |ks| ==> Before(t, ks[x], ks[y])
    {
      OriginalsInOrder(cfg, t, c);
      forall o ensures o in ks <==> exists i :: 0 <= i < |t| && t[i].0 == o && Canonical(cfg, o) == c {
        OriginalsFound(cfg, t, c, o);
      }
    }
  }

  // Everything there is to report about `t`, and nothing else.
  ghost predicate Reported(cfg: Config, t: Tags, extra: seq<string>, partial: bool, n: Tags, vs: seq<Violation>) {
    && NormalizedRight(cfg, t, n) && ValuesReported(cfg, n, vs) && UnknownReported(cfg, n, vs)
    && MissingReported(cfg, n, extra, partial, vs) && ConflictsReported(cfg, t, vs)
  }

  lemma UnruledMeans(cfg: Config, t: Tags, k: string)
    requires Dict(cfg.rules)
    ensures First(cfg, t, k).Some? && Foreign(cfg, k) <==> Unruled(cfg, Norm(cfg, t), k)
  {
    NormRight(cfg, t);
    ForeignMeans(cfg, k);
    hide Norm, First, Foreign;
    if First(cfg, t, k).Some? { assert (k, First(cfg, t, k).value) in Norm(cfg, t); }
  }

  lemma ValuesRight(cfg: Config, t: Tags, vs: seq<Violation>)
    requires Dict(cfg.rules)
    requires forall k, a :: InvalidValue(k, a) in vs <==> First(cfg, t, k) == Some(a) && BadValue(cfg, k, a)
    requires forall k, a :: InvalidFormat(k, a) in vs <==> First(cfg, t, k) == Some(a) && BadFormat(cfg, k, a)
    ensures ValuesReported(cfg, Norm(cfg, t), vs)
  {
    NormRight(cfg, t);
    hide Norm, First, BadValue, BadFormat;
    forall k, a
      ensures BadValue(cfg, k, a) <==> Filled(a) && exists i :: NotAllowed(cfg, i, k, a)
      ensures BadFormat(cfg, k, a) <==> Filled(a) && exists i :: NotMatched(cfg, i, k, a)
    {
      ValuesMean(cfg, k, a);
    }
  }

  lemma MissingRight(cfg: Config, t: Tags, extra: seq<string>, partial: bool, vs: seq<Violation>)
    requires Dict(cfg.rules)
    requires forall k :: Missing(k) in vs <==> !partial && Required(cfg, extra, k) && Empty(First(cfg, t, k))
    ensures MissingReported(cfg, Norm(cfg, t), extra, partial, vs)
  {
    var n := Norm(cfg, t);
    NormRight(cfg, t);
    hide Norm, First, Required, Canonical;
    forall k
      ensures Empty(First(cfg, t, k)) <==> forall a :: (k, a) in n ==> !Filled(a)
      ensures Required(cfg, extra, k) <==>
        (exists i :: RequiredBy(cfg, i, k)) || exists x :: 0 <= x < |extra| && Canonical(cfg, extra[x]) == k
    {
      RequiredMeans(cfg, extra, k);
      if First(cfg, t, k).Some? {
        var a := First(cfg, t, k).value;
        assert (k, a) in n && (Blank(a) <==> !Filled(a));
      }
    }
  }

  lemma UnknownRight(cfg: Config, t: Tags, vs: seq<Violation>)
    requires Dict(cfg.rules)
    requires forall k :: UnknownTag(k) in vs <==> cfg.unknown == Deny && First(cfg, t, k).Some? && Foreign(cfg, k)
    ensures UnknownReported(cfg, Norm(cfg, t), vs)
  {
    forall k ensures First(cfg, t, k).Some? && Foreign(cfg, k) <==> Unruled(cfg, Norm(cfg, t), k) {
      UnruledMeans(cfg, t, k);
    }
    hide Norm, First, Foreign, Unruled;
  }

  /** Violations that are those `Violates` defines, are those the rules of the schema call for, one by one. */
  lemma EvaluationRight(cfg: Config, t: Tags, extra: seq<string>, partial: bool, vs: seq<Violation>)
    requires Dict(cfg.rules)
    requires forall v :: v in vs <==> Violates(cfg, t, extra, partial, v)
    ensures Reported(cfg, t, extra, partial, Norm(cfg, t), vs)
  {
    NormRight(cfg, t);
    hide Norm, First, Canonical, Originals, BadValue, BadFormat, Foreign, Required, Empty;
    ValuesRight(cfg, t, vs);
    MissingRight(cfg, t, extra, partial, vs);
    UnknownRight(cfg, t, vs);
    ConflictsRight(cfg, t, vs);
    hide ValuesReported, MissingReported, UnknownReported, ConflictsReported, NormalizedRight, Violates;
  }

  /** Warnings likewise. */
  lemma WarningsRight(cfg: Config, t: Tags, warnings: seq<Violation>)
    requires Dict(cfg.rules)
    requires forall v :: v in warnings <==>
               v.UnknownTag? && cfg.unknown == Warn && First(cfg, t, v.tag).Some? && Foreign(cfg, v.tag)
    ensures UnknownWarned(cfg, Norm(cfg, t), warnings)
  {
    forall k ensures First(cfg, t, k).Some? && Foreign(cfg, k) <==> Unruled(cfg, Norm(cfg, t), k) {
      UnruledMeans(cfg, t, k);
    }
    hide Norm, First, Foreign, Unruled;
  }
}
