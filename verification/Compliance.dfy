/** Planned changes and compliance: when applying a valid plan keeps a resource as compliant as it was. */
module Compliance {
  import opened Wrappers
  import opened Text
  import opened Governance

  // ----- Updating an ordered dictionary.

  function Replace<V>(t: seq<(string, V)>, k: string, v: V): seq<(string, V)> {
    if t == [] then []
    else if t[|t| - 1].0 == k then t[..|t| - 1] + [(k, v)]
    else Replace(t[..|t| - 1], k, v) + [t[|t| - 1]]
  }

  // `t[k] = v`: an existing key keeps its place.
  function Put<V>(t: seq<(string, V)>, k: string, v: V): seq<(string, V)> {
    if Has(t, k) then Replace(t, k, v) else t + [(k, v)]
  }

  // `t.update(ch)`
  function Update(t: Tags, ch: Tags): Tags {
    if ch == [] then t
    else Put(Update(t, ch[..|ch| - 1]), ch[|ch| - 1].0, ch[|ch| - 1].1)
  }

  // The changes `build_plan` makes to live tags `cur` for normalised requested tags `norm`.
  function Changes(norm: Tags, cur: Tags, overwrite: bool): Tags {
    if norm == [] then []
    else
      var rest := Changes(norm[..|norm| - 1], cur, overwrite);
      var (k, v) := norm[|norm| - 1];
      if Lookup(cur, k) == Some(v) || (Has(cur, k) && !overwrite) then rest else rest + [(k, v)]
  }

  // ----- What a change does to the normalised view.

  lemma {:induction false} OriginalsMean(cfg: Config, t: Tags, c: string)
    ensures forall o :: o in Originals(cfg, t, c) <==> Has(t, o) && Canonical(cfg, o) == c
  {
    if t != [] { OriginalsMean(cfg, t[..|t| - 1], c); }
  }

  predicate Leads(os: seq<string>, k: string) {
    os != [] && os[0] == k
  }

  lemma {:induction false} ReplaceView(cfg: Config, t: Tags, k: string, v: string, c: string)
    requires Dict(t)
    ensures Originals(cfg, Replace(t, k, v), c) == Originals(cfg, t, c)
    ensures First(cfg, Replace(t, k, v), c) ==
            if Leads(Originals(cfg, t, c), k) then Some(v) else First(cfg, t, c)
  {
    if t != [] {
      var front, last, r := t[..|t| - 1], t[|t| - 1], Replace(t, k, v);
      OriginalsAndFirst(cfg, front, c);
      if last.0 == k {
        assert r[..|r| - 1] == front;
        OriginalsMean(cfg, front, c);
        LastIsNew(t);
      } else {
        assert r[..|r| - 1] == Replace(front, k, v);
        ReplaceView(cfg, front, k, v, c);
      }
    }
  }

  lemma {:induction false} ReplaceDict<V>(t: seq<(string, V)>, k: string, v: V)
    ensures |Replace(t, k, v)| == |t| && forall i :: 0 <= i < |t| ==> Replace(t, k, v)[i].0 == t[i].0
  {
    if t != [] {
      if t[|t| - 1].0 != k { ReplaceDict(t[..|t| - 1], k, v); }
    }
  }

  lemma {:induction false} SameKeys<V>(t: seq<(string, V)>, u: seq<(string, V)>, x: string)
    requires |t| == |u| && forall i :: 0 <= i < |t| ==> t[i].0 == u[i].0
    ensures Has(t, x) == Has(u, x)
  {
    if t != [] { SameKeys(t[..|t| - 1], u[..|u| - 1], x); }
  }

  lemma PutView(cfg: Config, t: Tags, k: string, v: string, c: string)
    requires Dict(t)
    ensures Dict(Put(t, k, v)) && forall x :: Has(Put(t, k, v), x) <==> Has(t, x) || x == k
    ensures Originals(cfg, Put(t, k, v), c) ==
            Originals(cfg, t, c) + (if !Has(t, k) && Canonical(cfg, k) == c then [k] else [])
    ensures First(cfg, Put(t, k, v), c) ==
            if Has(t, k) then (if Leads(Originals(cfg, t, c), k) then Some(v) else First(cfg, t, c))
            else if First(cfg, t, c).None? && Canonical(cfg, k) == c then Some(v) else First(cfg, t, c)
  {
    if Has(t, k) {
      ReplaceView(cfg, t, k, v, c);
      ReplaceDict(t, k, v);
      forall x ensures Has(Replace(t, k, v), x) == Has(t, x) { SameKeys(Replace(t, k, v), t, x); }
    } else {
      assert (t + [(k, v)])[..|t|] == t;
      forall i | 0 <= i < |t| ensures t[i].0 != k { LookupAt(t, i); }
    }
  }

  predicate CanonicalDict(cfg: Config, t: Tags) {
    Dict(t) && forall i :: 0 <= i < |t| ==> Canonical(cfg, t[i].0) == t[i].0
  }

  /** After a canonical update, each canonical key has its old originals, plus itself if it is new; its value is the new
      one unless another live key comes first. */
  lemma {:induction false} UpdateView(cfg: Config, cur: Tags, ch: Tags, c: string)
    requires Dict(cur) && CanonicalDict(cfg, ch)
    ensures var after := Update(cur, ch);
      && Dict(after)
      && (forall x :: Has(after, x) <==> Has(cur, x) || Has(ch, x))
      && Originals(cfg, after, c) == Originals(cfg, cur, c) + (if Has(ch, c) && !Has(cur, c) then [c] else [])
      && First(cfg, after, c) ==
         if !Has(ch, c) then First(cfg, cur, c)
         else if Has(cur, c) then (if Leads(Originals(cfg, cur, c), c) then Lookup(ch, c) else First(cfg, cur, c))
         else if First(cfg, cur, c).None? then Lookup(ch, c) else First(cfg, cur, c)
  {
    hide Originals, First, Put, Canonical;
    OriginalsMean(cfg, cur, c);
    if ch != [] {
      var front := ch[..|ch| - 1];
      var (k, v) := ch[|ch| - 1];
      var mid := Update(cur, front);
      UpdateView(cfg, cur, front, c);
      PutView(cfg, mid, k, v, c);
      OriginalsMean(cfg, mid, c);
      LastIsNew(ch);
    }
  }

  lemma {:induction false} ChangesView(cfg: Config, norm: Tags, cur: Tags, overwrite: bool, c: string)
    requires CanonicalDict(cfg, norm)
    ensures CanonicalDict(cfg, Changes(norm, cur, overwrite))
    ensures Lookup(Changes(norm, cur, overwrite), c) ==
            if Lookup(cur, c) == Lookup(norm, c) || (Has(cur, c) && !overwrite) then None else Lookup(norm, c)
  {
    hide Canonical;
    if norm != [] {
      var front := norm[..|norm| - 1];
      var (k, v) := norm[|norm| - 1];
      ChangesView(cfg, front, cur, overwrite, c);
      ChangesView(cfg, front, cur, overwrite, k);
      var rest := Changes(front, cur, overwrite);
      LastIsNew(norm);
      DictSnoc(rest, k, v);
    }
  }

  // ----- The main result.

  // The plan `build_plan` makes for one resource, and the tags it expects afterwards.
  function After(cfg: Config, wanted: Tags, cur: Tags, overwrite: bool): Tags {
    Update(cur, Changes(Norm(cfg, wanted), cur, overwrite))
  }

  // The item has no `invalid` entries.
  ghost predicate ValidItem(cfg: Config, wanted: Tags) {
    forall v :: !Violates(cfg, wanted, [], true, v)
  }

  ghost predicate KeepsCompliance(cfg: Config, cur: Tags, after: Tags, extra: seq<string>) {
    forall v :: Violates(cfg, after, extra, false, v) ==> Violates(cfg, cur, extra, false, v)
  }

  // Writing `v` to canonical key `k`: a new key must have no live alias, and a needed value that counts must not
  // be blanked.
  predicate SafeChange(cfg: Config, cur: Tags, extra: seq<string>, k: string, v: string) {
    if Has(cur, k) then
      !(Blank(v) && Required(cfg, extra, k) && Leads(Originals(cfg, cur, k), k) && !Blank(Lookup(cur, k).value))
    else Originals(cfg, cur, k) == []
  }

  predicate SafeChanges(cfg: Config, cur: Tags, extra: seq<string>, ch: Tags) {
    forall i :: 0 <= i < |ch| ==> SafeChange(cfg, cur, extra, ch[i].0, ch[i].1)
  }

  lemma {:induction false} FirstOfOwnKey(cfg: Config, t: Tags, k: string)
    requires Dict(t) && Leads(Originals(cfg, t, k), k)
    ensures First(cfg, t, k) == Lookup(t, k)
  {
    var front := t[..|t| - 1];
    OriginalsAndFirst(cfg, front, k);
    if Originals(cfg, front, k) != [] {
      FirstOfOwnKey(cfg, front, k);
      OriginalsMean(cfg, front, k);
      var i := LookupFinds(front, k);
      assert t[i].0 == k && t[|t| - 1].0 != k;
    }
  }

  predicate GoodValue(cfg: Config, k: string, v: string) {
    !BadValue(cfg, k, v) && !BadFormat(cfg, k, v) && (cfg.unknown == Deny ==> !Foreign(cfg, k))
  }

  predicate GoodValues(cfg: Config, ch: Tags) {
    forall i :: 0 <= i < |ch| ==> GoodValue(cfg, ch[i].0, ch[i].1)
  }

  // What a valid request says about the value it gives a key.
  lemma RequestedValueIsGood(cfg: Config, wanted: Tags, c: string)
    requires ValidItem(cfg, wanted) && First(cfg, wanted, c).Some?
    ensures GoodValue(cfg, c, First(cfg, wanted, c).value)
  {
    hide BadValue, BadFormat, Foreign, First;
    var v := First(cfg, wanted, c).value;
    assert !Violates(cfg, wanted, [], true, InvalidValue(c, v));
    assert !Violates(cfg, wanted, [], true, InvalidFormat(c, v));
    assert !Violates(cfg, wanted, [], true, UnknownTag(c));
  }

  // The changes of a plan are canonical, and those of a valid request are good.
  lemma PlannedChanges(cfg: Config, wanted: Tags, cur: Tags, overwrite: bool)
    ensures var ch := Changes(Norm(cfg, wanted), cur, overwrite);
      CanonicalDict(cfg, ch) && (ValidItem(cfg, wanted) ==> GoodValues(cfg, ch))
  {
    var ch := Changes(Norm(cfg, wanted), cur, overwrite);
    NormIsDict(cfg, wanted);
    ChangesView(cfg, Norm(cfg, wanted), cur, overwrite, "");
    hide Norm, Changes, Lookup, First, Canonical, ValidItem, BadValue, BadFormat, Foreign;
    forall i | ValidItem(cfg, wanted) && 0 <= i < |ch| ensures GoodValue(cfg, ch[i].0, ch[i].1) {
      LookupAt(ch, i);
      ChangesView(cfg, Norm(cfg, wanted), cur, overwrite, ch[i].0);
      NormIsFirst(cfg, wanted, ch[i].0);
      RequestedValueIsGood(cfg, wanted, ch[i].0);
    }
  }

  lemma SafeKeeps(cfg: Config, cur: Tags, ch: Tags, extra: seq<string>, v: Violation)
    requires Dict(cur) && CanonicalDict(cfg, ch) && GoodValues(cfg, ch) && SafeChanges(cfg, cur, extra, ch)
    requires Violates(cfg, Update(cur, ch), extra, false, v)
    ensures Violates(cfg, cur, extra, false, v)
  {
    var c := v.tag;
    UpdateView(cfg, cur, ch, c);
    OriginalsAndFirst(cfg, cur, c);
    if Has(ch, c) {
      var i := LookupFinds(ch, c);
      assert GoodValue(cfg, ch[i].0, ch[i].1) && SafeChange(cfg, cur, extra, ch[i].0, ch[i].1);
      if Has(cur, c) && Leads(Originals(cfg, cur, c), c) { FirstOfOwnKey(cfg, cur, c); }
    }
  }

  lemma UnsafeBreaks(cfg: Config, cur: Tags, ch: Tags, extra: seq<string>, i: nat)
    requires Dict(cur) && CanonicalDict(cfg, ch) && i < |ch| && !SafeChange(cfg, cur, extra, ch[i].0, ch[i].1)
    ensures !KeepsCompliance(cfg, cur, Update(cur, ch), extra)
  {
    var after := Update(cur, ch);
    var (k, v) := ch[i];
    LookupAt(ch, i);
    UpdateView(cfg, cur, ch, k);
    if Has(cur, k) {
      FirstOfOwnKey(cfg, cur, k);
      assert Violates(cfg, after, extra, false, Missing(k)) && !Violates(cfg, cur, extra, false, Missing(k));
    } else {
      var ks := Originals(cfg, cur, k) + [k];
      assert Violates(cfg, after, extra, false, Conflict(k, ks)) && !Violates(cfg, cur, extra, false, Conflict(k, ks));
    }
  }

  /** A valid plan adds no violation exactly when each of its changes is safe. */
  lemma ValidPlanKeepsComplianceExactly(cfg: Config, wanted: Tags, cur: Tags, overwrite: bool, extra: seq<string>)
    requires Dict(cur) && ValidItem(cfg, wanted)
    ensures KeepsCompliance(cfg, cur, After(cfg, wanted, cur, overwrite), extra)
            <==> SafeChanges(cfg, cur, extra, Changes(Norm(cfg, wanted), cur, overwrite))
  {
    var ch, after := Changes(Norm(cfg, wanted), cur, overwrite), After(cfg, wanted, cur, overwrite);
    PlannedChanges(cfg, wanted, cur, overwrite);
    hide Changes, Norm, Violates, Update, ValidItem, SafeChange;
    if SafeChanges(cfg, cur, extra, ch) {
      forall v | Violates(cfg, after, extra, false, v) ensures Violates(cfg, cur, extra, false, v) {
        SafeKeeps(cfg, cur, ch, extra, v);
      }
    } else {
      var i :| 0 <= i < |ch| && !SafeChange(cfg, cur, extra, ch[i].0, ch[i].1);
      UnsafeBreaks(cfg, cur, ch, extra, i);
    }
  }

  /** On live tags whose keys are canonical, a valid plan of non-blank values never adds a violation. */
  lemma CanonicalLiveTagsStayCompliant(cfg: Config, wanted: Tags, cur: Tags, overwrite: bool, extra: seq<string>)
    requires CanonicalDict(cfg, cur) && ValidItem(cfg, wanted)
    requires forall i :: 0 <= i < |wanted| ==> !Blank(wanted[i].1)
    ensures KeepsCompliance(cfg, cur, After(cfg, wanted, cur, overwrite), extra)
  {
    var ch := Changes(Norm(cfg, wanted), cur, overwrite);
    NormIsDict(cfg, wanted);
    forall i | 0 <= i < |ch| ensures SafeChange(cfg, cur, extra, ch[i].0, ch[i].1) {
      var (k, v) := ch[i];
      ChangesView(cfg, Norm(cfg, wanted), cur, overwrite, k);
      LookupAt(ch, i);
      NormIsFirst(cfg, wanted, k);
      FirstIsAValue(cfg, wanted, k);
      OriginalsMean(cfg, cur, k);
      if Originals(cfg, cur, k) != [] {
        var o := Originals(cfg, cur, k)[0];
        assert o in Originals(cfg, cur, k);
        var j := LookupFinds(cur, o);
        assert Canonical(cfg, cur[j].0) == cur[j].0;
      }
    }
    ValidPlanKeepsComplianceExactly(cfg, wanted, cur, overwrite, extra);
  }

  lemma {:induction false} FirstIsAValue(cfg: Config, t: Tags, c: string)
    ensures First(cfg, t, c).Some? ==> exists i :: 0 <= i < |t| && t[i].1 == First(cfg, t, c).value
  {
    if t != [] {
      FirstIsAValue(cfg, t[..|t| - 1], c);
      if First(cfg, t[..|t| - 1], c).Some? {
        var i :| 0 <= i < |t| - 1 && t[..|t| - 1][i].1 == First(cfg, t, c).value;
        assert t[i].1 == First(cfg, t, c).value;
      } else {
        assert First(cfg, t, c).Some? ==> t[|t| - 1].1 == First(cfg, t, c).value;
      }
    }
  }

  // ----- Valid plans that add a violation.

  function OneRule(key: string, required: bool, aliases: seq<string>, lower: string -> string,
                   matches: (string, string) -> bool): Config {
    Config([(key, Rule(required, false, [], "", aliases))], Ignore, true, lower, matches)
  }

  lemma OneLookup<V>(k: string, v: V)
    ensures Lookup([(k, v)], k) == Some(v)
  {}

  lemma OneKey(cfg: Config, key: string)
    requires |cfg.rules| == 1 && cfg.rules[0].0 == key
    ensures Has(cfg.rules, key) && Canonical(cfg, key) == key
  {
    assert cfg.rules[..0] == [];
  }

  lemma OnePair(cfg: Config, k: string, v: string, c: string)
    ensures Originals(cfg, [(k, v)], c) == if Canonical(cfg, k) == c then [k] else []
    ensures First(cfg, [(k, v)], c) == if Canonical(cfg, k) == c then Some(v) else None
    ensures Norm(cfg, [(k, v)]) == [(Canonical(cfg, k), v)]
    ensures forall x :: Lookup([(k, v)], x) == if x == k then Some(v) else None
  {
    assert [(k, v)][..0] == [];
    assert Lookup([], Canonical(cfg, k)) == Option<string>.None;
  }

  // The only change of a one-pair request for a schema key.
  lemma OneChange(cfg: Config, key: string, v: string, cur: Tags, overwrite: bool)
    requires Canonical(cfg, key) == key
    ensures Changes(Norm(cfg, [(key, v)]), cur, overwrite) ==
            if Lookup(cur, key) == Some(v) || (Has(cur, key) && !overwrite) then [] else [(key, v)]
  {
    OnePair(cfg, key, v, key);
    assert [(key, v)][..0] == [] && Changes([], cur, overwrite) == [];
  }

  // A request for an unrestricted key is valid, whatever its value.
  lemma OneIsValid(cfg: Config, key: string, v: string)
    requires cfg.unknown == Ignore && Canonical(cfg, key) == key && Has(cfg.rules, key)
    requires Lookup(cfg.rules, key).value.allowed == [] && Lookup(cfg.rules, key).value.pattern == ""
    ensures ValidItem(cfg, [(key, v)])
  {
    forall x ensures !Violates(cfg, [(key, v)], [], true, x) { OnePair(cfg, key, v, x.tag); }
  }

  /** A valid plan can add a conflict: the resource has an alias of the key, and the plan adds the key itself. */
  lemma ValidPlanMayConflict(key: string, alias: string, v: string, w: string, lower: string -> string,
                             matches: (string, string) -> bool, overwrite: bool, extra: seq<string>)
    requires key != alias
    ensures var cfg := OneRule(key, false, [alias], lower, matches);
      var wanted, cur := [(key, v)], [(alias, w)];
      var conflict := Conflict(key, [alias, key]);
      && ValidItem(cfg, wanted)
      && !Violates(cfg, cur, extra, false, conflict)
      && Violates(cfg, After(cfg, wanted, cur, overwrite), extra, false, conflict)
  {
    var cfg := OneRule(key, false, [alias], lower, matches);
    var wanted, cur := [(key, v)], [(alias, w)];
    AliasMeansKey(key, alias, lower, matches);
    OneKey(cfg, key);
    OneLookup(key, cfg.rules[0].1);
    assert cfg.unknown == Ignore && cfg.rules == [(key, cfg.rules[0].1)];
    assert Lookup(cfg.rules, key).value.allowed == [] && Lookup(cfg.rules, key).value.pattern == "";
    hide *;
    OneIsValid(cfg, key, v);
    KeyJoinsAlias(cfg, key, alias, v, w, overwrite);
    ConflictMeans(cfg, cur, extra, key, [alias, key]);
    ConflictMeans(cfg, After(cfg, wanted, cur, overwrite), extra, key, [alias, key]);
  }

  lemma ConflictMeans(cfg: Config, t: Tags, extra: seq<string>, k: string, ks: seq<string>)
    ensures Violates(cfg, t, extra, false, Conflict(k, ks)) <==> ks == Originals(cfg, t, k) && |ks| > 1
  {
    hide Originals;
  }

  lemma KeyJoinsAlias(cfg: Config, key: string, alias: string, v: string, w: string, overwrite: bool)
    requires key != alias && Canonical(cfg, key) == key && Canonical(cfg, alias) == key
    ensures Originals(cfg, [(alias, w)], key) == [alias]
    ensures Originals(cfg, After(cfg, [(key, v)], [(alias, w)], overwrite), key) == [alias, key]
  {
    hide Canonical, Norm, Changes, Update, Originals, First, Lookup;
    var cur := [(alias, w)];
    OnePair(cfg, alias, w, key);
    OneChange(cfg, key, v, cur, overwrite);
    OnePair(cfg, key, v, key);
    UpdateView(cfg, cur, [(key, v)], key);
    assert [alias] + [key] == [alias, key];
  }

  lemma AliasMeansKey(key: string, alias: string, lower: string -> string, matches: (string, string) -> bool)
    requires key != alias
    ensures Canonical(OneRule(key, false, [alias], lower, matches), alias) == key
  {
    var cfg := OneRule(key, false, [alias], lower, matches);
    assert [alias][..0] == [] && cfg.rules[..0] == [];
    assert lower(alias) in AliasMap(cfg.rules, lower) && AliasMap(cfg.rules, lower)[lower(alias)] == key;
    HasNot(cfg.rules, alias);
  }

  /** A valid plan can leave a required tag empty: overwriting its value with a blank one is not refused. */
  lemma ValidPlanMayBlank(key: string, v: string, w: string, lower: string -> string,
                          matches: (string, string) -> bool, extra: seq<string>)
    requires Blank(v) && !Blank(w)
    ensures var cfg := OneRule(key, true, [], lower, matches);
      var wanted, cur := [(key, v)], [(key, w)];
      && ValidItem(cfg, wanted)
      && !Violates(cfg, cur, extra, false, Missing(key))
      && Violates(cfg, After(cfg, wanted, cur, true), extra, false, Missing(key))
  {
    var cfg := OneRule(key, true, [], lower, matches);
    var wanted, cur := [(key, v)], [(key, w)];
    OneKey(cfg, key);
    OneLookup(key, cfg.rules[0].1);
    assert cfg.unknown == Ignore && cfg.rules == [(key, cfg.rules[0].1)];
    assert Lookup(cfg.rules, key).value.allowed == [] && Lookup(cfg.rules, key).value.pattern == "";
    assert Required(cfg, extra, key);
    assert v != w by { assert Blank(v) != Blank(w); }
    assert After(cfg, wanted, cur, true) == Update(cur, Changes(Norm(cfg, wanted), cur, true));
    assert Dict(cur) && CanonicalDict(cfg, wanted) && (Has(cur, key) <==> Lookup(cur, key).Some?) && Leads([key], key);
    assert Has(wanted, key) <==> Lookup(wanted, key).Some?;
    hide *;
    OneIsValid(cfg, key, v);
    OnePair(cfg, key, w, key);
    OnePair(cfg, key, v, key);
    OneChange(cfg, key, v, cur, true);
    UpdateView(cfg, cur, wanted, key);
    MissingMeans(cfg, cur, extra, key);
    MissingMeans(cfg, After(cfg, wanted, cur, true), extra, key);
  }

  lemma MissingMeans(cfg: Config, t: Tags, extra: seq<string>, k: string)
    requires First(cfg, t, k).Some?
    ensures Violates(cfg, t, extra, false, Missing(k)) <==> Required(cfg, extra, k) && Blank(First(cfg, t, k).value)
  {
    hide First, Blank;
  }
}
