/** The normaliser, the validators and `evaluate`, as loops, proved against what `Violates` means. */
module GovernanceEngine {
  import opened Wrappers
  import opened Governance
  import opened GovernanceLaws

  function On(cfg: Config): Config {
    cfg.(normalize := true)
  }

  predicate ConflictIn(cfg: Config, t: Tags, v: Violation) {
    v.Conflict? && v.originals == Originals(cfg, t, v.tag) && |v.originals| > 1
  }

  class TagNormalizer {
    const cfg: Config
    var aliasMap: map<string, string>

    ghost predicate Valid()
      reads this
    {
      aliasMap == AliasMap(cfg.rules, cfg.lower)
    }

    constructor (cfg: Config)
      ensures Valid() && this.cfg == cfg
    {
      this.cfg := cfg;
      var m: map<string, string> := map[];
      var i := 0;
      while i < |cfg.rules|
        invariant i <= |cfg.rules| && m == AliasMap(cfg.rules[..i], cfg.lower)
      {
        var (key, rule) := cfg.rules[i];
        ghost var before := m;
        var j := 0;
        while j < |rule.aliases|
          invariant j <= |rule.aliases| && m == AliasesInto(rule.aliases[..j], key, cfg.lower, before)
        {
          m := m[cfg.lower(rule.aliases[j]) := key];
          assert rule.aliases[..j + 1][..j] == rule.aliases[..j];
          j := j + 1;
        }
        assert rule.aliases[..j] == rule.aliases && cfg.rules[..i + 1][..i] == cfg.rules[..i];
        i := i + 1;
      }
      assert cfg.rules[..i] == cfg.rules;
      aliasMap := m;
    }

    method GetCanonicalKey(k: string) returns (r: string)
      requires Valid()
      ensures r == CanonicalKey(cfg, k)
    {
      if Has(cfg.rules, k) { return k; }
      var low := cfg.lower(k);
      if low in aliasMap { return aliasMap[low]; }
      var i := 0;
      assert cfg.rules[0..] == cfg.rules;
      while i < |cfg.rules|
        invariant i <= |cfg.rules|
        invariant FoldedKey(cfg.rules, low, cfg.lower) == FoldedKey(cfg.rules[i..], low, cfg.lower)
      {
        if cfg.lower(cfg.rules[i].0) == low { return cfg.rules[i].0; }
        assert cfg.rules[i..][1..] == cfg.rules[i + 1..];
        i := i + 1;
      }
      return k;
    }

    method Normalize(tags: Tags) returns (normalized: Tags, violations: seq<Violation>)
      requires Valid()
      ensures normalized == Norm(On(cfg), tags)
      ensures forall v :: v in violations <==> ConflictIn(On(cfg), tags, v)
    {
      hide CanonicalKey, Canonical, Originals, Grouped;
      normalized := [];
      var canonicals: seq<string>, originals: map<string, seq<string>> := [], map[];
      GroupNone(cfg);
      var i := 0;
      while i < |tags|
        invariant i <= |tags| && normalized == Norm(On(cfg), tags[..i])
        invariant Grouped(cfg, tags[..i], canonicals, originals)
      {
        var (k, v) := tags[i];
        var c := GetCanonicalKey(k);
        OnCanonical(cfg, k);
        assert tags[..i + 1][..i] == tags[..i] && tags[..i + 1] == tags[..i] + [(k, v)];
        GroupNext(cfg, tags[..i], k, v, canonicals, originals);
        if c !in originals {
          canonicals := canonicals + [c];
          originals := originals[c := [k]];
        } else {
          originals := originals[c := originals[c] + [k]];
        }
        if !Has(normalized, c) { normalized := normalized + [(c, v)]; }
        i := i + 1;
      }
      assert tags[..i] == tags;
      violations := ConflictsOf(tags, canonicals, originals);
    }

    method ConflictsOf(ghost tags: Tags, canonicals: seq<string>, originals: map<string, seq<string>>)
      returns (violations: seq<Violation>)
      requires Grouped(cfg, tags, canonicals, originals)
      ensures forall v :: v in violations <==> ConflictIn(On(cfg), tags, v)
    {
      hide Originals;
      violations := [];
      var j := 0;
      while j < |canonicals|
        invariant j <= |canonicals|
        invariant forall v :: v in violations <==> ConflictIn(On(cfg), tags, v) && v.tag in canonicals[..j]
      {
        var c := canonicals[j];
        assert c in canonicals && canonicals[..j + 1] == canonicals[..j] + [c];
        if |originals[c]| > 1 { violations := violations + [Conflict(c, originals[c])]; }
        j := j + 1;
      }
      assert canonicals[..j] == canonicals;
    }
  }

  // The keys seen so far, grouped by what they mean.
  ghost predicate Grouped(cfg: Config, t: Tags, canonicals: seq<string>, originals: map<string, seq<string>>) {
    && (forall c :: c in originals <==> c in canonicals)
    && (forall c :: c in originals ==> originals[c] == Originals(On(cfg), t, c))
    && (forall c :: c !in originals ==> Originals(On(cfg), t, c) == [])
  }

  lemma GroupNone(cfg: Config)
    ensures Grouped(cfg, [], [], map[])
  {}

  lemma OriginalsNext(cfg: Config, t: Tags, k: string, v: string, x: string)
    ensures Originals(On(cfg), t + [(k, v)], x) ==
            Originals(On(cfg), t, x) + (if x == CanonicalKey(cfg, k) then [k] else [])
  {
    OnCanonical(cfg, k);
    assert (t + [(k, v)])[..|t|] == t;
  }

  lemma GroupNext(cfg: Config, t: Tags, k: string, v: string, canonicals: seq<string>,
                  originals: map<string, seq<string>>)
    requires Grouped(cfg, t, canonicals, originals)
    ensures var c := CanonicalKey(cfg, k);
            if c in originals then Grouped(cfg, t + [(k, v)], canonicals, originals[c := originals[c] + [k]])
            else Grouped(cfg, t + [(k, v)], canonicals + [c], originals[c := [k]])
  {
    hide CanonicalKey, Originals;
    forall x ensures Originals(On(cfg), t + [(k, v)], x) ==
                     Originals(On(cfg), t, x) + (if x == CanonicalKey(cfg, k) then [k] else []) {
      OriginalsNext(cfg, t, k, v, x);
    }
  }

  lemma OnCanonical(cfg: Config, k: string)
    ensures Canonical(On(cfg), k) == CanonicalKey(cfg, k)
  {}

  // ----- The validators.

  predicate RequiredAmong(cfg: Config, n: nat, c: string)
    requires n <= |cfg.rules|
  {
    exists k :: 0 <= k < n && cfg.rules[k].0 == c && cfg.rules[k].1.required
  }

  method ValidateRequired(cfg: Config, t: Tags) returns (r: seq<Violation>)
    requires Dict(cfg.rules)
    ensures forall v :: v in r <==> v.Missing? && Required(cfg, [], v.tag) && Empty(Lookup(t, v.tag))
  {
    r := [];
    var i := 0;
    while i < |cfg.rules|
      invariant i <= |cfg.rules|
      invariant forall v :: v in r <==> v.Missing? && Empty(Lookup(t, v.tag)) && RequiredAmong(cfg, i, v.tag)
    {
      var (key, rule) := cfg.rules[i];
      if rule.required && Empty(Lookup(t, key)) { r := r + [Missing(key)]; }
      i := i + 1;
    }
    forall c ensures Required(cfg, [], c) <==> RequiredAmong(cfg, |cfg.rules|, c) { RequiredByRule(cfg, c); }
  }

  lemma RequiredByRule(cfg: Config, c: string)
    requires Dict(cfg.rules)
    ensures Required(cfg, [], c) <==> RequiredAmong(cfg, |cfg.rules|, c)
  {
    if k :| 0 <= k < |cfg.rules| && cfg.rules[k].0 == c && cfg.rules[k].1.required {
      LookupAt(cfg.rules, k);
    } else if Required(cfg, [], c) {
      var k := LookupFinds(cfg.rules, c);
    }
  }

  // A violation of one of the kinds that look at each tag on its own.
  predicate Singles(cfg: Config, k: string, a: string, v: Violation) {
    match v
    case InvalidValue(t, x) => t == k && x == a && BadValue(cfg, k, a)
    case InvalidFormat(t, x) => t == k && x == a && BadFormat(cfg, k, a)
    case UnknownTag(t) => t == k && cfg.unknown != Ignore && Foreign(cfg, k)
    case _ => false
  }

  predicate SinglesAmong(cfg: Config, t: Tags, n: nat, v: Violation)
    requires n <= |t|
  {
    exists i :: 0 <= i < n && Singles(cfg, t[i].0, t[i].1, v)
  }

  // Allowed values, patterns and unknown keys.
  method ValidateTags(cfg: Config, t: Tags) returns (r: seq<Violation>)
    ensures forall v :: v in r <==> SinglesAmong(cfg, t, |t|, v)
  {
    var values: seq<Violation>, formats: seq<Violation>, unknowns: seq<Violation> := [], [], [];
    var i := 0;
    while i < |t|
      invariant i <= |t|
      invariant forall v :: v in values <==> v.InvalidValue? && SinglesAmong(cfg, t, i, v)
      invariant forall v :: v in formats <==> v.InvalidFormat? && SinglesAmong(cfg, t, i, v)
      invariant forall v :: v in unknowns <==> v.UnknownTag? && SinglesAmong(cfg, t, i, v)
    {
      var (k, a) := t[i];
      if BadValue(cfg, k, a) { values := values + [InvalidValue(k, a)]; }
      if BadFormat(cfg, k, a) { formats := formats + [InvalidFormat(k, a)]; }
      if cfg.unknown != Ignore && Foreign(cfg, k) { unknowns := unknowns + [UnknownTag(k)]; }
      i := i + 1;
    }
    r := values + formats + unknowns;
  }

  // ----- The engine.

  datatype Evaluation = Evaluation(compliant: bool, violations: seq<Violation>, warnings: seq<Violation>,
                                   normalized: Tags)

  lemma {:induction false} NormOff(cfg: Config, t: Tags)
    requires !cfg.normalize && Dict(t)
    ensures Norm(cfg, t) == t && forall c :: |Originals(cfg, t, c)| <= 1
  {
    if t != [] {
      NormOff(cfg, t[..|t| - 1]);
      LastIsNew(t);
      forall c ensures |Originals(cfg, t, c)| <= 1 {
        NormIsFirst(cfg, t[..|t| - 1], c);
        OriginalsAndFirst(cfg, t[..|t| - 1], c);
      }
    }
  }

  predicate SingleViolation(cfg: Config, t: Tags, v: Violation) {
    match v
    case InvalidValue(k, a) => First(cfg, t, k) == Some(a) && BadValue(cfg, k, a)
    case InvalidFormat(k, a) => First(cfg, t, k) == Some(a) && BadFormat(cfg, k, a)
    case UnknownTag(k) => cfg.unknown != Ignore && First(cfg, t, k).Some? && Foreign(cfg, k)
    case _ => false
  }

  lemma SinglesAreViolations(cfg: Config, t: Tags, v: Violation)
    ensures SinglesAmong(cfg, Norm(cfg, t), |Norm(cfg, t)|, v) <==> SingleViolation(cfg, t, v)
  {
    var n := Norm(cfg, t);
    NormIsDict(cfg, t);
    NormIsFirst(cfg, t, v.tag);
    hide Norm, First, BadValue, BadFormat, Foreign;
    if i :| 0 <= i < |n| && Singles(cfg, n[i].0, n[i].1, v) {
      LookupAt(n, i);
    } else if Has(n, v.tag) {
      var i := LookupFinds(n, v.tag);
      assert !Singles(cfg, n[i].0, n[i].1, v);
    }
  }

  method Evaluate(cfg: Config, tags: Tags, extra: seq<string>, partial: bool) returns (r: Evaluation)
    requires Dict(cfg.rules) && Dict(tags)
    ensures r.normalized == Norm(cfg, tags)
    ensures forall v :: v in r.violations <==> Violates(cfg, tags, extra, partial, v)
    ensures r.compliant <==> r.violations == []
    ensures forall v :: v in r.warnings <==>
              v.UnknownTag? && cfg.unknown == Warn && First(cfg, tags, v.tag).Some? && Foreign(cfg, v.tag)
    ensures Reported(cfg, tags, extra, partial, r.normalized, r.violations)
    ensures UnknownWarned(cfg, r.normalized, r.warnings)
  {
    hide Reported, UnknownWarned;
    hide Norm, BadValue, BadFormat, Foreign, First, Originals, CanonicalKey;
    var normalized := tags;
    var violations: seq<Violation> := [];
    var normalizer := new TagNormalizer(cfg);
    if cfg.normalize {
      normalized, violations := normalizer.Normalize(tags);
      assert On(cfg) == cfg;
    } else {
      NormOff(cfg, tags);
    }
    var warnings: seq<Violation> := [];
    var missing := ValidateRequired(cfg, normalized);
    var singles := ValidateTags(cfg, normalized);
    forall c ensures Lookup(normalized, c) == First(cfg, tags, c) { NormIsFirst(cfg, tags, c); }
    forall v ensures v in singles <==> SingleViolation(cfg, tags, v) { SinglesAreViolations(cfg, tags, v); }
    var all := missing + singles;
    var i := 0;
    while i < |all|
      invariant i <= |all|
      invariant forall v :: v in violations <==>
                  ConflictIn(cfg, tags, v) ||
                  (v in all[..i] && !(partial && v.Missing?) && !(cfg.unknown == Warn && v.UnknownTag?))
      invariant forall v :: v in warnings <==> v in all[..i] && cfg.unknown == Warn && v.UnknownTag?
    {
      var v := all[i];
      assert all[..i + 1] == all[..i] + [v];
      if partial && v.Missing? {
      } else if cfg.unknown == Warn && v.UnknownTag? {
        warnings := warnings + [v];
      } else {
        violations := violations + [v];
      }
      i := i + 1;
    }
    assert all[..i] == all;
    forall v ensures v in violations <==> Violates(cfg, tags, [], partial, v) {
      assert v in all <==> v in missing || v in singles;
    }
    if !partial {
      violations := AddExtra(cfg, tags, normalized, extra, violations, normalizer);
    }
    r := Evaluation(violations == [], violations, warnings, normalized);
    EvaluationRight(cfg, tags, extra, partial, r.violations);
    WarningsRight(cfg, tags, r.warnings);
  }

  // The extra mandatory keys that the schema does not already report.
  method AddExtra(cfg: Config, ghost tags: Tags, normalized: Tags, extra: seq<string>, found: seq<Violation>,
                  normalizer: TagNormalizer)
    returns (violations: seq<Violation>)
    requires normalizer.Valid() && normalizer.cfg == cfg
    requires forall c :: Lookup(normalized, c) == First(cfg, tags, c)
    requires forall v :: v in found <==> Violates(cfg, tags, [], false, v)
    ensures forall v :: v in violations <==> Violates(cfg, tags, extra, false, v)
  {
    hide First, Originals, CanonicalKey, BadValue, BadFormat, Foreign;
    violations := found;
    var already := set v | v in found && v.Missing? :: v.tag;
    var j := 0;
    while j < |extra|
      invariant j <= |extra|
      invariant forall c :: c in already <==> Missing(c) in violations
      invariant forall v :: v in violations <==> Violates(cfg, tags, extra[..j], false, v)
    {
      var c := extra[j];
      if cfg.normalize { c := normalizer.GetCanonicalKey(extra[j]); }
      assert c == Canonical(cfg, extra[j]);
      assert extra[..j + 1] == extra[..j] + [extra[j]];
      forall x ensures Required(cfg, extra[..j + 1], x) <==> Required(cfg, extra[..j], x) || x == c {
        assert extra[j] in extra[..j + 1];
      }
      if c !in already {
        if Empty(Lookup(normalized, c)) {
          violations := violations + [Missing(c)];
          already := already + {c};
        }
      }
      j := j + 1;
    }
    assert extra[..j] == extra;
  }
}
