/** The tag schema, ordered tag dictionaries, and how keys are brought to their canonical form. */
module Governance {
  import opened Wrappers
  import opened Text

  datatype Rule = Rule(required: bool, protected: bool, allowed: seq<string>, pattern: string, aliases: seq<string>)

  datatype Unknown = Ignore | Warn | Deny

  // `lower` is the library's lower-casing, `matches` its regular expressions (false for a malformed one).
  datatype Config = Config(
    rules: seq<(string, Rule)>, unknown: Unknown, normalize: bool,
    lower: string -> string, matches: (string, string) -> bool)

  // ----- Ordered dictionaries.

  type Tags = seq<(string, string)>

  predicate Dict<V>(t: seq<(string, V)>) {
    forall i, j :: 0 <= i < j < |t| ==> t[i].0 != t[j].0
  }

  function Lookup<V>(t: seq<(string, V)>, k: string): Option<V> {
    if t == [] then None
    else if t[|t| - 1].0 == k then Some(t[|t| - 1].1)
    else Lookup(t[..|t| - 1], k)
  }

  predicate Has<V>(t: seq<(string, V)>, k: string) {
    Lookup(t, k).Some?
  }

  lemma {:induction false} LookupAt<V>(t: seq<(string, V)>, i: nat)
    requires i < |t| && Dict(t)
    ensures Lookup(t, t[i].0) == Some(t[i].1)
  {
    if i < |t| - 1 {
      assert t[..|t| - 1][i] == t[i] && Dict(t[..|t| - 1]);
      LookupAt(t[..|t| - 1], i);
    }
  }

  lemma {:induction false} LookupFinds<V>(t: seq<(string, V)>, k: string) returns (i: nat)
    requires Has(t, k)
    ensures i < |t| && t[i] == (k, Lookup(t, k).value)
  {
    if t[|t| - 1].0 == k { i := |t| - 1; } else { i := LookupFinds(t[..|t| - 1], k); }
  }

  lemma {:induction false} HasNot<V>(t: seq<(string, V)>, k: string)
    requires forall i :: 0 <= i < |t| ==> t[i].0 != k
    ensures !Has(t, k)
  {
    if t != [] { HasNot(t[..|t| - 1], k); }
  }

  lemma LastIsNew<V>(t: seq<(string, V)>)
    requires Dict(t) && t != []
    ensures Dict(t[..|t| - 1]) && !Has(t[..|t| - 1], t[|t| - 1].0)
  {
    HasNot(t[..|t| - 1], t[|t| - 1].0);
  }

  lemma DictSnoc<V>(t: seq<(string, V)>, k: string, v: V)
    requires Dict(t) && !Has(t, k)
    ensures Dict(t + [(k, v)])
    ensures forall c :: Lookup(t + [(k, v)], c) == if c == k then Some(v) else Lookup(t, c)
  {
    assert (t + [(k, v)])[..|t|] == t;
    forall i | 0 <= i < |t| ensures t[i].0 != k { LookupAt(t, i); }
  }

  // ----- Canonical keys.

  function AliasesInto(aliases: seq<string>, key: string, lower: string -> string, m: map<string, string>)
    : map<string, string>
  {
    if aliases == [] then m
    else AliasesInto(aliases[..|aliases| - 1], key, lower, m)[lower(aliases[|aliases| - 1]) := key]
  }

  // Lower-cased alias to schema key; a later entry wins.
  function AliasMap(rules: seq<(string, Rule)>, lower: string -> string): map<string, string> {
    if rules == [] then map[]
    else
      var (key, rule) := rules[|rules| - 1];
      AliasesInto(rule.aliases, key, lower, AliasMap(rules[..|rules| - 1], lower))
  }

  // The first schema key that equals `low` when lower-cased.
  function FoldedKey(rules: seq<(string, Rule)>, low: string, lower: string -> string): Option<string> {
    if rules == [] then None
    else if lower(rules[0].0) == low then Some(rules[0].0)
    else FoldedKey(rules[1..], low, lower)
  }

  function CanonicalKey(cfg: Config, k: string): string {
    var low := cfg.lower(k);
    if Has(cfg.rules, k) then k
    else if low in AliasMap(cfg.rules, cfg.lower) then AliasMap(cfg.rules, cfg.lower)[low]
    else if FoldedKey(cfg.rules, low, cfg.lower).Some? then FoldedKey(cfg.rules, low, cfg.lower).value
    else k
  }

  function Canonical(cfg: Config, k: string): string {
    if cfg.normalize then CanonicalKey(cfg, k) else k
  }

  lemma {:induction false} AliasesTargets(aliases: seq<string>, key: string, lower: string -> string,
                                          m: map<string, string>)
    ensures forall a :: a in AliasesInto(aliases, key, lower, m) ==>
              AliasesInto(aliases, key, lower, m)[a] == key ||
              (a in m && AliasesInto(aliases, key, lower, m)[a] == m[a])
  {
    if aliases != [] { AliasesTargets(aliases[..|aliases| - 1], key, lower, m); }
  }

  lemma {:induction false} AliasMapTargets(rules: seq<(string, Rule)>, lower: string -> string)
    ensures forall a :: a in AliasMap(rules, lower) ==> Has(rules, AliasMap(rules, lower)[a])
  {
    if rules != [] {
      var front := rules[..|rules| - 1];
      var (key, rule) := rules[|rules| - 1];
      AliasMapTargets(front, lower);
      AliasesTargets(rule.aliases, key, lower, AliasMap(front, lower));
    }
  }

  lemma {:induction false} FoldedKeyIsKey(rules: seq<(string, Rule)>, low: string, lower: string -> string)
    ensures FoldedKey(rules, low, lower).Some? ==> Has(rules, FoldedKey(rules, low, lower).value)
  {
    if rules != [] && lower(rules[0].0) != low {
      FoldedKeyIsKey(rules[1..], low, lower);
      if FoldedKey(rules[1..], low, lower).Some? { HasTail(rules, FoldedKey(rules[1..], low, lower).value); }
    } else if rules != [] {
      HasHead(rules);
    }
  }

  lemma {:induction false} HasHead<V>(t: seq<(string, V)>)
    requires t != []
    ensures Has(t, t[0].0)
  {
    if |t| > 1 { HasHead(t[..|t| - 1]); }
  }

  lemma {:induction false} HasTail<V>(t: seq<(string, V)>, k: string)
    requires t != [] && Has(t[1..], k)
    ensures Has(t, k)
  {
    if t[|t| - 1].0 != k {
      assert t[1..][..|t| - 2] == t[..|t| - 1][1..];
      HasTail(t[..|t| - 1], k);
    }
  }

  /** Canonicalising twice changes nothing more. */
  lemma CanonicalIdempotent(cfg: Config, k: string)
    ensures Canonical(cfg, Canonical(cfg, k)) == Canonical(cfg, k)
  {
    AliasMapTargets(cfg.rules, cfg.lower);
    FoldedKeyIsKey(cfg.rules, cfg.lower(k), cfg.lower);
  }

  // ----- Normalised dictionaries.

  // The keys of `t`, in order, that mean `c`.
  function Originals(cfg: Config, t: Tags, c: string): seq<string> {
    if t == [] then []
    else Originals(cfg, t[..|t| - 1], c) + (if Canonical(cfg, t[|t| - 1].0) == c then [t[|t| - 1].0] else [])
  }

  // The value the normalised dictionary gives `c`: that of the first such key.
  function First(cfg: Config, t: Tags, c: string): Option<string> {
    if t == [] then None
    else if First(cfg, t[..|t| - 1], c).Some? then First(cfg, t[..|t| - 1], c)
    else if Canonical(cfg, t[|t| - 1].0) == c then Some(t[|t| - 1].1)
    else None
  }

  function Norm(cfg: Config, t: Tags): Tags {
    if t == [] then []
    else
      var n := Norm(cfg, t[..|t| - 1]);
      var (k, v) := t[|t| - 1];
      if Has(n, Canonical(cfg, k)) then n else n + [(Canonical(cfg, k), v)]
  }

  lemma {:induction false} NormIsFirst(cfg: Config, t: Tags, c: string)
    ensures Lookup(Norm(cfg, t), c) == First(cfg, t, c)
  {
    if t != [] {
      NormIsFirst(cfg, t[..|t| - 1], c);
      NormIsFirst(cfg, t[..|t| - 1], Canonical(cfg, t[|t| - 1].0));
      var n := Norm(cfg, t[..|t| - 1]);
      var (k, v) := t[|t| - 1];
      assert (n + [(Canonical(cfg, k), v)])[..|n|] == n;
    }
  }

  lemma {:induction false} NormIsDict(cfg: Config, t: Tags)
    ensures Dict(Norm(cfg, t))
    ensures forall i :: 0 <= i < |Norm(cfg, t)| ==> Canonical(cfg, Norm(cfg, t)[i].0) == Norm(cfg, t)[i].0
  {
    if t != [] {
      var n, k := Norm(cfg, t[..|t| - 1]), t[|t| - 1].0;
      NormIsDict(cfg, t[..|t| - 1]);
      CanonicalIdempotent(cfg, k);
      if !Has(n, Canonical(cfg, k)) {
        forall i | 0 <= i < |n| ensures n[i].0 != Canonical(cfg, k) { LookupAt(n, i); }
      }
    }
  }

  lemma {:induction false} OriginalsAndFirst(cfg: Config, t: Tags, c: string)
    ensures Originals(cfg, t, c) == [] <==> First(cfg, t, c).None?
  {
    if t != [] { OriginalsAndFirst(cfg, t[..|t| - 1], c); }
  }

  // ----- What is wrong with a dictionary.

  datatype Violation =
    | Missing(tag: string)
    | InvalidValue(tag: string, actual: string)
    | InvalidFormat(tag: string, actual: string)
    | UnknownTag(tag: string)
    | Conflict(tag: string, originals: seq<string>)

  predicate Required(cfg: Config, extra: seq<string>, c: string) {
    (Has(cfg.rules, c) && Lookup(cfg.rules, c).value.required) || exists e :: e in extra && Canonical(cfg, e) == c
  }

  predicate Empty(v: Option<string>) {
    v.None? || Blank(v.value)
  }

  predicate BadValue(cfg: Config, k: string, v: string) {
    !Blank(v) && Has(cfg.rules, k) && Lookup(cfg.rules, k).value.allowed != [] &&
    v !in Lookup(cfg.rules, k).value.allowed
  }

  predicate BadFormat(cfg: Config, k: string, v: string) {
    !Blank(v) && Has(cfg.rules, k) && Lookup(cfg.rules, k).value.pattern != "" &&
    !cfg.matches(Lookup(cfg.rules, k).value.pattern, v)
  }

  predicate Foreign(cfg: Config, k: string) {
    !("aws:" <= cfg.lower(k)) && !Has(cfg.rules, k)
  }

  // `v` is a violation of `t`, checked as a whole or as a partial update. `extra` keys are required as well.
  predicate Violates(cfg: Config, t: Tags, extra: seq<string>, partial: bool, v: Violation) {
    match v
    case Missing(k) => !partial && Required(cfg, extra, k) && Empty(First(cfg, t, k))
    case InvalidValue(k, a) => First(cfg, t, k) == Some(a) && BadValue(cfg, k, a)
    case InvalidFormat(k, a) => First(cfg, t, k) == Some(a) && BadFormat(cfg, k, a)
    case UnknownTag(k) => cfg.unknown == Deny && First(cfg, t, k).Some? && Foreign(cfg, k)
    case Conflict(k, ks) => ks == Originals(cfg, t, k) && |ks| > 1
  }
}
