/** Exemptions: scopes and their ranks, creating and revoking, and which one covers a resource. */
module Exemptions {
  import opened Wrappers
  import opened Text

  // A field may be absent, empty or a text.
  datatype Scope = Scope(resourceId: Option<string>, resourceType: Option<string>, environment: Option<string>,
                         account: Option<string>)

  predicate Given(f: Option<string>) {
    f.Some? && f.value != ""
  }

  // How specific a scope is; -1 when the combination is unsupported.
  function Rank(s: Scope): int {
    var (id, ty, env, acc) := (Given(s.resourceId), Given(s.resourceType), Given(s.environment), Given(s.account));
    if id && !(ty || env || acc) then 5
    else if ty && env && !(id || acc) then 4
    else if ty && !(id || env || acc) then 3
    else if acc && env && !(id || ty) then 2
    else if acc && !(id || ty || env) then 1
    else -1
  }

  datatype Exemption = Exemption(scope: Scope, revoked: bool, expires: Option<int>)

  datatype Request = Request(scope: Scope, reason: Option<string>, expires: Option<string>)

  datatype Resource = Resource(account: string, resourceType: string, resourceId: string, environment: Option<string>)

  datatype Error = InvalidScope | InvalidRequest | Conflict | NotFound

  datatype Result = Ok(id: nat) | Err(error: Error)

  // Instants are numbers; an exemption is still active at the very instant it expires.
  predicate Active(e: Exemption, now: int) {
    !e.revoked && (e.expires.Some? ==> now <= e.expires.value)
  }

  predicate Matches(s: Scope, r: Resource) {
    match Rank(s)
    case 5 => s.resourceId == Some(r.resourceId)
    case 4 => s.resourceType == Some(r.resourceType) && s.environment == r.environment
    case 3 => s.resourceType == Some(r.resourceType)
    case 2 => s.account == Some(r.account) && s.environment == r.environment
    case 1 => s.account == Some(r.account)
    case _ => false
  }

  // ----- Creating and revoking. `parse` reads ISO 8601 texts.

  type Parse = string -> Option<int>

  function Refusal(all: seq<Exemption>, now: int, parse: Parse, q: Request): Option<Error> {
    if Rank(q.scope) <= 0 then Some(InvalidScope)
    else if q.reason.Some? && |Strip(q.reason.value)| > 1000 then Some(InvalidRequest)
    else if Given(q.expires) && parse(q.expires.value).None? then Some(InvalidRequest)
    else if exists i :: 0 <= i < |all| && Active(all[i], now) && all[i].scope == q.scope then Some(Conflict)
    else None
  }

  function Made(parse: Parse, q: Request): Exemption {
    Exemption(q.scope, false, if Given(q.expires) then parse(q.expires.value) else None)
  }

  datatype Event = Create(request: Request) | Revoke(id: nat) | Advance(seconds: nat)

  datatype Registry = Registry(all: seq<Exemption>, now: int)

  function Next(g: Registry, parse: Parse, ev: Event): Registry {
    match ev
    case Create(q) => if Refusal(g.all, g.now, parse, q).None? then g.(all := g.all + [Made(parse, q)]) else g
    case Revoke(id) => if id < |g.all| then g.(all := g.all[id := g.all[id].(revoked := true)]) else g
    case Advance(d) => g.(now := g.now + d)
  }

  function Exec(parse: Parse, start: int, events: seq<Event>): Registry {
    if events == [] then Registry([], start)
    else Next(Exec(parse, start, events[..|events| - 1]), parse, events[|events| - 1])
  }

  // ----- Two exemptions for one scope.

  // An empty field means as much as an absent one.
  function Meaning(s: Scope): Scope {
    var m := (f: Option<string>) => if Given(f) then f else None;
    Scope(m(s.resourceId), m(s.resourceType), m(s.environment), m(s.account))
  }

  predicate NoTwins(all: seq<Exemption>, now: int) {
    forall i, j :: 0 <= i < j < |all| && Active(all[i], now) && Active(all[j], now) ==>
      Meaning(all[i].scope) != Meaning(all[j].scope)
  }

  predicate Supported(all: seq<Exemption>) {
    forall i :: 0 <= i < |all| ==> Rank(all[i].scope) > 0
  }

  // An active exemption says the same in another way: a field is empty in one and absent in the other.
  predicate Disguised(all: seq<Exemption>, now: int, s: Scope) {
    exists i :: 0 <= i < |all| && Active(all[i], now) && Meaning(all[i].scope) == Meaning(s) && all[i].scope != s
  }

  /** An event gives two active exemptions one scope exactly when it creates one that is there in disguise. */
  lemma TwinsAppearExactly(g: Registry, parse: Parse, ev: Event)
    requires NoTwins(g.all, g.now)
    ensures var h := Next(g, parse, ev);
      NoTwins(h.all, h.now) <==>
      !(ev.Create? && Refusal(g.all, g.now, parse, ev.request).None? &&
        (Given(ev.request.expires) ==> g.now <= parse(ev.request.expires.value).value) &&
        Disguised(g.all, g.now, ev.request.scope))
  {
    var h := Next(g, parse, ev);
    match ev {
      case Create(q) =>
        if Refusal(g.all, g.now, parse, q).None? {
          var e := Made(parse, q);
          assert h.all == g.all + [e];
          assert Active(e, g.now) <==> (Given(q.expires) ==> g.now <= parse(q.expires.value).value);
          if Active(e, g.now) && Disguised(g.all, g.now, q.scope) {
            var i :| 0 <= i < |g.all| && Active(g.all[i], g.now) &&
                     Meaning(g.all[i].scope) == Meaning(q.scope) && g.all[i].scope != q.scope;
            assert h.all[i] == g.all[i] && h.all[|g.all|] == e;
          }
        }
      case Revoke(id) =>
      case Advance(d) =>
    }
  }

  // Every scope field is absent or not empty.
  predicate Plain(s: Scope) {
    s == Meaning(s)
  }

  /** Over any run of requests with plain scopes, revocations and time, active exemptions have pairwise distinct
      scopes. */
  lemma {:induction false} PlainScopesHaveNoTwins(parse: Parse, start: int, events: seq<Event>)
    requires forall i :: 0 <= i < |events| && events[i].Create? ==> Plain(events[i].request.scope)
    ensures var g := Exec(parse, start, events);
      && NoTwins(g.all, g.now) && Supported(g.all) && forall i :: 0 <= i < |g.all| ==> Plain(g.all[i].scope)
  {
    if events != [] {
      PlainScopesHaveNoTwins(parse, start, events[..|events| - 1]);
      TwinsAppearExactly(Exec(parse, start, events[..|events| - 1]), parse, events[|events| - 1]);
    }
  }

  // ----- The exemption that covers a resource.

  predicate Covers(all: seq<Exemption>, now: int, r: Resource, i: int) {
    0 <= i < |all| && Active(all[i], now) && Matches(all[i].scope, r)
  }

  // `i` covers `r` and is more specific than all others that do.
  ghost predicate Decides(all: seq<Exemption>, now: int, r: Resource, i: int) {
    Covers(all, now, r, i) &&
    forall j :: Covers(all, now, r, j) && j != i ==> Rank(all[j].scope) < Rank(all[i].scope)
  }

  // Two scopes of one rank that match the same resource mean the same.
  lemma SameRankSameMeaning(s: Scope, t: Scope, r: Resource)
    requires Matches(s, r) && Matches(t, r) && Rank(s) == Rank(t)
    ensures Meaning(s) == Meaning(t)
  {}

  lemma {:induction false} HighestExists(all: seq<Exemption>, now: int, r: Resource, n: nat) returns (i: int)
    requires n <= |all| && exists j :: j < n && Covers(all, now, r, j)
    ensures i < n && Covers(all, now, r, i)
    ensures forall j :: j < n && Covers(all, now, r, j) ==> Rank(all[j].scope) <= Rank(all[i].scope)
  {
    if j :| j < n - 1 && Covers(all, now, r, j) {
      i := HighestExists(all, now, r, n - 1);
      if Covers(all, now, r, n - 1) && Rank(all[n - 1].scope) > Rank(all[i].scope) { i := n - 1; }
    } else {
      i := n - 1;
    }
  }

  /** Without twins, a resource is exempt exactly when some active exemption matches it: one of them decides. */
  lemma CoveredMeansDecided(all: seq<Exemption>, now: int, r: Resource)
    requires NoTwins(all, now)
    ensures (exists i :: Covers(all, now, r, i)) <==> exists i :: Decides(all, now, r, i)
  {
    if exists i :: Covers(all, now, r, i) {
      var i := HighestExists(all, now, r, |all|);
      forall j | Covers(all, now, r, j) && j != i ensures Rank(all[j].scope) < Rank(all[i].scope) {
        if Rank(all[j].scope) == Rank(all[i].scope) { SameRankSameMeaning(all[i].scope, all[j].scope, r); }
      }
      assert Decides(all, now, r, i);
    }
  }

  /** An empty field in one request gets past the conflict check, and then the resource is not exempt at all. */
  lemma EmptyFieldMakesTwins(parse: Parse, start: int, account: string)
    requires account != ""
    ensures var plain := Scope(None, None, None, Some(account));
      var odd := Scope(Some(""), None, None, Some(account));
      var g := Exec(parse, start, [Create(Request(plain, None, None)), Create(Request(odd, None, None))]);
      && |g.all| == 2 && Covers(g.all, g.now, Resource(account, "", "", None), 0)
      && forall i :: !Decides(g.all, g.now, Resource(account, "", "", None), i)
  {
    var plain, odd := Scope(None, None, None, Some(account)), Scope(Some(""), None, None, Some(account));
    var one, two := Create(Request(plain, None, None)), Create(Request(odd, None, None));
    assert [one, two][..1] == [one] && [one][..0] == [];
    var g1 := Exec(parse, start, [one]);
    assert Exec(parse, start, []) == Registry([], start);
    assert g1.all == [Exemption(plain, false, None)];
    var g, r := Exec(parse, start, [one, two]), Resource(account, "", "", None);
    assert g.all == [Exemption(plain, false, None), Exemption(odd, false, None)];
    assert Covers(g.all, g.now, r, 0) && Covers(g.all, g.now, r, 1);
  }

  class ExemptionManager {
    const parse: Parse
    var all: seq<Exemption>

    constructor (parse: Parse)
      ensures this.parse == parse && all == []
    {
      this.parse := parse;
      all := [];
    }

    method CreateExemption(q: Request, now: int) returns (r: Result)
      modifies this
      ensures r.Ok? <==> Refusal(old(all), now, parse, q).None?
      ensures r.Err? ==> Some(r.error) == Refusal(old(all), now, parse, q)
      ensures Registry(all, now) == Next(Registry(old(all), now), parse, Create(q))
      ensures r.Ok? ==> r.id == |old(all)| && all[r.id].scope == q.scope && !all[r.id].revoked
    {
      if Rank(q.scope) <= 0 { return Err(InvalidScope); }
      if q.reason.Some? && |Strip(q.reason.value)| > 1000 { return Err(InvalidRequest); }
      var expires: Option<int> := None;
      if Given(q.expires) {
        expires := parse(q.expires.value);
        if expires.None? { return Err(InvalidRequest); }
      }
      var i := 0;
      while i < |all|
        invariant i <= |all|
        invariant forall j :: 0 <= j < i && Active(all[j], now) ==> all[j].scope != q.scope
      {
        if Active(all[i], now) && Rank(all[i].scope) == Rank(q.scope) && all[i].scope == q.scope {
          return Err(Conflict);
        }
        i := i + 1;
      }
      all := all + [Exemption(q.scope, false, expires)];
      return Ok(|all| - 1);
    }

    method RevokeExemption(id: nat, now: int) returns (r: Result)
      modifies this
      ensures r == (if id < |old(all)| then Ok(id) else Err(NotFound))
      ensures Registry(all, now) == Next(Registry(old(all), now), parse, Revoke(id))
      ensures id < |all| ==> !Active(all[id], now)
    {
      if id >= |all| { return Err(NotFound); }
      all := all[id := all[id].(revoked := true)];
      return Ok(id);
    }

    /** The exemption that decides; none when nothing matches, or when the most specific matches are tied. */
    method IsExempt(r: Resource, now: int) returns (found: Option<nat>)
      ensures found.Some? ==> Decides(all, now, r, found.value)
      ensures found.None? ==> forall i :: !Decides(all, now, r, i)
    {
      var matching: seq<nat>, i := [], 0;
      while i < |all|
        invariant i <= |all| && Within(matching, i) && Rising(matching)
        invariant forall j :: j in matching <==> j < i && Covers(all, now, r, j)
      {
        if Active(all[i], now) && Matches(all[i].scope, r) { matching := matching + [i]; }
        i := i + 1;
      }
      assert forall j :: Covers(all, now, r, j) ==> j in matching;
      if matching == [] { return None; }
      var ranked := GroupByRank(matching);
      var highest, k := Rank(all[matching[0]].scope), 0;
      while k < |matching|
        invariant k <= |matching| && exists a :: 0 <= a < |matching| && Rank(all[matching[a]].scope) == highest
        invariant forall a :: 0 <= a < k ==> Rank(all[matching[a]].scope) <= highest
      {
        if Rank(all[matching[k]].scope) > highest { highest := Rank(all[matching[k]].scope); }
        k := k + 1;
      }
      Deciding(all, now, r, matching, highest);
      if |ranked[highest]| > 1 { return None; }
      return Some(ranked[highest][0]);
    }

    method GroupByRank(matching: seq<nat>) returns (ranked: map<int, seq<nat>>)
      requires Within(matching, |all|)
      ensures forall q :: q in ranked <==> AtRank(all, matching, q) != []
      ensures forall q :: q in ranked ==> ranked[q] == AtRank(all, matching, q)
    {
      ranked := map[];
      var i := 0;
      while i < |matching|
        invariant i <= |matching|
        invariant forall q :: q in ranked <==> AtRank(all, matching[..i], q) != []
        invariant forall q :: q in ranked ==> ranked[q] == AtRank(all, matching[..i], q)
      {
        var j := matching[i];
        assert matching[..i + 1][..i] == matching[..i];
        var q := Rank(all[j].scope);
        ranked := ranked[q := (if q in ranked then ranked[q] else []) + [j]];
        i := i + 1;
      }
      assert matching[..i] == matching;
    }
  }

  predicate Within(s: seq<nat>, n: nat) {
    forall a :: 0 <= a < |s| ==> s[a] < n
  }

  predicate Rising(s: seq<nat>) {
    forall a, b :: 0 <= a < b < |s| ==> s[a] < s[b]
  }

  // Those of `matching` that have rank `q`.
  function AtRank(all: seq<Exemption>, matching: seq<nat>, q: int): seq<nat>
    requires Within(matching, |all|)
  {
    if matching == [] then []
    else
      var j := matching[|matching| - 1];
      AtRank(all, matching[..|matching| - 1], q) + if Rank(all[j].scope) == q then [j] else []
  }

  lemma {:induction false} AtRankMeans(all: seq<Exemption>, matching: seq<nat>, q: int)
    requires Within(matching, |all|) && Rising(matching)
    ensures Within(AtRank(all, matching, q), |all|) && Rising(AtRank(all, matching, q))
    ensures forall j :: j in AtRank(all, matching, q) <==> j in matching && Rank(all[j].scope) == q
  {
    if matching != [] {
      var front, last := matching[..|matching| - 1], matching[|matching| - 1];
      AtRankMeans(all, front, q);
      assert matching == front + [last];
      var s := AtRank(all, front, q);
      forall a | 0 <= a < |s| ensures s[a] < last {
        assert s[a] in front;
      }
    }
  }

  lemma Deciding(all: seq<Exemption>, now: int, r: Resource, matching: seq<nat>, highest: int)
    requires Within(matching, |all|) && Rising(matching) && forall j :: j in matching <==> Covers(all, now, r, j)
    requires exists a :: 0 <= a < |matching| && Rank(all[matching[a]].scope) == highest
    requires forall a :: 0 <= a < |matching| ==> Rank(all[matching[a]].scope) <= highest
    ensures var top := AtRank(all, matching, highest);
      && top != []
      && (|top| == 1 ==> Decides(all, now, r, top[0]))
      && (|top| > 1 ==> forall i :: !Decides(all, now, r, i))
  {
    var top := AtRank(all, matching, highest);
    AtRankMeans(all, matching, highest);
    var a :| 0 <= a < |matching| && Rank(all[matching[a]].scope) == highest;
    assert matching[a] in top;
    forall j | Covers(all, now, r, j) ensures Rank(all[j].scope) <= highest {
      assert j in matching;
    }
    assert top[0] in top;
    if |top| > 1 {
      assert top[1] in top && top[0] < top[1];
      forall i ensures !Decides(all, now, r, i) {
        assert Covers(all, now, r, top[0]) && Covers(all, now, r, top[1]);
      }
    } else {
      forall j | Covers(all, now, r, j) && j != top[0] ensures Rank(all[j].scope) < highest {
        assert j in matching && j !in top;
      }
    }
  }
}
