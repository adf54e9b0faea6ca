/** What exemptions do, said with the scopes themselves: which resource one covers, which of two decides, which are
    accepted, and when they end. */
module ExemptionLaws {
  import opened Wrappers
  import opened Text
  import opened Exemptions

  // Some exemption of the list decides for `r`.
  ghost predicate Exempt(all: seq<Exemption>, now: int, r: Resource) {
    exists i :: Decides(all, now, r, i)
  }

  predicate Absent(f: Option<string>) {
    f == None || f == Some("")
  }

  function Unlimited(s: Scope): Exemption {
    Exemption(s, false, None)
  }

  lemma AloneDecides(e: Exemption, now: int, r: Resource)
    ensures Exempt([e], now, r) <==> Active(e, now) && Matches(e.scope, r)
  {
    assert Decides([e], now, r, 0) <==> Covers([e], now, r, 0);
  }

  /** One exemption, of each of the five kinds, exempts exactly the resources whose fields are the ones it gives. `x`,
      `y` and `z` are absent or empty fields. */
  lemma OneExempts(id: string, ty: string, env: string, acc: string, x: Option<string>, y: Option<string>,
                   z: Option<string>, now: int, r: Resource)
    requires id != "" && ty != "" && env != "" && acc != "" && Absent(x) && Absent(y) && Absent(z)
    ensures Exempt([Unlimited(Scope(Some(id), x, y, z))], now, r) <==> r.resourceId == id
    ensures Exempt([Unlimited(Scope(x, Some(ty), Some(env), y))], now, r) <==>
            r.resourceType == ty && r.environment == Some(env)
    ensures Exempt([Unlimited(Scope(x, Some(ty), y, z))], now, r) <==> r.resourceType == ty
    ensures Exempt([Unlimited(Scope(x, y, Some(env), Some(acc)))], now, r) <==>
            r.account == acc && r.environment == Some(env)
    ensures Exempt([Unlimited(Scope(x, y, z, Some(acc)))], now, r) <==> r.account == acc
  {
    AloneDecides(Unlimited(Scope(Some(id), x, y, z)), now, r);
    AloneDecides(Unlimited(Scope(x, Some(ty), Some(env), y)), now, r);
    AloneDecides(Unlimited(Scope(x, Some(ty), y, z)), now, r);
    AloneDecides(Unlimited(Scope(x, y, Some(env), Some(acc))), now, r);
    AloneDecides(Unlimited(Scope(x, y, z, Some(acc))), now, r);
    hide Exempt;
  }

  // The five kinds of scope, the most specific one first, all for the same resource.
  function Kinds(id: string, ty: string, env: string, acc: string): seq<Scope> {
    [Scope(Some(id), None, None, None), Scope(None, Some(ty), Some(env), None), Scope(None, Some(ty), None, None),
     Scope(None, None, Some(env), Some(acc)), Scope(None, None, None, Some(acc))]
  }

  /** Of two exemptions that cover a resource the one with the resource id comes first, then type with environment, then
      type, then account with environment, then account, in whatever order they were made. */
  lemma MoreSpecificDecides(id: string, ty: string, env: string, acc: string, now: int, a: nat, b: nat)
    requires id != "" && ty != "" && env != "" && acc != "" && a < b < 5
    ensures var kinds, r := Kinds(id, ty, env, acc), Resource(acc, ty, id, Some(env));
      var e, f := Unlimited(kinds[a]), Unlimited(kinds[b]);
      Decides([e, f], now, r, 0) && Decides([f, e], now, r, 1)
  {
    var kinds, r := Kinds(id, ty, env, acc), Resource(acc, ty, id, Some(env));
    forall n | 0 <= n < 5 ensures Matches(kinds[n], r) && Rank(kinds[n]) == 5 - n {
      KindRank(id, ty, env, acc, n);
    }
    hide Kinds, Matches, Rank;
  }

  lemma KindRank(id: string, ty: string, env: string, acc: string, n: nat)
    requires id != "" && ty != "" && env != "" && acc != "" && n < 5
    ensures var s := Kinds(id, ty, env, acc)[n];
      Matches(s, Resource(acc, ty, id, Some(env))) && Rank(s) == 5 - n
  {}

  // The scope gives a resource id alone, a type with or without an environment, or an account with or without one.
  predicate Accepted(s: Scope) {
    var id, ty, env, acc := !Absent(s.resourceId), !Absent(s.resourceType), !Absent(s.environment), !Absent(s.account);
    || (id && !ty && !env && !acc)
    || (ty && !id && !acc)
    || (acc && !id && !ty)
  }

  /** A request is refused for its scope exactly when the scope is none of these; otherwise for a stripped reason of
      more than 1000 characters or an expiry that cannot be read; otherwise for an active exemption with the same
      scope. */
  lemma RefusedExactly(all: seq<Exemption>, now: int, parse: Parse, q: Request)
    ensures var unreadable := q.expires.Some? && q.expires.value != "" && parse(q.expires.value).None?;
      var overlong := q.reason.Some? && |Strip(q.reason.value)| > 1000;
      var there := exists i :: 0 <= i < |all| && Active(all[i], now) && all[i].scope == q.scope;
      && (Refusal(all, now, parse, q) == Some(InvalidScope) <==> !Accepted(q.scope))
      && (Refusal(all, now, parse, q) == Some(InvalidRequest) <==> Accepted(q.scope) && (unreadable || overlong))
      && (Refusal(all, now, parse, q) == Some(Conflict) <==>
            Accepted(q.scope) && !unreadable && !overlong && there)
  {}

  /** An exemption for a resource works from its creation to the very instant of its expiry, and not after it is
      revoked. */
  lemma ExemptWhileActive(parse: Parse, start: int, id: string, r: Resource, expires: Option<string>, d: nat)
    requires id != "" && r.resourceId == id
    requires expires.Some? ==> expires.value != "" && parse(expires.value).Some?
    ensures var create := Create(Request(Scope(Some(id), None, None, None), None, expires));
      var g := Exec(parse, start, [create, Advance(d)]);
      var h := Exec(parse, start, [create, Advance(d), Revoke(0)]);
      && (Exempt(g.all, g.now, r) <==> expires.None? || start + d <= parse(expires.value).value)
      && !Exempt(h.all, h.now, r)
  {
    var scope := Scope(Some(id), None, None, None);
    var create := Create(Request(scope, None, expires));
    var e := Exemption(scope, false, if expires.Some? then parse(expires.value) else None);
    assert [create][..0] == [] && [create, Advance(d)][..1] == [create];
    assert [create, Advance(d), Revoke(0)][..2] == [create, Advance(d)];
    assert Exec(parse, start, []) == Registry([], start);
    assert Exec(parse, start, [create]) == Registry([e], start);
    var g := Exec(parse, start, [create, Advance(d)]);
    var h := Exec(parse, start, [create, Advance(d), Revoke(0)]);
    assert g == Registry([e], start + d);
    assert h.all == [e.(revoked := true)];
    AloneDecides(e, g.now, r);
    AloneDecides(e.(revoked := true), h.now, r);
  }
}
