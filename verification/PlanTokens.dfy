/** The token that pins a plan: a text of its changes, resource by resource in the order of their names. */
module PlanTokens {
  import opened Wrappers
  import opened Text
  import opened Governance
  import opened TagStore
  import opened Targets
  import opened Plans

  datatype Change = Change(before: Option<string>, after: string)

  type Entry = (string, map<string, Change>)

  // The hash is taken to be injective, so the token is what is hashed.
  type Token = seq<Entry>

  function AsMap(t: Tags): TagMap {
    if t == [] then map[] else AsMap(t[..|t| - 1])[t[|t| - 1].0 := t[|t| - 1].1]
  }

  lemma {:induction false} AsMapLooksUp(t: Tags, k: string)
    ensures Get(AsMap(t), k) == Lookup(t, k)
  {
    if t != [] { AsMapLooksUp(t[..|t| - 1], k); }
  }

  function EntryOf(p: PlanItem): Entry {
    (p.arn, map k | k in AsMap(p.changes) :: Change(Get(p.before, k), AsMap(p.changes)[k]))
  }

  // Insertion by name, after those that are not greater.
  function Insert(s: Token, e: Entry): Token {
    if s != [] && TextLess(e.0, s[|s| - 1].0) then Insert(s[..|s| - 1], e) + [s[|s| - 1]] else s + [e]
  }

  function PlanToken(plan: seq<PlanItem>): Token {
    if plan == [] then [] else Insert(PlanToken(plan[..|plan| - 1]), EntryOf(plan[|plan| - 1]))
  }

  predicate DistinctItems(plan: seq<PlanItem>) {
    forall i, j :: 0 <= i < j < |plan| ==> plan[i].arn != plan[j].arn
  }

  // ----- The token is the strictly sorted list of the entries.

  predicate Sorted(s: Token) {
    forall i, j :: 0 <= i < j < |s| ==> TextLess(s[i].0, s[j].0)
  }

  lemma {:induction false} InsertHolds(s: Token, e: Entry)
    ensures forall x :: x in Insert(s, e) <==> x in s || x == e
  {
    if s != [] {
      assert s == s[..|s| - 1] + [s[|s| - 1]];
      if TextLess(e.0, s[|s| - 1].0) { InsertHolds(s[..|s| - 1], e); }
    }
  }

  lemma {:induction false} InsertSorts(s: Token, e: Entry)
    requires Sorted(s) && forall i :: 0 <= i < |s| ==> s[i].0 != e.0
    ensures Sorted(Insert(s, e))
  {
    if s != [] {
      var front, last := s[..|s| - 1], s[|s| - 1];
      if TextLess(e.0, last.0) {
        InsertSorts(front, e);
        InsertHolds(front, e);
        var t := Insert(front, e);
        forall i | 0 <= i < |t| ensures TextLess(t[i].0, last.0) {
          assert t[i] in t;
        }
      } else {
        Total(e.0, last.0);
        forall i | 0 <= i < |s| ensures TextLess(s[i].0, e.0) {
          if i < |s| - 1 { Transitive(s[i].0, last.0, e.0); }
        }
      }
    }
  }

  ghost predicate Holds(plan: seq<PlanItem>, x: Entry) {
    exists i :: 0 <= i < |plan| && EntryOf(plan[i]) == x
  }

  lemma {:induction false} TokenIsSortedEntries(plan: seq<PlanItem>)
    requires DistinctItems(plan)
    ensures Sorted(PlanToken(plan))
    ensures forall x :: x in PlanToken(plan) <==> Holds(plan, x)
  {
    hide EntryOf;
    if plan != [] {
      var front, e := plan[..|plan| - 1], EntryOf(plan[|plan| - 1]);
      var s := PlanToken(front);
      TokenIsSortedEntries(front);
      InsertHolds(s, e);
      forall i | 0 <= i < |s| ensures s[i].0 != e.0 {
        assert s[i] in s && Holds(front, s[i]);
        EntryNames();
      }
      InsertSorts(s, e);
      assert plan == front + [plan[|plan| - 1]];
      forall x ensures Holds(plan, x) <==> Holds(front, x) || x == e { HoldsNext(front, plan[|plan| - 1], x); }
    }
  }

  lemma HoldsNext(front: seq<PlanItem>, p: PlanItem, x: Entry)
    ensures Holds(front + [p], x) <==> Holds(front, x) || x == EntryOf(p)
  {
    hide EntryOf;
    assert (front + [p])[|front|] == p;
    if Holds(front, x) {
      var i :| 0 <= i < |front| && EntryOf(front[i]) == x;
      assert (front + [p])[i] == front[i];
    }
  }

  lemma EntryNames()
    ensures forall p :: EntryOf(p).0 == p.arn
  {}

  ghost predicate SameEntries(a: Token, b: Token) {
    forall x :: x in a <==> x in b
  }

  lemma FrontHolds(a: Token, x: Entry)
    requires Sorted(a) && a != []
    ensures x in a[..|a| - 1] <==> x in a && x != a[|a| - 1]
  {
    var last := a[|a| - 1];
    assert a == a[..|a| - 1] + [last];
    forall k | 0 <= k < |a| - 1 ensures a[k] != last { Irreflexive(last.0); }
  }

  lemma LastsAgree(a: Token, b: Token)
    requires Sorted(a) && Sorted(b) && SameEntries(a, b) && a != [] && b != []
    ensures a[|a| - 1] == b[|b| - 1]
  {
    var x, y := a[|a| - 1], b[|b| - 1];
    assert x in a && y in b;
    var i :| 0 <= i < |b| && b[i] == x;
    var j :| 0 <= j < |a| && a[j] == y;
    if i < |b| - 1 && j < |a| - 1 {
      Asymmetric(x.0, y.0);
      assert false;
    }
  }

  lemma HasFirst(b: Token)
    ensures b == [] || b[0] in b
  {}

  lemma {:induction false} SortedIsUnique(a: Token, b: Token)
    requires Sorted(a) && Sorted(b) && SameEntries(a, b)
    ensures a == b
  {
    if a == [] {
      HasFirst(b);
    } else {
      assert a[0] in b;
      LastsAgree(a, b);
      var a', b' := a[..|a| - 1], b[..|b| - 1];
      forall x ensures x in a' <==> x in b' {
        FrontHolds(a, x);
        FrontHolds(b, x);
      }
      SortedIsUnique(a', b');
      assert a == a' + [a[|a| - 1]] && b == b' + [b[|b| - 1]];
    }
  }

  // ----- What a token says.

  // The same resource, the same keys with the same new values, and the same values before.
  ghost predicate SameItem(p: PlanItem, q: PlanItem) {
    && p.arn == q.arn
    && forall k :: Lookup(p.changes, k) == Lookup(q.changes, k) &&
                   (Has(p.changes, k) ==> Get(p.before, k) == Get(q.before, k))
  }

  ghost predicate Among(p: PlanItem, plan: seq<PlanItem>) {
    exists j :: 0 <= j < |plan| && SameItem(p, plan[j])
  }

  ghost predicate SameChanges(p: seq<PlanItem>, q: seq<PlanItem>) {
    (forall i :: 0 <= i < |p| ==> Among(p[i], q)) && (forall j :: 0 <= j < |q| ==> Among(q[j], p))
  }

  lemma SameEntry(p: PlanItem, q: PlanItem)
    ensures EntryOf(p) == EntryOf(q) <==> SameItem(p, q)
  {
    forall k
      ensures Get(AsMap(p.changes), k) == Lookup(p.changes, k)
      ensures Get(AsMap(q.changes), k) == Lookup(q.changes, k)
    {
      AsMapLooksUp(p.changes, k);
      AsMapLooksUp(q.changes, k);
    }
    hide AsMap, Lookup;
    var x, y := EntryOf(p).1, EntryOf(q).1;
    if EntryOf(p) == EntryOf(q) {
      forall k
        ensures Lookup(p.changes, k) == Lookup(q.changes, k)
        ensures Has(p.changes, k) ==> Get(p.before, k) == Get(q.before, k)
      {
        assert k in x <==> k in y;
        assert k in x ==> x[k] == y[k];
      }
    }
    if SameItem(p, q) {
      forall k ensures k in x <==> k in y { assert Lookup(p.changes, k) == Lookup(q.changes, k); }
      forall k | k in x ensures x[k] == y[k] { assert Lookup(p.changes, k) == Lookup(q.changes, k); }
      assert x == y;
    }
  }

  lemma HoldsMeansAmong(p: PlanItem, plan: seq<PlanItem>)
    ensures Holds(plan, EntryOf(p)) <==> Among(p, plan)
  {
    forall j | 0 <= j < |plan| ensures EntryOf(plan[j]) == EntryOf(p) <==> SameItem(p, plan[j]) {
      SameEntry(p, plan[j]);
    }
    hide EntryOf, SameItem;
  }

  lemma SameTokenSameEntries(p: seq<PlanItem>, q: seq<PlanItem>)
    requires DistinctItems(p) && DistinctItems(q)
    ensures PlanToken(p) == PlanToken(q) <==> forall x :: Holds(p, x) <==> Holds(q, x)
  {
    hide Holds, PlanToken;
    TokenIsSortedEntries(p);
    TokenIsSortedEntries(q);
    if forall x :: Holds(p, x) <==> Holds(q, x) {
      SortedIsUnique(PlanToken(p), PlanToken(q));
    } else {
      var x :| Holds(p, x) != Holds(q, x);
      assert x in PlanToken(p) <==> x !in PlanToken(q);
    }
  }

  lemma HoldsWithin(p: seq<PlanItem>, q: seq<PlanItem>)
    ensures (forall x :: Holds(p, x) ==> Holds(q, x)) <==> forall i :: 0 <= i < |p| ==> Among(p[i], q)
  {
    forall i | 0 <= i < |p|
      ensures Holds(p, EntryOf(p[i])) && (Holds(q, EntryOf(p[i])) <==> Among(p[i], q))
    {
      HoldsMeansAmong(p[i], q);
    }
    hide EntryOf, Among;
    if forall i :: 0 <= i < |p| ==> Among(p[i], q) {
      forall x | Holds(p, x) ensures Holds(q, x) {
        var i :| 0 <= i < |p| && EntryOf(p[i]) == x;
      }
    }
  }

  /** Two plans have the same token exactly when they make the same changes to the same resources, from the same
      values. */
  lemma TokenSaysChangesExactly(p: seq<PlanItem>, q: seq<PlanItem>)
    requires DistinctItems(p) && DistinctItems(q)
    ensures PlanToken(p) == PlanToken(q) <==> SameChanges(p, q)
  {
    SameTokenSameEntries(p, q);
    HoldsWithin(p, q);
    HoldsWithin(q, p);
    hide Holds, Among;
  }

  // ----- The order of the targets.

  predicate DistinctTargets(ts: seq<Target>) {
    forall i, j :: 0 <= i < j < |ts| ==> Strip(ts[i].arn) != Strip(ts[j].arn)
  }

  lemma {:induction false} CollectedNone(ts: seq<Target>, a: string)
    requires forall i :: 0 <= i < |ts| ==> Strip(ts[i].arn) != a
    ensures Collected(ts, a) == []
  {
    if ts != [] { CollectedNone(ts[..|ts| - 1], a); }
  }

  lemma {:induction false} CollectedOnce(ts: seq<Target>, i: nat)
    requires i < |ts| && DistinctTargets(ts)
    ensures Collected(ts, Strip(ts[i].arn)) == PutAll([], ts[i].tags)
  {
    hide PutAll, Strip;
    if i == |ts| - 1 { CollectedNone(ts[..i], Strip(ts[i].arn)); } else { CollectedOnce(ts[..|ts| - 1], i); }
  }

  lemma PlanHolds(s: Settings, ts: seq<Target>, live: Live, list: Listing, overwrite: bool, plan: seq<PlanItem>)
    requires PlanOf(s, Merge(ts), live, list, overwrite, plan)
    ensures DistinctItems(plan)
    ensures |plan| == |Merge(ts)| && forall i :: 0 <= i < |plan| ==> plan[i].arn == Merge(ts)[i].0
    ensures forall a :: Has(Merge(ts), a) <==> exists i :: 0 <= i < |plan| && plan[i].arn == a
    ensures forall i :: 0 <= i < |plan| ==>
              PlanFor(s, plan[i].arn, Collected(ts, plan[i].arn), list(Of(live, plan[i].arn)), overwrite, plan[i])
  {
    var m := Merge(ts);
    MergeMeans(ts, "", "");
    forall i | 0 <= i < |plan|
      ensures PlanFor(s, plan[i].arn, Collected(ts, plan[i].arn), list(Of(live, plan[i].arn)), overwrite, plan[i])
      ensures Has(m, plan[i].arn)
    {
      MergeCollects(ts, plan[i].arn);
      LookupAt(m, i);
    }
    forall a | Has(m, a) ensures exists i :: 0 <= i < |plan| && plan[i].arn == a {
      var i := LookupFinds(m, a);
      assert plan[i].arn == a;
    }
  }

  // The plan for a resource is determined by the request and the tags it has.
  lemma PlanIsDetermined(s: Settings, wanted: Tags, cur: Tags, cur': Tags, overwrite: bool, p: PlanItem, q: PlanItem)
    requires PlanFor(s, p.arn, wanted, cur, overwrite, p) && PlanFor(s, p.arn, wanted, cur', overwrite, q)
    ensures cur == cur' ==> EntryOf(p) == EntryOf(q)
    ensures p.invalid == [] <==> q.invalid == []
  {
    EmptyMeansNone(p.invalid);
    EmptyMeansNone(q.invalid);
  }

  /** The token of a plan does not depend on the order in which distinct targets are given. */
  lemma TokenIgnoresOrder(s: Settings, ts: seq<Target>, us: seq<Target>, live: Live, list: Listing, overwrite: bool,
                          p: seq<PlanItem>, q: seq<PlanItem>)
    requires DistinctTargets(ts) && DistinctTargets(us) && forall t :: t in ts <==> t in us
    requires PlanOf(s, Merge(ts), live, list, overwrite, p) && PlanOf(s, Merge(us), live, list, overwrite, q)
    ensures PlanToken(p) == PlanToken(q)
  {
    PlanHolds(s, ts, live, list, overwrite, p);
    PlanHolds(s, us, live, list, overwrite, q);
    SubsetHolds(s, ts, us, live, list, overwrite, p, q);
    SubsetHolds(s, us, ts, live, list, overwrite, q, p);
    SameTokenSameEntries(p, q);
  }

  lemma SubsetHolds(s: Settings, ts: seq<Target>, us: seq<Target>, live: Live, list: Listing, overwrite: bool,
                    p: seq<PlanItem>, q: seq<PlanItem>)
    requires DistinctTargets(ts) && DistinctTargets(us) && forall t :: t in ts ==> t in us
    requires PlanOf(s, Merge(ts), live, list, overwrite, p) && PlanOf(s, Merge(us), live, list, overwrite, q)
    ensures forall x :: Holds(p, x) ==> Holds(q, x)
  {
    hide PlanFor, EntryOf, Merge, Collected, PutAll, Strip;
    PlanHolds(s, ts, live, list, overwrite, p);
    PlanHolds(s, us, live, list, overwrite, q);
    forall x | Holds(p, x) ensures Holds(q, x) {
      var i :| 0 <= i < |p| && EntryOf(p[i]) == x;
      var a := p[i].arn;
      assert Has(Merge(ts), a);
      MergeHas(ts, a);
      var k :| 0 <= k < |ts| && Strip(ts[k].arn) == a && ts[k].tags != [];
      assert ts[k] in us;
      var l :| 0 <= l < |us| && us[l] == ts[k];
      CollectedOnce(ts, k);
      CollectedOnce(us, l);
      assert Named(us, a);
      MergeHas(us, a);
      var j :| 0 <= j < |q| && q[j].arn == a;
      PlanIsDetermined(s, PutAll([], ts[k].tags), list(Of(live, a)), list(Of(live, a)), overwrite, p[i], q[j]);
    }
  }

  /** An accepted token: the plan applied is, resource by resource, the plan that was previewed. */
  lemma PreviewIsFaithful(s: Settings, ts: seq<Target>, previewed: Live, live: Live, list: Listing, overwrite: bool,
                          p: seq<PlanItem>, q: seq<PlanItem>)
    requires PlanOf(s, Merge(ts), previewed, list, overwrite, p) && PlanOf(s, Merge(ts), live, list, overwrite, q)
    requires PlanToken(p) == PlanToken(q)
    ensures |p| == |q|
    ensures forall i :: 0 <= i < |p| ==> SameItem(p[i], q[i]) && (p[i].invalid == [] <==> q[i].invalid == [])
  {
    hide PlanFor, EntryOf, Merge, Collected, PlanToken, Holds, SameItem;
    PlanHolds(s, ts, previewed, list, overwrite, p);
    PlanHolds(s, ts, live, list, overwrite, q);
    TokenSaysChangesExactly(p, q);
    forall i | 0 <= i < |p| ensures SameItem(p[i], q[i]) && (p[i].invalid == [] <==> q[i].invalid == []) {
      SameItemAt(p, q, i);
      PlanIsDetermined(s, Collected(ts, p[i].arn), list(Of(previewed, p[i].arn)), list(Of(live, p[i].arn)), overwrite,
                       p[i], q[i]);
    }
  }

  lemma SameItemAt(p: seq<PlanItem>, q: seq<PlanItem>, i: nat)
    requires SameChanges(p, q) && DistinctItems(q) && i < |p| && i < |q| && p[i].arn == q[i].arn
    ensures SameItem(p[i], q[i])
  {
    assert Among(p[i], q);
    var j :| 0 <= j < |q| && SameItem(p[i], q[j]);
    assert q[j].arn == q[i].arn;
  }
}
