/** What applying and undoing promise about the tags of every resource, key by key. */
module UndoLaws {
  import opened Wrappers
  import opened Governance
  import opened Compliance
  import opened TagStore
  import opened Targets
  import opened Plans
  import PlanLaws
  import opened PlanTokens
  import opened ChangeSets

  // ----- One key.

  // The value that was written is still there, and the call that undoes it succeeds.
  predicate Undoable(it: Item, cur: TagMap, failSet: set<string>, failUnset: set<string>, k: string) {
    k in it.after && Get(cur, k) == Some(it.after[k]) && it.arn !in if k in it.before then failSet else failUnset
  }

  lemma UndoneKey(it: Item, cur: TagMap, failSet: set<string>, failUnset: set<string>, k: string)
    ensures Get(UndoneTags(it, cur, failSet, failUnset), k) ==
            if Undoable(it, cur, failSet, failUnset, k) then Get(it.before, k) else Get(cur, k)
  {
    assert k in Restore(it, cur) ==> Restore(it, cur) != map[];
    assert k in Remove(it, cur) ==> Remove(it, cur) != {};
  }

  // Item `i` was written, and `k` with it.
  predicate WroteKey(items: seq<Item>, i: int, k: string) {
    0 <= i < |items| && items[i].result == Success && k in items[i].after
  }

  /** Undo, whatever others did in between: a written key goes back to its old value exactly when its live value is
      still the written one and the call succeeds; every other key of every resource stays as it is. */
  lemma UndoTouchesExactly(items: seq<Item>, protected: set<string>, failSet: set<string>, failUnset: set<string>,
                           live: Live, base: Live, live': Live, base': Live)
    requires DistinctRecords(items) && UndoneTo(items, protected, failSet, failUnset, live, base, live', base')
    ensures forall i, k :: WroteKey(items, i, k) ==>
              Get(Of(live', items[i].arn), k) ==
              if Undoable(items[i], Of(live, items[i].arn), failSet, failUnset, k) then Get(items[i].before, k)
              else Get(Of(live, items[i].arn), k)
    ensures forall a, k :: (forall i :: WroteKey(items, i, k) ==> items[i].arn != a) ==>
              Get(Of(live', a), k) == Get(Of(live, a), k)
  {
    hide UndoneTags, UndoneBase, Undoable;
    forall i, k | WroteKey(items, i, k)
      ensures Get(Of(live', items[i].arn), k) ==
              if Undoable(items[i], Of(live, items[i].arn), failSet, failUnset, k) then Get(items[i].before, k)
              else Get(Of(live, items[i].arn), k)
    {
      UndoneKey(items[i], Of(live, items[i].arn), failSet, failUnset, k);
    }
    forall a, k | forall i :: WroteKey(items, i, k) ==> items[i].arn != a
      ensures Get(Of(live', a), k) == Get(Of(live, a), k)
    {
      if a in Done(items) {
        var i :| 0 <= i < |items| && items[i].result == Success && items[i].arn == a;
        assert !WroteKey(items, i, k);
        UndoneKey(items[i], Of(live, a), failSet, failUnset, k);
        NotUndoable(items[i], Of(live, a), failSet, failUnset, k);
      }
    }
  }

  lemma NotUndoable(it: Item, cur: TagMap, failSet: set<string>, failUnset: set<string>, k: string)
    requires k !in it.after
    ensures !Undoable(it, cur, failSet, failUnset, k)
  {}

  // ----- Apply, then undo.

  // Each item remembers the values its resource had.
  ghost predicate Remembers(items: seq<Item>, live: Live) {
    forall i, k :: WroteKey(items, i, k) ==> Get(items[i].before, k) == Get(Of(live, items[i].arn), k)
  }

  lemma ApplyRemembers(s: Settings, m: Merged, live: Live, list: Listing, overwrite: bool, plan: seq<PlanItem>,
                       failing: set<string>)
    requires Faithful(list) && PlanOf(s, m, live, list, overwrite, plan)
    ensures Remembers(Records(plan, failing), live)
  {
    var items := Records(plan, failing);
    forall i, k | WroteKey(items, i, k) ensures Get(items[i].before, k) == Get(Of(live, items[i].arn), k) {
      var cur := list(Of(live, m[i].0));
      assert PlanFor(s, m[i].0, m[i].1, cur, overwrite, plan[i]);
      assert Lists(cur, Of(live, m[i].0));
      PlanLaws.PriorMeans(plan[i].changes, cur, k);
      AsMapLooksUp(plan[i].changes, k);
    }
  }

  lemma AppliedKey(items: seq<Item>, protected: set<string>, live: Live, base: Live, live': Live, base': Live,
                   a: string, k: string)
    requires AppliedTo(items, protected, live, base, live', base')
    ensures forall i :: WroteKey(items, i, k) && items[i].arn == a ==> Get(Of(live', a), k) == Some(items[i].after[k])
    ensures (forall i :: WroteKey(items, i, k) ==> items[i].arn != a) ==> Get(Of(live', a), k) == Get(Of(live, a), k)
  {
    if a in Done(items) {
      var i :| 0 <= i < |items| && items[i].result == Success && items[i].arn == a;
      assert WroteKey(items, i, k) <==> k in items[i].after;
    }
  }

  /** Apply, then undo with nothing in between: every tag of every resource is as before, even when some of the applying
      calls failed. */
  lemma UndoAfterApplyIsIdentity(s: Settings, m: Merged, list: Listing, overwrite: bool, plan: seq<PlanItem>,
                                 failing: set<string>, protected: set<string>, before: Live, base: Live,
                                 applied: Live, base1: Live, undone: Live, base2: Live)
    requires Faithful(list) && PlanOf(s, m, before, list, overwrite, plan) && DistinctItems(plan)
    requires AppliedTo(Records(plan, failing), protected, before, base, applied, base1)
    requires UndoneTo(Records(plan, failing), protected, {}, {}, applied, base1, undone, base2)
    ensures forall a :: Of(undone, a) == Of(before, a)
  {
    hide UndoneTo, AppliedTo, Records;
    var items := Records(plan, failing);
    ApplyRemembers(s, m, before, list, overwrite, plan, failing);
    RecordsDistinct(plan, failing);
    UndoTouchesExactly(items, protected, {}, {}, applied, base1, undone, base2);
    forall a ensures Of(undone, a) == Of(before, a) {
      forall k ensures Get(Of(undone, a), k) == Get(Of(before, a), k) {
        AppliedKey(items, protected, before, base, applied, base1, a, k);
        if i :| WroteKey(items, i, k) && items[i].arn == a {
          assert Undoable(items[i], Of(applied, a), {}, {}, k);
        }
      }
      SameGets(Of(undone, a), Of(before, a));
    }
  }

  /** Undo after apply and any interference: each written key has again the value from before the apply, or else keeps
      what it was changed to in between. */
  lemma UndoAfterInterference(s: Settings, m: Merged, list: Listing, overwrite: bool, plan: seq<PlanItem>,
                              failing: set<string>, protected: set<string>, before: Live, live: Live, base: Live,
                              failSet: set<string>, failUnset: set<string>, undone: Live, base': Live)
    requires Faithful(list) && PlanOf(s, m, before, list, overwrite, plan) && DistinctItems(plan)
    requires UndoneTo(Records(plan, failing), protected, failSet, failUnset, live, base, undone, base')
    ensures var items := Records(plan, failing);
      forall i, k :: WroteKey(items, i, k) ==>
        var a := items[i].arn;
        Get(Of(undone, a), k) ==
        if Undoable(items[i], Of(live, a), failSet, failUnset, k) then Get(Of(before, a), k) else Get(Of(live, a), k)
  {
    hide UndoneTo, Records, Undoable;
    ApplyRemembers(s, m, before, list, overwrite, plan, failing);
    RecordsDistinct(plan, failing);
    UndoTouchesExactly(Records(plan, failing), protected, failSet, failUnset, live, base, undone, base');
  }

  /** An undo recorded as complete has restored every written key. */
  lemma CompleteUndoRestoresAll(items: seq<Item>, protected: set<string>, failSet: set<string>, failUnset: set<string>,
                                live: Live, base: Live, live': Live, base': Live)
    requires DistinctRecords(items) && UndoneTo(items, protected, failSet, failUnset, live, base, live', base')
    requires Clean(UndoRecords(Successes(items), live, failSet, failUnset))
    ensures forall i, k :: WroteKey(items, i, k) ==> Get(Of(live', items[i].arn), k) == Get(items[i].before, k)
  {
    hide UndoneTo;
    var done := Successes(items);
    var records := UndoRecords(done, live, failSet, failUnset);
    SuccessesMean(items);
    UndoTouchesExactly(items, protected, failSet, failUnset, live, base, live', base');
    forall i, k | WroteKey(items, i, k) ensures Get(Of(live', items[i].arn), k) == Get(items[i].before, k) {
      assert items[i] in done;
      var j :| 0 <= j < |done| && done[j] == items[i];
      assert records[j].result !in {Outcome.Conflict, Failed} && records[j].conflicts == map[];
      var it, cur := items[i], Of(live, items[i].arn);
      assert k !in Conflicts(it, cur);
      assert k in Restore(it, cur) || k in Remove(it, cur);
      assert Undoable(it, cur, failSet, failUnset, k);
    }
  }

  // ----- What the undo records.

  // The value written for `k` is still there.
  predicate Still(it: Item, cur: TagMap, k: string) {
    k in it.after && k in cur && cur[k] == it.after[k]
  }

  // A call that puts back some key of `it` is needed and fails.
  ghost predicate Fails(it: Item, cur: TagMap, failSet: set<string>, failUnset: set<string>) {
    exists k :: Still(it, cur, k) && it.arn in if k in it.before then failSet else failUnset
  }

  // `u` records the undoing of `it` on a resource with tags `cur`.
  ghost predicate UndoRecorded(it: Item, cur: TagMap, failSet: set<string>, failUnset: set<string>, u: Item) {
    && u.arn == it.arn
    && (forall k ::
          && Get(u.before, k) == (if Still(it, cur, k) then Some(it.after[k]) else None)
          && Get(u.after, k) == (if Still(it, cur, k) then Get(it.before, k) else None)
          && (k in u.removed <==> Still(it, cur, k) && k !in it.before)
          && (k in u.conflicts <==> k in it.after && !Still(it, cur, k))
          && (k in u.conflicts ==> u.conflicts[k] == Get(cur, k)))
    && (u.result == Failed <==> Fails(it, cur, failSet, failUnset))
    && (u.result == Success <==> !Fails(it, cur, failSet, failUnset) && exists k :: Still(it, cur, k))
    && (u.result == Outcome.Conflict <==> it.after != map[] && forall k :: !Still(it, cur, k))
    && (u.result == NoChange <==> it.after == map[])
  }

  lemma UndoKeysMean(it: Item, cur: TagMap, failSet: set<string>, failUnset: set<string>)
    ensures var u := UndoRecord(it, cur, failSet, failUnset);
      && (forall k ::
            && Get(u.before, k) == (if Still(it, cur, k) then Some(it.after[k]) else None)
            && Get(u.after, k) == (if Still(it, cur, k) then Get(it.before, k) else None)
            && (k in u.removed <==> Still(it, cur, k) && k !in it.before)
            && (k in u.conflicts <==> k in it.after && !Still(it, cur, k))
            && (k in u.conflicts ==> u.conflicts[k] == Get(cur, k)))
  {}

  lemma UndoResultMeans(it: Item, cur: TagMap, failSet: set<string>, failUnset: set<string>)
    ensures var u := UndoRecord(it, cur, failSet, failUnset);
      && (u.result == Failed <==> Fails(it, cur, failSet, failUnset))
      && (u.result == Success <==> !Fails(it, cur, failSet, failUnset) && exists k :: Still(it, cur, k))
      && (u.result == Outcome.Conflict <==> it.after != map[] && forall k :: !Still(it, cur, k))
      && (u.result == NoChange <==> it.after == map[])
  {
    var restore, remove, conflicts := Restore(it, cur), Remove(it, cur), Conflicts(it, cur);
    forall k
      ensures k in restore <==> Still(it, cur, k) && k in it.before
      ensures k in remove <==> Still(it, cur, k) && k !in it.before
      ensures k in conflicts <==> k in it.after && !Still(it, cur, k)
    {}
    hide Restore, Remove, Conflicts;
    assert restore != map[] <==> exists k :: k in restore;
    assert remove != {} <==> exists k :: k in remove;
    assert conflicts != map[] <==> exists k :: k in conflicts;
    assert it.after != map[] <==> exists k :: k in it.after;
  }

  lemma UndoRecordMeans(it: Item, cur: TagMap, failSet: set<string>, failUnset: set<string>)
    ensures UndoRecorded(it, cur, failSet, failUnset, UndoRecord(it, cur, failSet, failUnset))
  {
    UndoKeysMean(it, cur, failSet, failUnset);
    UndoResultMeans(it, cur, failSet, failUnset);
    hide Still, Fails, Restore, Remove, Conflicts;
  }

  // Item `u` records the undoing of item `i`, which was written.
  ghost predicate RecordsUndo(items: seq<Item>, live: Live, failSet: set<string>, failUnset: set<string>, i: int,
                              u: Item)
  {
    && 0 <= i < |items| && items[i].result == Success
    && UndoRecorded(items[i], Of(live, items[i].arn), failSet, failUnset, u)
  }

  ghost predicate UndoneBy(items: seq<Item>, live: Live, failSet: set<string>, failUnset: set<string>, i: int,
                           us: seq<Item>)
  {
    exists j :: 0 <= j < |us| && RecordsUndo(items, live, failSet, failUnset, i, us[j])
  }

  ghost predicate UndoOf(items: seq<Item>, live: Live, failSet: set<string>, failUnset: set<string>, u: Item) {
    exists i :: RecordsUndo(items, live, failSet, failUnset, i, u)
  }

  lemma UndoneAtOwn(items: seq<Item>, live: Live, failSet: set<string>, failUnset: set<string>, done: seq<Item>, i: nat,
                    j: nat)
    requires i < |items| && items[i].result == Success && j < |done| && done[j] == items[i]
    ensures var us := UndoRecords(done, live, failSet, failUnset);
      UndoneBy(items, live, failSet, failUnset, i, us) && UndoOf(items, live, failSet, failUnset, us[j])
  {
    UndoRecordMeans(done[j], Of(live, done[j].arn), failSet, failUnset);
    var us := UndoRecords(done, live, failSet, failUnset);
    assert us[j] == UndoRecord(done[j], Of(live, done[j].arn), failSet, failUnset);
    hide UndoRecords, UndoRecord, UndoRecorded;
    assert RecordsUndo(items, live, failSet, failUnset, i, us[j]);
  }

  /** The undo records one item for every written resource and none for the others: what was restored and removed and
      from which values, what was in conflict, and how it ended. */
  lemma UndoRecordsMean(items: seq<Item>, live: Live, failSet: set<string>, failUnset: set<string>)
    requires DistinctRecords(items)
    ensures var us := UndoRecords(Successes(items), live, failSet, failUnset);
      && DistinctRecords(us)
      && (forall i :: 0 <= i < |items| && items[i].result == Success ==>
            UndoneBy(items, live, failSet, failUnset, i, us))
      && (forall j :: 0 <= j < |us| ==> UndoOf(items, live, failSet, failUnset, us[j]))
  {
    var done := Successes(items);
    var us := UndoRecords(done, live, failSet, failUnset);
    SuccessesMean(items);
    assert |us| == |done| && DistinctRecords(us);
    hide *;
    forall i | 0 <= i < |items| && items[i].result == Success
      ensures UndoneBy(items, live, failSet, failUnset, i, us)
    {
      assert items[i] in done;
      var j :| 0 <= j < |done| && done[j] == items[i];
      UndoneAtOwn(items, live, failSet, failUnset, done, i, j);
    }
    forall j | 0 <= j < |us| ensures UndoOf(items, live, failSet, failUnset, us[j]) {
      assert done[j] in done;
      var i :| 0 <= i < |items| && items[i] == done[j];
      UndoneAtOwn(items, live, failSet, failUnset, done, i, j);
    }
  }

  // The record of one undone item is clean exactly when each written key still has its value and its call succeeds.
  lemma CleanRecord(it: Item, cur: TagMap, failSet: set<string>, failUnset: set<string>)
    ensures var r := UndoRecord(it, cur, failSet, failUnset);
      (r.result !in {Outcome.Conflict, Failed} && r.conflicts == map[]) <==>
      forall k :: k in it.after ==>
        Get(cur, k) == Some(it.after[k]) && it.arn !in if k in it.before then failSet else failUnset
  {
    var restore, remove, conflicts := Restore(it, cur), Remove(it, cur), Conflicts(it, cur);
    forall k | k in it.after
      ensures k in conflicts <==> Get(cur, k) != Some(it.after[k])
      ensures k in restore <==> Get(cur, k) == Some(it.after[k]) && k in it.before
      ensures k in remove <==> Get(cur, k) == Some(it.after[k]) && k !in it.before
    {}
    if conflicts != map[] { var k :| k in conflicts; }
    if restore != map[] { var k :| k in restore; }
    if remove != {} { var k :| k in remove; }
  }

  /** An undo is recorded as complete exactly when every written key still had its written value and no call that was
      needed to put one back failed. */
  lemma UndoneExactly(items: seq<Item>, live: Live, failSet: set<string>, failUnset: set<string>)
    requires DistinctRecords(items)
    ensures Clean(UndoRecords(Successes(items), live, failSet, failUnset)) <==>
      forall i, k :: WroteKey(items, i, k) ==>
        Get(Of(live, items[i].arn), k) == Some(items[i].after[k]) &&
        items[i].arn !in if k in items[i].before then failSet else failUnset
  {
    hide UndoRecord;
    var done := Successes(items);
    var records := UndoRecords(done, live, failSet, failUnset);
    SuccessesMean(items);
    forall j | 0 <= j < |done| ensures records[j] == UndoRecord(done[j], Of(live, done[j].arn), failSet, failUnset) {}
    if Clean(records) {
      forall i, k | WroteKey(items, i, k)
        ensures Get(Of(live, items[i].arn), k) == Some(items[i].after[k])
        ensures items[i].arn !in if k in items[i].before then failSet else failUnset
      {
        assert items[i] in done;
        var j :| 0 <= j < |done| && done[j] == items[i];
        CleanRecord(done[j], Of(live, done[j].arn), failSet, failUnset);
        assert records[j].result !in {Outcome.Conflict, Failed} && records[j].conflicts == map[];
      }
    } else {
      var j :| 0 <= j < |done| && !(records[j].result !in {Outcome.Conflict, Failed} && records[j].conflicts == map[]);
      CleanRecord(done[j], Of(live, done[j].arn), failSet, failUnset);
      assert done[j] in done;
      var i :| 0 <= i < |items| && items[i] == done[j];
      var k :| k in done[j].after &&
               !(Get(Of(live, done[j].arn), k) == Some(done[j].after[k]) &&
                 done[j].arn !in if k in done[j].before then failSet else failUnset);
      assert WroteKey(items, i, k);
    }
  }

  // ----- Baselines and planned tags.

  /** After an apply, the baseline of each protected key that was written is its live value. */
  lemma ApplyKeepsBaselineInStep(items: seq<Item>, protected: set<string>, live: Live, base: Live, live': Live,
                                 base': Live)
    requires AppliedTo(items, protected, live, base, live', base')
    ensures forall i, k :: WroteKey(items, i, k) && k in protected ==>
              Get(Of(base', items[i].arn), k) == Get(Of(live', items[i].arn), k) == Some(items[i].after[k])
  {
    forall i, k | WroteKey(items, i, k) && k in protected
      ensures Get(Of(base', items[i].arn), k) == Get(Of(live', items[i].arn), k) == Some(items[i].after[k])
    {
      assert Of(live', items[i].arn)[k] == items[i].after[k];
    }
  }

  /** After an undo, the baseline of each protected key that was put back is its live value, or neither has one. */
  lemma UndoKeepsBaselineInStep(items: seq<Item>, protected: set<string>, failSet: set<string>, failUnset: set<string>,
                                live: Live, base: Live, live': Live, base': Live)
    requires DistinctRecords(items) && UndoneTo(items, protected, failSet, failUnset, live, base, live', base')
    ensures forall i, k :: WroteKey(items, i, k) ==>
              k in protected && Undoable(items[i], Of(live, items[i].arn), failSet, failUnset, k) ==>
              Get(Of(base', items[i].arn), k) == Get(Of(live', items[i].arn), k)
  {
    hide UndoneTags, UndoneBase, Undoable;
    forall i, k | WroteKey(items, i, k) && k in protected &&
                  Undoable(items[i], Of(live, items[i].arn), failSet, failUnset, k)
      ensures Get(Of(base', items[i].arn), k) == Get(Of(live', items[i].arn), k)
    {
      var a := items[i].arn;
      UndoneKey(items[i], Of(live, a), failSet, failUnset, k);
      UndoneBaseKey(items[i], Of(live, a), Of(base, a), protected, failSet, failUnset, k);
    }
  }

  lemma UndoneBaseKey(it: Item, cur: TagMap, base: TagMap, protected: set<string>, failSet: set<string>,
                      failUnset: set<string>, k: string)
    requires k in protected && Undoable(it, cur, failSet, failUnset, k)
    ensures Get(UndoneBase(it, cur, base, protected, failSet, failUnset), k) == Get(it.before, k)
  {
    assert k in Restore(it, cur) ==> Restore(it, cur) != map[];
    assert k in Remove(it, cur) ==> Remove(it, cur) != {};
  }

  lemma {:induction false} UpdateLooksUp(t: Tags, ch: Tags, k: string)
    requires Dict(t)
    ensures Dict(Update(t, ch)) && Lookup(Update(t, ch), k) == if Has(ch, k) then Lookup(ch, k) else Lookup(t, k)
  {
    if ch != [] {
      var front := ch[..|ch| - 1];
      UpdateLooksUp(t, front, k);
      PutLookup(Update(t, front), ch[|ch| - 1].0, ch[|ch| - 1].1, k);
      PutDict(Update(t, front), ch[|ch| - 1].0, ch[|ch| - 1].1);
    }
  }

  /** A resource that was written has exactly the tags its plan was judged by. */
  lemma ApplyReachesPlannedTags(s: Settings, m: Merged, list: Listing, overwrite: bool, plan: seq<PlanItem>,
                                failing: set<string>, protected: set<string>, live: Live, base: Live, live': Live,
                                base': Live, i: nat)
    requires Faithful(list) && PlanOf(s, m, live, list, overwrite, plan) && i < |plan|
    requires AppliedTo(Records(plan, failing), protected, live, base, live', base')
    requires Records(plan, failing)[i].result == Success
    ensures Lists(Compliance.After(s.cfg, m[i].1, list(Of(live, m[i].0)), overwrite), Of(live', m[i].0))
  {
    var cur, ch := list(Of(live, m[i].0)), plan[i].changes;
    assert PlanFor(s, m[i].0, m[i].1, cur, overwrite, plan[i]);
    assert Lists(cur, Of(live, m[i].0));
    UpdateLooksUp(cur, ch, "");
    forall k ensures Lookup(Update(cur, ch), k) == Get(Of(live', m[i].0), k) {
      UpdateLooksUp(cur, ch, k);
      AsMapLooksUp(ch, k);
    }
  }
}
