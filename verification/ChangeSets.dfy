/** Applying a change set and undoing it. */
module ChangeSets {
  import opened Wrappers
  import opened TagStore
  import opened Plans
  import opened PlanTokens
  import opened Batching

  datatype Outcome = Invalid | NoChange | Success | Failed | Conflict

  // `before` leaves out keys without a value; `conflicts` has what was found instead of the written value.
  datatype Item = Item(arn: string, before: TagMap, after: TagMap, removed: set<string>,
                       conflicts: map<string, Option<string>>, result: Outcome)

  datatype Status = Unchanged | Applied | AllFailed | Partial | Undone | UndoPartial

  // A change set is known by its position in the table.
  datatype ChangeSet = ChangeSet(items: seq<Item>, status: Status, undoOf: Option<nat>, undoneBy: Option<nat>)

  predicate DistinctRecords(items: seq<Item>) {
    forall i, j :: 0 <= i < j < |items| ==> items[i].arn != items[j].arn
  }

  // ----- Applying.

  // How the item of plan `p` is recorded when the calls for `failing` fail.
  function RecordOf(p: PlanItem, failing: set<string>): Item {
    Item(p.arn, p.before, AsMap(p.changes), {}, map[],
         if p.invalid != [] then Invalid
         else if p.changes == [] then NoChange
         else if p.arn in failing then Failed else Success)
  }

  predicate Attempted(it: Item) {
    it.result in {Success, Failed}
  }

  function StatusOf(items: seq<Item>): Status {
    if forall i :: 0 <= i < |items| ==> !Attempted(items[i]) then Unchanged
    else if forall i :: 0 <= i < |items| && Attempted(items[i]) ==> items[i].result == Success then Applied
    else if forall i :: 0 <= i < |items| && Attempted(items[i]) ==> items[i].result == Failed then AllFailed
    else Partial
  }

  // ----- Undoing one item whose resource now has tags `cur`.

  function Restore(it: Item, cur: TagMap): TagMap {
    map k | k in it.after && Get(cur, k) == Some(it.after[k]) && k in it.before :: it.before[k]
  }

  function Remove(it: Item, cur: TagMap): set<string> {
    set k | k in it.after && Get(cur, k) == Some(it.after[k]) && k !in it.before
  }

  function Conflicts(it: Item, cur: TagMap): map<string, Option<string>> {
    map k | k in it.after && Get(cur, k) != Some(it.after[k]) :: Get(cur, k)
  }

  // `failSet` and `failUnset` are the resources whose restoring and removing calls fail.
  function UndoRecord(it: Item, cur: TagMap, failSet: set<string>, failUnset: set<string>): Item {
    var restore, remove, conflicts := Restore(it, cur), Remove(it, cur), Conflicts(it, cur);
    Item(it.arn, map k | k in restore.Keys + remove && k in cur :: cur[k], restore, remove, conflicts,
         if (restore != map[] && it.arn in failSet) || (remove != {} && it.arn in failUnset) then Failed
         else if restore != map[] || remove != {} then Success
         else if conflicts != map[] then Outcome.Conflict
         else NoChange)
  }

  // The written keys but `rest` have been sorted.
  ghost predicate Sorted(it: Item, cur: TagMap, rest: set<string>, restore: TagMap, remove: set<string>,
                         conflicts: map<string, Option<string>>)
  {
    && restore == Restore(it, cur) - rest
    && remove == Remove(it, cur) - rest
    && conflicts == Conflicts(it, cur) - rest
  }

  lemma SortedNone(it: Item, cur: TagMap)
    ensures Sorted(it, cur, it.after.Keys, map[], {}, map[])
  {}

  lemma SortedAll(it: Item, cur: TagMap, restore: TagMap, remove: set<string>, conflicts: map<string, Option<string>>)
    requires Sorted(it, cur, {}, restore, remove, conflicts)
    ensures restore == Restore(it, cur) && remove == Remove(it, cur) && conflicts == Conflicts(it, cur)
  {}

  lemma RestoreNext(it: Item, cur: TagMap, rest: set<string>, k: string)
    requires k in rest && k in it.after
    ensures Restore(it, cur) - (rest - {k}) ==
            if Get(cur, k) == Some(it.after[k]) && k in it.before then (Restore(it, cur) - rest)[k := it.before[k]]
            else Restore(it, cur) - rest
  {}

  lemma RemoveNext(it: Item, cur: TagMap, rest: set<string>, k: string)
    requires k in rest && k in it.after
    ensures Remove(it, cur) - (rest - {k}) ==
            if Get(cur, k) == Some(it.after[k]) && k !in it.before then Remove(it, cur) - rest + {k}
            else Remove(it, cur) - rest
  {}

  lemma ConflictsNext(it: Item, cur: TagMap, rest: set<string>, k: string)
    requires k in rest && k in it.after
    ensures Conflicts(it, cur) - (rest - {k}) ==
            if Get(cur, k) != Some(it.after[k]) then (Conflicts(it, cur) - rest)[k := Get(cur, k)]
            else Conflicts(it, cur) - rest
  {}

  method PlanUndo(it: Item, cur: TagMap)
    returns (restore: TagMap, remove: set<string>, conflicts: map<string, Option<string>>)
    ensures restore == Restore(it, cur) && remove == Remove(it, cur) && conflicts == Conflicts(it, cur)
  {
    hide Restore, Remove, Conflicts;
    restore, remove, conflicts := map[], {}, map[];
    var rest := it.after.Keys;
    SortedNone(it, cur);
    while rest != {}
      invariant rest <= it.after.Keys && Sorted(it, cur, rest, restore, remove, conflicts)
      decreases rest
    {
      var k :| k in rest;
      RestoreNext(it, cur, rest, k);
      RemoveNext(it, cur, rest, k);
      ConflictsNext(it, cur, rest, k);
      if Get(cur, k) != Some(it.after[k]) {
        conflicts := conflicts[k := Get(cur, k)];
      } else if k !in it.before {
        remove := remove + {k};
      } else {
        restore := restore[k := it.before[k]];
      }
      rest := rest - {k};
    }
    SortedAll(it, cur, restore, remove, conflicts);
  }

  // ----- The calls.

  // The items that there are.
  function Somes(xs: seq<Option<TagItem>>): seq<TagItem> {
    if xs == [] then []
    else Somes(xs[..|xs| - 1]) + (if xs[|xs| - 1].Some? then [xs[|xs| - 1].value] else [])
  }

  predicate Apart(xs: seq<Option<TagItem>>) {
    forall i, j :: 0 <= i < j < |xs| && xs[i].Some? && xs[j].Some? ==> xs[i].value.arn != xs[j].value.arn
  }

  lemma {:induction false} SomesMean(xs: seq<Option<TagItem>>)
    requires Apart(xs)
    ensures DistinctArns(Somes(xs))
    ensures forall t :: t in Somes(xs) <==> Some(t) in xs
  {
    if xs != [] {
      var front, last := xs[..|xs| - 1], xs[|xs| - 1];
      SomesMean(front);
      assert xs == front + [last];
      var ts := Somes(front);
      forall i | 0 <= i < |ts| ensures last.Some? ==> ts[i].arn != last.value.arn {
        assert ts[i] in ts;
        var j :| 0 <= j < |front| && front[j] == Some(ts[i]);
        assert xs[j] == front[j];
      }
    }
  }

  function TagCall(p: PlanItem): Option<TagItem> {
    if p.invalid == [] && p.changes != [] then Some(TagItem(p.arn, Tag(AsMap(p.changes)), false)) else None
  }

  function SetCall(it: Item, cur: TagMap): Option<TagItem> {
    if Restore(it, cur) != map[] then Some(TagItem(it.arn, Tag(Restore(it, cur)), false)) else None
  }

  function UnsetCall(it: Item, cur: TagMap): Option<TagItem> {
    if Remove(it, cur) != {} then Some(TagItem(it.arn, Untag(Remove(it, cur)), false)) else None
  }

  function FailedArns(items: seq<TagItem>): set<string> {
    set k | 0 <= k < |items| && items[k].failed :: items[k].arn
  }

  lemma FailedAreFailing(calls: seq<TagItem>, failing: set<string>, items: seq<TagItem>)
    requires Marked(calls, Arns(calls), failing, items) && forall k :: 0 <= k < |calls| ==> !calls[k].failed
    ensures FailedArns(items) == set a | a in Arns(calls) && a in failing
  {
    forall a | a in Arns(calls) && a in failing ensures a in FailedArns(items) {
      var k :| 0 <= k < |calls| && calls[k].arn == a;
      assert items[k].arn == a;
    }
  }

  lemma FailedNext(items: seq<TagItem>, i: nat)
    requires i < |items|
    ensures FailedArns(items[..i + 1]) == FailedArns(items[..i]) + if items[i].failed then {items[i].arn} else {}
  {
    var more := items[..i + 1];
    assert forall k :: 0 <= k < i ==> more[k] == items[..i][k];
    assert more[i] == items[i];
  }

  lemma WhatRan(place: string -> Place, job: Job, was: Books, from: nat, calls: seq<Call>, now: Books)
    requires RanSince(place, job, was, from, Arns(was.items), calls, now)
    ensures Marked(was.items, Arns(was.items), job.failing, now.items)
    ensures Wrote(was.items, Arns(was.items), job.failing, was.live, now.live)
    ensures Noted(was.items, Arns(was.items), job.failing, job.protected, was.base, now.base)
  {
    hide Marked, Wrote, Noted, Covers;
  }

  /** Runs the calls and reports the resources whose call failed. */
  method RunCalls(calls: seq<TagItem>, place: string -> Place, cloud: Cloud, failing: set<string>)
    returns (failed: set<string>)
    requires DistinctArns(calls) && forall k :: 0 <= k < |calls| ==> !calls[k].failed
    modifies cloud
    ensures failed == set a | a in Arns(calls) && a in failing
    ensures Wrote(calls, Arns(calls), failing, old(cloud.live), cloud.live)
    ensures Noted(calls, Arns(calls), failing, cloud.protected, old(cloud.baseline), cloud.baseline)
  {
    hide *;
    var items := new TagItem[|calls|](i requires 0 <= i < |calls| => calls[i]);
    assert items[..] == calls;
    RunTagging(items, place, cloud, failing);
    WhatRan(place, Job(failing, cloud.protected), Books(calls, old(cloud.live), old(cloud.baseline)),
            |old(cloud.calls)|, cloud.calls, Books(items[..], cloud.live, cloud.baseline));
    ghost var ran := items[..];
    FailedAreFailing(calls, failing, ran);
    failed := {};
    var i := 0;
    NoneFailed();
    while i < items.Length
      invariant i <= items.Length && items[..] == ran && failed == FailedArns(ran[..i])
      modifies {}
    {
      FailedNext(ran, i);
      assert items[i] == ran[i];
      if items[i].failed { failed := failed + {items[i].arn}; }
      i := i + 1;
    }
    assert ran[..i] == ran;
  }

  lemma NoneFailed()
    ensures FailedArns([]) == {}
  {}

  // ----- What applying and undoing do to the tags and to the baselines.

  // The resources on which `items` were written.
  function Done(items: seq<Item>): set<string> {
    set i | 0 <= i < |items| && items[i].result == Success :: items[i].arn
  }

  ghost predicate AppliedTo(items: seq<Item>, protected: set<string>, live: Live, base: Live, live': Live,
                            base': Live)
  {
    && (forall i :: 0 <= i < |items| && items[i].result == Success ==>
          && Of(live', items[i].arn) == Written(Of(live, items[i].arn), Tag(items[i].after))
          && Of(base', items[i].arn) == Recorded(Of(base, items[i].arn), Tag(items[i].after), protected))
    && (forall a :: a !in Done(items) ==> Of(live', a) == Of(live, a) && Of(base', a) == Of(base, a))
  }

  // The tags after undoing `it` on a resource with tags `cur`: first the restoring call, then the removing one.
  function UndoneTags(it: Item, cur: TagMap, failSet: set<string>, failUnset: set<string>): TagMap {
    var mid := if Restore(it, cur) != map[] && it.arn !in failSet then Written(cur, Tag(Restore(it, cur))) else cur;
    if Remove(it, cur) != {} && it.arn !in failUnset then Written(mid, Untag(Remove(it, cur))) else mid
  }

  function UndoneBase(it: Item, cur: TagMap, base: TagMap, protected: set<string>, failSet: set<string>,
                      failUnset: set<string>): TagMap
  {
    var mid := if Restore(it, cur) != map[] && it.arn !in failSet then Recorded(base, Tag(Restore(it, cur)), protected)
               else base;
    if Remove(it, cur) != {} && it.arn !in failUnset then Recorded(mid, Untag(Remove(it, cur)), protected) else mid
  }

  predicate UndoneAt(it: Item, protected: set<string>, failSet: set<string>, failUnset: set<string>, live: Live,
                     base: Live, live': Live, base': Live)
  {
    var cur := Of(live, it.arn);
    && Of(live', it.arn) == UndoneTags(it, cur, failSet, failUnset)
    && Of(base', it.arn) == UndoneBase(it, cur, Of(base, it.arn), protected, failSet, failUnset)
  }

  ghost predicate UndoneTo(items: seq<Item>, protected: set<string>, failSet: set<string>, failUnset: set<string>,
                           live: Live, base: Live, live': Live, base': Live)
  {
    && (forall i :: 0 <= i < |items| && items[i].result == Success ==>
          UndoneAt(items[i], protected, failSet, failUnset, live, base, live', base'))
    && (forall a :: a !in Done(items) ==> Of(live', a) == Of(live, a) && Of(base', a) == Of(base, a))
  }

  // ----- The table.

  function Records(plan: seq<PlanItem>, failing: set<string>): seq<Item> {
    seq(|plan|, i requires 0 <= i < |plan| => RecordOf(plan[i], failing))
  }

  lemma RecordsDistinct(plan: seq<PlanItem>, failing: set<string>)
    requires DistinctItems(plan)
    ensures DistinctRecords(Records(plan, failing))
  {}

  function Successes(items: seq<Item>): seq<Item> {
    if items == [] then []
    else Successes(items[..|items| - 1]) + (if items[|items| - 1].result == Success then [items[|items| - 1]] else [])
  }

  function UndoRecords(items: seq<Item>, live: Live, failSet: set<string>, failUnset: set<string>): seq<Item> {
    seq(|items|, i requires 0 <= i < |items| => UndoRecord(items[i], Of(live, items[i].arn), failSet, failUnset))
  }

  predicate Clean(items: seq<Item>) {
    forall i :: 0 <= i < |items| ==> items[i].result !in {Outcome.Conflict, Failed} && items[i].conflicts == map[]
  }

  lemma {:induction false} SuccessesMean(items: seq<Item>)
    requires DistinctRecords(items)
    ensures DistinctRecords(Successes(items))
    ensures forall it :: it in Successes(items) <==> it in items && it.result == Success
  {
    if items != [] {
      var front, last := items[..|items| - 1], items[|items| - 1];
      SuccessesMean(front);
      assert items == front + [last];
      var s := Successes(front);
      forall i | 0 <= i < |s| ensures s[i].arn != last.arn {
        assert s[i] in s;
        var j :| 0 <= j < |front| && front[j] == s[i];
        assert items[j] == front[j];
      }
    }
  }

  // Resource by resource: what the calls `xs`, one or none for each of `arns`, have done.
  ghost predicate Effect(xs: seq<Option<TagItem>>, arns: seq<string>, failing: set<string>, protected: set<string>,
                         live: Live, base: Live, live': Live, base': Live)
    requires |xs| == |arns|
  {
    && (forall i :: 0 <= i < |xs| ==>
          Of(live', arns[i]) ==
          if xs[i].Some? && arns[i] !in failing then Written(Of(live, arns[i]), xs[i].value.payload)
          else Of(live, arns[i]))
    && (forall i :: 0 <= i < |xs| ==>
          Of(base', arns[i]) ==
          if xs[i].Some? && arns[i] !in failing then Recorded(Of(base, arns[i]), xs[i].value.payload, protected)
          else Of(base, arns[i]))
    && (forall a :: a !in arns ==> Of(live', a) == Of(live, a) && Of(base', a) == Of(base, a))
  }

  predicate CallsFor(xs: seq<Option<TagItem>>, arns: seq<string>) {
    && |xs| == |arns| && Once(arns)
    && forall i :: 0 <= i < |xs| && xs[i].Some? ==> xs[i].value.arn == arns[i] && !xs[i].value.failed
  }

  lemma CalledAt(xs: seq<Option<TagItem>>, arns: seq<string>, i: nat)
    requires CallsFor(xs, arns) && i < |xs|
    ensures arns[i] in Arns(Somes(xs)) <==> xs[i].Some?
    ensures xs[i].Some? ==> xs[i].value in Somes(xs)
  {
    var ts := Somes(xs);
    SomesMean(xs);
    if xs[i].Some? { assert xs[i] in xs && xs[i].value in ts; }
    if arns[i] in Arns(ts) {
      var k :| 0 <= k < |ts| && ts[k].arn == arns[i];
      assert ts[k] in ts;
      var j :| 0 <= j < |xs| && xs[j] == Some(ts[k]);
    }
  }

  lemma CallsTakeEffect(xs: seq<Option<TagItem>>, arns: seq<string>, failing: set<string>, protected: set<string>,
                        live: Live, base: Live, live': Live, base': Live)
    requires CallsFor(xs, arns)
    requires Wrote(Somes(xs), Arns(Somes(xs)), failing, live, live')
    requires Noted(Somes(xs), Arns(Somes(xs)), failing, protected, base, base')
    ensures Effect(xs, arns, failing, protected, live, base, live', base')
  {
    hide Written, Recorded;
    var ts := Somes(xs);
    forall i | 0 <= i < |xs|
      ensures xs[i].Some? ==> exists k :: 0 <= k < |ts| && ts[k] == xs[i].value
      ensures arns[i] in Arns(ts) <==> xs[i].Some?
    {
      CalledAt(xs, arns, i);
    }
    SomesMean(xs);
    forall a | a in Arns(ts) ensures a in arns {
      var k :| 0 <= k < |ts| && ts[k].arn == a;
      assert ts[k] in ts;
      var j :| 0 <= j < |xs| && xs[j] == Some(ts[k]);
      assert arns[j] == a;
    }
  }

  /** Runs at most one call per resource. */
  method RunOptional(xs: seq<Option<TagItem>>, ghost arns: seq<string>, place: string -> Place, cloud: Cloud,
                     failing: set<string>)
    returns (failed: set<string>)
    requires CallsFor(xs, arns)
    modifies cloud
    ensures forall i :: 0 <= i < |xs| ==> (arns[i] in failed <==> xs[i].Some? && arns[i] in failing)
    ensures failed <= failing
    ensures Effect(xs, arns, failing, cloud.protected, old(cloud.live), old(cloud.baseline), cloud.live, cloud.baseline)
  {
    var calls, i := [], 0;
    while i < |xs|
      invariant i <= |xs| && calls == Somes(xs[..i])
    {
      assert xs[..i + 1][..i] == xs[..i];
      if xs[i].Some? { calls := calls + [xs[i].value]; }
      i := i + 1;
    }
    assert xs[..i] == xs;
    SomesMean(xs);
    forall k | 0 <= k < |calls| ensures !calls[k].failed { assert calls[k] in calls; }
    failed := RunCalls(calls, place, cloud, failing);
    forall k | 0 <= k < |xs| ensures arns[k] in Arns(calls) <==> xs[k].Some? { CalledAt(xs, arns, k); }
    CallsTakeEffect(xs, arns, failing, cloud.protected, old(cloud.live), old(cloud.baseline), cloud.live,
                    cloud.baseline);
  }

  function PlanArns(plan: seq<PlanItem>): seq<string> {
    seq(|plan|, i requires 0 <= i < |plan| => plan[i].arn)
  }

  function PlanCalls(plan: seq<PlanItem>): seq<Option<TagItem>> {
    seq(|plan|, i requires 0 <= i < |plan| => TagCall(plan[i]))
  }

  function RecordArns(items: seq<Item>): seq<string> {
    seq(|items|, i requires 0 <= i < |items| => items[i].arn)
  }

  function SetCalls(items: seq<Item>, live: Live): seq<Option<TagItem>> {
    seq(|items|, i requires 0 <= i < |items| => SetCall(items[i], Of(live, items[i].arn)))
  }

  function UnsetCalls(items: seq<Item>, live: Live): seq<Option<TagItem>> {
    seq(|items|, i requires 0 <= i < |items| => UnsetCall(items[i], Of(live, items[i].arn)))
  }

  lemma ApplyEffect(plan: seq<PlanItem>, failing: set<string>, protected: set<string>, live: Live, base: Live,
                    live': Live, base': Live)
    requires DistinctItems(plan)
    requires Effect(PlanCalls(plan), PlanArns(plan), failing, protected, live, base, live', base')
    ensures AppliedTo(Records(plan, failing), protected, live, base, live', base')
  {
    hide Written, Recorded, RecordOf, TagCall, Of;
    var items, xs, arns := Records(plan, failing), PlanCalls(plan), PlanArns(plan);
    forall i | 0 <= i < |plan|
      ensures items[i].arn == arns[i] && items[i] == RecordOf(plan[i], failing) && xs[i] == TagCall(plan[i])
      ensures items[i].result == Success <==> xs[i].Some? && arns[i] !in failing
      ensures xs[i].Some? ==> xs[i].value.payload == Tag(items[i].after)
    {
      RecordedAsCalled(plan[i], failing);
    }
    forall a | a !in Done(items) ensures Of(live', a) == Of(live, a) && Of(base', a) == Of(base, a) {
      if a in arns {
        var i :| 0 <= i < |arns| && arns[i] == a;
        assert items[i].result != Success;
      }
    }
  }

  lemma RecordedAsCalled(p: PlanItem, failing: set<string>)
    ensures var it, call := RecordOf(p, failing), TagCall(p);
      && it.arn == p.arn && (it.result == Success <==> call.Some? && p.arn !in failing)
      && (call.Some? ==> call.value.payload == Tag(it.after))
  {}

  lemma UndoEffectAt(items: seq<Item>, k: nat, failSet: set<string>, failUnset: set<string>, protected: set<string>,
                     live: Live, base: Live, mid: Live, midBase: Live, live': Live, base': Live)
    requires k < |items|
    requires Effect(SetCalls(items, live), RecordArns(items), failSet, protected, live, base, mid, midBase)
    requires Effect(UnsetCalls(items, live), RecordArns(items), failUnset, protected, mid, midBase, live', base')
    ensures UndoneAt(items[k], protected, failSet, failUnset, live, base, live', base')
  {
    hide Written, Recorded, Restore, Remove, Of;
    var it, cur := items[k], Of(live, items[k].arn);
    assert RecordArns(items)[k] == it.arn;
    assert SetCalls(items, live)[k] == SetCall(it, cur) && UnsetCalls(items, live)[k] == UnsetCall(it, cur);
    hide RecordArns, SetCalls, UnsetCalls;
  }

  lemma UndoEffect(items: seq<Item>, failSet: set<string>, failUnset: set<string>, protected: set<string>,
                   live: Live, base: Live, mid: Live, midBase: Live, live': Live, base': Live)
    requires DistinctRecords(items)
    requires var done := Successes(items);
      && Effect(SetCalls(done, live), RecordArns(done), failSet, protected, live, base, mid, midBase)
      && Effect(UnsetCalls(done, live), RecordArns(done), failUnset, protected, mid, midBase, live', base')
    ensures UndoneTo(items, protected, failSet, failUnset, live, base, live', base')
  {
    hide Effect, UndoneAt, RecordArns, SetCalls, UnsetCalls, Done, Of, Successes, DistinctRecords;
    var done := Successes(items);
    SuccessesMean(items);
    DoneArns(items);
    UndoneElsewhere(done, failSet, failUnset, protected, live, base, mid, midBase, live', base');
    forall i | 0 <= i < |items| && items[i].result == Success
      ensures UndoneAt(items[i], protected, failSet, failUnset, live, base, live', base')
    {
      assert items[i] in done;
      var k :| 0 <= k < |done| && done[k] == items[i];
      UndoEffectAt(done, k, failSet, failUnset, protected, live, base, mid, midBase, live', base');
    }
  }

  lemma UndoneElsewhere(items: seq<Item>, failSet: set<string>, failUnset: set<string>, protected: set<string>,
                        live: Live, base: Live, mid: Live, midBase: Live, live': Live, base': Live)
    requires Effect(SetCalls(items, live), RecordArns(items), failSet, protected, live, base, mid, midBase)
    requires Effect(UnsetCalls(items, live), RecordArns(items), failUnset, protected, mid, midBase, live', base')
    ensures forall a :: a !in RecordArns(items) ==> Of(live', a) == Of(live, a) && Of(base', a) == Of(base, a)
  {
    hide Written, Recorded, Of, RecordArns, SetCalls, UnsetCalls;
  }

  lemma DoneArns(items: seq<Item>)
    requires DistinctRecords(items)
    ensures forall a :: a in RecordArns(Successes(items)) ==> a in Done(items)
  {
    var done := Successes(items);
    var arns := RecordArns(done);
    SuccessesMean(items);
    forall a | a in arns ensures a in Done(items) {
      var k :| 0 <= k < |arns| && arns[k] == a;
      assert done[k] in done;
      var i :| 0 <= i < |items| && items[i] == done[k];
    }
  }
}
