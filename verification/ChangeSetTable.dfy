/** The table of change sets: apply and undo, step by step. */
module ChangeSetTables {
  import opened Wrappers
  import opened Governance
  import opened TagStore
  import opened Targets
  import opened Plans
  import opened PlanTokens
  import opened ChangeSets
  import opened ApplyLaws
  import opened Batching

  method ApplyPlan(plan: seq<PlanItem>, place: string -> Place, cloud: Cloud, failing: set<string>)
    returns (items: seq<Item>)
    requires DistinctItems(plan)
    modifies cloud
    ensures items == Records(plan, failing)
    ensures AppliedTo(items, cloud.protected, old(cloud.live), old(cloud.baseline), cloud.live, cloud.baseline)
  {
    var xs: seq<Option<TagItem>>, i := [], 0;
    while i < |plan|
      invariant i <= |plan| && xs == PlanCalls(plan)[..i]
    {
      xs := xs + [TagCall(plan[i])];
      i := i + 1;
    }
    assert CallsFor(xs, PlanArns(plan));
    var failed := RunOptional(xs, PlanArns(plan), place, cloud, failing);
    ApplyEffect(plan, failing, cloud.protected, old(cloud.live), old(cloud.baseline), cloud.live, cloud.baseline);
    hide AppliedTo, Effect;
    items := [];
    var j := 0;
    while j < |plan|
      invariant j <= |plan| && items == Records(plan, failing)[..j]
    {
      assert PlanArns(plan)[j] == plan[j].arn;
      items := items + [RecordOf(plan[j], failed)];
      j := j + 1;
    }
  }

  method PlanUndos(done: seq<Item>, live: Live)
    returns (planned: seq<Item>, setCalls: seq<Option<TagItem>>, unsetCalls: seq<Option<TagItem>>)
    ensures planned == UndoRecords(done, live, {}, {})
    ensures setCalls == SetCalls(done, live) && unsetCalls == UnsetCalls(done, live)
  {
    hide Restore, Remove, Conflicts;
    planned, setCalls, unsetCalls := [], [], [];
    var i := 0;
    while i < |done|
      invariant i <= |done| && planned == UndoRecords(done, live, {}, {})[..i]
      invariant setCalls == SetCalls(done, live)[..i] && unsetCalls == UnsetCalls(done, live)[..i]
    {
      var it, cur := done[i], Of(live, done[i].arn);
      var restore, remove, conflicts := PlanUndo(it, cur);
      var before := map k | k in restore.Keys + remove && k in cur :: cur[k];
      var result :=
        if restore != map[] || remove != {} then Success
        else if conflicts != map[] then Outcome.Conflict else NoChange;
      setCalls := setCalls + [if restore != map[] then Some(TagItem(it.arn, Tag(restore), false)) else None];
      unsetCalls := unsetCalls + [if remove != {} then Some(TagItem(it.arn, Untag(remove), false)) else None];
      planned := planned + [Item(it.arn, before, restore, remove, conflicts, result)];
      i := i + 1;
    }
  }

  // Writes failures into the planned records.
  method MarkUndone(ghost done: seq<Item>, ghost live: Live, planned: seq<Item>, errors: set<string>,
                    ghost failSet: set<string>, ghost failUnset: set<string>)
    returns (items: seq<Item>)
    requires planned == UndoRecords(done, live, {}, {})
    requires forall i :: 0 <= i < |done| ==>
               (done[i].arn in errors <==>
                 (SetCalls(done, live)[i].Some? && done[i].arn in failSet) ||
                 (UnsetCalls(done, live)[i].Some? && done[i].arn in failUnset))
    ensures items == UndoRecords(done, live, failSet, failUnset)
  {
    hide Restore, Remove, Conflicts;
    items := [];
    var i := 0;
    while i < |planned|
      invariant i <= |planned| && items == UndoRecords(done, live, failSet, failUnset)[..i]
    {
      var it := planned[i];
      assert it == UndoRecord(done[i], Of(live, done[i].arn), {}, {}) && it.arn == done[i].arn;
      items := items + [if it.arn in errors then it.(result := Failed) else it];
      i := i + 1;
    }
  }

  method SuccessesOf(recorded: seq<Item>) returns (done: seq<Item>)
    ensures done == Successes(recorded)
  {
    done := [];
    var i := 0;
    while i < |recorded|
      invariant i <= |recorded| && done == Successes(recorded[..i])
    {
      assert recorded[..i + 1][..i] == recorded[..i];
      if recorded[i].result == Success { done := done + [recorded[i]]; }
      i := i + 1;
    }
    assert recorded[..i] == recorded;
  }

  method UndoItems(recorded: seq<Item>, place: string -> Place, cloud: Cloud, failSet: set<string>,
                   failUnset: set<string>)
    returns (items: seq<Item>)
    requires DistinctRecords(recorded)
    modifies cloud
    ensures items == UndoRecords(Successes(recorded), old(cloud.live), failSet, failUnset) && DistinctRecords(items)
    ensures UndoneTo(recorded, cloud.protected, failSet, failUnset, old(cloud.live), old(cloud.baseline), cloud.live,
                     cloud.baseline)
  {
    ghost var live, base := cloud.live, cloud.baseline;
    var done := SuccessesOf(recorded);
    SuccessesMean(recorded);
    ghost var arns := RecordArns(done);
    var planned, setCalls, unsetCalls := PlanUndos(done, cloud.live);
    assert CallsFor(setCalls, arns) && CallsFor(unsetCalls, arns);
    hide SetCall, UnsetCall, UndoneTo, Successes;
    var failed1 := RunOptional(setCalls, arns, place, cloud, failSet);
    ghost var mid, midBase := cloud.live, cloud.baseline;
    var failed2 := RunOptional(unsetCalls, arns, place, cloud, failUnset);
    UndoEffect(recorded, failSet, failUnset, cloud.protected, live, base, mid, midBase, cloud.live, cloud.baseline);
    forall k | 0 <= k < |done|
      ensures done[k].arn in failed1 + failed2 <==>
              (setCalls[k].Some? && done[k].arn in failSet) || (unsetCalls[k].Some? && done[k].arn in failUnset)
    {
      assert arns[k] == done[k].arn;
    }
    items := MarkUndone(done, live, planned, failed1 + failed2, failSet, failUnset);
  }

  /** The table of change sets over one cloud. */
  class ChangeSetTable {
    const cloud: Cloud
    const place: string -> Place
    var sets: seq<ChangeSet>

    // A resource is recorded once in a change set.
    ghost predicate Valid()
      reads this
    {
      forall n :: 0 <= n < |sets| ==> DistinctRecords(sets[n].items)
    }

    constructor (cloud: Cloud, place: string -> Place)
      ensures Valid() && sets == [] && this.cloud == cloud && this.place == place
    {
      this.cloud := cloud;
      this.place := place;
      sets := [];
    }

    method Apply(s: Settings, targets: seq<Target>, overwrite: bool, token: Option<Token>, list: Listing,
                 failing: set<string>)
      returns (r: Result<nat>, ghost plan: seq<PlanItem>)
      requires Valid() && Dict(s.cfg.rules) && Faithful(list)
      modifies this, cloud
      ensures Valid()
      ensures r == Err(TooManyResources) <==> |targets| > s.limit
      ensures r == Err(InvalidRequest) <==>
              |targets| <= s.limit && exists i :: 0 <= i < |targets| && BadTarget(s.cfg.lower, targets[i])
      ensures r.Ok? || r == Err(PlanChanged) ==> PlanOf(s, Merge(targets), old(cloud.live), list, overwrite, plan)
      ensures r.Ok? ==> token.None? || token.value == PlanToken(plan)
      ensures r.Err? ==> r.error in {TooManyResources, InvalidRequest} ||
                         (r.error == PlanChanged && token.Some? && token.value != PlanToken(plan))
      ensures r.Err? ==> cloud.live == old(cloud.live) && cloud.baseline == old(cloud.baseline) &&
                         cloud.calls == old(cloud.calls) && sets == old(sets)
      ensures r.Ok? ==>
        var items := Records(plan, failing);
        && r.value == |old(sets)| && sets == old(sets) + [ChangeSet(items, StatusOf(items), None, None)]
        && AppliedTo(items, cloud.protected, old(cloud.live), old(cloud.baseline), cloud.live, cloud.baseline)
      ensures r.Ok? ==> WrittenAsPlanned(plan, failing, old(cloud.live), cloud.live)
      ensures r.Ok? ==> RecordedAsPlanned(plan, failing, sets[r.value].items)
    {
      plan := [];
      var planned: seq<PlanItem> := [];
      if targets != [] {
        var built := BuildPlan(s, targets, overwrite, cloud, list);
        if built.Err? { r := Err(built.error); return; }
        planned := built.value;
      }
      plan := planned;
      PlanHolds(s, targets, cloud.live, list, overwrite, plan);
      RecordsDistinct(plan, failing);
      hide PlanOf, Merge, PlanToken, AppliedTo, Records, DistinctRecords, BadTarget, StatusOf, Faithful,
          WrittenAsPlanned, RecordedAsPlanned;
      if token.Some? && PlanToken(planned) != token.value { r := Err(PlanChanged); return; }

      var items := ApplyPlan(planned, place, cloud, failing);
      RecordsAsPlanned(plan, failing);
      AppliedAsPlanned(plan, failing, cloud.protected, old(cloud.live), old(cloud.baseline), cloud.live,
                       cloud.baseline);
      sets := sets + [ChangeSet(items, StatusOf(items), None, None)];
      r := Ok(|sets| - 1);
    }

    method Undo(id: nat, failSet: set<string>, failUnset: set<string>) returns (r: Result<nat>)
      requires Valid()
      modifies this, cloud
      ensures Valid()
      ensures r == Err(NotFound) <==> id >= |old(sets)|
      ensures r == Err(AlreadyUndone) <==> id < |old(sets)| && old(sets)[id].undoneBy.Some?
      ensures r == Err(NotUndoable) <==> id < |old(sets)| && old(sets)[id].undoneBy.None? && old(sets)[id].undoOf.Some?
      ensures r.Err? ==> r.error in {NotFound, AlreadyUndone, NotUndoable}
      ensures r.Err? ==> cloud.live == old(cloud.live) && cloud.baseline == old(cloud.baseline) &&
                         cloud.calls == old(cloud.calls) && sets == old(sets)
      ensures r.Ok? ==>
        var items := UndoRecords(Successes(old(sets)[id].items), old(cloud.live), failSet, failUnset);
        && r.value == |old(sets)|
        && sets == old(sets)[id := old(sets)[id].(undoneBy := Some(r.value),
                                                  status := if Clean(items) then Undone else UndoPartial)]
                   + [ChangeSet(items, StatusOf(items), Some(id), None)]
        && UndoneTo(old(sets)[id].items, cloud.protected, failSet, failUnset, old(cloud.live), old(cloud.baseline),
                    cloud.live, cloud.baseline)
    {
      if id >= |sets| { return Err(NotFound); }
      var cs := sets[id];
      if cs.undoneBy.Some? { return Err(AlreadyUndone); }
      if cs.undoOf.Some? { return Err(NotUndoable); }
      var items := UndoItems(cs.items, place, cloud, failSet, failUnset);
      var n := |sets|;
      sets := sets[id := cs.(undoneBy := Some(n), status := if Clean(items) then Undone else UndoPartial)]
              + [ChangeSet(items, StatusOf(items), Some(id), None)];
      return Ok(n);
    }
  }
}
