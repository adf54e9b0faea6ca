/** What an apply does and records, said about the plan alone: which resources are written, with what, and how each item
    and the change set come out. */
module ApplyLaws {
  import opened Wrappers
  import opened Governance
  import opened TagStore
  import opened Plans
  import opened PlanTokens
  import opened ChangeSets

  // The plan changes the resource: nothing is wrong with the item, it has changes, and its call does not fail.
  predicate Goes(p: PlanItem, failing: set<string>) {
    p.invalid == [] && p.changes != [] && p.arn !in failing
  }

  // Each changed key of a resource that goes has its planned value, and nothing else is different anywhere.
  ghost predicate WrittenAsPlanned(plan: seq<PlanItem>, failing: set<string>, live: Live, live': Live) {
    && (forall i, k :: 0 <= i < |plan| ==>
          Get(Of(live', plan[i].arn), k) ==
          if Goes(plan[i], failing) && Has(plan[i].changes, k) then Lookup(plan[i].changes, k)
          else Get(Of(live, plan[i].arn), k))
    && (forall a :: (forall i :: 0 <= i < |plan| ==> plan[i].arn != a) ==> Of(live', a) == Of(live, a))
  }

  // How each item is recorded: what was changed from what to what, and the result.
  ghost predicate RecordedAsPlanned(plan: seq<PlanItem>, failing: set<string>, items: seq<Item>) {
    && |items| == |plan|
    && forall i :: 0 <= i < |plan| ==>
         && items[i].arn == plan[i].arn && items[i].before == plan[i].before
         && (forall k :: Get(items[i].after, k) == Lookup(plan[i].changes, k))
         && items[i].removed == {} && items[i].conflicts == map[]
         && (items[i].result == Invalid <==> plan[i].invalid != [])
         && (items[i].result == NoChange <==> plan[i].invalid == [] && plan[i].changes == [])
         && (items[i].result == Failed <==>
               plan[i].invalid == [] && plan[i].changes != [] && plan[i].arn in failing)
         && (items[i].result == Success <==> Goes(plan[i], failing))
  }

  lemma NoChangesNoKeys(ch: Tags, k: string)
    requires Has(ch, k)
    ensures ch != []
  {}

  lemma TagsAfterCall(cur: TagMap, ch: Tags, k: string)
    ensures Get(Written(cur, Tag(AsMap(ch))), k) == if Has(ch, k) then Lookup(ch, k) else Get(cur, k)
  {
    AsMapLooksUp(ch, k);
  }

  /** A resource of the plan has other tags afterwards only if nothing is wrong with its item, it has changes and its
      call does not fail; then every changed key has its planned value. Every other key and resource is unchanged. */
  lemma AppliedAsPlanned(plan: seq<PlanItem>, failing: set<string>, protected: set<string>, live: Live, base: Live,
                         live': Live, base': Live)
    requires DistinctItems(plan) && AppliedTo(Records(plan, failing), protected, live, base, live', base')
    ensures WrittenAsPlanned(plan, failing, live, live')
  {
    var items := Records(plan, failing);
    forall i, k | 0 <= i < |plan|
      ensures Get(Of(live', plan[i].arn), k) ==
              if Goes(plan[i], failing) && Has(plan[i].changes, k) then Lookup(plan[i].changes, k)
              else Get(Of(live, plan[i].arn), k)
    {
      assert items[i] == RecordOf(plan[i], failing);
      if Goes(plan[i], failing) {
        TagsAfterCall(Of(live, plan[i].arn), plan[i].changes, k);
      } else {
        NotDone(plan, failing, i);
      }
    }
    forall a | forall i :: 0 <= i < |plan| ==> plan[i].arn != a ensures Of(live', a) == Of(live, a) {
      assert a !in Done(items);
    }
  }

  lemma NotDone(plan: seq<PlanItem>, failing: set<string>, i: nat)
    requires DistinctItems(plan) && i < |plan| && !Goes(plan[i], failing)
    ensures plan[i].arn !in Done(Records(plan, failing))
  {
    var items := Records(plan, failing);
    assert items[i].result != Success;
    forall j | 0 <= j < |items| && items[j].result == Success ensures items[j].arn != plan[i].arn {
      assert j != i;
    }
  }

  lemma RecordsAsPlanned(plan: seq<PlanItem>, failing: set<string>)
    ensures RecordedAsPlanned(plan, failing, Records(plan, failing))
  {
    var items := Records(plan, failing);
    forall i | 0 <= i < |plan| ensures forall k :: Get(items[i].after, k) == Lookup(plan[i].changes, k) {
      forall k ensures Get(items[i].after, k) == Lookup(plan[i].changes, k) { AsMapLooksUp(plan[i].changes, k); }
    }
  }

  // Some resource was attempted with that result.
  predicate AnyWith(items: seq<Item>, r: Outcome) {
    exists i :: 0 <= i < |items| && items[i].result == r
  }

  /** The status of a change set: nothing attempted, all attempts succeeded, all failed, or some of each. */
  lemma StatusMeans(items: seq<Item>)
    ensures StatusOf(items) == Unchanged <==> !AnyWith(items, Success) && !AnyWith(items, Failed)
    ensures StatusOf(items) == Applied <==> AnyWith(items, Success) && !AnyWith(items, Failed)
    ensures StatusOf(items) == AllFailed <==> !AnyWith(items, Success) && AnyWith(items, Failed)
    ensures StatusOf(items) == Partial <==> AnyWith(items, Success) && AnyWith(items, Failed)
  {}
}
