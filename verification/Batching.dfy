/** One call tags many resources: grouping by place and payload, in chunks of at most twenty. */
module Batching {
  import opened TagStore

  const TAG_BATCH := 20

  datatype TagItem = TagItem(arn: string, payload: Payload, failed: bool)

  predicate DistinctArns(items: seq<TagItem>) {
    forall i, j :: 0 <= i < j < |items| ==> items[i].arn != items[j].arn
  }

  // The same work; only the outcomes may differ.
  predicate SameWork(a: seq<TagItem>, b: seq<TagItem>) {
    |a| == |b| && forall i :: 0 <= i < |a| ==> a[i].arn == b[i].arn && a[i].payload == b[i].payload
  }

  // ----- Groups.

  datatype Group = Group(place: Place, payload: Payload, members: seq<nat>)

  predicate Fits(place: string -> Place, item: TagItem, g: Group) {
    place(item.arn) == g.place && item.payload == g.payload
  }

  // The indices of the items that belong to `g`, in order.
  function Members(place: string -> Place, items: seq<TagItem>, g: Group): seq<nat> {
    if items == [] then []
    else
      Members(place, items[..|items| - 1], g) +
      (if Fits(place, items[|items| - 1], g) then [|items| - 1] else [])
  }

  predicate SameKey(g: Group, h: Group) {
    g.place == h.place && g.payload == h.payload
  }

  // `groups` split `items` by key: no key twice, no item left out, each group complete and in order.
  predicate Groups(place: string -> Place, items: seq<TagItem>, groups: seq<Group>) {
    && (forall i, j :: 0 <= i < j < |groups| ==> !SameKey(groups[i], groups[j]))
    && (forall j :: 0 <= j < |groups| ==> groups[j].members == Members(place, items, groups[j]))
    && (forall i :: 0 <= i < |items| ==> Grouped(place, items[i], groups))
  }

  predicate Grouped(place: string -> Place, item: TagItem, groups: seq<Group>) {
    exists j :: 0 <= j < |groups| && Fits(place, item, groups[j])
  }

  method TagBatches(items: array<TagItem>, place: string -> Place) returns (groups: seq<Group>)
    ensures Groups(place, items[..], groups)
  {
    groups := [];
    var i := 0;
    while i < items.Length
      invariant i <= items.Length && Groups(place, items[..i], groups)
    {
      var item := items[i];
      assert items[..i + 1] == items[..i] + [item];
      var j := 0;
      while j < |groups| && !Fits(place, item, groups[j])
        invariant j <= |groups| && forall k :: 0 <= k < j ==> !Fits(place, item, groups[k])
      {
        j := j + 1;
      }
      GroupNext(place, items[..i], item, groups, j);
      if j < |groups| {
        groups := groups[j := groups[j].(members := groups[j].members + [i])];
      } else {
        groups := groups + [Group(place(item.arn), item.payload, [i])];
      }
      i := i + 1;
    }
    assert items[..i] == items[..];
  }

  lemma MembersNext(place: string -> Place, items: seq<TagItem>, item: TagItem, g: Group)
    ensures Members(place, items + [item], g) ==
            Members(place, items, g) + (if Fits(place, item, g) then [|items|] else [])
  {
    assert (items + [item])[..|items|] == items;
  }

  lemma {:induction false} MembersOfNew(place: string -> Place, items: seq<TagItem>, g: Group)
    requires forall i :: 0 <= i < |items| ==> !Fits(place, items[i], g)
    ensures Members(place, items, g) == []
  {
    if items != [] { MembersOfNew(place, items[..|items| - 1], g); }
  }

  lemma {:induction false} MembersOfKey(place: string -> Place, items: seq<TagItem>, g: Group, h: Group)
    requires SameKey(g, h)
    ensures Members(place, items, g) == Members(place, items, h)
  {
    if items != [] { MembersOfKey(place, items[..|items| - 1], g, h); }
  }

  lemma GroupNext(place: string -> Place, items: seq<TagItem>, item: TagItem, groups: seq<Group>, j: nat)
    requires Groups(place, items, groups)
    requires j <= |groups| && forall k :: 0 <= k < j ==> !Fits(place, item, groups[k])
    requires j < |groups| ==> Fits(place, item, groups[j])
    ensures Groups(place, items + [item],
                   if j < |groups| then groups[j := groups[j].(members := groups[j].members + [|items|])]
                   else groups + [Group(place(item.arn), item.payload, [|items|])])
  {
    var next := if j < |groups| then groups[j := groups[j].(members := groups[j].members + [|items|])]
                else groups + [Group(place(item.arn), item.payload, [|items|])];
    forall k | 0 <= k < |next| ensures next[k].members == Members(place, items + [item], next[k]) {
      MembersNext(place, items, item, next[k]);
      if k < |groups| {
        MembersOfKey(place, items, groups[k], next[k]);
      } else {
        MembersOfNew(place, items, next[k]);
      }
    }
    forall i | 0 <= i < |items + [item]| ensures Grouped(place, (items + [item])[i], next) {
      if i < |items| {
        var k :| 0 <= k < |groups| && Fits(place, items[i], groups[k]);
        assert Fits(place, items[i], next[k]);
      } else {
        assert Fits(place, item, next[j]);
      }
    }
  }

  // ----- What tagging a set of items does.

  ghost predicate Wrote(items: seq<TagItem>, done: set<string>, failing: set<string>, before: Live, after: Live) {
    && (forall i :: 0 <= i < |items| && items[i].arn in done && items[i].arn !in failing ==>
          Of(after, items[i].arn) == Written(Of(before, items[i].arn), items[i].payload))
    && (forall a :: a !in done || a in failing ==> Of(after, a) == Of(before, a))
  }

  ghost predicate Noted(items: seq<TagItem>, done: set<string>, failing: set<string>, protected: set<string>,
                        before: Live, after: Live)
  {
    && (forall i :: 0 <= i < |items| && items[i].arn in done && items[i].arn !in failing ==>
          Of(after, items[i].arn) == Recorded(Of(before, items[i].arn), items[i].payload, protected))
    && (forall a :: a !in done || a in failing ==> Of(after, a) == Of(before, a))
  }

  predicate Marked(before: seq<TagItem>, done: set<string>, failing: set<string>, after: seq<TagItem>) {
    SameWork(before, after) &&
    forall i :: 0 <= i < |after| ==>
        (after[i].failed <==> before[i].failed || (after[i].arn in done && after[i].arn in failing))
  }

  // A call within the limits: every resource in it is an item of this very place and payload.
  predicate Proper(place: string -> Place, items: seq<TagItem>, c: Call) {
    0 < |c.arns| <= TAG_BATCH &&
    forall a :: a in c.arns ==> place(a) == c.place && Wanted(items, a, c.payload)
  }

  predicate Wanted(items: seq<TagItem>, a: string, p: Payload) {
    exists i :: 0 <= i < |items| && items[i].arn == a && items[i].payload == p
  }

  function Sent(calls: seq<Call>): seq<string> {
    if calls == [] then [] else Sent(calls[..|calls| - 1]) + calls[|calls| - 1].arns
  }

  predicate Once(s: seq<string>) {
    forall i, j :: 0 <= i < j < |s| ==> s[i] != s[j]
  }

  // `calls` reach exactly the resources `done`, each once.
  ghost predicate Covers(calls: seq<Call>, done: set<string>) {
    Once(Sent(calls)) && forall a :: a in Sent(calls) <==> a in done
  }

  // The items, and the tags and baselines of the cloud.
  datatype Books = Books(items: seq<TagItem>, live: Live, base: Live)

  // Which resources fail, and which keys are protected.
  datatype Job = Job(failing: set<string>, protected: set<string>)

  // The calls reached the resources `done`, all but the failing ones with success.
  ghost predicate Ran(job: Job, before: Books, done: set<string>, calls: seq<Call>, after: Books) {
    && Marked(before.items, done, job.failing, after.items)
    && Wrote(before.items, done, job.failing, before.live, after.live)
    && Noted(before.items, done, job.failing, job.protected, before.base, after.base)
    && Covers(calls, done)
  }

  lemma {:induction false} SentBoth(a: seq<Call>, b: seq<Call>)
    ensures Sent(a + b) == Sent(a) + Sent(b)
  {
    if b == [] {
      assert a + b == a;
    } else {
      assert (a + b)[..|a + b| - 1] == a + b[..|b| - 1];
      SentBoth(a, b[..|b| - 1]);
    }
  }

  lemma CoversBoth(a: seq<Call>, done: set<string>, b: seq<Call>, more: set<string>)
    requires Covers(a, done) && Covers(b, more) && done !! more
    ensures Covers(a + b, done + more)
  {
    SentBoth(a, b);
    assert forall i :: 0 <= i < |Sent(a)| ==> Sent(a)[i] in done;
    assert forall i :: 0 <= i < |Sent(b)| ==> Sent(b)[i] in more;
  }

  lemma RanBoth(job: Job, before: Books, done: set<string>, calls: seq<Call>, mid: Books, more: set<string>,
                calls2: seq<Call>, after: Books)
    requires Ran(job, before, done, calls, mid) && Ran(job, mid, more, calls2, after) && done !! more
    ensures Ran(job, before, done + more, calls + calls2, after)
  {
    hide Covers, Written, Recorded;
    CoversBoth(calls, done, calls2, more);
    forall a | a in done + more ensures a in done <==> a !in more {}
  }

  function ArnsAt(items: seq<TagItem>, batch: seq<nat>): seq<string>
    requires forall k :: 0 <= k < |batch| ==> batch[k] < |items|
  {
    seq(|batch|, k requires 0 <= k < |batch| => items[batch[k]].arn)
  }

  function ArnSet(items: seq<TagItem>, batch: seq<nat>): set<string>
    requires forall k :: 0 <= k < |batch| ==> batch[k] < |items|
  {
    set k | 0 <= k < |batch| :: items[batch[k]].arn
  }

  lemma ArnsAreSet(items: seq<TagItem>, batch: seq<nat>)
    requires forall k :: 0 <= k < |batch| ==> batch[k] < |items|
    ensures forall a :: a in ArnsAt(items, batch) <==> a in ArnSet(items, batch)
  {
    forall a | a in ArnSet(items, batch) ensures a in ArnsAt(items, batch) {
      var k :| 0 <= k < |batch| && items[batch[k]].arn == a;
      assert ArnsAt(items, batch)[k] == a;
    }
  }

  predicate Ascending(s: seq<nat>) {
    forall i, j :: 0 <= i < j < |s| ==> s[i] < s[j]
  }

  method MarkFailed(items: array<TagItem>, batch: seq<nat>, failed: set<string>)
    requires forall k :: 0 <= k < |batch| ==> batch[k] < items.Length
    requires DistinctArns(items[..])
    modifies items
    ensures Marked(old(items[..]), ArnSet(old(items[..]), batch), failed, items[..])
  {
    ghost var was := items[..];
    var k := 0;
    while k < |batch|
      invariant k <= |batch|
      invariant SameWork(was, items[..])
      invariant forall i :: 0 <= i < items.Length ==>
                  (items[i].failed <==> was[i].failed || (i in batch[..k] && was[i].arn in failed))
    {
      assert batch[..k + 1] == batch[..k] + [batch[k]];
      if items[batch[k]].arn in failed { items[batch[k]] := items[batch[k]].(failed := true); }
      k := k + 1;
    }
    assert batch[..k] == batch;
    forall i | 0 <= i < |was| ensures i in batch <==> was[i].arn in ArnSet(was, batch) { InBatch(was, batch, i); }
  }

  lemma InBatch(items: seq<TagItem>, batch: seq<nat>, i: nat)
    requires DistinctArns(items) && i < |items| && forall k :: 0 <= k < |batch| ==> batch[k] < |items|
    ensures i in batch <==> items[i].arn in ArnSet(items, batch)
  {}

  method Succeeded(arns: seq<string>, failed: set<string>) returns (done: seq<string>)
    ensures forall a :: a in done <==> a in arns && a !in failed
  {
    done := [];
    var j := 0;
    while j < |arns|
      invariant j <= |arns|
      invariant forall a :: a in done <==> a in arns[..j] && a !in failed
    {
      assert arns[..j + 1] == arns[..j] + [arns[j]];
      if arns[j] !in failed { done := done + [arns[j]]; }
      j := j + 1;
    }
    assert arns[..j] == arns;
  }

  lemma SentOne(c: Call)
    ensures Sent([c]) == c.arns
  {
    assert [c][..0] == [];
  }

  lemma CoversOne(items: seq<TagItem>, batch: seq<nat>, place: Place, payload: Payload)
    requires DistinctArns(items) && Ascending(batch) && forall k :: 0 <= k < |batch| ==> batch[k] < |items|
    ensures Covers([Call(place, payload, ArnsAt(items, batch))], ArnSet(items, batch))
  {
    var c := Call(place, payload, ArnsAt(items, batch));
    assert Once(c.arns) by {
      forall i, j | 0 <= i < j < |batch| ensures c.arns[i] != c.arns[j] { assert batch[i] < batch[j]; }
    }
    ArnsAreSet(items, batch);
    SentOne(c);
    hide ArnsAt, ArnSet, Sent;
  }

  /** One call for the items `batch`, all of one payload, and the bookkeeping after it. */
  method SendBatch(items: array<TagItem>, batch: seq<nat>, place: Place, payload: Payload, cloud: Cloud,
                   failing: set<string>)
    requires DistinctArns(items[..]) && Ascending(batch)
    requires forall k :: 0 <= k < |batch| ==> batch[k] < items.Length && items[batch[k]].payload == payload
    modifies items, cloud
    ensures var was := old(items[..]);
      var call := Call(place, payload, ArnsAt(was, batch));
      && Ran(Job(failing, cloud.protected), Books(was, old(cloud.live), old(cloud.baseline)),
             ArnSet(was, batch), [call], Books(items[..], cloud.live, cloud.baseline))
      && cloud.calls == old(cloud.calls) + [call]
  {
    ghost var was := items[..];
    ArnsAreSet(was, batch);
    CoversOne(was, batch, place, payload);
    forall i | 0 <= i < |was| && was[i].arn in ArnSet(was, batch)
      ensures was[i].payload == payload
    {
      InBatch(was, batch, i);
    }
    hide ArnsAt, ArnSet, Written, Recorded, Covers;
    var arns := ArnsAt(items[..], batch);
    var failed := cloud.Send(place, payload, arns, failing);
    MarkFailed(items, batch, failed);
    var done := Succeeded(arns, failed);
    cloud.RecordWrites(done, payload);
  }

  // The items of one group.
  predicate Homogeneous(place: string -> Place, items: seq<TagItem>, g: Group) {
    Ascending(g.members) && forall k :: 0 <= k < |g.members| ==>
        g.members[k] < |items| && Fits(place, items[g.members[k]], g)
  }

  lemma ChunkIsProper(place: string -> Place, was: seq<TagItem>, items: seq<TagItem>, g: Group, s: nat, e: nat)
    requires Homogeneous(place, was, g) && SameWork(was, items) && s < e <= |g.members| && e - s <= TAG_BATCH
    ensures var batch := g.members[s..e];
      && Ascending(batch)
      && (forall k :: 0 <= k < |batch| ==> batch[k] < |items| && items[batch[k]].payload == g.payload)
      && Proper(place, items, Call(g.place, g.payload, ArnsAt(items, batch)))
  {
    var batch := g.members[s..e];
    forall k | 0 <= k < |batch| ensures batch[k] < |items| && Fits(place, items[batch[k]], g) {
      assert batch[k] == g.members[s + k];
    }
    var c := Call(g.place, g.payload, ArnsAt(items, batch));
    forall a | a in c.arns ensures place(a) == c.place && Wanted(items, a, c.payload) {
      var k :| 0 <= k < |batch| && c.arns[k] == a;
      assert items[batch[k]].arn == a;
    }
  }

  lemma ProperForSameWork(place: string -> Place, a: seq<TagItem>, b: seq<TagItem>, c: Call)
    requires Proper(place, a, c) && SameWork(a, b)
    ensures Proper(place, b, c)
  {
    forall x | x in c.arns ensures Wanted(b, x, c.payload) {
      var i :| 0 <= i < |a| && a[i].arn == x && a[i].payload == c.payload;
      assert b[i].arn == x;
    }
  }

  // What the calls after the first `n` have done so far.
  ghost predicate RanSince(place: string -> Place, job: Job, before: Books, n: nat, done: set<string>,
                           calls: seq<Call>, after: Books)
  {
    && n <= |calls|
    && (forall c :: c in calls[n..] ==> Proper(place, before.items, c))
    && Ran(job, before, done, calls[n..], after)
  }

  lemma NoneSince(place: string -> Place, job: Job, books: Books, calls: seq<Call>)
    ensures RanSince(place, job, books, |calls|, {}, calls, books)
  {
    assert calls[|calls|..] == [];
  }

  lemma OneSince(place: string -> Place, job: Job, before: Books, done: set<string>, calls: seq<Call>, c: Call,
                 after: Books)
    requires Ran(job, before, done, [c], after) && Proper(place, before.items, c)
    ensures RanSince(place, job, before, |calls|, done, calls + [c], after)
  {
    assert (calls + [c])[|calls|..] == [c];
  }

  lemma SinceBoth(place: string -> Place, job: Job, before: Books, n: nat, done: set<string>, calls: seq<Call>,
                  mid: Books, more: set<string>, calls2: seq<Call>, after: Books)
    requires RanSince(place, job, before, n, done, calls, mid)
    requires RanSince(place, job, mid, |calls|, more, calls2, after)
    requires done !! more && calls <= calls2
    ensures RanSince(place, job, before, n, done + more, calls2, after)
    ensures SameWork(before.items, after.items)
  {
    var a, b := calls[n..], calls2[|calls|..];
    assert calls2[n..] == a + b && SameWork(before.items, mid.items) && SameWork(mid.items, after.items);
    hide Ran, Proper;
    RanBoth(job, before, done, a, mid, more, b, after);
    forall c | c in b ensures Proper(place, before.items, c) {
      ProperForSameWork(place, mid.items, before.items, c);
    }
  }

  // The calls that groups of at most twenty resources each take.
  function CallsNeeded(groups: seq<Group>): nat {
    if groups == [] then 0 else CallsNeeded(groups[..|groups| - 1]) + (|groups[|groups| - 1].members| + 19) / 20
  }

  lemma SmallCalls(place: string -> Place, job: Job, before: Books, n: nat, done: set<string>, calls: seq<Call>,
                   after: Books)
    requires RanSince(place, job, before, n, done, calls, after)
    ensures n <= |calls| && forall c :: c in calls[n..] ==> 0 < |c.arns| <= 20
  {
    hide Ran;
  }

  // `made` calls are right for the first `s` of `n` resources.
  predicate Counted(s: nat, n: nat, made: int) {
    s == 20 * made || (s == n && 20 * made - 20 < n <= 20 * made)
  }

  lemma CountNext(s: nat, e: nat, n: nat, made: int)
    requires Counted(s, n, made) && s < n && e == if s + TAG_BATCH < n then s + TAG_BATCH else n
    ensures Counted(e, n, made + 1)
  {}

  method RunGroup(items: array<TagItem>, place: string -> Place, g: Group, cloud: Cloud, failing: set<string>)
    requires DistinctArns(items[..]) && Homogeneous(place, items[..], g)
    modifies items, cloud
    ensures old(cloud.calls) <= cloud.calls
    ensures |cloud.calls| == |old(cloud.calls)| + (|g.members| + 19) / 20
    ensures var was := Books(old(items[..]), old(cloud.live), old(cloud.baseline));
      RanSince(place, Job(failing, cloud.protected), was, |old(cloud.calls)|, ArnSet(was.items, g.members), cloud.calls,
               Books(items[..], cloud.live, cloud.baseline))
  {
    ghost var was, calls := items[..], cloud.calls;
    ghost var job, before := Job(failing, cloud.protected), Books(was, cloud.live, cloud.baseline);
    NoneSince(place, job, before, calls);
    assert ArnSet(was, []) == {} && Counted(0, |g.members|, 0);
    hide RanSince, Ran, Proper, ArnsAt, ArnSet, Ascending, Fits, Counted;
    var s := 0;
    while s < |g.members|
      invariant s <= |g.members| && calls <= cloud.calls && SameWork(was, items[..])
      invariant Counted(s, |g.members|, |cloud.calls| - |calls|)
      invariant RanSince(place, job, before, |calls|, ArnSet(was, g.members[..s]), cloud.calls,
                         Books(items[..], cloud.live, cloud.baseline))
    {
      var e := if s + TAG_BATCH < |g.members| then s + TAG_BATCH else |g.members|;
      var batch := g.members[s..e];
      ghost var mid, calls1 := Books(items[..], cloud.live, cloud.baseline), cloud.calls;
      ChunkIsProper(place, was, mid.items, g, s, e);
      SendBatch(items, batch, g.place, g.payload, cloud, failing);
      ghost var after := Books(items[..], cloud.live, cloud.baseline);
      NextChunk(was, mid.items, g.members, s, e);
      OneSince(place, job, mid, ArnSet(mid.items, batch), calls1,
               Call(g.place, g.payload, ArnsAt(mid.items, batch)), after);
      SinceBoth(place, job, before, |calls|, ArnSet(was, g.members[..s]), calls1, mid, ArnSet(mid.items, batch),
                cloud.calls, after);
      CountNext(s, e, |g.members|, |cloud.calls| - |calls| - 1);
      s := e;
    }
    CountAll(|g.members|, |cloud.calls| - |calls|);
    assert g.members[..s] == g.members;
  }

  lemma CountAll(n: nat, made: int)
    requires Counted(n, n, made)
    ensures made == (n + 19) / 20
  {}

  lemma NextChunk(was: seq<TagItem>, mid: seq<TagItem>, members: seq<nat>, s: nat, e: nat)
    requires DistinctArns(was) && SameWork(was, mid) && Ascending(members)
    requires s <= e <= |members| && forall k :: 0 <= k < |members| ==> members[k] < |was|
    ensures ArnsAt(was, members[s..e]) == ArnsAt(mid, members[s..e])
    ensures ArnSet(was, members[..s]) !! ArnSet(mid, members[s..e])
    ensures ArnSet(was, members[..s]) + ArnSet(mid, members[s..e]) == ArnSet(was, members[..e])
  {
    var a, b := members[..s], members[s..e];
    assert members[..e] == a + b;
    ArnSetBoth(was, a, b);
    assert ArnSet(mid, b) == ArnSet(was, b) by {
      assert forall k :: 0 <= k < |b| ==> mid[b[k]].arn == was[b[k]].arn;
    }
    hide ArnSet;
    forall x | x in ArnSet(was, a) ensures x !in ArnSet(was, b) { OnlyOneSide(was, a, b, x); }
  }

  lemma ArnSetBoth(items: seq<TagItem>, a: seq<nat>, b: seq<nat>)
    requires forall k :: 0 <= k < |a| ==> a[k] < |items|
    requires forall k :: 0 <= k < |b| ==> b[k] < |items|
    ensures ArnSet(items, a + b) == ArnSet(items, a) + ArnSet(items, b)
  {
    forall k | 0 <= k < |b| ensures items[b[k]].arn in ArnSet(items, a + b) { assert (a + b)[|a| + k] == b[k]; }
    forall k | 0 <= k < |a| ensures items[a[k]].arn in ArnSet(items, a + b) { assert (a + b)[k] == a[k]; }
  }

  lemma OnlyOneSide(items: seq<TagItem>, a: seq<nat>, b: seq<nat>, x: string)
    requires DistinctArns(items)
    requires forall k :: 0 <= k < |a| ==> a[k] < |items|
    requires forall k :: 0 <= k < |b| ==> b[k] < |items|
    requires forall j, k :: 0 <= j < |a| && 0 <= k < |b| ==> a[j] != b[k]
    requires x in ArnSet(items, a)
    ensures x !in ArnSet(items, b)
  {
    var j :| 0 <= j < |a| && items[a[j]].arn == x;
    forall k | 0 <= k < |b| ensures items[b[k]].arn != x { assert a[j] != b[k]; }
  }

  lemma {:induction false} MembersMean(place: string -> Place, items: seq<TagItem>, g: Group)
    ensures Homogeneous(place, items, g.(members := Members(place, items, g)))
    ensures forall i :: i in Members(place, items, g) <==> 0 <= i < |items| && Fits(place, items[i], g)
  {
    if items != [] { MembersMean(place, items[..|items| - 1], g); }
  }

  function Arns(items: seq<TagItem>): set<string> {
    set i | 0 <= i < |items| :: items[i].arn
  }

  // The resources of the first groups.
  function Reached(place: string -> Place, items: seq<TagItem>, groups: seq<Group>): set<string> {
    set i | 0 <= i < |items| && Grouped(place, items[i], groups) :: items[i].arn
  }

  lemma NextGroup(place: string -> Place, was: seq<TagItem>, mid: seq<TagItem>, groups: seq<Group>, n: nat)
    requires DistinctArns(was) && SameWork(was, mid) && Groups(place, was, groups) && n < |groups|
    ensures Homogeneous(place, mid, groups[n])
    ensures Reached(place, was, groups[..n]) !! ArnSet(mid, groups[n].members)
    ensures Reached(place, was, groups[..n]) + ArnSet(mid, groups[n].members) == Reached(place, was, groups[..n + 1])
  {
    var g := groups[n];
    MembersMean(place, was, g);
    forall i | 0 <= i < |was|
      ensures was[i].arn in ArnSet(mid, g.members) <==> Fits(place, was[i], g)
      ensures Grouped(place, was[i], groups[..n + 1]) <==> Grouped(place, was[i], groups[..n]) || Fits(place, was[i], g)
      ensures Grouped(place, was[i], groups[..n]) ==> !Fits(place, was[i], g)
    {
      InBatch(mid, g.members, i);
      assert groups[..n + 1] == groups[..n] + [g];
      if Grouped(place, was[i], groups[..n]) {
        var j :| 0 <= j < n && Fits(place, was[i], groups[..n][j]);
        assert groups[..n + 1][j] == groups[..n][j] == groups[j];
        assert !SameKey(groups[j], g);
      } else if Fits(place, was[i], g) {
        assert groups[..n + 1][n] == g;
      }
    }
    forall k | 0 <= k < |g.members| ensures mid[g.members[k]].arn == was[g.members[k]].arn && g.members[k] < |was| {}
  }

  lemma AllReached(place: string -> Place, items: seq<TagItem>, groups: seq<Group>)
    requires Groups(place, items, groups)
    ensures Reached(place, items, groups) == Arns(items) && Reached(place, items, []) == {}
  {}

  /** Tags or untags every item: each resource is reached by exactly one call, calls hold at most twenty resources of
      one place and payload, and the outcome is that of writing each resource on its own. */
  method RunTagging(items: array<TagItem>, place: string -> Place, cloud: Cloud, failing: set<string>)
    requires DistinctArns(items[..])
    modifies items, cloud
    ensures old(cloud.calls) <= cloud.calls
    ensures var was := Books(old(items[..]), old(cloud.live), old(cloud.baseline));
      RanSince(place, Job(failing, cloud.protected), was, |old(cloud.calls)|, Arns(was.items), cloud.calls,
               Books(items[..], cloud.live, cloud.baseline))
    ensures forall c :: c in cloud.calls[|old(cloud.calls)|..] ==> 0 < |c.arns| <= 20
    ensures exists groups :: Groups(place, old(items[..]), groups) &&
              |cloud.calls| == |old(cloud.calls)| + CallsNeeded(groups)
  {
    ghost var was, calls := items[..], cloud.calls;
    ghost var job, before := Job(failing, cloud.protected), Books(was, cloud.live, cloud.baseline);
    var groups := TagBatches(items, place);
    AllReached(place, was, groups);
    NoneSince(place, job, before, calls);
    hide RanSince, ArnSet, Reached, Groups, Homogeneous;
    assert groups[..0] == [];
    var n := 0;
    while n < |groups|
      invariant n <= |groups| && calls <= cloud.calls && SameWork(was, items[..])
      invariant |cloud.calls| == |calls| + CallsNeeded(groups[..n])
      invariant RanSince(place, job, before, |calls|, Reached(place, was, groups[..n]), cloud.calls,
                         Books(items[..], cloud.live, cloud.baseline))
    {
      ghost var mid, calls1 := Books(items[..], cloud.live, cloud.baseline), cloud.calls;
      NextGroup(place, was, mid.items, groups, n);
      RunGroup(items, place, groups[n], cloud, failing);
      SinceBoth(place, job, before, |calls|, Reached(place, was, groups[..n]), calls1, mid,
                ArnSet(mid.items, groups[n].members), cloud.calls, Books(items[..], cloud.live, cloud.baseline));
      assert groups[..n + 1][..n] == groups[..n];
      n := n + 1;
    }
    assert groups[..n] == groups;
    SmallCalls(place, job, before, |calls|, Arns(was), cloud.calls, Books(items[..], cloud.live, cloud.baseline));
  }
}
