/** Live tags per resource, the calls that write them, and the baselines of protected keys. */
module TagStore {
  import opened Wrappers

  type TagMap = map<string, string>
  type Live = map<string, TagMap>

  // A resource that is not listed has no tags.
  function Of(live: Live, arn: string): TagMap {
    if arn in live then live[arn] else map[]
  }

  function Get(tags: TagMap, k: string): Option<string> {
    if k in tags then Some(tags[k]) else None
  }

  lemma SameGets(a: TagMap, b: TagMap)
    requires forall k :: Get(a, k) == Get(b, k)
    ensures a == b
  {
    forall k ensures k in a <==> k in b { assert Get(a, k) == Get(b, k); }
    forall k | k in a ensures a[k] == b[k] { assert Get(a, k) == Get(b, k); }
  }

  datatype Payload = Tag(tags: TagMap) | Untag(keys: set<string>)

  function Written(tags: TagMap, p: Payload): TagMap {
    match p
    case Tag(t) => tags + t
    case Untag(ks) => tags - ks
  }

  function Keys(p: Payload): set<string> {
    match p
    case Tag(t) => t.Keys
    case Untag(ks) => ks
  }

  // The baseline after the app itself wrote `p`: only protected keys count.
  function Recorded(base: TagMap, p: Payload, protected: set<string>): TagMap {
    match p
    case Tag(t) => base + (map k | k in t && k in protected :: t[k])
    case Untag(ks) => base - (ks * protected)
  }

  // Account and region a call is made in.
  type Place = (string, string)

  datatype Call = Call(place: Place, payload: Payload, arns: seq<string>)

  /** The tagging API of the cloud, and the baselines the app keeps. */
  class Cloud {
    var live: Live
    var baseline: Live
    var calls: seq<Call>
    const protected: set<string>

    constructor (live: Live, baseline: Live, protected: set<string>)
      ensures this.live == live && this.baseline == baseline && this.protected == protected && calls == []
    {
      this.live := live;
      this.baseline := baseline;
      this.protected := protected;
      calls := [];
    }

    /** One TagResources or UntagResources call. `failing` are the resources the API will report as failed, which it
        leaves as they are. */
    method Send(place: Place, payload: Payload, arns: seq<string>, failing: set<string>) returns (failed: set<string>)
      modifies this`live, this`calls
      ensures calls == old(calls) + [Call(place, payload, arns)]
      ensures failed == set a | a in arns && a in failing
      ensures forall a :: a in arns && a !in failing ==> Of(live, a) == Written(old(Of(live, a)), payload)
      ensures forall a :: a !in arns || a in failing ==> Of(live, a) == old(Of(live, a))
    {
      calls := calls + [Call(place, payload, arns)];
      failed := set a | a in arns && a in failing;
      var done := set a | a in arns && a !in failing;
      live := live + map a | a in done :: Written(Of(live, a), payload);
    }

    method RecordWrite(arn: string, payload: Payload)
      modifies this`baseline
      ensures Of(baseline, arn) == Recorded(old(Of(baseline, arn)), payload, protected)
      ensures forall a :: a != arn ==> Of(baseline, a) == old(Of(baseline, a))
    {
      var changed := Keys(payload) * protected;
      ghost var base := Of(baseline, arn);
      PatchedEnds(base, payload, protected);
      assert Patched(base, payload, changed) == Recorded(base, payload, protected);
      if changed == {} { return; }
      hide Patched, Recorded;
      var b := Of(baseline, arn);
      var rest := changed;
      while rest != {}
        invariant baseline == old(baseline) && rest <= changed
        invariant b == Patched(base, payload, changed - rest)
        decreases rest
      {
        var k :| k in rest;
        PatchedNext(base, payload, changed - rest, k);
        match payload {
          case Tag(t) => b := b[k := t[k]];
          case Untag(_) => b := b - {k};
        }
        assert changed - rest + {k} == changed - (rest - {k});
        rest := rest - {k};
      }
      assert changed - {} == changed;
      baseline := baseline[arn := b];
    }

    /** Records a write to each of the resources once or more. */
    method RecordWrites(arns: seq<string>, payload: Payload)
      modifies this`baseline
      ensures forall a :: a in arns ==> Of(baseline, a) == Recorded(old(Of(baseline, a)), payload, protected)
      ensures forall a :: a !in arns ==> Of(baseline, a) == old(Of(baseline, a))
    {
      var i := 0;
      while i < |arns|
        invariant i <= |arns|
        invariant forall a :: a in arns[..i] ==> Of(baseline, a) == Recorded(old(Of(baseline, a)), payload, protected)
        invariant forall a :: a !in arns[..i] ==> Of(baseline, a) == old(Of(baseline, a))
      {
        assert arns[..i + 1] == arns[..i] + [arns[i]];
        RecordedTwice(old(Of(baseline, arns[i])), payload, protected);
        RecordWrite(arns[i], payload);
        i := i + 1;
      }
      assert arns[..i] == arns;
    }
  }

  // `base` with the keys `ks` brought up to date.
  function Patched(base: TagMap, p: Payload, ks: set<string>): TagMap {
    match p
    case Tag(t) => base + map k | k in ks && k in t :: t[k]
    case Untag(_) => base - ks
  }

  lemma PatchedEnds(base: TagMap, p: Payload, protected: set<string>)
    ensures Patched(base, p, {}) == base
    ensures Patched(base, p, Keys(p) * protected) == Recorded(base, p, protected)
  {}

  lemma PatchedNext(base: TagMap, p: Payload, ks: set<string>, k: string)
    requires k in Keys(p)
    ensures Patched(base, p, ks + {k}) ==
            match p case Tag(t) => Patched(base, p, ks)[k := t[k]] case Untag(_) => Patched(base, p, ks) - {k}
  {}

  lemma RecordedTwice(base: TagMap, p: Payload, protected: set<string>)
    ensures Recorded(Recorded(base, p, protected), p, protected) == Recorded(base, p, protected)
  {}
}
