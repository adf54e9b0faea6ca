/** The targets of a change set: what is refused, and how several targets for one resource are merged. */
module Targets {
  import opened Wrappers
  import opened Text
  import opened Governance
  import opened Compliance

  datatype Target = Target(arn: string, tags: Tags)

  datatype Error = InvalidRequest | TooManyResources | PlanChanged | NotFound | AlreadyUndone | NotUndoable

  datatype Result<+T> = Ok(value: T) | Err(error: Error)

  type Merged = seq<(string, Tags)>

  function TagsOf(m: Merged, arn: string): Tags {
    if Has(m, arn) then Lookup(m, arn).value else []
  }

  function MergeTags(m: Merged, arn: string, tags: Tags): Merged {
    if tags == [] then m
    else
      var rest := MergeTags(m, arn, tags[..|tags| - 1]);
      var (k, v) := tags[|tags| - 1];
      Put(rest, arn, Put(TagsOf(rest, arn), Strip(k), Strip(v)))
  }

  function Merge(targets: seq<Target>): Merged {
    if targets == [] then []
    else MergeTags(Merge(targets[..|targets| - 1]), Strip(targets[|targets| - 1].arn), targets[|targets| - 1].tags)
  }

  // ----- What is asked for in the end: the last word on each key of each resource.

  function LastWord(tags: Tags, k: string): Option<string> {
    if tags == [] then None
    else if Strip(tags[|tags| - 1].0) == k then Some(Strip(tags[|tags| - 1].1))
    else LastWord(tags[..|tags| - 1], k)
  }

  function Requested(targets: seq<Target>, arn: string, k: string): Option<string> {
    if targets == [] then None
    else
      var t := targets[|targets| - 1];
      if Strip(t.arn) == arn && LastWord(t.tags, k).Some? then LastWord(t.tags, k)
      else Requested(targets[..|targets| - 1], arn, k)
  }

  predicate WellFormed(m: Merged) {
    Dict(m) && forall i :: 0 <= i < |m| ==> Dict(m[i].1) && m[i].1 != []
  }

  lemma {:induction false} PutLookup<V>(t: seq<(string, V)>, k: string, v: V, c: string)
    requires Dict(t)
    ensures Lookup(Put(t, k, v), c) == (if c == k then Some(v) else Lookup(t, c)) && Put(t, k, v) != []
  {
    assert (t + [(k, v)])[..|t|] == t;
    if Has(t, k) { ReplaceLookup(t, k, v, c); }
  }

  lemma {:induction false} ReplaceLookup<V>(t: seq<(string, V)>, k: string, v: V, c: string)
    requires Has(t, k)
    ensures Replace(t, k, v) != [] && Lookup(Replace(t, k, v), c) == if c == k then Some(v) else Lookup(t, c)
  {
    var r := Replace(t, k, v);
    if t[|t| - 1].0 == k {
      assert r[..|r| - 1] == t[..|t| - 1];
    } else {
      assert r[..|r| - 1] == Replace(t[..|t| - 1], k, v);
      ReplaceLookup(t[..|t| - 1], k, v, c);
    }
  }

  lemma {:induction false} PutDict<V>(t: seq<(string, V)>, k: string, v: V)
    requires Dict(t)
    ensures Dict(Put(t, k, v))
  {
    if Has(t, k) { ReplaceDict(t, k, v); } else { DictSnoc(t, k, v); }
  }

  lemma PutWellFormed(m: Merged, arn: string, tags: Tags)
    requires WellFormed(m) && Dict(tags) && tags != []
    ensures WellFormed(Put(m, arn, tags))
  {
    var p := Put(m, arn, tags);
    PutDict(m, arn, tags);
    forall i | 0 <= i < |p| ensures Dict(p[i].1) && p[i].1 != [] {
      LookupAt(p, i);
      PutLookup(m, arn, tags, p[i].0);
      if p[i].0 != arn { var j := LookupFinds(m, p[i].0); }
    }
  }

  lemma {:induction false} MergeTagsMean(m: Merged, arn: string, tags: Tags, a: string, k: string)
    requires WellFormed(m)
    ensures var r := MergeTags(m, arn, tags);
      && WellFormed(r)
      && (Has(r, a) <==> Has(m, a) || (a == arn && tags != []))
      && Lookup(TagsOf(r, a), k) ==
         if a == arn && LastWord(tags, k).Some? then LastWord(tags, k) else Lookup(TagsOf(m, a), k)
  {
    if tags != [] {
      var front := tags[..|tags| - 1];
      var (key, v) := tags[|tags| - 1];
      var rest := MergeTags(m, arn, front);
      MergeTagsMean(m, arn, front, a, k);
      WellFormedTags(rest, arn);
      var more := Put(TagsOf(rest, arn), Strip(key), Strip(v));
      PutDict(TagsOf(rest, arn), Strip(key), Strip(v));
      PutLookup(TagsOf(rest, arn), Strip(key), Strip(v), k);
      PutLookup(rest, arn, more, a);
      PutWellFormed(rest, arn, more);
    }
  }

  lemma WellFormedTags(m: Merged, arn: string)
    requires WellFormed(m)
    ensures Dict(TagsOf(m, arn)) && (Has(m, arn) ==> TagsOf(m, arn) != [])
  {
    if Has(m, arn) { var i := LookupFinds(m, arn); }
  }

  /** Merging asks, for every resource and key, for the last value any target gives it. */
  lemma {:induction false} MergeMeans(targets: seq<Target>, a: string, k: string)
    ensures WellFormed(Merge(targets))
    ensures Lookup(TagsOf(Merge(targets), a), k) == Requested(targets, a, k)
  {
    if targets != [] {
      MergeMeans(targets[..|targets| - 1], a, k);
      var t := targets[|targets| - 1];
      MergeTagsMean(Merge(targets[..|targets| - 1]), Strip(t.arn), t.tags, a, k);
    }
  }

  function PutAll(t: Tags, tags: Tags): Tags {
    if tags == [] then t else Put(PutAll(t, tags[..|tags| - 1]), Strip(tags[|tags| - 1].0), Strip(tags[|tags| - 1].1))
  }

  // The tags of the targets for `a`, in order.
  function Collected(targets: seq<Target>, a: string): Tags {
    if targets == [] then []
    else
      var rest, t := Collected(targets[..|targets| - 1], a), targets[|targets| - 1];
      if Strip(t.arn) == a then PutAll(rest, t.tags) else rest
  }

  lemma {:induction false} MergeTagsCollect(m: Merged, arn: string, tags: Tags, a: string)
    requires WellFormed(m)
    ensures TagsOf(MergeTags(m, arn, tags), a) == if a == arn then PutAll(TagsOf(m, a), tags) else TagsOf(m, a)
  {
    if tags != [] {
      var front := tags[..|tags| - 1];
      var (k, v) := tags[|tags| - 1];
      var rest := MergeTags(m, arn, front);
      MergeTagsCollect(m, arn, front, a);
      MergeTagsMean(m, arn, front, a, k);
      PutLookup(rest, arn, Put(TagsOf(rest, arn), Strip(k), Strip(v)), a);
    }
  }

  lemma {:induction false} MergeCollects(targets: seq<Target>, a: string)
    ensures TagsOf(Merge(targets), a) == Collected(targets, a)
  {
    if targets != [] {
      var front, t := targets[..|targets| - 1], targets[|targets| - 1];
      MergeCollects(front, a);
      MergeMeans(front, a, "");
      MergeTagsCollect(Merge(front), Strip(t.arn), t.tags, a);
    }
  }

  predicate Named(targets: seq<Target>, a: string) {
    exists i :: 0 <= i < |targets| && Strip(targets[i].arn) == a && targets[i].tags != []
  }

  lemma {:induction false} MergeHas(targets: seq<Target>, a: string)
    ensures WellFormed(Merge(targets))
    ensures Has(Merge(targets), a) <==> Named(targets, a)
  {
    hide Strip, MergeTags, Lookup;
    if targets != [] {
      var front, t := targets[..|targets| - 1], targets[|targets| - 1];
      MergeHas(front, a);
      MergeTagsMean(Merge(front), Strip(t.arn), t.tags, a, "");
      assert targets == front + [t];
      assert Named(targets, a) <==> Named(front, a) || (Strip(t.arn) == a && t.tags != []);
    } else {
      HasNot(Merge(targets), a);
    }
  }

  // ----- What is refused.

  predicate BadKey(lower: string -> string, k: string) {
    Strip(k) == "" || "aws:" <= lower(Strip(k))
  }

  predicate BadTarget(lower: string -> string, t: Target) {
    !("arn:" <= Strip(t.arn)) || t.tags == [] || exists i :: 0 <= i < |t.tags| && BadKey(lower, t.tags[i].0)
  }

  /** What makes a target unusable, letter by letter: its ARN does not start with "arn:", it has no tags, or a key is
      empty or starts with "aws:" in whatever case, white space around them aside. */
  lemma BadTargetMeans(lower: string -> string, t: Target)
    ensures BadTarget(lower, t) <==>
      || |Strip(t.arn)| < 4 || Strip(t.arn)[..4] != ['a', 'r', 'n', ':'] || |t.tags| == 0
      || exists i :: 0 <= i < |t.tags| &&
           var k := Strip(t.tags[i].0); |k| == 0 || (|lower(k)| >= 4 && lower(k)[..4] == ['a', 'w', 's', ':'])
  {
    hide Strip;
    assert ['a', 'r', 'n', ':'] == "arn:" && ['a', 'w', 's', ':'] == "aws:";
    forall k: string
      ensures "aws:" <= k <==> |k| >= 4 && k[..4] == "aws:"
      ensures "arn:" <= k <==> |k| >= 4 && k[..4] == "arn:"
    {}
    forall i | 0 <= i < |t.tags|
      ensures BadKey(lower, t.tags[i].0) <==>
        var k := Strip(t.tags[i].0); |k| == 0 || (|lower(k)| >= 4 && lower(k)[..4] == "aws:")
    {}
  }

  // `Err` when a key is unusable; otherwise `merged` with all of `tags` put on `arn`.
  method MergeTarget(merged: Merged, arn: string, tags: Tags, lower: string -> string) returns (r: Result<Merged>)
    ensures if exists i :: 0 <= i < |tags| && BadKey(lower, tags[i].0) then r == Err(InvalidRequest)
            else r == Ok(MergeTags(merged, arn, tags))
  {
    hide Put, TagsOf, Strip;
    var m, j := merged, 0;
    while j < |tags|
      invariant j <= |tags| && m == MergeTags(merged, arn, tags[..j])
      invariant forall k :: 0 <= k < j ==> !BadKey(lower, tags[k].0)
    {
      var k := Strip(tags[j].0);
      if k == "" || "aws:" <= lower(k) { return Err(InvalidRequest); }
      assert tags[..j + 1][..j] == tags[..j];
      m := Put(m, arn, Put(TagsOf(m, arn), k, Strip(tags[j].1)));
      j := j + 1;
    }
    assert tags[..j] == tags;
    return Ok(m);
  }

  method ValidateTargets(targets: seq<Target>, limit: nat, lower: string -> string) returns (r: Result<Merged>)
    ensures r == Err(TooManyResources) <==> |targets| > limit
    ensures r == Err(InvalidRequest) <==>
            |targets| == 0 || (|targets| <= limit && exists i :: 0 <= i < |targets| && BadTarget(lower, targets[i]))
    ensures r.Ok? ==> r.value == Merge(targets) && r.value != []
    ensures r.Err? ==> r.error in {TooManyResources, InvalidRequest}
  {
    hide MergeTags, Strip, BadKey;
    if targets == [] { return Err(InvalidRequest); }
    if |targets| > limit { return Err(TooManyResources); }
    var merged: Merged := [];
    var i := 0;
    while i < |targets|
      invariant i <= |targets| && merged == Merge(targets[..i])
      invariant forall k :: 0 <= k < i ==> !BadTarget(lower, targets[k])
    {
      var arn, tags := Strip(targets[i].arn), targets[i].tags;
      if !("arn:" <= arn) || tags == [] {
        assert BadTarget(lower, targets[i]);
        return Err(InvalidRequest);
      }
      var next := MergeTarget(merged, arn, tags, lower);
      if next.Err? { assert BadTarget(lower, targets[i]); return next; }
      assert targets[..i + 1][..i] == targets[..i];
      merged := next.value;
      i := i + 1;
    }
    assert targets[..i] == targets;
    MergeHas(targets, Strip(targets[0].arn));
    return Ok(merged);
  }
}
