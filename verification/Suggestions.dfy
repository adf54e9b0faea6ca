/** Voting on tag values: the index of votes, and the suggestions drawn from it. */
module Suggestions {
  import opened Wrappers
  import opened TagStore

  datatype Signal = Stack | Eks | NamePrefix | AccountService

  const ORDER: seq<Signal> := [Stack, Eks, NamePrefix, AccountService]

  function Weight(s: Signal): real {
    match s
    case Stack => 5.0
    case Eks => 4.0
    case NamePrefix => 3.0
    case AccountService => 1.0
  }

  datatype Resource = Resource(arn: string, tags: TagMap)

  datatype Rule = Rule(allowed: seq<string>, pattern: string)

  // `signals` gives the groups of a resource; `matches` are the library's regular expressions, true for a malformed
  // one.
  datatype Setup = Setup(signals: (string, TagMap) -> map<Signal, string>, lower: string -> string,
                         rules: map<string, Rule>, matches: (string, string) -> bool)

  predicate Valid(c: Setup, key: string, value: string) {
    key in c.rules ==>
      && (c.rules[key].allowed == [] || value in c.rules[key].allowed)
      && (c.rules[key].pattern == "" || c.matches(c.rules[key].pattern, value))
  }

  // ----- Direct scans.

  predicate Votes(c: Setup, r: Resource, key: string, value: string) {
    Get(r.tags, key) == Some(value) && value != "" && !("aws:" <= c.lower(key))
  }

  predicate InGroup(c: Setup, r: Resource, s: Signal, g: string) {
    s in c.signals(r.arn, r.tags) && c.signals(r.arn, r.tags)[s] == g
  }

  function Members(c: Setup, rs: seq<Resource>, s: Signal, g: string): nat {
    if rs == [] then 0
    else Members(c, rs[..|rs| - 1], s, g) + if InGroup(c, rs[|rs| - 1], s, g) then 1 else 0
  }

  function VotesFor(c: Setup, rs: seq<Resource>, s: Signal, g: string, key: string, value: string): nat {
    if rs == [] then 0
    else
      VotesFor(c, rs[..|rs| - 1], s, g, key, value) +
      if InGroup(c, rs[|rs| - 1], s, g) && Votes(c, rs[|rs| - 1], key, value) then 1 else 0
  }

  // Resources of the group that vote on `key` at all.
  function Voters(c: Setup, rs: seq<Resource>, s: Signal, g: string, key: string): nat {
    if rs == [] then 0
    else
      var r := rs[|rs| - 1];
      Voters(c, rs[..|rs| - 1], s, g, key) +
      if InGroup(c, r, s, g) && key in r.tags && Votes(c, r, key, r.tags[key]) then 1 else 0
  }

  function Others(rs: seq<Resource>, arn: string): seq<Resource> {
    if rs == [] then []
    else Others(rs[..|rs| - 1], arn) + if rs[|rs| - 1].arn == arn then [] else [rs[|rs| - 1]]
  }

  lemma {:induction false} VotersAreMembers(c: Setup, rs: seq<Resource>, s: Signal, g: string, key: string,
                                            value: string)
    ensures VotesFor(c, rs, s, g, key, value) <= Voters(c, rs, s, g, key) <= Members(c, rs, s, g)
  {
    if rs != [] { VotersAreMembers(c, rs[..|rs| - 1], s, g, key, value); }
  }

  predicate DistinctArns(rs: seq<Resource>) {
    forall i, j :: 0 <= i < j < |rs| ==> rs[i].arn != rs[j].arn
  }

  lemma {:induction false} NotThere(rs: seq<Resource>, arn: string)
    requires forall i :: 0 <= i < |rs| ==> rs[i].arn != arn
    ensures Others(rs, arn) == rs
  {
    if rs != [] { NotThere(rs[..|rs| - 1], arn); }
  }

  lemma CountsNext(c: Setup, rs: seq<Resource>, r: Resource, s: Signal, g: string, key: string, value: string)
    ensures Members(c, rs + [r], s, g) == Members(c, rs, s, g) + if InGroup(c, r, s, g) then 1 else 0
    ensures VotesFor(c, rs + [r], s, g, key, value) ==
            VotesFor(c, rs, s, g, key, value) + if InGroup(c, r, s, g) && Votes(c, r, key, value) then 1 else 0
    ensures forall arn :: Others(rs + [r], arn) == Others(rs, arn) + if r.arn == arn then [] else [r]
  {
    assert (rs + [r])[..|rs|] == rs;
  }

  // Taking one resource out takes out exactly its own vote.
  lemma {:induction false} WithoutOne(c: Setup, rs: seq<Resource>, n: nat, s: Signal, g: string, key: string,
                                      value: string)
    requires DistinctArns(rs) && n < |rs|
    ensures var r, others := rs[n], Others(rs, rs[n].arn);
      && Members(c, others, s, g) == Members(c, rs, s, g) - (if InGroup(c, r, s, g) then 1 else 0)
      && VotesFor(c, others, s, g, key, value) ==
         VotesFor(c, rs, s, g, key, value) - (if InGroup(c, r, s, g) && Votes(c, r, key, value) then 1 else 0)
  {
    hide InGroup, Votes, Members, VotesFor, Others;
    var front, last := rs[..|rs| - 1], rs[|rs| - 1];
    assert rs == front + [last];
    CountsNext(c, front, last, s, g, key, value);
    if n == |rs| - 1 {
      NotThere(front, last.arn);
      assert front + [] == front;
    } else {
      WithoutOne(c, front, n, s, g, key, value);
      CountsNext(c, Others(front, rs[n].arn), last, s, g, key, value);
    }
  }

  // ----- The index.

  type Cell = (Signal, string)

  type Ballots = map<(Signal, string, string), map<string, nat>>

  function CountIn(m: map<string, nat>, value: string): nat {
    if value in m then m[value] else 0
  }

  function BallotsFor(b: Ballots, s: Signal, g: string, key: string): map<string, nat> {
    if (s, g, key) in b then b[(s, g, key)] else map[]
  }

  function SizeOf(m: map<Cell, nat>, s: Signal, g: string): nat {
    if (s, g) in m then m[(s, g)] else 0
  }

  ghost predicate Indexed(c: Setup, rs: seq<Resource>, votes: Ballots, sizes: map<Cell, nat>) {
    && (forall s, g :: SizeOf(sizes, s, g) == Members(c, rs, s, g))
    && (forall s, g, key, value :: CountIn(BallotsFor(votes, s, g, key), value) == VotesFor(c, rs, s, g, key, value))
  }

  function ByArn(rs: seq<Resource>): Live {
    if rs == [] then map[] else ByArn(rs[..|rs| - 1])[rs[|rs| - 1].arn := rs[|rs| - 1].tags]
  }

  lemma {:induction false} ByArnAt(rs: seq<Resource>, n: nat)
    requires DistinctArns(rs) && n < |rs|
    ensures rs[n].arn in ByArn(rs) && ByArn(rs)[rs[n].arn] == rs[n].tags
  {
    if n < |rs| - 1 { ByArnAt(rs[..|rs| - 1], n); }
  }

  // ----- Sums.

  ghost function Sum(m: map<string, nat>): nat
    decreases m.Keys
  {
    if m == map[] then 0
    else
      var k :| k in m;
      m[k] + Sum(m - {k})
  }

  lemma {:induction false} SumTakes(m: map<string, nat>, k: string)
    requires k in m
    ensures Sum(m) == m[k] + Sum(m - {k})
    decreases m.Keys
  {
    var p :| p in m && Sum(m) == m[p] + Sum(m - {p});
    if p != k {
      SumTakes(m - {p}, k);
      SumTakes(m - {k}, p);
      assert m - {p} - {k} == m - {k} - {p};
    }
  }

  lemma {:induction false} SumOfNone(m: map<string, nat>)
    requires forall k :: k in m ==> m[k] == 0
    ensures Sum(m) == 0
    decreases m.Keys
  {
    if m != map[] {
      var k :| k in m;
      SumTakes(m, k);
      SumOfNone(m - {k});
    }
  }

  lemma SumSets(m: map<string, nat>, k: string, n: nat)
    ensures Sum(m[k := n]) == Sum(m - {k}) + n
  {
    SumTakes(m[k := n], k);
    assert m[k := n] - {k} == m - {k};
  }

  // The counts are those of the votes for `key` in group `g`.
  ghost predicate Tallies(c: Setup, rs: seq<Resource>, s: Signal, g: string, key: string, m: map<string, nat>) {
    forall value :: CountIn(m, value) == VotesFor(c, rs, s, g, key, value)
  }

  /** The counts of all values add up to the number of voters. */
  lemma {:induction false} CountsAddUp(c: Setup, rs: seq<Resource>, s: Signal, g: string, key: string,
                                       m: map<string, nat>)
    requires Tallies(c, rs, s, g, key, m)
    ensures Sum(m) == Voters(c, rs, s, g, key)
  {
    if rs == [] {
      forall k | k in m ensures m[k] == 0 { assert CountIn(m, k) == 0; }
      SumOfNone(m);
    } else {
      var front, r := rs[..|rs| - 1], rs[|rs| - 1];
      if InGroup(c, r, s, g) && key in r.tags && Votes(c, r, key, r.tags[key]) {
        var v := r.tags[key];
        assert CountIn(m, v) == VotesFor(c, front, s, g, key, v) + 1;
        var m' := m[v := m[v] - 1];
        forall value ensures CountIn(m', value) == VotesFor(c, front, s, g, key, value) {
          assert CountIn(m, value) == VotesFor(c, rs, s, g, key, value);
        }
        CountsAddUp(c, front, s, g, key, m');
        SumSets(m, v, m[v] - 1);
        SumTakes(m, v);
      } else {
        forall value ensures CountIn(m, value) == VotesFor(c, front, s, g, key, value) {
          assert CountIn(m, value) == VotesFor(c, rs, s, g, key, value);
        }
        CountsAddUp(c, front, s, g, key, m);
      }
    }
  }

  ghost function Total(m: map<string, real>): real
    decreases m.Keys
  {
    if m == map[] then 0.0
    else
      var k :| k in m;
      m[k] + Total(m - {k})
  }

  lemma {:induction false} TotalTakes(m: map<string, real>, k: string)
    requires k in m
    ensures Total(m) == m[k] + Total(m - {k})
    decreases m.Keys
  {
    var p :| p in m && Total(m) == m[p] + Total(m - {p});
    if p != k {
      TotalTakes(m - {p}, k);
      TotalTakes(m - {k}, p);
      assert m - {p} - {k} == m - {k} - {p};
    }
  }

  function ScoreIn(m: map<string, real>, value: string): real {
    if value in m then m[value] else 0.0
  }

  lemma TotalAdds(m: map<string, real>, k: string, x: real)
    ensures Total(m[k := ScoreIn(m, k) + x]) == Total(m) + x
  {
    var m' := m[k := ScoreIn(m, k) + x];
    TotalTakes(m', k);
    assert m' - {k} == m - {k};
    if k in m { TotalTakes(m, k); } else { assert m - {k} == m; }
  }

  // ----- Scores.

  // What one signal knows about a key: the votes of the other resources, and how many others there are.
  datatype Evidence = Evidence(counts: map<string, nat>, members: int)

  // The resource's own vote does not count.
  function WithoutOwn(counts: map<string, nat>, own: Option<string>): map<string, nat> {
    if own.Some? && own.value != "" && own.value in counts && counts[own.value] > 0
    then counts[own.value := counts[own.value] - 1] else counts
  }

  function EvidenceFor(votes: Ballots, sizes: map<Cell, nat>, s: Signal, g: string, key: string,
                       own: Option<string>): Evidence
  {
    Evidence(WithoutOwn(BallotsFor(votes, s, g, key), own), SizeOf(sizes, s, g) - 1)
  }

  function Gathered(votes: Ballots, sizes: map<Cell, nat>, groups: map<Signal, string>, key: string,
                    own: Option<string>)
    : map<Signal, Evidence>
  {
    map s | s in groups :: EvidenceFor(votes, sizes, s, groups[s], key, own)
  }

  // Agreement among the voters, discounted by how few of the members vote.
  function Share(w: real, n: nat, voters: nat, members: int): real {
    if voters <= 0 || members <= 0 then 0.0
    else w * (n as real / voters as real) * (0.5 + 0.5 * (voters as real / members as real))
  }

  ghost predicate Counts(evs: map<Signal, Evidence>, s: Signal) {
    s in evs && evs[s].members > 0 && Sum(evs[s].counts) > 0
  }

  ghost function ScoreUpTo(c: Setup, evs: map<Signal, Evidence>, key: string, value: string, n: nat): real
    requires n <= |ORDER|
  {
    if n == 0 then 0.0
    else
      var s := ORDER[n - 1];
      ScoreUpTo(c, evs, key, value, n - 1) +
      if Counts(evs, s) && Valid(c, key, value)
      then Share(Weight(s), CountIn(evs[s].counts, value), Sum(evs[s].counts), evs[s].members) else 0.0
  }

  ghost function AvailableUpTo(evs: map<Signal, Evidence>, n: nat): real
    requires n <= |ORDER|
  {
    if n == 0 then 0.0 else AvailableUpTo(evs, n - 1) + if Counts(evs, ORDER[n - 1]) then Weight(ORDER[n - 1]) else 0.0
  }

  // No more voters than members.
  ghost predicate Plausible(evs: map<Signal, Evidence>) {
    forall s :: s in evs ==> Sum(evs[s].counts) <= evs[s].members
  }

  function Part(w: real, n: nat, voters: nat): real
    requires voters > 0
  {
    w * (n as real / voters as real)
  }

  lemma ShareIsBounded(w: real, n: nat, voters: nat, members: int)
    requires 0.0 <= w && n <= voters <= members && voters > 0
    ensures 0.0 <= Share(w, n, voters, members) <= Part(w, n, voters)
  {
    var agreement, coverage := n as real / voters as real, voters as real / members as real;
    assert 0.0 <= agreement && 0.0 <= coverage <= 1.0;
    var p, q := Part(w, n, voters), 0.5 + 0.5 * coverage;
    assert p == w * agreement && 0.0 <= p;
    Product(p, q);
    assert Share(w, n, voters, members) == p * q;
  }

  lemma Product(x: real, y: real)
    requires 0.0 <= x && 0.0 <= y <= 1.0
    ensures 0.0 <= x * y <= x
  {}

  lemma PartsAdd(w: real, a: nat, b: nat, voters: nat)
    requires voters > 0
    ensures Part(w, a, voters) + Part(w, b, voters) == Part(w, a + b, voters)
    ensures Part(w, 0, voters) == 0.0 && Part(w, voters, voters) == w
  {
    assert a as real / voters as real + b as real / voters as real == (a + b) as real / voters as real;
  }

  method CountVoters(counts: map<string, nat>) returns (voters: nat)
    ensures voters == Sum(counts)
  {
    voters := 0;
    var rest := counts;
    while rest != map[]
      invariant voters + Sum(rest) == Sum(counts)
      decreases rest.Keys
    {
      var k :| k in rest;
      SumTakes(rest, k);
      voters := voters + rest[k];
      rest := rest - {k};
    }
  }

  // `r` is `scores` with the shares of all values but `rest` added.
  ghost predicate Scored(c: Setup, key: string, w: real, ev: Evidence, voters: nat, scores: map<string, real>,
                         r: map<string, real>, rest: set<string>)
  {
    && (forall v :: ScoreIn(r, v) == ScoreIn(scores, v) +
          if Valid(c, key, v) && v !in rest then Share(w, CountIn(ev.counts, v), voters, ev.members) else 0.0)
    && (forall v :: v in r <==> v in scores || (Valid(c, key, v) && v !in rest && CountIn(ev.counts, v) > 0))
  }

  lemma NoShare(w: real, voters: nat, members: int)
    ensures Share(w, 0, voters, members) == 0.0
  {}

  lemma ScoredNone(c: Setup, key: string, w: real, ev: Evidence, voters: nat, scores: map<string, real>)
    ensures Scored(c, key, w, ev, voters, scores, scores, ev.counts.Keys)
  {
    NoShare(w, voters, ev.members);
  }

  lemma ScoredNext(c: Setup, key: string, w: real, ev: Evidence, voters: nat, scores: map<string, real>,
                   r: map<string, real>, rest: set<string>, k: string)
    requires Scored(c, key, w, ev, voters, scores, r, rest) && k in rest && k in ev.counts
    ensures Scored(c, key, w, ev, voters, scores, Bumped(c, key, w, ev, voters, r, k), rest - {k})
  {
    NoShare(w, voters, ev.members);
    hide Share, Valid;
  }

  // The score map after the value `k`.
  function Bumped(c: Setup, key: string, w: real, ev: Evidence, voters: nat, r: map<string, real>,
                  k: string): map<string, real>
    requires k in ev.counts
  {
    if ev.counts[k] > 0 && Valid(c, key, k)
    then r[k := ScoreIn(r, k) + Share(w, ev.counts[k], voters, ev.members)] else r
  }

  // While `done` votes have been scored, the scores have grown by at most that part of the weight.
  ghost predicate Within(w: real, ev: Evidence, voters: nat, scores: map<string, real>, r: map<string, real>, done: nat)
    requires voters > 0
  {
    voters <= ev.members ==> Total(r) <= Total(scores) + Part(w, done, voters)
  }

  lemma WithinNext(c: Setup, key: string, w: real, ev: Evidence, voters: nat, scores: map<string, real>,
                   r: map<string, real>, done: nat, k: string)
    requires voters > 0 && 0.0 <= w && k in ev.counts && done + ev.counts[k] <= voters
    requires Within(w, ev, voters, scores, r, done)
    ensures Within(w, ev, voters, scores, Bumped(c, key, w, ev, voters, r, k), done + ev.counts[k])
  {
    var n := ev.counts[k];
    if voters <= ev.members {
      ShareIsBounded(w, n, voters, ev.members);
      PartsAdd(w, done, n, voters);
      TotalAdds(r, k, Share(w, n, voters, ev.members));
    }
  }

  lemma WithinEnds(w: real, ev: Evidence, voters: nat, scores: map<string, real>)
    requires voters > 0
    ensures Within(w, ev, voters, scores, scores, 0)
    ensures forall r :: Within(w, ev, voters, scores, r, voters) && voters <= ev.members ==>
        Total(r) <= Total(scores) + w
  {
    PartsAdd(w, 0, 0, voters);
  }

  // The values in `rest` are still to be scored; the others have `done` votes.
  ghost predicate Remain(ev: Evidence, rest: map<string, nat>, done: nat) {
    && rest.Keys <= ev.counts.Keys && (forall k :: k in rest ==> rest[k] == ev.counts[k])
    && done + Sum(rest) == Sum(ev.counts)
  }

  lemma AllRemain(ev: Evidence)
    ensures Remain(ev, ev.counts, 0)
  {}

  lemma RemainNext(ev: Evidence, rest: map<string, nat>, done: nat, k: string)
    requires Remain(ev, rest, done) && k in rest
    ensures k in ev.counts && done + ev.counts[k] <= Sum(ev.counts)
    ensures Remain(ev, rest - {k}, done + ev.counts[k]) && (rest - {k}).Keys == rest.Keys - {k}
  {
    SumTakes(rest, k);
    hide Sum;
  }

  lemma NoneRemain(ev: Evidence, done: nat)
    requires Remain(ev, map[], done)
    ensures done == Sum(ev.counts)
  {}

  // All values but those in `rest` have been scored.
  ghost predicate Adding(c: Setup, key: string, w: real, ev: Evidence, voters: nat, scores: map<string, real>,
                         r: map<string, real>, rest: map<string, nat>, done: nat)
    requires voters > 0
  {
    && Remain(ev, rest, done) && Scored(c, key, w, ev, voters, scores, r, rest.Keys)
    && Within(w, ev, voters, scores, r, done)
  }

  lemma AddingStarts(c: Setup, key: string, w: real, ev: Evidence, voters: nat, scores: map<string, real>)
    requires voters > 0
    ensures Adding(c, key, w, ev, voters, scores, scores, ev.counts, 0)
  {
    hide Scored, Remain, Within, Share;
    ScoredNone(c, key, w, ev, voters, scores);
    WithinEnds(w, ev, voters, scores);
    AllRemain(ev);
  }

  lemma AddingNext(c: Setup, key: string, w: real, ev: Evidence, voters: nat, scores: map<string, real>,
                   r: map<string, real>, rest: map<string, nat>, done: nat, k: string)
    requires voters == Sum(ev.counts) > 0 && 0.0 <= w && k in rest
    requires Adding(c, key, w, ev, voters, scores, r, rest, done)
    ensures k in ev.counts
    ensures Adding(c, key, w, ev, voters, scores, Bumped(c, key, w, ev, voters, r, k), rest - {k}, done + ev.counts[k])
  {
    hide Scored, Remain, Within, Share, Bumped, Sum;
    RemainNext(ev, rest, done, k);
    ScoredNext(c, key, w, ev, voters, scores, r, rest.Keys, k);
    WithinNext(c, key, w, ev, voters, scores, r, done, k);
  }

  lemma AddingEnds(c: Setup, key: string, w: real, ev: Evidence, voters: nat, scores: map<string, real>,
                   r: map<string, real>, done: nat)
    requires voters == Sum(ev.counts) > 0 && Adding(c, key, w, ev, voters, scores, r, map[], done)
    ensures Scored(c, key, w, ev, voters, scores, r, {})
    ensures voters <= ev.members ==> Total(r) <= Total(scores) + w
  {
    hide Scored, Remain, Within, Sum, Total;
    var none: map<string, nat> := map[];
    assert none.Keys == {};
    NoneRemain(ev, done);
    WithinEnds(w, ev, voters, scores);
  }

  // Adds what one signal says to the scores.
  method AddScores(c: Setup, key: string, w: real, ev: Evidence, voters: nat, scores: map<string, real>)
    returns (r: map<string, real>)
    requires 0.0 <= w && ev.members > 0 && voters == Sum(ev.counts) > 0
    ensures Scored(c, key, w, ev, voters, scores, r, {})
    ensures voters <= ev.members ==> Total(r) <= Total(scores) + w
  {
    hide Adding, Bumped, Scored, Sum, Total;
    r := scores;
    var rest := ev.counts;
    ghost var done: nat := 0;
    AddingStarts(c, key, w, ev, voters, scores);
    while rest != map[]
      invariant Adding(c, key, w, ev, voters, scores, r, rest, done)
      decreases rest.Keys
    {
      var k :| k in rest;
      AddingNext(c, key, w, ev, voters, scores, r, rest, done, k);
      r := Bumped(c, key, w, ev, voters, r, k);
      done := done + ev.counts[k];
      rest := rest - {k};
    }
    AddingEnds(c, key, w, ev, voters, scores, r, done);
  }

  // One of the first `n` signals counts and has a vote for the value.
  ghost predicate Backed(evs: map<Signal, Evidence>, value: string, n: nat)
    requires n <= |ORDER|
  {
    n > 0 && (Backed(evs, value, n - 1) ||
              (Counts(evs, ORDER[n - 1]) && CountIn(evs[ORDER[n - 1]].counts, value) > 0))
  }

  // The scores and the available weight after the first `n` signals: exactly the valid values with a vote have scores,
  // and together they are at most the available weight when no signal has more voters than members.
  ghost predicate Tallied(c: Setup, evs: map<Signal, Evidence>, key: string, n: nat, scores: map<string, real>,
                          available: real)
    requires n <= |ORDER|
  {
    && (forall v :: ScoreIn(scores, v) == ScoreUpTo(c, evs, key, v, n))
    && available == AvailableUpTo(evs, n)
    && (forall v :: v in scores <==> Valid(c, key, v) && Backed(evs, v, n))
    && (Plausible(evs) ==> Total(scores) <= available)
    && 0.0 <= available && (scores != map[] ==> 0.0 < available)
  }

  lemma TalliedNone(c: Setup, evs: map<Signal, Evidence>, key: string)
    ensures Tallied(c, evs, key, 0, map[], 0.0)
  {}

  lemma TalliedSkip(c: Setup, evs: map<Signal, Evidence>, key: string, n: nat, scores: map<string, real>,
                    available: real)
    requires n < |ORDER| && Tallied(c, evs, key, n, scores, available) && !Counts(evs, ORDER[n])
    ensures Tallied(c, evs, key, n + 1, scores, available)
  {}

  lemma TalliedNext(c: Setup, evs: map<Signal, Evidence>, key: string, n: nat, scores: map<string, real>,
                    available: real, r: map<string, real>)
    requires n < |ORDER| && Tallied(c, evs, key, n, scores, available) && Counts(evs, ORDER[n])
    requires Scored(c, key, Weight(ORDER[n]), evs[ORDER[n]], Sum(evs[ORDER[n]].counts), scores, r, {})
    requires Sum(evs[ORDER[n]].counts) <= evs[ORDER[n]].members ==> Total(r) <= Total(scores) + Weight(ORDER[n])
    ensures Tallied(c, evs, key, n + 1, r, available + Weight(ORDER[n]))
  {
    hide Share, Valid, Total, Sum;
  }

  // ----- Ranking.

  datatype Suggestion = Suggestion(value: string, confidence: real)

  function Values(list: seq<Suggestion>): seq<string> {
    seq(|list|, i requires 0 <= i < |list| => list[i].value)
  }

  lemma ValuesOfNone()
    ensures Values([]) == [] && forall limit :: Ranked(map[], limit, [])
  {}

  lemma ValuesNext(list: seq<Suggestion>, s: Suggestion)
    ensures Values(list + [s]) == Values(list) + [s.value]
  {}

  // The best values, best first: no value that is left out scores more than one that is listed.
  ghost predicate Ranked(scores: map<string, real>, limit: nat, vs: seq<string>) {
    && |vs| == (if limit < |scores| then limit else |scores|)
    && (forall i :: 0 <= i < |vs| ==> vs[i] in scores)
    && (forall i, j :: 0 <= i < j < |vs| ==> vs[i] != vs[j] && scores[vs[i]] >= scores[vs[j]])
    && forall v, i :: v in scores && v !in vs && 0 <= i < |vs| ==> scores[v] <= scores[vs[i]]
  }

  lemma RankedAreScored(scores: map<string, real>, limit: nat, vs: seq<string>, i: nat)
    requires Ranked(scores, limit, vs) && i < |vs|
    ensures vs[i] in scores
  {}

  // `more` is `vs` with `k` put in at `at`.
  ghost predicate Inserted(vs: seq<string>, k: string, at: nat, more: seq<string>) {
    && at <= |vs| && |more| == |vs| + 1 && more[at] == k
    && (forall i :: 0 <= i < at ==> more[i] == vs[i])
    && (forall i :: at < i < |more| ==> more[i] == vs[i - 1])
  }

  lemma InsertedByParts(vs: seq<string>, k: string, at: nat)
    requires at <= |vs|
    ensures Inserted(vs, k, at, vs[..at] + [k] + vs[at..])
  {}

  lemma InsertedHolds(vs: seq<string>, k: string, at: nat, more: seq<string>)
    requires Inserted(vs, k, at, more)
    ensures forall v :: v in more <==> v in vs || v == k
  {
    forall v | v in vs ensures v in more {
      var i :| 0 <= i < |vs| && vs[i] == v;
      assert more[if i < at then i else i + 1] == v;
    }
    forall i | 0 <= i < |more| ensures more[i] in vs || more[i] == k {
      if i < at { assert more[i] == vs[i]; } else if i > at { assert more[i] == vs[i - 1]; }
    }
  }

  // Each listed value is in `scores`, and none scores less than a later one.
  predicate Falling(scores: map<string, real>, vs: seq<string>) {
    && (forall i :: 0 <= i < |vs| ==> vs[i] in scores)
    && (forall i, j :: 0 <= i < j < |vs| ==> vs[i] != vs[j] && scores[vs[i]] >= scores[vs[j]])
  }

  lemma FallingNext(scores: map<string, real>, vs: seq<string>, k: string, at: nat, more: seq<string>)
    requires Falling(scores, vs) && k in scores && k !in vs && Inserted(vs, k, at, more)
    requires forall i :: 0 <= i < at ==> scores[vs[i]] >= scores[k]
    requires at < |vs| ==> scores[k] >= scores[vs[at]]
    ensures Falling(scores, more)
  {
    forall i, j | 0 <= i < j < |more| ensures more[i] != more[j] && scores[more[i]] >= scores[more[j]] {
      var x, y := if i > at then i - 1 else i, if j > at then j - 1 else j;
      if j == at { assert more[i] == vs[i]; } else if i == at { assert more[j] == vs[y]; }
    }
  }

  lemma NotInPrefix(vs: seq<string>, limit: nat, j: nat)
    requires j < |vs| && limit <= |vs| && vs[j] !in vs[..limit]
    ensures limit <= j
  {}

  lemma PrefixIsRanked(scores: map<string, real>, vs: seq<string>, limit: nat)
    requires Falling(scores, vs) && |vs| == |scores| && forall v :: v in scores ==> v in vs
    ensures Ranked(scores, limit, if limit < |vs| then vs[..limit] else vs)
  {
    forall v, i | v in scores && limit < |vs| && v !in vs[..limit] && 0 <= i < limit
      ensures scores[v] <= scores[vs[i]]
    {
      var j :| 0 <= j < |vs| && vs[j] == v;
      NotInPrefix(vs, limit, j);
    }
  }

  // The keys but `rest` are listed.
  ghost predicate Listed(scores: map<string, real>, rest: set<string>, vs: seq<string>) {
    && |vs| + |rest| == |scores| && rest <= scores.Keys
    && forall v :: v in vs <==> v in scores && v !in rest
  }

  method Rank(scores: map<string, real>, limit: nat) returns (vs: seq<string>)
    ensures Ranked(scores, limit, vs)
  {
    hide Ranked, Inserted;
    var sorted: seq<string>, rest := [], scores.Keys;
    assert |scores.Keys| == |scores|;
    while rest != {}
      invariant Falling(scores, sorted) && Listed(scores, rest, sorted)
      decreases rest
    {
      var k :| k in rest;
      assert k in scores && k !in sorted;
      var at := 0;
      while at < |sorted| && scores[sorted[at]] >= scores[k]
        invariant at <= |sorted| && forall i :: 0 <= i < at ==> scores[sorted[i]] >= scores[k]
      {
        at := at + 1;
      }
      var more := sorted[..at] + [k] + sorted[at..];
      InsertedByParts(sorted, k, at);
      InsertedHolds(sorted, k, at, more);
      FallingNext(scores, sorted, k, at, more);
      InsertedLength(sorted, k, at, more);
      sorted := more;
      rest := rest - {k};
    }
    PrefixIsRanked(scores, sorted, limit);
    vs := if limit < |sorted| then sorted[..limit] else sorted;
  }

  lemma InsertedLength(vs: seq<string>, k: string, at: nat, more: seq<string>)
    requires Inserted(vs, k, at, more)
    ensures |more| == |vs| + 1
  {}

  // The most votes that any counting signal has for the value.
  ghost function SupportUpTo(evs: map<Signal, Evidence>, value: string, n: nat): nat
    requires n <= |ORDER|
  {
    if n == 0 then 0
    else
      var before := SupportUpTo(evs, value, n - 1);
      if Counts(evs, ORDER[n - 1]) && CountIn(evs[ORDER[n - 1]].counts, value) > before
      then CountIn(evs[ORDER[n - 1]].counts, value) else before
  }

  method Support(evs: map<Signal, Evidence>, value: string) returns (support: nat)
    ensures support == SupportUpTo(evs, value, |ORDER|)
  {
    hide Sum;
    support := 0;
    var n := 0;
    while n < |ORDER|
      invariant n <= |ORDER| && support == SupportUpTo(evs, value, n)
    {
      var s := ORDER[n];
      if s in evs {
        var voters := CountVoters(evs[s].counts);
        if evs[s].members > 0 && voters > 0 && CountIn(evs[s].counts, value) > support {
          support := CountIn(evs[s].counts, value);
        }
      }
      n := n + 1;
    }
  }

  function Half(n: nat): (h: real)
    ensures 0.0 < h <= 1.0
  {
    if n == 0 then 1.0 else Half(n - 1) / 2.0
  }

  function Discounted(score: real, available: real, support: nat): real
    requires available > 0.0
  {
    (score / available) * (1.0 - Half(support))
  }

  function Capped(x: real): real {
    if x < 0.99 then x else 0.99
  }

  // Share of the available evidence, discounted for few votes, before rounding.
  function Confidence(score: real, available: real, support: nat): real
    requires available > 0.0
  {
    Capped(Discounted(score, available, support))
  }

  // The list is the best of the scored values, each with its confidence.
  ghost predicate SuggestedFrom(c: Setup, evs: map<Signal, Evidence>, key: string, limit: nat, list: seq<Suggestion>,
                                scores: map<string, real>, available: real)
  {
    && Tallied(c, evs, key, |ORDER|, scores, available)
    && Ranked(scores, limit, Values(list))
    && forall i :: 0 <= i < |list| ==>
         list[i].value in scores && 0.0 < available &&
         list[i].confidence == Confidence(scores[list[i].value], available, SupportUpTo(evs, list[i].value, |ORDER|))
  }

  ghost predicate Suggested(c: Setup, evs: map<Signal, Evidence>, key: string, limit: nat, list: seq<Suggestion>) {
    exists scores, available :: SuggestedFrom(c, evs, key, limit, list, scores, available)
  }

  lemma TalliedPositive(c: Setup, evs: map<Signal, Evidence>, key: string, scores: map<string, real>, available: real)
    requires Tallied(c, evs, key, |ORDER|, scores, available) && scores != map[]
    ensures 0.0 < available
  {}

  // The first `i` ranked values are listed with their confidence.
  ghost predicate Listing(evs: map<Signal, Evidence>, scores: map<string, real>, available: real, limit: nat,
                          ranked: seq<string>, i: nat, list: seq<Suggestion>)
    requires i <= |ranked|
  {
    && 0.0 < available && Ranked(scores, limit, ranked) && Values(list) == ranked[..i]
    && forall k :: 0 <= k < |list| ==>
         list[k].value in scores &&
         list[k].confidence == Confidence(scores[list[k].value], available, SupportUpTo(evs, list[k].value, |ORDER|))
  }

  lemma ListingStarts(c: Setup, evs: map<Signal, Evidence>, key: string, scores: map<string, real>, available: real,
                      limit: nat, ranked: seq<string>)
    requires Tallied(c, evs, key, |ORDER|, scores, available) && scores != map[] && Ranked(scores, limit, ranked)
    ensures Listing(evs, scores, available, limit, ranked, 0, [])
  {
    TalliedPositive(c, evs, key, scores, available);
    ValuesOfNone();
  }

  lemma ListingNeeds(evs: map<Signal, Evidence>, scores: map<string, real>, available: real, limit: nat,
                     ranked: seq<string>, i: nat, list: seq<Suggestion>)
    requires i < |ranked| && Listing(evs, scores, available, limit, ranked, i, list)
    ensures 0.0 < available && ranked[i] in scores
    ensures var s := Suggestion(ranked[i], Confidence(scores[ranked[i]], available,
                                                      SupportUpTo(evs, ranked[i], |ORDER|)));
      Listing(evs, scores, available, limit, ranked, i + 1, list + [s])
  {
    RankedAreScored(scores, limit, ranked, i);
    var s := Suggestion(ranked[i], Confidence(scores[ranked[i]], available, SupportUpTo(evs, ranked[i], |ORDER|)));
    hide Confidence, SupportUpTo, Ranked;
    ValuesNext(list, s);
    assert ranked[..i + 1] == ranked[..i] + [ranked[i]];
  }

  lemma ListingEnds(c: Setup, evs: map<Signal, Evidence>, key: string, scores: map<string, real>, available: real,
                    limit: nat, ranked: seq<string>, list: seq<Suggestion>)
    requires Tallied(c, evs, key, |ORDER|, scores, available)
    requires Listing(evs, scores, available, limit, ranked, |ranked|, list)
    ensures Suggested(c, evs, key, limit, list)
  {
    hide Tallied, Ranked, Confidence, SupportUpTo;
    assert ranked[..|ranked|] == ranked;
    assert SuggestedFrom(c, evs, key, limit, list, scores, available);
  }

  lemma {:induction false} OneWithinTotal(m: map<string, real>, k: string)
    requires k in m && forall v :: v in m ==> 0.0 <= m[v]
    ensures m[k] <= Total(m)
    decreases m.Keys
  {
    TotalTakes(m, k);
    NonNegativeTotal(m - {k});
  }

  lemma {:induction false} NonNegativeTotal(m: map<string, real>)
    requires forall v :: v in m ==> 0.0 <= m[v]
    ensures 0.0 <= Total(m)
    decreases m.Keys
  {
    if m != map[] {
      var k :| k in m;
      TotalTakes(m, k);
      NonNegativeTotal(m - {k});
    }
  }

  lemma ShareNotNegative(w: real, n: nat, voters: nat, members: int)
    requires 0.0 <= w
    ensures 0.0 <= Share(w, n, voters, members)
  {
    if voters > 0 && members > 0 {
      var agreement, rest := n as real / voters as real, 0.5 + 0.5 * (voters as real / members as real);
      assert 0.0 <= agreement && 0.0 <= rest;
      assert 0.0 <= w * agreement;
      NotNegative(w * agreement, rest);
    }
  }

  lemma NotNegative(x: real, y: real)
    requires 0.0 <= x && 0.0 <= y
    ensures 0.0 <= x * y
  {}

  lemma {:induction false} ScoreNotNegative(c: Setup, evs: map<Signal, Evidence>, key: string, value: string, n: nat)
    requires n <= |ORDER|
    ensures 0.0 <= ScoreUpTo(c, evs, key, value, n)
  {
    if n > 0 {
      ScoreNotNegative(c, evs, key, value, n - 1);
      if Counts(evs, ORDER[n - 1]) {
        var ev := evs[ORDER[n - 1]];
        ShareNotNegative(Weight(ORDER[n - 1]), CountIn(ev.counts, value), Sum(ev.counts), ev.members);
      }
    }
  }

  lemma AtMostOne(x: real, y: real)
    requires 0.0 <= x <= y && 0.0 < y
    ensures 0.0 <= x / y <= 1.0
  {}

  lemma Quotient(x: real, y: real, d: real)
    requires 0.0 <= x <= y && 0.0 < y && 0.0 <= d <= 1.0
    ensures 0.0 <= x / y <= 1.0 && 0.0 <= (x / y) * d <= x / y
  {
    AtMostOne(x, y);
    Product(x / y, d);
  }

  /** The confidence of a suggested value is a share of the evidence: never negative, below one, and no more than the
      value's part of the available weight. */
  lemma ConfidenceIsAShare(c: Setup, evs: map<Signal, Evidence>, key: string, scores: map<string, real>,
                           available: real, value: string, support: nat)
    requires Tallied(c, evs, key, |ORDER|, scores, available) && Plausible(evs) && value in scores
    ensures 0.0 < available && 0.0 <= scores[value] <= available
    ensures 0.0 <= Confidence(scores[value], available, support) <= 0.99
    ensures Confidence(scores[value], available, support) <= scores[value] / available
  {
    forall v | v in scores ensures 0.0 <= scores[v] {
      ScoreNotNegative(c, evs, key, v, |ORDER|);
      assert ScoreIn(scores, v) == ScoreUpTo(c, evs, key, v, |ORDER|);
    }
    OneWithinTotal(scores, value);
    Quotient(scores[value], available, 1.0 - Half(support));
  }

  // ----- Building the index.

  lemma EverySignal(s: Signal)
    ensures s in ORDER
    ensures forall n, m :: 0 <= n < m < |ORDER| ==> ORDER[n] != ORDER[m]
  {
    match s
    case Stack => assert ORDER[0] == s;
    case Eks => assert ORDER[1] == s;
    case NamePrefix => assert ORDER[2] == s;
    case AccountService => assert ORDER[3] == s;
  }

  // `votes` has the votes of `r` for the first `n` signals added to those of `votes0`.
  ghost predicate CastUpTo(c: Setup, r: Resource, n: nat, votes0: Ballots, votes: Ballots)
    requires n <= |ORDER|
  {
    forall s, g, key, value ::
      CountIn(BallotsFor(votes, s, g, key), value) ==
      CountIn(BallotsFor(votes0, s, g, key), value) +
      if s in ORDER[..n] && InGroup(c, r, s, g) && Votes(c, r, key, value) then 1 else 0
  }

  ghost predicate CountedUpTo(c: Setup, r: Resource, n: nat, sizes0: map<Cell, nat>, sizes: map<Cell, nat>)
    requires n <= |ORDER|
  {
    forall s, g :: SizeOf(sizes, s, g) == SizeOf(sizes0, s, g) + if s in ORDER[..n] && InGroup(c, r, s, g) then 1 else 0
  }

  lemma NothingCast(c: Setup, r: Resource, votes: Ballots, sizes: map<Cell, nat>)
    ensures CastUpTo(c, r, 0, votes, votes) && CountedUpTo(c, r, 0, sizes, sizes)
  {}

  lemma InNext(n: nat, s: Signal)
    requires n < |ORDER|
    ensures s in ORDER[..n + 1] <==> s in ORDER[..n] || s == ORDER[n]
    ensures ORDER[n] !in ORDER[..n]
  {
    EverySignal(s);
    assert ORDER[..n + 1] == ORDER[..n] + [ORDER[n]];
  }

  ghost predicate CastOne(c: Setup, r: Resource, s: Signal, votes0: Ballots, votes: Ballots) {
    forall s', g, key, value ::
      CountIn(BallotsFor(votes, s', g, key), value) ==
      CountIn(BallotsFor(votes0, s', g, key), value) +
      if s' == s && InGroup(c, r, s', g) && Votes(c, r, key, value) then 1 else 0
  }

  ghost predicate CountedOne(c: Setup, r: Resource, s: Signal, sizes0: map<Cell, nat>, sizes: map<Cell, nat>) {
    forall s', g :: SizeOf(sizes, s', g) == SizeOf(sizes0, s', g) + if s' == s && InGroup(c, r, s', g) then 1 else 0
  }

  lemma CastNext(c: Setup, r: Resource, n: nat, votes0: Ballots, votes1: Ballots, votes: Ballots)
    requires n < |ORDER| && CastUpTo(c, r, n, votes0, votes1)
    requires CastOne(c, r, ORDER[n], votes1, votes)
    ensures CastUpTo(c, r, n + 1, votes0, votes)
  {
    hide CountIn, BallotsFor, Votes, InGroup;
    forall s ensures s in ORDER[..n + 1] <==> s in ORDER[..n] || s == ORDER[n] { InNext(n, s); }
    InNext(n, ORDER[n]);
  }

  lemma CountNext(c: Setup, r: Resource, n: nat, sizes0: map<Cell, nat>, sizes1: map<Cell, nat>, sizes: map<Cell, nat>)
    requires n < |ORDER| && CountedUpTo(c, r, n, sizes0, sizes1)
    requires CountedOne(c, r, ORDER[n], sizes1, sizes)
    ensures CountedUpTo(c, r, n + 1, sizes0, sizes)
  {
    hide SizeOf, InGroup;
    forall s ensures s in ORDER[..n + 1] <==> s in ORDER[..n] || s == ORDER[n] { InNext(n, s); }
    InNext(n, ORDER[n]);
  }

  lemma AllCast(c: Setup, r: Resource, before: seq<Resource>, votes0: Ballots, votes: Ballots, sizes0: map<Cell, nat>,
                sizes: map<Cell, nat>)
    requires Indexed(c, before, votes0, sizes0)
    requires CastUpTo(c, r, |ORDER|, votes0, votes) && CountedUpTo(c, r, |ORDER|, sizes0, sizes)
    ensures Indexed(c, before + [r], votes, sizes)
  {
    hide CountIn, BallotsFor, SizeOf, Votes, InGroup;
    assert (before + [r])[..|before|] == before && ORDER[..|ORDER|] == ORDER;
    forall s ensures s in ORDER { EverySignal(s); }
  }

  class SuggestionIndex {
    const c: Setup
    var byArn: Live
    var votes: Ballots
    var sizes: map<Cell, nat>

    ghost predicate Holds(rs: seq<Resource>)
      reads this
    {
      Indexed(c, rs, votes, sizes) && byArn == ByArn(rs)
    }

    constructor (c: Setup, rs: seq<Resource>)
      ensures this.c == c && Holds(rs)
    {
      this.c := c;
      byArn, votes, sizes := map[], map[], map[];
      new;
      var i := 0;
      while i < |rs|
        invariant i <= |rs| && Holds(rs[..i])
      {
        assert rs[..i + 1][..i] == rs[..i];
        Add(rs[i], rs[..i]);
        assert rs[..i] + [rs[i]] == rs[..i + 1];
        i := i + 1;
      }
      assert rs[..i] == rs;
    }

    method Add(r: Resource, ghost before: seq<Resource>)
      requires Holds(before)
      modifies this
      ensures Holds(before + [r])
    {
      hide CastOne, CountedOne, CastUpTo, CountedUpTo, Indexed;
      byArn := byArn[r.arn := r.tags];
      ghost var votes0, sizes0 := votes, sizes;
      NothingCast(c, r, votes0, sizes0);
      var n := 0;
      while n < |ORDER|
        invariant n <= |ORDER| && byArn == old(byArn)[r.arn := r.tags]
        invariant CastUpTo(c, r, n, votes0, votes) && CountedUpTo(c, r, n, sizes0, sizes)
      {
        ghost var votes1, sizes1 := votes, sizes;
        AddTo(r, ORDER[n]);
        CastNext(c, r, n, votes0, votes1, votes);
        CountNext(c, r, n, sizes0, sizes1, sizes);
        n := n + 1;
      }
      AllCast(c, r, before, votes0, votes, sizes0, sizes);
      assert (before + [r])[..|before|] == before;
    }

    // One resource in its group for one signal, if it has one.
    method AddTo(r: Resource, s: Signal)
      modifies this`votes, this`sizes
      ensures CastOne(c, r, s, old(votes), votes) && CountedOne(c, r, s, old(sizes), sizes)
    {
      var groups := c.signals(r.arn, r.tags);
      if s in groups {
        sizes := sizes[(s, groups[s]) := SizeOf(sizes, s, groups[s]) + 1];
        Ballot(r, s, groups[s]);
      }
    }

    // One resource's votes in one of its groups.
    method Ballot(r: Resource, s: Signal, g: string)
      modifies this`votes
      ensures forall s', g', key, value ::
                CountIn(BallotsFor(votes, s', g', key), value) ==
                CountIn(BallotsFor(old(votes), s', g', key), value) +
                if s' == s && g' == g && Votes(c, r, key, value) then 1 else 0
    {
      var rest := r.tags.Keys;
      assert forall key, value :: Votes(c, r, key, value) ==> key in rest;
      while rest != {}
        invariant rest <= r.tags.Keys
        invariant forall s', g', key, value ::
          CountIn(BallotsFor(votes, s', g', key), value) ==
          CountIn(BallotsFor(old(votes), s', g', key), value) +
          if s' == s && g' == g && key !in rest && Votes(c, r, key, value) then 1 else 0
        decreases rest
      {
        var k :| k in rest;
        var v := r.tags[k];
        if v != "" && !("aws:" <= c.lower(k)) {
          var counts := BallotsFor(votes, s, g, k);
          votes := votes[(s, g, k) := counts[v := CountIn(counts, v) + 1]];
        }
        rest := rest - {k};
      }
    }
  
    /** The score of each value, and the weight of the signals that know anything about `key`. */
    method Score(arn: string, key: string) returns (scores: map<string, real>, available: real)
      ensures var tags := Of(byArn, arn);
        Tallied(c, Gathered(votes, sizes, c.signals(arn, tags), key, Get(tags, key)), key, |ORDER|, scores, available)
    {
      var tags := Of(byArn, arn);
      var own, groups := Get(tags, key), c.signals(arn, tags);
      ghost var evs := Gathered(votes, sizes, groups, key, own);
      scores, available := map[], 0.0;
      var n := 0;
      TalliedNone(c, evs, key);
      hide Tallied, Scored, Sum, Total, EvidenceFor;
      while n < |ORDER|
        invariant n <= |ORDER| && Tallied(c, evs, key, n, scores, available)
      {
        var s := ORDER[n];
        if s in groups {
          var ev := EvidenceFor(votes, sizes, s, groups[s], key, own);
          var voters := CountVoters(ev.counts);
          if ev.members > 0 && voters > 0 {
            var r := AddScores(c, key, Weight(s), ev, voters, scores);
            TalliedNext(c, evs, key, n, scores, available, r);
            scores, available := r, available + Weight(s);
          } else {
            TalliedSkip(c, evs, key, n, scores, available);
          }
        } else {
          TalliedSkip(c, evs, key, n, scores, available);
        }
        n := n + 1;
      }
    }

    /** At most `limit` suggestions, the best first. */
    method Suggest(arn: string, key: string, limit: nat) returns (list: seq<Suggestion>)
      ensures var tags := Of(byArn, arn);
        Suggested(c, Gathered(votes, sizes, c.signals(arn, tags), key, Get(tags, key)), key, limit, list)
    {
      var tags := Of(byArn, arn);
      var evs := Gathered(votes, sizes, c.signals(arn, tags), key, Get(tags, key));
      var found, total := Score(arn, key);
      list := [];
      if found == map[] {
        ValuesOfNone();
        assert SuggestedFrom(c, evs, key, limit, list, found, total);
        return;
      }
      var ranked := Rank(found, limit);
      ListingStarts(c, evs, key, found, total, limit, ranked);
      hide Tallied, Gathered, Confidence, SupportUpTo, Ranked, Listing;
      var i := 0;
      while i < |ranked|
        invariant i <= |ranked| && Listing(evs, found, total, limit, ranked, i, list)
      {
        var v := ranked[i];
        ListingNeeds(evs, found, total, limit, ranked, i, list);
        var support := Support(evs, v);
        list := list + [Suggestion(v, Confidence(found[v], total, support))];
        i := i + 1;
      }
      ListingEnds(c, evs, key, found, total, limit, ranked, list);
    }
  }

  /** For an indexed resource among distinct ones, what the index knows is what a direct scan of all others finds. */
  lemma EvidenceIsADirectScan(c: Setup, rs: seq<Resource>, n: nat, votes: Ballots, sizes: map<Cell, nat>, s: Signal,
                              key: string)
    requires Indexed(c, rs, votes, sizes) && DistinctArns(rs) && n < |rs|
    requires s in c.signals(rs[n].arn, rs[n].tags)
    ensures var others, g := Others(rs, rs[n].arn), c.signals(rs[n].arn, rs[n].tags)[s];
      var ev := EvidenceFor(votes, sizes, s, g, key, Get(rs[n].tags, key));
      && ev.members == Members(c, others, s, g)
      && (forall v :: CountIn(ev.counts, v) == VotesFor(c, others, s, g, key, v))
      && Sum(ev.counts) == Voters(c, others, s, g, key) <= ev.members
  {
    var r, others, g := rs[n], Others(rs, rs[n].arn), c.signals(rs[n].arn, rs[n].tags)[s];
    var own := Get(r.tags, key);
    var ev := EvidenceFor(votes, sizes, s, g, key, own);
    var counts := BallotsFor(votes, s, g, key);
    assert InGroup(c, r, s, g);
    forall v ensures CountIn(ev.counts, v) == VotesFor(c, others, s, g, key, v) {
      WithoutOne(c, rs, n, s, g, key, v);
      assert CountIn(counts, v) == VotesFor(c, rs, s, g, key, v);
      if own.Some? && "aws:" <= c.lower(key) { NoVotes(c, rs, s, g, key, own.value); }
    }
    WithoutOne(c, rs, n, s, g, key, "");
    CountsAddUp(c, others, s, g, key, ev.counts);
    VotersAreMembers(c, others, s, g, key, "");
  }

  lemma {:induction false} NoVotes(c: Setup, rs: seq<Resource>, s: Signal, g: string, key: string, value: string)
    requires "aws:" <= c.lower(key)
    ensures VotesFor(c, rs, s, g, key, value) == 0
  {
    if rs != [] { NoVotes(c, rs[..|rs| - 1], s, g, key, value); }
  }

  /** So the evidence is plausible, and the scores of all values together are at most the available weight. */
  lemma IndexedEvidenceIsPlausible(c: Setup, rs: seq<Resource>, n: nat, votes: Ballots, sizes: map<Cell, nat>,
                                   key: string)
    requires Indexed(c, rs, votes, sizes) && DistinctArns(rs) && n < |rs|
    ensures Plausible(Gathered(votes, sizes, c.signals(rs[n].arn, rs[n].tags), key, Get(rs[n].tags, key)))
  {
    var groups := c.signals(rs[n].arn, rs[n].tags);
    forall s | s in groups
      ensures var ev := EvidenceFor(votes, sizes, s, groups[s], key, Get(rs[n].tags, key)); Sum(ev.counts) <= ev.members
    {
      EvidenceIsADirectScan(c, rs, n, votes, sizes, s, key);
    }
  }

  // The score by direct scans of `others`, signal by signal.
  function DirectScore(c: Setup, others: seq<Resource>, groups: map<Signal, string>, key: string, value: string,
                       n: nat): real
    requires n <= |ORDER|
  {
    if n == 0 then 0.0
    else
      var s := ORDER[n - 1];
      DirectScore(c, others, groups, key, value, n - 1) +
      if s in groups && Valid(c, key, value)
      then Share(Weight(s), VotesFor(c, others, s, groups[s], key, value), Voters(c, others, s, groups[s], key),
                 Members(c, others, s, groups[s]))
      else 0.0
  }

  /** The index scores each value as direct scans of all other resources would. */
  lemma {:induction false} ScoresAreDirectScans(c: Setup, rs: seq<Resource>, n: nat, votes: Ballots,
                                                sizes: map<Cell, nat>, key: string, value: string, upTo: nat)
    requires Indexed(c, rs, votes, sizes) && DistinctArns(rs) && n < |rs| && upTo <= |ORDER|
    ensures var groups := c.signals(rs[n].arn, rs[n].tags);
      ScoreUpTo(c, Gathered(votes, sizes, groups, key, Get(rs[n].tags, key)), key, value, upTo) ==
      DirectScore(c, Others(rs, rs[n].arn), groups, key, value, upTo)
  {
    hide Indexed, EvidenceFor, Valid, Sum, Voters, Members, VotesFor;
    if upTo > 0 {
      var groups := c.signals(rs[n].arn, rs[n].tags);
      ScoresAreDirectScans(c, rs, n, votes, sizes, key, value, upTo - 1);
      if ORDER[upTo - 1] in groups { EvidenceIsADirectScan(c, rs, n, votes, sizes, ORDER[upTo - 1], key); }
    }
  }

  lemma {:induction false} OneOfVoters(c: Setup, rs: seq<Resource>, s: Signal, g: string, key: string, value: string)
    requires VotesFor(c, rs, s, g, key, value) > 0
    ensures exists r :: r in rs && InGroup(c, r, s, g) && Votes(c, r, key, value)
  {
    if !(InGroup(c, rs[|rs| - 1], s, g) && Votes(c, rs[|rs| - 1], key, value)) {
      OneOfVoters(c, rs[..|rs| - 1], s, g, key, value);
      var r :| r in rs[..|rs| - 1] && InGroup(c, r, s, g) && Votes(c, r, key, value);
      assert r in rs;
    } else {
      assert rs[|rs| - 1] in rs;
    }
  }

  lemma {:induction false} OthersAreOther(rs: seq<Resource>, arn: string)
    ensures forall r :: r in Others(rs, arn) <==> r in rs && r.arn != arn
  {
    if rs != [] {
      OthersAreOther(rs[..|rs| - 1], arn);
      assert rs == rs[..|rs| - 1] + [rs[|rs| - 1]];
    }
  }

  lemma {:induction false} BackedBy(evs: map<Signal, Evidence>, value: string, n: nat) returns (s: Signal)
    requires n <= |ORDER| && Backed(evs, value, n)
    ensures Counts(evs, s) && CountIn(evs[s].counts, value) > 0
  {
    s := ORDER[n - 1];
    if !(Counts(evs, s) && CountIn(evs[s].counts, value) > 0) { s := BackedBy(evs, value, n - 1); }
  }

  // Another resource that shares a group with `r` has `value` for `key`.
  ghost predicate UsedBeside(c: Setup, rs: seq<Resource>, r: Resource, key: string, value: string) {
    exists other, s, g :: other in rs && other.arn != r.arn && InGroup(c, r, s, g) && InGroup(c, other, s, g) &&
                          Votes(c, other, key, value)
  }

  /** Nothing is made up: every suggested value is valid, and some other resource of a group of this one has it. */
  lemma SuggestedValuesAreUsed(c: Setup, rs: seq<Resource>, n: nat, votes: Ballots, sizes: map<Cell, nat>, key: string,
                               limit: nat, list: seq<Suggestion>, i: nat)
    requires Indexed(c, rs, votes, sizes) && DistinctArns(rs) && n < |rs| && i < |list|
    requires Suggested(c, Gathered(votes, sizes, c.signals(rs[n].arn, rs[n].tags), key, Get(rs[n].tags, key)), key,
                       limit, list)
    ensures Valid(c, key, list[i].value) && UsedBeside(c, rs, rs[n], key, list[i].value)
  {
    var r, v, groups := rs[n], list[i].value, c.signals(rs[n].arn, rs[n].tags);
    var evs := Gathered(votes, sizes, groups, key, Get(r.tags, key));
    hide EvidenceFor, Indexed, Valid, Ranked, Confidence, SupportUpTo;
    assert Valid(c, key, v) && Backed(evs, v, |ORDER|);
    var s := BackedBy(evs, v, |ORDER|);
    EvidenceIsADirectScan(c, rs, n, votes, sizes, s, key);
    OneOfVoters(c, Others(rs, r.arn), s, groups[s], key, v);
    var other :| other in Others(rs, r.arn) && InGroup(c, other, s, groups[s]) && Votes(c, other, key, v);
    OthersAreOther(rs, r.arn);
    assert InGroup(c, r, s, groups[s]);
  }
}
