/** How scores and confidences compare, and what a suggested value satisfies, in numbers and rules. */
module SuggestionLaws {
  import opened Wrappers
  import opened TagStore
  import opened Suggestions

  // ----- One signal.

  /** The share without fractions: the weight, times the votes, times the mean of voters and members. */
  lemma ShareInNumbers(w: real, n: nat, voters: nat, members: int)
    requires voters > 0 && members > 0
    ensures Share(w, n, voters, members) * (2.0 * voters as real * members as real) ==
            w * n as real * (members as real + voters as real)
  {
    var v, m := voters as real, members as real;
    var agreement, coverage := n as real / v, v / m;
    assert agreement * v == n as real && coverage * m == v;
    var x := 0.5 + 0.5 * coverage;
    assert x * (2.0 * m) == m + v;
    assert Share(w, n, voters, members) == w * agreement * x;
    Regroup(w, agreement, x, v, 2.0 * m);
  }

  lemma Regroup(w: real, a: real, x: real, v: real, m: real)
    ensures w * a * x * (v * m) == w * (a * v) * (x * m)
  {
    assert w * a * x * (v * m) == w * (a * (x * (v * m)));
    assert a * (x * (v * m)) == (a * v) * (x * m);
    assert w * ((a * v) * (x * m)) == w * (a * v) * (x * m);
  }

  lemma ShareMonotone(w: real, n: nat, more: nat, voters: nat, members: int)
    requires 0.0 < w && n <= more && voters > 0 && members > 0
    ensures Share(w, n, voters, members) <= Share(w, more, voters, members)
    ensures n < more ==> Share(w, n, voters, members) < Share(w, more, voters, members)
  {
    var v, x := voters as real, 0.5 + 0.5 * (voters as real / members as real);
    assert 0.0 < x;
    if n < more {
      assert n as real / v < more as real / v;
      assert w * (n as real / v) < w * (more as real / v);
      Times(w * (n as real / v), w * (more as real / v), x);
    }
  }

  /** More votes of the same voters score more, and so do the same votes in a smaller group; a value all members have
      scores the whole weight. */
  lemma ShareGrows(w: real, n: nat, more: nat, voters: nat, members: nat, larger: nat)
    requires 0.0 < w && 0 < n < more <= voters <= members < larger
    ensures Share(w, n, voters, members) < Share(w, more, voters, members)
    ensures Share(w, n, voters, larger) < Share(w, n, voters, members)
    ensures Share(w, members, members, members) == w
  {
    ShareMonotone(w, n, more, voters, members);
    SmallerGroup(w, n, voters, members, larger);
    WholeShare(w, members);
  }

  lemma WholeShare(w: real, members: nat)
    requires members > 0
    ensures Share(w, members, members, members) == w
  {
    assert members as real / members as real == 1.0;
  }

  lemma SmallerGroup(w: real, n: nat, voters: nat, members: nat, larger: nat)
    requires 0.0 < w && 0 < n && 0 < voters && 0 < members < larger
    ensures Share(w, n, voters, larger) < Share(w, n, voters, members)
  {
    var v, m, l := voters as real, members as real, larger as real;
    var a, x, y := w * (n as real / v), 0.5 + 0.5 * (v / m), 0.5 + 0.5 * (v / l);
    DivideBy(v, m, l);
    assert 0.0 < n as real / v;
    assert 0.0 < a;
    Times(y, x, a);
    assert y * a == a * y && x * a == a * x;
    assert Share(w, n, voters, members) == a * x && Share(w, n, voters, larger) == a * y;
  }

  lemma Divide(a: real, b: real, v: real)
    requires 0.0 < a < b && 0.0 < v
    ensures 0.0 < a / v < b / v
  {}

  lemma DivideBy(v: real, m: real, l: real)
    requires 0.0 < v && 0.0 < m < l
    ensures 0.0 < v / l < v / m
  {
    assert (v / l) * l == v && (v / m) * m == v;
    assert (v / m) * l > (v / m) * m;
  }

  lemma Times(a: real, b: real, c: real)
    requires a < b && 0.0 < c
    ensures a * c < b * c
  {}

  // ----- All signals together.

  // Wherever there is evidence, `x` has at least as many votes as `v`.
  ghost predicate AtLeastAsMany(evs: map<Signal, Evidence>, v: string, x: string) {
    forall s :: Counts(evs, s) ==> CountIn(evs[s].counts, v) <= CountIn(evs[s].counts, x)
  }

  /** A valid value with at least as many votes everywhere scores at least as much, and more if it has more votes
      somewhere. */
  lemma {:induction false} MoreVotesScoreMore(c: Setup, evs: map<Signal, Evidence>, key: string, v: string, x: string,
                                              n: nat)
    requires n <= |ORDER| && Valid(c, key, v) && Valid(c, key, x) && AtLeastAsMany(evs, v, x)
    ensures ScoreUpTo(c, evs, key, v, n) <= ScoreUpTo(c, evs, key, x, n)
    ensures (exists i :: 0 <= i < n && Counts(evs, ORDER[i]) &&
                         CountIn(evs[ORDER[i]].counts, v) < CountIn(evs[ORDER[i]].counts, x)) ==>
            ScoreUpTo(c, evs, key, v, n) < ScoreUpTo(c, evs, key, x, n)
  {
    hide Share, Valid, Sum, CountIn;
    if n > 0 {
      MoreVotesScoreMore(c, evs, key, v, x, n - 1);
      var s := ORDER[n - 1];
      if Counts(evs, s) {
        var ev := evs[s];
        ShareMonotone(Weight(s), CountIn(ev.counts, v), CountIn(ev.counts, x), Sum(ev.counts), ev.members);
      }
    }
  }

  /** A valid value that all the other members of a group have scores 5 for a stack, 4 for a cluster, 3 for a name
      prefix and 1 for account and service, when that group is the only evidence. */
  lemma UnanimousScores(c: Setup, s: Signal, key: string, v: string, members: nat)
    requires Valid(c, key, v) && members > 0
    ensures var evs := map[s := Evidence(map[v := members], members)];
      ScoreUpTo(c, evs, key, v, |ORDER|) ==
      match s case Stack => 5.0 case Eks => 4.0 case NamePrefix => 3.0 case AccountService => 1.0
  {
    var m: map<string, nat> := map[v := members];
    var evs := map[s := Evidence(m, members)];
    SumTakes(m, v);
    assert m - {v} == map[];
    assert Sum(m) == members && members as real / members as real == 1.0;
    hide Valid, Sum;
    EverySignal(s);
    forall n | 0 <= n < |ORDER| ensures Counts(evs, ORDER[n]) <==> ORDER[n] == s {}
    assert ScoreUpTo(c, evs, key, v, 1) == if ORDER[0] == s then 5.0 else 0.0;
    assert ScoreUpTo(c, evs, key, v, 2) == ScoreUpTo(c, evs, key, v, 1) + if ORDER[1] == s then 4.0 else 0.0;
    assert ScoreUpTo(c, evs, key, v, 3) == ScoreUpTo(c, evs, key, v, 2) + if ORDER[2] == s then 3.0 else 0.0;
    assert ScoreUpTo(c, evs, key, v, 4) == ScoreUpTo(c, evs, key, v, 3) + if ORDER[3] == s then 1.0 else 0.0;
  }

  // ----- Suggested values.

  /** A suggested value is one the rule of its key allows and whose pattern it matches, where there is such a rule. */
  lemma SuggestedValuesObeyRules(c: Setup, evs: map<Signal, Evidence>, key: string, limit: nat, list: seq<Suggestion>,
                                 i: nat)
    requires Suggested(c, evs, key, limit, list) && i < |list| && key in c.rules
    ensures c.rules[key].allowed != [] ==>
        exists x :: 0 <= x < |c.rules[key].allowed| && c.rules[key].allowed[x] == list[i].value
    ensures c.rules[key].pattern != "" ==> c.matches(c.rules[key].pattern, list[i].value)
  {
    var scores, available :| SuggestedFrom(c, evs, key, limit, list, scores, available);
    hide Ranked, Backed, ScoreUpTo, AvailableUpTo, Confidence, SupportUpTo;
    assert Valid(c, key, list[i].value);
  }

  /** With room for all, every value that has a vote and that the rule of its key, if there is one, lets pass is
      suggested. */
  lemma VotedValuesAreSuggested(c: Setup, evs: map<Signal, Evidence>, key: string, limit: nat, list: seq<Suggestion>,
                                v: string)
    requires Suggested(c, evs, key, limit, list) && |list| < limit && Backed(evs, v, |ORDER|)
    requires key in c.rules && c.rules[key].allowed != [] ==> v in c.rules[key].allowed
    requires key in c.rules && c.rules[key].pattern != "" ==> c.matches(c.rules[key].pattern, v)
    ensures exists i :: 0 <= i < |list| && list[i].value == v
  {
    var scores, available :| SuggestedFrom(c, evs, key, limit, list, scores, available);
    var vs := Values(list);
    assert Valid(c, key, v) && v in scores;
    AllListed(scores, limit, vs, v);
    var i :| 0 <= i < |vs| && vs[i] == v;
    assert list[i].value == v;
  }

  /** Suggestions are distinct and the best score comes first; a value with a vote that its rule lets pass but that is
      left out scores no more than any that is listed. */
  lemma BestFirst(c: Setup, evs: map<Signal, Evidence>, key: string, limit: nat, list: seq<Suggestion>)
    requires Suggested(c, evs, key, limit, list)
    ensures |list| <= limit
    ensures forall i, j :: 0 <= i < j < |list| ==>
              list[i].value != list[j].value &&
              ScoreUpTo(c, evs, key, list[i].value, |ORDER|) >= ScoreUpTo(c, evs, key, list[j].value, |ORDER|)
    ensures forall v, i :: Valid(c, key, v) && Backed(evs, v, |ORDER|) && 0 <= i < |list| &&
                           (forall j :: 0 <= j < |list| ==> list[j].value != v) ==>
              ScoreUpTo(c, evs, key, v, |ORDER|) <= ScoreUpTo(c, evs, key, list[i].value, |ORDER|)
  {
    var scores, available :| SuggestedFrom(c, evs, key, limit, list, scores, available);
    var vs := Values(list);
    hide Backed, Valid, ScoreUpTo, AvailableUpTo, Confidence, SupportUpTo;
    assert forall v :: v in scores ==> scores[v] == ScoreUpTo(c, evs, key, v, |ORDER|) by {
      assert forall v :: ScoreIn(scores, v) == ScoreUpTo(c, evs, key, v, |ORDER|);
    }
    assert |vs| == |list| && forall i :: 0 <= i < |list| ==> vs[i] == list[i].value;
    forall i, j | 0 <= i < j < |list|
      ensures list[i].value != list[j].value
      ensures ScoreUpTo(c, evs, key, list[i].value, |ORDER|) >= ScoreUpTo(c, evs, key, list[j].value, |ORDER|)
    {
      assert vs[i] != vs[j] && scores[vs[i]] >= scores[vs[j]];
    }
    forall v, i | Valid(c, key, v) && Backed(evs, v, |ORDER|) && 0 <= i < |list| &&
                  (forall j :: 0 <= j < |list| ==> list[j].value != v)
      ensures ScoreUpTo(c, evs, key, v, |ORDER|) <= ScoreUpTo(c, evs, key, list[i].value, |ORDER|)
    {
      assert v in scores && v !in vs;
      assert scores[v] <= scores[vs[i]];
    }
  }

  lemma AllListed(scores: map<string, real>, limit: nat, vs: seq<string>, v: string)
    requires Ranked(scores, limit, vs) && |vs| < limit && v in scores
    ensures v in vs
  {
    var listed := set i | 0 <= i < |vs| :: vs[i];
    DistinctSize(vs, listed);
    assert |scores.Keys| == |scores|;
    if v !in vs { Smaller(listed, scores.Keys, v); }
  }

  lemma {:induction false} DistinctSize(vs: seq<string>, listed: set<string>)
    requires forall i, j :: 0 <= i < j < |vs| ==> vs[i] != vs[j]
    requires listed == set i | 0 <= i < |vs| :: vs[i]
    ensures |listed| == |vs|
  {
    if vs != [] {
      var front, last := vs[..|vs| - 1], vs[|vs| - 1];
      var fewer := set i | 0 <= i < |front| :: front[i];
      DistinctSize(front, fewer);
      assert last !in fewer;
      assert listed == fewer + {last} by {
        forall x | x in listed ensures x in fewer + {last} {
          var i :| 0 <= i < |vs| && vs[i] == x;
          if i < |front| { assert front[i] == x; }
        }
        forall x | x in fewer ensures x in listed {
          var i :| 0 <= i < |front| && front[i] == x;
          assert vs[i] == x;
        }
      }
    }
  }

  lemma Smaller(a: set<string>, b: set<string>, x: string)
    requires a <= b && x in b && x !in a
    ensures |a| < |b|
  {
    assert a + {x} <= b;
    var rest := b - (a + {x});
    assert b == a + {x} + rest;
  }

  // ----- Confidence.

  lemma {:induction false} HalfShrinks(n: nat, m: nat)
    requires n < m
    ensures Half(m) < Half(n)
  {
    if n < m - 1 { HalfShrinks(n, m - 1); }
  }

  lemma CappedGrows(x: real, y: real)
    requires 0.0 < x < y
    ensures 0.0 < Capped(x) <= 0.99 && (Capped(x) < Capped(y) || Capped(y) == 0.99)
  {}

  lemma DiscountedGrows(score: real, more: real, available: real, support: nat, wider: nat)
    requires 0.0 < score < more && 0.0 < available && 0 < support < wider
    ensures 0.0 < Discounted(score, available, support) < Discounted(more, available, support)
    ensures Discounted(score, available, support) < Discounted(score, available, wider)
  {
    HalfShrinks(support, wider);
    HalfShrinks(0, support);
    Divide(score, more, available);
    var q, r, d, e := score / available, more / available, 1.0 - Half(support), 1.0 - Half(wider);
    assert Half(0) == 1.0;
    Times(q, r, d);
    Times(d, e, q);
    assert d * q == q * d && e * q == q * e;
    hide Half;
    NotZero(q, d);
  }

  lemma NotZero(x: real, y: real)
    requires 0.0 < x && 0.0 < y
    ensures 0.0 < x * y
  {}

  /** Confidence grows with the score and with the support until it is capped at 0.99. */
  lemma ConfidenceGrows(score: real, more: real, available: real, support: nat, wider: nat)
    requires 0.0 < score < more && 0.0 < available && 0 < support < wider
    ensures var x := Confidence(score, available, support);
      && 0.0 < x <= 0.99
      && (x < Confidence(more, available, support) || Confidence(more, available, support) == 0.99)
      && (x < Confidence(score, available, wider) || Confidence(score, available, wider) == 0.99)
  {
    DiscountedGrows(score, more, available, support, wider);
    hide Discounted, Capped;
    CappedGrows(Discounted(score, available, support), Discounted(more, available, support));
    CappedGrows(Discounted(score, available, support), Discounted(score, available, wider));
  }

  /** One vote counts for half of the share, three for seven eighths. */
  lemma SmallSamples(score: real, available: real)
    requires 0.0 <= score <= available && 0.0 < available
    ensures Confidence(score, available, 1) == (score / available) * 0.5
    ensures Confidence(score, available, 3) == (score / available) * 0.875
  {
    assert Half(0) == 1.0 && Half(1) == 0.5 && Half(2) == 0.25 && Half(3) == 0.125;
    AtMostOne(score, available);
  }
}
