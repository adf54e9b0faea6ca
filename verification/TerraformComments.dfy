/** What becomes of a tag map with `//` notes, which only one of the two scanners takes for comments. */
module TerraformComments {
  import opened Wrappers
  import opened Text
  import opened TerraformLexer
  import opened TerraformTags

  // ----- What an entry with a `//` note reads as.

  // What of the note sticks to the value: up to its first comma or hash outside quotes and brackets.
  function Stuck(e: Entry): string
    requires e.layout.end.Slash?
  {
    RStrip(Split(e.layout.end.note, 0, false)[0])
  }

  // The note is on the line of the value.
  predicate Noted(e: Entry) {
    e.layout.end.Slash? && OneLine(e.layout.trail)
  }

  function ValueText(e: Entry): string {
    if Noted(e) then Quote(e.value) + e.layout.trail + "//" + Stuck(e) else ValueOf(e)
  }

  function ValueRead(e: Entry): string {
    Literal(ValueText(e))
  }

  lemma {:induction false} RStripAfter(a: string, b: string)
    requires a != "" && !Space(a[|a| - 1])
    ensures RStrip(a + b) == a + RStrip(b)
  {
    if b == "" {
      assert a + b == a;
    } else if Space(b[|b| - 1]) {
      assert (a + b)[..|a + b| - 1] == a + b[..|b| - 1];
      RStripAfter(a, b[..|b| - 1]);
    }
  }

  lemma StripGlued(w: string, n: string)
    requires Tight(w)
    ensures Strip(w + n) == w + RStrip(n)
  {
    assert (w + n)[0] == w[0];
    StripKeepsHead(w + n);
    RStripAfter(w, n);
  }

  // The text of an entry up to its value, and the value with what sticks to it.
  lemma FirstPieceIs(e: Entry)
    requires WellFormed(e)
    ensures PairPieces(e) != [] && PairPieces(e)[0] == Head(e) + ValueText(e)
  {
    if Noted(e) {
      var w := Core(e) + e.layout.trail + "//";
      CoreIsTight(e);
      SlashesStandByQuotes(e);
      hide Split, Strip, Entries, RStrip, WellFormed, Head, Blank;
      StripGlued(w, Split(e.layout.end.note, 0, false)[0]);
      FiveTexts(Head(e), Quote(e.value), e.layout.trail, "//", Stuck(e));
    }
  }

  lemma FiveTexts(a: string, b: string, c: string, d: string, e: string)
    ensures a + b + c + d + e == a + (b + c + d + e)
  {}

  lemma SlashesStandByQuotes(e: Entry)
    requires WellFormed(e) && e.layout.end.Slash?
    ensures !e.layout.plain && ValueOf(e) == Quote(e.value)
  {}

  lemma ValueTextIsValueLike(e: Entry)
    requires WellFormed(e)
    ensures ValueLike(e.layout, ValueText(e))
  {
    ValuesAreValueLike(e);
    hide ValueOf, WellFormed;
  }

  /** The first text of an entry gives its key the value that is read, whatever the note is. */
  lemma FirstPieceReads(e: Entry)
    requires WellFormed(e)
    ensures PairPieces(e) != [] && KeyValue(PairPieces(e)[0]) == Some((e.key, ValueText(e)))
  {
    FirstPieceIs(e);
    ValueTextIsValueLike(e);
    HeadReadsBack(e, ValueText(e));
  }

  predicate EndsQuoted(s: string) {
    s != "" && s[|s| - 1] == '"'
  }

  // What stands between the outer quotes of the value text when the note ends in a quote.
  function Between(e: Entry): string
    requires Noted(e) && EndsQuoted(Stuck(e))
  {
    e.value + "\"" + e.layout.trail + "//" + Stuck(e)[..|Stuck(e)| - 1]
  }

  lemma {:induction false} ContainsMore(s: string, t: string, sub: string)
    requires Contains(s, sub)
    ensures Contains(s + t, sub)
  {
    var k :| 0 <= k <= |s| && sub <= s[k..];
    assert (s + t)[k..] == s[k..] + t;
  }

  lemma NotNumber(s: string)
    requires s != "" && s[0] == '"'
    ensures !Number(s) && s != "true" && s != "false"
  {
    forall k | 0 <= k < |s| ensures !Digits(s[..k]) {
      if k > 0 { assert s[..k][0] == '"'; }
    }
  }

  // A text that starts with a quote is a literal only if it ends in one.
  lemma LiteralFromQuote(raw: string)
    requires Tight(raw) && |raw| >= 2 && raw[0] == '"'
    ensures Literal(raw) == if raw[|raw| - 1] == '"' then Inner(raw[1..|raw| - 1]) else UNKNOWN_VALUE
  {
    assert raw + "" == raw;
    StripTight(raw, "");
    hide Strip, Inner, Number;
    NotNumber(raw);
  }

  lemma Requote(v: string, trail: string, stuck: string)
    requires EndsQuoted(stuck)
    ensures Quote(v) + trail + "//" + stuck == Quote(v + "\"" + trail + "//" + stuck[..|stuck| - 1])
  {
    assert stuck == stuck[..|stuck| - 1] + "\"";
  }

  // A value with a note reads as unknown, or as everything between the outer quotes.
  lemma NotedValue(e: Entry)
    requires Noted(e)
    ensures ValueRead(e) == if EndsQuoted(Stuck(e)) then Inner(Between(e)) else UNKNOWN_VALUE
  {
    var raw := ValueText(e);
    RStripPrefix(Split(e.layout.end.note, 0, false)[0]);
    hide Literal, Inner, Stuck, RStrip, Split;
    if EndsQuoted(Stuck(e)) {
      Requote(e.value, e.layout.trail, Stuck(e));
      QuoteReadsBack(Between(e));
    } else {
      LiteralFromQuote(raw);
    }
  }

  lemma InnerOfMore(v: string, more: string)
    requires more != ""
    ensures Inner(v + more) == Inner(v) <==> Inner(v) == UNKNOWN_VALUE && Contains(v + more, "${")
  {
    if Contains(v, "${") { ContainsMore(v, more, "${"); }
    hide Contains;
  }

  /** A value with a `//` note on its line is read as intended exactly when it is unknown anyway, and the note does not
      end in a quote or an interpolation comes before that quote. */
  lemma ValueKeptExactly(e: Entry)
    requires WellFormed(e)
    ensures ValueRead(e) == Meant(e) <==>
            !Noted(e) ||
            (Inner(e.value) == UNKNOWN_VALUE && (!EndsQuoted(Stuck(e)) || Contains(Between(e), "${")))
  {
    hide Literal, Inner, Contains, Stuck;
    if !Noted(e) {
      CoreReadsBack(e);
    } else {
      NotedValue(e);
      if EndsQuoted(Stuck(e)) {
        var more := "\"" + e.layout.trail + "//" + Stuck(e)[..|Stuck(e)| - 1];
        assert Between(e) == e.value + more;
        InnerOfMore(e.value, more);
      }
    }
  }

  // ----- Tags that only the notes speak of.

  // The keys that the texts speak of.
  function Told(ps: seq<string>): set<string> {
    if ps == [] then {}
    else (match KeyValue(ps[0]) case None => {} case Some((k, _)) => {k}) + Told(ps[1..])
  }

  // The keys that the note beside or below `e` speaks of.
  function NoteInvented(e: Entry): set<string> {
    if PairPieces(e) == [] then {} else Told(PairPieces(e)[1..])
  }

  // The keys that all notes of `e` speak of.
  function Invented(e: Entry): set<string> {
    Told(LinePieces(e.layout.above)) + NoteInvented(e) + Told(LinePieces(e.layout.below))
  }

  lemma {:induction false} TagsOfTold(ps: seq<string>, tags: map<string, string>)
    ensures TagsOf(ps, tags).Keys == tags.Keys + Told(ps)
    ensures forall k :: k in tags && k !in Told(ps) ==> TagsOf(ps, tags)[k] == tags[k]
  {
    if ps != [] {
      TagsOfTold(ps[1..], match KeyValue(ps[0]) case None => tags case Some((k, v)) => tags[k := Literal(v)]);
    }
  }

  lemma {:induction false} TagsOfBoth(a: seq<string>, b: seq<string>, tags: map<string, string>)
    ensures TagsOf(a + b, tags) == TagsOf(b, TagsOf(a, tags))
  {
    if a == [] {
      assert a + b == b;
    } else {
      assert (a + b)[1..] == a[1..] + b;
      TagsOfBoth(a[1..], b, match KeyValue(a[0]) case None => tags case Some((k, v)) => tags[k := Literal(v)]);
    }
  }

  lemma PairReads(e: Entry, tags: map<string, string>)
    requires WellFormed(e)
    ensures var r := TagsOf(PairPieces(e), tags);
      && r.Keys == tags.Keys + {e.key} + NoteInvented(e)
      && forall k :: k in r && k !in NoteInvented(e) ==> r[k] == if k == e.key then ValueRead(e) else tags[k]
  {
    FirstPieceReads(e);
    TagsOfTold(PairPieces(e)[1..], tags[e.key := ValueRead(e)]);
  }

  lemma EntryReads(e: Entry, tags: map<string, string>)
    requires WellFormed(e)
    ensures var r := TagsOf(Pieces(e), tags);
      && r.Keys == tags.Keys + {e.key} + Invented(e)
      && forall k :: k in r && k !in Invented(e) ==> r[k] == if k == e.key then ValueRead(e) else tags[k]
  {
    var a, p, b := LinePieces(e.layout.above), PairPieces(e), LinePieces(e.layout.below);
    TagsOfBoth(a + p, b, tags);
    TagsOfBoth(a, p, tags);
    assert Pieces(e) == a + p + b && Invented(e) == Told(a) + NoteInvented(e) + Told(b);
    hide *;
    var m1 := TagsOf(a, tags);
    var m2 := TagsOf(p, m1);
    TagsOfTold(a, tags);
    PairReads(e, m1);
    TagsOfTold(b, m2);
    ThreeSteps(tags, e.key, ValueRead(e), Told(a), NoteInvented(e), Told(b), m1, m2, TagsOf(b, m2));
  }

  lemma ThreeSteps(tags: map<string, string>, key: string, value: string, a: set<string>, p: set<string>,
                   b: set<string>, m1: map<string, string>, m2: map<string, string>, r: map<string, string>)
    requires m1.Keys == tags.Keys + a && forall k :: k in tags && k !in a ==> m1[k] == tags[k]
    requires m2.Keys == m1.Keys + {key} + p
    requires forall k :: k in m2 && k !in p ==> m2[k] == if k == key then value else m1[k]
    requires r.Keys == m2.Keys + b && forall k :: k in m2 && k !in b ==> r[k] == m2[k]
    ensures r.Keys == tags.Keys + {key} + (a + p + b)
    ensures forall k :: k in r && k !in a + p + b ==> r[k] == if k == key then value else tags[k]
  {}

  predicate DistinctKeys(es: seq<Entry>) {
    forall i, j :: 0 <= i < j < |es| ==> es[i].key != es[j].key
  }

  function KeysOf(es: seq<Entry>): set<string> {
    set i | 0 <= i < |es| :: es[i].key
  }

  function AllInvented(es: seq<Entry>): set<string> {
    if es == [] then {} else Invented(es[0]) + AllInvented(es[1..])
  }

  // What is read of a map whose notes speak of none of its own keys.
  ghost predicate Reading(es: seq<Entry>, tags: map<string, string>, r: map<string, string>) {
    Grown(tags, KeysOf(es), AllInvented(es), r) && ValuesRead(es, r)
  }

  // `r` has the keys of `tags`, `own` and `more`; where only `tags` has a value, it keeps that.
  ghost predicate Grown(tags: map<string, string>, own: set<string>, more: set<string>, r: map<string, string>) {
    r.Keys == tags.Keys + own + more && forall k :: k in tags && k !in own && k !in more ==> r[k] == tags[k]
  }

  predicate ValuesRead(es: seq<Entry>, r: map<string, string>) {
    forall i :: 0 <= i < |es| ==> es[i].key in r && r[es[i].key] == ValueRead(es[i])
  }

  lemma GrownTwice(tags: map<string, string>, k: string, more: set<string>, mid: map<string, string>, own: set<string>,
                   more2: set<string>, r: map<string, string>)
    requires Grown(tags, {k}, more, mid) && Grown(mid, own, more2, r) && k !in own && k !in more && k !in more2
    ensures Grown(tags, {k} + own, more + more2, r) && k in r && k in mid && r[k] == mid[k]
  {}

  lemma ValuesReadFirst(es: seq<Entry>, r: map<string, string>)
    requires es != [] && es[0].key in r && r[es[0].key] == ValueRead(es[0]) && ValuesRead(es[1..], r)
    ensures ValuesRead(es, r)
  {
    hide ValueRead;
    forall i | 0 <= i < |es| ensures es[i].key in r && r[es[i].key] == ValueRead(es[i]) {
      if i > 0 { assert es[1..][i - 1] == es[i]; }
    }
  }

  lemma {:induction false} MapReads(es: seq<Entry>, tags: map<string, string>)
    requires DistinctKeys(es) && (forall i :: 0 <= i < |es| ==> WellFormed(es[i])) && KeysOf(es) !! AllInvented(es)
    ensures Reading(es, tags, TagsOf(AllPieces(es), tags))
  {
    if es != [] {
      var e, rest := es[0], es[1..];
      var mid, r := TagsOf(Pieces(e), tags), TagsOf(AllPieces(es), tags);
      KeysOfFirst(es);
      TagsOfBoth(Pieces(e), AllPieces(rest), tags);
      EntryReads(e, tags);
      assert AllPieces(es) == Pieces(e) + AllPieces(rest) && AllInvented(es) == Invented(e) + AllInvented(rest);
      assert r == TagsOf(AllPieces(rest), mid) && e.key in KeysOf(es);
      assert e.key !in Invented(e) && e.key !in AllInvented(rest) && KeysOf(rest) !! AllInvented(rest);
      assert Grown(tags, {e.key}, Invented(e), mid) && mid[e.key] == ValueRead(e);
      hide ValueRead, Pieces, TagsOf, Invented, WellFormed, AllPieces, KeysOf, AllInvented, DistinctKeys;
      hide Grown, ValuesRead;
      MapReads(rest, mid);
      GrownTwice(tags, e.key, Invented(e), mid, KeysOf(rest), AllInvented(rest), r);
      ValuesReadFirst(es, r);
    } else {
      assert KeysOf(es) == {} && AllInvented(es) == {};
    }
  }

  lemma KeysOfFirst(es: seq<Entry>)
    requires es != [] && DistinctKeys(es)
    ensures KeysOf(es) == {es[0].key} + KeysOf(es[1..]) && es[0].key !in KeysOf(es[1..])
    ensures DistinctKeys(es[1..])
  {
    forall k | k in KeysOf(es) ensures k in {es[0].key} + KeysOf(es[1..]) {
      var i :| 0 <= i < |es| && es[i].key == k;
      if i > 0 { assert es[1..][i - 1].key == k; }
    }
    forall k | k in KeysOf(es[1..]) ensures k in KeysOf(es) && k != es[0].key {
      var j :| 0 <= j < |es[1..]| && es[1..][j].key == k;
      assert es[j + 1].key == k;
    }
  }

  lemma IntendedKeys(es: seq<Entry>)
    requires DistinctKeys(es)
    ensures Intended(es, map[]).Keys == KeysOf(es)
    ensures forall i :: 0 <= i < |es| ==> Intended(es, map[])[es[i].key] == Meant(es[i])
  {
    IntendedExactly(es, map[]);
    forall k ensures k in Intended(es, map[]) <==> k in KeysOf(es) {}
  }

  // What the last text that speaks of `k` says of it.
  function LastTold(ps: seq<string>, k: string): Option<string> {
    if ps == [] then None
    else if LastTold(ps[1..], k).Some? then LastTold(ps[1..], k)
    else
      match KeyValue(ps[0])
      case None => None
      case Some((k', raw)) => if k' == k then Some(Literal(raw)) else None
  }

  lemma {:induction false} TagsOfLast(ps: seq<string>, tags: map<string, string>, k: string)
    ensures k in TagsOf(ps, tags) <==> k in tags || LastTold(ps, k).Some?
    ensures LastTold(ps, k).Some? <==> k in Told(ps)
    ensures LastTold(ps, k).Some? ==> TagsOf(ps, tags)[k] == LastTold(ps, k).value
  {
    if ps != [] {
      var tags' := match KeyValue(ps[0]) case None => tags case Some((k', raw)) => tags[k' := Literal(raw)];
      TagsOfLast(ps[1..], tags', k);
      TagsOfTold(ps[1..], tags');
      hide KeyValue, Literal;
    }
  }

  lemma {:induction false} LastToldBoth(a: seq<string>, b: seq<string>, k: string)
    ensures LastTold(a + b, k) == if LastTold(b, k).Some? then LastTold(b, k) else LastTold(a, k)
  {
    if a == [] {
      assert a + b == b;
    } else {
      assert (a + b)[1..] == a[1..] + b;
      LastToldBoth(a[1..], b, k);
    }
  }

  // The texts after the one that has the value of entry `i`.
  function TextsAfter(es: seq<Entry>, i: nat): seq<string>
    requires i < |es|
  {
    (if PairPieces(es[i]) == [] then [] else PairPieces(es[i])[1..]) + LinePieces(es[i].layout.below) +
    AllPieces(es[i + 1..])
  }

  lemma {:induction false} AllPiecesAt(es: seq<Entry>, i: nat)
    requires i < |es| && PairPieces(es[i]) != []
    ensures exists before :: AllPieces(es) == before + ([PairPieces(es[i])[0]] + TextsAfter(es, i))
  {
    hide PairPieces, LinePieces;
    if i == 0 {
      var e, p := es[0], PairPieces(es[0]);
      var before := LinePieces(e.layout.above);
      FirstAndAfter(before, p, LinePieces(e.layout.below), AllPieces(es[1..]));
      assert TextsAfter(es, 0) == p[1..] + LinePieces(e.layout.below) + AllPieces(es[1..]);
      assert AllPieces(es) == before + ([PairPieces(es[i])[0]] + TextsAfter(es, i));
    } else {
      AllPiecesAt(es[1..], i - 1);
      assert es[1..][i..] == es[i + 1..];
      var rest :| AllPieces(es[1..]) == rest + ([PairPieces(es[i])[0]] + TextsAfter(es[1..], i - 1));
      Reassociate(Pieces(es[0]), rest, [PairPieces(es[i])[0]] + TextsAfter(es, i));
      assert AllPieces(es) == (Pieces(es[0]) + rest) + ([PairPieces(es[i])[0]] + TextsAfter(es, i));
    }
  }

  lemma FirstAndAfter(a: seq<string>, p: seq<string>, b: seq<string>, c: seq<string>)
    requires p != []
    ensures a + p + b + c == a + ([p[0]] + (p[1..] + b + c))
  {
    assert p == [p[0]] + p[1..];
  }

  /** The last word on the key of an entry: that of a note or an entry after its value, or else the value as it is
      read. */
  lemma LastWord(es: seq<Entry>, i: nat)
    requires i < |es| && WellFormed(es[i])
    ensures LastTold(AllPieces(es), es[i].key) ==
        if es[i].key in Told(TextsAfter(es, i)) then LastTold(TextsAfter(es, i), es[i].key)
        else Some(ValueRead(es[i]))
  {
    var first, after, k := PairPieces(es[i])[0], TextsAfter(es, i), es[i].key;
    FirstPieceReads(es[i]);
    AllPiecesAt(es, i);
    var before :| AllPieces(es) == before + ([first] + after);
    FirstTold(first, after, k, ValueText(es[i]));
    hide *;
    LastToldBoth(before, [first] + after, k);
  }

  lemma FirstTold(first: string, after: seq<string>, k: string, raw: string)
    requires KeyValue(first) == Some((k, raw))
    ensures LastTold([first] + after, k) == if k in Told(after) then LastTold(after, k) else Some(Literal(raw))
    ensures LastTold([first] + after, k).Some?
  {
    hide KeyValue, Literal;
    assert ([first] + after)[1..] == after;
    TagsOfLast(after, map[], k);
  }

  lemma {:induction false} AllTold(es: seq<Entry>)
    requires forall i :: 0 <= i < |es| ==> WellFormed(es[i])
    ensures Told(AllPieces(es)) == KeysOf(es) + AllInvented(es)
  {
    if es != [] {
      hide WellFormed, Pieces, Invented;
      AllTold(es[1..]);
      EntryReads(es[0], map[]);
      TagsOfTold(Pieces(es[0]), map[]);
      TagsOfTold(AllPieces(es), map[]);
      TagsOfTold(AllPieces(es[1..]), TagsOf(Pieces(es[0]), map[]));
      TagsOfBoth(Pieces(es[0]), AllPieces(es[1..]), map[]);
      hide TagsOf, Told, AllPieces;
      KeysOfRest(es);
    } else {
      assert KeysOf(es) == {};
    }
  }

  lemma KeysOfRest(es: seq<Entry>)
    requires es != []
    ensures KeysOf(es) == {es[0].key} + KeysOf(es[1..])
  {
    forall k | k in KeysOf(es) ensures k in {es[0].key} + KeysOf(es[1..]) {
      var i :| 0 <= i < |es| && es[i].key == k;
      if i > 0 { assert es[1..][i - 1].key == k; }
    }
    forall k | k in KeysOf(es[1..]) ensures k in KeysOf(es) {
      var j :| 0 <= j < |es[1..]| && es[1..][j].key == k;
      assert es[j + 1].key == k;
    }
  }

  /** With `//` notes that settle, a map of distinct keys reads back as intended exactly when the notes speak of no
      other keys, and the last word on each key is its intended value. */
  lemma NotedMapReadsBackExactly(es: seq<Entry>, rest: string)
    requires Legible(es) && DistinctKeys(es)
    ensures ReadTags("{" + Print(es) + "}" + rest) == Some(Intended(es, map[])) <==>
            AllInvented(es) <= KeysOf(es) &&
            forall i :: 0 <= i < |es| ==> LastTold(AllPieces(es), es[i].key) == Some(Meant(es[i]))
  {
    ReadsAsPieces(es, rest);
    AllRead(es);
    IntendedKeys(es);
    hide *;
    SameMapLastTold(es, TagsOf(AllPieces(es), map[]), Intended(es, map[]));
  }

  lemma AllRead(es: seq<Entry>)
    requires forall i :: 0 <= i < |es| ==> WellFormed(es[i])
    ensures var r, ps := TagsOf(AllPieces(es), map[]), AllPieces(es);
      && r.Keys == KeysOf(es) + AllInvented(es)
      && forall i :: 0 <= i < |es| ==> es[i].key in r && LastTold(ps, es[i].key) == Some(r[es[i].key])
  {
    var ps := AllPieces(es);
    AllTold(es);
    hide *;
    TagsOfTold(ps, map[]);
    KeysOfHas(es);
    var r := TagsOf(ps, map[]);
    assert r.Keys == KeysOf(es) + AllInvented(es);
    forall i | 0 <= i < |es| ensures es[i].key in r && LastTold(ps, es[i].key) == Some(r[es[i].key]) {
      TagsOfLast(ps, map[], es[i].key);
    }
  }

  lemma KeysOfHas(es: seq<Entry>)
    ensures forall i :: 0 <= i < |es| ==> es[i].key in KeysOf(es)
  {
  }

  lemma SameMapLastTold(es: seq<Entry>, r: map<string, string>, wanted: map<string, string>)
    requires r.Keys == KeysOf(es) + AllInvented(es) && wanted.Keys == KeysOf(es)
    requires forall i :: 0 <= i < |es| ==> es[i].key in wanted && wanted[es[i].key] == Meant(es[i])
    ensures r == wanted <==>
            AllInvented(es) <= KeysOf(es) &&
            forall i :: 0 <= i < |es| ==> es[i].key in r && r[es[i].key] == Meant(es[i])
  {
    hide Inner, AllInvented;
    assert r == wanted ==> r.Keys == wanted.Keys;
    if AllInvented(es) <= KeysOf(es) &&
       forall i :: 0 <= i < |es| ==> es[i].key in r && r[es[i].key] == Meant(es[i])
    {
      assert r.Keys == wanted.Keys;
      forall k | k in r ensures r[k] == wanted[k] {
        var i :| 0 <= i < |es| && es[i].key == k;
      }
    }
  }

  /** When the notes speak of none of the map's own keys, that is: no note speaks of a tag, and every value is read as
      intended in spite of the note beside it. */
  lemma UnrelatedNotesReadBackExactly(es: seq<Entry>, rest: string)
    requires Legible(es) && DistinctKeys(es) && KeysOf(es) !! AllInvented(es)
    ensures ReadTags("{" + Print(es) + "}" + rest) == Some(Intended(es, map[])) <==>
            AllInvented(es) == {} && forall i :: 0 <= i < |es| ==> ValueRead(es[i]) == Meant(es[i])
  {
    assert forall i :: 0 <= i < |es| ==> WellFormed(es[i]);
    hide ReadTags, Print, TagsOf, AllPieces, Legible, Intended, ValueRead, Inner, WellFormed, Reading, KeysOf,
        AllInvented;
    ReadsAsPieces(es, rest);
    MapReads(es, map[]);
    IntendedKeys(es);
    SameMapExactly(es, TagsOf(AllPieces(es), map[]), Intended(es, map[]));
  }

  lemma SameMapExactly(es: seq<Entry>, r: map<string, string>, wanted: map<string, string>)
    requires Reading(es, map[], r) && wanted.Keys == KeysOf(es) && KeysOf(es) !! AllInvented(es)
    requires forall i :: 0 <= i < |es| ==> wanted[es[i].key] == Meant(es[i])
    ensures r == wanted <==>
            AllInvented(es) == {} && forall i :: 0 <= i < |es| ==> ValueRead(es[i]) == Meant(es[i])
  {
    hide ValueRead, Inner, AllInvented;
    assert r == wanted ==> r.Keys == wanted.Keys;
    if AllInvented(es) == {} && forall i :: 0 <= i < |es| ==> ValueRead(es[i]) == Meant(es[i]) {
      forall k | k in r ensures r[k] == wanted[k] {
        var i :| 0 <= i < |es| && es[i].key == k;
      }
    }
  }

  // ----- Plain notes.

  // No quote, bracket, comma or hash.
  predicate PlainNote(note: string) {
    forall i :: 0 <= i < |note| ==> note[i] !in {'"', '{', '[', '(', ')', ']', '}', '#', '\n', ','}
  }

  lemma {:induction false} PlainEnd(note: string)
    requires PlainNote(note)
    ensures EndOf(note, 0, false) == (0, false)
  {
    if note != "" { PlainEnd(note[1..]); }
  }

  lemma PlainSplit(note: string)
    requires PlainNote(note)
    ensures Split(note, 0, false) == [note] && Settles(note)
  {
    PlainEnd(note);
    SplitPlain(note, "", 0);
    assert note + "" == note && Split("", 0, false) == [""] + [];
    PushClosed(note, []);
  }

  /** A plain `//` note on the line of a value makes the value unknown, whatever it is, and adds no tag. */
  lemma SlashCommentHidesValue(e: Entry)
    requires WellFormed(e) && Noted(e) && PlainNote(e.layout.end.note)
    ensures ValueRead(e) == UNKNOWN_VALUE && NoteInvented(e) == {}
  {
    PlainSplit(e.layout.end.note);
    RStripPrefix(e.layout.end.note);
    NotedValue(e);
    hide Split, WellFormed, Settles, Strip, Core, ValueRead;
    assert PairPieces(e)[1..] == Entries([]) == [];
  }

  // ----- Notes on lines of their own.

  lemma {:induction false} ToldBoth(a: seq<string>, b: seq<string>)
    ensures Told(a + b) == Told(a) + Told(b)
  {
    if a == [] {
      assert a + b == b;
    } else {
      assert (a + b)[1..] == a[1..] + b;
      ToldBoth(a[1..], b);
      hide KeyValue;
    }
  }

  // The `//` lines settle and speak of no tag.
  predicate SilentLines(ls: seq<Line>) {
    forall i :: 0 <= i < |ls| && ls[i].end.Slash? ==> Settles(ls[i].end.note) && Told(LineTexts(ls[i].end)) == {}
  }

  lemma {:induction false} SilentLinesTell(ls: seq<Line>)
    requires SilentLines(ls)
    ensures Told(LinePieces(ls)) == {} && SettledLines(ls)
  {
    hide LineTexts, Settles;
    if ls != [] {
      SilentLinesTell(ls[1..]);
      ToldBoth(LineTexts(ls[0].end), LinePieces(ls[1..]));
      forall i | 0 <= i < |ls| ensures SettledEnd(ls[i].end) {
        if i > 0 { assert ls[1..][i - 1] == ls[i] && SettledEnd(ls[1..][i - 1].end); }
      }
      assert ls[0].end.Slash? || LineTexts(ls[0].end) == [] by { NoTexts(ls[0].end); }
    }
  }

  lemma NoTexts(end: Separator)
    ensures !end.Slash? ==> LineTexts(end) == []
  {}

  lemma {:induction false} LStripPrefix(p: string, s: string)
    requires p <= s && LStrip(p) != ""
    ensures LStrip(s) != "" && LStrip(s)[0] == LStrip(p)[0]
  {
    if Space(p[0]) { LStripPrefix(p[1..], s[1..]); }
  }

  // Two slashes and a text that starts with neither a key character nor an assignment are no entry.
  lemma SlashesAreNoEntry(t: string)
    requires t == "" || !KeyChar(t[0])
    requires LStrip(t) == "" || LStrip(t)[0] !in {'=', ':'}
    ensures KeyValue("//" + t) == None
  {
    var s := "//" + t;
    assert s[1..] == "/" + t && s[2..] == t && (s[1..])[1..] == t;
    assert KeyRun(t) == 0 && KeyRun(s[1..]) == 1 && KeyRun(s) == 2;
    assert Assigned(t) == None && Assigned(s[1..]) == None;
    assert BareKey(s, 1) == None;
  }

  /** A `//` comment on a line of its own speaks of no tag if white space follows the slashes, no assignment sign comes
      first, and no comma or hash outside quotes and brackets cuts it. */
  lemma SpacedCommentIsSilent(note: string)
    requires Split(note, 0, false) == [note] && (note == "" || Space(note[0]))
    requires LStrip(note) == "" || LStrip(note)[0] !in {'=', ':'}
    ensures Told(LineTexts(Slash(note))) == {}
  {
    var stuck := RStrip(note);
    RStripPrefix(note);
    if LStrip(stuck) != "" { LStripPrefix(stuck, note); }
    hide Split;
    SlashesAreNoEntry(stuck);
    hide KeyValue, RStrip;
    StripGlued("//", note);
    assert Push("//", [note]) == ["//" + note] && ["//" + note][1..] == [];
    assert LineTexts(Slash(note)) == ["//" + stuck] + Entries([]);
    assert Entries([]) == [] && ["//" + stuck] + [] == ["//" + stuck] && ["//" + stuck][1..] == [];
  }

  // The notes beside values are plain, and the others speak of no tag.
  ghost predicate PlainlyNotedEntry(e: Entry) {
    && (e.layout.end.Slash? ==> Noted(e) && PlainNote(e.layout.end.note))
    && SilentLines(e.layout.above) && SilentLines(e.layout.below)
  }

  ghost predicate PlainlyNoted(es: seq<Entry>) {
    forall i :: 0 <= i < |es| ==> PlainlyNotedEntry(es[i])
  }

  lemma PlainEntryReads(e: Entry)
    requires WellFormed(e) && PlainlyNotedEntry(e)
    ensures Invented(e) == {} && SettledNotes(e.layout)
    ensures ValueRead(e) == if e.layout.end.Slash? then UNKNOWN_VALUE else Meant(e)
  {
    SilentLinesTell(e.layout.above);
    SilentLinesTell(e.layout.below);
    hide LinePieces, Told, SettledLines, SilentLines;
    if e.layout.end.Slash? {
      PlainSplit(e.layout.end.note);
      SlashCommentHidesValue(e);
    } else {
      CoreReadsBack(e);
      assert PairPieces(e)[1..] == [];
      NothingTold();
    }
  }

  lemma NothingTold()
    ensures Told([]) == {}
  {}

  /** What is read of a map whose `//` notes beside values are plain, and whose others speak of no tag: exactly its
      keys, with every value that has a note beside it unknown. */
  lemma PlainNotesRead(es: seq<Entry>, rest: string)
    requires WellPrinted(es) && DistinctKeys(es) && PlainlyNoted(es)
    ensures var r := ReadTags("{" + Print(es) + "}" + rest);
      && r.Some? && r.value.Keys == KeysOf(es)
      && forall i :: 0 <= i < |es| ==>
           es[i].key in r.value &&
           r.value[es[i].key] == if es[i].layout.end.Slash? then UNKNOWN_VALUE else Meant(es[i])
  {
    hide Print, ReadTags, Inner, ValueRead, Invented, SettledNotes, AllPieces, TagsOf, WellFormed, PlainlyNotedEntry;
    forall i | 0 <= i < |es|
      ensures Invented(es[i]) == {} && SettledNotes(es[i].layout)
      ensures ValueRead(es[i]) == if es[i].layout.end.Slash? then UNKNOWN_VALUE else Meant(es[i])
    {
      PlainEntryReads(es[i]);
    }
    NothingInvented(es);
    ReadsAsPieces(es, rest);
    MapReads(es, map[]);
  }

  /** It reads back as intended exactly when the values with a note beside them are unknown anyway. */
  lemma PlainNotesReadBackExactly(es: seq<Entry>, rest: string)
    requires WellPrinted(es) && DistinctKeys(es) && PlainlyNoted(es)
    ensures ReadTags("{" + Print(es) + "}" + rest) == Some(Intended(es, map[])) <==>
            forall i :: 0 <= i < |es| && es[i].layout.end.Slash? ==> Meant(es[i]) == UNKNOWN_VALUE
  {
    PlainNotesRead(es, rest);
    IntendedKeys(es);
    var r, wanted := ReadTags("{" + Print(es) + "}" + rest).value, Intended(es, map[]);
    assert forall k :: k in KeysOf(es) ==> exists i :: 0 <= i < |es| && es[i].key == k;
    hide *;
    SameTags(es, r, wanted);
  }

  lemma SameTags(es: seq<Entry>, r: map<string, string>, wanted: map<string, string>)
    requires r.Keys == wanted.Keys && forall k :: k in r ==> exists i :: 0 <= i < |es| && es[i].key == k
    requires forall i :: 0 <= i < |es| ==> es[i].key in r && wanted[es[i].key] == Meant(es[i])
    requires forall i :: 0 <= i < |es| ==>
               r[es[i].key] == if es[i].layout.end.Slash? then UNKNOWN_VALUE else Meant(es[i])
    ensures r == wanted <==>
            forall i :: 0 <= i < |es| && es[i].layout.end.Slash? ==> Meant(es[i]) == UNKNOWN_VALUE
  {
    hide *;
    if forall i :: 0 <= i < |es| && es[i].layout.end.Slash? ==> Meant(es[i]) == UNKNOWN_VALUE {
      forall k | k in r ensures r[k] == wanted[k] {
        var i :| 0 <= i < |es| && es[i].key == k;
      }
      assert r == wanted;
    }
  }

  lemma {:induction false} NothingInvented(es: seq<Entry>)
    requires forall i :: 0 <= i < |es| ==> Invented(es[i]) == {}
    ensures AllInvented(es) == {}
  {
    if es != [] { NothingInvented(es[1..]); }
  }

  // ----- Notes that do worse.

  lemma {:induction false} EndString(v: string, s: string, d: int)
    requires WellEscaped(v)
    ensures EndOf(v + ("\"" + s), d, true) == EndOf(s, d, false)
  {
    var t := "\"" + s;
    if v == "" {
      assert v + t == t && t[1..] == s;
    } else {
      var k := if v[0] == '\\' then 2 else 1;
      assert (v + t)[k..] == v[k..] + t;
      EndString(v[k..], s, d);
    }
  }

  lemma EndQuoted(v: string, s: string, d: int)
    requires WellEscaped(v)
    ensures EndOf(Quote(v) + s, d, false) == EndOf(s, d, false)
  {
    assert (Quote(v) + s)[1..] == v + ("\"" + s);
    EndString(v, s, d);
  }

  lemma {:induction false} EndPlain(w: string, s: string, d: int)
    requires PlainNote(w)
    ensures EndOf(w + s, d, false) == EndOf(s, d, false)
  {
    if w == "" {
      assert w + s == s;
    } else {
      assert (w + s)[1..] == w[1..] + s;
      EndPlain(w[1..], s, d);
    }
  }

  lemma {:induction false} EndDeep(t: string, s: string, d: int)
    requires Bland(t) && d >= 1
    ensures EndOf(t + s, d, false) == EndOf(s, d, false)
  {
    if t == "" {
      assert t + s == s;
    } else {
      assert (t + s)[1..] == t[1..] + s;
      EndDeep(t[1..], s, d);
    }
  }

  lemma {:induction false} EndExpr(x: Expr, top: bool, s: string, d: int)
    requires Sound(x, top) && d >= 0 && (d == 0 ==> top)
    ensures EndOf(Show(x) + s, d, false) == EndOf(s, d, false)
    decreases x
  {
    match x
    case Bit(t) => if d == 0 { EndPlain(t, s, d); } else { EndDeep(t, s, d); }
    case Quoted(t) => EndQuoted(t, s, d);
    case Group(open, inner) =>
      var after := [Closing(open)] + s;
      EndExpr(inner, false, after, d + 1);
      GroupText(open, inner, s);
      assert ([open] + (Show(inner) + after))[1..] == Show(inner) + after && after[1..] == s;
    case Both(left, right) =>
      ThreeTexts(Show(left), Show(right), s);
      EndExpr(left, top, Show(right) + s, d);
      EndExpr(right, top, s, d);
  }

  lemma EndCore(e: Entry)
    requires WellFormed(e)
    ensures EndOf(Core(e), 0, false) == (0, false)
  {
    hide EndOf, WellEscaped, PlainValue, BareText;
    var l := e.layout;
    var mid, t := l.left + [l.sign] + l.right, ValueOf(e);
    assert Core(e) == KeyText(e) + (mid + t);
    if l.bare {
      BareTextMeans(e.key);
      assert forall i :: 0 <= i < |e.key| ==> KeyChar(e.key[i]);
      EndPlain(e.key, mid + t, 0);
    } else {
      EndQuoted(e.key, mid + t, 0);
    }
    EndPlain(mid, t, 0);
    EndValue(e);
  }

  lemma EndValue(e: Entry)
    requires WellFormed(e)
    ensures EndOf(ValueOf(e), 0, false) == (0, false)
  {
    var t := ValueOf(e);
    assert t + "" == t;
    if e.layout.plain && PlainValue(e.value) {
      PlainChars(e.value);
      EndPlain(t, "", 0);
    } else if e.layout.plain {
      var x: Expr :| Show(x) == e.value && Sound(x, true);
      EndExpr(x, true, "", 0);
    } else {
      EndQuoted(e.value, "", 0);
    }
    EndNothing(0);
  }

  lemma EndNothing(d: int)
    ensures EndOf("", d, false) == (d, false)
  {}

  lemma SplitOneCore(e: Entry)
    requires WellFormed(e)
    ensures Split(Core(e), 0, false) == [Core(e)]
  {
    SplitCore(e, "", 0);
    assert Core(e) + "" == Core(e) && Split("", 0, false) == [""] + [];
    PushClosed(Core(e), []);
  }

  // No lines around the entry.
  predicate Alone(e: Entry) {
    e.layout.above == [] && e.layout.below == []
  }

  lemma ReadsOne(e: Entry, rest: string)
    requires WellFormed(e) && Alone(e) && e.layout.end.Slash? && Settles(e.layout.end.note)
    ensures ReadTags("{" + Print([e]) + "}" + rest) == Some(TagsOf(PairPieces(e), map[]))
  {
    assert SettledNotes(e.layout) && Pieces(e) == [] + PairPieces(e) + [] == PairPieces(e);
    hide Settles, PairPieces, SettledNotes, ReadTags, TagsOf, Pieces;
    ReadsAsPieces([e], rest);
    assert [e][1..] == [] && AllPieces([e]) == Pieces(e) + [] == Pieces(e);
  }

  lemma TagsOfOne(p: string, k: string, raw: string)
    requires KeyValue(p) == Some((k, raw))
    ensures TagsOf([p], map[]) == map[k := Literal(raw)]
  {
    hide KeyValue, Literal;
    assert [p][1..] == [];
  }

  lemma TagsOfTwo(p: string, k: string, raw: string, q: string, k2: string, raw2: string)
    requires KeyValue(p) == Some((k, raw)) && KeyValue(q) == Some((k2, raw2))
    ensures TagsOf([p, q], map[]) == map[k := Literal(raw), k2 := Literal(raw2)]
  {
    hide KeyValue, Literal;
    assert [p, q][1..] == [q] && [q][1..] == [];
    assert TagsOf([q], map[k := Literal(raw)]) == map[k := Literal(raw)][k2 := Literal(raw2)];
  }

  // The texts of an entry with a note on its line, given how the note is split.
  lemma NotedPieces(e: Entry, first: string, more: seq<string>)
    requires WellFormed(e) && Noted(e) && Split(e.layout.end.note, 0, false) == [first] + more
    ensures PairPieces(e) == [Head(e) + ValueText(e)] + Entries(more) && Stuck(e) == RStrip(first)
  {
    hide Split, Entries, Head, ValueText;
    FirstPieceIs(e);
    assert ([first] + more)[1..] == more;
  }

  lemma CommaSplit(ghostly: Entry)
    requires WellFormed(ghostly)
    ensures Split("," + Core(ghostly), 0, false) == [""] + [Core(ghostly)] && Settles("," + Core(ghostly))
  {
    EndCore(ghostly);
    SplitSeparator(',', Core(ghostly));
    SplitOneCore(ghostly);
    hide Split, Core;
    assert ("," + Core(ghostly))[1..] == Core(ghostly);
  }

  /** A pair that a note has commented out after a comma is read as a tag. */
  lemma NoteMakesTag(e: Entry, ghostly: Entry, rest: string)
    requires WellFormed(e) && Alone(e) && Noted(e) && WellFormed(ghostly) && e.layout.end.note == "," + Core(ghostly)
    ensures ReadTags("{" + Print([e]) + "}" + rest) ==
        Some(map[e.key := UNKNOWN_VALUE, ghostly.key := Meant(ghostly)])
  {
    hide Split, Core, Literal, KeyValue, ReadTags, Entries, WellFormed, Head, Settles, Inner, Print, TagsOf;
    CommaSplit(ghostly);
    ReadsOne(e, rest);
    NotedPieces(e, "", [Core(ghostly)]);
    NotedValue(e);
    HeadReadsBack(e, ValueText(e));
    CoreIsTight(ghostly);
    TightEntry(Core(ghostly));
    CoreReadsBack(ghostly);
    assert PairPieces(e) == [Head(e) + ValueText(e), Core(ghostly)];
    assert Stuck(e) == "";
    TagsOfTwo(Head(e) + ValueText(e), e.key, ValueText(e), Core(ghostly), ghostly.key, ValueOf(ghostly));
  }

  /** A note that repeats the key with the intended value makes up for the value it hides. */
  lemma NoteRepeatsPair(e: Entry, ghostly: Entry, rest: string)
    requires WellFormed(e) && Alone(e) && Noted(e) && WellFormed(ghostly) && e.layout.end.note == "," + Core(ghostly)
    requires ghostly.key == e.key
    ensures ReadTags("{" + Print([e]) + "}" + rest) == Some(Intended([e], map[])) <==>
            Meant(ghostly) == Meant(e)
  {
    NoteMakesTag(e, ghostly, rest);
    IntendedOne([e]);
    hide *;
    var wanted, read := Intended([e], map[]), map[e.key := UNKNOWN_VALUE, ghostly.key := Meant(ghostly)];
    assert read == map[e.key := Meant(ghostly)];
    assert read == wanted ==> read[e.key] == wanted[e.key];
  }

  lemma IntendedOne(es: seq<Entry>)
    requires |es| == 1
    ensures Intended(es, map[]) == map[es[0].key := Meant(es[0])]
  {
    hide Inner;
    assert es[1..] == [];
  }

  // A pair with a bare key on a line after two slashes.
  lemma CommentedCore(ghostly: Entry)
    requires WellFormed(ghostly) && ghostly.layout.bare
    ensures Tight("//" + Core(ghostly))
    ensures KeyValue("//" + Core(ghostly)) == Some(("//" + ghostly.key, ValueOf(ghostly)))
  {
    var name, l := "//" + ghostly.key, ghostly.layout;
    CoreIsTight(ghostly);
    BareTextMeans(ghostly.key);
    ValuesAreValueLike(ghostly);
    forall i | 0 <= i < |name| ensures KeyChar(name[i]) { assert i >= 2 ==> KeyChar(ghostly.key[i - 2]); }
    CommentedText(ghostly);
    hide *;
    BareKeyReadsBack(name, l, ValueOf(ghostly));
  }

  lemma CommentedText(e: Entry)
    requires e.layout.bare
    ensures "//" + Core(e) == ("//" + e.key) + (e.layout.left + [e.layout.sign] + e.layout.right + ValueOf(e))
  {
    hide ValueOf;
    var mid := e.layout.left + [e.layout.sign] + e.layout.right;
    assert Core(e) == e.key + mid + ValueOf(e);
    hide Core;
    FiveTexts("//", e.key, mid, ValueOf(e), "");
  }

  /** So a whole pair that is commented out with a space after the slashes is ignored. */
  lemma SpacedPairIsSilent(ghostly: Entry)
    requires WellFormed(ghostly) && (ghostly.layout.bare ==> ghostly.key[0] != ':')
    ensures SilentLines([Line("", Slash(" " + Core(ghostly)))])
  {
    var note := " " + Core(ghostly);
    SplitOneSpaced(ghostly);
    CoreIsTight(ghostly);
    CoreStart(ghostly);
    hide Split, EndOf, Core, WellFormed, Told, LineTexts;
    assert LStrip(note) == LStrip(note[1..]) == LStrip(Core(ghostly)) == Core(ghostly);
    SpacedCommentIsSilent(note);
  }

  lemma SplitOneSpaced(e: Entry)
    requires WellFormed(e)
    ensures Settles(" " + Core(e)) && Split(" " + Core(e), 0, false) == [" " + Core(e)]
  {
    EndCore(e);
    SplitOneCore(e);
    assert PlainNote(" ");
    EndPlain(" ", Core(e), 0);
    SplitPlain(" ", Core(e), 0);
    hide Split, EndOf, Core, WellFormed;
    assert Push(" ", [Core(e)]) == [" " + Core(e)];
  }

  lemma CoreStart(e: Entry)
    requires WellFormed(e) && (e.layout.bare ==> e.key[0] != ':')
    ensures Core(e) != "" && Core(e)[0] !in {'=', ':'}
  {
    assert Core(e)[0] == KeyText(e)[0];
    if e.layout.bare {
      BareTextMeans(e.key);
      assert KeyChar(e.key[0]);
    }
    hide BareText, PlainValue, WellEscaped, WellLaid, ValueOf;
  }

  lemma BelowPieces(e: Entry, line: string)
    requires e.layout.end.Slash? && !OneLine(e.layout.trail)
    requires Split(e.layout.end.note, 0, false) == [line] && Tight("//" + line)
    ensures PairPieces(e) == [Core(e), "//" + line]
  {
    hide Split, Core;
    TightEntry("//" + line);
    hide Entries;
    assert Push("//", [line]) == ["//" + line];
  }

  /** A line of its own that comments out a bare key becomes a tag whose name starts with the slashes. */
  lemma CommentedLineMakesTag(e: Entry, ghostly: Entry, rest: string)
    requires WellFormed(e) && Alone(e) && e.layout.end.Slash? && !OneLine(e.layout.trail)
    requires WellFormed(ghostly) && ghostly.layout.bare && e.layout.end.note == Core(ghostly)
    ensures ReadTags("{" + Print([e]) + "}" + rest) ==
            Some(map[e.key := Meant(e), "//" + ghostly.key := Meant(ghostly)])
  {
    hide Split, Core, Literal, KeyValue, ReadTags, Entries, WellFormed, Inner, Print, TagsOf, PairPieces, OneLine,
        Tight;
    EndCore(ghostly);
    SplitOneCore(ghostly);
    ReadsOne(e, rest);
    CoreReadsBack(e);
    CoreReadsBack(ghostly);
    CommentedCore(ghostly);
    BelowPieces(e, Core(ghostly));
    TagsOfTwo(Core(e), e.key, ValueOf(e), "//" + Core(ghostly), "//" + ghostly.key, ValueOf(ghostly));
  }

  lemma QuotedNote(x: string)
    requires WellEscaped(x)
    ensures Split(Quote(x), 0, false) == [Quote(x)] + [] && Settles(Quote(x)) && RStrip(Quote(x)) == Quote(x)
  {
    EndQuoted(x, "", 0);
    EndNothing(0);
    SplitQuoted(x, "", 0);
    assert Split("", 0, false) == [""] + [];
    hide Split, EndOf;
    assert Quote(x) + "" == Quote(x);
    PushClosed(Quote(x), []);
  }

  /** A note that ends in a quote becomes part of the value. */
  lemma NoteJoinsValue(e: Entry, x: string, rest: string)
    requires WellFormed(e) && Alone(e) && Noted(e) && WellEscaped(x) && e.layout.end.note == Quote(x)
    ensures ReadTags("{" + Print([e]) + "}" + rest) ==
            Some(map[e.key := Inner(e.value + "\"" + e.layout.trail + "//\"" + x)])
  {
    assert Entries([]) == [];
    hide Split, Core, Literal, KeyValue, ReadTags, Entries, WellFormed, Head, Settles, Inner, Print, TagsOf,
        WellEscaped;
    QuotedNote(x);
    ReadsOne(e, rest);
    NotedPieces(e, Quote(x), []);
    NotedValue(e);
    HeadReadsBack(e, ValueText(e));
    assert PairPieces(e) == [Head(e) + ValueText(e)];
    TagsOfOne(Head(e) + ValueText(e), e.key, ValueText(e));
    BetweenQuoted(e, x);
  }

  lemma BetweenQuoted(e: Entry, x: string)
    requires Noted(e) && Stuck(e) == Quote(x)
    ensures EndsQuoted(Stuck(e)) && Between(e) == e.value + "\"" + e.layout.trail + "//\"" + x
  {
    hide Stuck, Noted;
    FrontOfQuote(x);
    var v := e.value + "\"" + e.layout.trail;
    assert v + "//" + ("\"" + x) == v + "//\"" + x;
  }

  lemma FrontOfQuote(x: string)
    ensures EndsQuoted(Quote(x)) && Quote(x)[..|Quote(x)| - 1] == "\"" + x
  {}

  // An entry with an open bracket in its note, and the entry on the next line.
  function OpenNote(e: Entry, next: Entry): string {
    Core(e) + e.layout.trail + "//(\n" + Core(next)
  }

  lemma OpenEnd()
    ensures Split("\n", 1, false) == ["\n"]
  {
    assert "\n"[1..] == "" && "\n"[..1] == "\n" && Split("", 1, false) == [""] + [];
    PushClosed("\n", []);
  }

  lemma SplitBracket(t: string, d: int)
    ensures Split("(" + t, d, false) == Push("(", Split(t, d + 1, false))
  {
    assert ("(" + t)[1..] == t && ("(" + t)[..1] == "(";
  }

  lemma SplitInnerNewline(t: string, d: int)
    requires d != 0
    ensures Split("\n" + t, d, false) == Push("\n", Split(t, d, false))
  {
    assert ("\n" + t)[1..] == t && ("\n" + t)[..1] == "\n";
  }

  // From the open bracket to the end of the next entry, where the bracket is still open.
  lemma SplitOpenTail(next: Entry)
    requires WellFormed(next)
    ensures Split("(" + ("\n" + (Core(next) + "\n")), 0, false) == ["(\n" + Core(next) + "\n"]
  {
    hide Split, Core, WellFormed;
    SplitBracket("\n" + (Core(next) + "\n"), 0);
    SplitInnerNewline(Core(next) + "\n", 1);
    SplitCore(next, "\n", 1);
    OpenEnd();
    PushPush("\n", Core(next), ["\n"]);
    PushPush("(", "\n" + Core(next), ["\n"]);
    assert "(" + ("\n" + Core(next)) + "\n" == "(\n" + Core(next) + "\n";
  }

  lemma SplitOpenNote(e: Entry, next: Entry)
    requires WellFormed(e) && WellFormed(next) && OneLine(e.layout.trail)
    ensures Split(OpenNote(e, next) + "\n", 0, false) == [OpenNote(e, next) + "\n"]
  {
    var mid, tail := e.layout.trail + "//", "(" + ("\n" + (Core(next) + "\n"));
    assert forall i :: 0 <= i < |mid| ==> mid[i] !in {'"', '{', '[', '(', ')', ']', '}', '#', '\n', ','};
    hide Split, Core, WellFormed;
    SplitCore(e, mid + tail, 0);
    SplitPlain(mid, tail, 0);
    SplitOpenTail(next);
    OpenNoteParts(Core(e), e.layout.trail, Core(next));
  }

  lemma OpenNoteParts(core: string, trail: string, next: string)
    ensures core + trail + "//(\n" + next + "\n" == core + (trail + "//" + ("(" + ("\n" + (next + "\n"))))
    ensures Push(core, Push(trail + "//", ["(\n" + next + "\n"])) == [core + trail + "//(\n" + next + "\n"]
  {
    assert core + ((trail + "//") + ("(\n" + next + "\n")) == core + trail + "//(\n" + next + "\n";
  }

  // The text that the value is read from.
  function OpenValue(e: Entry, next: Entry): string {
    e.value + "\"" + e.layout.trail + "//(\n" + Head(next) + "\"" + next.value
  }

  lemma OpenNoteText(e: Entry, next: Entry)
    requires !e.layout.plain && !next.layout.plain
    ensures OpenNote(e, next) == Head(e) + Quote(OpenValue(e, next))
  {
    hide Head;
    var v, t, h, n := e.value, e.layout.trail, Head(next), next.value;
    assert Core(e) == Head(e) + Quote(v) && Core(next) == h + Quote(n);
    hide Core;
    OpenTexts(Head(e), v, t, h, n);
  }

  lemma OpenTexts(a: string, v: string, t: string, h: string, n: string)
    ensures (a + Quote(v)) + t + "//(\n" + (h + Quote(n)) == a + Quote(v + "\"" + t + "//(\n" + h + "\"" + n)
  {
    FiveTexts(a, Quote(v), t, "//(\n", h + Quote(n));
    assert Quote(v) + t + "//(\n" + (h + Quote(n)) == Quote(v + "\"" + t + "//(\n" + h + "\"" + n);
  }

  lemma OneEntry(line: string, text: string)
    requires Strip(line) == text && text != ""
    ensures Entries([line]) == [text]
  {
    assert [line][1..] == [] && [text] + [] == [text];
  }

  lemma OpenNoteTight(e: Entry, next: Entry)
    requires WellFormed(e) && !next.layout.plain
    ensures Entries([OpenNote(e, next) + "\n"]) == [OpenNote(e, next)]
  {
    CoreIsTight(e);
    var text := OpenNote(e, next);
    assert Core(next)[|Core(next)| - 1] == '"' && text[|text| - 1] == Core(next)[|Core(next)| - 1];
    assert text[0] == Core(e)[0] && Blank("\n");
    hide Entries, OpenNote;
    StripTight(text, "\n");
    OneEntry(text + "\n", text);
  }

  /** A note with an open bracket swallows the next entry: its tag is gone, and its text ends up in the value. */
  lemma OpenNoteSwallowsNext(e: Entry, next: Entry, rest: string)
    requires WellFormed(e) && Alone(e) && Noted(e) && e.layout.lead == "" && e.layout.end.note == "("
    requires WellFormed(next) && Alone(next) && next.layout.lead == "" && next.layout.trail == ""
    requires next.layout.end == Newline && !next.layout.plain
    ensures ReadTags("{" + Print([e, next]) + "}" + rest) == Some(map[e.key := Inner(OpenValue(e, next))])
  {
    hide Split, Core, Literal, KeyValue, ReadTags, Entries, WellFormed, Head, Inner, Print, TagsOf, Close, OpenNote,
        OpenValue;
    assert !e.layout.plain by { SlashesStandByQuotes(e); }
    var es, raw := [e, next], Quote(OpenValue(e, next));
    CloseEntries(es, "}" + rest, 1);
    CloseAtBrace(rest);
    PrintTwo(e, next);
    ReadBody(Print(es), rest);
    SplitOpenNote(e, next);
    OpenNoteTight(e, next);
    OpenNoteText(e, next);
    HeadReadsBack(e, raw);
    QuoteReadsBack(OpenValue(e, next));
    TagsOfOne(OpenNote(e, next), e.key, raw);
  }

  lemma CloseAtBrace(rest: string)
    ensures Close("}" + rest, 1, Code) == 0
  {}

  lemma PrintAlone(e: Entry)
    requires Alone(e) && e.layout.lead == ""
    ensures PrintEntry(e) == Core(e) + (e.layout.trail + End(e.layout.end))
  {
    hide Core, End;
    assert PrintEntry(e) == "" + PrintPair(e) + "" == PrintPair(e);
  }

  lemma PrintTwo(e: Entry, next: Entry)
    requires Alone(e) && e.layout.lead == "" && e.layout.end == Slash("(")
    requires Alone(next) && next.layout.lead == "" && next.layout.trail == "" && next.layout.end == Newline
    ensures Print([e, next]) == OpenNote(e, next) + "\n"
  {
    PrintAlone(e);
    PrintAlone(next);
    assert [e, next][1..] == [next] && [next][1..] == [];
    assert Print([next]) == PrintEntry(next) + "";
    assert Print([e, next]) == PrintEntry(e) + Print([next]);
    OpenEndText(e.layout.end, "(");
    hide Core, PrintEntry, Print, End;
    OpenNotePrinted(Core(e), e.layout.trail, Core(next));
  }

  lemma OpenEndText(end: Separator, note: string)
    requires end == Slash(note) && note == "("
    ensures End(end) == "//(\n"
  {
    assert End(end) == "//" + note + "\n";
    assert "//" + "(" + "\n" == "//(\n";
  }

  lemma OpenNotePrinted(core: string, trail: string, next: string)
    ensures core + (trail + "//(\n") + (next + ("" + "\n") + "") == core + trail + "//(\n" + next + "\n"
  {
    assert "" + "\n" == "\n";
  }
}
