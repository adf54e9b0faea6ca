/** Text as Python compares and strips it. */
module Text {

  // ----- Order: code point by code point, a proper prefix first.

  predicate TextLess(a: string, b: string) {
    b != [] && (a == [] || a[0] < b[0] || (a[0] == b[0] && TextLess(a[1..], b[1..])))
  }

  lemma {:induction false} Irreflexive(a: string)
    ensures !TextLess(a, a)
  {
    if a != [] { Irreflexive(a[1..]); }
  }

  lemma {:induction false} Asymmetric(a: string, b: string)
    requires TextLess(a, b)
    ensures !TextLess(b, a)
  {
    if a != [] && a[0] == b[0] { Asymmetric(a[1..], b[1..]); }
  }

  lemma {:induction false} Transitive(a: string, b: string, c: string)
    requires TextLess(a, b) && TextLess(b, c)
    ensures TextLess(a, c)
  {
    if a != [] && a[0] == b[0] == c[0] { Transitive(a[1..], b[1..], c[1..]); }
  }

  lemma {:induction false} Total(a: string, b: string)
    ensures a == b || TextLess(a, b) || TextLess(b, a)
  {
    if a != [] && b != [] && a[0] == b[0] {
      Total(a[1..], b[1..]);
      assert a == [a[0]] + a[1..] && b == [b[0]] + b[1..];
    }
  }

  // A common prefix does not decide.
  lemma {:induction false} SkipPrefix(p: string, a: string, b: string)
    ensures TextLess(p + a, p + b) == TextLess(a, b)
  {
    if p == [] {
      assert p + a == a && p + b == b;
    } else {
      assert (p + a)[1..] == p[1..] + a && (p + b)[1..] == p[1..] + b;
      SkipPrefix(p[1..], a, b);
    }
  }

  // Between texts of equal length the first difference decides, whatever follows.
  lemma {:induction false} DecidedEarly(a: string, b: string, x: string, y: string)
    requires |a| == |b| && TextLess(a, b)
    ensures TextLess(a + x, b + y)
  {
    assert (a + x)[1..] == a[1..] + x && (b + y)[1..] == b[1..] + y;
    if a[0] == b[0] { DecidedEarly(a[1..], b[1..], x, y); }
  }

  // ----- White space, as `str.strip` and `\s` see it.

  predicate Space(c: char) {
    var n := c as int;
    || 0x9 <= n <= 0xD || 0x1C <= n <= 0x20 || n == 0x85 || n == 0xA0 || n == 0x1680
    || 0x2000 <= n <= 0x200A || n in {0x2028, 0x2029, 0x202F, 0x205F, 0x3000}
  }

  predicate Blank(s: string) {
    forall i :: 0 <= i < |s| ==> Space(s[i])
  }

  function LStrip(s: string): string {
    if s != "" && Space(s[0]) then LStrip(s[1..]) else s
  }

  function RStrip(s: string): string {
    if s != "" && Space(s[|s| - 1]) then RStrip(s[..|s| - 1]) else s
  }

  function Strip(s: string): string {
    RStrip(LStrip(s))
  }

  // The white-space characters, one by one.
  const WHITE: set<char> :=
    {'\U{0009}', '\U{000A}', '\U{000B}', '\U{000C}', '\U{000D}', '\U{001C}', '\U{001D}', '\U{001E}', '\U{001F}',
     ' ', '\U{0085}', '\U{00A0}', '\U{1680}', '\U{2000}', '\U{2001}', '\U{2002}', '\U{2003}', '\U{2004}',
     '\U{2005}', '\U{2006}', '\U{2007}', '\U{2008}', '\U{2009}', '\U{200A}', '\U{2028}', '\U{2029}', '\U{202F}',
     '\U{205F}', '\U{3000}'}

  predicate White(s: string) {
    forall i :: 0 <= i < |s| ==> s[i] in WHITE
  }

  lemma SpacesAreWhite(c: char)
    ensures Space(c) <==> c in WHITE
  {
  }

  lemma {:induction false} LStripMeans(s: string) returns (a: string)
    ensures s == a + LStrip(s) && White(a) && (LStrip(s) != "" ==> LStrip(s)[0] !in WHITE)
  {
    a := "";
    if s != "" {
      SpacesAreWhite(s[0]);
      if Space(s[0]) {
        a := LStripMeans(s[1..]);
        a := [s[0]] + a;
      }
    }
  }

  lemma {:induction false} RStripMeans(s: string) returns (b: string)
    ensures s == RStrip(s) + b && White(b) && (RStrip(s) != "" ==> RStrip(s)[|RStrip(s)| - 1] !in WHITE)
  {
    b := "";
    if s != "" {
      SpacesAreWhite(s[|s| - 1]);
      if Space(s[|s| - 1]) {
        b := RStripMeans(s[..|s| - 1]);
        b := b + [s[|s| - 1]];
      }
    }
  }

  /** Stripping takes white space off both ends, and all of it. */
  lemma StripMeans(s: string) returns (a: string, b: string)
    ensures s == a + Strip(s) + b && White(a) && White(b)
    ensures Strip(s) != "" ==> Strip(s)[0] !in WHITE && Strip(s)[|Strip(s)| - 1] !in WHITE
  {
    a := LStripMeans(s);
    b := RStripMeans(LStrip(s));
    assert Strip(s) != "" ==> Strip(s)[0] == LStrip(s)[0];
  }
}
