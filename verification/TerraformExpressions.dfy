/** Values that are expressions: when they count as unknown, and when they do not. */
module TerraformExpressions {
  import opened Wrappers
  import opened Text
  import opened TerraformLexer
  import opened TerraformTags

  // The text between the first and the last character.
  function Inside(v: string): string
    requires |v| >= 2
  {
    v[1..|v| - 1]
  }

  // Starts and ends with a quote, with no interpolation in between.
  predicate LooksQuoted(v: string) {
    && |v| >= 2 && v[0] == '"' && v[|v| - 1] == '"'
    && forall i :: 1 <= i < |v| - 2 ==> !(v[i] == '$' && v[i + 1] == '{')
  }

  lemma ContainsMeans(v: string)
    requires |v| >= 2
    ensures Contains(Inside(v), "${") <==> exists i :: 1 <= i < |v| - 2 && v[i] == '$' && v[i + 1] == '{'
  {
    var t := Inside(v);
    if i :| 1 <= i < |v| - 2 && v[i] == '$' && v[i + 1] == '{' {
      assert t[i - 1..][0] == '$' && t[i - 1..][1] == '{';
      assert "${" <= t[i - 1..];
    }
    if k :| 0 <= k <= |t| && "${" <= t[k..] {
      assert t[k..][0] == '$' && t[k..][1] == '{';
      assert v[k + 1] == '$' && v[k + 2] == '{';
    }
  }

  lemma LiteralInQuotes(v: string)
    requires Tight(v) && |v| >= 2 && v[0] == '"' && v[|v| - 1] == '"'
    ensures Literal(v) == if LooksQuoted(v) then Inside(v) else UNKNOWN_VALUE
  {
    assert v + "" == v;
    StripTight(v, "");
    ContainsMeans(v);
    hide Number, Strip, Contains, Space;
    assert Literal(v) == Inner(Inside(v));
  }

  lemma LiteralOf(v: string)
    requires Tight(v) && !PlainValue(v)
    ensures Literal(v) == if LooksQuoted(v) then Inside(v) else UNKNOWN_VALUE
  {
    hide PlainValue, Literal, Space;
    if |v| >= 2 && v[0] == '"' && v[|v| - 1] == '"' { LiteralInQuotes(v); } else { UnquotedReads(v); }
  }

  // A map of one pair: a bare key and an expression.
  function OnePair(k: string, x: Expr): string {
    k + " = " + Show(x)
  }

  function Spaced(): Layout {
    Layout([], "", true, " ", '=', " ", true, "", Nothing, [])
  }

  lemma PairCloses(k: string, x: Expr, rest: string)
    requires WellBare(k) && Sound(x, true)
    ensures Close(OnePair(k, x) + ("}" + rest), 1, Code) == |OnePair(k, x)|
  {
    var v, tail := Show(x), "}" + rest;
    assert Close(tail, 1, Code) == 0 && Inert(" = ");
    BareTextMeans(k);
    OnePairIs(k, x);
    hide Close, KeyChars, BareText, Sound, Show, OnePair;
    ThreeTexts(" = ", v, tail);
    ThreeTexts(k, " = " + v, tail);
    ThreeTexts(k, " = ", v);
    CloseBare(k, " = " + (v + tail), 1);
    CloseInert(" = ", v + tail, 1);
    CloseExpr(x, true, tail, 1);
  }

  lemma PairIsOneEntry(k: string, x: Expr)
    requires WellBare(k) && Sound(x, true)
    ensures Split(OnePair(k, x), 0, false) == [OnePair(k, x)]
  {
    BareTextMeans(k);
    assert Show(x) + "" == Show(x) && Split("", 0, false) == [""];
    SplitExpr(x, true, "", 0);
    hide Split;
    assert forall i :: 0 <= i < |k| ==> KeyChar(k[i]);
    ThreeTexts(k, " = ", Show(x));
    SplitBefore(" = ", Show(x));
    SplitBefore(k, " = " + Show(x));
  }

  lemma SplitBefore(w: string, t: string)
    requires forall i :: 0 <= i < |w| ==> w[i] !in {'"', '{', '[', '(', ')', ']', '}', '#', '\n', ','}
    requires Split(t, 0, false) == [t]
    ensures Split(w + t, 0, false) == [w + t]
  {
    SplitPlain(w, t, 0);
    hide Split;
    assert [t][1..] == [];
  }

  lemma PairReads(k: string, x: Expr)
    requires WellBare(k) && Tight(Show(x)) && Show(x)[0] !in {'=', ':'}
    ensures KeyValue(OnePair(k, x)) == Some((k, Show(x))) && Entries([OnePair(k, x)]) == [OnePair(k, x)]
  {
    var l, v := Spaced(), Show(x);
    BareTextMeans(k);
    KeyCharIsNoSpace(k[0]);
    hide BareText, KeyChars, Show, Space;
    BareKeyReadsBack(k, l, v);
    assert l.left + [l.sign] + l.right == " = ";
    ThreeTexts(k, " = ", v);
    hide *;
    TightPair(k, v);
    TightEntry(k + " = " + v);
    assert OnePair(k, x) == k + " = " + v by { OnePairIs(k, x); }
  }

  lemma OnePairIs(k: string, x: Expr)
    ensures OnePair(k, x) == k + " = " + Show(x)
  {}

  lemma TightPair(k: string, v: string)
    requires k != "" && !Space(k[0]) && Tight(v)
    ensures Tight(k + " = " + v)
  {
    hide Space;
    var pair := k + " = " + v;
    assert pair[0] == k[0] && pair[|pair| - 1] == v[|v| - 1];
  }

  /** A map whose value is an expression reads as unknown, except when the expression starts and ends with a quote and
      has no interpolation in between: then the text between these quotes is taken for the value. */
  lemma ExpressionReadsExactly(k: string, x: Expr, rest: string)
    requires WellBare(k) && Sound(x, true) && !PlainValue(Show(x))
    requires Tight(Show(x)) && Show(x)[0] !in {'=', ':'}
    ensures ReadTags("{" + (k + " = " + Show(x)) + "}" + rest) ==
            Some(map[k := if LooksQuoted(Show(x)) then Inside(Show(x)) else "<computed>"])
  {
    var pair := OnePair(k, x);
    PairCloses(k, x, rest);
    ReadBody(pair, rest);
    PairIsOneEntry(k, x);
    PairReads(k, x);
    LiteralOf(Show(x));
    OneTag(pair, k, Show(x));
    hide TagsOf, Literal, KeyValue, ReadTags, Show, LooksQuoted;
  }

  lemma OneTag(entry: string, k: string, v: string)
    requires KeyValue(entry) == Some((k, v))
    ensures TagsOf([entry], map[]) == map[k := Literal(v)]
  {
    hide KeyValue, Literal;
    assert [entry][1..] == [];
  }

  /** So a choice between two strings that starts with a string is taken for a known value, which it is not. */
  lemma ChoiceLooksKnown(k: string, a: string, b: string, c: string, rest: string)
    requires WellBare(k) && WellEscaped(a) && WellEscaped(b) && WellEscaped(c)
    requires '$' !in a && '$' !in b && '$' !in c
    ensures ReadTags("{" + (k + " = " + Show(Choice(a, b, c))) + "}" + rest) == Some(map[k := ChoiceText(a, b, c)])
    ensures Show(Choice(a, b, c)) == "\"" + a + "\" == x ? \"" + b + "\" : \"" + c + "\""
  {
    ChoiceShows(a, b, c);
    ChoiceLooks(a, b, c);
    ChoiceWritten(a, b, c);
    hide *;
    ExpressionReadsExactly(k, Choice(a, b, c), rest);
  }

  // "a" == x ? "b" : "c"
  function Choice(a: string, b: string, c: string): Expr {
    Both(Quoted(a), Both(Bit(" == x ? "), Both(Quoted(b), Both(Bit(" : "), Quoted(c)))))
  }

  function ChoiceText(a: string, b: string, c: string): string {
    a + ("\" == x ? \"" + (b + ("\" : \"" + c)))
  }

  lemma QuoteThen(t: string, s: string)
    ensures Quote(t) + s == "\"" + (t + ("\"" + s))
  {}

  lemma ChoiceShows(a: string, b: string, c: string)
    ensures Show(Choice(a, b, c)) == Quote(ChoiceText(a, b, c))
  {
    var q1, q2, end := "\" == x ? \"", "\" : \"", c + "\"";
    var t3 := " : " + Quote(c);
    var t1 := " == x ? " + (Quote(b) + t3);
    assert Show(Both(Bit(" : "), Quoted(c))) == t3;
    assert Show(Both(Quoted(b), Both(Bit(" : "), Quoted(c)))) == Quote(b) + t3;
    assert Show(Both(Bit(" == x ? "), Both(Quoted(b), Both(Bit(" : "), Quoted(c))))) == t1;
    assert Show(Choice(a, b, c)) == Quote(a) + t1;
    QuoteThen(b, t3);
    QuoteThen(a, t1);
    assert "\"" + t3 == q2 + end;
    assert t1 == " == x ? " + ("\"" + (b + (q2 + end)));
    assert "\"" + t1 == q1 + (b + (q2 + end));
    ThreeTexts(q2, c, "\"");
    ThreeTexts(b, q2 + c, "\"");
    ThreeTexts(q1, b + (q2 + c), "\"");
    ThreeTexts(a, q1 + (b + (q2 + c)), "\"");
    assert Quote(ChoiceText(a, b, c)) == "\"" + (ChoiceText(a, b, c) + "\"");
  }

  lemma ChoiceWritten(a: string, b: string, c: string)
    ensures Quote(ChoiceText(a, b, c)) == "\"" + a + "\" == x ? \"" + b + "\" : \"" + c + "\""
  {
    ThreeTexts(b, "\" : \"", c);
    ThreeTexts("\" == x ? \"", b + "\" : \"", c);
  }

  lemma ChoiceLooks(a: string, b: string, c: string)
    requires WellEscaped(a) && WellEscaped(b) && WellEscaped(c)
    requires '$' !in a && '$' !in b && '$' !in c
    ensures var v := Show(Choice(a, b, c));
      && Sound(Choice(a, b, c), true) && Tight(v) && v[0] !in {'=', ':'} && !PlainValue(v)
      && LooksQuoted(v) && Inside(v) == ChoiceText(a, b, c)
  {
    ChoiceShows(a, b, c);
    NoDollar(a, b, c);
    ChoiceSound(a, b, c);
    var v, t := Show(Choice(a, b, c)), ChoiceText(a, b, c);
    hide ChoiceText, Choice, Show, WellEscaped, Sound;
    assert v == "\"" + t + "\"" && Inside(v) == t;
    assert forall i :: 1 <= i < |v| - 1 ==> v[i] == t[i - 1];
    NotPlain(v);
    hide PlainValue;
  }

  lemma NotPlain(v: string)
    requires v != "" && !PlainChar(v[0])
    ensures !PlainValue(v)
  {
    if PlainValue(v) { PlainChars(v); }
  }

  lemma NoDollar(a: string, b: string, c: string)
    requires '$' !in a && '$' !in b && '$' !in c
    ensures '$' !in ChoiceText(a, b, c)
  {}

  lemma ChoiceSound(a: string, b: string, c: string)
    requires WellEscaped(a) && WellEscaped(b) && WellEscaped(c)
    ensures Sound(Choice(a, b, c), true)
  {
    hide WellEscaped;
    assert Sound(Bit(" == x ? "), true) && Sound(Bit(" : "), true);
    assert Sound(Quoted(a), true) && Sound(Quoted(b), true) && Sound(Quoted(c), true);
    assert Sound(Both(Bit(" : "), Quoted(c)), true);
    assert Sound(Both(Quoted(b), Both(Bit(" : "), Quoted(c))), true);
  }
}
