/** Reading one entry of a tag map, and the round trip: what is printed is what is read. */
module TerraformTags {
  import opened Wrappers
  import opened Text
  import opened TerraformLexer

  const UNKNOWN_VALUE := "<computed>"

  // ----- Reading.

  predicate Digit(c: char) {
    '0' <= c <= '9'
  }

  predicate Digits(s: string) {
    s != "" && forall i :: 0 <= i < |s| ==> Digit(s[i])
  }

  // -?\d+(\.\d+)?
  predicate Number(s: string) {
    Decimal(Unsigned(s))
  }

  function Unsigned(s: string): string {
    if s != "" && s[0] == '-' then s[1..] else s
  }

  // \d+(\.\d+)?
  predicate Decimal(t: string) {
    Digits(t) || exists k :: 0 <= k < |t| && t[k] == '.' && Digits(t[..k]) && Digits(t[k + 1..])
  }

  predicate Contains(s: string, sub: string) {
    exists k :: 0 <= k <= |s| && sub <= s[k..]
  }

  function Inner(inner: string): string {
    if Contains(inner, "${") then UNKNOWN_VALUE else inner
  }

  function Literal(raw: string): string {
    var v := Strip(raw);
    if |v| >= 2 && v[0] == '"' && v[|v| - 1] == '"' then Inner(v[1..|v| - 1])
    else if Number(v) || v == "true" || v == "false" then v
    else UNKNOWN_VALUE
  }

  predicate KeyChar(c: char) {
    'A' <= c <= 'Z' || 'a' <= c <= 'z' || Digit(c) || c in {'_', '.', ':', '/', '-'}
  }

  // \s*[=:]\s*(.+)$ at the start of `s`: the value group.
  function Assigned(s: string): Option<string> {
    var t := LStrip(s);
    if t == "" || t[0] !in {'=', ':'} then None
    else
      var v := t[1..];
      if LStrip(v) != "" then Some(LStrip(v))
      else if v != "" then Some([v[|v| - 1]])
      else None
  }

  function Until(s: string, c: char): nat
    ensures Until(s, c) <= |s| && forall i :: 0 <= i < Until(s, c) ==> s[i] != c
    ensures Until(s, c) < |s| ==> s[Until(s, c)] == c
  {
    if s == "" || s[0] == c then 0 else 1 + Until(s[1..], c)
  }

  // How many characters at the start of `s` can belong to a bare key.
  function KeyRun(s: string): (n: nat)
    ensures n <= |s|
  {
    if s != "" && KeyChar(s[0]) then 1 + KeyRun(s[1..]) else 0
  }

  // The longest bare key of at most `n` characters that an assignment follows.
  function BareKey(entry: string, n: nat): Option<(string, string)>
    requires n <= |entry|
  {
    if n == 0 then None
    else if Assigned(entry[n..]).Some? then Some((entry[..n], Assigned(entry[n..]).value))
    else BareKey(entry, n - 1)
  }

  // Key and value text of an entry, as the entry pattern matches them.
  function KeyValue(entry: string): Option<(string, string)> {
    if entry != "" && entry[0] == '"' then
      var n := Until(entry[1..], '"');
      if n == 0 || n + 1 >= |entry| then None
      else
        match Assigned(entry[n + 2..])
        case None => None
        case Some(v) => Some((entry[1..n + 1], v))
    else BareKey(entry, KeyRun(entry))
  }

  function TagsOf(entries: seq<string>, tags: map<string, string>): map<string, string> {
    if entries == [] then tags
    else
      TagsOf(entries[1..], match KeyValue(entries[0])
                           case None => tags
                           case Some((k, v)) => tags[k := Literal(v)])
  }

  // The tags of the map literal that starts at the brace at the start of `rest`; None if it is not closed.
  function ReadTags(rest: string): Option<map<string, string>>
    requires rest != ""
  {
    var close := Close(rest, 0, Code);
    if close < 1 || close >= |rest| then None
    else Some(TagsOf(Entries(Split(rest[1..close], 0, false)), map[]))
  }

  method ParseTags(rest: string) returns (r: Option<map<string, string>>)
    requires rest != "" && rest[0] == '{'
    ensures r == ReadTags(rest)
  {
    var close := MatchBrace(rest, 0);
    assert rest[0..] == rest;
    CloseIsFirstBalance(rest, 0, Code);
    if close < 0 { return None; }
    assert close >= 1 by { assert Delta(rest, Code) == 1; }
    var entries := SplitEntries(rest[1..close]);
    var tags: map<string, string> := map[];
    var k := 0;
    assert entries[0..] == entries;
    while k < |entries|
      invariant k <= |entries|
      invariant TagsOf(entries, map[]) == TagsOf(entries[k..], tags)
    {
      assert entries[k..][1..] == entries[k + 1..];
      match KeyValue(entries[k]) {
        case None =>
        case Some((key, value)) => tags := tags[key := Literal(value)];
      }
      k := k + 1;
    }
    return Some(tags);
  }

  // ----- Printing.

  // Every quote is escaped and no escape is left open.
  predicate WellEscaped(v: string) {
    v == "" || (v[0] != '"' && (if v[0] == '\\' then |v| >= 2 && WellEscaped(v[2..]) else WellEscaped(v[1..])))
  }

  // The characters of a key that needs no quotes, and the digits, one by one.
  const UPPER: set<char> :=
    {'A', 'B', 'C', 'D', 'E', 'F', 'G', 'H', 'I', 'J', 'K', 'L', 'M', 'N', 'O', 'P', 'Q', 'R', 'S', 'T', 'U', 'V',
     'W', 'X', 'Y', 'Z'}
  const LOWER: set<char> :=
    {'a', 'b', 'c', 'd', 'e', 'f', 'g', 'h', 'i', 'j', 'k', 'l', 'm', 'n', 'o', 'p', 'q', 'r', 's', 't', 'u', 'v',
     'w', 'x', 'y', 'z'}
  const DIGITS: set<char> :=
    {'0', '1', '2', '3', '4', '5', '6', '7', '8', '9'}
  const MARKS: set<char> :=
    {'_', '.', ':', '/', '-'}

  predicate BareText(k: string) {
    k != "" && forall i :: 0 <= i < |k| ==> k[i] in UPPER + LOWER + DIGITS + MARKS
  }

  predicate DigitText(s: string) {
    s != "" && forall i :: 0 <= i < |s| ==> s[i] in DIGITS
  }

  // A value that needs no quotes: true, false, or digits with at most a minus before and a point between them.
  predicate PlainValue(v: string) {
    || v == "true" || v == "false" || DecimalText(v) || (v != "" && v[0] == '-' && DecimalText(v[1..]))
  }

  predicate DecimalText(t: string) {
    DigitText(t) || exists p :: 0 <= p < |t| && t[p] == '.' && DigitText(t[..p]) && DigitText(t[p + 1..])
  }

  // An expression: text, a string, brackets around an expression, or one part after the other.
  datatype Expr =
    | Bit(text: string)
    | Quoted(text: string)
    | Group(open: char, inner: Expr)
    | Both(left: Expr, right: Expr)

  function Closing(open: char): char {
    if open == '(' then ')' else if open == '[' then ']' else '}'
  }

  function Show(x: Expr): string {
    match x
    case Bit(t) => t
    case Quoted(t) => Quote(t)
    case Group(open, inner) => [open] + (Show(inner) + [Closing(open)])
    case Both(left, right) => Show(left) + Show(right)
  }

  // Commas and newlines stand within brackets or strings, brackets match, and there is no comment.
  predicate Sound(x: Expr, top: bool) {
    match x
    case Bit(t) => Bland(t) && (top ==> ',' !in t && '\n' !in t)
    case Quoted(t) => WellEscaped(t)
    case Group(open, inner) => open in {'(', '[', '{'} && Sound(inner, false)
    case Both(left, right) => Sound(left, top) && Sound(right, top)
  }

  predicate Bland(t: string) {
    forall i :: 0 <= i < |t| ==> t[i] !in {'"', '{', '[', '(', ')', ']', '}', '#', '/'}
  }

  // The text of an expression that does not both start and end with a quote.
  ghost predicate ExpressionText(v: string) {
    && Tight(v) && v[0] !in {'=', ':'} && !(v[0] == '"' && v[|v| - 1] == '"')
    && exists x: Expr :: Show(x) == v && Sound(x, true)
  }

  predicate WellKeyed(k: string) {
    k != "" && '"' !in k && WellEscaped(k)
  }

  predicate KeyChars(k: string) {
    forall i :: 0 <= i < |k| ==> KeyChar(k[i])
  }

  // A key that needs no quotes.
  predicate WellBare(k: string) {
    BareText(k) && forall i :: 0 < i < |k| ==> !(k[i - 1] == '/' && k[i] == '/')
  }

  // Only the last entry can end with nothing.
  datatype Separator = Comma | Newline | Hash(note: string) | Slash(note: string) | Nothing

  // A line without an entry: a comment after white space, or a stray separator.
  datatype Line = Line(pad: string, end: Separator)

  // How an entry is laid out: the lines above and below it, white space around it and its parts, whether the key is
  // quoted, the assignment sign, whether the value is quoted, what ends it.
  datatype Layout = Layout(above: seq<Line>, lead: string, bare: bool, left: string, sign: char, right: string,
                           plain: bool, trail: string, end: Separator, below: seq<Line>)

  predicate OneLine(s: string) {
    Blank(s) && '\n' !in s
  }

  predicate WellEnded(end: Separator) {
    end.Hash? || end.Slash? ==> '\n' !in end.note
  }

  predicate WellLined(ls: seq<Line>) {
    forall i :: 0 <= i < |ls| ==> Blank(ls[i].pad) && WellEnded(ls[i].end) && !ls[i].end.Nothing?
  }

  predicate WellLaid(l: Layout) {
    && WellLined(l.above) && WellLined(l.below) && (l.end.Nothing? ==> l.below == [])
    && Blank(l.lead) && OneLine(l.left) && l.sign in {'=', ':'} && OneLine(l.right) && Blank(l.trail)
    && WellEnded(l.end)
  }

  datatype Entry = Entry(key: string, value: string, layout: Layout)

  // A colon between key and value, with no white space around it.
  predicate Glued(l: Layout) {
    l.left == "" && l.sign == ':' && l.right == ""
  }

  ghost predicate Unquoted(v: string, l: Layout) {
    PlainValue(v) || (ExpressionText(v) && !Glued(l))
  }

  ghost predicate WellFormed(e: Entry) {
    && (if e.layout.bare then WellBare(e.key) else WellKeyed(e.key))
    && (if e.layout.plain then Unquoted(e.value, e.layout) && !e.layout.end.Slash? else WellEscaped(e.value))
    && WellLaid(e.layout)
  }

  ghost predicate WellPrinted(es: seq<Entry>) {
    forall i :: 0 <= i < |es| ==> WellFormed(es[i]) && (es[i].layout.end.Nothing? ==> i == |es| - 1)
  }

  function Quote(s: string): string {
    "\"" + s + "\""
  }

  function KeyText(e: Entry): string {
    if e.layout.bare then e.key else Quote(e.key)
  }

  // From the key to the value.
  function Head(e: Entry): string {
    KeyText(e) + (e.layout.left + [e.layout.sign] + e.layout.right)
  }

  function ValueOf(e: Entry): string {
    if e.layout.plain then e.value else Quote(e.value)
  }

  function Core(e: Entry): string {
    Head(e) + ValueOf(e)
  }

  function End(end: Separator): string {
    match end
    case Comma => ","
    case Newline => "\n"
    case Hash(note) => "#" + note + "\n"
    case Slash(note) => "//" + note + "\n"
    case Nothing => ""
  }

  function PrintLines(ls: seq<Line>): string {
    if ls == [] then "" else ls[0].pad + End(ls[0].end) + PrintLines(ls[1..])
  }

  function PrintPair(e: Entry): string {
    e.layout.lead + Core(e) + e.layout.trail + End(e.layout.end)
  }

  function PrintEntry(e: Entry): string {
    PrintLines(e.layout.above) + PrintPair(e) + PrintLines(e.layout.below)
  }

  function Print(es: seq<Entry>): string {
    if es == [] then "" else PrintEntry(es[0]) + Print(es[1..])
  }

  // The value that is meant: an expression, or an interpolation in quotes, is not known.
  function Meant(e: Entry): string {
    if !e.layout.plain then Inner(e.value) else if PlainValue(e.value) then e.value else UNKNOWN_VALUE
  }

  function Intended(es: seq<Entry>, tags: map<string, string>): map<string, string> {
    if es == [] then tags else Intended(es[1..], tags[es[0].key := Meant(es[0])])
  }

  // ----- The characters, one by one and in ranges.

  lemma UpperLetters(c: char)
    ensures c in UPPER <==> 'A' <= c <= 'Z'
  {}

  lemma LowerLetters(c: char)
    ensures c in LOWER <==> 'a' <= c <= 'z'
  {}

  lemma Tens(c: char)
    ensures c in DIGITS <==> Digit(c)
  {}

  /** A character can stand in a bare key exactly when it is a letter or digit of ASCII or one of five marks. */
  lemma BareCharacters(c: char)
    ensures KeyChar(c) <==> c in UPPER + LOWER + DIGITS + MARKS
  {
    UpperLetters(c);
    LowerLetters(c);
    Tens(c);
    hide Digit;
  }

  lemma BareTextMeans(k: string)
    ensures BareText(k) <==> k != "" && KeyChars(k)
  {
    forall i | 0 <= i < |k| ensures KeyChar(k[i]) <==> k[i] in UPPER + LOWER + DIGITS + MARKS { BareCharacters(k[i]); }
    hide KeyChar;
  }

  lemma DigitTextMeans(s: string)
    ensures DigitText(s) <==> Digits(s)
  {
    forall i | 0 <= i < |s| ensures Digit(s[i]) <==> s[i] in DIGITS { Tens(s[i]); }
    hide Digit;
  }

  lemma DecimalTextMeans(t: string)
    ensures DecimalText(t) <==> Decimal(t)
  {
    DigitTextMeans(t);
    if p :| 0 <= p < |t| && t[p] == '.' && DigitText(t[..p]) && DigitText(t[p + 1..]) {
      DigitTextMeans(t[..p]);
      DigitTextMeans(t[p + 1..]);
    }
    if p :| 0 <= p < |t| && t[p] == '.' && Digits(t[..p]) && Digits(t[p + 1..]) {
      DigitTextMeans(t[..p]);
      DigitTextMeans(t[p + 1..]);
    }
    hide Digits, DigitText;
  }

  lemma DecimalStart(t: string)
    requires Decimal(t)
    ensures t != "" && Digit(t[0])
  {
    if !Digits(t) {
      var k :| 0 <= k < |t| && t[k] == '.' && Digits(t[..k]) && Digits(t[k + 1..]);
      assert t[0] == t[..k][0];
    }
  }

  /** The unquoted values that are read are true, false and numbers. */
  lemma PlainValueMeans(v: string)
    ensures PlainValue(v) <==> Number(v) || v == "true" || v == "false"
  {
    DecimalTextMeans(v);
    DecimalTextMeans(Unsigned(v));
    if Decimal(v) { DecimalStart(v); }
    hide Decimal, DecimalText;
  }

  // Letters, digits, minus and point.
  predicate PlainChar(c: char) {
    Digit(c) || c == '-' || c == '.' || 'a' <= c <= 'z'
  }

  lemma DecimalChars(t: string)
    requires Decimal(t)
    ensures t != "" && forall i :: 0 <= i < |t| ==> PlainChar(t[i])
  {
    if !Digits(t) {
      var k :| 0 <= k < |t| && t[k] == '.' && Digits(t[..k]) && Digits(t[k + 1..]);
      forall i | 0 <= i < |t| ensures PlainChar(t[i]) {
        if i < k { assert t[i] == t[..k][i]; } else if i > k { assert t[i] == t[k + 1..][i - k - 1]; }
      }
    }
  }

  lemma PlainChars(v: string)
    requires PlainValue(v)
    ensures v != "" && forall i :: 0 <= i < |v| ==> PlainChar(v[i])
  {
    PlainValueMeans(v);
    if v != "true" && v != "false" {
      DecimalChars(Unsigned(v));
      hide Decimal, PlainValue, Number;
      forall i | 0 <= i < |v| ensures PlainChar(v[i]) {
        if Unsigned(v) != v && i > 0 { assert v[i] == Unsigned(v)[i - 1]; }
      }
    }
  }

  // ----- The brace scanner passes over printed entries.

  // `w` is read in code mode without effect.
  predicate Inert(w: string) {
    forall i :: 0 <= i < |w| ==> w[i] !in {'"', '#', '/', '{', '}'}
  }

  lemma {:induction false} CloseInert(w: string, s: string, d: int)
    requires Inert(w)
    ensures Close(w + s, d, Code) == Shift(|w|, Close(s, d, Code))
  {
    if w == "" {
      assert w + s == s;
    } else {
      assert (w + s)[1..] == w[1..] + s;
      CloseInert(w[1..], s, d);
    }
  }

  lemma {:induction false} CloseString(v: string, s: string, d: int)
    requires WellEscaped(v)
    ensures Close(v + ("\"" + s), d, Str) == Shift(|v| + 1, Close(s, d, Code))
  {
    var t := "\"" + s;
    if v == "" {
      assert v + t == t && t[1..] == s;
    } else if v[0] == '\\' {
      CloseString(v[2..], s, d);
      CloseEscape(v, t, d);
    } else {
      CloseString(v[1..], s, d);
      assert (v + t)[1..] == v[1..] + t;
    }
  }

  lemma CloseEscape(v: string, t: string, d: int)
    requires |v| >= 2 && v[0] == '\\'
    ensures Close(v + t, d, Str) == Shift(2, Close(v[2..] + t, d, Str))
  {
    assert (v + t)[1..] == v[1..] + t && (v[1..] + t)[1..] == v[2..] + t;
  }

  lemma CloseQuoted(v: string, s: string, d: int)
    requires WellEscaped(v)
    ensures Close(Quote(v) + s, d, Code) == Shift(|v| + 2, Close(s, d, Code))
  {
    assert (Quote(v) + s)[1..] == v + ("\"" + s);
    CloseString(v, s, d);
  }

  lemma {:induction false} CloseNote(note: string, s: string, d: int)
    requires '\n' !in note
    ensures Close(note + ("\n" + s), d, Comment) == Shift(|note| + 1, Close(s, d, Code))
  {
    var t := "\n" + s;
    if note == "" {
      assert note + t == t && t[1..] == s;
    } else {
      assert (note + t)[1..] == note[1..] + t;
      CloseNote(note[1..], s, d);
    }
  }

  lemma CloseHash(note: string, s: string, d: int)
    requires '\n' !in note
    ensures Close("#" + note + ("\n" + s), d, Code) == Shift(|note| + 2, Close(s, d, Code))
  {
    assert ("#" + note + ("\n" + s))[1..] == note + ("\n" + s);
    CloseNote(note, s, d);
  }

  lemma CloseSlashes(note: string, s: string, d: int)
    requires '\n' !in note
    ensures Close("//" + note + ("\n" + s), d, Code) == Shift(|note| + 3, Close(s, d, Code))
  {
    assert ("//" + note + ("\n" + s))[1..] == "/" + note + ("\n" + s);
    CloseNote("/" + note, s, d);
  }

  lemma CloseEnd(end: Separator, s: string, d: int)
    requires WellEnded(end)
    ensures Close(End(end) + s, d, Code) == Shift(|End(end)|, Close(s, d, Code))
  {
    hide Close;
    match end
    case Comma => CloseInert(",", s, d);
    case Newline => CloseInert("\n", s, d);
    case Hash(note) =>
      CloseHash(note, s, d);
      assert End(end) + s == "#" + note + ("\n" + s);
    case Slash(note) =>
      CloseSlashes(note, s, d);
      assert End(end) + s == "//" + note + ("\n" + s);
    case Nothing => CloseInert("", s, d);
  }

  lemma {:induction false} CloseBare(k: string, s: string, d: int)
    requires KeyChars(k) && forall i :: 0 < i < |k| ==> !(k[i - 1] == '/' && k[i] == '/')
    requires s != "" && s[0] != '/'
    ensures Close(k + s, d, Code) == Shift(|k|, Close(s, d, Code))
  {
    if k == "" {
      assert k + s == s;
    } else {
      var t := k[1..];
      assert (k + s)[1..] == t + s && (k + s)[1] == if t == "" then s[0] else t[0];
      assert KeyChar(k[0]) && !StartsComment(k + s);
      CloseBare(t, s, d);
    }
  }

  lemma {:induction false} CloseExpr(x: Expr, top: bool, s: string, d: int)
    requires Sound(x, top) && d >= 1
    ensures Close(Show(x) + s, d, Code) == Shift(|Show(x)|, Close(s, d, Code))
    decreases x
  {
    match x
    case Bit(t) => CloseInert(t, s, d);
    case Quoted(t) => CloseQuoted(t, s, d);
    case Group(open, inner) =>
      var after := [Closing(open)] + s;
      CloseExpr(inner, false, after, if open == '{' then d + 1 else d);
      GroupText(open, inner, s);
      ClosesGroup(open, Show(inner), s, d);
    case Both(left, right) =>
      hide Close;
      ThreeTexts(Show(left), Show(right), s);
      CloseExpr(left, top, Show(right) + s, d);
      CloseExpr(right, top, s, d);
      ShiftTwice(|Show(left)|, |Show(right)|, Close(s, d, Code));
  }

  lemma GroupText(open: char, inner: Expr, s: string)
    ensures Show(Group(open, inner)) + s == [open] + (Show(inner) + ([Closing(open)] + s))
  {}

  lemma ThreeTexts(a: string, b: string, c: string)
    ensures a + b + c == a + (b + c)
  {}

  lemma ClosesGroup(open: char, inner: string, s: string, d: int)
    requires open in {'(', '[', '{'} && d >= 1
    requires var d' := if open == '{' then d + 1 else d;
      Close(inner + ([Closing(open)] + s), d', Code) == Shift(|inner|, Close([Closing(open)] + s, d', Code))
    ensures Close([open] + (inner + ([Closing(open)] + s)), d, Code) == Shift(|inner| + 2, Close(s, d, Code))
  {
    var after := [Closing(open)] + s;
    assert ([open] + (inner + after))[1..] == inner + after && after[1..] == s;
  }

  lemma CloseCore(e: Entry, s: string, d: int)
    requires WellFormed(e) && d >= 1
    ensures Close(Core(e) + s, d, Code) == Shift(|Core(e)|, Close(s, d, Code))
  {
    var l := e.layout;
    var mid := l.left + [l.sign] + l.right;
    var t1 := ValueOf(e) + s;
    assert Core(e) + s == KeyText(e) + (mid + t1);
    if l.bare {
      BareTextMeans(e.key);
      CloseBare(e.key, mid + t1, d);
    } else {
      CloseQuoted(e.key, mid + t1, d);
    }
    CloseInert(mid, t1, d);
    CloseValue(e, s, d);
  }

  lemma CloseValue(e: Entry, s: string, d: int)
    requires WellFormed(e) && d >= 1
    ensures Close(ValueOf(e) + s, d, Code) == Shift(|ValueOf(e)|, Close(s, d, Code))
  {
    if e.layout.plain && PlainValue(e.value) {
      PlainChars(e.value);
      CloseInert(e.value, s, d);
    } else if e.layout.plain {
      var x: Expr :| Show(x) == e.value && Sound(x, true);
      CloseExpr(x, true, s, d);
    } else {
      CloseQuoted(e.value, s, d);
    }
  }

  lemma PairText(e: Entry, s: string)
    ensures PrintPair(e) + s == e.layout.lead + (Core(e) + (e.layout.trail + (End(e.layout.end) + s)))
  {
    hide Core, End;
  }

  lemma {:induction false} CloseLines(ls: seq<Line>, s: string, d: int)
    requires WellLined(ls)
    ensures Close(PrintLines(ls) + s, d, Code) == Shift(|PrintLines(ls)|, Close(s, d, Code))
  {
    if ls == [] {
      assert PrintLines(ls) + s == s;
    } else {
      var l, t := ls[0], PrintLines(ls[1..]) + s;
      assert Inert(l.pad);
      FourTexts(l.pad, End(l.end), PrintLines(ls[1..]), s);
      hide Close, End, Inert;
      CloseInert(l.pad, End(l.end) + t, d);
      CloseEnd(l.end, t, d);
      CloseLines(ls[1..], s, d);
    }
  }

  lemma EntryText(e: Entry, s: string)
    ensures PrintEntry(e) + s == PrintLines(e.layout.above) + (PrintPair(e) + (PrintLines(e.layout.below) + s))
  {
    hide PrintPair, PrintLines;
  }

  lemma CloseEntry(e: Entry, s: string, d: int)
    requires WellFormed(e) && d >= 1
    ensures Close(PrintEntry(e) + s, d, Code) == Shift(|PrintEntry(e)|, Close(s, d, Code))
  {
    var t := PrintLines(e.layout.below) + s;
    EntryText(e, s);
    hide Close, PrintPair, PrintLines;
    CloseLines(e.layout.above, PrintPair(e) + t, d);
    ClosePair(e, t, d);
    CloseLines(e.layout.below, s, d);
  }

  lemma ClosePair(e: Entry, s: string, d: int)
    requires WellFormed(e) && d >= 1
    ensures Close(PrintPair(e) + s, d, Code) == Shift(|PrintPair(e)|, Close(s, d, Code))
  {
    var l := e.layout;
    var t1 := End(l.end) + s;
    var t2 := l.trail + t1;
    PairText(e, s);
    assert Inert(l.lead) && Inert(l.trail);
    hide Close, Core, End, Inert, WellEscaped;
    CloseInert(l.lead, Core(e) + t2, d);
    CloseCore(e, t2, d);
    CloseInert(l.trail, t1, d);
    CloseEnd(l.end, s, d);
  }

  lemma PrintFirst(es: seq<Entry>, s: string)
    requires es != [] && WellPrinted(es)
    ensures Print(es) == PrintEntry(es[0]) + Print(es[1..])
    ensures Print(es) + s == PrintEntry(es[0]) + (Print(es[1..]) + s)
    ensures WellFormed(es[0]) && WellPrinted(es[1..])
  {
    hide PrintEntry, WellFormed;
  }

  lemma ShiftTwice(n: nat, m: nat, r: int)
    ensures Shift(n, Shift(m, r)) == Shift(n + m, r)
  {}

  lemma {:induction false} CloseEntries(es: seq<Entry>, s: string, d: int)
    requires WellPrinted(es) && d >= 1
    ensures Close(Print(es) + s, d, Code) == Shift(|Print(es)|, Close(s, d, Code))
  {
    if es == [] {
      assert Print(es) + s == s;
    } else {
      var first, rest := es[0], es[1..];
      PrintFirst(es, s);
      hide *;
      CloseEntry(first, Print(rest) + s, d);
      CloseEntries(rest, s, d);
      ShiftTwice(|PrintEntry(first)|, |Print(rest)|, Close(s, d, Code));
    }
  }

  // ----- The splitter cuts printed entries apart.

  lemma {:induction false} SplitPlain(w: string, s: string, d: int)
    requires forall i :: 0 <= i < |w| ==> w[i] !in {'"', '{', '[', '(', ')', ']', '}', '#', '\n', ','}
    ensures Split(w + s, d, false) == Push(w, Split(s, d, false))
  {
    if w == "" {
      assert w + s == s;
      PushNothing(Split(s, d, false));
    } else {
      assert (w + s)[1..] == w[1..] + s && (w + s)[..1] == w[..1];
      SplitPlain(w[1..], s, d);
      PushPush(w[..1], w[1..], Split(s, d, false));
      assert w[..1] + w[1..] == w;
    }
  }

  lemma {:induction false} SplitString(v: string, s: string, d: int)
    requires WellEscaped(v)
    ensures Split(v + ("\"" + s), d, true) == Push(v + "\"", Split(s, d, false))
  {
    var t := "\"" + s;
    if v == "" {
      assert v + t == t && t[1..] == s && t[..1] == "\"" == v + "\"";
    } else {
      var k := if v[0] == '\\' then 2 else 1;
      assert (v + t)[k..] == v[k..] + t && (v + t)[..k] == v[..k];
      SplitString(v[k..], s, d);
      assert Split(v + t, d, true) == Push(v[..k], Split(v[k..] + t, d, true));
      hide Split;
      PushPush(v[..k], v[k..] + "\"", Split(s, d, false));
      assert v[..k] + (v[k..] + "\"") == v + "\"";
    }
  }

  lemma SplitQuoted(v: string, s: string, d: int)
    requires WellEscaped(v)
    ensures Split(Quote(v) + s, d, false) == Push(Quote(v), Split(s, d, false))
  {
    assert (Quote(v) + s)[1..] == v + ("\"" + s) && (Quote(v) + s)[..1] == "\"";
    SplitString(v, s, d);
    PushPush("\"", v + "\"", Split(s, d, false));
    assert "\"" + (v + "\"") == Quote(v);
  }

  // Within brackets nothing separates.
  lemma {:induction false} SplitDeep(t: string, s: string, d: int)
    requires Bland(t) && d >= 1
    ensures Split(t + s, d, false) == Push(t, Split(s, d, false))
  {
    if t == "" {
      assert t + s == s;
      PushNothing(Split(s, d, false));
    } else {
      assert (t + s)[1..] == t[1..] + s && (t + s)[..1] == t[..1];
      SplitDeep(t[1..], s, d);
      PushPush(t[..1], t[1..], Split(s, d, false));
      assert t[..1] + t[1..] == t;
    }
  }

  lemma {:induction false} SplitExpr(x: Expr, top: bool, s: string, d: int)
    requires Sound(x, top) && d >= 0 && (d == 0 ==> top)
    ensures Split(Show(x) + s, d, false) == Push(Show(x), Split(s, d, false))
    decreases x
  {
    match x
    case Bit(t) => if d == 0 { SplitPlain(t, s, d); } else { SplitDeep(t, s, d); }
    case Quoted(t) => SplitQuoted(t, s, d);
    case Group(open, inner) =>
      var after := [Closing(open)] + s;
      SplitExpr(inner, false, after, d + 1);
      GroupText(open, inner, s);
      SplitsGroup(open, Show(inner), s, d);
    case Both(left, right) =>
      hide Split;
      ThreeTexts(Show(left), Show(right), s);
      SplitExpr(left, top, Show(right) + s, d);
      SplitExpr(right, top, s, d);
      PushPush(Show(left), Show(right), Split(s, d, false));
  }

  lemma SplitsGroup(open: char, inner: string, s: string, d: int)
    requires open in {'(', '[', '{'} && d >= 0
    requires var after := [Closing(open)] + s;
      Split(inner + after, d + 1, false) == Push(inner, Split(after, d + 1, false))
    ensures Split([open] + (inner + ([Closing(open)] + s)), d, false) ==
            Push([open] + (inner + [Closing(open)]), Split(s, d, false))
  {
    var c, rs := Closing(open), Split(s, d, false);
    var after := [c] + s;
    var all := [open] + (inner + after);
    assert all[1..] == inner + after && all[..1] == [open] && after[1..] == s && after[..1] == [c];
    PushPush(inner, [c], rs);
    PushPush([open], inner + [c], rs);
  }

  lemma SplitCore(e: Entry, s: string, d: int)
    requires WellFormed(e) && d >= 0
    ensures Split(Core(e) + s, d, false) == Push(Core(e), Split(s, d, false))
  {
    hide Split, WellEscaped, PlainValue, BareText;
    var l := e.layout;
    var mid := l.left + [l.sign] + l.right;
    var t := ValueOf(e) + s;
    assert Core(e) + s == KeyText(e) + (mid + t);
    if l.bare {
      BareTextMeans(e.key);
      assert forall i :: 0 <= i < |e.key| ==> KeyChar(e.key[i]);
      SplitPlain(e.key, mid + t, d);
    } else {
      SplitQuoted(e.key, mid + t, d);
    }
    SplitPlain(mid, t, d);
    SplitValue(e, s, d);
    PushPush(mid, ValueOf(e), Split(s, d, false));
    PushPush(KeyText(e), mid + ValueOf(e), Split(s, d, false));
    assert KeyText(e) + (mid + ValueOf(e)) == Core(e);
  }

  lemma SplitValue(e: Entry, s: string, d: int)
    requires WellFormed(e) && d >= 0
    ensures Split(ValueOf(e) + s, d, false) == Push(ValueOf(e), Split(s, d, false))
  {
    if e.layout.plain && PlainValue(e.value) {
      PlainChars(e.value);
      SplitPlain(e.value, s, d);
    } else if e.layout.plain {
      var x: Expr :| Show(x) == e.value && Sound(x, true);
      SplitExpr(x, true, s, d);
    } else {
      SplitQuoted(e.value, s, d);
    }
  }

  lemma {:induction false} SkipNote(note: string, s: string)
    requires '\n' !in note
    ensures AfterComment(note + ("\n" + s)) == "\n" + s && AfterComment(note) == ""
  {
    if note != "" {
      assert (note + ("\n" + s))[1..] == note[1..] + ("\n" + s);
      SkipNote(note[1..], s);
    } else {
      assert note + ("\n" + s) == "\n" + s;
    }
  }

  lemma SplitSeparator(c: char, s: string)
    requires c in {',', '\n'}
    ensures Split([c] + s, 0, false) == [""] + Split(s, 0, false)
  {
    assert ([c] + s)[1..] == s;
  }

  lemma SplitHash(note: string, s: string)
    requires '\n' !in note
    ensures Split("#" + note + ("\n" + s), 0, false) == [""] + Split(s, 0, false)
  {
    SkipNote("#" + note, s);
    SplitSeparator('\n', s);
  }

  lemma SplitEnd(end: Separator, s: string)
    requires WellEnded(end) && !end.Slash? && !end.Nothing?
    ensures Split(End(end) + s, 0, false) == [""] + Split(s, 0, false)
  {
    hide Split;
    match end
    case Comma => SplitSeparator(',', s);
    case Newline => SplitSeparator('\n', s);
    case Hash(note) =>
      SplitHash(note, s);
      assert End(end) + s == "#" + note + ("\n" + s);
  }

  // Nesting depth and string mode in which the splitter leaves `s`.
  function EndOf(s: string, depth: int, inStr: bool): (int, bool)
    decreases |s|
  {
    if s == "" then (depth, inStr)
    else if inStr then
      if s[0] == '\\' && |s| > 1 then EndOf(s[2..], depth, true) else EndOf(s[1..], depth, s[0] != '"')
    else if s[0] == '"' then EndOf(s[1..], depth, true)
    else if s[0] in {'{', '[', '('} then EndOf(s[1..], depth + 1, false)
    else if s[0] in {'}', ']', ')'} then EndOf(s[1..], depth - 1, false)
    else if s[0] == '#' && depth == 0 then EndOf(AfterComment(s), 0, false)
    else EndOf(s[1..], depth, false)
  }

  // The quotes and brackets of the note close within it.
  predicate Settles(note: string) {
    EndOf(note, 0, false) == (0, false)
  }

  lemma PushBefore(w: string, a: seq<string>, b: seq<string>)
    requires a != []
    ensures Push(w, a + b) == Push(w, a) + b
  {
    assert (a + b)[1..] == a[1..] + b;
  }

  // A line that settles ends at its newline.
  lemma {:induction false} SplitLine(w: string, s: string, d: int, inStr: bool)
    requires '\n' !in w && EndOf(w, d, inStr) == (0, false)
    ensures Split(w + ("\n" + s), d, inStr) == Split(w, d, inStr) + Split(s, 0, false)
    decreases |w|
  {
    var t := "\n" + s;
    if w == "" {
      assert w + t == t && t[1..] == s;
    } else if !inStr && w[0] == '#' && d == 0 {
      SkipNote(w, s);
      assert t[1..] == s;
    } else {
      var k := if inStr && w[0] == '\\' && |w| > 1 then 2 else 1;
      assert (w + t)[k..] == w[k..] + t && (w + t)[..k] == w[..k];
      SplitLineNext(w, s, d, inStr, k);
    }
  }

  lemma SplitLineNext(w: string, s: string, d: int, inStr: bool, k: nat)
    requires '\n' !in w && EndOf(w, d, inStr) == (0, false) && w != "" && !(!inStr && w[0] == '#' && d == 0)
    requires k == if inStr && w[0] == '\\' && |w| > 1 then 2 else 1
    ensures Split(w + ("\n" + s), d, inStr) == Split(w, d, inStr) + Split(s, 0, false)
    decreases |w|, 0
  {
    var t := "\n" + s;
    assert (w + t)[k..] == w[k..] + t && (w + t)[..k] == w[..k];
    var d' := if inStr || w[0] == '"' then d else if w[0] in {'{', '[', '('} then d + 1
              else if w[0] in {'}', ']', ')'} then d - 1 else d;
    var inStr' := if k == 2 then true else if w[0] == '"' then !inStr else inStr;
    SplitLine(w[k..], s, d', inStr');
    PushBefore(w[..k], Split(w[k..], d', inStr'), Split(s, 0, false));
    if !inStr && w[0] == ',' && d == 0 {
      assert [""] + (Split(w[1..], 0, false) + Split(s, 0, false)) ==
          [""] + Split(w[1..], 0, false) + Split(s, 0, false);
    }
  }

  // ----- Stripping.

  lemma {:induction false} LStripBlank(w: string, s: string)
    requires Blank(w)
    ensures LStrip(w + s) == LStrip(s)
  {
    if w == "" {
      assert w + s == s;
    } else {
      assert (w + s)[1..] == w[1..] + s;
      LStripBlank(w[1..], s);
    }
  }

  lemma {:induction false} RStripBlank(s: string, w: string)
    requires Blank(w)
    ensures RStrip(s + w) == RStrip(s)
  {
    if w == "" {
      assert s + w == s;
    } else {
      assert (s + w)[..|s + w| - 1] == s + w[..|w| - 1];
      RStripBlank(s, w[..|w| - 1]);
    }
  }

  // A text that neither starts nor ends with white space survives stripping, whatever white space follows it.
  lemma StripTight(s: string, w: string)
    requires s != "" && !Space(s[0]) && !Space(s[|s| - 1]) && Blank(w)
    ensures Strip(s + w) == s
  {
    assert LStrip(s + w) == s + w;
    RStripBlank(s, w);
  }

  // ----- The entries of a printed map.

  lemma EntriesPushBlank(c: string, rs: seq<string>)
    requires rs != [] && Blank(c)
    ensures Entries(Push(c, rs)) == Entries(rs)
  {
    LStripBlank(c, rs[0]);
    assert Push(c, rs)[1..] == rs[1..];
  }

  lemma SplitBlank(w: string, t: string)
    requires w != "" && Blank(w)
    ensures var rs := Split(w[1..] + t, 0, false);
            Split(w + t, 0, false) == if w[0] == '\n' then [""] + rs else Push(w[..1], rs)
  {
    assert (w + t)[1..] == w[1..] + t && (w + t)[..1] == w[..1];
    assert w[0] == '\n' || !(w[0] in {'"', '{', '[', '(', ')', ']', '}', '#', ','});
  }

  lemma {:induction false} EntriesSkipBlank(w: string, s: string)
    requires Blank(w)
    ensures Entries(Split(w + s, 0, false)) == Entries(Split(s, 0, false))
  {
    if w == "" {
      assert w + s == s;
    } else {
      var rs := Split(w[1..] + s, 0, false);
      SplitBlank(w, s);
      EntriesSkipBlank(w[1..], s);
      if w[0] == '\n' { EntriesDropEmpty(rs); } else { EntriesPushBlank(w[..1], rs); }
    }
  }

  lemma EntriesDropEmpty(rs: seq<string>)
    ensures Entries([""] + rs) == Entries(rs)
  {
    assert ([""] + rs)[1..] == rs;
  }

  predicate Tight(s: string) {
    s != "" && !Space(s[0]) && !Space(s[|s| - 1])
  }

  lemma TightEntry(s: string)
    requires Tight(s)
    ensures Entries([s]) == [s]
  {
    assert s + "" == s && [s][1..] == [] && [s] + [] == [s];
    StripTight(s, "");
  }

  lemma EntriesClosed(core: string, sofar: string, rs: seq<string>)
    requires Tight(core) && Blank(sofar)
    ensures Entries(Push(core + sofar, [""] + rs)) == [core] + Entries(rs)
  {
    StripTight(core, sofar);
    PushClosed(core + sofar, rs);
    assert ([core + sofar] + rs)[1..] == rs;
  }

  lemma {:induction false} EntriesBoth(a: seq<string>, b: seq<string>)
    ensures Entries(a + b) == Entries(a) + Entries(b)
  {
    if a == [] {
      assert a + b == b;
    } else {
      assert (a + b)[1..] == a[1..] + b;
      EntriesBoth(a[1..], b);
    }
  }

  // `t` ends the entry before it, and `rest` are the entries of `t`.
  ghost predicate Ends(core: string, t: string, rest: seq<string>) {
    && Entries(Split(t, 0, false)) == rest
    && forall b :: Blank(b) ==> Entries(Push(core + b, Split(t, 0, false))) == [core] + rest
  }

  lemma PlainEnds(core: string, end: Separator, s: string)
    requires Tight(core) && WellEnded(end) && !end.Slash? && (end.Nothing? ==> s == "")
    ensures Ends(core, End(end) + s, Entries(Split(s, 0, false)))
  {
    var t := End(end) + s;
    if end.Nothing? {
      assert t == "" && Split(t, 0, false) == [""] + [];
      forall b | Blank(b) ensures Entries(Push(core + b, Split(t, 0, false))) == [core] + Entries(Split(s, 0, false)) {
        EntriesClosed(core, b, []);
        EntriesDropEmpty([]);
      }
    } else {
      SplitEnd(end, s);
      EntriesDropEmpty(Split(s, 0, false));
      forall b | Blank(b) ensures Entries(Push(core + b, Split(t, 0, false))) == [core] + Entries(Split(s, 0, false)) {
        EntriesClosed(core, b, Split(s, 0, false));
      }
    }
  }

  // After the core of an entry comes white space, then what ends it.
  lemma {:induction false} EntriesTrail(core: string, sofar: string, w: string, t: string, rest: seq<string>)
    requires Tight(core) && Blank(sofar) && Blank(w)
    requires Ends(core, t, rest) || ('\n' in w && Entries(Split(t, 0, false)) == rest)
    ensures Entries(Push(core + sofar, Split(w + t, 0, false))) == [core] + rest
    decreases |w|
  {
    if w == "" {
      assert w + t == t;
    } else {
      var rs := Split(w[1..] + t, 0, false);
      SplitBlank(w, t);
      if w[0] == '\n' {
        EntriesClosed(core, sofar, rs);
        EntriesSkipBlank(w[1..], t);
      } else {
        PushPush(core + sofar, w[..1], rs);
        assert core + sofar + w[..1] == core + (sofar + w[..1]);
        EntriesTrail(core, sofar + w[..1], w[1..], t, rest);
      }
    }
  }

  // The texts the splitter makes of one entry. A `//` note is not taken for a comment: on the line of the value it
  // sticks to it, on a line of its own it is an entry of its own, and its commas separate entries.
  function PairPieces(e: Entry): seq<string> {
    if !e.layout.end.Slash? then [Core(e)]
    else
      var rs := Split(e.layout.end.note, 0, false);
      if OneLine(e.layout.trail) then [Strip(Core(e) + e.layout.trail + "//" + rs[0])] + Entries(rs[1..])
      else [Core(e)] + Entries(Push("//", rs))
  }

  function LineTexts(end: Separator): seq<string> {
    if end.Slash? then Entries(Push("//", Split(end.note, 0, false))) else []
  }

  function LinePieces(ls: seq<Line>): seq<string> {
    if ls == [] then [] else LineTexts(ls[0].end) + LinePieces(ls[1..])
  }

  function Pieces(e: Entry): seq<string> {
    LinePieces(e.layout.above) + PairPieces(e) + LinePieces(e.layout.below)
  }

  // The notes that settle are the ones that do not reach into the entries after them.
  predicate SettledEnd(end: Separator) {
    end.Slash? ==> Settles(end.note)
  }

  predicate SettledLines(ls: seq<Line>) {
    forall i :: 0 <= i < |ls| ==> SettledEnd(ls[i].end)
  }

  predicate SettledNotes(l: Layout) {
    SettledLines(l.above) && SettledEnd(l.end) && SettledLines(l.below)
  }

  ghost predicate Legible(es: seq<Entry>) {
    WellPrinted(es) && forall i :: 0 <= i < |es| ==> SettledNotes(es[i].layout)
  }

  lemma KeyTextOpens(e: Entry)
    requires WellFormed(e)
    ensures KeyText(e) != "" && !Space(KeyText(e)[0])
  {
    if e.layout.bare {
      BareTextMeans(e.key);
      hide Space, BareText, WellLaid, WellEscaped, PlainValue;
      KeyCharIsNoSpace(e.key[0]);
    }
  }

  lemma ValueCloses(e: Entry)
    requires WellFormed(e)
    ensures ValueOf(e) != "" && !Space(ValueOf(e)[|ValueOf(e)| - 1])
  {
    if e.layout.plain && PlainValue(e.value) {
      PlainChars(e.value);
      hide Space, BareText, WellLaid, WellEscaped, PlainValue;
      PlainCharIsNoSpace(e.value[|e.value| - 1]);
    }
  }

  lemma KeyCharIsNoSpace(c: char)
    requires KeyChar(c)
    ensures !Space(c)
  {
  }

  lemma PlainCharIsNoSpace(c: char)
    requires PlainChar(c)
    ensures !Space(c)
  {
  }

  lemma CoreIsTight(e: Entry)
    requires WellFormed(e)
    ensures Tight(Core(e))
  {
    KeyTextOpens(e);
    ValueCloses(e);
    hide WellFormed, KeyText, ValueOf, Space;
    var k, m, v := KeyText(e), e.layout.left + [e.layout.sign] + e.layout.right, ValueOf(e);
    assert Core(e) == k + m + v;
    assert (k + m + v)[0] == k[0] && (k + m + v)[|k + m + v| - 1] == v[|v| - 1];
  }

  lemma SlashSplit(note: string, s: string)
    requires '\n' !in note && Settles(note)
    ensures Split(End(Slash(note)) + s, 0, false) == Push("//", Split(note, 0, false) + Split(s, 0, false))
  {
    assert End(Slash(note)) + s == "//" + (note + ("\n" + s));
    SplitPlain("//", note + ("\n" + s), 0);
    SplitLine(note, s, 0, false);
  }

  lemma EntriesOfLine(l: Line, s: string)
    requires Blank(l.pad) && WellEnded(l.end) && !l.end.Nothing? && SettledEnd(l.end)
    ensures Entries(Split(l.pad + (End(l.end) + s), 0, false)) == LineTexts(l.end) + Entries(Split(s, 0, false))
  {
    EntriesSkipBlank(l.pad, End(l.end) + s);
    if l.end.Slash? {
      var rs, more := Split(l.end.note, 0, false), Split(s, 0, false);
      SlashSplit(l.end.note, s);
      PushBefore("//", rs, more);
      EntriesBoth(Push("//", rs), more);
    } else {
      SplitEnd(l.end, s);
      EntriesDropEmpty(Split(s, 0, false));
    }
  }

  lemma {:induction false} EntriesOfLines(ls: seq<Line>, s: string)
    requires WellLined(ls) && SettledLines(ls)
    ensures Entries(Split(PrintLines(ls) + s, 0, false)) == LinePieces(ls) + Entries(Split(s, 0, false))
  {
    if ls == [] {
      assert PrintLines(ls) + s == s;
    } else {
      FirstLine(ls, s);
      EntriesOfLine(ls[0], PrintLines(ls[1..]) + s);
      EntriesOfLines(ls[1..], s);
      hide *;
      Reassociate(LineTexts(ls[0].end), LinePieces(ls[1..]), Entries(Split(s, 0, false)));
    }
  }

  lemma FirstLine(ls: seq<Line>, s: string)
    requires ls != []
    ensures PrintLines(ls) + s == ls[0].pad + (End(ls[0].end) + (PrintLines(ls[1..]) + s))
    ensures LinePieces(ls) == LineTexts(ls[0].end) + LinePieces(ls[1..])
  {
    hide End, LineTexts;
    FourTexts(ls[0].pad, End(ls[0].end), PrintLines(ls[1..]), s);
  }

  lemma FourTexts(a: string, b: string, c: string, d: string)
    ensures a + b + c + d == a + (b + (c + d))
  {}

  lemma EntriesOfSlashAfter(e: Entry, s: string)
    requires WellFormed(e) && e.layout.end.Slash? && Settles(e.layout.end.note) && OneLine(e.layout.trail)
    ensures Entries(Push(Core(e), Split(e.layout.trail + (End(e.layout.end) + s), 0, false))) ==
            PairPieces(e) + Entries(Split(s, 0, false))
  {
    var l := e.layout;
    var t, rs, more := End(l.end) + s, Split(l.end.note, 0, false), Split(s, 0, false);
    SlashSplit(l.end.note, s);
    CoreIsTight(e);
    assert forall i :: 0 <= i < |l.trail| ==> l.trail[i] !in {'"', '{', '[', '(', ')', ']', '}', '#', '\n', ','};
    SplitPlain(l.trail, t, 0);
    hide Split, Settles, WellFormed, Core, Entries;
    PushPush(l.trail, "//", rs + more);
    PushPush(Core(e), l.trail + "//", rs + more);
    var w := Core(e) + l.trail + "//";
    assert Core(e) + (l.trail + "//") == w;
    PushBefore(w, rs, more);
    EntriesBoth(Push(w, rs), more);
    assert (w + rs[0])[0] == Core(e)[0];
    FirstEntry(w + rs[0], rs[1..]);
  }

  lemma FirstEntry(first: string, rest: seq<string>)
    requires first != "" && !Space(first[0])
    ensures Entries([first] + rest) == [Strip(first)] + Entries(rest)
  {
    StripKeepsHead(first);
    assert ([first] + rest)[1..] == rest;
  }

  lemma EntriesOfSlashBelow(e: Entry, s: string)
    requires WellFormed(e) && e.layout.end.Slash? && Settles(e.layout.end.note) && !OneLine(e.layout.trail)
    ensures Entries(Push(Core(e), Split(e.layout.trail + (End(e.layout.end) + s), 0, false))) ==
            PairPieces(e) + Entries(Split(s, 0, false))
  {
    var l, core := e.layout, Core(e);
    var t, rs, more := End(l.end) + s, Split(l.end.note, 0, false), Split(s, 0, false);
    var own := Entries(Push("//", rs));
    SlashSplit(l.end.note, s);
    CoreIsTight(e);
    assert Blank("") && core + "" == core && PairPieces(e) == [core] + own;
    hide Split, Settles, WellFormed, Core, Entries, Ends, Push, End, Tight, Blank, PairPieces;
    PushBefore("//", rs, more);
    EntriesBoth(Push("//", rs), more);
    EntriesTrail(core, "", l.trail, t, own + Entries(more));
    Reassociate([core], own, Entries(more));
  }

  lemma {:induction false} StripKeepsHead(s: string)
    requires s != "" && !Space(s[0])
    ensures RStrip(s) != "" && RStrip(s)[0] == s[0] && LStrip(s) == s && Strip(s) == RStrip(s)
  {
    if |s| > 1 && Space(s[|s| - 1]) { StripKeepsHead(s[..|s| - 1]); }
  }

  lemma EntriesOfPair(e: Entry, s: string)
    requires WellFormed(e) && SettledEnd(e.layout.end) && (e.layout.end.Nothing? ==> s == "")
    ensures Entries(Split(PrintPair(e) + s, 0, false)) == PairPieces(e) + Entries(Split(s, 0, false))
  {
    var l := e.layout;
    var t := End(l.end) + s;
    PairText(e, s);
    assert Blank("") && Core(e) + "" == Core(e);
    hide Split, Core, End, Entries, Tight, Blank, Ends, Push, PrintPair, Settles;
    EntriesSkipBlank(l.lead, Core(e) + (l.trail + t));
    SplitCore(e, l.trail + t, 0);
    if l.end.Slash? {
      if OneLine(l.trail) { EntriesOfSlashAfter(e, s); } else { EntriesOfSlashBelow(e, s); }
    } else {
      CoreIsTight(e);
      PlainEnds(Core(e), l.end, s);
      EntriesTrail(Core(e), "", l.trail, t, Entries(Split(s, 0, false)));
    }
  }

  lemma EntriesOfEntry(e: Entry, s: string)
    requires WellFormed(e) && SettledNotes(e.layout) && (e.layout.end.Nothing? ==> s == "")
    ensures Entries(Split(PrintEntry(e) + s, 0, false)) == Pieces(e) + Entries(Split(s, 0, false))
  {
    var t := PrintLines(e.layout.below) + s;
    EntryText(e, s);
    hide Split, Entries, PrintPair, PairPieces, SettledEnd, WellLined, SettledLines;
    EntriesOfLines(e.layout.above, PrintPair(e) + t);
    EntriesOfPair(e, t);
    EntriesOfLines(e.layout.below, s);
  }

  function AllPieces(es: seq<Entry>): seq<string> {
    if es == [] then [] else Pieces(es[0]) + AllPieces(es[1..])
  }

  lemma {:induction false} EntriesOfPrint(es: seq<Entry>)
    requires Legible(es)
    ensures Entries(Split(Print(es), 0, false)) == AllPieces(es)
  {
    if es == [] {
      assert Split("", 0, false) == [""] && Entries([""]) == Entries([""][1..]);
    } else {
      EntriesOfEntry(es[0], Print(es[1..]));
      EntriesOfPrint(es[1..]);
    }
  }

  // ----- One printed entry reads back.

  lemma {:induction false} UntilQuote(k: string, s: string)
    requires '"' !in k
    ensures Until(k + ("\"" + s), '"') == |k|
  {
    if k == "" {
      assert k + ("\"" + s) == "\"" + s;
    } else {
      assert (k + ("\"" + s))[1..] == k[1..] + ("\"" + s);
      UntilQuote(k[1..], s);
    }
  }

  lemma QuoteReadsBack(v: string)
    ensures Literal(Quote(v)) == Inner(v) && LStrip(Quote(v)) == Quote(v)
  {
    assert Quote(v) + "" == Quote(v);
    StripTight(Quote(v), "");
    assert Quote(v)[1..|v| + 1] == v;
  }

  // A text that can follow the sign. If a colon glues it to the key, it starts with a quote or is free of white space
  // and signs.
  predicate ValueLike(l: Layout, raw: string) {
    && raw != "" && !Space(raw[0]) && raw[0] !in {'=', ':'}
    && (Glued(l) ==> raw[0] == '"' || forall i :: 0 <= i < |raw| ==> !Space(raw[i]) && raw[i] !in {'=', ':'})
  }

  lemma ValuesAreValueLike(e: Entry)
    requires WellFormed(e)
    ensures ValueLike(e.layout, ValueOf(e))
  {
    if e.layout.plain && PlainValue(e.value) {
      PlainChars(e.value);
      forall i | 0 <= i < |e.value| ensures !Space(e.value[i]) && e.value[i] !in {'=', ':'} {
        PlainCharIsNoSpace(e.value[i]);
      }
    }
  }

  lemma AssignedReadsBack(l: Layout, raw: string)
    requires WellLaid(l) && ValueLike(l, raw)
    ensures Assigned(l.left + [l.sign] + l.right + raw) == Some(raw)
    ensures Assigned(l.right + raw) == None
  {
    var t := [l.sign] + (l.right + raw);
    assert l.left + [l.sign] + l.right + raw == l.left + t;
    LStripBlank(l.left, t);
    assert t[1..] == l.right + raw;
    LStripBlank(l.right, raw);
  }

  lemma KeyReadsBack(k: string, after: string)
    requires WellKeyed(k) && Assigned(after).Some?
    ensures KeyValue(Quote(k) + after) == Some((k, Assigned(after).value))
  {
    var entry := Quote(k) + after;
    assert entry[1..] == k + ("\"" + after);
    UntilQuote(k, after);
    assert entry[|k| + 2..] == after && entry[1..|k| + 1] == k;
  }

  lemma {:induction false} KeyRunOver(k: string, s: string)
    requires KeyChars(k)
    ensures KeyRun(k + s) == |k| + KeyRun(s)
  {
    if k == "" {
      assert k + s == s;
    } else {
      assert (k + s)[1..] == k[1..] + s && KeyChar(k[0]);
      KeyRunOver(k[1..], s);
    }
  }

  // Shorter keys are tried as long as no assignment follows.
  lemma {:induction false} BareKeyBack(entry: string, n: nat, m: nat)
    requires m <= n <= |entry| && forall p :: m < p <= n ==> Assigned(entry[p..]) == None
    ensures BareKey(entry, n) == BareKey(entry, m)
  {
    hide Assigned;
    if m < n { BareKeyBack(entry, n - 1, m); }
  }

  // How far key characters can run on after the key: over a colon right after it, and then into an unspaced value.
  lemma RunEnds(l: Layout, raw: string)
    requires WellLaid(l) && ValueLike(l, raw)
    ensures KeyRun(l.left + [l.sign] + l.right + raw) ==
            if l.left != "" || l.sign == '=' then 0 else if l.right != "" then 1 else 1 + KeyRun(raw)
  {
    var after := l.left + [l.sign] + l.right + raw;
    if l.left == "" {
      assert after[0] == l.sign && after[1..] == l.right + raw;
      if l.right == "" { assert l.right + raw == raw; } else { assert (l.right + raw)[0] == l.right[0]; }
    } else {
      assert after[0] == l.left[0] && Space(l.left[0]);
    }
  }

  // No assignment follows within that run.
  lemma NothingAssignedAfter(l: Layout, raw: string, p: nat)
    requires WellLaid(l) && ValueLike(l, raw)
    requires 0 < p <= KeyRun(l.left + [l.sign] + l.right + raw)
    ensures Assigned((l.left + [l.sign] + l.right + raw)[p..]) == None
  {
    var after := l.left + [l.sign] + l.right + raw;
    RunEnds(l, raw);
    assert after[1..] == l.right + raw;
    if p == 1 {
      AssignedReadsBack(l, raw);
    } else {
      assert after[p..] == raw[p - 1..];
      NoSignAssigns(raw[p - 1..]);
    }
  }

  lemma NoSignAssigns(s: string)
    requires forall i :: 0 <= i < |s| ==> !Space(s[i]) && s[i] !in {'=', ':'}
    ensures Assigned(s) == None
  {}

  // A bare key reads back, also when the sign after it could belong to it.
  lemma BareKeyReadsBack(k: string, l: Layout, raw: string)
    requires k != "" && KeyChars(k) && WellLaid(l) && ValueLike(l, raw)
    ensures KeyValue(k + (l.left + [l.sign] + l.right + raw)) == Some((k, raw))
  {
    var after := l.left + [l.sign] + l.right + raw;
    var entry := k + after;
    AssignedReadsBack(l, raw);
    KeyRunOver(k, after);
    assert KeyChar(k[0]) && entry[0] == k[0];
    assert entry[|k|..] == after && entry[..|k|] == k;
    hide Assigned, KeyRun;
    forall p | |k| < p <= |k| + KeyRun(after) ensures Assigned(entry[p..]) == None {
      assert entry[p..] == after[p - |k|..];
      NothingAssignedAfter(l, raw, p - |k|);
    }
    BareKeyBack(entry, |k| + KeyRun(after), |k|);
    assert BareKey(entry, |k|) == Some((k, raw));
  }

  lemma HeadReadsBack(e: Entry, raw: string)
    requires WellFormed(e) && ValueLike(e.layout, raw)
    ensures KeyValue(Head(e) + raw) == Some((e.key, raw))
  {
    var l := e.layout;
    var after := l.left + [l.sign] + l.right + raw;
    assert Head(e) + raw == KeyText(e) + after;
    if l.bare {
      BareTextMeans(e.key);
      BareKeyReadsBack(e.key, l, raw);
    } else {
      AssignedReadsBack(l, raw);
      KeyReadsBack(e.key, after);
    }
  }

  lemma CoreReadsBack(e: Entry)
    requires WellFormed(e)
    ensures KeyValue(Core(e)) == Some((e.key, ValueOf(e))) && Literal(ValueOf(e)) == Meant(e)
  {
    ValuesAreValueLike(e);
    HeadReadsBack(e, ValueOf(e));
    if !e.layout.plain {
      QuoteReadsBack(e.value);
    } else if PlainValue(e.value) {
      PlainReadsBack(e.value);
    } else {
      UnquotedReads(e.value);
    }
  }

  /** What an unquoted value text reads as: itself if it is true, false or a number, and unknown otherwise. */
  lemma UnquotedReads(v: string)
    requires Tight(v) && (v[0] != '"' || v[|v| - 1] != '"' || |v| == 1)
    ensures Literal(v) == if PlainValue(v) then v else UNKNOWN_VALUE
  {
    assert v + "" == v;
    StripTight(v, "");
    PlainValueMeans(v);
    hide Number, PlainValue, Strip;
  }

  lemma PlainReadsBack(v: string)
    requires PlainValue(v)
    ensures Literal(v) == v
  {
    PlainChars(v);
    assert PlainChar(v[0]) && PlainChar(v[|v| - 1]);
    UnquotedReads(v);
  }

  lemma ReadBody(body: string, rest: string)
    requires Close(body + ("}" + rest), 1, Code) == |body|
    ensures ReadTags("{" + body + "}" + rest) == Some(TagsOf(Entries(Split(body, 0, false)), map[]))
  {
    var text := "{" + body + "}" + rest;
    assert text[1..] == body + ("}" + rest);
    assert Close(text, 0, Code) == |body| + 1;
    assert text[1..|body| + 1] == body;
  }

  /** What a printed map reads as, whatever its strings and notes hold, however it is laid out, and whatever text
      follows it: the pairs in the pieces of its entries, as long as every `//` note settles. */
  lemma ReadsAsPieces(es: seq<Entry>, rest: string)
    requires Legible(es)
    ensures ReadTags("{" + Print(es) + "}" + rest) == Some(TagsOf(AllPieces(es), map[]))
  {
    CloseEntries(es, "}" + rest, 1);
    assert Close("}" + rest, 1, Code) == 0;
    ReadBody(Print(es), rest);
    EntriesOfPrint(es);
  }

  // No comment starts with `//`.
  predicate NoSlashes(l: Layout) {
    && !l.end.Slash?
    && (forall i :: 0 <= i < |l.above| ==> !l.above[i].end.Slash?)
    && (forall i :: 0 <= i < |l.below| ==> !l.below[i].end.Slash?)
  }

  lemma {:induction false} QuietLines(ls: seq<Line>)
    requires forall i :: 0 <= i < |ls| ==> !ls[i].end.Slash?
    ensures LinePieces(ls) == []
  {
    if ls != [] { QuietLines(ls[1..]); }
  }

  lemma NoSlashPieces(e: Entry)
    requires NoSlashes(e.layout)
    ensures Pieces(e) == [Core(e)] && SettledNotes(e.layout)
  {
    QuietLines(e.layout.above);
    QuietLines(e.layout.below);
  }

  lemma {:induction false} TagsOfCores(es: seq<Entry>, tags: map<string, string>)
    requires WellPrinted(es) && forall i :: 0 <= i < |es| ==> NoSlashes(es[i].layout)
    ensures TagsOf(AllPieces(es), tags) == Intended(es, tags)
  {
    if es != [] {
      CoreReadsBack(es[0]);
      NoSlashPieces(es[0]);
      assert AllPieces(es)[1..] == AllPieces(es[1..]);
      TagsOfCores(es[1..], tags[es[0].key := Meant(es[0])]);
    }
  }

  /** Round trip: a printed map reads back as printed, whatever braces, commas, newlines or comment marks its strings
      and `#` notes hold, however it is laid out, and whatever text follows it. */
  lemma RoundTrip(es: seq<Entry>, rest: string)
    requires WellPrinted(es) && forall i :: 0 <= i < |es| ==> NoSlashes(es[i].layout)
    ensures ReadTags("{" + Print(es) + "}" + rest) == Some(Intended(es, map[]))
  {
    forall i | 0 <= i < |es| ensures SettledNotes(es[i].layout) { NoSlashPieces(es[i]); }
    ReadsAsPieces(es, rest);
    TagsOfCores(es, map[]);
  }

  // With distinct keys nothing is overwritten: the map holds exactly the printed pairs.
  lemma {:induction false} IntendedExactly(es: seq<Entry>, tags: map<string, string>)
    requires forall i, j :: 0 <= i < j < |es| ==> es[i].key != es[j].key
    ensures forall i :: 0 <= i < |es| ==> es[i].key in Intended(es, tags) &&
                                          Intended(es, tags)[es[i].key] == Meant(es[i])
    ensures forall k :: k in Intended(es, tags) && (forall i :: 0 <= i < |es| ==> es[i].key != k) ==>
                          k in tags && Intended(es, tags)[k] == tags[k]
    ensures forall k :: k in tags && (forall i :: 0 <= i < |es| ==> es[i].key != k) ==>
                          k in Intended(es, tags) && Intended(es, tags)[k] == tags[k]
  {
    if es != [] {
      IntendedExactly(es[1..], tags[es[0].key := Meant(es[0])]);
      forall i | 0 <= i < |es|
        ensures es[i].key in Intended(es, tags) && Intended(es, tags)[es[i].key] == Meant(es[i])
      {
        if i > 0 { assert es[1..][i - 1] == es[i]; }
      }
    }
  }

  // ----- What is no tag.

  lemma {:induction false} KeyRunStops(s: string, b: nat)
    requires b < |s| && !KeyChar(s[b])
    ensures KeyRun(s) <= b
  {
    if b > 0 { KeyRunStops(s[1..], b - 1); }
  }

  lemma {:induction false} RunsAreKeyChars(s: string)
    ensures KeyChars(s[..KeyRun(s)])
  {
    if s != "" && KeyChar(s[0]) {
      RunsAreKeyChars(s[1..]);
      var run := s[..KeyRun(s)];
      forall i | 0 <= i < |run| ensures KeyChar(run[i]) {
        if i > 0 { assert run[i] == s[1..][..KeyRun(s[1..])][i - 1]; }
      }
    }
  }

  lemma {:induction false} NothingLeft(s: string)
    ensures LStrip(s) == "" <==> Blank(s)
  {
    if s != "" && Space(s[0]) {
      NothingLeft(s[1..]);
      assert Blank(s) <==> Blank(s[1..]) by {
        assert forall i :: 1 <= i < |s| ==> s[i] == s[1..][i - 1];
        assert forall i :: 0 <= i < |s[1..]| ==> s[1..][i] == s[i + 1];
      }
    }
  }

  /** What an assignment gives: the text after the sign and the white space that follows, of which the last character is
      left if there is nothing else. */
  lemma AssignedMeans(pad: string, sign: char, rest: string)
    requires Blank(pad) && sign in {'=', ':'}
    ensures Assigned(pad + [sign] + rest) ==
            if rest == "" then None else if Blank(rest) then Some(rest[|rest| - 1..]) else Some(LStrip(rest))
  {
    LStripBlank(pad, [sign] + rest);
    SignStays(pad, sign, rest);
    NothingLeft(rest);
    hide LStrip, Space, Blank;
    if LStrip(rest) == "" && rest != "" { assert rest[|rest| - 1..] == [rest[|rest| - 1]]; }
  }

  lemma SignStays(pad: string, sign: char, rest: string)
    requires sign in {'=', ':'}
    ensures pad + [sign] + rest == pad + ([sign] + rest)
    ensures LStrip([sign] + rest) == [sign] + rest && ([sign] + rest)[1..] == rest
  {
    assert ([sign] + rest)[0] == sign;
  }

  // Something other than white space comes before the first sign.
  lemma {:induction false} OtherTextFirst(s: string, q: nat)
    requires q < |s| && !Space(s[q]) && forall i :: 0 <= i <= q ==> s[i] !in {'=', ':'}
    ensures Assigned(s) == None && LStrip(s) != "" && LStrip(s)[0] !in {'=', ':'}
  {
    if Space(s[0]) { OtherTextFirst(s[1..], q - 1); }
  }

  /** An entry without quotes at its start whose text before the sign holds anything but the characters of a bare key,
      white space before the sign aside, gives no tag. */
  lemma OtherKeysGiveNoTag(left: string, sign: char, rest: string, b: nat)
    requires left != "" && left[0] != '"' && sign in {'=', ':'}
    requires forall i :: 0 <= i < |left| ==> left[i] !in {'=', ':'}
    requires b < |RStrip(left)| && RStrip(left)[b] !in UPPER + LOWER + DIGITS + MARKS
    ensures KeyValue(left + [sign] + rest) == None
  {
    var entry, q := left + [sign] + rest, |RStrip(left)| - 1;
    RStripPrefix(left);
    BareCharacters(left[b]);
    assert entry[b] == left[b] && entry[q] == left[q];
    KeyRunStops(entry, b);
    hide KeyRun;
    forall m | 0 < m <= KeyRun(entry) ensures Assigned(entry[m..]) == None {
      assert forall i :: m <= i <= q ==> entry[i] == left[i];
      OtherTextFirst(entry[m..], q - m);
    }
    hide Assigned;
    BareKeyBack(entry, KeyRun(entry), 0);
  }

  lemma {:induction false} RStripPrefix(s: string)
    ensures RStrip(s) <= s && (RStrip(s) != "" ==> !Space(RStrip(s)[|RStrip(s)| - 1]))
  {
    if s != "" && Space(s[|s| - 1]) { RStripPrefix(s[..|s| - 1]); }
  }

  /** Every key that is read without quotes is made of those characters, and stands at the start of its entry. */
  lemma ReadKeysAreBare(entry: string)
    requires entry != "" && entry[0] != '"' && KeyValue(entry).Some?
    ensures BareText(KeyValue(entry).value.0) && KeyValue(entry).value.0 <= entry
  {
    RunsAreKeyChars(entry);
    hide Assigned;
    KeysWithinRun(entry, KeyRun(entry));
    BareTextMeans(KeyValue(entry).value.0);
  }

  lemma {:induction false} KeysWithinRun(entry: string, n: nat)
    requires n <= |entry| && KeyChars(entry[..n])
    ensures BareKey(entry, n).Some? ==>
      var k := BareKey(entry, n).value.0; k != "" && KeyChars(k) && k <= entry
  {
    hide Assigned;
    if n > 0 {
      assert forall i :: 0 <= i < n - 1 ==> entry[..n - 1][i] == entry[..n][i];
      KeysWithinRun(entry, n - 1);
    }
  }

  /** A value in quotes is not known if an interpolation starts in it, and is itself otherwise. */
  lemma MeantIs(e: Entry)
    requires !e.layout.plain
    ensures Meant(e) ==
            if exists i :: 0 <= i < |e.value| - 1 && e.value[i] == '$' && e.value[i + 1] == '{' then "<computed>"
            else e.value
  {
    var v := e.value;
    if i :| 0 <= i < |v| - 1 && v[i] == '$' && v[i + 1] == '{' {
      assert v[i..][0] == '$' && v[i..][1] == '{';
      assert "${" <= v[i..];
    }
    if k :| 0 <= k <= |v| && "${" <= v[k..] {
      assert v[k..][0] == '$' && v[k..][1] == '{';
      assert v[k] == '$' && v[k + 1] == '{';
    }
  }
}
