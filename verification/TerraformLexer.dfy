/** The two scanners that read a literal `tags = { ... }` map from Terraform source. */
module TerraformLexer {
  import opened Text

  // ----- The scanner that finds the closing brace.

  datatype Mode = Code | Str | Esc | Comment

  predicate StartsComment(s: string)
    requires s != ""
  {
    s[0] == '#' || (s[0] == '/' && |s| > 1 && s[1] == '/')
  }

  // The mode after the first character of `s`.
  function Next(s: string, mode: Mode): Mode
    requires s != ""
  {
    match mode
    case Str => if s[0] == '"' then Code else if s[0] == '\\' then Esc else Str
    case Esc => Str
    case Comment => if s[0] == '\n' then Code else Comment
    case Code => if s[0] == '"' then Str else if StartsComment(s) then Comment else Code
  }

  // What the first character adds to the brace depth.
  function Delta(s: string, mode: Mode): int
    requires s != ""
  {
    if mode == Code && s[0] == '{' then 1 else if mode == Code && s[0] == '}' then -1 else 0
  }

  // The offset of the brace that brings `depth` back to 0, or -1.
  function Close(s: string, depth: int, mode: Mode): int {
    if s == "" then -1
    else if mode == Code && s[0] == '}' && depth == 1 then 0
    else Shift(1, Close(s[1..], depth + Delta(s, mode), Next(s, mode)))
  }

  function Shift(k: nat, r: int): int {
    if r < 0 then -1 else k + r
  }

  // The reference: mode and depth after `n` characters, and the braces that balance.
  function ModeAfter(s: string, mode: Mode, n: nat): Mode
    requires n <= |s|
  {
    if n == 0 then mode else ModeAfter(s[1..], Next(s, mode), n - 1)
  }

  function DepthAfter(s: string, mode: Mode, n: nat): int
    requires n <= |s|
  {
    if n == 0 then 0 else Delta(s, mode) + DepthAfter(s[1..], Next(s, mode), n - 1)
  }

  predicate Balances(s: string, depth: int, mode: Mode, n: nat) {
    n < |s| && s[n] == '}' && ModeAfter(s, mode, n) == Code && depth + DepthAfter(s, mode, n + 1) == 0
  }

  /** `Close` finds the first closing brace in code that balances, and fails only if there is none. */
  lemma {:induction false} CloseIsFirstBalance(s: string, depth: int, mode: Mode)
    ensures var r := Close(s, depth, mode);
            if r < 0 then r == -1 && forall n: nat :: !Balances(s, depth, mode, n)
            else Balances(s, depth, mode, r) && forall n: nat :: n < r ==> !Balances(s, depth, mode, n)
  {
    if s != "" {
      var depth', mode' := depth + Delta(s, mode), Next(s, mode);
      assert Balances(s, depth, mode, 0) <==> mode == Code && s[0] == '}' && depth == 1 by {
        assert DepthAfter(s, mode, 1) == Delta(s, mode) + DepthAfter(s[1..], mode', 0);
      }
      forall n: nat | n > 0 ensures Balances(s, depth, mode, n) <==> Balances(s[1..], depth', mode', n - 1) {
        if n < |s| {
          assert DepthAfter(s, mode, n + 1) == Delta(s, mode) + DepthAfter(s[1..], mode', n);
        }
      }
      CloseIsFirstBalance(s[1..], depth', mode');
    }
  }

  // `Close` from index `i`.
  function CloseFrom(text: string, i: nat, depth: int, mode: Mode): int
    requires i <= |text|
  {
    Shift(i, Close(text[i..], depth, mode))
  }

  lemma CloseFromNext(text: string, i: nat, depth: int, mode: Mode)
    requires i < |text|
    ensures CloseFrom(text, i, depth, mode) ==
            if mode == Code && text[i] == '}' && depth == 1 then i
            else CloseFrom(text, i + 1, depth + Delta(text[i..], mode), Next(text[i..], mode))
  {
    assert text[i..][1..] == text[i + 1..];
  }

  lemma CloseFromEnd(text: string, depth: int, mode: Mode)
    ensures CloseFrom(text, |text|, depth, mode) == -1
  {
    assert text[|text|..] == "";
  }

  method MatchBrace(text: string, open: nat) returns (r: int)
    requires open < |text|
    ensures r == CloseFrom(text, open, 0, Code)
  {
    hide CloseFrom;
    var depth, i, n := 0, open, |text|;
    ghost var goal := CloseFrom(text, open, 0, Code);
    while i < n
      invariant i <= n + 2
      invariant if i <= n then goal == CloseFrom(text, i, depth, Code) else goal == -1
    {
      CloseFromNext(text, i, depth, Code);
      var c := text[i];
      if c == '"' {
        i := i + 1;
        while i < n && text[i] != '"'
          invariant i <= n + 1
          invariant if i <= n then goal == CloseFrom(text, i, depth, Str) else goal == -1
        {
          CloseFromNext(text, i, depth, Str);
          if i + 1 < n { CloseFromNext(text, i + 1, depth, Esc); }
          else { CloseFromEnd(text, depth, Esc); }
          i := i + if text[i] == '\\' then 2 else 1;
        }
        if i < n { CloseFromNext(text, i, depth, Str); }
        else { CloseFromEnd(text, depth, Str); }
      } else if c == '#' || (i + 1 < n && text[i] == '/' && text[i + 1] == '/') {
        i := i + 1;
        while i < n && text[i] != '\n'
          invariant i <= n
          invariant goal == CloseFrom(text, i, depth, Comment)
        {
          CloseFromNext(text, i, depth, Comment);
          i := i + 1;
        }
        if i < n { CloseFromNext(text, i, depth, Comment); }
        else { CloseFromEnd(text, depth, Comment); }
      } else if c == '{' {
        depth := depth + 1;
      } else if c == '}' {
        depth := depth - 1;
        if depth == 0 { return i; }
      }
      i := i + 1;
    }
    CloseFromEnd(text, depth, Code);
    return -1;
  }

  // ----- The scanner that splits the map into entries.

  // Put `c` in front of the first entry.
  function Push(w: string, rs: seq<string>): seq<string>
    requires rs != []
  {
    [w + rs[0]] + rs[1..]
  }

  lemma PushPush(a: string, b: string, rs: seq<string>)
    requires rs != []
    ensures Push(a, Push(b, rs)) == Push(a + b, rs)
  {
    assert a + (b + rs[0]) == a + b + rs[0];
  }

  lemma PushNothing(rs: seq<string>)
    requires rs != []
    ensures Push("", rs) == rs
  {
    assert "" + rs[0] == rs[0];
  }

  lemma PushClosed(a: string, rs: seq<string>)
    ensures Push(a, [""] + rs) == [a] + rs
  {
    assert a + "" == a;
  }

  // The raw entries of `s`, from nesting depth `depth`.
  function Split(s: string, depth: int, inStr: bool): (rs: seq<string>)
    ensures rs != []
    decreases |s|
  {
    if s == "" then [""]
    else if inStr then
      if s[0] == '\\' && |s| > 1 then Push(s[..2], Split(s[2..], depth, true))
      else Push(s[..1], Split(s[1..], depth, s[0] != '"'))
    else if s[0] == '"' then Push(s[..1], Split(s[1..], depth, true))
    else if s[0] in {'{', '[', '('} then Push(s[..1], Split(s[1..], depth + 1, false))
    else if s[0] in {'}', ']', ')'} then Push(s[..1], Split(s[1..], depth - 1, false))
    else if s[0] == '#' && depth == 0 then Split(AfterComment(s), 0, false)
    else if s[0] in {'\n', ','} && depth == 0 then [""] + Split(s[1..], 0, false)
    else Push(s[..1], Split(s[1..], depth, false))
  }

  // From the newline that ends a comment.
  function AfterComment(s: string): (r: string)
    ensures |r| <= |s| && (s != "" && s[0] != '\n' ==> |r| < |s|)
  {
    if s == "" || s[0] == '\n' then s else AfterComment(s[1..])
  }

  // The entries that are not blank, stripped.
  function Entries(rs: seq<string>): seq<string> {
    if rs == [] then []
    else if Strip(rs[0]) == "" then Entries(rs[1..])
    else [Strip(rs[0])] + Entries(rs[1..])
  }

  // What the scanner still produces at index `i` with `buf` collected so far.
  function Rest(buf: string, body: string, i: nat, depth: int, inStr: bool): seq<string>
    requires i <= |body|
  {
    Push(buf, Split(body[i..], depth, inStr))
  }

  predicate EndsEntry(c: char, depth: int, inStr: bool) {
    !inStr && depth == 0 && c in {'#', '\n', ','}
  }

  lemma RestChar(buf: string, body: string, i: nat, depth: int, inStr: bool)
    requires i < |body| && !EndsEntry(body[i], depth, inStr) && !(inStr && body[i] == '\\' && i + 1 < |body|)
    ensures var c := body[i];
            Rest(buf, body, i, depth, inStr) ==
            Rest(buf + [c], body, i + 1,
                 if inStr || c == '"' then depth else if c in {'{', '[', '('} then depth + 1
                 else if c in {'}', ']', ')'} then depth - 1 else depth,
                 if c == '"' then !inStr else inStr)
  {
    var here := body[i..];
    assert here[1..] == body[i + 1..] && here[..1] == [body[i]];
    PushPush(buf, here[..1], Split(here[1..],
                 if inStr || body[i] == '"' then depth else if body[i] in {'{', '[', '('} then depth + 1
                 else if body[i] in {'}', ']', ')'} then depth - 1 else depth,
                 if body[i] == '"' then !inStr else inStr));
  }

  lemma RestEscape(buf: string, body: string, i: nat, depth: int)
    requires i + 1 < |body| && body[i] == '\\'
    ensures Rest(buf, body, i, depth, true) == Rest(buf + [body[i]] + [body[i + 1]], body, i + 2, depth, true)
  {
    var here := body[i..];
    assert here[2..] == body[i + 2..] && here[..2] == [body[i]] + [body[i + 1]];
    PushPush(buf, here[..2], Split(here[2..], depth, true));
    assert buf + here[..2] == buf + [body[i]] + [body[i + 1]];
  }

  lemma RestSeparator(buf: string, body: string, i: nat)
    requires i < |body| && body[i] in {'\n', ','}
    ensures Rest(buf, body, i, 0, false) == [buf] + Rest("", body, i + 1, 0, false)
  {
    assert body[i..][1..] == body[i + 1..];
    PushClosed(buf, Split(body[i + 1..], 0, false));
    PushNothing(Split(body[i + 1..], 0, false));
  }

  lemma RestComment(buf: string, body: string, i: nat, j: nat)
    requires i < j <= |body| && body[i] == '#' && body[j..] == AfterComment(body[i..])
    ensures Rest(buf, body, i, 0, false) == Rest(buf, body, j, 0, false)
  {}

  lemma RestEnd(buf: string, body: string, depth: int, inStr: bool)
    ensures Rest(buf, body, |body|, depth, inStr) == [buf]
  {
    PushClosed(buf, []);
    assert Split(body[|body|..], depth, inStr) == [""] + [];
  }

  lemma Reassociate(a: seq<string>, b: seq<string>, c: seq<string>)
    ensures a + (b + c) == a + b + c
  {}

  method SkipComment(body: string, from: nat) returns (i: nat)
    requires from < |body| && body[from] == '#'
    ensures from < i <= |body| && body[i..] == AfterComment(body[from..])
  {
    i := from;
    while i < |body| && body[i] != '\n'
      invariant from <= i <= |body|
      invariant AfterComment(body[i..]) == AfterComment(body[from..])
    {
      assert body[i..][1..] == body[i + 1..];
      i := i + 1;
    }
  }

  method SplitEntries(body: string) returns (r: seq<string>)
    ensures r == Entries(Split(body, 0, false))
  {
    var entries: seq<string>, buf := [], "";
    var depth, inStr, i := 0, false, 0;
    ghost var goal := Split(body, 0, false);
    assert Rest(buf, body, 0, 0, false) == goal by {
      assert body[0..] == body;
      PushNothing(goal);
    }
    hide Rest, Entries;
    while i < |body|
      invariant i <= |body|
      invariant goal == entries + Rest(buf, body, i, depth, inStr)
      decreases |body| - i
    {
      var c := body[i];
      if inStr {
        if c == '\\' && i + 1 < |body| {
          RestEscape(buf, body, i, depth);
        } else {
          RestChar(buf, body, i, depth, inStr);
        }
        buf := buf + [c];
        if c == '\\' && i + 1 < |body| {
          buf := buf + [body[i + 1]];
          i := i + 1;
        } else if c == '"' {
          inStr := false;
        }
      } else if c == '"' {
        RestChar(buf, body, i, depth, inStr);
        inStr := true;
        buf := buf + [c];
      } else if c in {'{', '[', '('} {
        RestChar(buf, body, i, depth, inStr);
        depth := depth + 1;
        buf := buf + [c];
      } else if c in {'}', ']', ')'} {
        RestChar(buf, body, i, depth, inStr);
        depth := depth - 1;
        buf := buf + [c];
      } else if c == '#' && depth == 0 {
        var j := SkipComment(body, i);
        RestComment(buf, body, i, j);
        i := j;
        continue;
      } else if c in {'\n', ','} && depth == 0 {
        RestSeparator(buf, body, i);
        Reassociate(entries, [buf], Rest("", body, i + 1, 0, false));
        entries := entries + [buf];
        buf := "";
      } else {
        RestChar(buf, body, i, depth, inStr);
        buf := buf + [c];
      }
      i := i + 1;
    }
    RestEnd(buf, body, depth, inStr);
    entries := entries + [buf];
    r := KeepNonBlank(entries);
  }

  method KeepNonBlank(entries: seq<string>) returns (r: seq<string>)
    ensures r == Entries(entries)
  {
    r := [];
    var k := 0;
    assert entries[0..] == entries;
    while k < |entries|
      invariant k <= |entries|
      invariant Entries(entries) == r + Entries(entries[k..])
    {
      assert entries[k..][1..] == entries[k + 1..];
      var e := Strip(entries[k]);
      if e != "" { r := r + [e]; }
      k := k + 1;
    }
  }
}
