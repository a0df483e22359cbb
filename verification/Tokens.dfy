/** What the tokens of any line are, printed or not, told without the scanner. */
module Tokens {
  import opened Json
  import opened Highlight

  /** Unicode White_Space. */
  const BLANKS: string := "\t\n\U{0B}\U{0C}\r \U{85}\U{A0}\U{1680}\U{2000}\U{2001}\U{2002}\U{2003}\U{2004}\U{2005}\U{2006}"
    + "\U{2007}\U{2008}\U{2009}\U{200A}\U{2028}\U{2029}\U{202F}\U{205F}\U{3000}"
  const LOWER: string := "abcdefghijklmnopqrstuvwxyz"
  const UPPER: string := "ABCDEFGHIJKLMNOPQRSTUVWXYZ"

  /** The characters the scanner takes for blanks, letters and parts of numbers. */
  lemma Alphabets(c: char)
    ensures IsWhitespace(c) <==> c in BLANKS
    ensures IsAlphabetic(c) <==> c in LOWER || c in UPPER
    ensures IsNumberPart(c) <==> c in "0123456789.eE+-"
  {
  }

  /** What can stand between quotes: plain characters, and backslashes each with the
      character it escapes. */
  predicate Inside(t: string) {
    if t == "" then true
    else if t[0] == '\\' then |t| >= 2 && Inside(t[2..])
    else t[0] != '"' && Inside(t[1..])
  }

  /** The `n`-th character after the quote that begins a string is the one that ends it. */
  predicate ClosedAt(t: string, n: nat) {
    1 <= n <= |t| && t[n - 1] == '"' && Inside(t[..n - 1])
  }

  /** A string: up to the quote that closes it, or all the line if none does. */
  ghost predicate IsString(s: string, n: nat) {
    && 1 <= n <= |s| && s[0] == '"'
    && (ClosedAt(s[1..], n - 1) || (n == |s| && forall m :: !ClosedAt(s[1..], m)))
  }

  /** As many further characters of one kind as there are. */
  ghost predicate IsRun(s: string, n: nat, kind: char -> bool) {
    1 <= n <= |s| && (forall i :: 1 <= i < n ==> kind(s[i])) && (n < |s| ==> !kind(s[n]))
  }

  ghost predicate BeforeColon(s: string) {
    exists i :: 0 <= i < |s| && s[i] == ':' && forall j :: 0 <= j < i ==> IsWhitespace(s[j])
  }

  /** The first `n` characters are a token of this class. */
  ghost predicate IsToken(s: string, n: nat, kind: Class)
    requires s != ""
  {
    match kind
    case Space => IsWhitespace(s[0]) && IsRun(s, n, IsWhitespace)
    case Key => IsString(s, n) && BeforeColon(s[n..])
    case Str => IsString(s, n) && !BeforeColon(s[n..])
    case Num => (s[0] == '-' || IsDigit(s[0])) && IsRun(s, n, IsNumberPart)
    case Literal => IsAlphabetic(s[0]) && IsRun(s, n, IsAlphabetic)
    case Punct =>
      n == 1 && s[0] != '"' && s[0] != '-' && !IsDigit(s[0]) && !IsAlphabetic(s[0]) && !IsWhitespace(s[0])
  }

  lemma {:induction false} SpaceRunIsLongest(s: string)
    ensures forall i :: 0 <= i < SpaceRun(s) ==> IsWhitespace(s[i])
    ensures SpaceRun(s) < |s| ==> !IsWhitespace(s[SpaceRun(s)])
  {
    if s != "" {
      SpaceRunIsLongest(s[1..]);
    }
  }

  lemma {:induction false} NumberRunIsLongest(s: string)
    ensures forall i :: 0 <= i < NumberRun(s) ==> IsNumberPart(s[i])
    ensures NumberRun(s) < |s| ==> !IsNumberPart(s[NumberRun(s)])
  {
    if s != "" {
      NumberRunIsLongest(s[1..]);
    }
  }

  lemma {:induction false} AlphaRunIsLongest(s: string)
    ensures forall i :: 0 <= i < AlphaRun(s) ==> IsAlphabetic(s[i])
    ensures AlphaRun(s) < |s| ==> !IsAlphabetic(s[AlphaRun(s)])
  {
    if s != "" {
      AlphaRunIsLongest(s[1..]);
    }
  }

  lemma RunExactly(s: string, n: nat, kind: char -> bool, run: nat)
    requires s != "" && run < |s|
    requires forall i :: 0 <= i < run ==> kind(s[1..][i])
    requires run < |s| - 1 ==> !kind(s[1..][run])
    ensures IsRun(s, n, kind) <==> n == 1 + run
  {
    assert forall i :: 1 <= i < |s| ==> s[i] == s[1..][i - 1];
    assert n > 1 + run && n <= |s| ==> !kind(s[1 + run]);
  }

  lemma InsidePair(t: string, m: nat)
    requires |t| >= 2 && t[0] == '\\'
    ensures ClosedAt(t, m) <==> m >= 2 && ClosedAt(t[2..], m - 2)
  {
    if 3 <= m <= |t| {
      assert t[..m - 1][2..] == t[2..][..m - 3];
    }
  }

  lemma InsidePlain(t: string, m: nat)
    requires t != "" && t[0] != '\\' && t[0] != '"'
    ensures ClosedAt(t, m) <==> m >= 1 && ClosedAt(t[1..], m - 1)
  {
    if 2 <= m <= |t| {
      assert t[..m - 1][1..] == t[1..][..m - 2];
    }
  }

  /** The flag-driven scanner stops where the string is closed, or nowhere. */
  lemma {:induction false} StringRunCloses(t: string, m: nat)
    ensures ClosedAt(t, m) ==> m == StringRun(t, false)
    ensures ClosedAt(t, StringRun(t, false)) || StringRun(t, false) == |t|
  {
    var n := StringRun(t, false);
    if t == "" {
    } else if t[0] == '"' {
      assert t[..0] == "";
    } else if t[0] != '\\' {
      StringRunCloses(t[1..], if m >= 1 then m - 1 else 0);
      InsidePlain(t, m);
      InsidePlain(t, n);
    } else if |t| >= 2 {
      StringRunCloses(t[2..], if m >= 2 then m - 2 else 0);
      assert t[1..][1..] == t[2..];
      InsidePair(t, m);
      InsidePair(t, n);
    }
  }

  lemma StringExactly(s: string, n: nat)
    requires s != "" && s[0] == '"'
    ensures IsString(s, n) <==> n == 1 + StringRun(s[1..], false)
  {
    var t := s[1..];
    StringRunCloses(t, if n >= 1 then n - 1 else 0);
    forall m | ClosedAt(t, m) ensures m == StringRun(t, false) {
      StringRunCloses(t, m);
    }
  }

  lemma ColonExactly(s: string)
    ensures ColonNext(s) <==> BeforeColon(s)
  {
    SpaceRunIsLongest(s);
    if ColonNext(s) {
      assert s[SpaceRun(s)] == ':';
    }
  }

  /** Of any line, printed or not, one round of the scanner takes exactly the token
      that is there, with its class: the longest run of its kind, or a string to the
      quote that closes it, which is a key if a colon is the next character but for
      white space. */
  lemma TokenExactly(s: string, n: nat, kind: Class)
    requires s != ""
    ensures IsToken(s, n, kind) <==> n == TokenLength(s) && kind == TokenClass(s)
  {
    if IsWhitespace(s[0]) {
      SpaceRunIsLongest(s[1..]);
      RunExactly(s, n, IsWhitespace, SpaceRun(s[1..]));
    } else if s[0] == '"' {
      StringExactly(s, n);
      ColonExactly(s[TokenLength(s)..]);
    } else if s[0] == '-' || IsDigit(s[0]) {
      NumberRunIsLongest(s[1..]);
      RunExactly(s, n, IsNumberPart, NumberRun(s[1..]));
    } else if IsAlphabetic(s[0]) {
      AlphaRunIsLongest(s[1..]);
      RunExactly(s, n, IsAlphabetic, AlphaRun(s[1..]));
    }
  }

  /** The line begins with a token that `span` is. */
  ghost predicate Begins(span: Span, line: string)
    requires line != ""
  {
    span.text <= line && IsToken(line, |span.text|, span.class_)
  }

  lemma FirstSpan(line: string, span: Span)
    requires line != ""
    ensures Begins(span, line) <==> span == Span(TokenClass(line), line[..TokenLength(line)])
  {
    TokenExactly(line, |span.text|, span.class_);
  }

  /** The spans are the line cut into tokens. */
  ghost predicate AreTokens(spans: seq<Span>, line: string) {
    if line == "" then spans == []
    else spans != [] && Begins(spans[0], line) && AreTokens(spans[1..], line[|spans[0].text|..])
  }

  /** The highlighter's spans are the line's tokens, and the only way to cut it into
      tokens. */
  lemma {:induction false} SpansExactly(line: string, spans: seq<Span>)
    ensures AreTokens(spans, line) <==> spans == Scan(line)
    decreases |line|
  {
    if line != "" && spans != [] {
      FirstSpan(line, spans[0]);
      SpansExactly(line[TokenLength(line)..], spans[1..]);
      assert spans == [spans[0]] + spans[1..];
    }
  }
}
