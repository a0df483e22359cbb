/** The hand-written highlighter for one line of pretty-printed JSON. */
module Highlight {
  import opened Basics
  import opened Json

  /** Unicode White_Space. */
  predicate IsWhitespace(c: char) {
    || '\U{09}' <= c <= '\U{0D}' || c == ' ' || c == '\U{85}' || c == '\U{A0}' || c == '\U{1680}'
    || '\U{2000}' <= c <= '\U{200A}' || c == '\U{2028}' || c == '\U{2029}' || c == '\U{202F}'
    || c == '\U{205F}' || c == '\U{3000}'
  }

  predicate IsAlphabetic(c: char) {
    'a' <= c <= 'z' || 'A' <= c <= 'Z'
  }

  predicate IsNumberPart(c: char) {
    IsDigit(c) || c == '.' || c == 'e' || c == 'E' || c == '+' || c == '-'
  }

  // ---- The scanner as a function of the rest of the line ----

  function SpaceRun(s: string): (n: nat)
    ensures n <= |s|
  {
    if s != "" && IsWhitespace(s[0]) then 1 + SpaceRun(s[1..]) else 0
  }

  function NumberRun(s: string): (n: nat)
    ensures n <= |s|
  {
    if s != "" && IsNumberPart(s[0]) then 1 + NumberRun(s[1..]) else 0
  }

  function AlphaRun(s: string): (n: nat)
    ensures n <= |s|
  {
    if s != "" && IsAlphabetic(s[0]) then 1 + AlphaRun(s[1..]) else 0
  }

  /** How much of `s`, which follows an opening quote, belongs to the string. */
  function StringRun(s: string, escaped: bool): (n: nat)
    ensures n <= |s|
  {
    if s == "" then 0
    else if escaped then 1 + StringRun(s[1..], false)
    else if s[0] == '\\' then 1 + StringRun(s[1..], true)
    else if s[0] == '"' then 1
    else 1 + StringRun(s[1..], false)
  }

  /** Whether the next character other than white space is a colon. */
  predicate ColonNext(s: string) {
    var rest := s[SpaceRun(s)..];
    rest != "" && rest[0] == ':'
  }

  function TokenLength(s: string): (n: nat)
    requires s != ""
    ensures 1 <= n <= |s|
  {
    var c := s[0];
    if IsWhitespace(c) then 1 + SpaceRun(s[1..])
    else if c == '"' then 1 + StringRun(s[1..], false)
    else if c == '-' || IsDigit(c) then 1 + NumberRun(s[1..])
    else if IsAlphabetic(c) then 1 + AlphaRun(s[1..])
    else 1
  }

  function TokenClass(s: string): Class
    requires s != ""
  {
    var c := s[0];
    if IsWhitespace(c) then Space
    else if c == '"' then if ColonNext(s[TokenLength(s)..]) then Key else Str
    else if c == '-' || IsDigit(c) then Num
    else if IsAlphabetic(c) then Literal
    else Punct
  }

  function Scan(s: string): seq<Span> {
    if s == "" then []
    else [Span(TokenClass(s), s[..TokenLength(s)])] + Scan(s[TokenLength(s)..])
  }

  /** Nothing on a line is lost, repeated or reordered, whatever the line holds. */
  lemma {:induction false} ScanKeepsLine(s: string)
    ensures Concat(Scan(s)) == s
    ensures forall span :: span in Scan(s) ==> span.text != ""
  {
    if s != "" {
      ScanKeepsLine(s[TokenLength(s)..]);
      assert s == s[..TokenLength(s)] + s[TokenLength(s)..];
    }
  }

  // ---- The scanner as written: an index moving over the characters ----

  /** Move past white space. */
  method SkipSpaces(chars: string, start: nat) returns (i: nat)
    requires start <= |chars|
    ensures i == start + SpaceRun(chars[start..]) <= |chars|
  {
    i := start;
    while i < |chars| && IsWhitespace(chars[i])
      invariant start <= i <= |chars|
      invariant SpaceRun(chars[start..]) == i - start + SpaceRun(chars[i..])
    {
      assert chars[i..][1..] == chars[i + 1..];
      i := i + 1;
    }
  }

  /** Move past the characters a number may continue with. */
  method SkipNumber(chars: string, start: nat) returns (i: nat)
    requires start <= |chars|
    ensures i == start + NumberRun(chars[start..]) <= |chars|
  {
    i := start;
    while i < |chars| && IsNumberPart(chars[i])
      invariant start <= i <= |chars|
      invariant NumberRun(chars[start..]) == i - start + NumberRun(chars[i..])
    {
      assert chars[i..][1..] == chars[i + 1..];
      i := i + 1;
    }
  }

  /** Move past `true`, `false` or `null`. */
  method SkipWord(chars: string, start: nat) returns (i: nat)
    requires start <= |chars|
    ensures i == start + AlphaRun(chars[start..]) <= |chars|
  {
    i := start;
    while i < |chars| && IsAlphabetic(chars[i])
      invariant start <= i <= |chars|
      invariant AlphaRun(chars[start..]) == i - start + AlphaRun(chars[i..])
    {
      assert chars[i..][1..] == chars[i + 1..];
      i := i + 1;
    }
  }

  /** Move past a string, given its opening quote already is. */
  method ScanString(chars: string, start: nat) returns (i: nat)
    requires start <= |chars|
    ensures i == start + StringRun(chars[start..], false) <= |chars|
  {
    i := start;
    var escaped := false;
    while i < |chars|
      invariant start <= i <= |chars|
      invariant StringRun(chars[start..], false) == i - start + StringRun(chars[i..], escaped)
    {
      var d := chars[i];
      assert chars[i..][1..] == chars[i + 1..];
      i := i + 1;
      if escaped {
        escaped := false;
      } else if d == '\\' {
        escaped := true;
      } else if d == '"' {
        return;
      }
    }
  }

  /** Scan the token at `start`. */
  method NextToken(line: string, start: nat) returns (i: nat, kind: Class)
    requires start < |line|
    ensures i == start + TokenLength(line[start..]) <= |line|
    ensures kind == TokenClass(line[start..])
  {
    var c := line[start];
    assert line[start..][1..] == line[start + 1..];
    if IsWhitespace(c) {
      i := SkipSpaces(line, start + 1);
      kind := Space;
    } else if c == '"' {
      i := ScanString(line, start + 1);
      var j := SkipSpaces(line, i);
      assert line[start..][i - start..] == line[i..];
      assert line[i..][j - i..] == line[j..];
      kind := if j < |line| && line[j] == ':' then Key else Str;
    } else if c == '-' || IsDigit(c) {
      i := SkipNumber(line, start + 1);
      kind := Num;
    } else if IsAlphabetic(c) {
      i := SkipWord(line, start + 1);
      kind := Literal;
    } else {
      i := start + 1;
      kind := Punct;
    }
  }

  lemma ScanUnfolds(line: string, start: nat, i: nat)
    requires start < i <= |line| && i == start + TokenLength(line[start..])
    ensures Scan(line[start..]) == [Span(TokenClass(line[start..]), line[start..i])] + Scan(line[i..])
  {
    assert line[start..][..i - start] == line[start..i] && line[start..][i - start..] == line[i..];
  }

  /** Highlight one line by scanning its tokens. */
  method HighlightJsonLine(line: string) returns (spans: seq<Span>)
    ensures spans == Scan(line)
    ensures Concat(spans) == line && forall span :: span in spans ==> span.text != ""
  {
    spans := [];
    var i := 0;
    while i < |line|
      invariant 0 <= i <= |line|
      invariant spans + Scan(line[i..]) == Scan(line)
    {
      var start := i;
      var kind;
      i, kind := NextToken(line, start);
      ScanUnfolds(line, start, i);
      spans := spans + [Span(kind, line[start..i])];
    }
    ScanKeepsLine(line);
  }

  // ---- Scanning undoes printing ----

  lemma {:induction false} SpaceRunStops(s: string, rest: string)
    requires forall c :: c in s ==> IsWhitespace(c)
    requires rest == "" || !IsWhitespace(rest[0])
    ensures SpaceRun(s + rest) == |s|
  {
    if s == "" {
      assert s + rest == rest;
    } else {
      SpaceRunStops(s[1..], rest);
      assert (s + rest)[1..] == s[1..] + rest;
    }
  }

  lemma {:induction false} NumberRunStops(s: string, rest: string)
    requires forall c :: c in s ==> IsNumberPart(c)
    requires rest == "" || !IsNumberPart(rest[0])
    ensures NumberRun(s + rest) == |s|
  {
    if s == "" {
      assert s + rest == rest;
    } else {
      NumberRunStops(s[1..], rest);
      assert (s + rest)[1..] == s[1..] + rest;
    }
  }

  lemma {:induction false} AlphaRunStops(s: string, rest: string)
    requires forall c :: c in s ==> IsAlphabetic(c)
    requires rest == "" || !IsAlphabetic(rest[0])
    ensures AlphaRun(s + rest) == |s|
  {
    if s == "" {
      assert s + rest == rest;
    } else {
      AlphaRunStops(s[1..], rest);
      assert (s + rest)[1..] == s[1..] + rest;
    }
  }

  lemma PlainSkipped(c: char, rest: string)
    requires c != '"' && c != '\\'
    ensures StringRun([c] + rest, false) == 1 + StringRun(rest, false)
  {
    assert ([c] + rest)[1..] == rest;
  }

  lemma PairSkipped(c: char, rest: string)
    ensures StringRun(['\\', c] + rest, false) == 2 + StringRun(rest, false)
  {
    assert (['\\', c] + rest)[1..] == [c] + rest && ([c] + rest)[1..] == rest;
  }

  lemma SixSkipped(a: char, b: char, rest: string)
    requires a != '"' && a != '\\' && b != '"' && b != '\\'
    ensures StringRun(['\\', 'u', '0', '0', a, b] + rest, false) == 6 + StringRun(rest, false)
  {
    PlainSkipped(b, rest);
    PlainSkipped(a, [b] + rest);
    PlainSkipped('0', [a] + ([b] + rest));
    PlainSkipped('0', ['0'] + ([a] + ([b] + rest)));
    PairSkipped('u', ['0'] + (['0'] + ([a] + ([b] + rest))));
    assert ['\\', 'u', '0', '0', a, b] + rest == ['\\', 'u'] + (['0'] + (['0'] + ([a] + ([b] + rest))));
  }

  /** The scanner passes over one escaped character without leaving the string. */
  lemma EscapedCharSkipped(c: char, rest: string)
    ensures StringRun(EscapedChar(c) + rest, false) == |EscapedChar(c)| + StringRun(rest, false)
  {
    var e := EscapedChar(c);
    if |e| == 1 {
      PlainSkipped(c, rest);
    } else if |e| == 2 {
      PairSkipped(e[1], rest);
    } else {
      SixSkipped(e[4], e[5], rest);
    }
  }

  /** The scanner ends a quoted string exactly at the printer's closing quote. */
  lemma {:induction false} StringRunStops(s: string, rest: string)
    ensures StringRun(Escaped(s) + ['"'] + rest, false) == |Escaped(s)| + 1
  {
    if s == "" {
      assert Escaped(s) + ['"'] + rest == ['"'] + rest;
    } else {
      StringRunStops(s[1..], rest);
      EscapedCharSkipped(s[0], Escaped(s[1..]) + ['"'] + rest);
      assert Escaped(s) + ['"'] + rest == EscapedChar(s[0]) + (Escaped(s[1..]) + ['"'] + rest);
    }
  }

  /** A first token of the right length and class comes off the front. */
  lemma ScanFirst(text: string, rest: string, kind: Class)
    requires text != "" && TokenLength(text + rest) == |text| && TokenClass(text + rest) == kind
    ensures Scan(text + rest) == [Span(kind, text)] + Scan(rest)
  {
    assert (text + rest)[..|text|] == text && (text + rest)[|text|..] == rest;
  }

  lemma ScanSpace(text: string, rest: string)
    requires text != "" && forall c :: c in text ==> IsWhitespace(c)
    requires rest == "" || !IsWhitespace(rest[0])
    ensures Scan(text + rest) == [Span(Space, text)] + Scan(rest)
  {
    SpaceRunStops(text[1..], rest);
    assert (text + rest)[1..] == text[1..] + rest;
    ScanFirst(text, rest, Space);
  }

  lemma ScanQuoted(s: string, rest: string)
    ensures Scan(Quoted(s) + rest) == [Span(if ColonNext(rest) then Key else Str, Quoted(s))] + Scan(rest)
  {
    StringRunStops(s, rest);
    assert (Quoted(s) + rest)[1..] == Escaped(s) + ['"'] + rest;
    assert (Quoted(s) + rest)[|Quoted(s)|..] == rest;
    ScanFirst(Quoted(s), rest, if ColonNext(rest) then Key else Str);
  }

  lemma NumeralShape(n: Numeral)
    ensures var t := NumeralText(n); t != "" && (t[0] == '-' || IsDigit(t[0])) && forall c :: c in t ==> IsNumberPart(c)
  {
    assert n.negative || NumeralText(n)[0] == n.whole[0];
    assert forall c :: c in n.whole ==> IsNumberPart(c);
    assert n.fraction.Some? ==> forall c :: c in n.fraction.value ==> IsNumberPart(c);
    assert n.exponent.Some? ==> forall c :: c in n.exponent.value.digits ==> IsNumberPart(c);
  }

  lemma ScanNumber(n: Numeral, rest: string)
    requires rest == "" || !IsNumberPart(rest[0])
    ensures Scan(NumeralText(n) + rest) == [Span(Num, NumeralText(n))] + Scan(rest)
  {
    var text := NumeralText(n);
    NumeralShape(n);
    NumberRunStops(text[1..], rest);
    assert (text + rest)[1..] == text[1..] + rest;
    ScanFirst(text, rest, Num);
  }

  lemma ScanWord(text: string, rest: string)
    requires text != "" && forall c :: c in text ==> IsAlphabetic(c)
    requires rest == "" || !IsAlphabetic(rest[0])
    ensures Scan(text + rest) == [Span(Literal, text)] + Scan(rest)
  {
    AlphaRunStops(text[1..], rest);
    assert IsAlphabetic(text[0]);
    assert (text + rest)[1..] == text[1..] + rest;
    ScanFirst(text, rest, Literal);
  }

  predicate IsPunct(c: char) {
    c == '[' || c == ']' || c == '{' || c == '}' || c == ':' || c == ','
  }

  lemma ScanPunct(c: char, rest: string)
    requires IsPunct(c)
    ensures Scan([c] + rest) == [Span(Punct, [c])] + Scan(rest)
  {
    ScanFirst([c], rest, Punct);
  }

  lemma ScanComma(comma: bool)
    ensures Scan(CommaText(comma)) == CommaTokens(comma)
  {
    if comma {
      ScanPunct(',', "");
      assert [','] + "" == [','];
    }
  }

  /** What a line can hold between its key and its comma. */
  predicate PrinterBody(body: Body) {
    match body
    case Scalar(v) => !v.Arr? && !v.Obj?
    case Bracket(b) => IsPunct(b)
    case EmptyPair(l, r) => IsPunct(l) && IsPunct(r)
  }

  lemma LiteralsAreWords()
    ensures forall c :: c in "null" ==> IsAlphabetic(c)
    ensures forall c :: c in "true" ==> IsAlphabetic(c)
    ensures forall c :: c in "false" ==> IsAlphabetic(c)
  {
  }

  lemma ScanScalar(v: Value, comma: bool)
    requires !v.Arr? && !v.Obj?
    ensures Scan(ScalarText(v) + CommaText(comma)) == [ScalarToken(v)] + Scan(CommaText(comma))
  {
    var rest := CommaText(comma);
    assert rest == "" || rest[0] == ',';
    LiteralsAreWords();
    match v
    case Null => ScanWord("null", rest);
    case Bool(b) => if b { ScanWord("true", rest); } else { ScanWord("false", rest); }
    case Number(n) => ScanNumber(n, rest);
    case Text(s) =>
      SpaceRunStops("", rest);
      assert "" + rest == rest;
      ScanQuoted(s, rest);
  }

  lemma ScanBody(body: Body, comma: bool)
    requires PrinterBody(body)
    ensures Scan(BodyText(body) + CommaText(comma)) == BodyTokens(body) + Scan(CommaText(comma))
  {
    match body
    case Scalar(v) => ScanScalar(v, comma);
    case Bracket(b) => ScanPunct(b, CommaText(comma));
    case EmptyPair(l, r) =>
      ScanPunct(r, CommaText(comma));
      ScanPunct(l, [r] + CommaText(comma));
      assert [l, r] + CommaText(comma) == [l] + ([r] + CommaText(comma));
  }

  lemma BodyStart(body: Body, rest: string)
    requires PrinterBody(body)
    ensures BodyText(body) != "" && !IsWhitespace((BodyText(body) + rest)[0])
  {
    if body.Scalar? && body.v.Number? { NumeralShape(body.v.n); }
  }

  lemma KeyFollowedByColon(rest: string)
    ensures ColonNext([':', ' '] + rest)
  {
    SpaceRunStops("", [':', ' '] + rest);
    assert "" + ([':', ' '] + rest) == [':', ' '] + rest;
  }

  lemma ScanBlank(rest: string)
    requires rest != "" && !IsWhitespace(rest[0])
    ensures Scan([' '] + rest) == [Span(Space, [' '])] + Scan(rest)
  {
    ScanSpace([' '], rest);
  }

  lemma ColonFirst(rest: string)
    ensures [':', ' '] + rest == [':'] + ([' '] + rest)
  {
  }

  lemma ScanColon(rest: string)
    requires rest != "" && !IsWhitespace(rest[0])
    ensures Scan([':', ' '] + rest) == [Span(Punct, [':'])] + ([Span(Space, [' '])] + Scan(rest))
  {
    ScanBlank(rest);
    ScanPunct(':', [' '] + rest);
    ColonFirst(rest);
  }

  lemma ScanKey(key: string, rest: string)
    requires rest != "" && !IsWhitespace(rest[0])
    ensures Scan(Quoted(key) + ([':', ' '] + rest))
      == [Span(Key, Quoted(key))] + ([Span(Punct, [':'])] + ([Span(Space, [' '])] + Scan(rest)))
  {
    var colon := [':', ' '] + rest;
    KeyFollowedByColon(rest);
    ScanQuoted(key, colon);
    ScanColon(rest);
  }

  lemma RegroupKey(k: string, tail: string, a: Span, b: Span, c: Span, spans: seq<Span>)
    ensures k + [':', ' '] + tail == k + ([':', ' '] + tail)
    ensures [a, b, c] + spans == [a] + ([b] + ([c] + spans))
  {
  }

  lemma ScanKeyed(key: Option<string>, tail: string)
    requires tail != "" && !IsWhitespace(tail[0])
    ensures Scan(KeyText(key) + tail) == KeyTokens(key) + Scan(tail)
    ensures KeyText(key) + tail != "" && !IsWhitespace((KeyText(key) + tail)[0])
  {
    match key
    case None =>
      assert "" + tail == tail;
      assert [] + Scan(tail) == Scan(tail);
    case Some(name) =>
      ScanKey(name, tail);
      RegroupKey(Quoted(name), tail, Span(Key, Quoted(name)), Span(Punct, [':']), Span(Space, [' ']), Scan(tail));
  }

  lemma ScanIndented(level: nat, keyed: string)
    requires keyed != "" && !IsWhitespace(keyed[0])
    ensures Scan(Indent(level) + keyed) == IndentTokens(level) + Scan(keyed)
  {
    var blank := Indent(level);
    if level > 0 {
      assert blank != "" && forall c :: c in blank ==> IsWhitespace(c);
      ScanSpace(blank, keyed);
    } else {
      assert Indent(0) + keyed == keyed;
    }
  }

  lemma ScanTail(body: Body, comma: bool)
    requires PrinterBody(body)
    ensures var tail := BodyText(body) + CommaText(comma);
      tail != "" && !IsWhitespace(tail[0]) && Scan(tail) == BodyTokens(body) + CommaTokens(comma)
  {
    ScanComma(comma);
    ScanBody(body, comma);
    BodyStart(body, CommaText(comma));
  }

  lemma Regroup(a: string, b: string, c: string, d: string)
    ensures a + b + c + d == a + (b + (c + d))
  {
  }

  /** Scanning a line the printer writes yields the printer's own tokens. */
  lemma ScanLine(line: Line)
    requires PrinterBody(line.body)
    ensures Scan(LineText(line)) == LineTokens(line)
  {
    var tail := BodyText(line.body) + CommaText(line.comma);
    ScanTail(line.body, line.comma);
    ScanKeyed(line.key, tail);
    ScanIndented(line.level, KeyText(line.key) + tail);
    Regroup(Indent(line.level), KeyText(line.key), BodyText(line.body), CommaText(line.comma));
  }
}
