/** Highlighting a whole pretty-printed value. */
module JsonView {
  import opened Basics
  import opened Strings
  import opened Json
  import opened Highlight

  // ---- Splitting the page gives back the printer's lines ----

  lemma {:induction false} EscapedOneLine(s: string)
    ensures '\n' !in Escaped(s)
  {
    if s != "" {
      EscapedOneLine(s[1..]);
      assert '\n' !in EscapedChar(s[0]);
    }
  }

  lemma BodyOneLine(body: Body)
    requires PrinterBody(body)
    ensures '\n' !in BodyText(body)
  {
    if body.Scalar? {
      match body.v
      case Number(n) => NumeralShape(n);
      case Text(s) => EscapedOneLine(s);
      case _ =>
    }
  }

  lemma LineOneLine(line: Line)
    requires PrinterBody(line.body)
    ensures '\n' !in LineText(line)
  {
    BodyOneLine(line.body);
    if line.key.Some? { EscapedOneLine(line.key.value); }
    assert '\n' !in Indent(line.level) && '\n' !in KeyText(line.key) && '\n' !in CommaText(line.comma);
  }

  ghost predicate PrinterLines(lines: seq<Line>) {
    forall line :: line in lines ==> PrinterBody(line.body)
  }

  lemma {:induction false} PrintedBodies(v: Value, level: nat, key: Option<string>, comma: bool)
    ensures PrinterLines(LinesOf(v, level, key, comma))
    decreases v, 0
  {
    match v
    case Arr(items) => if items != [] { ItemBodies(items, level + 1); }
    case Obj(fields) => if fields != [] { FieldBodies(fields, level + 1); }
    case _ =>
  }

  lemma {:induction false} ItemBodies(items: seq<Value>, level: nat)
    requires items != []
    ensures PrinterLines(ItemLines(items, level))
    decreases items, |items|
  {
    PrintedBodies(items[0], level, None, |items| > 1);
    if |items| > 1 { ItemBodies(items[1..], level); }
  }

  lemma {:induction false} FieldBodies(fields: seq<Field>, level: nat)
    requires fields != []
    ensures PrinterLines(FieldLines(fields, level))
    decreases fields, |fields|
  {
    PrintedBodies(fields[0].value, level, Some(fields[0].name), |fields| > 1);
    if |fields| > 1 { FieldBodies(fields[1..], level); }
  }

  /** The lines the printer lays a value out on. */
  function Layout(v: Value): seq<Line> {
    LinesOf(v, 0, None, false)
  }

  /** Splitting the pretty-printed text at newlines gives back exactly the lines
      the printer wrote. */
  lemma SplitGivesLayout(v: Value)
    ensures Split(Pretty(v, 0), '\n') == Texts(Layout(v))
  {
    var lines := Layout(v);
    PrettyIsPage(v, 0, None, false);
    assert Indent(0) + "" + Pretty(v, 0) + "" == Pretty(v, 0);
    PrintedBodies(v, 0, None, false);
    forall text | text in Texts(lines) ensures '\n' !in text {
      var i :| 0 <= i < |lines| && Texts(lines)[i] == text;
      LineOneLine(lines[i]);
    }
    SplitJoin(Texts(lines), '\n');
  }

  // ---- The highlighted tokens are the value's own ----

  /** The tokens of a value, with no layout at all. */
  function Tokens(v: Value): seq<Span>
    decreases v, 0
  {
    match v
    case Arr(items) => [Span(Punct, ['['])] + (if items == [] then [] else ItemTokens(items)) + [Span(Punct, [']'])]
    case Obj(fields) => [Span(Punct, ['{'])] + (if fields == [] then [] else FieldTokens(fields)) + [Span(Punct, ['}'])]
    case _ => [ScalarToken(v)]
  }

  function ItemTokens(items: seq<Value>): seq<Span>
    requires items != []
    decreases items, |items|
  {
    Tokens(items[0]) + if |items| == 1 then [] else [Span(Punct, [','])] + ItemTokens(items[1..])
  }

  function FieldTokens(fields: seq<Field>): seq<Span>
    requires fields != []
    decreases fields, |fields|
  {
    [Span(Key, Quoted(fields[0].name)), Span(Punct, [':'])] + Tokens(fields[0].value)
    + if |fields| == 1 then [] else [Span(Punct, [','])] + FieldTokens(fields[1..])
  }

  /** What remains of some spans without white space. */
  function Significant(spans: seq<Span>): seq<Span> {
    if spans == [] then []
    else (if spans[0].class_ == Space then [] else [spans[0]]) + Significant(spans[1..])
  }

  lemma SignificantFirst(span: Span, rest: seq<Span>)
    ensures Significant([span] + rest) == (if span.class_ == Space then [] else [span]) + Significant(rest)
  {
    assert ([span] + rest)[1..] == rest;
  }

  lemma RegroupEntry(n: seq<Span>, t: seq<Span>, c: seq<Span>, rest: seq<Span>)
    ensures n + t + c + rest == n + t + (c + rest)
    ensures t + c + rest == t + (c + rest)
    ensures [] + t + c == t + c
    ensures n + t + [] == n + t
  {
  }

  lemma {:induction false} SignificantSplit(a: seq<Span>, b: seq<Span>)
    ensures Significant(a + b) == Significant(a) + Significant(b)
  {
    if a == [] {
      assert a + b == b;
    } else {
      SignificantSplit(a[1..], b);
      SignificantFirst(a[0], a[1..]);
      SignificantFirst(a[0], a[1..] + b);
      assert a == [a[0]] + a[1..] && a + b == [a[0]] + (a[1..] + b);
      RegroupEntry([], if a[0].class_ == Space then [] else [a[0]], Significant(a[1..]), Significant(b));
    }
  }

  /** The significant spans of some lines, in reading order. */
  function Reading(lines: seq<seq<Span>>): seq<Span> {
    if lines == [] then [] else Significant(lines[0]) + Reading(lines[1..])
  }

  lemma {:induction false} ReadingSplit(a: seq<seq<Span>>, b: seq<seq<Span>>)
    ensures Reading(a + b) == Reading(a) + Reading(b)
  {
    if a == [] {
      assert a + b == b;
    } else {
      assert (a + b)[0] == a[0] && (a + b)[1..] == a[1..] + b;
      ReadingSplit(a[1..], b);
      RegroupEntry([], Significant(a[0]), Reading(a[1..]), Reading(b));
    }
  }

  function TokenLines(lines: seq<Line>): seq<seq<Span>> {
    seq(|lines|, i requires 0 <= i < |lines| => LineTokens(lines[i]))
  }

  lemma TokenLinesSplit(a: seq<Line>, b: seq<Line>)
    ensures TokenLines(a + b) == TokenLines(a) + TokenLines(b)
  {
  }

  /** The significant spans of what the printer lays out. */
  function Laid(lines: seq<Line>): seq<Span> {
    Reading(TokenLines(lines))
  }

  lemma LaidSplit(a: seq<Line>, b: seq<Line>)
    ensures Laid(a + b) == Laid(a) + Laid(b)
  {
    TokenLinesSplit(a, b);
    ReadingSplit(TokenLines(a), TokenLines(b));
  }

  function NameTokens(key: Option<string>): seq<Span> {
    if key.Some? then [Span(Key, Quoted(key.value)), Span(Punct, [':'])] else []
  }

  lemma KeySignificant(key: Option<string>)
    ensures Significant(KeyTokens(key)) == NameTokens(key)
  {
    if key.Some? {
      var k, colon, space := Span(Key, Quoted(key.value)), Span(Punct, [':']), Span(Space, [' ']);
      assert KeyTokens(key) == [k] + ([colon] + [space]);
      SignificantSplit([k], [colon] + [space]);
      SignificantSplit([colon], [space]);
    }
  }

  lemma BodySignificant(body: Body)
    ensures Significant(BodyTokens(body)) == BodyTokens(body)
  {
    if body.EmptyPair? {
      SignificantSplit([Span(Punct, [body.l])], [Span(Punct, [body.r])]);
      assert BodyTokens(body) == [Span(Punct, [body.l])] + [Span(Punct, [body.r])];
    }
  }

  lemma ReadingOne(spans: seq<Span>)
    ensures Reading([spans]) == Significant(spans)
  {
    assert [spans][1..] == [];
  }

  lemma IndentSignificant(level: nat, comma: bool)
    ensures Significant(IndentTokens(level)) == []
    ensures Significant(CommaTokens(comma)) == CommaTokens(comma)
  {
  }

  lemma LineSignificant(line: Line)
    ensures Significant(LineTokens(line)) == NameTokens(line.key) + BodyTokens(line.body) + CommaTokens(line.comma)
  {
    var tail := BodyTokens(line.body) + CommaTokens(line.comma);
    SignificantSplit(BodyTokens(line.body), CommaTokens(line.comma));
    SignificantSplit(KeyTokens(line.key), tail);
    SignificantSplit(IndentTokens(line.level), KeyTokens(line.key) + tail);
    KeySignificant(line.key);
    BodySignificant(line.body);
    IndentSignificant(line.level, line.comma);
    RegroupEntry([], NameTokens(line.key), BodyTokens(line.body), CommaTokens(line.comma));
    assert [] + (NameTokens(line.key) + tail) == NameTokens(line.key) + tail;
  }

  lemma LineReading(level: nat, key: Option<string>, body: Body, comma: bool)
    ensures Laid([Line(level, key, body, comma)]) == NameTokens(key) + BodyTokens(body) + CommaTokens(comma)
  {
    var line := Line(level, key, body, comma);
    LineSignificant(line);
    ReadingOne(LineTokens(line));
    assert TokenLines([line]) == [LineTokens(line)];
  }

  lemma RegroupBlock(n: seq<Span>, l: seq<Span>, inner: seq<Span>, r: seq<Span>, c: seq<Span>)
    ensures (n + l + []) + inner + ([] + r + c) == n + (l + inner + r) + c
  {
  }

  lemma BlockReading(level: nat, key: Option<string>, l: char, inner: seq<Line>, r: char, comma: bool)
    ensures Laid([Line(level, key, Bracket(l), false)] + inner + [Line(level, None, Bracket(r), comma)])
      == NameTokens(key) + ([Span(Punct, [l])] + Laid(inner) + [Span(Punct, [r])]) + CommaTokens(comma)
  {
    var first, last := Line(level, key, Bracket(l), false), Line(level, None, Bracket(r), comma);
    LaidSplit([first] + inner, [last]);
    LaidSplit([first], inner);
    LineReading(level, key, Bracket(l), false);
    LineReading(level, None, Bracket(r), comma);
    RegroupBlock(NameTokens(key), [Span(Punct, [l])], Laid(inner), [Span(Punct, [r])], CommaTokens(comma));
  }

  lemma {:induction false} ReadingIsTokens(v: Value, level: nat, key: Option<string>, comma: bool)
    ensures Laid(LinesOf(v, level, key, comma)) == NameTokens(key) + Tokens(v) + CommaTokens(comma)
    decreases v, 0
  {
    match v
    case Arr(items) =>
      if items == [] {
        LineReading(level, key, EmptyPair('[', ']'), comma);
        assert Tokens(v) == BodyTokens(EmptyPair('[', ']'));
      } else {
        ItemsReading(items, level + 1);
        BlockReading(level, key, '[', ItemLines(items, level + 1), ']', comma);
      }
    case Obj(fields) =>
      if fields == [] {
        LineReading(level, key, EmptyPair('{', '}'), comma);
        assert Tokens(v) == BodyTokens(EmptyPair('{', '}'));
      } else {
        FieldsReading(fields, level + 1);
        BlockReading(level, key, '{', FieldLines(fields, level + 1), '}', comma);
      }
    case _ => LineReading(level, key, Scalar(v), comma);
  }

  lemma {:induction false} ItemsReading(items: seq<Value>, level: nat)
    requires items != []
    ensures Laid(ItemLines(items, level)) == ItemTokens(items)
    decreases items, |items|
  {
    ReadingIsTokens(items[0], level, None, |items| > 1);
    if |items| > 1 {
      ItemsReading(items[1..], level);
      LaidSplit(LinesOf(items[0], level, None, true), ItemLines(items[1..], level));
      RegroupEntry([], Tokens(items[0]), [Span(Punct, [','])], ItemTokens(items[1..]));
    } else {
      RegroupEntry([], Tokens(items[0]), [], []);
      assert ItemLines(items, level) == LinesOf(items[0], level, None, false);
    }
  }

  lemma {:induction false} FieldsReading(fields: seq<Field>, level: nat)
    requires fields != []
    ensures Laid(FieldLines(fields, level)) == FieldTokens(fields)
    decreases fields, |fields|
  {
    var key := Some(fields[0].name);
    ReadingIsTokens(fields[0].value, level, key, |fields| > 1);
    if |fields| > 1 {
      FieldsReading(fields[1..], level);
      LaidSplit(LinesOf(fields[0].value, level, key, true), FieldLines(fields[1..], level));
      RegroupEntry(NameTokens(key), Tokens(fields[0].value), [Span(Punct, [','])], FieldTokens(fields[1..]));
    } else {
      RegroupEntry(NameTokens(key), Tokens(fields[0].value), [], []);
      assert FieldLines(fields, level) == LinesOf(fields[0].value, level, key, false);
    }
  }

  /** The highlighted lines of a text. */
  function HighlightAll(text: string): seq<seq<Span>> {
    var lines := Split(text, '\n');
    seq(|lines|, i requires 0 <= i < |lines| => Scan(lines[i]))
  }

  lemma HighlightedLines(v: Value)
    ensures HighlightAll(Pretty(v, 0)) == TokenLines(Layout(v))
  {
    var lines := Layout(v);
    SplitGivesLayout(v);
    PrintedBodies(v, 0, None, false);
    forall i | 0 <= i < |lines| ensures Scan(Texts(lines)[i]) == LineTokens(lines[i]) {
      ScanLine(lines[i]);
    }
  }

  /** The highlighter undoes the pretty printer: for every value, scanning each
      line of its text yields the value's own tokens, each in its class. */
  lemma HighlightingUndoesPrinting(v: Value)
    ensures Reading(HighlightAll(Pretty(v, 0))) == Tokens(v)
  {
    HighlightedLines(v);
    ReadingIsTokens(v, 0, None, false);
    RegroupEntry([], Tokens(v), [], []);
    assert Laid(Layout(v)) == Tokens(v);
  }

  /** Pretty-print a value and highlight each line of it. */
  method AsJson(v: Value) returns (lines: seq<seq<Span>>)
    ensures lines == TokenLines(Layout(v))
    ensures Reading(lines) == Tokens(v)
  {
    var texts := Split(Pretty(v, 0), '\n');
    lines := [];
    for i := 0 to |texts|
      invariant |lines| == i
      invariant forall j :: 0 <= j < i ==> lines[j] == Scan(texts[j])
    {
      var spans := HighlightJsonLine(texts[i]);
      lines := lines + [spans];
    }
    assert lines == HighlightAll(Pretty(v, 0));
    HighlightedLines(v);
    HighlightingUndoesPrinting(v);
  }
}
