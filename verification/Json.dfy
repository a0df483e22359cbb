/** JSON values and their pretty-printed form: two-space indentation, one element
    per line, strings escaped as section 7 of RFC 8259 requires. */
module Json {
  import opened Basics
  import opened Strings

  predicate IsDigit(c: char) {
    '0' <= c <= '9'
  }

  predicate AllDigits(s: string) {
    s != "" && forall c :: c in s ==> IsDigit(c)
  }

  type Digits = s: string | AllDigits(s) witness ['0']

  datatype Sign = Unsigned | Plus | Minus

  datatype Exponent = Exponent(sign: Sign, digits: Digits)

  /** A number as section 6 of RFC 8259 spells it. */
  datatype Numeral = Numeral(negative: bool, whole: Digits, fraction: Option<Digits>, exponent: Option<Exponent>)

  datatype Value =
    | Null
    | Bool(b: bool)
    | Number(n: Numeral)
    | Text(s: string)
    | Arr(items: seq<Value>)
    | Obj(fields: seq<Field>)

  datatype Field = Field(name: string, value: Value)

  // ---- Scalars ----

  function SignText(sign: Sign): string {
    match sign case Unsigned => "" case Plus => "+" case Minus => "-"
  }

  function NumeralText(n: Numeral): string {
    (if n.negative then "-" else "") + n.whole
    + (if n.fraction.Some? then "." + n.fraction.value else "")
    + (if n.exponent.Some? then "e" + SignText(n.exponent.value.sign) + n.exponent.value.digits else "")
  }

  const HEX_DIGITS: string := "0123456789abcdef"

  function HexDigit(n: nat): (c: char)
    requires n < 16
    ensures '0' <= c <= '9' || 'a' <= c <= 'f'
  {
    HEX_DIGITS[n]
  }

  /** How one character appears inside a quoted string. */
  function EscapedChar(c: char): string {
    if c == '"' then ['\\', '"']
    else if c == '\\' then ['\\', '\\']
    else if c == '\U{08}' then ['\\', 'b']
    else if c == '\t' then ['\\', 't']
    else if c == '\n' then ['\\', 'n']
    else if c == '\U{0C}' then ['\\', 'f']
    else if c == '\r' then ['\\', 'r']
    else if c < ' ' then ['\\', 'u', '0', '0', HexDigit(c as int / 16), HexDigit(c as int % 16)]
    else [c]
  }

  function Escaped(s: string): string {
    if s == "" then "" else EscapedChar(s[0]) + Escaped(s[1..])
  }

  /** What a lower-case hexadecimal digit stands for. */
  function DigitValue(c: char): (n: nat)
    ensures n < 16
  {
    if '0' <= c <= '9' then (c - '0') as nat
    else if 'a' <= c <= 'f' then (c - 'a') as nat + 10
    else 0
  }

  lemma DigitRoundTrip(n: nat)
    requires n < 16
    ensures DigitValue(HexDigit(n)) == n
  {
  }

  /** The character a short escape stands for. */
  function ShortEscape(c: char): Option<char> {
    if c == '"' || c == '\\' || c == '/' then Some(c)
    else if c == 'b' then Some('\U{08}')
    else if c == 'f' then Some('\U{0C}')
    else if c == 'n' then Some('\n')
    else if c == 'r' then Some('\r')
    else if c == 't' then Some('\t')
    else None
  }

  function Before(c: char, rest: Option<string>): Option<string> {
    if rest.Some? then Some([c] + rest.value) else None
  }

  /** What the inside of a quoted string says, read as section 7 of RFC 8259 has it
      (four-digit escapes only up to U+00FF, which is all the printer writes). */
  function Unescaped(s: string): Option<string> {
    if s == "" then Some("")
    else if s[0] == '\\' then
      if |s| >= 2 && ShortEscape(s[1]).Some? then Before(ShortEscape(s[1]).value, Unescaped(s[2..]))
      else if |s| >= 6 && s[1..4] == "u00" then
        Before((DigitValue(s[4]) * 16 + DigitValue(s[5])) as char, Unescaped(s[6..]))
      else None
    else if s[0] == '"' || s[0] < ' ' then None
    else Before(s[0], Unescaped(s[1..]))
  }

  lemma HexPairRoundTrip(n: nat)
    requires n < 256
    ensures DigitValue(HexDigit(n / 16)) * 16 + DigitValue(HexDigit(n % 16)) == n
  {
    DigitRoundTrip(n / 16);
    DigitRoundTrip(n % 16);
  }

  lemma UnescapeShort(c: char, rest: string)
    requires ShortEscape(c).Some?
    ensures Unescaped(['\\', c] + rest) == Before(ShortEscape(c).value, Unescaped(rest))
  {
    assert (['\\', c] + rest)[2..] == rest;
  }

  lemma UnescapeLong(h: char, l: char, rest: string)
    ensures Unescaped(['\\', 'u', '0', '0', h, l] + rest)
      == Before((DigitValue(h) * 16 + DigitValue(l)) as char, Unescaped(rest))
  {
    var s := ['\\', 'u', '0', '0', h, l] + rest;
    assert s[6..] == rest && s[1..4] == "u00";
  }

  lemma UnescapePlain(c: char, rest: string)
    requires c != '"' && c != '\\' && c >= ' '
    ensures Unescaped([c] + rest) == Before(c, Unescaped(rest))
  {
    assert ([c] + rest)[1..] == rest;
  }

  /** An escaped character is the character itself, a short escape or a long one. */
  lemma EscapedShape(c: char)
    ensures var e := EscapedChar(c);
      || (e == [c] && c != '"' && c != '\\' && c >= ' ')
      || (|e| == 2 && e == ['\\', e[1]] && ShortEscape(e[1]) == Some(c))
      || (c < ' ' && e == ['\\', 'u', '0', '0', HexDigit(c as int / 16), HexDigit(c as int % 16)])
    ensures (EscapedChar(c) == [c]) <==> c != '"' && c != '\\' && c >= ' '
    ensures |EscapedChar(c)| == 6 <==> c < ' ' && forall e :: ShortEscape(e) != Some(c)
  {
  }

  lemma UnescapeOne(c: char, rest: string)
    ensures Unescaped(EscapedChar(c) + rest) == Before(c, Unescaped(rest))
  {
    EscapedShape(c);
    var e := EscapedChar(c);
    if |e| == 1 {
      UnescapePlain(c, rest);
    } else if |e| == 2 {
      UnescapeShort(e[1], rest);
    } else {
      HexPairRoundTrip(c as int);
      UnescapeLong(e[4], e[5], rest);
    }
  }

  /** Strings survive being escaped, whatever characters they hold. */
  lemma {:induction false} UnescapeEscaped(s: string)
    ensures Unescaped(Escaped(s)) == Some(s)
  {
    if s != "" {
      UnescapeEscaped(s[1..]);
      UnescapeOne(s[0], Escaped(s[1..]));
      assert s == [s[0]] + s[1..];
    }
  }

  /** Only what has to be escaped is. */
  lemma {:induction false} EscapedPlain(s: string)
    ensures Escaped(s) == s <==> forall c :: c in s ==> c != '"' && c != '\\' && c >= ' '
    ensures |Escaped(s)| >= |s|
  {
    if s != "" {
      EscapedPlain(s[1..]);
      EscapedShape(s[0]);
      assert s == [s[0]] + s[1..];
      if EscapedChar(s[0]) == [s[0]] {
        assert Escaped(s)[1..] == Escaped(s[1..]) && Escaped(s)[0] == s[0];
        assert forall c :: c in s <==> c == s[0] || c in s[1..];
      } else {
        assert |Escaped(s)| > |s| && s[0] in s;
      }
    }
  }

  function Quoted(s: string): string {
    ['"'] + Escaped(s) + ['"']
  }

  function ScalarText(v: Value): string {
    match v
    case Null => "null"
    case Bool(b) => if b then "true" else "false"
    case Number(n) => NumeralText(n)
    case Text(s) => Quoted(s)
    case _ => ""
  }

  // ---- The pretty printer ----

  function KeyText(key: Option<string>): string {
    if key.Some? then Quoted(key.value) + [':', ' '] else ""
  }

  function CommaText(comma: bool): string {
    if comma then [','] else ""
  }

  function Indent(level: nat): string {
    seq(2 * level, _ => ' ')
  }

  function Pretty(v: Value, level: nat): string
    decreases v, 0
  {
    match v
    case Arr(items) => if items == [] then "[]" else ['['] + PrettyItems(items, level + 1) + ['\n'] + Indent(level) + [']']
    case Obj(fields) => if fields == [] then "{}" else ['{'] + PrettyFields(fields, level + 1) + ['\n'] + Indent(level) + ['}']
    case _ => ScalarText(v)
  }

  function PrettyItems(items: seq<Value>, level: nat): string
    requires items != []
    decreases items, |items|
  {
    ['\n'] + Indent(level) + Pretty(items[0], level)
    + if |items| == 1 then "" else [','] + PrettyItems(items[1..], level)
  }

  function PrettyFields(fields: seq<Field>, level: nat): string
    requires fields != []
    decreases fields, |fields|
  {
    ['\n'] + Indent(level) + KeyText(Some(fields[0].name)) + Pretty(fields[0].value, level)
    + if |fields| == 1 then "" else [','] + PrettyFields(fields[1..], level)
  }

  // ---- Lines and tokens ----

  datatype Class = Space | Key | Str | Num | Literal | Punct

  /** A styled piece of a line: only its class and its text matter here. */
  datatype Span = Span(class_: Class, text: string)

  datatype Body = Scalar(v: Value) | Bracket(b: char) | EmptyPair(l: char, r: char)

  /** One line of pretty-printed JSON. */
  datatype Line = Line(level: nat, key: Option<string>, body: Body, comma: bool)

  function LinesOf(v: Value, level: nat, key: Option<string>, comma: bool): seq<Line>
    decreases v, 0
  {
    match v
    case Arr(items) =>
      if items == [] then [Line(level, key, EmptyPair('[', ']'), comma)]
      else [Line(level, key, Bracket('['), false)] + ItemLines(items, level + 1) + [Line(level, None, Bracket(']'), comma)]
    case Obj(fields) =>
      if fields == [] then [Line(level, key, EmptyPair('{', '}'), comma)]
      else [Line(level, key, Bracket('{'), false)] + FieldLines(fields, level + 1) + [Line(level, None, Bracket('}'), comma)]
    case _ => [Line(level, key, Scalar(v), comma)]
  }

  function ItemLines(items: seq<Value>, level: nat): seq<Line>
    requires items != []
    decreases items, |items|
  {
    LinesOf(items[0], level, None, |items| > 1) + if |items| == 1 then [] else ItemLines(items[1..], level)
  }

  function FieldLines(fields: seq<Field>, level: nat): seq<Line>
    requires fields != []
    decreases fields, |fields|
  {
    LinesOf(fields[0].value, level, Some(fields[0].name), |fields| > 1)
    + if |fields| == 1 then [] else FieldLines(fields[1..], level)
  }

  function ScalarToken(v: Value): Span {
    Span(match v case Number(_) => Num case Text(_) => Str case _ => Literal, ScalarText(v))
  }

  function BodyTokens(body: Body): seq<Span> {
    match body
    case Scalar(v) => [ScalarToken(v)]
    case Bracket(b) => [Span(Punct, [b])]
    case EmptyPair(l, r) => [Span(Punct, [l]), Span(Punct, [r])]
  }

  function IndentTokens(level: nat): seq<Span> {
    if level > 0 then [Span(Space, Indent(level))] else []
  }

  function KeyTokens(key: Option<string>): seq<Span> {
    if key.Some? then [Span(Key, Quoted(key.value)), Span(Punct, [':']), Span(Space, [' '])] else []
  }

  function CommaTokens(comma: bool): seq<Span> {
    if comma then [Span(Punct, [','])] else []
  }

  function LineTokens(line: Line): seq<Span> {
    IndentTokens(line.level) + (KeyTokens(line.key) + (BodyTokens(line.body) + CommaTokens(line.comma)))
  }

  function Concat(spans: seq<Span>): string {
    if spans == [] then "" else spans[0].text + Concat(spans[1..])
  }

  function BodyText(body: Body): string {
    match body
    case Scalar(v) => ScalarText(v)
    case Bracket(b) => [b]
    case EmptyPair(l, r) => [l, r]
  }

  function LineText(line: Line): string {
    Indent(line.level)
    + KeyText(line.key) + BodyText(line.body) + CommaText(line.comma)
  }

  /** Two blanks a level, then what is not blank. */
  lemma LineIsIndented(line: Line)
    requires BodyText(line.body) != "" && BodyText(line.body)[0] != ' '
    ensures var t := LineText(line);
      && |t| > 2 * line.level && t[2 * line.level] != ' ' && forall i :: 0 <= i < 2 * line.level ==> t[i] == ' '
  {
    assert |Indent(line.level)| == 2 * line.level;
    var rest := KeyText(line.key) + BodyText(line.body) + CommaText(line.comma);
    assert LineText(line) == Indent(line.level) + rest;
  }

  // ---- The printer writes exactly these lines ----

  function Texts(lines: seq<Line>): seq<string> {
    seq(|lines|, i requires 0 <= i < |lines| => LineText(lines[i]))
  }

  function Page(lines: seq<Line>): string
    requires lines != []
  {
    Join(Texts(lines), '\n')
  }

  lemma {:induction false} JoinMore(a: seq<string>, b: seq<string>, c: char)
    requires a != [] && b != []
    ensures Join(a + b, c) == Join(a, c) + [c] + Join(b, c)
  {
    assert (a + b)[1..] == a[1..] + b;
    if |a| > 1 {
      JoinMore(a[1..], b, c);
    }
  }

  lemma TextsMore(a: seq<Line>, b: seq<Line>)
    ensures Texts(a + b) == Texts(a) + Texts(b)
  {
  }

  lemma PageMore(a: seq<Line>, b: seq<Line>)
    requires a != [] && b != []
    ensures Page(a + b) == Page(a) + ['\n'] + Page(b)
  {
    TextsMore(a, b);
    JoinMore(Texts(a), Texts(b), '\n');
  }

  lemma LeafPage(level: nat, key: Option<string>, body: Body, comma: bool)
    ensures Page([Line(level, key, body, comma)]) == Indent(level) + KeyText(key) + BodyText(body) + CommaText(comma)
  {
  }

  lemma BlockRegroup(a: string, k: string, l: string, p: string, r: string, c: string)
    ensures a + k + l + "" + ['\n'] + p + ['\n'] + (a + "" + r + c)
      == a + k + (l + (['\n'] + p) + ['\n'] + a + r) + c
  {
  }

  /** A bracketed block: its opening line, what is inside, its closing line. */
  lemma BlockPage(level: nat, key: Option<string>, l: char, inner: seq<Line>, r: char, comma: bool)
    requires inner != []
    ensures Page([Line(level, key, Bracket(l), false)] + inner + [Line(level, None, Bracket(r), comma)])
      == Indent(level) + KeyText(key) + ([l] + (['\n'] + Page(inner)) + ['\n'] + Indent(level) + [r]) + CommaText(comma)
  {
    var first, last := Line(level, key, Bracket(l), false), Line(level, None, Bracket(r), comma);
    PageMore([first], inner);
    PageMore([first] + inner, [last]);
    LeafPage(level, key, Bracket(l), false);
    LeafPage(level, None, Bracket(r), comma);
    BlockRegroup(Indent(level), KeyText(key), [l], Page(inner), [r], CommaText(comma));
  }

  lemma EntryRegroup(a: string, k: string, t: string, c: string, p: string)
    ensures ['\n'] + (a + k + t + "") == ['\n'] + a + k + t + ""
    ensures ['\n'] + (a + k + t + c + ['\n'] + p) == ['\n'] + a + k + t + (c + (['\n'] + p))
    ensures ['\n'] + a + "" + t == ['\n'] + a + t
  {
  }

  /** The printer's output, indented and completed, is the page of its lines. */
  lemma {:induction false} PrettyIsPage(v: Value, level: nat, key: Option<string>, comma: bool)
    ensures LinesOf(v, level, key, comma) != []
    ensures Page(LinesOf(v, level, key, comma)) == Indent(level) + KeyText(key) + Pretty(v, level) + CommaText(comma)
    decreases v, 1
  {
    if v.Arr? {
      ArrayIsPage(v, level, key, comma);
    } else if v.Obj? {
      ObjectIsPage(v, level, key, comma);
    } else {
      LeafPage(level, key, Scalar(v), comma);
    }
  }

  lemma {:induction false} ArrayIsPage(v: Value, level: nat, key: Option<string>, comma: bool)
    requires v.Arr?
    ensures LinesOf(v, level, key, comma) != []
    ensures Page(LinesOf(v, level, key, comma)) == Indent(level) + KeyText(key) + Pretty(v, level) + CommaText(comma)
    decreases v, 0
  {
    if v.items == [] {
      LeafPage(level, key, EmptyPair('[', ']'), comma);
    } else {
      var inner := ItemLines(v.items, level + 1);
      ItemsArePage(v.items, level + 1);
      BlockPage(level, key, '[', inner, ']', comma);
      assert Pretty(v, level) == ['['] + (['\n'] + Page(inner)) + ['\n'] + Indent(level) + [']'];
    }
  }

  lemma {:induction false} ObjectIsPage(v: Value, level: nat, key: Option<string>, comma: bool)
    requires v.Obj?
    ensures LinesOf(v, level, key, comma) != []
    ensures Page(LinesOf(v, level, key, comma)) == Indent(level) + KeyText(key) + Pretty(v, level) + CommaText(comma)
    decreases v, 0
  {
    if v.fields == [] {
      LeafPage(level, key, EmptyPair('{', '}'), comma);
    } else {
      var inner := FieldLines(v.fields, level + 1);
      FieldsArePage(v.fields, level + 1);
      BlockPage(level, key, '{', inner, '}', comma);
      assert Pretty(v, level) == ['{'] + (['\n'] + Page(inner)) + ['\n'] + Indent(level) + ['}'];
    }
  }

  lemma {:induction false} ItemsArePage(items: seq<Value>, level: nat)
    requires items != []
    ensures ItemLines(items, level) != []
    ensures ['\n'] + Page(ItemLines(items, level)) == PrettyItems(items, level)
    decreases items, |items|
  {
    var text := Pretty(items[0], level);
    PrettyIsPage(items[0], level, None, |items| > 1);
    if |items| > 1 {
      ItemsArePage(items[1..], level);
      PageMore(LinesOf(items[0], level, None, true), ItemLines(items[1..], level));
      EntryRegroup(Indent(level), "", text, [','], Page(ItemLines(items[1..], level)));
    } else {
      assert ItemLines(items, level) == LinesOf(items[0], level, None, false);
      EntryRegroup(Indent(level), "", text, "", "");
    }
  }

  lemma {:induction false} FieldsArePage(fields: seq<Field>, level: nat)
    requires fields != []
    ensures FieldLines(fields, level) != []
    ensures ['\n'] + Page(FieldLines(fields, level)) == PrettyFields(fields, level)
    decreases fields, |fields|
  {
    var key, text := Some(fields[0].name), Pretty(fields[0].value, level);
    PrettyIsPage(fields[0].value, level, key, |fields| > 1);
    if |fields| > 1 {
      FieldsArePage(fields[1..], level);
      PageMore(LinesOf(fields[0].value, level, key, true), FieldLines(fields[1..], level));
      EntryRegroup(Indent(level), KeyText(key), text, [','], Page(FieldLines(fields[1..], level)));
    } else {
      assert FieldLines(fields, level) == LinesOf(fields[0].value, level, key, false);
      EntryRegroup(Indent(level), KeyText(key), text, "", "");
    }
  }
}
