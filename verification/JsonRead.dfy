/** Reading a highlighted JSON value back: what the viewer shows determines the value,
    so nothing of it is lost, repeated or made up on the way to the screen. */
module JsonRead {
  import opened Basics
  import opened Json
  import opened JsonView

  // ---- Numbers ----

  function DigitRun(s: string): (n: nat)
    ensures n <= |s|
    ensures forall i :: 0 <= i < n ==> IsDigit(s[i])
  {
    if s != "" && IsDigit(s[0]) then 1 + DigitRun(s[1..]) else 0
  }

  lemma {:induction false} DigitRunStops(digits: string, rest: string)
    requires forall c :: c in digits ==> IsDigit(c)
    requires rest == "" || !IsDigit(rest[0])
    ensures DigitRun(digits + rest) == |digits|
  {
    if digits == "" {
      assert digits + rest == rest;
    } else {
      DigitRunStops(digits[1..], rest);
      assert (digits + rest)[1..] == digits[1..] + rest;
    }
  }

  /** The digits in front, at least one, and what follows them. */
  function ReadDigits(s: string): Option<(Digits, string)> {
    var n := DigitRun(s);
    if n == 0 then None
    else
      assert forall c :: c in s[..n] ==> IsDigit(c);
      Some((s[..n], s[n..]))
  }

  lemma DigitsRead(digits: Digits, rest: string)
    requires rest == "" || !IsDigit(rest[0])
    ensures ReadDigits(digits + rest) == Some((digits, rest))
  {
    DigitRunStops(digits, rest);
    assert (digits + rest)[..|digits|] == digits && (digits + rest)[|digits|..] == rest;
  }

  function ReadSign(s: string): (Sign, string) {
    if s != "" && s[0] == '+' then (Plus, s[1..])
    else if s != "" && s[0] == '-' then (Minus, s[1..])
    else (Unsigned, s)
  }

  function ReadFraction(s: string): Option<(Option<Digits>, string)> {
    if s == "" || s[0] != '.' then Some((None, s))
    else
      match ReadDigits(s[1..])
      case None => None
      case Some((digits, rest)) => Some((Some(digits), rest))
  }

  function ReadExponent(s: string): Option<(Option<Exponent>, string)> {
    if s == "" || s[0] != 'e' then Some((None, s))
    else
      var (sign, rest) := ReadSign(s[1..]);
      match ReadDigits(rest)
      case None => None
      case Some((digits, end)) => Some((Some(Exponent(sign, digits)), end))
  }

  /** A number without its sign. */
  function ReadUnsigned(negative: bool, s: string): Option<Numeral> {
    match ReadDigits(s)
    case None => None
    case Some((whole, rest)) =>
      match ReadFraction(rest)
      case None => None
      case Some((fraction, end)) =>
        match ReadExponent(end)
        case Some((exponent, "")) => Some(Numeral(negative, whole, fraction, exponent))
        case _ => None
  }

  /** A number, as section 6 of RFC 8259 spells it. */
  function ReadNumeral(s: string): Option<Numeral> {
    if s != "" && s[0] == '-' then ReadUnsigned(true, s[1..]) else ReadUnsigned(false, s)
  }

  function FractionText(fraction: Option<Digits>): string {
    if fraction.Some? then "." + fraction.value else ""
  }

  function ExponentText(exponent: Option<Exponent>): string {
    if exponent.Some? then "e" + SignText(exponent.value.sign) + exponent.value.digits else ""
  }

  lemma SignRead(sign: Sign, digits: Digits)
    ensures ReadSign(SignText(sign) + digits) == (sign, digits)
  {
    var text := SignText(sign) + digits;
    assert text[|SignText(sign)|..] == digits;
    assert digits[0] in digits;
  }

  lemma EPart(sign: string, digits: string)
    ensures "e" + sign + digits != "" && ("e" + sign + digits)[0] == 'e' && ("e" + sign + digits)[1..] == sign + digits
  {
  }

  lemma ExponentRead(exponent: Option<Exponent>)
    ensures ReadExponent(ExponentText(exponent)) == Some((exponent, ""))
    ensures ExponentText(exponent) == "" || ExponentText(exponent)[0] == 'e'
  {
    if exponent.Some? {
      var sign, digits := exponent.value.sign, exponent.value.digits;
      SignRead(sign, digits);
      assert digits + "" == digits;
      DigitsRead(digits, "");
      EPart(SignText(sign), digits);
    }
  }

  lemma DotPart(digits: string, rest: string)
    ensures var s := "." + digits + rest; s != "" && s[0] == '.' && s[1..] == digits + rest
  {
  }

  lemma FractionRead(fraction: Option<Digits>, rest: string)
    requires rest == "" || rest[0] == 'e'
    ensures ReadFraction(FractionText(fraction) + rest) == Some((fraction, rest))
    ensures FractionText(fraction) + rest == "" || !IsDigit((FractionText(fraction) + rest)[0])
  {
    if fraction.Some? {
      DigitsRead(fraction.value, rest);
      DotPart(fraction.value, rest);
    } else {
      assert "" + rest == rest;
    }
  }

  lemma UnsignedRead(n: Numeral)
    ensures ReadUnsigned(n.negative, n.whole + (FractionText(n.fraction) + ExponentText(n.exponent))) == Some(n)
  {
    ExponentRead(n.exponent);
    FractionRead(n.fraction, ExponentText(n.exponent));
    DigitsRead(n.whole, FractionText(n.fraction) + ExponentText(n.exponent));
  }

  lemma NumeralParts(n: Numeral)
    ensures NumeralText(n)
      == (if n.negative then "-" else "") + (n.whole + (FractionText(n.fraction) + ExponentText(n.exponent)))
  {
  }

  /** Numbers survive being printed. */
  lemma NumeralRead(n: Numeral)
    ensures ReadNumeral(NumeralText(n)) == Some(n)
  {
    var tail := n.whole + (FractionText(n.fraction) + ExponentText(n.exponent));
    UnsignedRead(n);
    NumeralParts(n);
    if n.negative {
      assert ("-" + tail)[1..] == tail;
    } else {
      assert "" + tail == tail && n.whole[0] in n.whole;
    }
  }

  // ---- Scalars ----

  /** What a quoted string says. */
  function ReadQuoted(text: string): Option<string> {
    if |text| >= 2 && text[0] == '"' && text[|text| - 1] == '"' then Unescaped(text[1..|text| - 1]) else None
  }

  lemma QuotedRead(s: string)
    ensures ReadQuoted(Quoted(s)) == Some(s)
  {
    UnescapeEscaped(s);
    assert Quoted(s)[1..|Quoted(s)| - 1] == Escaped(s);
  }

  function ReadScalar(token: Span): Option<Value> {
    match token.class_
    case Num => var n := ReadNumeral(token.text); if n.Some? then Some(Number(n.value)) else None
    case Str => var s := ReadQuoted(token.text); if s.Some? then Some(Text(s.value)) else None
    case Literal =>
      if token.text == "null" then Some(Null)
      else if token.text == "true" then Some(Bool(true))
      else if token.text == "false" then Some(Bool(false))
      else None
    case _ => None
  }

  lemma ScalarRead(v: Value)
    requires !v.Arr? && !v.Obj?
    ensures ReadScalar(ScalarToken(v)) == Some(v)
  {
    match v
    case Number(n) => NumeralRead(n);
    case Text(s) => QuotedRead(s);
    case _ =>
  }

  // ---- Values ----

  function Mark(c: char): Span {
    Span(Punct, [c])
  }

  /** A value in front of some tokens, and the tokens after it. */
  function ReadValue(tokens: seq<Span>): (r: Option<(Value, seq<Span>)>)
    ensures r.Some? ==> |r.value.1| < |tokens|
    decreases |tokens|, 0
  {
    if tokens == [] then None
    else if tokens[0] == Mark('[') then
      if |tokens| > 1 && tokens[1] == Mark(']') then Some((Arr([]), tokens[2..]))
      else
        match ReadItems(tokens[1..])
        case None => None
        case Some((items, rest)) => Some((Arr(items), rest))
    else if tokens[0] == Mark('{') then
      if |tokens| > 1 && tokens[1] == Mark('}') then Some((Obj([]), tokens[2..]))
      else
        match ReadFields(tokens[1..])
        case None => None
        case Some((fields, rest)) => Some((Obj(fields), rest))
    else
      match ReadScalar(tokens[0])
      case None => None
      case Some(v) => Some((v, tokens[1..]))
  }

  /** Values up to the bracket that closes them. */
  function ReadItems(tokens: seq<Span>): (r: Option<(seq<Value>, seq<Span>)>)
    ensures r.Some? ==> |r.value.1| < |tokens|
    decreases |tokens|, 1
  {
    match ReadValue(tokens)
    case None => None
    case Some((v, rest)) =>
      if rest == [] then None
      else if rest[0] == Mark(']') then Some(([v], rest[1..]))
      else if rest[0] == Mark(',') then
        match ReadItems(rest[1..])
        case None => None
        case Some((items, end)) => Some(([v] + items, end))
      else None
  }

  /** Named values up to the brace that closes them. */
  function ReadFields(tokens: seq<Span>): (r: Option<(seq<Field>, seq<Span>)>)
    ensures r.Some? ==> |r.value.1| < |tokens|
    decreases |tokens|, 1
  {
    if |tokens| < 2 || tokens[0].class_ != Key || tokens[1] != Mark(':') then None
    else
      match (ReadQuoted(tokens[0].text), ReadValue(tokens[2..]))
      case (Some(name), Some((v, rest))) =>
        if rest == [] then None
        else if rest[0] == Mark('}') then Some(([Field(name, v)], rest[1..]))
        else if rest[0] == Mark(',') then
          match ReadFields(rest[1..])
          case None => None
          case Some((fields, end)) => Some(([Field(name, v)] + fields, end))
        else None
      case _ => None
  }

  /** A value starts with a token that closes nothing. */
  lemma FirstToken(v: Value)
    ensures Tokens(v) != [] && Tokens(v)[0] != Mark(']') && Tokens(v)[0] != Mark('}')
  {
  }

  lemma FirstItemToken(items: seq<Value>, rest: seq<Span>)
    requires items != []
    ensures |ItemTokens(items) + rest| > 0 && (ItemTokens(items) + rest)[0] != Mark(']')
  {
    FirstToken(items[0]);
  }

  lemma FirstFieldToken(fields: seq<Field>, rest: seq<Span>)
    requires fields != []
    ensures |FieldTokens(fields) + rest| > 0 && (FieldTokens(fields) + rest)[0] != Mark('}')
  {
  }

  lemma ArrayOpens(tokens: seq<Span>)
    requires tokens != [] && tokens[0] != Mark(']')
    ensures ReadValue([Mark('[')] + tokens) ==
      match ReadItems(tokens) case None => None case Some((items, rest)) => Some((Arr(items), rest))
  {
    assert ([Mark('[')] + tokens)[1..] == tokens;
  }

  lemma ObjectOpens(tokens: seq<Span>)
    requires tokens != [] && tokens[0] != Mark('}')
    ensures ReadValue([Mark('{')] + tokens) ==
      match ReadFields(tokens) case None => None case Some((fields, rest)) => Some((Obj(fields), rest))
  {
    assert ([Mark('{')] + tokens)[1..] == tokens;
  }

  lemma BlockTail(l: Span, inner: seq<Span>, r: Span, rest: seq<Span>)
    ensures [l] + inner + [r] + rest == [l] + (inner + ([r] + rest))
  {
  }

  /** A value's tokens read as the value. */
  lemma {:induction false} TokensRead(v: Value, rest: seq<Span>)
    ensures ReadValue(Tokens(v) + rest) == Some((v, rest))
    decreases v, 2
  {
    if v.Arr? {
      ArrayRead(v, rest);
    } else if v.Obj? {
      ObjectRead(v, rest);
    } else {
      ScalarRead(v);
      assert ([ScalarToken(v)] + rest)[1..] == rest;
    }
  }

  lemma {:induction false} ArrayRead(v: Value, rest: seq<Span>)
    requires v.Arr?
    ensures ReadValue(Tokens(v) + rest) == Some((v, rest))
    decreases v, 1
  {
    if v.items == [] {
      assert Tokens(v) + rest == [Mark('['), Mark(']')] + rest;
      assert ([Mark('['), Mark(']')] + rest)[2..] == rest;
    } else {
      var tail := ItemTokens(v.items) + ([Mark(']')] + rest);
      BlockTail(Mark('['), ItemTokens(v.items), Mark(']'), rest);
      ItemsRead(v.items, rest);
      FirstItemToken(v.items, [Mark(']')] + rest);
      ArrayOpens(tail);
    }
  }

  lemma {:induction false} ObjectRead(v: Value, rest: seq<Span>)
    requires v.Obj?
    ensures ReadValue(Tokens(v) + rest) == Some((v, rest))
    decreases v, 1
  {
    if v.fields == [] {
      assert Tokens(v) + rest == [Mark('{'), Mark('}')] + rest;
      assert ([Mark('{'), Mark('}')] + rest)[2..] == rest;
    } else {
      var tail := FieldTokens(v.fields) + ([Mark('}')] + rest);
      BlockTail(Mark('{'), FieldTokens(v.fields), Mark('}'), rest);
      FieldsRead(v.fields, rest);
      FirstFieldToken(v.fields, [Mark('}')] + rest);
      ObjectOpens(tail);
    }
  }

  lemma RegroupTail(a: seq<Span>, b: seq<Span>, c: seq<Span>, d: seq<Span>)
    ensures a + (b + c) + d == a + (b + (c + d))
  {
  }

  lemma LastItem(v: Value, tokens: seq<Span>, rest: seq<Span>)
    requires ReadValue(tokens) == Some((v, [Mark(']')] + rest))
    ensures ReadItems(tokens) == Some(([v], rest))
  {
    assert ([Mark(']')] + rest)[1..] == rest;
  }

  lemma MoreItems(v: Value, tokens: seq<Span>, more: seq<Span>, items: seq<Value>, rest: seq<Span>)
    requires ReadValue(tokens) == Some((v, [Mark(',')] + more)) && ReadItems(more) == Some((items, rest))
    ensures ReadItems(tokens) == Some(([v] + items, rest))
  {
    assert ([Mark(',')] + more)[1..] == more;
  }

  lemma {:induction false} ItemsRead(items: seq<Value>, rest: seq<Span>)
    requires items != []
    ensures ReadItems(ItemTokens(items) + ([Mark(']')] + rest)) == Some((items, rest))
    decreases items, |items|
  {
    var closing := [Mark(']')] + rest;
    if |items| == 1 {
      TokensRead(items[0], closing);
      LastItem(items[0], Tokens(items[0]) + closing, rest);
      assert ItemTokens(items) == Tokens(items[0]) && items == [items[0]];
    } else {
      var more := ItemTokens(items[1..]) + closing;
      ItemsRead(items[1..], rest);
      TokensRead(items[0], [Mark(',')] + more);
      MoreItems(items[0], Tokens(items[0]) + ([Mark(',')] + more), more, items[1..], rest);
      RegroupTail(Tokens(items[0]), [Mark(',')], ItemTokens(items[1..]), closing);
      assert items == [items[0]] + items[1..];
    }
  }

  /** One named value, up to what follows it. */
  lemma FieldRead(f: Field, after: seq<Span>)
    requires ReadValue(Tokens(f.value) + after) == Some((f.value, after))
    ensures var tokens := [Span(Key, Quoted(f.name)), Mark(':')] + (Tokens(f.value) + after);
      && |tokens| >= 2 && tokens[0].class_ == Key && tokens[1] == Mark(':')
      && ReadQuoted(tokens[0].text) == Some(f.name) && ReadValue(tokens[2..]) == Some((f.value, after))
  {
    QuotedRead(f.name);
    var tail := Tokens(f.value) + after;
    assert ([Span(Key, Quoted(f.name)), Mark(':')] + tail)[2..] == tail;
  }

  lemma RegroupFields(h: seq<Span>, a: seq<Span>, b: seq<Span>, c: seq<Span>, d: seq<Span>)
    ensures h + a + (b + c) + d == h + (a + (b + (c + d)))
  {
  }

  lemma LastField(f: Field, rest: seq<Span>)
    requires ReadValue(Tokens(f.value) + ([Mark('}')] + rest)) == Some((f.value, [Mark('}')] + rest))
    ensures ReadFields([Span(Key, Quoted(f.name)), Mark(':')] + (Tokens(f.value) + ([Mark('}')] + rest))) == Some(([f], rest))
  {
    FieldRead(f, [Mark('}')] + rest);
    assert ([Mark('}')] + rest)[1..] == rest;
  }

  lemma MoreFields(f: Field, more: seq<Span>, fields: seq<Field>, rest: seq<Span>)
    requires ReadValue(Tokens(f.value) + ([Mark(',')] + more)) == Some((f.value, [Mark(',')] + more))
    requires ReadFields(more) == Some((fields, rest))
    ensures ReadFields([Span(Key, Quoted(f.name)), Mark(':')] + (Tokens(f.value) + ([Mark(',')] + more)))
      == Some(([f] + fields, rest))
  {
    FieldRead(f, [Mark(',')] + more);
    assert ([Mark(',')] + more)[1..] == more;
  }

  lemma {:induction false} FieldsRead(fields: seq<Field>, rest: seq<Span>)
    requires fields != []
    ensures ReadFields(FieldTokens(fields) + ([Mark('}')] + rest)) == Some((fields, rest))
    decreases fields, |fields|
  {
    var f, closing := fields[0], [Mark('}')] + rest;
    var head := [Span(Key, Quoted(f.name)), Mark(':')];
    if |fields| == 1 {
      TokensRead(f.value, closing);
      LastField(f, rest);
      assert FieldTokens(fields) + closing == head + (Tokens(f.value) + closing) && fields == [f];
    } else {
      var more := FieldTokens(fields[1..]) + closing;
      FieldsRead(fields[1..], rest);
      TokensRead(f.value, [Mark(',')] + more);
      MoreFields(f, more, fields[1..], rest);
      RegroupFields(head, Tokens(f.value), [Mark(',')], FieldTokens(fields[1..]), closing);
      assert fields == [f] + fields[1..];
    }
  }

  /** What is shown of a JSON payload is the payload: printing a value, splitting it
      into lines, highlighting each and reading the tokens gives the value back. */
  lemma ShownIsValue(v: Value)
    ensures ReadValue(Reading(HighlightAll(Pretty(v, 0)))) == Some((v, []))
  {
    HighlightingUndoesPrinting(v);
    TokensRead(v, []);
    assert Tokens(v) + [] == Tokens(v);
  }
}
