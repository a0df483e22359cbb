/** Choosing how a payload is shown, and how many lines its detail view has. */
module MessageView {
  import opened Basics
  import opened State
  import opened Strings
  import opened Json
  import opened JsonView
  import opened JsonRead
  import opened HexDump
  import App

  datatype Rendered =
    | EmptyBody
    | JsonBody(tokens: seq<seq<Span>>)
    | TextBody(text: seq<string>)
    | HexBody(rows: seq<Row>)

  /** What parsing made of the bytes: their JSON value and their UTF-8 text, if they
      are that. */
  datatype Parsed = Parsed(json: Option<Json.Value>, text: Option<string>)

  /** Unicode control characters. */
  predicate IsControl(c: char) {
    c < ' ' || '\U{7F}' <= c <= '\U{9F}'
  }

  predicate PlainText(text: string) {
    forall c :: c in text ==> !IsControl(c) || c == '\t' || c == '\n' || c == '\r'
  }

  /** Every printable ASCII character and everything beyond the second block of control
      characters is plain; of the control characters only three are. */
  lemma PlainTextExactly(text: string)
    ensures PlainText(text) <==>
      forall i :: 0 <= i < |text| ==> text[i] in "\t\n\r" || ' ' <= text[i] <= '~' || text[i] > '\U{9F}'
  {
    if !PlainText(text) {
      var c :| c in text && IsControl(c) && c != '\t' && c != '\n' && c != '\r';
      var i :| 0 <= i < |text| && text[i] == c;
    } else {
      assert forall i :: 0 <= i < |text| ==> text[i] in text;
    }
  }

  /** Tabs become four blanks and carriage returns vanish. */
  function Tidied(line: string): string {
    if line == "" then ""
    else (if line[0] == '\t' then "    " else if line[0] == '\r' then "" else [line[0]]) + Tidied(line[1..])
  }

  function TidiedAll(lines: seq<string>): seq<string> {
    seq(|lines|, i requires 0 <= i < |lines| => Tidied(lines[i]))
  }

  function TextLines(text: string): seq<string> {
    TidiedAll(Split(text, '\n'))
  }

  lemma {:induction false} TidiedConcat(a: string, b: string)
    ensures Tidied(a + b) == Tidied(a) + Tidied(b)
  {
    if a == "" {
      assert a + b == b;
    } else {
      TidiedConcat(a[1..], b);
      assert (a + b)[0] == a[0] && (a + b)[1..] == a[1..] + b;
      var first := if a[0] == '\t' then "    " else if a[0] == '\r' then "" else [a[0]];
      assert first + (Tidied(a[1..]) + Tidied(b)) == first + Tidied(a[1..]) + Tidied(b);
    }
  }

  lemma RegroupLines(first: string, rest: string)
    ensures first + ['\n'] + rest == first + (['\n'] + rest)
  {
  }

  /** A text free of tabs and carriage returns is shown as it is. */
  lemma {:induction false} TidiedPlain(text: string)
    requires '\t' !in text && '\r' !in text
    ensures Tidied(text) == text
  {
    if text != "" {
      TidiedPlain(text[1..]);
      assert text == [text[0]] + text[1..];
    }
  }

  lemma TidiedOne(c: char)
    ensures Tidied([c]) == if c == '\t' then "    " else if c == '\r' then "" else [c]
  {
  }

  lemma TidiedThrough(before: string, c: char, after: string)
    ensures Tidied(before + [c] + after) == Tidied(before) + Tidied([c]) + Tidied(after)
  {
    TidiedConcat(before + [c], after);
    TidiedConcat(before, [c]);
  }

  /** A tab becomes four blanks and a carriage return nothing, and all around them is
      kept. */
  lemma TidiedAround(before: string, after: string)
    ensures Tidied(before + ['\t'] + after) == Tidied(before) + "    " + Tidied(after)
    ensures Tidied(before + ['\r'] + after) == Tidied(before) + Tidied(after)
  {
    TidiedOne('\t');
    TidiedOne('\r');
    TidiedThrough(before, '\t', after);
    TidiedThrough(before, '\r', after);
    assert Tidied(before) + "" == Tidied(before);
  }

  lemma {:induction false} TidiedJoins(lines: seq<string>)
    requires lines != []
    ensures Join(TidiedAll(lines), '\n') == Tidied(Join(lines, '\n'))
  {
    if |lines| > 1 {
      var rest := Join(lines[1..], '\n');
      TidiedJoins(lines[1..]);
      assert TidiedAll(lines)[1..] == TidiedAll(lines[1..]);
      TidiedConcat(lines[0], ['\n'] + rest);
      TidiedConcat(['\n'], rest);
      assert Tidied(['\n']) == ['\n'];
      RegroupLines(lines[0], rest);
      RegroupLines(Tidied(lines[0]), Tidied(rest));
    }
  }

  /** Nothing of a text is lost on its lines but what tidying takes. */
  lemma TextLinesRejoin(text: string)
    ensures TextLines(text) != [] && Join(TextLines(text), '\n') == Tidied(text)
  {
    TidiedJoins(Split(text, '\n'));
    JoinSplit(text, '\n');
  }

  method AsText(text: string) returns (lines: Option<seq<string>>)
    ensures lines == if PlainText(text) then Some(TextLines(text)) else None
    ensures lines.Some? <==>
      forall i :: 0 <= i < |text| ==> text[i] in "\t\n\r" || ' ' <= text[i] <= '~' || text[i] > '\U{9F}'
  {
    PlainTextExactly(text);
    if !PlainText(text) {
      return None;
    }
    var pieces, tidy := Split(text, '\n'), [];
    for i := 0 to |pieces|
      invariant |tidy| == i && forall j :: 0 <= j < i ==> tidy[j] == Tidied(pieces[j])
    {
      tidy := tidy + [Tidied(pieces[i])];
    }
    assert tidy == TextLines(text);
    lines := Some(tidy);
  }

  function Body(data: seq<byte>, parsed: Parsed): Rendered {
    if data == [] then EmptyBody
    else if parsed.json.Some? then JsonBody(TokenLines(Layout(parsed.json.value)))
    else if parsed.text.Some? && PlainText(parsed.text.value) then TextBody(TextLines(parsed.text.value))
    else HexBody(Dump(data))
  }

  /** What is shown can be read back: a JSON value's tokens, a tidied text, or the
      very bytes; each view exactly when the ones before it do not apply. */
  ghost predicate Presents(r: Rendered, data: seq<byte>, parsed: Parsed) {
    match r
    case EmptyBody => data == []
    case JsonBody(tokens) =>
      && data != [] && parsed.json.Some?
      && Reading(tokens) == Tokens(parsed.json.value) && ReadValue(Reading(tokens)) == Some((parsed.json.value, []))
    case TextBody(lines) =>
      && data != [] && parsed.json.None? && parsed.text.Some? && PlainText(parsed.text.value)
      && lines != [] && Join(lines, '\n') == Tidied(parsed.text.value)
    case HexBody(rows) =>
      && data != [] && parsed.json.None? && !(parsed.text.Some? && PlainText(parsed.text.value))
      && (forall row :: row in rows ==> |row.hex| == FULL_WIDTH) && ReadRows(rows) == data
  }

  lemma BodyPresents(data: seq<byte>, parsed: Parsed)
    ensures Presents(Body(data, parsed), data, parsed)
  {
    match Body(data, parsed)
    case EmptyBody =>
    case JsonBody(_) =>
      HighlightedLines(parsed.json.value);
      HighlightingUndoesPrinting(parsed.json.value);
      ShownIsValue(parsed.json.value);
    case TextBody(_) => TextLinesRejoin(parsed.text.value);
    case HexBody(_) => DumpRoundTrip(data);
  }

  /** Render `data`, choosing JSON, then text, then hex. */
  method RenderBody(data: seq<byte>, parsed: Parsed) returns (r: Rendered)
    ensures r == Body(data, parsed)
    ensures Presents(r, data, parsed)
  {
    BodyPresents(data, parsed);
    if data == [] {
      return EmptyBody;
    }
    if parsed.json.Some? {
      var lines := AsJson(parsed.json.value);
      return JsonBody(lines);
    }
    if parsed.text.Some? {
      var text := AsText(parsed.text.value);
      if text.Some? {
        return TextBody(text.value);
      }
    }
    var rows := AsHex(data);
    return HexBody(rows);
  }

  function BodyLines(r: Rendered): nat {
    match r
    case EmptyBody => 1
    case JsonBody(tokens) => |tokens|
    case TextBody(text) => |text|
    case HexBody(rows) => |rows|
  }

  /** The detail view: four header lines, the attributes under their heading if
      there are any, a rule, then the body. */
  function DetailLineCount(m: RecentMessage, parse: seq<byte> -> Parsed): nat {
    4 + (if m.attributes == [] then 0 else 1 + |m.attributes|) + 1 + BodyLines(Body(m.data, parse(m.data)))
  }

  /** One line of a body. */
  datatype Shown = Nothing | Spans(spans: seq<Span>) | Words(text: string) | Bytes(row: Row)

  /** A line of the detail view, without its styling; ages are not formatted here. */
  datatype DetailLine =
    | TopicLine(topic: string)
    | AgeLine
    | SizeLine(bytes: nat, shown: Option<nat>)
    | FormatLine(format: string)
    | AttributesHeading
    | AttributeLine(key: string, value: string)
    | RuleLine
    | BodyLine(line: Shown)

  function FormatOf(r: Rendered): string {
    match r
    case EmptyBody => "empty"
    case JsonBody(_) => "json"
    case TextBody(_) => "text"
    case HexBody(_) => "hex"
  }

  /** The lines are those of the body, from its first to its last. */
  ghost predicate ShowsBody(lines: seq<DetailLine>, r: Rendered) {
    match r
    case EmptyBody => lines == [BodyLine(Nothing)]
    case JsonBody(tokens) => |lines| == |tokens| && forall i :: 0 <= i < |tokens| ==> lines[i] == BodyLine(Spans(tokens[i]))
    case TextBody(text) => |lines| == |text| && forall i :: 0 <= i < |text| ==> lines[i] == BodyLine(Words(text[i]))
    case HexBody(rows) => |lines| == |rows| && forall i :: 0 <= i < |rows| ==> lines[i] == BodyLine(Bytes(rows[i]))
  }

  function BodyOf(r: Rendered): (lines: seq<DetailLine>)
    ensures |lines| == BodyLines(r) && ShowsBody(lines, r)
  {
    match r
    case EmptyBody => [BodyLine(Nothing)]
    case JsonBody(tokens) => seq(|tokens|, i requires 0 <= i < |tokens| => BodyLine(Spans(tokens[i])))
    case TextBody(text) => seq(|text|, i requires 0 <= i < |text| => BodyLine(Words(text[i])))
    case HexBody(rows) => seq(|rows|, i requires 0 <= i < |rows| => BodyLine(Bytes(rows[i])))
  }

  /** Four lines say what the message is; the attributes follow under their heading, if
      there are any, and a rule ends it all. */
  ghost predicate ShowsHeader(lines: seq<DetailLine>, m: RecentMessage, format: string) {
    && |lines| == (if m.attributes == [] then 5 else 6 + |m.attributes|)
    && lines[0] == TopicLine(m.topic) && lines[1] == AgeLine
    && lines[2] == SizeLine(m.originalLen, if m.truncated then Some(|m.data|) else None)
    && lines[3] == FormatLine(format)
    && (m.attributes != [] ==> lines[4] == AttributesHeading)
    && (forall i :: 0 <= i < |m.attributes| ==> lines[5 + i] == AttributeLine(m.attributes[i].0, m.attributes[i].1))
    && lines[|lines| - 1] == RuleLine
  }

  method HeaderLines(m: RecentMessage, format: string) returns (lines: seq<DetailLine>)
    ensures ShowsHeader(lines, m, format)
  {
    lines := [TopicLine(m.topic), AgeLine, SizeLine(m.originalLen, if m.truncated then Some(|m.data|) else None),
              FormatLine(format)];
    if m.attributes != [] {
      ghost var top := lines + [AttributesHeading];
      lines := lines + [AttributesHeading];
      for i := 0 to |m.attributes|
        invariant |lines| == 5 + i && lines[..5] == top
        invariant forall j :: 0 <= j < i ==> lines[5 + j] == AttributeLine(m.attributes[j].0, m.attributes[j].1)
      {
        lines := lines + [AttributeLine(m.attributes[i].0, m.attributes[i].1)];
      }
      assert lines[..5][3] == FormatLine(format) && lines[..5][4] == AttributesHeading;
    }
    lines := lines + [RuleLine];
  }

  /** The detail view, line by line: its header, then the body from its first line to
      its last. */
  method DetailLines(m: RecentMessage, parse: seq<byte> -> Parsed) returns (lines: seq<DetailLine>)
    ensures |lines| == DetailLineCount(m, parse)
    ensures var body, top := Body(m.data, parse(m.data)), if m.attributes == [] then 5 else 6 + |m.attributes|;
      |lines| >= top && ShowsHeader(lines[..top], m, FormatOf(body)) && ShowsBody(lines[top..], body)
  {
    var body := RenderBody(m.data, parse(m.data));
    var header := HeaderLines(m, FormatOf(body));
    lines := header + BodyOf(body);
    assert lines[..|header|] == header && lines[|header|..] == BodyOf(body);
  }

  /** However a payload is shown there is at least one line of it. */
  lemma BodyHasLines(data: seq<byte>, parsed: Parsed)
    ensures BodyLines(Body(data, parsed)) >= 1
  {
    match Body(data, parsed)
    case JsonBody(_) => PrettyIsPage(parsed.json.value, 0, None, false);
    case _ =>
  }

  /** So in every session, whatever payloads arrive and however they parse, the
      panels agree and the scroll position is a line of the opened message. */
  lemma ScrollStaysInside(moments: seq<App.Moment>, parse: seq<byte> -> Parsed)
    ensures var lines := (m: RecentMessage) => DetailLineCount(m, parse);
      App.Consistent(App.Session(moments, lines), lines)
  {
    var lines := (m: RecentMessage) => DetailLineCount(m, parse);
    forall m: RecentMessage ensures lines(m) > 0 {
      BodyHasLines(m.data, parse(m.data));
    }
    App.AlwaysConsistent(moments, lines);
  }
}
