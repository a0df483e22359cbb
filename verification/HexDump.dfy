/** The hex dump shown for payloads that are neither JSON nor text. */
module HexDump {
  import opened Basics
  import opened Json

  const ROW_BYTES: nat := 16
  /** Sixteen "xx " groups and the gap between the two halves. */
  const FULL_WIDTH: nat := 16 * 3 + 1

  /** The three styled pieces of one row. */
  datatype Row = Row(offset: string, hex: string, gutter: string)

  function HexPair(b: byte): string {
    [HexDigit(b / 16), HexDigit(b % 16)]
  }

  function Spaces(n: nat): string {
    seq(n, _ => ' ')
  }

  /** Lower-case hexadecimal, no leading zeros. */
  function LowerHex(n: nat): (r: string)
    ensures r != ""
  {
    if n < 16 then [HexDigit(n)] else LowerHex(n / 16) + [HexDigit(n % 16)]
  }

  /** At least eight digits, zero-padded on the left. */
  function OffsetText(n: nat): string {
    var digits := LowerHex(n);
    if |digits| < 8 then seq(8 - |digits|, _ => '0') + digits else digits
  }

  /** The groups for the first `n` bytes of a row. */
  function HexGroups(chunk: seq<byte>, n: nat): string
    requires n <= |chunk|
  {
    if n == 0 then ""
    else HexGroups(chunk, n - 1) + (if n - 1 == 8 then " " else "") + HexPair(chunk[n - 1]) + " "
  }

  function GroupsWidth(n: nat): nat {
    3 * n + if n > 8 then 1 else 0
  }

  lemma {:induction false} GroupsHaveWidth(chunk: seq<byte>, n: nat)
    requires n <= |chunk|
    ensures |HexGroups(chunk, n)| == GroupsWidth(n)
  {
    if n > 0 {
      GroupsHaveWidth(chunk, n - 1);
    }
  }

  function HexColumn(chunk: seq<byte>): string
    requires |chunk| <= ROW_BYTES
  {
    GroupsHaveWidth(chunk, |chunk|);
    HexGroups(chunk, |chunk|) + Spaces(FULL_WIDTH - GroupsWidth(|chunk|))
  }

  predicate Printable(b: byte) {
    0x20 <= b < 0x7f
  }

  function Gutter(chunk: seq<byte>): string {
    " |" + seq(|chunk|, i requires 0 <= i < |chunk| => if Printable(chunk[i]) then chunk[i] as char else '.') + "|"
  }

  function RowOf(row: nat, chunk: seq<byte>): Row
    requires |chunk| <= ROW_BYTES
  {
    Row(OffsetText(row * ROW_BYTES) + "  ", HexColumn(chunk), Gutter(chunk))
  }

  /** The bytes of each row: sixteen, and in the last one what is left. */
  function Chunks(data: seq<byte>): (r: seq<seq<byte>>)
    ensures forall chunk :: chunk in r ==> |chunk| <= ROW_BYTES
  {
    if data == [] then []
    else
      var n := Min(|data|, ROW_BYTES);
      [data[..n]] + Chunks(data[n..])
  }

  function Dump(data: seq<byte>): seq<Row> {
    var chunks := Chunks(data);
    seq(|chunks|, i requires 0 <= i < |chunks| => RowOf(i, chunks[i]))
  }

  method HexRow(chunk: seq<byte>) returns (hex: string)
    requires |chunk| <= ROW_BYTES
    ensures hex == HexColumn(chunk) && |hex| == FULL_WIDTH
  {
    hex := "";
    for i := 0 to |chunk|
      invariant hex == HexGroups(chunk, i)
    {
      if i == 8 {
        hex := hex + " ";
      }
      hex := hex + HexPair(chunk[i]) + " ";
    }
    GroupsHaveWidth(chunk, |chunk|);
    hex := hex + Spaces(FULL_WIDTH - |hex|); // never below zero
  }

  /** The row after those already made, and the chunks after its own. */
  lemma RowOn(data: seq<byte>, rest: seq<byte>, i: nat)
    requires rest != [] && i <= |Chunks(data)| && Chunks(data)[i..] == Chunks(rest)
    ensures var n := Min(|rest|, ROW_BYTES);
      && i < |Dump(data)| && Dump(data)[i] == RowOf(i, rest[..n]) && Chunks(data)[i + 1..] == Chunks(rest[n..])
  {
    assert Chunks(data)[i] == Chunks(rest)[0];
    assert Chunks(data)[i + 1..] == Chunks(rest)[1..];
  }

  lemma OneMore<T>(some: seq<T>, all: seq<T>, x: T)
    requires |some| < |all| && some == all[..|some|] && x == all[|some|]
    ensures some + [x] == all[..|some| + 1]
  {
  }

  /** A classic `offset  hex×16  |ascii|` dump. */
  method AsHex(data: seq<byte>) returns (rows: seq<Row>)
    ensures rows == Dump(data)
  {
    rows := [];
    var rest := data;
    while rest != []
      invariant |rows| <= |Dump(data)| && rows == Dump(data)[..|rows|]
      invariant Chunks(data)[|rows|..] == Chunks(rest)
      decreases |rest|
    {
      var n := Min(|rest|, ROW_BYTES);
      var hex := HexRow(rest[..n]);
      var row := Row(OffsetText(|rows| * ROW_BYTES) + "  ", hex, Gutter(rest[..n]));
      RowOn(data, rest, |rows|);
      OneMore(rows, Dump(data), row);
      rows, rest := rows + [row], rest[n..];
    }
  }

  // ---- Reading a dump back ----

  /** Where the group of byte `i` begins. */
  function GroupStart(i: nat): nat {
    3 * i + if i >= 8 then 1 else 0
  }

  /** The byte that the digits of group `i` stand for. */
  function GroupValue(column: string, i: nat): nat
    requires |column| == FULL_WIDTH && i < ROW_BYTES
  {
    DigitValue(column[GroupStart(i)]) * 16 + DigitValue(column[GroupStart(i) + 1])
  }

  /** The bytes a hex column holds from byte `i` on, up to the first blank group. */
  function ReadColumn(column: string, i: nat): seq<nat>
    requires |column| == FULL_WIDTH && i <= ROW_BYTES
    decreases ROW_BYTES - i
  {
    if i == ROW_BYTES || column[GroupStart(i)] == ' ' then []
    else
      [GroupValue(column, i)] + ReadColumn(column, i + 1)
  }

  lemma {:induction false} GroupAt(chunk: seq<byte>, n: nat, i: nat)
    requires i < n <= |chunk| <= ROW_BYTES
    ensures |HexGroups(chunk, n)| == GroupsWidth(n)
    ensures HexGroups(chunk, n)[GroupStart(i)] == HexDigit(chunk[i] / 16)
    ensures HexGroups(chunk, n)[GroupStart(i) + 1] == HexDigit(chunk[i] % 16)
  {
    GroupsHaveWidth(chunk, n);
    GroupsHaveWidth(chunk, n - 1);
    if i < n - 1 {
      GroupAt(chunk, n - 1, i);
    }
  }

  /** Group `i` of a column shows byte `i`, or is blank past the end of the row. */
  lemma ColumnAt(chunk: seq<byte>, i: nat)
    requires |chunk| <= ROW_BYTES && i < ROW_BYTES
    ensures |HexColumn(chunk)| == FULL_WIDTH
    ensures i < |chunk| ==> HexColumn(chunk)[GroupStart(i)..GroupStart(i) + 2] == HexPair(chunk[i])
    ensures i >= |chunk| ==> HexColumn(chunk)[GroupStart(i)] == ' '
  {
    GroupsHaveWidth(chunk, |chunk|);
    if i < |chunk| {
      GroupAt(chunk, |chunk|, i);
    }
  }

  ghost predicate Shows(column: string, chunk: seq<byte>) {
    && |column| == FULL_WIDTH && |chunk| <= ROW_BYTES
    && (forall i :: 0 <= i < |chunk| ==>
          column[GroupStart(i)] == HexDigit(chunk[i] / 16) && column[GroupStart(i) + 1] == HexDigit(chunk[i] % 16))
    && (|chunk| < ROW_BYTES ==> column[GroupStart(|chunk|)] == ' ')
  }

  lemma ColumnShows(chunk: seq<byte>)
    requires |chunk| <= ROW_BYTES
    ensures Shows(HexColumn(chunk), chunk)
  {
    var column := HexColumn(chunk);
    ColumnAt(chunk, if |chunk| < ROW_BYTES then |chunk| else 0);
    forall i | 0 <= i < |chunk|
      ensures column[GroupStart(i)] == HexDigit(chunk[i] / 16) && column[GroupStart(i) + 1] == HexDigit(chunk[i] % 16)
    {
      ColumnAt(chunk, i);
      assert column[GroupStart(i)..GroupStart(i) + 2][0] == column[GroupStart(i)];
      assert column[GroupStart(i)..GroupStart(i) + 2][1] == column[GroupStart(i) + 1];
    }
  }

  ghost predicate Reads(column: string, chunk: seq<byte>) {
    && |column| == FULL_WIDTH && |chunk| <= ROW_BYTES
    && (forall i :: 0 <= i < |chunk| ==> column[GroupStart(i)] != ' ' && GroupValue(column, i) == chunk[i])
    && (|chunk| < ROW_BYTES ==> column[GroupStart(|chunk|)] == ' ')
  }

  lemma ShownReads(column: string, chunk: seq<byte>)
    requires Shows(column, chunk)
    ensures Reads(column, chunk)
  {
    forall i | 0 <= i < |chunk| ensures column[GroupStart(i)] != ' ' && GroupValue(column, i) == chunk[i] {
      HexPairRoundTrip(chunk[i]);
    }
  }

  lemma {:induction false} ColumnRoundTrip(column: string, chunk: seq<byte>, i: nat)
    requires Reads(column, chunk) && i <= |chunk|
    ensures ReadColumn(column, i) == chunk[i..]
    decreases |chunk| - i
  {
    if i < |chunk| {
      ColumnRoundTrip(column, chunk, i + 1);
      assert chunk[i..] == [chunk[i]] + chunk[i + 1..];
    }
  }

  lemma RowRoundTrip(chunk: seq<byte>)
    requires |chunk| <= ROW_BYTES
    ensures |HexColumn(chunk)| == FULL_WIDTH && ReadColumn(HexColumn(chunk), 0) == chunk
  {
    ColumnShows(chunk);
    ShownReads(HexColumn(chunk), chunk);
    ColumnRoundTrip(HexColumn(chunk), chunk, 0);
  }

  function ReadRows(rows: seq<Row>): seq<nat>
    requires forall r :: r in rows ==> |r.hex| == FULL_WIDTH
  {
    if rows == [] then [] else ReadColumn(rows[0].hex, 0) + ReadRows(rows[1..])
  }

  /** A gutter for `n` bytes, between bars, whose `j`-th character is `b` if that is
      printable and a dot if not. */
  ghost predicate ShowsAt(gutter: string, n: nat, j: nat, b: byte)
    requires j < n
  {
    && |gutter| == n + 3 && gutter[..2] == " |" && gutter[n + 2] == '|'
    && (if 0x20 <= b < 0x7f then gutter[j + 2] as int == b else gutter[j + 2] == '.')
  }

  /** The gutter shows one character a byte between its bars: the byte itself if it
      is printable, a dot if not. */
  lemma GutterShowsBytes(chunk: seq<byte>, i: nat)
    requires i < |chunk|
    ensures ShowsAt(Gutter(chunk), |chunk|, i, chunk[i])
  {
    var inner := Gutter(chunk)[2..|chunk| + 2];
    assert inner[i] == Gutter(chunk)[i + 2];
  }

  /** The bytes read back from the hex columns of some chunks are the chunks', joined. */
  function Joined(chunks: seq<seq<byte>>): seq<nat> {
    if chunks == [] then [] else chunks[0] + Joined(chunks[1..])
  }

  lemma {:induction false} ChunksJoin(data: seq<byte>)
    ensures Joined(Chunks(data)) == data
    decreases |data|
  {
    if data != [] {
      var n := Min(|data|, ROW_BYTES);
      ChunksJoin(data[n..]);
      assert Chunks(data)[1..] == Chunks(data[n..]) && data == data[..n] + data[n..];
    }
  }

  lemma {:induction false} RowsReadBack(rows: seq<Row>, chunks: seq<seq<byte>>)
    requires |rows| == |chunks|
    requires forall i :: 0 <= i < |rows| ==> |chunks[i]| <= ROW_BYTES && rows[i].hex == HexColumn(chunks[i])
    ensures forall r :: r in rows ==> |r.hex| == FULL_WIDTH
    ensures ReadRows(rows) == Joined(chunks)
  {
    if rows != [] {
      RowRoundTrip(chunks[0]);
      RowsReadBack(rows[1..], chunks[1..]);
      assert rows == [rows[0]] + rows[1..];
    }
  }

  /** Every row's hex column is full width, and reading the columns back recovers
      the payload, whatever its bytes. */
  lemma DumpRoundTrip(data: seq<byte>)
    ensures forall r :: r in Dump(data) ==> |r.hex| == FULL_WIDTH
    ensures ReadRows(Dump(data)) == data
  {
    RowsReadBack(Dump(data), Chunks(data));
    ChunksJoin(data);
  }

  /** There is a row for every sixteen bytes, and one for what is left. */
  lemma {:induction false} ChunkCount(data: seq<byte>)
    ensures |Chunks(data)| == (|data| + ROW_BYTES - 1) / ROW_BYTES
    decreases |data|
  {
    if data != [] {
      ChunkCount(data[Min(|data|, ROW_BYTES)..]);
    }
  }

  lemma SliceOfTail<T>(s: seq<T>, n: nat, from: nat, to: nat)
    requires n <= |s| && from <= to <= |s| - n
    ensures s[n..][from..to] == s[n + from..n + to]
  {
  }

  /** Row `i` is for the bytes from the sixteen-times-`i`-th on. */
  lemma {:induction false} ChunkAt(data: seq<byte>, i: nat)
    requires i < |Chunks(data)|
    ensures i * ROW_BYTES < |data|
    ensures Chunks(data)[i] == data[i * ROW_BYTES..Min(i * ROW_BYTES + ROW_BYTES, |data|)]
    decreases i
  {
    var n := Min(|data|, ROW_BYTES);
    if i > 0 {
      var rest := data[n..];
      assert Chunks(data)[i] == Chunks(rest)[i - 1];
      ChunkAt(rest, i - 1);
      assert n == ROW_BYTES && |rest| == |data| - n;
      SliceOfTail(data, n, (i - 1) * ROW_BYTES, Min(i * ROW_BYTES, |rest|));
    }
  }

  lemma DumpRows(data: seq<byte>)
    ensures |Dump(data)| == (|data| + ROW_BYTES - 1) / ROW_BYTES
  {
    ChunkCount(data);
  }

  /** Row `i` of a dump shows its own bytes at its right edge. */
  lemma RowShowsBytes(data: seq<byte>, i: nat, j: nat)
    requires i < |Dump(data)| && i * ROW_BYTES + j < |data| && j < ROW_BYTES
    ensures ShowsAt(Dump(data)[i].gutter, Min(|data| - i * ROW_BYTES, ROW_BYTES), j, data[i * ROW_BYTES + j])
  {
    ChunkAt(data, i);
    GutterShowsBytes(Chunks(data)[i], j);
  }

  function HexValue(s: string): nat {
    if s == "" then 0 else HexValue(s[..|s| - 1]) * 16 + DigitValue(s[|s| - 1])
  }

  lemma {:induction false} LowerHexValue(n: nat)
    ensures HexValue(LowerHex(n)) == n
  {
    DigitRoundTrip(n % 16);
    if n >= 16 {
      LowerHexValue(n / 16);
      assert LowerHex(n)[..|LowerHex(n)| - 1] == LowerHex(n / 16);
    }
  }

  lemma {:induction false} LeadingZeros(zeros: string, s: string)
    requires forall i :: 0 <= i < |zeros| ==> zeros[i] == '0'
    ensures HexValue(zeros + s) == HexValue(s)
    decreases |zeros| + |s|
  {
    if s != "" {
      assert (zeros + s)[..|zeros + s| - 1] == zeros + s[..|s| - 1];
      LeadingZeros(zeros, s[..|s| - 1]);
    } else if zeros != "" {
      LeadingZeros(zeros[..|zeros| - 1], "");
      assert zeros[..|zeros| - 1] + "" == zeros[..|zeros| - 1] && zeros + "" == zeros;
    }
  }

  lemma OffsetRoundTrip(n: nat)
    ensures |OffsetText(n)| >= 8 && HexValue(OffsetText(n)) == n
  {
    var digits := LowerHex(n);
    LowerHexValue(n);
    if |digits| < 8 {
      LeadingZeros(seq(8 - |digits|, _ => '0'), digits);
    }
  }

  /** What an offset label says, without the two blanks that follow it. */
  function LabelValue(offset: string): nat {
    if |offset| < 2 then 0 else HexValue(offset[..|offset| - 2])
  }

  lemma LabelRoundTrip(n: nat)
    ensures var offset := OffsetText(n) + "  ";
      LabelValue(offset) == n && |offset| >= 10 && offset[|offset| - 2..] == "  "
  {
    OffsetRoundTrip(n);
    assert (OffsetText(n) + "  ")[..|OffsetText(n)|] == OffsetText(n);
  }

  /** Row `i` of a dump is labelled, in at least eight digits, with the number of
      bytes dumped before it, and two blanks. */
  lemma OffsetsCountBytes(data: seq<byte>, i: nat)
    requires i < |Dump(data)|
    ensures LabelValue(Dump(data)[i].offset) == i * ROW_BYTES && i * ROW_BYTES < |data|
    ensures var offset := Dump(data)[i].offset; |offset| >= 10 && offset[|offset| - 2..] == "  "
  {
    ChunkAt(data, i);
    LabelRoundTrip(i * ROW_BYTES);
  }
}
