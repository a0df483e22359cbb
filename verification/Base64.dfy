/** Decoding the `data` field of a REST message: base64 in either alphabet, padded
    or not (sections 4 and 5 of RFC 4648). */
module Base64 {
  import opened Basics

  datatype Alphabet = Standard | UrlSafe

  const PAD := '='

  type sextet = n: nat | n < 64

  /** The symbol for six bits. */
  function Symbol(a: Alphabet, v: sextet): char {
    if v < 26 then 'A' + v as char
    else if v < 52 then 'a' + (v - 26) as char
    else if v < 62 then '0' + (v - 52) as char
    else if v == 62 then (if a.Standard? then '+' else '-')
    else if a.Standard? then '/' else '_'
  }

  /** The six bits a symbol stands for. */
  function Value(a: Alphabet, c: char): Option<sextet> {
    if 'A' <= c <= 'Z' then Some((c - 'A') as nat)
    else if 'a' <= c <= 'z' then Some((c - 'a') as nat + 26)
    else if '0' <= c <= '9' then Some((c - '0') as nat + 52)
    else if c == (if a.Standard? then '+' else '-') then Some(62)
    else if c == (if a.Standard? then '/' else '_') then Some(63)
    else None
  }

  lemma SymbolRoundTrip(a: Alphabet, v: sextet)
    ensures Value(a, Symbol(a, v)) == Some(v) && Symbol(a, v) != PAD
  {
  }

  lemma ValueRoundTrip(a: Alphabet, c: char)
    ensures Value(a, c).Some? ==> Symbol(a, Value(a, c).value) == c && c != PAD
  {
  }

  // ---- Decoding ----

  /** The values of some symbols, if all are in the alphabet. */
  function Values(a: Alphabet, s: string): (r: Option<seq<sextet>>)
    ensures r.Some? ==> |r.value| == |s|
  {
    if s == "" then Some([])
    else
      match (Value(a, s[0]), Values(a, s[1..]))
      case (Some(v), Some(rest)) => Some([v] + rest)
      case _ => None
  }

  function FirstByte(v0: sextet, v1: sextet): byte {
    v0 * 4 + v1 / 16
  }

  function SecondByte(v1: sextet, v2: sextet): byte {
    v1 % 16 * 16 + v2 / 4
  }

  function ThirdByte(v2: sextet, v3: sextet): byte {
    v2 % 4 * 64 + v3
  }

  /** The bytes in the last two to four symbols; unused bits must be zero. */
  function LastBytes(v: seq<sextet>): Option<seq<byte>> {
    if |v| == 2 && v[1] % 16 == 0 then Some([FirstByte(v[0], v[1])])
    else if |v| == 3 && v[2] % 4 == 0 then Some([FirstByte(v[0], v[1]), SecondByte(v[1], v[2])])
    else if |v| == 4 then Some([FirstByte(v[0], v[1]), SecondByte(v[1], v[2]), ThirdByte(v[2], v[3])])
    else None
  }

  /** How many characters come before the first padding character. */
  function BeforePad(s: string): (n: nat)
    ensures n <= |s|
  {
    if s == "" || s[0] == PAD then 0 else 1 + BeforePad(s[1..])
  }

  predicate AllPads(s: string) {
    forall c :: c in s ==> c == PAD
  }

  /** The last quad: symbols, then at most as much padding as fills it. */
  function DecodeLast(a: Alphabet, s: string): Option<seq<byte>> {
    var m := BeforePad(s);
    if !AllPads(s[m..]) then None
    else
      match Values(a, s[..m])
      case None => None
      case Some(v) => LastBytes(v)
  }

  function Decode(a: Alphabet, s: string): Option<seq<byte>> {
    if s == "" then Some([])
    else if |s| <= 4 then DecodeLast(a, s)
    else
      match (Values(a, s[..4]), Decode(a, s[4..]))
      case (Some(v), Some(rest)) =>
        Some([FirstByte(v[0], v[1]), SecondByte(v[1], v[2]), ThirdByte(v[2], v[3])] + rest)
      case _ => None
  }

  /** Try the standard alphabet, then the URL-safe one; text that is neither yields
      no data. */
  function DecodeBase64(s: string): seq<byte> {
    match Decode(Standard, s)
    case Some(data) => data
    case None =>
      match Decode(UrlSafe, s)
      case Some(data) => data
      case None => []
  }

  // ---- Encoding, as the standard defines it ----

  function Symbols(a: Alphabet, v: seq<sextet>): string {
    seq(|v|, i requires 0 <= i < |v| => Symbol(a, v[i]))
  }

  /** The sextets of one to three bytes. */
  function Sextets(d: seq<byte>): seq<sextet>
    requires 1 <= |d| <= 3
  {
    if |d| == 1 then [d[0] / 4, d[0] % 4 * 16]
    else if |d| == 2 then [d[0] / 4, d[0] % 4 * 16 + d[1] / 16, d[1] % 16 * 4]
    else [d[0] / 4, d[0] % 4 * 16 + d[1] / 16, d[1] % 16 * 4 + d[2] / 64, d[2] % 64]
  }

  /** Unpadded base64. */
  function Encode(a: Alphabet, d: seq<byte>): string {
    if d == [] then ""
    else if |d| <= 3 then Symbols(a, Sextets(d))
    else Symbols(a, Sextets(d[..3])) + Encode(a, d[3..])
  }

  /** How much padding completes the last quad. */
  function Missing(d: seq<byte>): nat {
    (3 - |d| % 3) % 3
  }

  function Pads(k: nat): string {
    seq(k, _ => PAD)
  }

  // ---- Decoding undoes encoding ----

  lemma {:induction false} ValuesOfSymbols(a: Alphabet, v: seq<sextet>)
    ensures Values(a, Symbols(a, v)) == Some(v)
  {
    if v != [] {
      SymbolRoundTrip(a, v[0]);
      ValuesOfSymbols(a, v[1..]);
      assert Symbols(a, v)[1..] == Symbols(a, v[1..]);
      assert Symbols(a, v)[0] == Symbol(a, v[0]) && v == [v[0]] + v[1..];
    }
  }

  lemma {:induction false} SymbolsOfValues(a: Alphabet, s: string)
    requires Values(a, s).Some?
    ensures Symbols(a, Values(a, s).value) == s
    ensures BeforePad(s) == |s|
  {
    if s != "" {
      ValueRoundTrip(a, s[0]);
      SymbolsOfValues(a, s[1..]);
    }
  }

  lemma {:induction false} PadsEndSymbols(s: string, k: nat)
    requires BeforePad(s) == |s|
    ensures BeforePad(s + Pads(k)) == |s|
  {
    if s != "" {
      PadsEndSymbols(s[1..], k);
      assert (s + Pads(k))[1..] == s[1..] + Pads(k);
    } else {
      assert s + Pads(k) == Pads(k);
    }
  }

  lemma CutByte(b: byte, unit: nat, high: nat, low: nat)
    requires unit == 4 || unit == 16 || unit == 64
    requires low < unit
    ensures (high * unit + low) / unit == high && (high * unit + low) % unit == low
    ensures b / unit * unit + b % unit == b
  {
    match unit
    case 4 =>
    case 16 =>
    case 64 =>
  }

  lemma FirstBits(b: byte, low: nat)
    requires low < 16
    ensures FirstByte(b / 4, b % 4 * 16 + low) == b && (b % 4 * 16 + low) % 16 == low
  {
    CutByte(b, 16, b % 4, low);
    CutByte(b, 4, 0, 0);
  }

  lemma SecondBits(b: byte, high: nat, low: nat)
    requires high < 4 && low < 4
    ensures SecondByte(high * 16 + b / 16, b % 16 * 4 + low) == b && (b % 16 * 4 + low) % 4 == low
  {
    CutByte(b, 4, b % 16, low);
    CutByte(b, 16, high, b / 16);
  }

  lemma ThirdBits(b: byte, high: nat)
    requires high < 16
    ensures ThirdByte(high * 4 + b / 64, b % 64) == b
  {
    CutByte(b, 4, high, b / 64);
  }

  /** Six bits at a time and eight bits at a time are the same bits. */
  lemma BytesOfSextets(d: seq<byte>)
    requires 1 <= |d| <= 3
    ensures LastBytes(Sextets(d)) == Some(d)
  {
    FirstBits(d[0], if |d| == 1 then 0 else d[1] / 16);
    if |d| > 1 { SecondBits(d[1], d[0] % 4, if |d| == 2 then 0 else d[2] / 64); }
    if |d| > 2 { ThirdBits(d[2], d[1] % 16); }
    assert d == [d[0]] || d == [d[0], d[1]] || d == [d[0], d[1], d[2]];
  }

  lemma FirstSextet(v0: sextet, v1: sextet)
    ensures FirstByte(v0, v1) / 4 == v0 && FirstByte(v0, v1) % 4 == v1 / 16
  {
  }

  lemma SecondSextet(v1: sextet, v2: sextet)
    ensures SecondByte(v1, v2) / 16 == v1 % 16 && SecondByte(v1, v2) % 16 == v2 / 4
  {
  }

  lemma ThirdSextet(v2: sextet, v3: sextet)
    ensures ThirdByte(v2, v3) / 64 == v2 % 4 && ThirdByte(v2, v3) % 64 == v3
  {
  }

  lemma SextetsOfBytes(v: seq<sextet>)
    requires LastBytes(v).Some?
    ensures 1 <= |LastBytes(v).value| <= 3 && Sextets(LastBytes(v).value) == v
  {
    FirstSextet(v[0], v[1]);
    if |v| > 2 { SecondSextet(v[1], v[2]); }
    if |v| > 3 { ThirdSextet(v[2], v[3]); }
    assert v == [v[0], v[1]] || v == [v[0], v[1], v[2]] || v == [v[0], v[1], v[2], v[3]];
  }

  /** The last group of one to three bytes. */
  lemma LastGroupRoundTrip(a: Alphabet, d: seq<byte>, k: nat)
    requires 1 <= |d| <= 3 && k <= Missing(d)
    ensures var s := Symbols(a, Sextets(d)) + Pads(k); |s| <= 4 && DecodeLast(a, s) == Some(d)
  {
    var v := Sextets(d);
    ValuesOfSymbols(a, v);
    SymbolsOfValues(a, Symbols(a, v));
    PadsEndSymbols(Symbols(a, v), k);
    var s := Symbols(a, v) + Pads(k);
    assert s[..|v|] == Symbols(a, v) && s[|v|..] == Pads(k);
    BytesOfSextets(d);
  }

  lemma QuadDecodes(a: Alphabet, d: seq<byte>, tail: string)
    requires |d| == 3 && tail != "" && Decode(a, tail).Some?
    ensures Decode(a, Symbols(a, Sextets(d)) + tail) == Some(d + Decode(a, tail).value)
  {
    var v := Sextets(d);
    var s := Symbols(a, v) + tail;
    ValuesOfSymbols(a, v);
    BytesOfSextets(d);
    assert s[..4] == Symbols(a, v) && s[4..] == tail;
  }

  lemma {:induction false} DecodeEncode(a: Alphabet, d: seq<byte>, k: nat)
    requires k <= Missing(d)
    ensures Decode(a, Encode(a, d) + Pads(k)) == Some(d)
  {
    if d == [] {
      assert Encode(a, d) + Pads(k) == "";
    } else if |d| <= 3 {
      LastGroupRoundTrip(a, d, k);
    } else {
      var tail := Encode(a, d[3..]) + Pads(k);
      DecodeEncode(a, d[3..], k);
      QuadDecodes(a, d[..3], tail);
      assert Encode(a, d) + Pads(k) == Symbols(a, Sextets(d[..3])) + tail;
      assert d == d[..3] + d[3..];
    }
  }

  lemma PadsAre(s: string)
    requires AllPads(s)
    ensures s == Pads(|s|)
  {
    forall i | 0 <= i < |s| ensures s[i] == PAD {
      assert s[i] in s;
    }
  }

  lemma GroupSizes(d: seq<byte>)
    requires 1 <= |d| <= 3
    ensures |Sextets(d)| == |d| + 1 && Missing(d) == 3 - |d|
  {
  }

  lemma LastGroupSound(a: Alphabet, s: string)
    requires |s| <= 4 && DecodeLast(a, s).Some?
    ensures var d := DecodeLast(a, s).value; var n := BeforePad(s);
      && 1 <= |d| <= 3 && |s| - n <= Missing(d)
      && s == Symbols(a, Sextets(d)) + Pads(|s| - n)
  {
    var n := BeforePad(s);
    var v, d := Values(a, s[..n]).value, DecodeLast(a, s).value;
    assert LastBytes(v) == Some(d) && |v| == n;
    SextetsOfBytes(v);
    GroupSizes(d);
    SymbolsOfValues(a, s[..n]);
    PadsAre(s[n..]);
    assert s == s[..n] + s[n..];
  }

  lemma QuadSound(a: Alphabet, s: string) returns (head: seq<byte>)
    requires |s| > 4 && Decode(a, s).Some?
    ensures |head| == 3 && Decode(a, s[4..]).Some? && Decode(a, s).value == head + Decode(a, s[4..]).value
    ensures s[..4] == Symbols(a, Sextets(head))
  {
    var v := Values(a, s[..4]).value;
    head := [FirstByte(v[0], v[1]), SecondByte(v[1], v[2]), ThirdByte(v[2], v[3])];
    SymbolsOfValues(a, s[..4]);
    assert LastBytes(v) == Some(head);
    SextetsOfBytes(v);
  }

  lemma QuadEncodes(a: Alphabet, head: seq<byte>, rest: seq<byte>, k: nat)
    requires |head| == 3 && rest != []
    ensures Encode(a, head + rest) + Pads(k) == Symbols(a, Sextets(head)) + (Encode(a, rest) + Pads(k))
    ensures Missing(head + rest) == Missing(rest)
  {
    assert (head + rest)[..3] == head && (head + rest)[3..] == rest;
  }

  lemma NonEmptyRest(a: Alphabet, s: string)
    requires s != "" && Decode(a, s).Some?
    ensures Decode(a, s).value != []
  {
  }

  /** Decoding in one alphabet accepts only encodings of that alphabet, with no
      padding, full padding or part of it. */
  lemma {:induction false} DecodeSound(a: Alphabet, s: string) returns (k: nat)
    requires Decode(a, s).Some?
    ensures k <= Missing(Decode(a, s).value) && s == Encode(a, Decode(a, s).value) + Pads(k)
  {
    if s == "" {
      k := 0;
    } else if |s| <= 4 {
      LastGroupSound(a, s);
      k := |s| - BeforePad(s);
    } else {
      k := DecodeSound(a, s[4..]);
      var head := QuadSound(a, s);
      NonEmptyRest(a, s[4..]);
      QuadEncodes(a, head, Decode(a, s[4..]).value, k);
      assert s == s[..4] + s[4..];
    }
  }

  /** In one alphabet, the texts that decode to `d` are exactly its encodings, with
      any part of the padding. */
  lemma DecodesExactly(a: Alphabet, s: string, d: seq<byte>)
    ensures Decode(a, s) == Some(d) <==> exists k :: 0 <= k <= Missing(d) && s == Encode(a, d) + Pads(k)
  {
    if Decode(a, s) == Some(d) {
      var k := DecodeSound(a, s);
    }
    if exists k :: 0 <= k <= Missing(d) && s == Encode(a, d) + Pads(k) {
      var k :| 0 <= k <= Missing(d) && s == Encode(a, d) + Pads(k);
      DecodeEncode(a, d, k);
    }
  }

  // ---- Two alphabets ----

  lemma {:induction false} ValuesAgree(s: string)
    requires Values(Standard, s).Some? && Values(UrlSafe, s).Some?
    ensures Values(Standard, s) == Values(UrlSafe, s)
  {
    if s != "" {
      ValuesAgree(s[1..]);
    }
  }

  /** Text that decodes in both alphabets decodes to the same data. */
  lemma {:induction false} AlphabetsAgree(s: string)
    requires Decode(Standard, s).Some? && Decode(UrlSafe, s).Some?
    ensures Decode(Standard, s) == Decode(UrlSafe, s)
  {
    if s == "" {
    } else if |s| <= 4 {
      ValuesAgree(s[..BeforePad(s)]);
    } else {
      ValuesAgree(s[..4]);
      AlphabetsAgree(s[4..]);
    }
  }

  /** Decoding undoes encoding in either alphabet, padded or not. */
  lemma EitherAlphabetRoundTrip(a: Alphabet, d: seq<byte>, k: nat)
    requires k <= Missing(d)
    ensures DecodeBase64(Encode(a, d) + Pads(k)) == d
  {
    var s := Encode(a, d) + Pads(k);
    DecodeEncode(a, d, k);
    if a.UrlSafe? && Decode(Standard, s).Some? {
      AlphabetsAgree(s);
    }
  }

  /** Data is never wrong: whatever is decoded is what the text encodes, in one of
      the alphabets. */
  lemma NeverWrong(s: string)
    requires DecodeBase64(s) != []
    ensures exists a, k ::
      && 0 <= k <= Missing(DecodeBase64(s)) && Decode(a, s) == Some(DecodeBase64(s))
      && s == Encode(a, DecodeBase64(s)) + Pads(k)
  {
    var a := if Decode(Standard, s).Some? then Standard else UrlSafe;
    var k := DecodeSound(a, s);
    assert 0 <= k && Decode(a, s) == Some(DecodeBase64(s));
  }

  lemma {:induction false} ForeignSymbol(a: Alphabet, s: string, i: nat)
    requires i < |s| && Value(a, s[i]).None?
    ensures Values(a, s).None?
  {
    if i > 0 {
      ForeignSymbol(a, s[1..], i - 1);
    }
  }

  /** One character outside the alphabet, anywhere, and the text does not decode. */
  lemma {:induction false} ForeignRejected(a: Alphabet, s: string, i: nat)
    requires i < |s| && Value(a, s[i]).None? && s[i] != PAD
    ensures Decode(a, s).None?
  {
    if |s| <= 4 {
      var m := BeforePad(s);
      if i < m {
        ForeignSymbol(a, s[..m], i);
      } else {
        assert s[m..][i - m] in s[m..];
      }
    } else if i < 4 {
      ForeignSymbol(a, s[..4], i);
    } else {
      ForeignRejected(a, s[4..], i - 4);
    }
  }

  /** Text mixing the two alphabets' own symbols yields no data. */
  lemma MixedYieldsNothing(s: string, i: nat, j: nat)
    requires i < |s| && (s[i] == '+' || s[i] == '/')
    requires j < |s| && (s[j] == '-' || s[j] == '_')
    ensures DecodeBase64(s) == []
  {
    ForeignRejected(Standard, s, j);
    ForeignRejected(UrlSafe, s, i);
  }
}
