/** Splitting text at a separator, as the standard string type does it. */
module Strings {

  /** The pieces of `s` between occurrences of `c`; always at least one. */
  function Split(s: string, c: char): (r: seq<string>)
    ensures |r| >= 1
  {
    if s == "" then [""]
    else
      var rest := Split(s[1..], c);
      if s[0] == c then [""] + rest else [[s[0]] + rest[0]] + rest[1..]
  }

  function Join(pieces: seq<string>, c: char): string
    requires pieces != []
  {
    if |pieces| == 1 then pieces[0] else pieces[0] + [c] + Join(pieces[1..], c)
  }

  /** Nothing is lost by splitting. */
  lemma {:induction false} JoinSplit(s: string, c: char)
    ensures Join(Split(s, c), c) == s
  {
    if s != "" {
      var rest := Split(s[1..], c);
      JoinSplit(s[1..], c);
      if s[0] == c {
        assert Split(s, c)[1..] == rest;
      } else {
        assert Split(s, c)[1..] == rest[1..];
        assert s == [s[0]] + s[1..];
      }
    }
  }

  /** Text without the separator is one piece. */
  lemma {:induction false} SplitSolid(s: string, c: char)
    requires c !in s
    ensures Split(s, c) == [s]
  {
    if s != "" {
      SplitSolid(s[1..], c);
      assert s == [s[0]] + s[1..];
      assert [s[1..]][1..] == [];
    }
  }

  /** Splitting stops at the first separator. */
  lemma {:induction false} SplitFirst(piece: string, rest: string, c: char)
    requires c !in piece
    ensures Split(piece + [c] + rest, c) == [piece] + Split(rest, c)
  {
    var s := piece + [c] + rest;
    if piece == "" {
      assert s[1..] == rest;
    } else {
      SplitFirst(piece[1..], rest, c);
      assert s[1..] == piece[1..] + [c] + rest;
      assert s[0] == piece[0] && piece == [piece[0]] + piece[1..];
      assert ([piece[1..]] + Split(rest, c))[1..] == Split(rest, c);
    }
  }

  /** Pieces free of the separator are recovered exactly. */
  lemma {:induction false} SplitJoin(pieces: seq<string>, c: char)
    requires pieces != []
    requires forall p :: p in pieces ==> c !in p
    ensures Split(Join(pieces, c), c) == pieces
  {
    if |pieces| == 1 {
      SplitSolid(pieces[0], c);
    } else {
      SplitJoin(pieces[1..], c);
      SplitFirst(pieces[0], Join(pieces[1..], c), c);
    }
  }

  /** Pieces hold no separator, and nothing the text does not. */
  lemma {:induction false} PiecesSolid(s: string, c: char)
    ensures forall piece, d :: piece in Split(s, c) && d in piece ==> d != c && d in s
  {
    if s != "" {
      var rest := Split(s[1..], c);
      PiecesSolid(s[1..], c);
      forall piece, d | piece in Split(s, c) && d in piece ensures d != c && d in s {
        if piece !in rest {
          assert s[0] != c && piece == [s[0]] + rest[0] && rest[0] in rest;
        }
      }
    }
  }

  /** More text at the end leaves every piece but the last alone. */
  lemma {:induction false} SplitMore(s: string, more: string, c: char, i: nat)
    requires i + 1 < |Split(s, c)|
    ensures i < |Split(s + more, c)| && Split(s + more, c)[i] == Split(s, c)[i]
    decreases |s|
  {
    assert (s + more)[1..] == s[1..] + more && (s + more)[0] == s[0];
    if s[0] != c {
      SplitMore(s[1..], more, c, i);
    } else if i > 0 {
      SplitMore(s[1..], more, c, i - 1);
    }
  }

  /** Without a separator it is added to the last piece. */
  lemma {:induction false} SplitMoreSolid(s: string, more: string, c: char)
    requires c !in more
    ensures var p, q := Split(s, c), Split(s + more, c); |q| == |p| && q[|p| - 1] == p[|p| - 1] + more
  {
    if s == "" {
      assert s + more == more;
      SplitSolid(more, c);
    } else {
      SplitMoreSolid(s[1..], more, c);
      assert (s + more)[1..] == s[1..] + more && (s + more)[0] == s[0];
    }
  }

  /** Two texts cut at their first separator agree only if both halves do. */
  lemma CutUnique(a: string, b: string, x: string, y: string, c: char)
    requires c !in a && c !in x
    requires a + [c] + b == x + [c] + y
    ensures a == x && b == y
  {
    var s := a + [c] + b;
    assert s[|a|] == c && s[|x|] == c;
    assert |a| == |x|;
    assert a == s[..|a|] && b == s[|a| + 1..];
    assert x == s[..|x|] && y == s[|x| + 1..];
  }
}
