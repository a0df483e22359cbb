/** The byte-wise order in which ordered maps with string keys are traversed.
    Comparing scalar values agrees with comparing UTF-8 encodings byte by byte. */
module Ordering {
  import opened Basics

  /** Lexicographic "at most". */
  predicate AtMost(a: string, b: string) {
    if a == "" then true
    else if b == "" then false
    else if a[0] != b[0] then a[0] < b[0]
    else AtMost(a[1..], b[1..])
  }

  lemma {:induction false} AtMostAntisymmetric(a: string, b: string)
    requires AtMost(a, b) && AtMost(b, a)
    ensures a == b
  {
    if a != "" && b != "" {
      AtMostAntisymmetric(a[1..], b[1..]);
      assert a == [a[0]] + a[1..] && b == [b[0]] + b[1..];
    }
  }

  lemma {:induction false} AtMostTotal(a: string, b: string)
    ensures AtMost(a, b) || AtMost(b, a)
  {
    if a != "" && b != "" {
      AtMostTotal(a[1..], b[1..]);
    }
  }

  lemma {:induction false} AtMostTransitive(a: string, b: string, c: string)
    requires AtMost(a, b) && AtMost(b, c)
    ensures AtMost(a, c)
  {
    if a != "" && b != "" && c != "" && a[0] == b[0] == c[0] {
      AtMostTransitive(a[1..], b[1..], c[1..]);
    }
  }

  /** The order of dictionaries: a prefix comes first, otherwise the first character
      that differs decides. */
  lemma {:induction false} AtMostExactly(a: string, b: string)
    ensures AtMost(a, b) <==> a <= b || exists i :: 0 <= i < |a| && i < |b| && a[..i] == b[..i] && a[i] < b[i]
  {
    if a != "" && b != "" {
      if a[0] == b[0] {
        var x, y := a[1..], b[1..];
        AtMostExactly(x, y);
        assert a <= b <==> x <= y;
        if exists i :: 0 <= i < |x| && i < |y| && x[..i] == y[..i] && x[i] < y[i] {
          var i :| 0 <= i < |x| && i < |y| && x[..i] == y[..i] && x[i] < y[i];
          assert a[..i + 1] == [a[0]] + x[..i] && b[..i + 1] == [b[0]] + y[..i];
          assert a[i + 1] < b[i + 1];
        }
        if exists i :: 0 <= i < |a| && i < |b| && a[..i] == b[..i] && a[i] < b[i] {
          var i :| 0 <= i < |a| && i < |b| && a[..i] == b[..i] && a[i] < b[i];
          assert x[..i - 1] == a[..i][1..] && y[..i - 1] == b[..i][1..];
          assert x[i - 1] < y[i - 1];
        }
      } else {
        assert a[..0] == b[..0];
        if exists i :: 0 <= i < |a| && i < |b| && a[..i] == b[..i] && a[i] < b[i] {
          var i :| 0 <= i < |a| && i < |b| && a[..i] == b[..i] && a[i] < b[i];
          if i > 0 { assert a[..i][0] == b[..i][0]; }
        }
      }
    }
  }

  predicate IsLeast(k: string, keys: set<string>) {
    k in keys && forall j :: j in keys ==> AtMost(k, j)
  }

  lemma {:induction false} LeastExists(keys: set<string>)
    requires keys != {}
    ensures exists k :: IsLeast(k, keys)
    decreases |keys|
  {
    var x :| x in keys;
    AtMostTotal(x, x);
    if keys == {x} {
      assert IsLeast(x, keys);
    } else {
      var rest := keys - {x};
      assert keys == rest + {x};
      LeastExists(rest);
      var y :| IsLeast(y, rest);
      AtMostTotal(x, y);
      if AtMost(x, y) {
        forall j | j in keys ensures AtMost(x, j) {
          if j != x { AtMostTransitive(x, y, j); }
        }
        assert IsLeast(x, keys);
      } else {
        assert IsLeast(y, keys);
      }
    }
  }

  lemma LeastUnique(keys: set<string>)
    ensures forall a, b :: IsLeast(a, keys) && IsLeast(b, keys) ==> a == b
  {
    forall a, b | IsLeast(a, keys) && IsLeast(b, keys) ensures a == b {
      AtMostAntisymmetric(a, b);
    }
  }

  /** The keys in traversal order. */
  function SortedKeys(keys: set<string>): (r: seq<string>)
    ensures |r| == |keys|
    ensures forall k :: k in r <==> k in keys
    decreases |keys|
  {
    if keys == {} then []
    else
      LeastExists(keys);
      LeastUnique(keys);
      var k :| k in keys && IsLeast(k, keys);
      [k] + SortedKeys(keys - {k})
  }

  ghost predicate Increasing(keys: seq<string>) {
    Distinct(keys) && forall i, j :: 0 <= i < j < |keys| ==> AtMost(keys[i], keys[j])
  }

  lemma IncreasingCons(k: string, tail: seq<string>)
    requires Increasing(tail) && forall j :: j in tail ==> k != j && AtMost(k, j)
    ensures Increasing([k] + tail)
  {
    var r := [k] + tail;
    forall i, j | 0 <= i < j < |r| ensures r[i] != r[j] && AtMost(r[i], r[j]) {
      assert r[j] == tail[j - 1] && tail[j - 1] in tail;
      if i > 0 { assert r[i] == tail[i - 1]; }
    }
  }

  lemma IncreasingFirst(k: string, tail: seq<string>)
    requires Increasing([k] + tail)
    ensures Increasing(tail) && forall j :: j in tail ==> k != j && AtMost(k, j)
  {
    var r := [k] + tail;
    forall i, j | 0 <= i < j < |tail| ensures tail[i] != tail[j] && AtMost(tail[i], tail[j]) {
      assert r[i + 1] == tail[i] && r[j + 1] == tail[j];
    }
    forall j | j in tail ensures k != j && AtMost(k, j) {
      var i :| 0 <= i < |tail| && tail[i] == j;
      assert r[i + 1] == j && r[0] == k;
    }
  }

  lemma IncreasingSnoc(names: seq<string>, last: string)
    ensures Increasing(names + [last]) <==> Increasing(names) && forall n :: n in names ==> n != last && AtMost(n, last)
  {
    var more := names + [last];
    if Increasing(more) {
      forall i, j | 0 <= i < j < |names| ensures names[i] != names[j] && AtMost(names[i], names[j]) {
        assert more[i] == names[i] && more[j] == names[j];
      }
      forall n | n in names ensures n != last && AtMost(n, last) {
        var i :| 0 <= i < |names| && names[i] == n;
        assert more[i] == n && more[|names|] == last;
      }
    } else {
      var i, j :| 0 <= i < j < |more| && !(more[i] != more[j] && AtMost(more[i], more[j]));
      assert more[i] == names[i] && names[i] in names;
      if j < |names| { assert more[j] == names[j]; }
    }
  }

  /** Traversal starts at the least key. */
  lemma SortedKeysFirst(keys: set<string>) returns (k: string)
    requires keys != {}
    ensures IsLeast(k, keys) && SortedKeys(keys) == [k] + SortedKeys(keys - {k})
  {
    LeastExists(keys);
    k :| IsLeast(k, keys) && SortedKeys(keys) == [k] + SortedKeys(keys - {k});
  }

  /** Traversal visits each key once, in increasing order. */
  lemma {:induction false} SortedKeysIncrease(keys: set<string>)
    ensures Increasing(SortedKeys(keys))
    decreases |keys|
  {
    if keys != {} {
      var k := SortedKeysFirst(keys);
      SortedKeysIncrease(keys - {k});
      IncreasingCons(k, SortedKeys(keys - {k}));
    }
  }

  /** An increasing sequence is the traversal of its own elements. */
  lemma {:induction false} IncreasingIsSorted(keys: seq<string>)
    requires Increasing(keys)
    ensures keys == SortedKeys(Elements(keys))
  {
    if keys == [] {
      assert Elements(keys) == {};
    } else {
      var first, tail, all := keys[0], keys[1..], Elements(keys);
      assert keys == [first] + tail;
      IncreasingFirst(first, tail);
      IncreasingIsSorted(tail);
      assert all == {first} + Elements(tail) && all - {first} == Elements(tail);
      var k := SortedKeysFirst(all);
      if k != first { AtMostAntisymmetric(k, first); }
    }
  }

  /** The members of `keep` among `keys`, in the same order. */
  function Kept(keys: seq<string>, keep: set<string>): (r: seq<string>)
    ensures forall k :: k in r <==> k in keys && k in keep
  {
    if keys == [] then []
    else
      var before, last := Kept(keys[..|keys| - 1], keep), keys[|keys| - 1];
      if last in keep then before + [last] else before
  }

  lemma KeptOneMore(keys: seq<string>, i: nat, keep: set<string>)
    requires i < |keys|
    ensures Kept(keys[..i + 1], keep) == if keys[i] in keep then Kept(keys[..i], keep) + [keys[i]] else Kept(keys[..i], keep)
  {
    assert keys[..i + 1][..i] == keys[..i];
  }

  lemma {:induction false} KeptIncrease(keys: seq<string>, keep: set<string>)
    requires Increasing(keys)
    ensures Increasing(Kept(keys, keep))
  {
    if keys != [] {
      var before, last := keys[..|keys| - 1], keys[|keys| - 1];
      assert keys == before + [last];
      IncreasingSnoc(before, last);
      KeptIncrease(before, keep);
      IncreasingSnoc(Kept(before, keep), last);
    }
  }

  /** Skipping the unwanted keys of a traversal leaves the traversal of the wanted ones. */
  lemma KeptInOrder(all: set<string>, keep: set<string>)
    requires keep <= all
    ensures Kept(SortedKeys(all), keep) == SortedKeys(keep)
  {
    SortedKeysIncrease(all);
    KeptIncrease(SortedKeys(all), keep);
    IncreasingIsSorted(Kept(SortedKeys(all), keep));
    assert Elements(Kept(SortedKeys(all), keep)) == keep;
  }
}
