/** Counting live consumers from a sequence of observations, when a close that finds
    nobody to take off takes nobody off. */
module LiveCount {
  import opened Basics
  import opened Events

  /** Whether `name` is the subscription asked about, if one is. */
  predicate Matches(name: string, which: Option<string>) {
    which.None? || name == which.value
  }

  /** The change one observation makes to the live consumers of `which` subscription,
      or of all of them. */
  function Delta(o: Observation, which: Option<string>): int {
    match o
    case ConsumerOpen(name, _) => if Matches(name, which) then 1 else 0
    case ConsumerClose(name, _) => if Matches(name, which) then -1 else 0
    case _ => 0
  }

  /** Opens less closes. */
  function Net(events: seq<Observation>, which: Option<string>): int {
    if events == [] then 0
    else Net(events[..|events| - 1], which) + Delta(events[|events| - 1], which)
  }

  lemma NetOneMore(events: seq<Observation>, o: Observation, which: Option<string>)
    ensures Net(events + [o], which) == Net(events, which) + Delta(o, which)
  {
    assert (events + [o])[..|events|] == events;
  }

  lemma {:induction false} NetSplit(first: seq<Observation>, second: seq<Observation>, which: Option<string>)
    ensures Net(first + second, which) == Net(first, which) + Net(second, which)
    decreases |second|
  {
    if second == [] {
      assert first + second == first;
    } else {
      var before, last := second[..|second| - 1], second[|second| - 1];
      NetSplit(first, before, which);
      assert first + second == first + before + [last];
      NetOneMore(first + before, last, which);
    }
  }

  /** The live consumers the observations leave on `name`, one at a time. */
  function LiveLeft(events: seq<Observation>, name: string): nat {
    if events == [] then 0
    else
      var left := LiveLeft(events[..|events| - 1], name) + Delta(events[|events| - 1], Some(name));
      if left < 0 then 0 else left
  }

  /** Closes that find nobody to take off. */
  function Saturated(events: seq<Observation>, which: Option<string>): nat {
    if events == [] then 0
    else
      var before, o := events[..|events| - 1], events[|events| - 1];
      Saturated(before, which)
      + if o.ConsumerClose? && Matches(o.subscription, which) && LiveLeft(before, o.subscription) == 0 then 1 else 0
  }

  lemma CountsOneMore(events: seq<Observation>, o: Observation, which: Option<string>)
    ensures which.Some? ==> var left := LiveLeft(events, which.value) + Delta(o, which);
      LiveLeft(events + [o], which.value) == if left < 0 then 0 else left
    ensures Saturated(events + [o], which) == Saturated(events, which)
      + if o.ConsumerClose? && Matches(o.subscription, which) && LiveLeft(events, o.subscription) == 0 then 1 else 0
  {
    assert (events + [o])[..|events|] == events;
  }

  /** What is left is opens less closes, plus the closes that did nothing. */
  lemma {:induction false} LeftIsNetPlusSaturated(events: seq<Observation>, name: string)
    ensures LiveLeft(events, name) == Net(events, Some(name)) + Saturated(events, Some(name))
  {
    if events != [] {
      LeftIsNetPlusSaturated(events[..|events| - 1], name);
    }
  }

  /** `n` is the largest net change any tail of the observations makes to `name`. */
  ghost predicate LargestTail(n: int, events: seq<Observation>, name: string) {
    && (forall k :: 0 <= k <= |events| ==> Net(events[k..], Some(name)) <= n)
    && (exists k :: 0 <= k <= |events| && Net(events[k..], Some(name)) == n)
  }

  lemma TailOneMore(events: seq<Observation>, o: Observation, name: string, k: nat)
    requires k <= |events|
    ensures Net((events + [o])[k..], Some(name)) == Net(events[k..], Some(name)) + Delta(o, Some(name))
  {
    assert (events + [o])[k..] == events[k..] + [o];
    NetOneMore(events[k..], o, Some(name));
  }

  lemma LargestTailOneMore(n: int, events: seq<Observation>, o: Observation, name: string)
    requires LargestTail(n, events, name)
    ensures var left := n + Delta(o, Some(name)); LargestTail(if left < 0 then 0 else left, events + [o], name)
  {
    var more, left := events + [o], n + Delta(o, Some(name));
    assert more[|more|..] == [];
    forall k | 0 <= k <= |more| ensures Net(more[k..], Some(name)) <= if left < 0 then 0 else left {
      if k <= |events| { TailOneMore(events, o, name, k); }
    }
    if left >= 0 {
      var k :| 0 <= k <= |events| && Net(events[k..], Some(name)) == n;
      TailOneMore(events, o, name, k);
      assert Net(more[k..], Some(name)) == left;
    } else {
      assert Net(more[|more|..], Some(name)) == 0;
    }
  }

  /** The live count is the largest net change over the tails: as if the proxy had
      forgotten everything up to the last time nobody was left. */
  lemma {:induction false} LiveLeftIsLargestTail(events: seq<Observation>, name: string)
    ensures LargestTail(LiveLeft(events, name), events, name)
  {
    if events == [] {
      assert Net(events[0..], Some(name)) == 0;
    } else {
      var before, last := events[..|events| - 1], events[|events| - 1];
      LiveLeftIsLargestTail(before, name);
      LargestTailOneMore(LiveLeft(before, name), before, last, name);
      assert events == before + [last];
    }
  }

  /** The closes that did nothing are exactly the deepest the net count ever sank. */
  lemma SaturatedIsDeepestDebt(events: seq<Observation>, name: string)
    ensures forall k :: 0 <= k <= |events| ==> Net(events[..k], Some(name)) + Saturated(events, Some(name)) >= 0
    ensures exists k :: 0 <= k <= |events| && Net(events[..k], Some(name)) + Saturated(events, Some(name)) == 0
  {
    LeftIsNetPlusSaturated(events, name);
    LiveLeftIsLargestTail(events, name);
    forall k | 0 <= k <= |events|
      ensures Net(events[..k], Some(name)) + Net(events[k..], Some(name)) == Net(events, Some(name))
    {
      assert events[..k] + events[k..] == events;
      NetSplit(events[..k], events[k..], Some(name));
    }
    var k :| 0 <= k <= |events| && Net(events[k..], Some(name)) == LiveLeft(events, name);
    assert Net(events[..k], Some(name)) + Saturated(events, Some(name)) == 0;
  }

  /** If no close did nothing on any one subscription, none did. */
  lemma {:induction false} NoneSaturated(events: seq<Observation>)
    requires forall name :: Saturated(events, Some(name)) == 0
    ensures Saturated(events, None) == 0
  {
    if events != [] {
      var before, o := events[..|events| - 1], events[|events| - 1];
      forall name ensures Saturated(before, Some(name)) == 0 {
        assert Saturated(before, Some(name)) <= Saturated(events, Some(name));
      }
      NoneSaturated(before);
      if o.ConsumerClose? {
        assert Saturated(events, Some(o.subscription)) == 0;
      }
    }
  }
}
