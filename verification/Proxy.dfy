/** The whole observing proxy as one step system: any number of tapped streams and
    other taps feeding one bounded channel, and the task that drains it into the
    state in whatever portions it happens to find. */
module Proxy {
  import opened Basics
  import opened Events
  import opened LiveCount
  import opened State
  import opened StreamingPull
  import opened StateLog
  import opened Sums

  datatype System = System(
    streams: map<nat, Stream>,
    queue: seq<Observation>,
    capacity: nat,
    receiving: bool, // the state owner still holds its end of the channel
    recentBuffer: nat,
    ops: seq<OwnerOp>, // what the state owner has done
    offered: seq<Observation>, // everything any tap tried to report
    lost: seq<Observation>) // what the full or closed channel turned away, in order

  datatype Event =
    | Connect(id: nat, peer: Peer)
    | Act(id: nat, action: Action)
    | Tap(o: Observation) // a unary call or an admin poll
    | OwnerFolds(now: Instant)
    | OwnerPublishes
    | OwnerStops

  function Init(capacity: nat, recentBuffer: nat): System {
    System(map[], [], capacity, true, recentBuffer, [], [], [])
  }

  function StateOf(sys: System): Snapshot {
    Replay(sys.recentBuffer, sys.ops)
  }

  /** One non-blocking send into the shared channel. */
  function Offer(sys: System, o: Observation): System {
    var queue := Offered(sys.queue, sys.capacity, sys.receiving, o);
    sys.(queue := queue, offered := sys.offered + [o],
         lost := if sys.receiving && |sys.queue| < sys.capacity then sys.lost else sys.lost + [o])
  }

  function LiveOn(s: Snapshot, name: string): nat {
    SubscriptionOr(s.subscriptions, name).liveConsumers
  }

  /** A stream has moved on, and reports what it has to say. */
  function Moved(sys: System, id: nat, after: Stream, emitted: seq<Observation>): System {
    var moved := sys.(streams := sys.streams[id := after]);
    if emitted == [] then moved else Offer(moved, emitted[0])
  }

  function Acted(sys: System, id: nat, a: Action): System
    requires id in sys.streams
  {
    Moved(sys, id, StreamingPull.Step(sys.streams[id], a), EmittedBy(sys.streams[id], a))
  }

  function Folded(sys: System, now: Instant): System
    requires sys.queue != []
  {
    sys.(queue := sys.queue[1..], ops := sys.ops + [Fold(sys.queue[0], now)])
  }

  /** One step of the system; a disabled one changes nothing. */
  function Step(sys: System, event: Event): System {
    match event
    case Connect(id, peer) =>
      if id in sys.streams then sys else sys.(streams := sys.streams[id := Start(peer)])
    case Act(id, a) => if id in sys.streams then Acted(sys, id, a) else sys
    case Tap(o) => if o.ConsumerOpen? || o.ConsumerClose? then sys else Offer(sys, o)
    case OwnerFolds(now) => if sys.receiving && sys.queue != [] then Folded(sys, now) else sys
    case OwnerPublishes => if sys.receiving then sys.(ops := sys.ops + [Trim]) else sys
    case OwnerStops => sys.(receiving := false)
  }

  function Exec(sys: System, run: seq<Event>): System
    decreases |run|
  {
    if run == [] then sys
    else Step(Exec(sys, run[..|run| - 1]), run[|run| - 1])
  }

  lemma ExecOneMore(sys: System, run: seq<Event>, event: Event)
    ensures Exec(sys, run + [event]) == Step(Exec(sys, run), event)
  {
    assert (run + [event])[..|run|] == run;
  }

  // ---- Observing never disturbs the traffic ----

  /** How a step moves the streams, with no sink in sight. */
  function StreamsAfter(streams: map<nat, Stream>, event: Event): map<nat, Stream> {
    match event
    case Connect(id, peer) => if id in streams then streams else streams[id := Start(peer)]
    case Act(id, a) => if id in streams then streams[id := StreamingPull.Step(streams[id], a)] else streams
    case _ => streams
  }

  lemma StreamsIgnoreSink(sys: System, event: Event)
    ensures Step(sys, event).streams == StreamsAfter(sys.streams, event)
  {
  }

  /** What the streams forward, and all else about them, is the same whatever
      becomes of the observations. */
  lemma {:induction false} ForwardingIgnoresSink(one: System, other: System, run: seq<Event>)
    requires one.streams == other.streams
    ensures Exec(one, run).streams == Exec(other, run).streams
    decreases |run|
  {
    if run != [] {
      var before, last := run[..|run| - 1], run[|run| - 1];
      ForwardingIgnoresSink(one, other, before);
      StreamsIgnoreSink(Exec(one, before), last);
      StreamsIgnoreSink(Exec(other, before), last);
    }
  }

  // ---- Every reachable stream is a reachable stream on its own ----

  ghost predicate StreamOk(st: Stream) {
    Latched(st) && InboundReported(st) && ClosesLast(st)
  }

  lemma StreamOkStep(st: Stream, a: Action)
    requires StreamOk(st)
    ensures StreamOk(StreamingPull.Step(st, a))
  {
    LatchedStep(st, a);
    InboundReportedStep(st, a);
    ClosesLastStep(st, a);
  }

  ghost predicate StreamsOk(sys: System) {
    forall id :: id in sys.streams ==> StreamOk(sys.streams[id])
  }

  lemma StartOk(peer: Peer)
    ensures StreamOk(Start(peer))
  {
  }

  lemma StreamsOkStep(sys: System, event: Event)
    requires StreamsOk(sys)
    ensures StreamsOk(Step(sys, event))
  {
    StreamsIgnoreSink(sys, event);
    if event.Act? && event.id in sys.streams {
      StreamOkStep(sys.streams[event.id], event.action);
    } else if event.Connect? {
      StartOk(event.peer);
    }
  }

  // ---- Accounting for live consumers ----

  function LiveCounts(subs: map<string, Subscription>): map<string, int> {
    map name | name in subs :: subs[name].liveConsumers
  }

  /** Number of currently open streaming consumer connections. */
  ghost function ConnectedConsumers(s: Snapshot): int {
    Sum(LiveCounts(s.subscriptions))
  }

  ghost function Live(s: Snapshot, which: Option<string>): int {
    if which.Some? then LiveOn(s, which.value) else ConnectedConsumers(s)
  }

  lemma SubscriptionChange(subs: map<string, Subscription>, name: string, sub: Subscription)
    ensures Sum(LiveCounts(subs[name := sub]))
      == Sum(LiveCounts(subs)) + sub.liveConsumers - SubscriptionOr(subs, name).liveConsumers
  {
    SumUpdate(LiveCounts(subs), name, sub.liveConsumers);
    assert LiveCounts(subs[name := sub]) == LiveCounts(subs)[name := sub.liveConsumers];
  }

  lemma {:induction false} ListingKeepsLive(subs: map<string, Subscription>, infos: seq<SubscriptionInfo>)
    ensures Sum(LiveCounts(ListedSubscriptions(subs, infos))) == Sum(LiveCounts(subs))
    decreases |infos|
  {
    if infos == [] {
      assert LiveCounts(ListedSubscriptions(subs, infos)) == LiveCounts(subs);
    } else {
      var rest, last := infos[..|infos| - 1], infos[|infos| - 1];
      var before := ListedSubscriptions(subs, rest);
      ListingKeepsLive(subs, rest);
      ListOneSubscription(subs, rest, last);
      assert infos == rest + [last];
      SubscriptionChange(before, last.name, SubscriptionOr(before, last.name).(present := true, topic := Some(last.topic)));
    }
  }

  /** Folding in one observation changes the live consumers by what it says, unless it
      is a close that finds nobody. */
  lemma LiveApplied(s: Snapshot, o: Observation, now: Instant, which: Option<string>)
    ensures Live(Applied(s, o, now), which) == Live(s, which) + Delta(o, which)
      + if o.ConsumerClose? && Matches(o.subscription, which) && LiveOn(s, o.subscription) == 0 then 1 else 0
  {
    match o
    case AdminSnapshot(_, infos) => ListingKeepsLive(s.subscriptions, infos);
    case Publish(_, _, _) =>
    case _ => SubscriptionChange(s.subscriptions, o.subscription, SubscriptionOr(Applied(s, o, now).subscriptions, o.subscription));
  }

  /** In every history the live consumers shown are the opens less the closes folded
      in, plus the closes that found nobody. */
  lemma {:induction false} LiveIndexesLog(capacity: nat, ops: seq<OwnerOp>, which: Option<string>)
    ensures Live(Replay(capacity, ops), which) == Net(Observed(ops), which) + Saturated(Observed(ops), which)
    decreases |ops|
  {
    if ops == [] {
      assert LiveCounts(map[]) == map[];
    } else {
      var before, last := ops[..|ops| - 1], ops[|ops| - 1];
      assert ops == before + [last];
      ReplayOneMore(capacity, before, last);
      ObservedOneMore(before, last);
      LiveIndexesLog(capacity, before, which);
      if last.Fold? {
        LiveApplied(Replay(capacity, before), last.o, last.now, which);
        NetOneMore(Observed(before), last.o, which);
        CountsOneMore(Observed(before), last.o, which);
        if last.o.ConsumerClose? {
          LiveIndexesLog(capacity, before, Some(last.o.subscription));
          LeftIsNetPlusSaturated(Observed(before), last.o.subscription);
        }
      }
    }
  }

  function StreamNets(streams: map<nat, Stream>, which: Option<string>): map<nat, int> {
    map id | id in streams :: Net(streams[id].events, which)
  }

  /** What the streams reported, no more and no less, was offered; and what was offered
      was folded in, is queued or was lost. */
  ghost predicate Booked(sys: System, which: Option<string>) {
    && Net(sys.offered, which) == Sum(StreamNets(sys.streams, which))
    && Net(sys.offered, which) == Net(Observed(sys.ops), which) + Net(sys.queue, which) + Net(sys.lost, which)
  }

  lemma StreamChange(streams: map<nat, Stream>, id: nat, st: Stream, which: Option<string>)
    ensures Sum(StreamNets(streams[id := st], which)) == Sum(StreamNets(streams, which))
      + Net(st.events, which) - (if id in streams then Net(streams[id].events, which) else 0)
  {
    SumUpdate(StreamNets(streams, which), id, Net(st.events, which));
    assert StreamNets(streams[id := st], which) == StreamNets(streams, which)[id := Net(st.events, which)];
  }

  lemma OfferBooked(sys: System, o: Observation, which: Option<string>)
    requires Net(sys.offered, which) == Net(Observed(sys.ops), which) + Net(sys.queue, which) + Net(sys.lost, which)
    ensures var after := Offer(sys, o);
      && Net(after.offered, which) == Net(Observed(after.ops), which) + Net(after.queue, which) + Net(after.lost, which)
      && Net(after.offered, which) == Net(sys.offered, which) + Delta(o, which)
  {
    NetOneMore(sys.offered, o, which);
    NetOneMore(sys.queue, o, which);
    NetOneMore(sys.lost, o, which);
  }

  /** A stream with more events adds just those to what the streams reported. */
  lemma EventsAdd(streams: map<nat, Stream>, id: nat, after: Stream, emitted: seq<Observation>, which: Option<string>)
    requires id in streams && after.events == streams[id].events + emitted
    ensures Sum(StreamNets(streams[id := after], which)) == Sum(StreamNets(streams, which)) + Net(emitted, which)
  {
    StreamChange(streams, id, after, which);
    NetSplit(streams[id].events, emitted, which);
  }

  lemma MovedSilently(sys: System, id: nat, after: Stream, which: Option<string>)
    requires id in sys.streams && Booked(sys, which)
    requires after.events == sys.streams[id].events + []
    ensures Booked(sys.(streams := sys.streams[id := after]), which)
  {
    EventsAdd(sys.streams, id, after, [], which);
  }

  lemma MovedSaying(sys: System, id: nat, after: Stream, o: Observation, which: Option<string>)
    requires id in sys.streams && Booked(sys, which)
    requires after.events == sys.streams[id].events + [o]
    ensures Booked(Offer(sys.(streams := sys.streams[id := after]), o), which)
  {
    EventsAdd(sys.streams, id, after, [o], which);
    NetOneMore([], o, which);
    assert [] + [o] == [o];
    OfferBooked(sys.(streams := sys.streams[id := after]), o, which);
  }

  lemma ActBooked(sys: System, id: nat, a: Action, which: Option<string>)
    requires id in sys.streams && Booked(sys, which)
    ensures Booked(Acted(sys, id, a), which)
  {
    var after, emitted := StreamingPull.Step(sys.streams[id], a), EmittedBy(sys.streams[id], a);
    EventsGrow(sys.streams[id], a);
    if emitted == [] {
      MovedSilently(sys, id, after, which);
    } else {
      assert emitted == [emitted[0]];
      MovedSaying(sys, id, after, emitted[0], which);
    }
  }

  lemma FoldBooked(sys: System, now: Instant, which: Option<string>)
    requires sys.queue != [] && Booked(sys, which)
    ensures Booked(Folded(sys, now), which)
  {
    ObservedOneMore(sys.ops, Fold(sys.queue[0], now));
    NetOneMore(Observed(sys.ops), sys.queue[0], which);
    assert sys.queue == [sys.queue[0]] + sys.queue[1..];
    NetSplit([sys.queue[0]], sys.queue[1..], which);
    NetOneMore([], sys.queue[0], which);
    assert [] + [sys.queue[0]] == [sys.queue[0]];
  }

  lemma ConnectBooked(sys: System, id: nat, peer: Peer, which: Option<string>)
    requires id !in sys.streams && Booked(sys, which)
    ensures Booked(sys.(streams := sys.streams[id := Start(peer)]), which)
  {
    StreamChange(sys.streams, id, Start(peer), which);
  }

  lemma TapBooked(sys: System, o: Observation, which: Option<string>)
    requires Booked(sys, which) && !o.ConsumerOpen? && !o.ConsumerClose?
    ensures Booked(Offer(sys, o), which)
  {
    OfferBooked(sys, o, which);
  }

  lemma TrimBooked(sys: System, which: Option<string>)
    requires Booked(sys, which)
    ensures Booked(sys.(ops := sys.ops + [Trim]), which)
  {
    ObservedOneMore(sys.ops, Trim);
  }

  lemma BookedStep(sys: System, event: Event, which: Option<string>)
    requires Booked(sys, which)
    ensures Booked(Step(sys, event), which)
  {
    match event
    case Connect(id, peer) => if id !in sys.streams { ConnectBooked(sys, id, peer, which); }
    case Act(id, a) => if id in sys.streams { ActBooked(sys, id, a, which); }
    case Tap(o) => if !o.ConsumerOpen? && !o.ConsumerClose? { TapBooked(sys, o, which); }
    case OwnerFolds(now) => if sys.receiving && sys.queue != [] { FoldBooked(sys, now, which); }
    case OwnerPublishes => TrimBooked(sys, which);
    case OwnerStops =>
  }

  lemma {:induction false} BookedAlways(capacity: nat, recentBuffer: nat, run: seq<Event>, which: Option<string>)
    ensures Booked(Exec(Init(capacity, recentBuffer), run), which)
    decreases |run|
  {
    if run == [] {
      assert StreamNets(map[], which) == map[];
    } else {
      BookedAlways(capacity, recentBuffer, run[..|run| - 1], which);
      BookedStep(Exec(Init(capacity, recentBuffer), run[..|run| - 1]), run[|run| - 1], which);
    }
  }

  /** The ledger of every run, drops and all: live consumers, plus opens less closes
      still queued, plus those lost, are the opens less the closes that the streams
      have reported, plus the closes folded in that found nobody. */
  lemma Ledger(capacity: nat, recentBuffer: nat, run: seq<Event>, which: Option<string>)
    ensures var sys := Exec(Init(capacity, recentBuffer), run);
      Live(StateOf(sys), which) + Net(sys.queue, which) + Net(sys.lost, which)
        == Sum(StreamNets(sys.streams, which)) + Saturated(Observed(sys.ops), which)
  {
    var sys := Exec(Init(capacity, recentBuffer), run);
    BookedAlways(capacity, recentBuffer, run, which);
    LiveIndexesLog(sys.recentBuffer, sys.ops, which);
  }

  // ---- Streams that keep to one name ----

  /** The stream has reported an open of `which` subscription and no close yet. */
  predicate OpenOn(st: Stream, which: Option<string>) {
    !st.phase.Closed? && OpensIn(st.events) != [] && (which.None? || OpensIn(st.events)[0] == which.value)
  }

  /** By the time it closes, the last subscription a client named is the first. */
  predicate KeepsName(st: Stream) {
    st.phase.Closed? && FirstNamed(st.up.read).Some? ==> FirstNamed(st.up.read).value == LastNamed(st.up.read)
  }

  lemma {:induction false} NetOfOpens(events: seq<Observation>, which: Option<string>)
    requires NoClose(events) && |OpensIn(events)| <= 1
    ensures Net(events, which) ==
      if OpensIn(events) != [] && (which.None? || OpensIn(events)[0] == which.value) then 1 else 0
  {
    if events != [] {
      NetOfOpens(events[..|events| - 1], which);
      assert events == events[..|events| - 1] + [events[|events| - 1]];
    }
  }

  lemma {:induction false} OpensInConcat(first: seq<Observation>, second: seq<Observation>)
    ensures OpensIn(first + second) == OpensIn(first) + OpensIn(second)
    decreases |second|
  {
    if second == [] {
      assert first + second == first;
    } else {
      assert (first + second)[..|first + second| - 1] == first + second[..|second| - 1];
      OpensInConcat(first, second[..|second| - 1]);
    }
  }

  /** A stream opens at most once, and only what it named first. */
  lemma OpensOnce(st: Stream)
    requires StreamOk(st)
    ensures |OpensIn(st.events)| <= 1
    ensures OpensIn(st.events) != [] ==> FirstNamed(st.up.read) == Some(OpensIn(st.events)[0])
    ensures st.phase.Closed? && st.announced ==> OpensIn(st.events) != []
  {
    CountFiltered(st.events);
    CountTrace(st.up.read, st.peer);
    OpensInConcat(OpensAndAcks(st.events), PendingInbound(st));
    assert OpensIn([]) == [];
    var opens := OpensIn(st.events);
    assert opens != [] ==> (opens + OpensIn(PendingInbound(st)))[0] == opens[0];
  }

  /** A stream that has closed and named `which` subscription first. */
  predicate ClosedFrom(st: Stream, which: Option<string>) {
    st.phase.Closed? && st.announced && FirstNamed(st.up.read).Some? && Matches(FirstNamed(st.up.read).value, which)
  }

  /** A stream that has closed and named `which` subscription last. */
  predicate ClosedTo(st: Stream, which: Option<string>) {
    st.phase.Closed? && st.announced && Matches(LastNamed(st.up.read), which)
  }

  /** What one stream adds to the ledger of a subscription. */
  lemma NetOfStream(st: Stream, which: Option<string>)
    requires StreamOk(st)
    ensures Net(st.events, which) == (if OpenOn(st, which) then 1 else 0)
      + (if ClosedFrom(st, which) then 1 else 0) - (if ClosedTo(st, which) then 1 else 0)
  {
    OpensOnce(st);
    if st.phase.Closed? && st.announced {
      var before := st.events[..|st.events| - 1];
      assert st.events == before + [ConsumerClose(st.latch, st.peer)];
      CountOneMore(before, ConsumerClose(st.latch, st.peer));
      NetOfOpens(before, which);
      NetOneMore(before, ConsumerClose(st.latch, st.peer), which);
    } else {
      NetOfOpens(st.events, which);
    }
  }

  function OpenStreams(sys: System, which: Option<string>): set<nat> {
    set id | id in sys.streams && OpenOn(sys.streams[id], which)
  }

  /** Every stream that has closed has kept to one name. */
  ghost predicate OneNameEach(sys: System) {
    forall id :: id in sys.streams ==> KeepsName(sys.streams[id])
  }

  function ClosedFromStreams(sys: System, which: Option<string>): set<nat> {
    set id | id in sys.streams && ClosedFrom(sys.streams[id], which)
  }

  function ClosedToStreams(sys: System, which: Option<string>): set<nat> {
    set id | id in sys.streams && ClosedTo(sys.streams[id], which)
  }

  lemma NetsCountStreams(sys: System, which: Option<string>)
    requires StreamsOk(sys)
    ensures Sum(StreamNets(sys.streams, which))
      == |OpenStreams(sys, which)| + |ClosedFromStreams(sys, which)| - |ClosedToStreams(sys, which)|
  {
    forall id | id in sys.streams
      ensures StreamNets(sys.streams, which)[id] == (if id in OpenStreams(sys, which) then 1 else 0)
        + (if id in ClosedFromStreams(sys, which) then 1 else 0) - (if id in ClosedToStreams(sys, which) then 1 else 0)
    {
      NetOfStream(sys.streams[id], which);
    }
    SumCounts(StreamNets(sys.streams, which), OpenStreams(sys, which),
              ClosedFromStreams(sys, which), ClosedToStreams(sys, which));
  }

  lemma NetsCountOpenStreams(sys: System, which: Option<string>)
    requires StreamsOk(sys) && OneNameEach(sys)
    ensures Sum(StreamNets(sys.streams, which)) == |OpenStreams(sys, which)|
    ensures ClosedFromStreams(sys, which) == ClosedToStreams(sys, which)
  {
    NetsCountStreams(sys, which);
    forall id | id in sys.streams
      ensures ClosedFrom(sys.streams[id], which) <==> ClosedTo(sys.streams[id], which)
    {
      assert KeepsName(sys.streams[id]) && StreamOk(sys.streams[id]);
    }
    assert ClosedFromStreams(sys, which) == ClosedToStreams(sys, which);
  }

  lemma {:induction false} StreamsOkAlways(capacity: nat, recentBuffer: nat, run: seq<Event>)
    ensures StreamsOk(Exec(Init(capacity, recentBuffer), run))
    decreases |run|
  {
    if run != [] {
      StreamsOkAlways(capacity, recentBuffer, run[..|run| - 1]);
      StreamsOkStep(Exec(Init(capacity, recentBuffer), run[..|run| - 1]), run[|run| - 1]);
    }
  }

  /** In every run, with no assumption at all: the live consumers shown for a
      subscription (or in total), plus queued opens less queued closes, are the
      streams now open on it exactly when the closed streams that named it first, plus
      the closes that found nobody, balance the closed streams that named it last plus
      the opens less the closes that were lost. */
  lemma LiveConsumersExactly(capacity: nat, recentBuffer: nat, run: seq<Event>, which: Option<string>)
    ensures var sys := Exec(Init(capacity, recentBuffer), run);
      (Live(StateOf(sys), which) + Net(sys.queue, which) == |OpenStreams(sys, which)|)
      <==> (|ClosedFromStreams(sys, which)| + Saturated(Observed(sys.ops), which)
            == |ClosedToStreams(sys, which)| + Net(sys.lost, which))
  {
    Ledger(capacity, recentBuffer, run, which);
    StreamsOkAlways(capacity, recentBuffer, run);
    NetsCountStreams(Exec(Init(capacity, recentBuffer), run), which);
  }

  // ---- What was offered, kept and lost ----

  /** `whole` is `kept` and `lost` merged, each in its own order. */
  ghost predicate Merge(kept: seq<Observation>, lost: seq<Observation>, whole: seq<Observation>)
    decreases |whole|
  {
    if whole == [] then kept == [] && lost == []
    else
      var before, last := whole[..|whole| - 1], whole[|whole| - 1];
      || (kept != [] && kept[|kept| - 1] == last && Merge(kept[..|kept| - 1], lost, before))
      || (lost != [] && lost[|lost| - 1] == last && Merge(kept, lost[..|lost| - 1], before))
  }

  lemma MergeMore(kept: seq<Observation>, lost: seq<Observation>, whole: seq<Observation>, o: Observation)
    requires Merge(kept, lost, whole)
    ensures Merge(kept + [o], lost, whole + [o]) && Merge(kept, lost + [o], whole + [o])
  {
    assert (whole + [o])[..|whole|] == whole;
    assert (kept + [o])[..|kept|] == kept && (lost + [o])[..|lost|] == lost;
  }

  lemma {:induction false} MergeAlone(kept: seq<Observation>, whole: seq<Observation>)
    requires Merge(kept, [], whole)
    ensures kept == whole
    decreases |whole|
  {
    if whole != [] {
      MergeAlone(kept[..|kept| - 1], whole[..|whole| - 1]);
      assert kept == kept[..|kept| - 1] + [kept[|kept| - 1]];
    }
  }

  /** What was folded in, followed by what is queued, merged with what was lost, is
      everything that was offered. */
  ghost predicate Accounted(sys: System) {
    Merge(Observed(sys.ops) + sys.queue, sys.lost, sys.offered)
  }

  lemma OfferAccounted(sys: System, o: Observation)
    requires Accounted(sys)
    ensures Accounted(Offer(sys, o))
  {
    var kept := Observed(sys.ops) + sys.queue;
    MergeMore(kept, sys.lost, sys.offered, o);
    assert Observed(sys.ops) + (sys.queue + [o]) == kept + [o];
  }

  lemma FrontMoves(taken: seq<Observation>, queue: seq<Observation>)
    requires queue != []
    ensures taken + [queue[0]] + queue[1..] == taken + queue
  {
  }

  lemma FoldAccounted(sys: System, now: Instant)
    requires Accounted(sys) && sys.queue != []
    ensures Accounted(Folded(sys, now))
  {
    ObservedOneMore(sys.ops, Fold(sys.queue[0], now));
    FrontMoves(Observed(sys.ops), sys.queue);
  }

  lemma TrimAccounted(sys: System)
    requires Accounted(sys)
    ensures Accounted(sys.(ops := sys.ops + [Trim]))
  {
    ObservedOneMore(sys.ops, Trim);
  }

  lemma AccountedStep(sys: System, event: Event)
    requires Accounted(sys)
    ensures Accounted(Step(sys, event))
  {
    match event
    case Connect(_, _) =>
    case Act(id, a) =>
      if id in sys.streams {
        var moved := sys.(streams := sys.streams[id := StreamingPull.Step(sys.streams[id], a)]);
        if EmittedBy(sys.streams[id], a) != [] { OfferAccounted(moved, EmittedBy(sys.streams[id], a)[0]); }
      }
    case Tap(o) => if !o.ConsumerOpen? && !o.ConsumerClose? { OfferAccounted(sys, o); }
    case OwnerFolds(now) => if sys.receiving && sys.queue != [] { FoldAccounted(sys, now); }
    case OwnerPublishes => if sys.receiving { TrimAccounted(sys); }
    case OwnerStops =>
  }

  /** In every run, drops and all, what was offered is what was folded in and is still
      queued, in order, merged with what was lost, in order. */
  lemma {:induction false} OfferedIsKeptAndLost(capacity: nat, recentBuffer: nat, run: seq<Event>)
    ensures var sys := Exec(Init(capacity, recentBuffer), run);
      && Merge(Observed(sys.ops) + sys.queue, sys.lost, sys.offered)
      && sys.recentBuffer == recentBuffer
    decreases |run|
  {
    if run == [] {
      assert Observed([]) + [] == [];
    } else {
      OfferedIsKeptAndLost(capacity, recentBuffer, run[..|run| - 1]);
      AccountedStep(Exec(Init(capacity, recentBuffer), run[..|run| - 1]), run[|run| - 1]);
    }
  }

  /** As long as nothing is dropped, what was folded in and what is still queued
      are together everything that was offered, in order. */
  lemma NothingLost(capacity: nat, recentBuffer: nat, run: seq<Event>)
    requires Exec(Init(capacity, recentBuffer), run).lost == []
    ensures var sys := Exec(Init(capacity, recentBuffer), run); Observed(sys.ops) + sys.queue == sys.offered
  {
    var sys := Exec(Init(capacity, recentBuffer), run);
    OfferedIsKeptAndLost(capacity, recentBuffer, run);
    MergeAlone(Observed(sys.ops) + sys.queue, sys.offered);
  }

  // ---- Orderly runs ----

  /** However little of what was offered one looks at, closes never outnumber opens. */
  ghost predicate NeverInDebt(offered: seq<Observation>) {
    forall name: string, k :: 0 <= k <= |offered| ==> Net(offered[..k], Some(name)) >= 0
  }

  lemma OfferedGrows(sys: System, event: Event)
    ensures var after := Step(sys, event).offered;
      after == sys.offered || (|after| == |sys.offered| + 1 && after[..|sys.offered|] == sys.offered)
  {
  }

  lemma NeverInDebtOneMore(before: seq<Observation>, after: seq<Observation>)
    requires NeverInDebt(before)
    requires after == before || (|after| == |before| + 1 && after[..|before|] == before)
    requires forall name: string :: Net(after, Some(name)) >= 0
    ensures NeverInDebt(after)
  {
    forall name: string, k | 0 <= k <= |after| ensures Net(after[..k], Some(name)) >= 0 {
      if k <= |before| {
        assert after[..k] == before[..k];
      } else {
        assert after[..k] == after;
      }
    }
  }

  lemma ClosedStaysClosed(st: Stream, a: Action)
    ensures st.phase.Closed? ==>
      var after := StreamingPull.Step(st, a); after.phase.Closed? && after.up.read == st.up.read
  {
  }

  lemma OneNameBefore(sys: System, event: Event)
    requires OneNameEach(Step(sys, event))
    ensures OneNameEach(sys)
  {
    StreamsIgnoreSink(sys, event);
    forall id | id in sys.streams ensures KeepsName(sys.streams[id]) {
      if event.Act? && event.id == id { ClosedStaysClosed(sys.streams[id], event.action); }
      assert KeepsName(Step(sys, event).streams[id]);
    }
  }

  lemma {:induction false} OneNameNeverInDebt(capacity: nat, recentBuffer: nat, run: seq<Event>)
    requires OneNameEach(Exec(Init(capacity, recentBuffer), run))
    ensures NeverInDebt(Exec(Init(capacity, recentBuffer), run).offered)
    decreases |run|
  {
    if run != [] {
      var before, sys := Exec(Init(capacity, recentBuffer), run[..|run| - 1]), Exec(Init(capacity, recentBuffer), run);
      OneNameBefore(before, run[|run| - 1]);
      OneNameNeverInDebt(capacity, recentBuffer, run[..|run| - 1]);
      OfferedGrows(before, run[|run| - 1]);
      StreamsOkAlways(capacity, recentBuffer, run);
      forall name: string ensures Net(sys.offered, Some(name)) >= 0 {
        BookedAlways(capacity, recentBuffer, run, Some(name));
        NetsCountOpenStreams(sys, Some(name));
      }
      NeverInDebtOneMore(before.offered, sys.offered);
    }
  }

  lemma PrefixNeverSaturates(observed: seq<Observation>, queue: seq<Observation>)
    requires NeverInDebt(observed + queue)
    ensures forall which :: Saturated(observed, which) == 0
  {
    forall name: string ensures Saturated(observed, Some(name)) == 0 {
      SaturatedIsDeepestDebt(observed, name);
      var k :| 0 <= k <= |observed| && Net(observed[..k], Some(name)) + Saturated(observed, Some(name)) == 0;
      assert (observed + queue)[..k] == observed[..k];
      assert Net((observed + queue)[..k], Some(name)) >= 0;
    }
    NoneSaturated(observed);
    forall which ensures Saturated(observed, which) == 0 {
      if which.Some? { assert Saturated(observed, Some(which.value)) == 0; }
    }
  }

  /** For any number of streams, any interleaving and any drain, if nothing was
      dropped and each stream kept to one name: the live consumers of every
      subscription (and in total), plus queued opens, minus queued closes, are
      exactly the streams now open on it, and no close found nobody to take off. */
  lemma LiveConsumersAreOpenStreams(capacity: nat, recentBuffer: nat, run: seq<Event>, which: Option<string>)
    requires var sys := Exec(Init(capacity, recentBuffer), run); sys.lost == [] && OneNameEach(sys)
    ensures var sys := Exec(Init(capacity, recentBuffer), run);
      && Saturated(Observed(sys.ops), which) == 0
      && Live(StateOf(sys), which) + Net(sys.queue, which) == |OpenStreams(sys, which)|
  {
    var sys := Exec(Init(capacity, recentBuffer), run);
    NothingLost(capacity, recentBuffer, run);
    OneNameNeverInDebt(capacity, recentBuffer, run);
    PrefixNeverSaturates(Observed(sys.ops), sys.queue);
    StreamsOkAlways(capacity, recentBuffer, run);
    NetsCountOpenStreams(sys, which);
    LiveConsumersExactly(capacity, recentBuffer, run, which);
  }

  const BUSY := Tap(Ack("other", None, 1))

  /** Enough other observations to occupy `n` slots of the channel. */
  function Fill(n: nat): seq<Event> {
    seq(n, _ => BUSY)
  }

  lemma {:induction false} Filled(capacity: nat, n: nat)
    requires n <= capacity
    ensures var sys := Exec(Init(capacity, 1), Fill(n));
      && sys == Init(capacity, 1).(queue := sys.queue, offered := sys.offered)
      && |sys.queue| == n && Net(sys.queue, Some("s")) == 0
  {
    if n > 0 {
      Filled(capacity, n - 1);
      assert Fill(n) == Fill(n - 1) + [BUSY];
      ExecOneMore(Init(capacity, 1), Fill(n - 1), BUSY);
      NetOneMore(Exec(Init(capacity, 1), Fill(n - 1)).queue, BUSY.o, Some("s"));
    }
  }

  /** A stream whose first frame names "s" has, two actions on, reported an open of it. */
  lemma OpenEmitted(request: Request, peer: Peer) returns (first: Stream, second: Stream)
    requires request == Request("s", [], "")
    ensures first == StreamingPull.Step(Start(peer), InboundPump(ClientSends(request)))
    ensures second == StreamingPull.Step(first, InboundPump(EmitOpen))
    ensures EmittedBy(Start(peer), InboundPump(ClientSends(request))) == []
    ensures EmittedBy(first, InboundPump(EmitOpen)) == [ConsumerOpen("s", peer)]
    ensures OpenOn(second, Some("s"))
  {
    first := StreamingPull.Step(Start(peer), InboundPump(ClientSends(request)));
    second := StreamingPull.Step(first, InboundPump(EmitOpen));
    CountOneMore([], ConsumerOpen("s", peer));
    assert [] + [ConsumerOpen("s", peer)] == [ConsumerOpen("s", peer)];
  }

  lemma ActMoves(sys: System, id: nat, a: Action, after: Stream, emitted: seq<Observation>)
    requires id in sys.streams
    requires after == StreamingPull.Step(sys.streams[id], a) && emitted == EmittedBy(sys.streams[id], a)
    ensures Step(sys, Act(id, a)) == Moved(sys, id, after, emitted)
  {
  }

  lemma OpenDropped(sys: System)
    requires sys.streams == map[] && sys.lost == [] && |sys.queue| == sys.capacity
    ensures var request := Request("s", [], "");
      var one := Step(sys, Connect(0, None));
      var two := Step(one, Act(0, InboundPump(ClientSends(request))));
      var three := Step(two, Act(0, InboundPump(EmitOpen)));
      && three.lost == [ConsumerOpen("s", None)] && three.queue == sys.queue && StateOf(three) == StateOf(sys)
      && OpenStreams(three, Some("s")) == {0}
  {
    var request := Request("s", [], "");
    var first, second := OpenEmitted(request, None);
    var one := Step(sys, Connect(0, None));
    ActMoves(one, 0, InboundPump(ClientSends(request)), first, []);
    var two := Moved(one, 0, first, []);
    ActMoves(two, 0, InboundPump(EmitOpen), second, [ConsumerOpen("s", None)]);
    var three := Moved(two, 0, second, [ConsumerOpen("s", None)]);
    assert three.streams == map[0 := second];
  }

  /** However large the channel, one open dropped because it is full leaves an open
      stream uncounted. */
  lemma DropMiscounts(capacity: nat)
    ensures var run := Fill(capacity)
        + [Connect(0, None)] + [Act(0, InboundPump(ClientSends(Request("s", [], ""))))] + [Act(0, InboundPump(EmitOpen))];
      var sys := Exec(Init(capacity, 1), run);
      && sys.lost == [ConsumerOpen("s", None)]
      && Live(StateOf(sys), Some("s")) + Net(sys.queue, Some("s")) == 0
      && |OpenStreams(sys, Some("s"))| == 1
  {
    var full, sends := Fill(capacity), Act(0, InboundPump(ClientSends(Request("s", [], ""))));
    Filled(capacity, capacity);
    ExecOneMore(Init(capacity, 1), full, Connect(0, None));
    ExecOneMore(Init(capacity, 1), full + [Connect(0, None)], sends);
    ExecOneMore(Init(capacity, 1), full + [Connect(0, None)] + [sends], Act(0, InboundPump(EmitOpen)));
    OpenDropped(Exec(Init(capacity, 1), full));
  }

  /** In every run a published state is, clock readings aside, a function of the
      observations kept so far and of nothing else: not of how the streams interleaved
      with the owner, nor of how the queue was drained. Those kept, the queue and those
      lost merge to all that was offered; with none queued or lost, they are all. */
  lemma SettledStateIsCanonical(capacity: nat, recentBuffer: nat, run: seq<Event>)
    requires var sys := Exec(Init(capacity, recentBuffer), run); sys.ops != [] && sys.ops[|sys.ops| - 1].Trim?
    ensures var sys := Exec(Init(capacity, recentBuffer), run);
      && Timeless(StateOf(sys)) == Canonical(recentBuffer, Observed(sys.ops))
      && Merge(Observed(sys.ops) + sys.queue, sys.lost, sys.offered)
      && (sys.queue == [] && sys.lost == [] ==> Timeless(StateOf(sys)) == Canonical(recentBuffer, sys.offered))
  {
    var sys := Exec(Init(capacity, recentBuffer), run);
    OfferedIsKeptAndLost(capacity, recentBuffer, run);
    BurstIndependence(recentBuffer, sys.ops);
    if sys.queue == [] && sys.lost == [] {
      MergeAlone(Observed(sys.ops) + [], sys.offered);
      assert Observed(sys.ops) + [] == Observed(sys.ops);
    }
  }
}
