/** The two pumps of a proxied `StreamingPull` as the source writes them: loops over
    frames sharing a subscription latch, an opened flag and the sink. How they
    interleave is the business of the step system in `StreamingPull`. */
module Pumps {
  import opened Basics
  import opened Events
  import opened StreamingPull

  /** The frames a pump reads before its source fails or ends. */
  function OkPrefix<T>(frames: seq<Result<T, string>>): seq<T> {
    if frames == [] || frames[0].Err? then [] else [frames[0].value] + OkPrefix(frames[1..])
  }

  /** The frames of an upstream stream, up to and including its first error. */
  function UpToError(frames: seq<Reply>): seq<Reply> {
    if frames == [] then [] else if frames[0].Err? then [frames[0]] else [frames[0]] + UpToError(frames[1..])
  }

  function Produced(connected: Result<(), string>, frames: seq<Reply>): seq<Reply> {
    if connected.Err? then [Err(connected.error)] else UpToError(frames)
  }

  /** The deliveries of the frames read, each on the subscription latched by then. */
  function Delivered(read: seq<Reply>, latched: seq<string>, peer: Peer): seq<Observation>
    requires |read| <= |latched|
  {
    if read == [] then []
    else
      var n := |read| - 1;
      Delivered(read[..n], latched, peer) + if read[n].Ok? then DeliverOf(read[n].value, latched[n], peer) else []
  }

  lemma DeliveredOneMore(read: seq<Reply>, frame: Reply, latched: seq<string>, peer: Peer)
    requires |read| < |latched|
    ensures Delivered(read + [frame], latched, peer)
      == Delivered(read, latched, peer) + if frame.Ok? then DeliverOf(frame.value, latched[|read|], peer) else []
  {
    assert (read + [frame])[..|read|] == read;
  }

  lemma ReportedOneMore(before: seq<Observation>, read: seq<Reply>, frame: Reply, latched: seq<string>, peer: Peer)
    requires |read| < |latched|
    ensures before + Delivered(read, latched, peer) + (if frame.Ok? then DeliverOf(frame.value, latched[|read|], peer) else [])
      == before + Delivered(read + [frame], latched, peer)
  {
    DeliveredOneMore(read, frame, latched, peer);
  }

  lemma Peel<T>(read: seq<T>, x: T, tail: seq<T>)
    ensures var all := read + ([x] + tail);
      all[..|read|] == read && |all| > |read| && all[..|read| + 1] == read + [x] && all == read + [x] + tail
  {
  }

  /** The request after those already read, and how they make up the whole. */
  lemma RequestOn(read: seq<Request>, rest: seq<Result<Request, string>>)
    requires rest != [] && rest[0].Ok?
    ensures var all := read + OkPrefix(rest);
      && all[..|read|] == read && |all| > |read| && all[..|read| + 1] == read + [rest[0].value]
      && all == read + [rest[0].value] + OkPrefix(rest[1..])
  {
    Peel(read, rest[0].value, OkPrefix(rest[1..]));
  }

  /** The frame after those already read, and how they make up the whole. */
  lemma ReadOn(read: seq<Reply>, rest: seq<Reply>)
    requires rest != []
    ensures var all := read + UpToError(rest);
      && all[..|read|] == read && |all| > |read| && all[..|read| + 1] == read + [rest[0]]
      && all == read + [rest[0]] + if rest[0].Err? then [] else UpToError(rest[1..])
  {
    var tail := if rest[0].Err? then [] else UpToError(rest[1..]);
    Peel(read, rest[0], tail);
    assert UpToError(rest) == [rest[0]] + tail;
  }

  /** Where the client-to-server pump ends: what it forwarded, what it reported, and
      the latch and flag it leaves. */
  ghost predicate InboundEnds(frames: seq<Result<Request, string>>, accepted: nat, peer: Peer,
                              forwarded: seq<Request>, events: seq<Observation>, latch: string, announced: bool)
  {
    var all := OkPrefix(frames);
    var read := all[..Min(|all|, accepted + 1)];
    && forwarded == all[..Min(|all|, accepted)]
    && events == InboundTrace(read, peer)
    && latch == LastNamed(read)
    && (announced <==> FirstNamed(read).Some?)
  }

  /** Where the server-to-client pump ends, given what the other one has latched by
      the time each frame is read. */
  ghost predicate OutboundEnds(connected: Result<(), string>, frames: seq<Reply>, latched: seq<string>, accepted: nat,
                               peer: Peer, forwarded: seq<Reply>, reported: seq<Observation>)
    requires |latched| >= |Produced(connected, frames)|
  {
    var produced := Produced(connected, frames);
    && forwarded == produced[..Min(|produced|, accepted)]
    && reported == Delivered(produced[..Min(|produced|, accepted + 1)], latched, peer)
  }

  lemma RefusalEnds(status: string, frames: seq<Reply>, latched: seq<string>, accepted: nat, peer: Peer)
    requires |latched| >= 1
    ensures OutboundEnds(Err(status), frames, latched, accepted, peer, if accepted == 0 then [] else [Err(status)], [])
  {
    var failure: Reply := Err(status);
    DeliveredOneMore([], failure, latched, peer);
    assert [] + [failure] == [failure] && [failure][..1] == [failure];
  }

  class Tap {
    const peer: Peer
    const sink: ObservationSink
    var subscription: string
    var announced: bool
    ghost var events: seq<Observation> // offered to the sink so far

    constructor (peer: Peer, sink: ObservationSink)
      ensures this.peer == peer && this.sink == sink
      ensures subscription == "" && !announced && events == []
    {
      this.peer, this.sink, subscription, announced, events := peer, sink, "", false, [];
    }

    /** The frames `read` are latched and reported, exactly as they should be. */
    ghost predicate Tapped(read: seq<Request>)
      reads this
    {
      && events == InboundTrace(read, peer)
      && subscription == LastNamed(read)
      && (announced <==> FirstNamed(read).Some?)
    }

    /** Since the events were `was` and the sink's channel was `queue`, every further
        event went to the sink, in order, and nothing else did. */
    ghost predicate Reached(was: seq<Observation>, queue: seq<Observation>)
      reads this, sink
    {
      && |events| >= |was| && events[..|was|] == was
      && sink.queue == OfferedAll(queue, sink.capacity, sink.open, events[|was|..])
    }

    lemma ReachedMore(was: seq<Observation>, queue: seq<Observation>, then_: seq<Observation>, thenQueue: seq<Observation>)
      requires |then_| >= |was| && then_[..|was|] == was
      requires thenQueue == OfferedAll(queue, sink.capacity, sink.open, then_[|was|..])
      requires Reached(then_, thenQueue)
      ensures Reached(was, queue)
    {
      var more := events[|then_|..];
      assert events == then_ + more && events[|was|..] == then_[|was|..] + more;
      assert events[..|was|] == events[..|then_|][..|was|];
      OfferedSplit(queue, sink.capacity, sink.open, then_[|was|..], more);
    }

    method Observe(o: Observation)
      modifies this`events, sink`queue
      ensures events == old(events) + [o]
      ensures sink.queue == Offered(old(sink.queue), sink.capacity, sink.open, o)
      ensures Reached(old(events), old(sink.queue))
    {
      sink.Observe(o);
      events := events + [o];
      assert events[|old(events)|..] == [o];
      OfferedOneMore(old(sink.queue), sink.capacity, sink.open, [], o);
      assert [] + [o] == [o];
    }

    /** A frame that names a subscription latches it, and opens it the first time. */
    method Latch(request: Request)
      modifies this`subscription, this`announced, this`events, sink`queue
      ensures subscription == if request.subscription != "" then request.subscription else old(subscription)
      ensures announced <==> old(announced) || request.subscription != ""
      ensures events == old(events)
        + if request.subscription != "" && !old(announced) then [ConsumerOpen(request.subscription, peer)] else []
      ensures Reached(old(events), old(sink.queue))
    {
      assert events[|events|..] == [];
      if request.subscription != "" {
        subscription := request.subscription;
        var was := announced;
        announced := true;
        if !was {
          Observe(ConsumerOpen(request.subscription, peer));
        }
      }
    }

    /** A frame that acknowledges is counted, on what is latched. */
    method CountAcks(request: Request)
      modifies this`events, sink`queue
      ensures events == old(events) + AckOf(request, subscription, peer)
      ensures Reached(old(events), old(sink.queue))
    {
      assert events[|events|..] == [];
      if request.ackIds != [] {
        Observe(Ack(subscription, peer, |request.ackIds|));
      }
    }

    /** What one client frame does before it is forwarded: latch, open once, ack. */
    method TapFrame(request: Request, ghost read: seq<Request>)
      requires Tapped(read)
      modifies this`subscription, this`announced, this`events, sink`queue
      ensures Tapped(read + [request])
      ensures Reached(old(events), old(sink.queue))
    {
      OneMoreFrame(read, request, peer);
      Latch(request);
      ghost var then_, thenQueue := events, sink.queue;
      CountAcks(request);
      ReachedMore(old(events), old(sink.queue), then_, thenQueue);
    }

    /** Client to server, undisturbed by the other pump; `accepted` sends succeed
        before upstream stops receiving. */
    method InboundPump(frames: seq<Result<Request, string>>, accepted: nat) returns (forwarded: seq<Request>)
      requires subscription == "" && !announced && events == []
      modifies this`subscription, this`announced, this`events, sink`queue
      ensures InboundEnds(frames, accepted, peer, forwarded, events, subscription, announced)
      ensures sink.queue == OfferedAll(old(sink.queue), sink.capacity, sink.open, events)
    {
      forwarded := [];
      assert events[0..] == [];
      ghost var read: seq<Request> := [];
      var rest := frames;
      while rest != [] && rest[0].Ok?
        invariant forwarded == read && |forwarded| <= accepted
        invariant read + OkPrefix(rest) == OkPrefix(frames)
        invariant Tapped(read)
        invariant Reached([], old(sink.queue))
        decreases |rest|
      {
        var request := rest[0].value;
        RequestOn(read, rest);
        ghost var then_, thenQueue := events, sink.queue;
        TapFrame(request, read);
        ReachedMore([], old(sink.queue), then_, thenQueue);
        assert events[0..] == events;
        read, rest := read + [request], rest[1..];
        if |forwarded| == accepted {
          return;
        }
        forwarded := forwarded + [request];
      }
      assert read + [] == read && events[0..] == events;
    }

    /** What one upstream frame does before it is forwarded: report its delivery, on
        the subscription latched by now. */
    method TapReply(frame: Reply, latch: string)
      modifies this`events, sink`queue
      ensures events == old(events) + if frame.Ok? then DeliverOf(frame.value, latch, peer) else []
      ensures Reached(old(events), old(sink.queue))
    {
      assert events[|old(events)|..] == [];
      if frame.Ok? && frame.value.receivedMessages != [] {
        Observe(Deliver(latch, peer, |frame.value.receivedMessages|));
      }
    }

    /** Server to client over an accepted connection. The other pump may re-latch at
        any time: `latched` is what the latch holds as each frame is read. */
    method RelayReplies(frames: seq<Reply>, latched: seq<string>, accepted: nat) returns (forwarded: seq<Reply>)
      requires |latched| >= |UpToError(frames)|
      modifies this`events, sink`queue
      ensures var produced := UpToError(frames);
        && forwarded == produced[..Min(|produced|, accepted)]
        && events == old(events) + Delivered(produced[..Min(|produced|, accepted + 1)], latched, peer)
      ensures Reached(old(events), old(sink.queue))
    {
      assert events[|old(events)|..] == [];
      forwarded := [];
      ghost var read: seq<Reply> := [];
      var rest := frames;
      while rest != []
        invariant forwarded == read && |forwarded| <= accepted
        invariant read + UpToError(rest) == UpToError(frames)
        invariant events == old(events) + Delivered(read, latched, peer)
        invariant Reached(old(events), old(sink.queue))
        decreases |rest|
      {
        var frame := rest[0];
        ReadOn(read, rest);
        ReportedOneMore(old(events), read, frame, latched, peer);
        ghost var then_, thenQueue := events, sink.queue;
        TapReply(frame, latched[|forwarded|]);
        ReachedMore(old(events), old(sink.queue), then_, thenQueue);
        read := read + [frame];
        if |forwarded| == accepted {
          assert read == UpToError(frames)[..accepted + 1] && forwarded == UpToError(frames)[..accepted];
          return;
        }
        forwarded := forwarded + [frame];
        if frame.Err? {
          assert read == UpToError(frames);
          return;
        }
        rest := rest[1..];
      }
      assert read == UpToError(frames);
    }

    /** Server to client; a refused connection is relayed as the only frame. */
    method OutboundPump(connected: Result<(), string>, frames: seq<Reply>, latched: seq<string>, accepted: nat)
      returns (forwarded: seq<Reply>, ghost reported: seq<Observation>)
      requires |latched| >= |Produced(connected, frames)|
      modifies this`events, sink`queue
      ensures events == old(events) + reported
      ensures OutboundEnds(connected, frames, latched, accepted, peer, forwarded, reported)
      ensures sink.queue == OfferedAll(old(sink.queue), sink.capacity, sink.open, reported)
    {
      match connected
      case Ok(_) =>
        forwarded := RelayReplies(frames, latched, accepted);
        reported := Delivered(UpToError(frames)[..Min(|UpToError(frames)|, accepted + 1)], latched, peer);
        assert events[|old(events)|..] == reported;
      case Err(status) =>
        RefusalEnds(status, frames, latched, accepted, peer);
        forwarded := if accepted == 0 then [] else [Err(status)];
        reported := [];
    }

    /** Both pumps are gone: announce the close of an announced open. */
    method Close()
      modifies this`events, sink`queue
      ensures events == old(events) + if announced then [ConsumerClose(subscription, peer)] else []
      ensures sink.queue == if announced
        then Offered(old(sink.queue), sink.capacity, sink.open, ConsumerClose(subscription, peer)) else old(sink.queue)
      ensures announced && sink.open && |old(sink.queue)| < sink.capacity ==>
        sink.queue == old(sink.queue) + [ConsumerClose(subscription, peer)]
    {
      if announced {
        Observe(ConsumerClose(subscription, peer));
      }
    }
  }

  // ---- The loops are runs of the step system ----

  const UPSTREAM_TAKES := FarEnd(UpstreamTakes)
  const CLIENT_TAKES := FarEnd(ClientTakes)

  /** Runs in which only the client-to-server pump acts, and upstream. */
  ghost predicate InboundOnly(run: seq<Action>) {
    forall a :: a in run ==> a.InboundPump? || a == UPSTREAM_TAKES || a == FarEnd(UpstreamHangsUp)
  }

  /** Runs in which only the server-to-client pump acts, and the client. */
  ghost predicate OutboundOnly(run: seq<Action>) {
    forall a :: a in run ==> a.OutboundPump? || a == CLIENT_TAKES || a == FarEnd(ClientHangsUp)
  }

  /** One run after another. */
  lemma Chain(st: Stream, first: seq<Action>, after: Stream, rest: seq<Action>, end: Stream)
    requires after == Exec(st, first) && end == Exec(after, rest)
    ensures end == Exec(st, first + rest)
    ensures InboundOnly(first) && InboundOnly(rest) ==> InboundOnly(first + rest)
    ensures OutboundOnly(first) && OutboundOnly(rest) ==> OutboundOnly(first + rest)
  {
    ExecSplit(st, first, rest);
  }

  /** Between frames: everything read is tapped and has been taken by upstream. */
  ghost predicate Idle(st: Stream) {
    && st.phase.Running? && st.inbound.AwaitFrame? && OutboundAwaits(st)
    && st.up.receiving && st.up.channel == [] && st.up.got == st.up.read
    && st.events == InboundTrace(st.up.read, st.peer)
    && st.latch == LastNamed(st.up.read) && (st.announced <==> FirstNamed(st.up.read).Some?)
  }

  lemma ExecOne(st: Stream, a: Action)
    ensures Exec(st, [a]) == Step(st, a)
  {
    ExecFirst(st, [a]);
    assert [a][1..] == [];
  }

  /** One frame taken by upstream. */
  lemma FrameTaken(st: Stream, r: Request) returns (run: seq<Action>, after: Stream)
    requires Idle(st)
    ensures after == Exec(st, run) && InboundOnly(run)
    ensures Idle(after) && after.peer == st.peer
    ensures after.up.read == st.up.read + [r] && after.up.got == st.up.got + [r]
  {
    var sent := Exec(st, OneFrame(r));
    after := Step(sent, UPSTREAM_TAKES);
    run := OneFrame(r) + [UPSTREAM_TAKES];
    FrameGoesThrough(st, r);
    ExecOne(sent, UPSTREAM_TAKES);
    Chain(st, OneFrame(r), sent, [UPSTREAM_TAKES], after);
    OneMoreFrame(st.up.read, r, st.peer);
  }

  /** The pump has ended, with `read` read and `got` taken by upstream. */
  ghost predicate EndedAfter(end: Stream, peer: Peer, read: seq<Request>, got: seq<Request>) {
    && end.phase.Closing? && end.peer == peer && end.up.got == got
    && end.events == InboundTrace(read, peer)
    && end.latch == LastNamed(read) && (end.announced <==> FirstNamed(read).Some?)
  }

  /** One frame refused by upstream. */
  lemma FrameRefused(st: Stream, r: Request) returns (run: seq<Action>, end: Stream)
    requires Idle(st)
    ensures end == Exec(st, run) && InboundOnly(run)
    ensures EndedAfter(end, st.peer, st.up.read + [r], st.up.got)
  {
    var alone := Step(st, FarEnd(UpstreamHangsUp));
    end := Exec(alone, OneFrame(r));
    run := [FarEnd(UpstreamHangsUp)] + OneFrame(r);
    ExecOne(st, FarEnd(UpstreamHangsUp));
    FrameGoesThrough(alone, r);
    Chain(st, [FarEnd(UpstreamHangsUp)], alone, OneFrame(r), end);
    OneMoreFrame(st.up.read, r, st.peer);
  }

  /** The first `n` frames, or all there are. */
  function UpTo<T>(frames: seq<T>, n: nat): seq<T> {
    frames[..Min(|frames|, n)]
  }

  lemma UpToFirst<T>(before: seq<T>, frames: seq<T>, n: nat)
    requires frames != [] && n > 0
    ensures before + [frames[0]] + UpTo(frames[1..], n - 1) == before + UpTo(frames, n)
  {
  }

  /** The client has nothing more to send, or upstream takes no more. */
  lemma InboundLast(st: Stream, frames: seq<Request>, accepted: nat) returns (run: seq<Action>, end: Stream)
    requires Idle(st) && (frames == [] || accepted == 0)
    ensures end == Exec(st, run) && InboundOnly(run)
    ensures EndedAfter(end, st.peer, st.up.read + UpTo(frames, accepted + 1), st.up.got + UpTo(frames, accepted))
  {
    assert st.up.got + [] == st.up.got;
    if frames == [] {
      run, end := [InboundPump(ClientEnds)], Step(st, InboundPump(ClientEnds));
      ExecOne(st, InboundPump(ClientEnds));
      assert st.up.read + [] == st.up.read;
    } else {
      run, end := FrameRefused(st, frames[0]);
      assert frames[..1] == [frames[0]];
    }
  }

  /** Where the pump ends on the further frames is where it ends on all of them. */
  lemma EndedLater(end: Stream, st: Stream, after: Stream, frames: seq<Request>, accepted: nat)
    requires frames != [] && accepted > 0 && after.peer == st.peer
    requires after.up.read == st.up.read + [frames[0]] && after.up.got == st.up.got + [frames[0]]
    requires EndedAfter(end, after.peer, after.up.read + UpTo(frames[1..], accepted), after.up.got + UpTo(frames[1..], accepted - 1))
    ensures EndedAfter(end, st.peer, st.up.read + UpTo(frames, accepted + 1), st.up.got + UpTo(frames, accepted))
  {
    UpToFirst(st.up.read, frames, accepted + 1);
    UpToFirst(st.up.got, frames, accepted);
  }

  lemma {:induction false} InboundAlone(st: Stream, frames: seq<Request>, accepted: nat)
    returns (run: seq<Action>, end: Stream)
    requires Idle(st)
    ensures end == Exec(st, run) && InboundOnly(run)
    ensures EndedAfter(end, st.peer, st.up.read + UpTo(frames, accepted + 1), st.up.got + UpTo(frames, accepted))
    decreases |frames|
  {
    if frames == [] || accepted == 0 {
      run, end := InboundLast(st, frames, accepted);
    } else {
      var first, after := FrameTaken(st, frames[0]);
      var rest;
      rest, end := InboundAlone(after, frames[1..], accepted - 1);
      run := first + rest;
      Chain(st, first, after, rest, end);
      EndedLater(end, st, after, frames, accepted);
    }
  }

  /** The client-to-server loop ends where the step system does in a run in which only
      that pump acts: same frames forwarded, same observations, same latch and flag;
      and finishing the stream from there reports what closing the tap does. */
  lemma InboundPumpIsRun(peer: Peer, frames: seq<Result<Request, string>>, accepted: nat) returns (run: seq<Action>)
    ensures InboundOnly(run)
    ensures var end := Exec(Start(peer), run);
      && InboundEnds(frames, accepted, peer, end.up.got, end.events, end.latch, end.announced)
      && Step(end, Finish).events == end.events + if end.announced then [ConsumerClose(end.latch, peer)] else []
  {
    var all, end := OkPrefix(frames), Start(peer);
    run, end := InboundAlone(Start(peer), all, accepted);
    assert [] + all[..Min(|all|, accepted)] == all[..Min(|all|, accepted)];
    assert [] + all[..Min(|all|, accepted + 1)] == all[..Min(|all|, accepted + 1)];
    EventsGrow(end, Finish);
  }

  /** The pump's actions for one frame. */
  function OneReply(frame: Reply): seq<Action> {
    match frame
    case Ok(response) => [OutboundPump(UpstreamReplies(response)), OutboundPump(EmitDeliver), OutboundPump(ForwardReply)]
    case Err(error) => [OutboundPump(UpstreamFails(error)), OutboundPump(ForwardReply)]
  }

  ghost predicate Listening(st: Stream) {
    && st.phase.Running? && InboundAwaits(st) && st.outbound.AwaitReply?
    && st.down.receiving && st.down.channel == []
  }

  function ReportOf(frame: Reply, latch: string, peer: Peer): seq<Observation> {
    if frame.Ok? then DeliverOf(frame.value, latch, peer) else []
  }

  /** What one frame changes, once it has been offered to the client. */
  ghost predicate Replied(after: Stream, st: Stream, frame: Reply) {
    && after.events == st.events + ReportOf(frame, st.latch, st.peer)
    && after.latch == st.latch && after.peer == st.peer && after.inbound == st.inbound
    && after.phase == (if st.down.receiving && frame.Ok? then Running else Closing)
    && (st.down.receiving ==> after.outbound.AwaitReply?)
    && after.down.receiving == st.down.receiving && after.down.got == st.down.got
    && after.down.channel == if st.down.receiving then [frame] else []
  }

  lemma DeliveryRuns(st: Stream)
    requires OutboundEnabled(st, EmitDeliver) && st.down.channel == []
    ensures var frame: Reply := Ok(st.outbound.response);
      Replied(Exec(st, [OutboundPump(EmitDeliver), OutboundPump(ForwardReply)]), st, frame)
  {
    ExecTwo(st, OutboundPump(EmitDeliver), OutboundPump(ForwardReply));
    OutboundTouches(st, EmitDeliver);
    var frame: Reply := Ok(st.outbound.response);
    assert Sent(st.down, frame).channel == [frame];
  }

  /** One frame, undisturbed: reported, and forwarded or refused. */
  lemma ReplyGoesThrough(st: Stream, frame: Reply)
    requires st.phase.Running? && InboundAwaits(st) && st.outbound.AwaitReply? && st.down.channel == []
    ensures Replied(Exec(st, OneReply(frame)), st, frame)
  {
    match frame
    case Ok(response) =>
      ExecFirst(st, OneReply(frame));
      assert OneReply(frame)[1..] == [OutboundPump(EmitDeliver), OutboundPump(ForwardReply)];
      DeliveryRuns(Step(st, OutboundPump(UpstreamReplies(response))));
    case Err(error) =>
      ExecTwo(st, OutboundPump(UpstreamFails(error)), OutboundPump(ForwardReply));
      assert st.events + [] == st.events;
  }

  lemma ReplyTaken(st: Stream, frame: Reply) returns (run: seq<Action>, after: Stream)
    requires Listening(st)
    ensures after == Exec(st, run) && OutboundOnly(run)
    ensures after.events == st.events + ReportOf(frame, st.latch, st.peer)
    ensures after.latch == st.latch && after.peer == st.peer && after.down.got == st.down.got + [frame]
    ensures if frame.Ok? then Listening(after) else after.phase.Closing?
  {
    var sent := Exec(st, OneReply(frame));
    after := Step(sent, CLIENT_TAKES);
    run := OneReply(frame) + [CLIENT_TAKES];
    ReplyGoesThrough(st, frame);
    ExecOne(sent, CLIENT_TAKES);
    Chain(st, OneReply(frame), sent, [CLIENT_TAKES], after);
  }

  lemma ReplyRefused(st: Stream, frame: Reply) returns (run: seq<Action>, end: Stream)
    requires Listening(st)
    ensures end == Exec(st, run) && OutboundOnly(run)
    ensures end.events == st.events + ReportOf(frame, st.latch, st.peer)
    ensures end.phase.Closing? && end.down.got == st.down.got
  {
    var alone := Step(st, FarEnd(ClientHangsUp));
    end := Exec(alone, OneReply(frame));
    run := [FarEnd(ClientHangsUp)] + OneReply(frame);
    ExecOne(st, FarEnd(ClientHangsUp));
    ReplyGoesThrough(alone, frame);
    Chain(st, [FarEnd(ClientHangsUp)], alone, OneReply(frame), end);
  }

  function Constantly(latch: string, n: nat): seq<string> {
    seq(n, _ => latch)
  }

  lemma RegroupReports(a: seq<Observation>, b: seq<Observation>, c: seq<Observation>)
    ensures a + b + c == a + (b + c)
  {
  }

  /** With one latch throughout, deliveries may be counted from either end. */
  lemma {:induction false} DeliveredFirst(frames: seq<Reply>, n: nat, latch: string, peer: Peer)
    requires 0 < n <= |frames|
    ensures Delivered(frames[..n], Constantly(latch, |frames|), peer)
      == ReportOf(frames[0], latch, peer) + Delivered(frames[1..][..n - 1], Constantly(latch, |frames| - 1), peer)
  {
    var one, other := Constantly(latch, |frames|), Constantly(latch, |frames| - 1);
    if n == 1 {
      assert frames[..1] == [] + [frames[0]] && frames[1..][..0] == [];
      DeliveredOneMore([], frames[0], one, peer);
    } else {
      DeliveredFirst(frames, n - 1, latch, peer);
      assert frames[..n] == frames[..n - 1] + [frames[n - 1]];
      assert frames[1..][..n - 1] == frames[1..][..n - 2] + [frames[n - 1]];
      DeliveredOneMore(frames[..n - 1], frames[n - 1], one, peer);
      DeliveredOneMore(frames[1..][..n - 2], frames[n - 1], other, peer);
      RegroupReports(ReportOf(frames[0], latch, peer), Delivered(frames[1..][..n - 2], other, peer),
                     ReportOf(frames[n - 1], latch, peer));
    }
  }

  /** The pump has ended, the client having taken `accepted` of what was produced. */
  ghost predicate RepliedUpTo(end: Stream, st: Stream, produced: seq<Reply>, accepted: nat) {
    && end.phase.Closing? && end.down.got == st.down.got + UpTo(produced, accepted)
    && end.events == st.events
         + Delivered(UpTo(produced, accepted + 1), Constantly(st.latch, |produced|), st.peer)
  }

  lemma OneReported(frame: Reply, latch: string, n: nat, peer: Peer)
    requires n > 0
    ensures Delivered([frame], Constantly(latch, n), peer) == ReportOf(frame, latch, peer)
  {
    DeliveredOneMore([], frame, Constantly(latch, n), peer);
    assert [] + [frame] == [frame];
  }

  /** One more frame in front. */
  lemma RepliedLater(end: Stream, after: Stream, st: Stream, produced: seq<Reply>, accepted: nat)
    requires produced != [] && accepted > 0
    requires after.events == st.events + ReportOf(produced[0], st.latch, st.peer)
    requires after.latch == st.latch && after.peer == st.peer && after.down.got == st.down.got + [produced[0]]
    requires RepliedUpTo(end, after, produced[1..], accepted - 1)
    ensures RepliedUpTo(end, st, produced, accepted)
  {
    DeliveredFirst(produced, Min(|produced|, accepted + 1), st.latch, st.peer);
    UpToFirst(st.down.got, produced, accepted);
    RegroupReports(st.events, ReportOf(produced[0], st.latch, st.peer),
                   Delivered(UpTo(produced[1..], accepted), Constantly(st.latch, |produced| - 1), st.peer));
  }

  /** Upstream has nothing more to send, fails, or the client takes no more. */
  lemma OutboundLast(st: Stream, frames: seq<Reply>, accepted: nat) returns (run: seq<Action>, end: Stream)
    requires Listening(st) && (frames == [] || accepted == 0 || frames[0].Err?)
    ensures end == Exec(st, run) && OutboundOnly(run)
    ensures RepliedUpTo(end, st, UpToError(frames), accepted)
  {
    var produced := UpToError(frames);
    assert st.down.got + [] == st.down.got;
    if frames == [] {
      run, end := [OutboundPump(UpstreamEnds)], Step(st, OutboundPump(UpstreamEnds));
      ExecOne(st, OutboundPump(UpstreamEnds));
      assert st.events + [] == st.events;
    } else {
      assert produced[..1] == [frames[0]];
      OneReported(frames[0], st.latch, |produced|, st.peer);
      if accepted == 0 {
        run, end := ReplyRefused(st, frames[0]);
      } else {
        run, end := ReplyTaken(st, frames[0]);
      }
    }
  }

  lemma {:induction false} OutboundAlone(st: Stream, frames: seq<Reply>, accepted: nat)
    returns (run: seq<Action>, end: Stream)
    requires Listening(st)
    ensures end == Exec(st, run) && OutboundOnly(run)
    ensures RepliedUpTo(end, st, UpToError(frames), accepted)
    decreases |frames|
  {
    if frames == [] || accepted == 0 || frames[0].Err? {
      run, end := OutboundLast(st, frames, accepted);
    } else {
      var produced := UpToError(frames);
      var first, after := ReplyTaken(st, frames[0]);
      var rest;
      rest, end := OutboundAlone(after, frames[1..], accepted - 1);
      run := first + rest;
      Chain(st, first, after, rest, end);
      assert produced[1..] == UpToError(frames[1..]);
      RepliedLater(end, after, st, produced, accepted);
    }
  }

  /** A refused connection: the refusal is all there is to relay. */
  lemma RefusalRelayed(st: Stream, status: string, accepted: nat) returns (run: seq<Action>, end: Stream)
    requires st.phase.Running? && InboundAwaits(st) && st.outbound.Connecting?
    requires st.down == Lane([], [], true, [])
    ensures end == Exec(st, run) && OutboundOnly(run)
    ensures end.phase.Closing? && end.events == st.events && end.down.got == if accepted == 0 then [] else [Err(status)]
  {
    var rejects, forwards := OutboundPump(UpstreamRejects(status)), OutboundPump(ForwardReply);
    if accepted == 0 {
      var alone := Step(st, FarEnd(ClientHangsUp));
      ExecOne(st, FarEnd(ClientHangsUp));
      ExecTwo(alone, rejects, forwards);
      run, end := [FarEnd(ClientHangsUp)] + [rejects, forwards], Exec(alone, [rejects, forwards]);
      Chain(st, [FarEnd(ClientHangsUp)], alone, [rejects, forwards], end);
    } else {
      var sent := Exec(st, [rejects, forwards]);
      ExecTwo(st, rejects, forwards);
      ExecOne(sent, CLIENT_TAKES);
      run, end := [rejects, forwards] + [CLIENT_TAKES], Step(sent, CLIENT_TAKES);
      Chain(st, [rejects, forwards], sent, [CLIENT_TAKES], end);
    }
  }

  /** The server-to-client loop ends where the step system does in a run in which only
      that pump acts, from any state in which the other awaits. */
  lemma OutboundPumpIsRun(st: Stream, connected: Result<(), string>, frames: seq<Reply>, accepted: nat)
    returns (run: seq<Action>, reported: seq<Observation>)
    requires st.phase.Running? && InboundAwaits(st) && st.outbound.Connecting?
    requires st.down == Lane([], [], true, [])
    ensures OutboundOnly(run)
    ensures var end := Exec(st, run);
      && end.phase.Closing? && end.events == st.events + reported
      && OutboundEnds(connected, frames, Constantly(st.latch, |Produced(connected, frames)|), accepted, st.peer,
                      end.down.got, reported)
  {
    match connected
    case Ok(_) =>
      var accepts := OutboundPump(UpstreamAccepts);
      var open_, end := Step(st, accepts), st;
      ExecOne(st, accepts);
      run, end := OutboundAlone(open_, frames, accepted);
      Chain(st, [accepts], open_, run, end);
      run := [accepts] + run;
      var produced := UpToError(frames);
      reported := Delivered(produced[..Min(|produced|, accepted + 1)], Constantly(st.latch, |produced|), st.peer);
      assert [] + produced[..Min(|produced|, accepted)] == produced[..Min(|produced|, accepted)];
    case Err(status) =>
      var end;
      run, end := RefusalRelayed(st, status, accepted);
      reported := [];
      RefusalEnds(status, frames, [st.latch], accepted, st.peer);
      assert Constantly(st.latch, 1) == [st.latch] && st.events + [] == st.events;
  }

  // ---- Every run is a run of the loops ----

  /** At most one frame in hand: the rest were sent. */
  lemma SentSoFar<T>(sent: seq<T>, hand: seq<T>, read: seq<T>)
    requires sent + hand == read && |hand| <= 1
    ensures read[..Min(|read|, |sent|)] == sent && read[..Min(|read|, |sent| + 1)] == read
  {
  }

  /** In every run, however the pumps interleave: whenever the client-to-server pump is
      at an await, its forwarded frames, opens and acks, latch and flag are those its
      loop ends with on the frames read. */
  lemma RunsAreInboundLoops(peer: Peer, actions: seq<Action>, frames: seq<Result<Request, string>>)
    requires InboundAwaits(Exec(Start(peer), actions)) && OkPrefix(frames) == Exec(Start(peer), actions).up.read
    ensures var st := Exec(Start(peer), actions);
      var sent := st.up.got + st.up.channel;
      InboundEnds(frames, |sent|, peer, sent, OpensAndAcks(st.events), st.latch, st.announced)
  {
    var st := Exec(Start(peer), actions);
    var sent := st.up.got + st.up.channel;
    FaithfulAlways(peer, actions);
    ReportedAlways(peer, actions);
    SentSoFar(sent, RequestInHand(st), st.up.read);
    assert PendingInbound(st) == [] && OpensAndAcks(st.events) + [] == OpensAndAcks(st.events);
  }

  /** The deliveries among some events. */
  function DeliversIn(events: seq<Observation>): seq<Observation> {
    if events == [] then []
    else
      var before, last := DeliversIn(events[..|events| - 1]), events[|events| - 1];
      if last.Deliver? then before + [last] else before
  }

  lemma DeliversMore(events: seq<Observation>, more: seq<Observation>)
    requires |more| <= 1
    ensures DeliversIn(events + more) == DeliversIn(events) + if more != [] && more[0].Deliver? then more else []
  {
    if more == [] {
      assert events + more == events;
    } else {
      assert (events + more)[..|events|] == events && more == [more[0]];
    }
  }

  lemma {:induction false} DeliveredPrefix(read: seq<Reply>, one: seq<string>, other: seq<string>, peer: Peer)
    requires |read| <= |one| && |read| <= |other| && one[..|read|] == other[..|read|]
    ensures Delivered(read, one, peer) == Delivered(read, other, peer)
    decreases |read|
  {
    if read != [] {
      var n := |read| - 1;
      assert one[n] == one[..|read|][n] && other[n] == other[..|read|][n];
      assert one[..n] == one[..|read|][..n] && other[..n] == other[..|read|][..n];
      DeliveredPrefix(read[..n], one, other, peer);
    }
  }

  /** Whether an action finishes tapping an upstream frame. */
  predicate TapsReply(st: Stream, a: Action) {
    && Enabled(st, a) && a.OutboundPump?
    && (a.outbound.EmitDeliver? || a.outbound.UpstreamFails? || a.outbound.UpstreamRejects?)
  }

  /** What the latch held as each upstream frame was tapped in a run. */
  function LatchesIn(peer: Peer, actions: seq<Action>): seq<string>
    decreases |actions|
  {
    if actions == [] then []
    else
      var before, a := Exec(Start(peer), actions[..|actions| - 1]), actions[|actions| - 1];
      LatchesIn(peer, actions[..|actions| - 1]) + if TapsReply(before, a) then [before.latch] else []
  }

  /** The upstream frames tapped so far: all that were read but one in hand. */
  function TappedReplies(st: Stream): seq<Reply> {
    if st.outbound.Delivering? && st.down.read != [] then st.down.read[..|st.down.read| - 1] else st.down.read
  }

  /** Exactly the deliveries of the frames tapped were reported, each on the
      subscription latched as it was. */
  ghost predicate DeliveredAs(st: Stream, latched: seq<string>) {
    && |latched| == |TappedReplies(st)|
    && DeliversIn(st.events) == Delivered(TappedReplies(st), latched, st.peer)
    && (st.outbound.Delivering? ==>
          st.down.read != [] && st.down.read[|st.down.read| - 1] == Ok(st.outbound.response))
  }

  lemma TappedOneMore(events: seq<Observation>, more: seq<Observation>, read: seq<Reply>, frame: Reply,
                      latched: seq<string>, latch: string, peer: Peer)
    requires |latched| == |read| && DeliversIn(events) == Delivered(read, latched, peer)
    requires more == if frame.Ok? then DeliverOf(frame.value, latch, peer) else []
    ensures DeliversIn(events + more) == Delivered(read + [frame], latched + [latch], peer)
  {
    DeliversMore(events, more);
    assert (latched + [latch])[..|read|] == latched;
    DeliveredPrefix(read, latched, latched + [latch], peer);
    DeliveredOneMore(read, frame, latched + [latch], peer);
  }

  lemma DeliverTapped(st: Stream, latched: seq<string>)
    requires OutboundEnabled(st, EmitDeliver) && DeliveredAs(st, latched)
    ensures DeliveredAs(AfterOutbound(st, EmitDeliver), latched + [st.latch])
  {
    var frame: Reply := Ok(st.outbound.response);
    OutboundTouches(st, EmitDeliver);
    TappedOneMore(st.events, DeliverOf(st.outbound.response, st.latch, st.peer), TappedReplies(st), frame,
                  latched, st.latch, st.peer);
    assert TappedReplies(st) + [frame] == st.down.read;
  }

  lemma FailureTapped(st: Stream, a: OutboundAction, error: string, latched: seq<string>)
    requires OutboundEnabled(st, a) && (a == UpstreamFails(error) || a == UpstreamRejects(error)) && DeliveredAs(st, latched)
    ensures DeliveredAs(AfterOutbound(st, a), latched + [st.latch])
  {
    var frame: Reply := Err(error);
    TappedOneMore(st.events, [], st.down.read, frame, latched, st.latch, st.peer);
    assert st.events + [] == st.events;
  }

  lemma OutboundDeliveredAs(st: Stream, a: OutboundAction, latched: seq<string>)
    requires OutboundEnabled(st, a) && DeliveredAs(st, latched)
    ensures DeliveredAs(AfterOutbound(st, a), latched + if TapsReply(st, OutboundPump(a)) then [st.latch] else [])
  {
    assert latched + [] == latched;
    match a
    case UpstreamRejects(status) => FailureTapped(st, a, status, latched);
    case UpstreamFails(error) => FailureTapped(st, a, error, latched);
    case EmitDeliver => DeliverTapped(st, latched);
    case UpstreamReplies(response) => assert TappedReplies(AfterOutbound(st, a)) == TappedReplies(st);
    case UpstreamAccepts =>
    case UpstreamEnds =>
    case ForwardReply =>
  }

  /** Whatever touches neither the upstream frames nor what the pump holds. */
  lemma ElseDeliveredAs(st: Stream, after: Stream, latched: seq<string>, more: seq<Observation>)
    requires DeliveredAs(st, latched)
    requires after.outbound == st.outbound && after.down.read == st.down.read && after.peer == st.peer
    requires after.events == st.events + more && |more| <= 1 && (more != [] ==> !more[0].Deliver?)
    ensures DeliveredAs(after, latched)
  {
    DeliversMore(st.events, more);
  }

  lemma DeliveredAsStep(st: Stream, a: Action, latched: seq<string>)
    requires DeliveredAs(st, latched)
    ensures DeliveredAs(Step(st, a), latched + if TapsReply(st, a) then [st.latch] else [])
  {
    assert latched + [] == latched && st.events + [] == st.events;
    if Enabled(st, a) {
      match a
      case OutboundPump(o) => OutboundDeliveredAs(st, o, latched);
      case InboundPump(i) =>
        InboundTouches(st, i);
        ElseDeliveredAs(st, AfterInbound(st, i), latched, EmittedBy(st, a));
      case Finish =>
        FinishTouches(st);
        ElseDeliveredAs(st, Finished(st), latched, EmittedBy(st, a));
      case FarEnd(f) =>
        FarTouchesChannels(st, f);
        ElseDeliveredAs(st, AfterFar(st, f), latched, []);
    }
  }

  lemma {:induction false} DeliveredAsAlways(peer: Peer, actions: seq<Action>)
    ensures DeliveredAs(Exec(Start(peer), actions), LatchesIn(peer, actions))
    decreases |actions|
  {
    if actions != [] {
      var before, a := actions[..|actions| - 1], actions[|actions| - 1];
      DeliveredAsAlways(peer, before);
      DeliveredAsStep(Exec(Start(peer), before), a, LatchesIn(peer, before));
    }
  }

  lemma OutboundEndsAt(connected: Result<(), string>, frames: seq<Reply>, latched: seq<string>, peer: Peer,
                       sent: seq<Reply>, hand: seq<Reply>, reported: seq<Observation>)
    requires Produced(connected, frames) == sent + hand && |hand| <= 1 && |latched| == |sent + hand|
    requires reported == Delivered(sent + hand, latched, peer)
    ensures OutboundEnds(connected, frames, latched, |sent|, peer, sent, reported)
  {
    SentSoFar(sent, hand, sent + hand);
  }

  /** In every run, however the pumps interleave and whatever the client re-latches:
      whenever the server-to-client pump is at an await, its forwarded frames and its
      deliveries are those its loop ends with on the frames read, given what the latch
      held as each was tapped. */
  lemma RunsAreOutboundLoops(peer: Peer, actions: seq<Action>, connected: Result<(), string>, frames: seq<Reply>)
    requires OutboundAwaits(Exec(Start(peer), actions))
    requires Produced(connected, frames) == Exec(Start(peer), actions).down.read
    ensures var st := Exec(Start(peer), actions);
      var sent := st.down.got + st.down.channel;
      && |LatchesIn(peer, actions)| == |st.down.read|
      && OutboundEnds(connected, frames, LatchesIn(peer, actions), |sent|, peer, sent, DeliversIn(st.events))
  {
    var st := Exec(Start(peer), actions);
    var sent := st.down.got + st.down.channel;
    FaithfulAlways(peer, actions);
    ReportedAlways(peer, actions);
    DeliveredAsAlways(peer, actions);
    assert sent + ReplyInHand(st) == st.down.read && TappedReplies(st) == st.down.read;
    OutboundEndsAt(connected, frames, LatchesIn(peer, actions), peer, sent, ReplyInHand(st), DeliversIn(st.events));
  }

  /** An error, if one was read, was the last, and is all the pump has left to forward. */
  ghost predicate ErrorsLast(st: Stream) {
    forall i :: 0 <= i < |st.down.read| && st.down.read[i].Err? ==>
      i == |st.down.read| - 1 && (!st.phase.Running? || (st.outbound.Replying? && st.outbound.reply.Err?))
  }

  lemma OutboundErrorsLast(st: Stream, a: OutboundAction)
    requires OutboundEnabled(st, a) && ErrorsLast(st)
    ensures ErrorsLast(AfterOutbound(st, a))
  {
  }

  lemma ErrorsLastStep(st: Stream, a: Action)
    requires ErrorsLast(st)
    ensures ErrorsLast(Step(st, a))
  {
    if Enabled(st, a) {
      match a
      case OutboundPump(o) => OutboundErrorsLast(st, o);
      case InboundPump(i) => InboundTouches(st, i);
      case Finish => FinishTouches(st);
      case FarEnd(f) => FarTouchesChannels(st, f);
    }
  }

  lemma {:induction false} UpToOnlyError(read: seq<Reply>)
    requires forall i :: 0 <= i < |read| && read[i].Err? ==> i == |read| - 1
    ensures UpToError(read) == read
  {
    if read != [] && read[0].Ok? {
      UpToOnlyError(read[1..]);
      assert read == [read[0]] + read[1..];
    }
  }

  /** The frames a pump has read are frames its loop can have read. */
  lemma {:induction false} ReadsEndAtError(peer: Peer, actions: seq<Action>)
    ensures var st := Exec(Start(peer), actions); ErrorsLast(st) && Produced(Ok(()), st.down.read) == st.down.read
    decreases |actions|
  {
    if actions != [] {
      ReadsEndAtError(peer, actions[..|actions| - 1]);
      ErrorsLastStep(Exec(Start(peer), actions[..|actions| - 1]), actions[|actions| - 1]);
    }
    UpToOnlyError(Exec(Start(peer), actions).down.read);
  }
}
