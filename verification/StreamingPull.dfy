/** One tapped `StreamingPull`: two pumps in a single task, interleaving only at
    their await points, between a client and an upstream that do as they please.

    Every action below is one segment between two awaits, split further at each
    emitted observation because the taps of other streams run in parallel. */
module StreamingPull {
  import opened Basics
  import opened Events

  /** Buffer between the two halves of a proxied stream. */
  const STREAM_BUFFER: nat := 64

  /** A client frame; `rest` stands for the fields the tap does not look at. */
  datatype Request = Request(subscription: string, ackIds: seq<string>, rest: string)

  datatype Response = Response(receivedMessages: seq<string>, rest: string)

  type Reply = Result<Response, string>

  /** Where the client-to-upstream pump stands. */
  datatype Inbound =
    | AwaitFrame
    | Opening(request: Request) // about to observe the open
    | Acking(request: Request) // about to observe the acks
    | Sending(request: Request) // awaiting room in the request channel

  /** Where the upstream-to-client pump stands. */
  datatype Outbound =
    | Connecting
    | AwaitReply
    | Delivering(response: Response) // about to observe the delivery
    | Replying(reply: Reply) // awaiting room in the response channel

  datatype Phase = Running | Closing | Closed

  /** One direction of the stream: what its pump has read, the bounded channel it
      feeds, whether anyone still receives from that channel, and what they got. */
  datatype Lane<T> = Lane(read: seq<T>, channel: seq<T>, receiving: bool, got: seq<T>)

  datatype Stream = Stream(
    peer: Peer,
    latch: string,
    announced: bool, // a frame has claimed the one open event
    phase: Phase,
    inbound: Inbound,
    outbound: Outbound,
    up: Lane<Request>,
    down: Lane<Reply>,
    events: seq<Observation>, // offered to the sink so far
    eager: bool) // upstream delivered before it had received anything

  datatype InboundAction = ClientSends(request: Request) | ClientEnds | EmitOpen | EmitAck | ForwardRequest

  datatype OutboundAction =
    | UpstreamAccepts
    | UpstreamRejects(status: string)
    | UpstreamReplies(response: Response)
    | UpstreamFails(error: string)
    | UpstreamEnds
    | EmitDeliver
    | ForwardReply

  datatype FarAction = UpstreamTakes | UpstreamHangsUp | ClientTakes | ClientHangsUp

  datatype Action =
    | InboundPump(inbound: InboundAction)
    | OutboundPump(outbound: OutboundAction)
    | FarEnd(far: FarAction)
    | Finish

  function Start(peer: Peer): Stream {
    Stream(peer, "", false, Running, AwaitFrame, Connecting, Lane([], [], true, []), Lane([], [], true, []), [], false)
  }

  /** The task polls one pump only while the other is at an await. */
  predicate InboundAwaits(st: Stream) {
    st.inbound.AwaitFrame? || st.inbound.Sending?
  }

  predicate OutboundAwaits(st: Stream) {
    !st.outbound.Delivering?
  }

  /** A send completes once there is room, or fails once nobody receives. */
  predicate SendReady<T>(lane: Lane<T>) {
    lane.receiving ==> |lane.channel| < STREAM_BUFFER
  }

  predicate InboundEnabled(st: Stream, a: InboundAction) {
    && st.phase.Running? && OutboundAwaits(st)
    && match a
       case ClientSends(_) => st.inbound.AwaitFrame?
       case ClientEnds => st.inbound.AwaitFrame?
       case EmitOpen => st.inbound.Opening?
       case EmitAck => st.inbound.Acking?
       case ForwardRequest => st.inbound.Sending? && SendReady(st.up)
  }

  predicate OutboundEnabled(st: Stream, a: OutboundAction) {
    && st.phase.Running? && InboundAwaits(st)
    && match a
       case UpstreamAccepts => st.outbound.Connecting?
       case UpstreamRejects(_) => st.outbound.Connecting?
       case EmitDeliver => st.outbound.Delivering?
       case ForwardReply => st.outbound.Replying? && SendReady(st.down)
       case _ => st.outbound.AwaitReply?
  }

  predicate FarEnabled(st: Stream, a: FarAction) {
    match a
    case UpstreamTakes => st.up.receiving && st.up.channel != []
    case ClientTakes => st.down.receiving && st.down.channel != []
    case _ => true
  }

  predicate Enabled(st: Stream, a: Action) {
    match a
    case InboundPump(i) => InboundEnabled(st, i)
    case OutboundPump(o) => OutboundEnabled(st, o)
    case FarEnd(f) => FarEnabled(st, f)
    case Finish => st.phase.Closing?
  }

  /** Offer an observation of `n` messages to the sink, unless there are none. */
  function Offering(st: Stream, o: Observation, n: nat): Stream {
    if n > 0 then st.(events := st.events + [o]) else st
  }

  function Read<T>(lane: Lane<T>, x: T): Lane<T> {
    lane.(read := lane.read + [x])
  }

  function Sent<T>(lane: Lane<T>, x: T): Lane<T> {
    lane.(channel := lane.channel + [x])
  }

  function Taken<T>(lane: Lane<T>): Lane<T>
    requires lane.channel != []
  {
    lane.(channel := lane.channel[1..], got := lane.got + [lane.channel[0]])
  }

  function AfterInbound(st: Stream, a: InboundAction): Stream
    requires InboundEnabled(st, a)
  {
    match a
    case ClientSends(request) =>
      var named := request.subscription != "";
      st.(latch := if named then request.subscription else st.latch,
          announced := st.announced || named,
          inbound := if named && !st.announced then Opening(request) else Acking(request),
          up := Read(st.up, request))
    case ClientEnds => st.(phase := Closing)
    case EmitOpen =>
      var open_ := ConsumerOpen(st.inbound.request.subscription, st.peer);
      Offering(st, open_, 1).(inbound := Acking(st.inbound.request))
    case EmitAck =>
      var n := |st.inbound.request.ackIds|;
      Offering(st, Ack(st.latch, st.peer, n), n).(inbound := Sending(st.inbound.request))
    case ForwardRequest =>
      if st.up.receiving then st.(up := Sent(st.up, st.inbound.request), inbound := AwaitFrame)
      else st.(phase := Closing)
  }

  function AfterOutbound(st: Stream, a: OutboundAction): Stream
    requires OutboundEnabled(st, a)
  {
    match a
    case UpstreamAccepts => st.(outbound := AwaitReply)
    case UpstreamRejects(status) => st.(outbound := Replying(Err(status)), down := Read(st.down, Err(status)))
    case UpstreamReplies(response) =>
      st.(outbound := Delivering(response), down := Read(st.down, Ok(response)),
          eager := st.eager || (response.receivedMessages != [] && st.up.got == []))
    case UpstreamFails(error) => st.(outbound := Replying(Err(error)), down := Read(st.down, Err(error)))
    case UpstreamEnds => st.(phase := Closing)
    case EmitDeliver =>
      var n := |st.outbound.response.receivedMessages|;
      Offering(st, Deliver(st.latch, st.peer, n), n).(outbound := Replying(Ok(st.outbound.response)))
    case ForwardReply =>
      if !st.down.receiving then st.(phase := Closing)
      else
        st.(down := Sent(st.down, st.outbound.reply), outbound := AwaitReply,
            phase := if st.outbound.reply.Ok? then Running else Closing)
  }

  function AfterFar(st: Stream, a: FarAction): Stream
    requires FarEnabled(st, a)
  {
    match a
    case UpstreamTakes => st.(up := Taken(st.up))
    case UpstreamHangsUp => st.(up := st.up.(receiving := false))
    case ClientTakes => st.(down := Taken(st.down))
    case ClientHangsUp => st.(down := st.down.(receiving := false))
  }

  /** Both pumps are gone; a stream that announced itself takes its leave. */
  function Finished(st: Stream): Stream {
    Offering(st, ConsumerClose(st.latch, st.peer), if st.announced then 1 else 0).(phase := Closed)
  }

  /** One action; a disabled one changes nothing. */
  function Step(st: Stream, a: Action): Stream {
    if !Enabled(st, a) then st
    else
      match a
      case InboundPump(i) => AfterInbound(st, i)
      case OutboundPump(o) => AfterOutbound(st, o)
      case FarEnd(f) => AfterFar(st, f)
      case Finish => Finished(st)
  }

  /** The stream after a run of actions, in any order the environment likes. */
  function Exec(st: Stream, actions: seq<Action>): Stream
    decreases |actions|
  {
    if actions == [] then st
    else Step(Exec(st, actions[..|actions| - 1]), actions[|actions| - 1])
  }

  // ---- Transparency ----

  /** The request read from the client but not yet in the channel. */
  function RequestInHand(st: Stream): seq<Request> {
    if st.inbound.AwaitFrame? then [] else [st.inbound.request]
  }

  function ReplyInHand(st: Stream): seq<Reply> {
    match st.outbound
    case Delivering(response) => [Ok(response)]
    case Replying(reply) => [reply]
    case _ => []
  }

  ghost predicate Relays<T>(lane: Lane<T>, hand: seq<T>) {
    lane.got + lane.channel + hand == lane.read && |lane.channel| <= STREAM_BUFFER
  }

  ghost predicate Faithful(st: Stream) {
    Relays(st.up, RequestInHand(st)) && Relays(st.down, ReplyInHand(st))
  }

  lemma RelaysMore<T>(lane: Lane<T>, hand: seq<T>, x: T)
    requires Relays(lane, hand)
    ensures hand == [] ==> Relays(Read(lane, x), [x])
    ensures hand == [x] && |lane.channel| < STREAM_BUFFER ==> Relays(Sent(lane, x), [])
    ensures lane.channel != [] ==> Relays(Taken(lane), hand)
  {
    assert lane.got + (lane.channel + [x]) == lane.got + lane.channel + [x];
  }

  lemma InboundFaithful(st: Stream, a: InboundAction)
    requires InboundEnabled(st, a) && Faithful(st)
    ensures Faithful(AfterInbound(st, a))
  {
    match a
    case ClientSends(request) => RelaysMore(st.up, [], request);
    case ForwardRequest => RelaysMore(st.up, RequestInHand(st), st.inbound.request);
    case _ =>
  }

  lemma OutboundFaithful(st: Stream, a: OutboundAction)
    requires OutboundEnabled(st, a) && Faithful(st)
    ensures Faithful(AfterOutbound(st, a))
  {
    match a
    case UpstreamRejects(status) => RelaysMore(st.down, [], Err(status));
    case UpstreamFails(error) => RelaysMore(st.down, [], Err(error));
    case UpstreamReplies(response) => RelaysMore(st.down, [], Ok(response));
    case ForwardReply => RelaysMore(st.down, ReplyInHand(st), st.outbound.reply);
    case _ =>
  }

  /** The far ends touch nothing but the channels. */
  lemma FarTouchesChannels(st: Stream, a: FarAction)
    requires FarEnabled(st, a)
    ensures AfterFar(st, a) == st.(up := AfterFar(st, a).up, down := AfterFar(st, a).down)
    ensures AfterFar(st, a).up.read == st.up.read && AfterFar(st, a).down.read == st.down.read
  {
  }

  lemma FarFaithful(st: Stream, a: FarAction)
    requires FarEnabled(st, a) && Faithful(st)
    ensures Faithful(AfterFar(st, a))
  {
    match a
    case UpstreamTakes => RelaysMore(st.up, RequestInHand(st), st.up.channel[0]);
    case ClientTakes => RelaysMore(st.down, ReplyInHand(st), st.down.channel[0]);
    case _ =>
  }

  lemma FaithfulStep(st: Stream, a: Action)
    requires Faithful(st)
    ensures Faithful(Step(st, a))
  {
    if Enabled(st, a) {
      match a
      case InboundPump(i) => InboundFaithful(st, i);
      case OutboundPump(o) => OutboundFaithful(st, o);
      case FarEnd(f) => FarFaithful(st, f);
      case Finish =>
    }
  }

  lemma {:induction false} FaithfulAlways(peer: Peer, actions: seq<Action>)
    ensures Faithful(Exec(Start(peer), actions))
    decreases |actions|
  {
    if actions != [] {
      FaithfulAlways(peer, actions[..|actions| - 1]);
      FaithfulStep(Exec(Start(peer), actions[..|actions| - 1]), actions[|actions| - 1]);
    }
  }

  /** In every run upstream has received an in-order prefix of the client's
      frames and the client one of upstream's, each at most one full channel and
      one frame in hand behind. */
  lemma Transparency(peer: Peer, actions: seq<Action>)
    ensures var st := Exec(Start(peer), actions);
      && st.up.got <= st.up.read && |st.up.read| - |st.up.got| <= STREAM_BUFFER + 1
      && st.down.got <= st.down.read && |st.down.read| - |st.down.got| <= STREAM_BUFFER + 1
  {
    FaithfulAlways(peer, actions);
  }

  // ---- What a stream reports ----

  /** The first subscription a client names. */
  function FirstNamed(frames: seq<Request>): Option<string> {
    if frames == [] then None
    else
      var before, last := FirstNamed(frames[..|frames| - 1]), frames[|frames| - 1].subscription;
      if before.Some? || last == "" then before else Some(last)
  }

  /** The last subscription a client names, empty while it has named none. */
  function LastNamed(frames: seq<Request>): string {
    if frames == [] then ""
    else
      var last := frames[|frames| - 1].subscription;
      if last != "" then last else LastNamed(frames[..|frames| - 1])
  }

  function AckOf(request: Request, subscription: string, peer: Peer): seq<Observation> {
    if request.ackIds == [] then [] else [Ack(subscription, peer, |request.ackIds|)]
  }

  function DeliverOf(response: Response, subscription: string, peer: Peer): seq<Observation> {
    if response.receivedMessages == [] then [] else [Deliver(subscription, peer, |response.receivedMessages|)]
  }

  /** One frame: an open if it is the first to name a subscription, then its acks. */
  function FrameTrace(request: Request, unnamed: bool, latch: string, peer: Peer): seq<Observation> {
    (if request.subscription != "" && unnamed then [ConsumerOpen(request.subscription, peer)] else [])
    + AckOf(request, latch, peer)
  }

  /** What the frames alone say should be observed on the way upstream. */
  function InboundTrace(frames: seq<Request>, peer: Peer): seq<Observation> {
    if frames == [] then []
    else
      var before, last := frames[..|frames| - 1], frames[|frames| - 1];
      InboundTrace(before, peer) + FrameTrace(last, FirstNamed(before).None?, LastNamed(frames), peer)
  }

  function DeliveryTrace(replies: seq<Reply>): seq<nat> {
    if replies == [] then []
    else
      var before, last := DeliveryTrace(replies[..|replies| - 1]), replies[|replies| - 1];
      if last.Ok? && last.value.receivedMessages != [] then before + [|last.value.receivedMessages|] else before
  }

  /** The opens and acks among `events`. */
  function OpensAndAcks(events: seq<Observation>): seq<Observation> {
    if events == [] then []
    else
      var before, last := OpensAndAcks(events[..|events| - 1]), events[|events| - 1];
      if last.ConsumerOpen? || last.Ack? then before + [last] else before
  }

  function Deliveries(events: seq<Observation>): seq<nat> {
    if events == [] then []
    else
      var before, last := Deliveries(events[..|events| - 1]), events[|events| - 1];
      if last.Deliver? then before + [last.count] else before
  }

  lemma OneMoreEvent(events: seq<Observation>, o: Observation)
    ensures OpensAndAcks(events + [o]) == if o.ConsumerOpen? || o.Ack? then OpensAndAcks(events) + [o] else OpensAndAcks(events)
    ensures Deliveries(events + [o]) == if o.Deliver? then Deliveries(events) + [o.count] else Deliveries(events)
  {
    assert (events + [o])[..|events|] == events;
  }

  lemma OneMoreFrame(frames: seq<Request>, last: Request, peer: Peer)
    ensures FirstNamed(frames + [last]) ==
      if FirstNamed(frames).Some? || last.subscription == "" then FirstNamed(frames) else Some(last.subscription)
    ensures LastNamed(frames + [last]) == if last.subscription != "" then last.subscription else LastNamed(frames)
    ensures InboundTrace(frames + [last], peer) == InboundTrace(frames, peer)
      + FrameTrace(last, FirstNamed(frames).None?, LastNamed(frames + [last]), peer)
  {
    assert (frames + [last])[..|frames|] == frames;
  }

  lemma OneMoreReply(replies: seq<Reply>, last: Reply)
    ensures DeliveryTrace(replies + [last]) == DeliveryTrace(replies)
      + if last.Ok? && last.value.receivedMessages != [] then [|last.value.receivedMessages|] else []
  {
    assert (replies + [last])[..|replies|] == replies;
  }

  /** Opens and acks already decided on but not yet offered. */
  function PendingInbound(st: Stream): seq<Observation> {
    match st.inbound
    case Opening(request) => [ConsumerOpen(request.subscription, st.peer)] + AckOf(request, st.latch, st.peer)
    case Acking(request) => AckOf(request, st.latch, st.peer)
    case _ => []
  }

  function PendingDelivery(st: Stream): seq<nat> {
    if st.outbound.Delivering? && st.outbound.response.receivedMessages != []
    then [|st.outbound.response.receivedMessages|] else []
  }

  ghost predicate NoClose(events: seq<Observation>) {
    forall o :: o in events ==> !o.ConsumerClose?
  }

  /** The close, if any, is the stream's last event. */
  ghost predicate ClosesLast(st: Stream) {
    if st.phase.Closed? && st.announced
    then st.events != [] && NoClose(st.events[..|st.events| - 1])
      && st.events[|st.events| - 1] == ConsumerClose(st.latch, st.peer)
    else NoClose(st.events)
  }

  ghost predicate Latched(st: Stream) {
    && st.latch == LastNamed(st.up.read)
    && (st.announced <==> FirstNamed(st.up.read).Some?)
    && (st.inbound.Opening? ==> st.inbound.request.subscription == st.latch && st.latch != "")
    && (!st.phase.Running? ==> InboundAwaits(st) && OutboundAwaits(st))
  }

  /** What was offered and what is about to be offered are what the frames call for. */
  ghost predicate Tally(events: seq<Observation>, pending: seq<Observation>, frames: seq<Request>, peer: Peer) {
    OpensAndAcks(events) + pending == InboundTrace(frames, peer)
  }

  ghost predicate InboundReported(st: Stream) {
    Tally(st.events, PendingInbound(st), st.up.read, st.peer)
  }

  ghost predicate DeliveryTally(events: seq<Observation>, pending: seq<nat>, replies: seq<Reply>) {
    Deliveries(events) + pending == DeliveryTrace(replies)
  }

  ghost predicate OutboundReported(st: Stream) {
    DeliveryTally(st.events, PendingDelivery(st), st.down.read)
  }

  // ---- What each action touches ----

  /** The observation an action offers, if any. */
  function EmittedBy(st: Stream, a: Action): seq<Observation> {
    if !Enabled(st, a) then []
    else
      match a
      case InboundPump(EmitOpen) => [ConsumerOpen(st.inbound.request.subscription, st.peer)]
      case InboundPump(EmitAck) => AckOf(st.inbound.request, st.latch, st.peer)
      case OutboundPump(EmitDeliver) => DeliverOf(st.outbound.response, st.latch, st.peer)
      case Finish => if st.announced then [ConsumerClose(st.latch, st.peer)] else []
      case _ => []
  }

  lemma InboundTouches(st: Stream, a: InboundAction)
    requires InboundEnabled(st, a)
    ensures var after := AfterInbound(st, a);
      && after.events == st.events + EmittedBy(st, InboundPump(a))
      && after.peer == st.peer && after.outbound == st.outbound && after.down == st.down && !after.phase.Closed?
      && (!a.ClientSends? ==>
            after.latch == st.latch && after.announced == st.announced && after.up.read == st.up.read)
  {
    assert st.events + [] == st.events;
  }

  lemma OutboundTouches(st: Stream, a: OutboundAction)
    requires OutboundEnabled(st, a)
    ensures var after := AfterOutbound(st, a);
      && after.events == st.events + EmittedBy(st, OutboundPump(a))
      && after.peer == st.peer && after.inbound == st.inbound && after.up == st.up && !after.phase.Closed?
      && after.latch == st.latch && after.announced == st.announced
  {
    assert st.events + [] == st.events;
  }

  lemma FinishTouches(st: Stream)
    requires st.phase.Closing?
    ensures Finished(st) == st.(events := st.events + EmittedBy(st, Finish), phase := Closed)
  {
    assert st.events + [] == st.events;
  }

  lemma EventsGrow(st: Stream, a: Action)
    ensures Step(st, a).events == st.events + EmittedBy(st, a) && |EmittedBy(st, a)| <= 1
    ensures Step(st, a).peer == st.peer
  {
    if Enabled(st, a) {
      match a
      case InboundPump(i) => InboundTouches(st, i);
      case OutboundPump(o) => OutboundTouches(st, o);
      case Finish => FinishTouches(st);
      case FarEnd(f) => FarTouchesChannels(st, f);
    }
  }

  // ---- The latch ----

  lemma InboundLatched(st: Stream, a: InboundAction)
    requires InboundEnabled(st, a) && Latched(st)
    ensures Latched(AfterInbound(st, a))
  {
    if a.ClientSends? { OneMoreFrame(st.up.read, a.request, st.peer); }
  }

  lemma OutboundLatched(st: Stream, a: OutboundAction)
    requires OutboundEnabled(st, a) && Latched(st)
    ensures Latched(AfterOutbound(st, a))
  {
    OutboundTouches(st, a);
  }

  lemma LatchedStep(st: Stream, a: Action)
    requires Latched(st)
    ensures Latched(Step(st, a))
  {
    if Enabled(st, a) {
      match a
      case InboundPump(i) => InboundLatched(st, i);
      case OutboundPump(o) => OutboundLatched(st, o);
      case FarEnd(f) => FarTouchesChannels(st, f);
      case Finish => FinishTouches(st);
    }
  }

  // ---- Opens and acks are accounted for ----

  lemma TallyFrame(events: seq<Observation>, frames: seq<Request>, last: Request, peer: Peer)
    requires Tally(events, [], frames, peer)
    ensures Tally(events, FrameTrace(last, FirstNamed(frames).None?, LastNamed(frames + [last]), peer), frames + [last], peer)
  {
    OneMoreFrame(frames, last, peer);
    assert OpensAndAcks(events) + [] == OpensAndAcks(events);
  }

  lemma TallyOffered(events: seq<Observation>, o: Observation, pending: seq<Observation>, frames: seq<Request>, peer: Peer)
    requires Tally(events, [o] + pending, frames, peer) && (o.ConsumerOpen? || o.Ack?)
    ensures Tally(events + [o], pending, frames, peer)
  {
    OneMoreEvent(events, o);
    assert OpensAndAcks(events) + ([o] + pending) == OpensAndAcks(events) + [o] + pending;
  }

  lemma TallyAcks(events: seq<Observation>, request: Request, latch: string, frames: seq<Request>, peer: Peer)
    requires Tally(events, AckOf(request, latch, peer), frames, peer)
    ensures Tally(events + AckOf(request, latch, peer), [], frames, peer)
  {
    if request.ackIds == [] {
      assert events + [] == events;
    } else {
      var ack := Ack(latch, peer, |request.ackIds|);
      assert [ack] == [ack] + [];
      TallyOffered(events, ack, [], frames, peer);
    }
  }

  /** Deliveries and closes do not matter here. */
  lemma TallyElse(events: seq<Observation>, more: seq<Observation>, pending: seq<Observation>, frames: seq<Request>, peer: Peer)
    requires Tally(events, pending, frames, peer)
    requires more == [] || (|more| == 1 && (more[0].Deliver? || more[0].ConsumerClose?))
    ensures Tally(events + more, pending, frames, peer)
  {
    if more == [] {
      assert events + more == events;
    } else {
      assert more == [more[0]];
      OneMoreEvent(events, more[0]);
    }
  }

  lemma FrameReported(st: Stream, request: Request)
    requires InboundEnabled(st, ClientSends(request)) && Latched(st) && InboundReported(st)
    ensures InboundReported(AfterInbound(st, ClientSends(request)))
  {
    TallyFrame(st.events, st.up.read, request, st.peer);
    OneMoreFrame(st.up.read, request, st.peer);
    var after := AfterInbound(st, ClientSends(request));
    assert [] + AckOf(request, after.latch, st.peer) == AckOf(request, after.latch, st.peer);
    assert PendingInbound(after) == FrameTrace(request, FirstNamed(st.up.read).None?, LastNamed(after.up.read), st.peer);
  }

  lemma OpenReported(st: Stream)
    requires InboundEnabled(st, EmitOpen) && InboundReported(st)
    ensures InboundReported(AfterInbound(st, EmitOpen))
  {
    TallyOffered(st.events, ConsumerOpen(st.inbound.request.subscription, st.peer),
                 AckOf(st.inbound.request, st.latch, st.peer), st.up.read, st.peer);
  }

  lemma AckReported(st: Stream)
    requires InboundEnabled(st, EmitAck) && InboundReported(st)
    ensures InboundReported(AfterInbound(st, EmitAck))
  {
    InboundTouches(st, EmitAck);
    TallyAcks(st.events, st.inbound.request, st.latch, st.up.read, st.peer);
  }

  lemma InboundReportsInbound(st: Stream, a: InboundAction)
    requires InboundEnabled(st, a) && Latched(st) && InboundReported(st)
    ensures InboundReported(AfterInbound(st, a))
  {
    match a
    case ClientSends(request) => FrameReported(st, request);
    case EmitOpen => OpenReported(st);
    case EmitAck => AckReported(st);
    case ClientEnds =>
    case ForwardRequest => InboundTouches(st, a);
  }

  lemma OutboundReportsInbound(st: Stream, a: OutboundAction)
    requires OutboundEnabled(st, a) && InboundReported(st)
    ensures InboundReported(AfterOutbound(st, a))
  {
    OutboundTouches(st, a);
    TallyElse(st.events, EmittedBy(st, OutboundPump(a)), PendingInbound(st), st.up.read, st.peer);
    assert PendingInbound(AfterOutbound(st, a)) == PendingInbound(st);
  }

  lemma FinishReportsInbound(st: Stream)
    requires st.phase.Closing? && InboundReported(st)
    ensures InboundReported(Finished(st))
  {
    FinishTouches(st);
    TallyElse(st.events, EmittedBy(st, Finish), PendingInbound(st), st.up.read, st.peer);
    assert PendingInbound(Finished(st)) == PendingInbound(st);
  }

  lemma FarReportsInbound(st: Stream, a: FarAction)
    requires FarEnabled(st, a) && InboundReported(st)
    ensures InboundReported(AfterFar(st, a))
  {
    FarTouchesChannels(st, a);
    assert PendingInbound(AfterFar(st, a)) == PendingInbound(st);
  }

  lemma InboundReportedStep(st: Stream, a: Action)
    requires Latched(st) && InboundReported(st)
    ensures InboundReported(Step(st, a))
  {
    if Enabled(st, a) {
      match a
      case InboundPump(i) => InboundReportsInbound(st, i);
      case OutboundPump(o) => OutboundReportsInbound(st, o);
      case Finish => FinishReportsInbound(st);
      case FarEnd(f) => FarReportsInbound(st, f);
    }
  }

  // ---- Deliveries are accounted for ----

  lemma DeliveriesElse(events: seq<Observation>, more: seq<Observation>)
    requires more == [] || (|more| == 1 && !more[0].Deliver?)
    ensures Deliveries(events + more) == Deliveries(events)
  {
    if more == [] {
      assert events + more == events;
    } else {
      assert more == [more[0]];
      OneMoreEvent(events, more[0]);
    }
  }

  lemma InboundReportsOutbound(st: Stream, a: InboundAction)
    requires InboundEnabled(st, a) && OutboundReported(st)
    ensures OutboundReported(AfterInbound(st, a))
  {
    InboundTouches(st, a);
    DeliveriesElse(st.events, EmittedBy(st, InboundPump(a)));
  }

  lemma DeliveryReported(st: Stream)
    requires OutboundEnabled(st, EmitDeliver) && OutboundReported(st)
    ensures OutboundReported(AfterOutbound(st, EmitDeliver))
  {
    OneMoreEvent(st.events, Deliver(st.latch, st.peer, |st.outbound.response.receivedMessages|));
  }

  lemma TallyReply(events: seq<Observation>, replies: seq<Reply>, reply: Reply)
    requires DeliveryTally(events, [], replies)
    ensures DeliveryTally(events,
      if reply.Ok? && reply.value.receivedMessages != [] then [|reply.value.receivedMessages|] else [], replies + [reply])
  {
    OneMoreReply(replies, reply);
    assert Deliveries(events) + [] == Deliveries(events);
  }

  lemma ReplyReported(st: Stream, a: OutboundAction, reply: Reply)
    requires OutboundEnabled(st, a) && OutboundReported(st)
    requires a == (match reply case Ok(response) => UpstreamReplies(response) case Err(error) => UpstreamFails(error))
      || (reply.Err? && a == UpstreamRejects(reply.error))
    ensures OutboundReported(AfterOutbound(st, a))
  {
    TallyReply(st.events, st.down.read, reply);
    var after := AfterOutbound(st, a);
    assert after.events == st.events && after.down.read == st.down.read + [reply];
  }

  lemma ForwardReported(st: Stream)
    requires OutboundEnabled(st, ForwardReply) && OutboundReported(st)
    ensures OutboundReported(AfterOutbound(st, ForwardReply))
  {
  }

  lemma OutboundReportsOutbound(st: Stream, a: OutboundAction)
    requires OutboundEnabled(st, a) && OutboundReported(st)
    ensures OutboundReported(AfterOutbound(st, a))
  {
    match a
    case UpstreamAccepts =>
    case UpstreamRejects(status) => ReplyReported(st, a, Err(status));
    case UpstreamFails(error) => ReplyReported(st, a, Err(error));
    case UpstreamReplies(response) => ReplyReported(st, a, Ok(response));
    case UpstreamEnds =>
    case EmitDeliver => DeliveryReported(st);
    case ForwardReply => ForwardReported(st);
  }

  lemma FinishReportsOutbound(st: Stream)
    requires st.phase.Closing? && OutboundReported(st)
    ensures OutboundReported(Finished(st))
  {
    FinishTouches(st);
    DeliveriesElse(st.events, EmittedBy(st, Finish));
  }

  lemma FarReportsOutbound(st: Stream, a: FarAction)
    requires FarEnabled(st, a) && OutboundReported(st)
    ensures OutboundReported(AfterFar(st, a))
  {
    FarTouchesChannels(st, a);
    assert PendingDelivery(AfterFar(st, a)) == PendingDelivery(st);
  }

  lemma OutboundReportedStep(st: Stream, a: Action)
    requires OutboundReported(st)
    ensures OutboundReported(Step(st, a))
  {
    if Enabled(st, a) {
      match a
      case InboundPump(i) => InboundReportsOutbound(st, i);
      case OutboundPump(o) => OutboundReportsOutbound(st, o);
      case Finish => FinishReportsOutbound(st);
      case FarEnd(f) => FarReportsOutbound(st, f);
    }
  }

  // ---- The close comes last ----

  lemma NoCloseMore(events: seq<Observation>, more: seq<Observation>)
    requires NoClose(events) && NoClose(more)
    ensures NoClose(events + more)
  {
  }

  lemma FinishClosesLast(st: Stream)
    requires st.phase.Closing? && ClosesLast(st)
    ensures ClosesLast(Finished(st))
  {
    FinishTouches(st);
    if st.announced {
      assert Finished(st).events[..|st.events|] == st.events;
    } else {
      assert st.events + [] == st.events;
    }
  }

  lemma ClosesLastStep(st: Stream, a: Action)
    requires ClosesLast(st)
    ensures ClosesLast(Step(st, a))
  {
    if Enabled(st, a) {
      match a
      case InboundPump(i) =>
        InboundTouches(st, i);
        NoCloseMore(st.events, EmittedBy(st, a));
      case OutboundPump(o) =>
        OutboundTouches(st, o);
        NoCloseMore(st.events, EmittedBy(st, a));
      case Finish => FinishClosesLast(st);
      case FarEnd(f) => FarTouchesChannels(st, f);
    }
  }

  // ---- Every event names what the client last named ----

  /** The observations a stream makes. */
  predicate NamesStream(o: Observation) {
    o.ConsumerOpen? || o.ConsumerClose? || o.Ack? || o.Deliver?
  }

  /** `o` is about the subscription last named in `frames`. */
  ghost predicate NamesLatest(o: Observation, frames: seq<Request>, peer: Peer) {
    && NamesStream(o)
    && o.subscription == LastNamed(frames) && o.peer == peer
  }

  /** Each event names the subscription last named in the frames read up to some
      point, and those points never go back. */
  ghost predicate NamedInOrder(events: seq<Observation>, frames: seq<Request>, peer: Peer)
    decreases |events|
  {
    events == [] || (exists k ::
      && 0 <= k <= |frames|
      && NamesLatest(events[|events| - 1], frames[..k], peer)
      && NamedInOrder(events[..|events| - 1], frames[..k], peer))
  }

  lemma NamedMoreFrames(events: seq<Observation>, frames: seq<Request>, last: Request, peer: Peer)
    requires NamedInOrder(events, frames, peer)
    ensures NamedInOrder(events, frames + [last], peer)
  {
    if events != [] {
      var k :| 0 <= k <= |frames| && NamesLatest(events[|events| - 1], frames[..k], peer)
        && NamedInOrder(events[..|events| - 1], frames[..k], peer);
      assert (frames + [last])[..k] == frames[..k];
    }
  }

  lemma NamedMoreEvents(events: seq<Observation>, more: seq<Observation>, frames: seq<Request>, peer: Peer)
    requires NamedInOrder(events, frames, peer)
    requires more == [] || (|more| == 1 && NamesLatest(more[0], frames, peer))
    ensures NamedInOrder(events + more, frames, peer)
  {
    if more == [] {
      assert events + more == events;
    } else {
      assert (events + more)[..|events|] == events && frames[..|frames|] == frames;
    }
  }

  /** What an action reports is about the subscription last named by then. */
  lemma EmitsLatest(st: Stream, a: Action)
    requires Latched(st)
    ensures EmittedBy(st, a) == [] || NamesLatest(EmittedBy(st, a)[0], st.up.read, st.peer)
  {
  }

  lemma ReadsOnlyFrames(st: Stream, a: Action)
    requires !(Enabled(st, a) && a.InboundPump? && a.inbound.ClientSends?)
    ensures Step(st, a).up.read == st.up.read
  {
    if Enabled(st, a) {
      match a
      case InboundPump(i) => InboundTouches(st, i);
      case OutboundPump(o) => OutboundTouches(st, o);
      case Finish => FinishTouches(st);
      case FarEnd(f) => FarTouchesChannels(st, f);
    }
  }

  lemma NamedStep(st: Stream, a: Action)
    requires Latched(st) && NamedInOrder(st.events, st.up.read, st.peer)
    ensures var after := Step(st, a); NamedInOrder(after.events, after.up.read, after.peer)
  {
    EventsGrow(st, a);
    EmitsLatest(st, a);
    NamedMoreEvents(st.events, EmittedBy(st, a), st.up.read, st.peer);
    if Enabled(st, a) && a.InboundPump? && a.inbound.ClientSends? {
      assert st.events + [] == st.events;
      NamedMoreFrames(st.events, st.up.read, a.inbound.request, st.peer);
    } else {
      ReadsOnlyFrames(st, a);
    }
  }

  lemma {:induction false} ReportedAlways(peer: Peer, actions: seq<Action>)
    ensures var st := Exec(Start(peer), actions);
      Latched(st) && InboundReported(st) && OutboundReported(st) && ClosesLast(st)
    ensures var st := Exec(Start(peer), actions);
      st.peer == peer && NamedInOrder(st.events, st.up.read, peer)
    decreases |actions|
  {
    if actions != [] {
      var before, a := Exec(Start(peer), actions[..|actions| - 1]), actions[|actions| - 1];
      ReportedAlways(peer, actions[..|actions| - 1]);
      LatchedStep(before, a);
      InboundReportedStep(before, a);
      OutboundReportedStep(before, a);
      ClosesLastStep(before, a);
      EventsGrow(before, a);
      NamedStep(before, a);
    }
  }

  /** In every run, whatever an action reports is about the subscription the client
      has last named in the frames read so far. */
  lemma ReportsLatestName(peer: Peer, actions: seq<Action>, a: Action)
    ensures var st := Exec(Start(peer), actions);
      && Step(st, a).events == st.events + EmittedBy(st, a)
      && (EmittedBy(st, a) == [] || NamesLatest(EmittedBy(st, a)[0], st.up.read, peer))
  {
    var st := Exec(Start(peer), actions);
    ReportedAlways(peer, actions);
    EventsGrow(st, a);
    EmitsLatest(st, a);
  }

  // ---- Completed streams ----

  /** The subscriptions opened by `events`, in order. */
  function OpensIn(events: seq<Observation>): seq<string> {
    if events == [] then []
    else
      var before, last := OpensIn(events[..|events| - 1]), events[|events| - 1];
      if last.ConsumerOpen? then before + [last.subscription] else before
  }

  /** The number of messages acknowledged by `events`. */
  function AckedIn(events: seq<Observation>): nat {
    if events == [] then 0
    else
      var before, last := AckedIn(events[..|events| - 1]), events[|events| - 1];
      if last.Ack? then before + last.count else before
  }

  function AckIdsIn(frames: seq<Request>): nat {
    if frames == [] then 0
    else AckIdsIn(frames[..|frames| - 1]) + |frames[|frames| - 1].ackIds|
  }

  lemma CountOneMore(events: seq<Observation>, o: Observation)
    ensures OpensIn(events + [o]) == if o.ConsumerOpen? then OpensIn(events) + [o.subscription] else OpensIn(events)
    ensures AckedIn(events + [o]) == if o.Ack? then AckedIn(events) + o.count else AckedIn(events)
  {
    assert (events + [o])[..|events|] == events;
  }

  lemma {:induction false} CountFiltered(events: seq<Observation>)
    ensures OpensIn(OpensAndAcks(events)) == OpensIn(events)
    ensures AckedIn(OpensAndAcks(events)) == AckedIn(events)
  {
    if events != [] {
      var before, last := events[..|events| - 1], events[|events| - 1];
      CountFiltered(before);
      CountOneMore(OpensAndAcks(before), last);
    }
  }

  /** One frame adds at most its open, and its acks. */
  lemma CountFrame(trace: seq<Observation>, request: Request, unnamed: bool, latch: string, peer: Peer)
    ensures var after := trace + FrameTrace(request, unnamed, latch, peer);
      && OpensIn(after) == OpensIn(trace) + (if request.subscription != "" && unnamed then [request.subscription] else [])
      && AckedIn(after) == AckedIn(trace) + |request.ackIds|
  {
    var opens := if request.subscription != "" && unnamed then [ConsumerOpen(request.subscription, peer)] else [];
    var acks := AckOf(request, latch, peer);
    assert trace + [] == trace && trace + opens + [] == trace + opens;
    CountOneMore(trace, ConsumerOpen(request.subscription, peer));
    CountOneMore(trace + opens, Ack(latch, peer, |request.ackIds|));
    assert trace + (opens + acks) == trace + opens + acks;
  }

  lemma {:induction false} CountTrace(frames: seq<Request>, peer: Peer)
    ensures OpensIn(InboundTrace(frames, peer)) == if FirstNamed(frames).Some? then [FirstNamed(frames).value] else []
    ensures AckedIn(InboundTrace(frames, peer)) == AckIdsIn(frames)
  {
    if frames != [] {
      var before, last := frames[..|frames| - 1], frames[|frames| - 1];
      CountTrace(before, peer);
      assert frames == before + [last];
      OneMoreFrame(before, last, peer);
      CountFrame(InboundTrace(before, peer), last, FirstNamed(before).None?, LastNamed(frames), peer);
    }
  }

  lemma {:induction false} NamedOnceNamedLast(frames: seq<Request>)
    ensures FirstNamed(frames).Some? <==> LastNamed(frames) != ""
    ensures FirstNamed(frames).Some? ==> FirstNamed(frames).value != ""
  {
    if frames != [] {
      NamedOnceNamedLast(frames[..|frames| - 1]);
    }
  }

  /** A completed stream opens at most once, closes if and only if it opened and
      only as its last event, and accounts for every ack id and delivery. */
  lemma CompletedStream(peer: Peer, actions: seq<Action>)
    requires Exec(Start(peer), actions).phase.Closed?
    ensures var st := Exec(Start(peer), actions);
      var first := FirstNamed(st.up.read);
      && OpensAndAcks(st.events) == InboundTrace(st.up.read, st.peer)
      && Deliveries(st.events) == DeliveryTrace(st.down.read)
      && NamedInOrder(st.events, st.up.read, peer)
      && OpensIn(st.events) == (if first.Some? then [first.value] else [])
      && AckedIn(st.events) == AckIdsIn(st.up.read)
      && (first.None? ==> NoClose(st.events))
      && (first.Some? ==>
            && st.events != [] && NoClose(st.events[..|st.events| - 1])
            && st.events[|st.events| - 1] == ConsumerClose(LastNamed(st.up.read), st.peer))
  {
    var st := Exec(Start(peer), actions);
    ReportedAlways(peer, actions);
    CountFiltered(st.events);
    CountTrace(st.up.read, st.peer);
  }

  /** The close names the subscription that was opened exactly when the last
      subscription the client named is the first one. */
  lemma CloseMatchesOpen(peer: Peer, actions: seq<Action>)
    requires Exec(Start(peer), actions).phase.Closed?
    ensures var st := Exec(Start(peer), actions);
      OpensIn(st.events) != [] ==>
        && st.events != [] && st.events[|st.events| - 1].ConsumerClose?
        && ((st.events[|st.events| - 1].subscription == OpensIn(st.events)[0])
            <==> (FirstNamed(st.up.read) == Some(LastNamed(st.up.read))))
  {
    CompletedStream(peer, actions);
  }

  /** A run may equally be unrolled from its first action. */
  lemma {:induction false} ExecFirst(st: Stream, actions: seq<Action>)
    requires actions != []
    ensures Exec(st, actions) == Exec(Step(st, actions[0]), actions[1..])
    decreases |actions|
  {
    if |actions| > 1 {
      ExecFirst(st, actions[..|actions| - 1]);
      assert actions[1..][..|actions| - 2] == actions[..|actions| - 1][1..];
    }
  }

  lemma ExecTwo(st: Stream, a: Action, b: Action)
    ensures Exec(st, [a, b]) == Step(Step(st, a), b)
  {
    ExecFirst(st, [a, b]);
    ExecFirst(Step(st, a), [b]);
    assert [a, b][1..] == [b] && [b][1..] == [];
  }

  lemma {:induction false} ExecSplit(st: Stream, first: seq<Action>, second: seq<Action>)
    ensures Exec(st, first + second) == Exec(Exec(st, first), second)
    decreases |second|
  {
    if second == [] {
      assert first + second == first;
    } else {
      assert (first + second)[..|first + second| - 1] == first + second[..|second| - 1];
      ExecSplit(st, first, second[..|second| - 1]);
    }
  }

  /** The actions that carry one frame from the client into the channel. */
  function OneFrame(r: Request): seq<Action> {
    [InboundPump(ClientSends(r)), InboundPump(EmitOpen)] + [InboundPump(EmitAck), InboundPump(ForwardRequest)]
  }

  /** The stream once a frame has been latched and its open, if due, reported. */
  function AfterNaming(st: Stream, r: Request): Stream {
    var latch := if r.subscription != "" then r.subscription else st.latch;
    st.(latch := latch, announced := st.announced || r.subscription != "", inbound := Acking(r), up := Read(st.up, r),
        events := st.events
          + if r.subscription != "" && !st.announced then [ConsumerOpen(r.subscription, st.peer)] else [])
  }

  lemma NamingRuns(st: Stream, r: Request)
    requires InboundEnabled(st, ClientSends(r))
    ensures Exec(st, [InboundPump(ClientSends(r)), InboundPump(EmitOpen)]) == AfterNaming(st, r)
  {
    ExecTwo(st, InboundPump(ClientSends(r)), InboundPump(EmitOpen));
    assert st.events + [] == st.events;
  }

  lemma AckingRuns(st: Stream)
    requires InboundEnabled(st, EmitAck) && SendReady(st.up)
    ensures var acked := st.events + AckOf(st.inbound.request, st.latch, st.peer);
      Exec(st, [InboundPump(EmitAck), InboundPump(ForwardRequest)]) ==
        if st.up.receiving
        then st.(events := acked, up := Sent(st.up, st.inbound.request), inbound := AwaitFrame)
        else st.(events := acked, inbound := Sending(st.inbound.request), phase := Closing)
  {
    ExecTwo(st, InboundPump(EmitAck), InboundPump(ForwardRequest));
    assert st.events + [] == st.events;
  }

  /** One frame, undisturbed: latched, reported, and forwarded or refused. */
  lemma FrameGoesThrough(st: Stream, r: Request)
    requires InboundEnabled(st, ClientSends(r)) && SendReady(st.up)
    ensures var latch := if r.subscription != "" then r.subscription else st.latch;
      var tapped := st.(latch := latch, announced := st.announced || r.subscription != "",
                        events := st.events + FrameTrace(r, !st.announced, latch, st.peer));
      Exec(st, OneFrame(r)) ==
        if st.up.receiving then tapped.(up := Sent(Read(st.up, r), r))
        else tapped.(up := Read(st.up, r), inbound := Sending(r), phase := Closing)
  {
    var named := AfterNaming(st, r);
    NamingRuns(st, r);
    AckingRuns(named);
    ExecSplit(st, [InboundPump(ClientSends(r)), InboundPump(EmitOpen)], [InboundPump(EmitAck), InboundPump(ForwardRequest)]);
    var opens := if r.subscription != "" && !st.announced then [ConsumerOpen(r.subscription, st.peer)] else [];
    assert st.events + opens + AckOf(r, named.latch, st.peer) == st.events + (opens + AckOf(r, named.latch, st.peer));
  }

  /** A client that breaks the protocol by naming a second subscription makes the
      proxy open one and close the other. */
  lemma RenamingMisreports()
    ensures var run := OneFrame(Request("a", [], "")) + OneFrame(Request("b", [], "")) + [InboundPump(ClientEnds), Finish];
      Exec(Start(None), run).events == [ConsumerOpen("a", None), ConsumerClose("b", None)]
  {
    var a, b, end := OneFrame(Request("a", [], "")), OneFrame(Request("b", [], "")), [InboundPump(ClientEnds), Finish];
    FrameGoesThrough(Start(None), Request("a", [], ""));
    FrameGoesThrough(Exec(Start(None), a), Request("b", [], ""));
    ExecSplit(Start(None), a + b, end);
    ExecSplit(Start(None), a, b);
    ExecTwo(Exec(Start(None), a + b), InboundPump(ClientEnds), Finish);
  }

  // ---- No event without a name ----

  /** The client keeps the protocol's rule that the first frame names the
      subscription, and upstream delivers nothing before it has received it. */
  ghost predicate WellBehaved(st: Stream) {
    (st.up.read != [] ==> st.up.read[0].subscription != "") && !st.eager
  }

  ghost predicate NamesSubscription(o: Observation) {
    NamesStream(o) && o.subscription != ""
  }

  ghost predicate AllNamed(st: Stream) {
    && (forall o :: o in st.events ==> NamesSubscription(o))
    && (PendingDelivery(st) != [] ==> st.latch != "")
  }

  lemma {:induction false} FirstFrameNames(frames: seq<Request>)
    requires frames != [] && frames[0].subscription != ""
    ensures LastNamed(frames) != ""
  {
    if |frames| > 1 {
      FirstFrameNames(frames[..|frames| - 1]);
    }
  }

  lemma InboundAllNamed(st: Stream, a: InboundAction)
    requires InboundEnabled(st, a) && Latched(st) && Faithful(st)
    requires WellBehaved(AfterInbound(st, a)) && AllNamed(st)
    ensures AllNamed(AfterInbound(st, a))
  {
    if st.up.read != [] && st.up.read[0].subscription != "" { FirstFrameNames(st.up.read); }
  }

  lemma OutboundAllNamed(st: Stream, a: OutboundAction)
    requires OutboundEnabled(st, a) && Latched(st) && Faithful(st)
    requires WellBehaved(AfterOutbound(st, a)) && AllNamed(st)
    ensures AllNamed(AfterOutbound(st, a))
  {
    if st.up.read != [] { FirstFrameNames(st.up.read); }
  }

  lemma FinishAllNamed(st: Stream)
    requires st.phase.Closing? && Latched(st) && AllNamed(st)
    ensures AllNamed(Finished(st))
  {
    NamedOnceNamedLast(st.up.read);
  }

  lemma AllNamedStep(st: Stream, a: Action)
    requires Latched(st) && Faithful(st)
    requires WellBehaved(Step(st, a)) && AllNamed(st)
    ensures AllNamed(Step(st, a))
  {
    if Enabled(st, a) {
      match a
      case InboundPump(i) => InboundAllNamed(st, i);
      case OutboundPump(o) => OutboundAllNamed(st, o);
      case Finish => FinishAllNamed(st);
      case FarEnd(f) => FarTouchesChannels(st, f);
    }
  }

  lemma WellBehavedBefore(st: Stream, a: Action)
    requires WellBehaved(Step(st, a))
    ensures WellBehaved(st)
  {
  }

  /** If both ends keep the protocol, no event carries an empty subscription. */
  lemma {:induction false} EveryEventNamed(peer: Peer, actions: seq<Action>)
    requires WellBehaved(Exec(Start(peer), actions))
    ensures AllNamed(Exec(Start(peer), actions))
    decreases |actions|
  {
    if actions != [] {
      var before, a := Exec(Start(peer), actions[..|actions| - 1]), actions[|actions| - 1];
      WellBehavedBefore(before, a);
      EveryEventNamed(peer, actions[..|actions| - 1]);
      ReportedAlways(peer, actions[..|actions| - 1]);
      FaithfulAlways(peer, actions[..|actions| - 1]);
      AllNamedStep(before, a);
    }
  }

  lemma {:induction false} NamesOnly(frames: seq<Request>, name: string)
    requires forall r :: r in frames ==> r.subscription == "" || r.subscription == name
    ensures LastNamed(frames) == "" || LastNamed(frames) == name
  {
    if frames != [] {
      NamesOnly(frames[..|frames| - 1], name);
    }
  }

  lemma {:induction false} OneNameInOrder(events: seq<Observation>, frames: seq<Request>, peer: Peer, name: string)
    requires NamedInOrder(events, frames, peer)
    requires forall r :: r in frames ==> r.subscription == "" || r.subscription == name
    ensures forall o :: o in events ==> NamesStream(o) && (o.subscription == "" || o.subscription == name)
    decreases |events|
  {
    if events != [] {
      var before, last := events[..|events| - 1], events[|events| - 1];
      var k :| 0 <= k <= |frames| && NamesLatest(last, frames[..k], peer) && NamedInOrder(before, frames[..k], peer);
      NamesOnly(frames[..k], name);
      OneNameInOrder(before, frames[..k], peer, name);
      assert events == before + [last];
    }
  }

  /** A stream that names one subscription has all its events, deliveries included,
      attributed to it; before the name is known, to none. */
  lemma OneNameThroughout(peer: Peer, actions: seq<Action>, name: string)
    requires forall r :: r in Exec(Start(peer), actions).up.read ==> r.subscription == "" || r.subscription == name
    ensures var st := Exec(Start(peer), actions); forall o :: o in st.events ==>
      && NamesStream(o) && (o.subscription == "" || o.subscription == name)
      && (WellBehaved(st) ==> o.subscription == name)
  {
    var st := Exec(Start(peer), actions);
    ReportedAlways(peer, actions);
    OneNameInOrder(st.events, st.up.read, peer, name);
    if WellBehaved(st) { EveryEventNamed(peer, actions); }
  }

  /** With no assumption on either end: what is reported carries no subscription exactly
      as long as the client has named none. */
  lemma UnnamedExactly(peer: Peer, actions: seq<Action>, a: Action)
    ensures var st := Exec(Start(peer), actions);
      EmittedBy(st, a) != [] ==> (EmittedBy(st, a)[0].subscription == "" <==> FirstNamed(st.up.read).None?)
  {
    ReportsLatestName(peer, actions, a);
    NamedOnceNamedLast(Exec(Start(peer), actions).up.read);
  }

  /** A client that acknowledges before it names a subscription is counted for none. */
  lemma UnnamedMisreports()
    ensures var run := [InboundPump(ClientSends(Request("", ["a"], ""))), InboundPump(EmitAck)];
      Exec(Start(None), run).events == [Ack("", None, 1)]
  {
    ExecTwo(Start(None), InboundPump(ClientSends(Request("", ["a"], ""))), InboundPump(EmitAck));
  }

  // ---- The bound is reached ----

  /** Frames that name nothing and acknowledge nothing, with upstream slow to take any. */
  lemma {:induction false} ChannelFills(peer: Peer, n: nat) returns (run: seq<Action>)
    requires n <= STREAM_BUFFER
    ensures var st := Exec(Start(peer), run);
      && st.phase.Running? && st.inbound.AwaitFrame? && OutboundAwaits(st) && st.up.receiving
      && |st.up.read| == n && |st.up.channel| == n && st.up.got == []
  {
    if n == 0 {
      run := [];
    } else {
      var before := ChannelFills(peer, n - 1);
      run := before + OneFrame(Request("", [], ""));
      ExecSplit(Start(peer), before, OneFrame(Request("", [], "")));
      FrameGoesThrough(Exec(Start(peer), before), Request("", [], ""));
    }
  }

  /** A slow upstream really can be a full channel and one frame behind. */
  lemma TransparencyIsTight(peer: Peer) returns (run: seq<Action>)
    ensures var st := Exec(Start(peer), run); |st.up.read| - |st.up.got| == STREAM_BUFFER + 1
  {
    var full := ChannelFills(peer, STREAM_BUFFER);
    var more := [InboundPump(ClientSends(Request("", [], "")))];
    run := full + more;
    ExecSplit(Start(peer), full, more);
    ExecFirst(Exec(Start(peer), full), more);
    assert more[1..] == [];
  }
}
