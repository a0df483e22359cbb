/** Conversion between the in-process state and the wire snapshot. Clock readings
    cross as ages in whole milliseconds and are rebuilt on the receiver's clock. */
module Convert {
  import opened Basics
  import opened State

  datatype WirePublisher = WirePublisher(published: nat, millisSinceLastSeen: u64)

  datatype WireTopic = WireTopic(present: bool, publishCount: nat, publishers: map<string, WirePublisher>)

  datatype WireSubscription =
    WireSubscription(present: bool, topic: Option<string>, delivered: nat, acked: nat, liveConsumers: nat)

  datatype WireAttribute = WireAttribute(key: string, value: string)

  datatype WireMessage = WireMessage(
    seqNo: nat,
    topic: string,
    data: seq<byte>,
    attributes: seq<WireAttribute>,
    originalLen: nat,
    truncated: bool,
    millisSinceSeen: u64)

  datatype WireSnapshot = WireSnapshot(
    topics: map<string, WireTopic>,
    subscriptions: map<string, WireSubscription>,
    recentMessages: seq<WireMessage>,
    recentBufferCapacity: nat)

  // ---- Clock readings ----

  /** Age of `then_` at `now`, zero if it lies in the future. */
  function Age(then_: Instant, now: Instant): nat {
    if now >= then_ then now - then_ else 0
  }

  /** An age in whole milliseconds, saturating at the wire's integer width. */
  function AgeMillis(then_: Instant, now: Instant): u64 {
    Min(Age(then_, now) / NANOS_PER_MILLI, U64_LIMIT - 1)
  }

  /** Subtraction that fails past the earliest representable instant. */
  function CheckedSub(now: Instant, nanos: nat): Option<Instant> {
    if nanos <= now then Some(now - nanos) else None
  }

  /** The instant a received age stands for, or `now` if there is none. */
  function Rebuilt(millis: u64, now: Instant): Instant {
    match CheckedSub(now, millis * NANOS_PER_MILLI)
    case Some(t) => t
    case None => now
  }

  // ---- Encoding ----

  function PublisherToWire(p: Publisher, now: Instant): WirePublisher {
    WirePublisher(p.published, AgeMillis(p.lastSeen, now))
  }

  function TopicToWire(t: Topic, now: Instant): WireTopic {
    WireTopic(t.present, t.publishCount, map peer | peer in t.publishers :: PublisherToWire(t.publishers[peer], now))
  }

  function SubscriptionToWire(s: Subscription): WireSubscription {
    WireSubscription(s.present, s.topic, s.delivered, s.acked, s.liveConsumers)
  }

  function AttributesToWire(attributes: seq<(string, string)>): seq<WireAttribute> {
    seq(|attributes|, i requires 0 <= i < |attributes| => WireAttribute(attributes[i].0, attributes[i].1))
  }

  function MessageToWire(m: RecentMessage, now: Instant): WireMessage {
    WireMessage(m.seqNo, m.topic, m.data, AttributesToWire(m.attributes), m.originalLen, m.truncated,
                AgeMillis(m.seen, now))
  }

  function ToWire(s: Snapshot, now: Instant): WireSnapshot {
    WireSnapshot(
      map name | name in s.topics :: TopicToWire(s.topics[name], now),
      map name | name in s.subscriptions :: SubscriptionToWire(s.subscriptions[name]),
      seq(|s.recentMessages|, i requires 0 <= i < |s.recentMessages| => MessageToWire(s.recentMessages[i], now)),
      s.recentBufferCapacity)
  }

  // ---- Decoding ----

  function PublisherFromWire(p: WirePublisher, now: Instant): Publisher {
    Publisher(p.published, Rebuilt(p.millisSinceLastSeen, now))
  }

  function TopicFromWire(t: WireTopic, now: Instant): Topic {
    Topic(t.present, t.publishCount, map peer | peer in t.publishers :: PublisherFromWire(t.publishers[peer], now))
  }

  function SubscriptionFromWire(s: WireSubscription): Subscription {
    Subscription(s.present, s.topic, s.delivered, s.acked, s.liveConsumers)
  }

  function AttributesFromWire(attributes: seq<WireAttribute>): seq<(string, string)> {
    seq(|attributes|, i requires 0 <= i < |attributes| => (attributes[i].key, attributes[i].value))
  }

  function MessageFromWire(m: WireMessage, now: Instant): RecentMessage {
    RecentMessage(m.seqNo, m.topic, m.data, AttributesFromWire(m.attributes), m.originalLen, m.truncated,
                  Rebuilt(m.millisSinceSeen, now))
  }

  function FromWire(w: WireSnapshot, now: Instant): Snapshot {
    Snapshot(
      map name | name in w.topics :: TopicFromWire(w.topics[name], now),
      map name | name in w.subscriptions :: SubscriptionFromWire(w.subscriptions[name]),
      seq(|w.recentMessages|, i requires 0 <= i < |w.recentMessages| => MessageFromWire(w.recentMessages[i], now)),
      w.recentBufferCapacity,
      0)
  }

  // ---- Wire to state and back ----

  /** The clock can represent the instant an age stands for. */
  predicate Representable(millis: u64, now: Instant) {
    millis * NANOS_PER_MILLI <= now
  }

  ghost predicate AllRepresentable(w: WireSnapshot, now: Instant) {
    && (forall name, peer :: name in w.topics && peer in w.topics[name].publishers ==>
          Representable(w.topics[name].publishers[peer].millisSinceLastSeen, now))
    && (forall i :: 0 <= i < |w.recentMessages| ==> Representable(w.recentMessages[i].millisSinceSeen, now))
  }

  lemma AgeRoundTrip(millis: u64, now: Instant)
    ensures AgeMillis(Rebuilt(millis, now), now) == millis <==> Representable(millis, now)
  {
    if Representable(millis, now) {
      assert Age(Rebuilt(millis, now), now) == millis * NANOS_PER_MILLI;
    }
  }

  lemma TopicRoundTrip(t: WireTopic, now: Instant)
    ensures TopicToWire(TopicFromWire(t, now), now) == t <==>
      forall peer :: peer in t.publishers ==> Representable(t.publishers[peer].millisSinceLastSeen, now)
  {
    var back := TopicToWire(TopicFromWire(t, now), now);
    forall peer | peer in t.publishers
      ensures back.publishers[peer] == t.publishers[peer] <==> Representable(t.publishers[peer].millisSinceLastSeen, now)
    {
      AgeRoundTrip(t.publishers[peer].millisSinceLastSeen, now);
    }
    if forall peer :: peer in t.publishers ==> Representable(t.publishers[peer].millisSinceLastSeen, now) {
      assert back.publishers == t.publishers;
    }
  }

  lemma MessageRoundTrip(m: WireMessage, now: Instant)
    ensures MessageToWire(MessageFromWire(m, now), now) == m <==> Representable(m.millisSinceSeen, now)
  {
    AgeRoundTrip(m.millisSinceSeen, now);
    assert AttributesToWire(AttributesFromWire(m.attributes)) == m.attributes;
  }

  /** Decoding and re-encoding at the same instant gives back the very same wire
      snapshot, exactly when the clock can represent every age in it. */
  lemma WireRoundTrip(w: WireSnapshot, now: Instant)
    ensures ToWire(FromWire(w, now), now) == w <==> AllRepresentable(w, now)
  {
    var back := ToWire(FromWire(w, now), now);
    forall name | name in w.topics
      ensures back.topics[name] == w.topics[name] <==>
        forall peer :: peer in w.topics[name].publishers ==>
          Representable(w.topics[name].publishers[peer].millisSinceLastSeen, now)
    {
      TopicRoundTrip(w.topics[name], now);
    }
    forall i | 0 <= i < |w.recentMessages|
      ensures back.recentMessages[i] == w.recentMessages[i] <==> Representable(w.recentMessages[i].millisSinceSeen, now)
    {
      MessageRoundTrip(w.recentMessages[i], now);
    }
    assert back.subscriptions == w.subscriptions;
    if AllRepresentable(w, now) {
      assert back.topics == w.topics && back.recentMessages == w.recentMessages;
    }
  }

  // ---- State to wire and back, on another clock ----

  /** The instant on the receiver's clock whose age, at `arrival`, is the sender's
      age at `departure` rounded down to the millisecond. */
  function Transported(then_: Instant, departure: Instant, arrival: Instant): Instant {
    Rebuilt(AgeMillis(then_, departure), arrival)
  }

  function TransportedTopic(t: Topic, departure: Instant, arrival: Instant): Topic {
    t.(publishers := map peer | peer in t.publishers ::
         t.publishers[peer].(lastSeen := Transported(t.publishers[peer].lastSeen, departure, arrival)))
  }

  /** Everything but the next sequence number crosses unchanged; clock readings are
      carried over as ages. */
  lemma StateRoundTrip(s: Snapshot, departure: Instant, arrival: Instant)
    ensures FromWire(ToWire(s, departure), arrival) == s.(
      topics := map name | name in s.topics :: TransportedTopic(s.topics[name], departure, arrival),
      recentMessages := seq(|s.recentMessages|, i requires 0 <= i < |s.recentMessages| =>
        s.recentMessages[i].(seen := Transported(s.recentMessages[i].seen, departure, arrival))),
      nextSeq := 0)
  {
    var back := FromWire(ToWire(s, departure), arrival);
    forall name | name in s.topics
      ensures back.topics[name] == TransportedTopic(s.topics[name], departure, arrival)
    {
      assert back.topics[name].publishers == TransportedTopic(s.topics[name], departure, arrival).publishers;
    }
    assert back.subscriptions == s.subscriptions;
    forall i | 0 <= i < |s.recentMessages|
      ensures AttributesFromWire(AttributesToWire(s.recentMessages[i].attributes)) == s.recentMessages[i].attributes
    {
    }
  }

  /** An age survives the trip rounded down to the millisecond, whenever the
      receiver's clock reaches back that far; otherwise it becomes zero. */
  lemma AgeAfterTrip(then_: Instant, departure: Instant, arrival: Instant)
    ensures Age(Transported(then_, departure, arrival), arrival) ==
      if Representable(AgeMillis(then_, departure), arrival) then AgeMillis(then_, departure) * NANOS_PER_MILLI else 0
  {
  }

  /** How old a publish looks to the receiver on arrival: its age at the sender floored
      to the millisecond, or nothing if the receiver's clock does not reach back. */
  function ShownAge(p: Publisher, departure: Instant, arrival: Instant): nat {
    var millis := AgeMillis(p.lastSeen, departure);
    if Representable(millis, arrival) then millis * NANOS_PER_MILLI else 0
  }

  /** Still inside the window when `elapsed` has passed since arrival. */
  predicate ShownLive(p: Publisher, departure: Instant, arrival: Instant, elapsed: nat) {
    ShownAge(p, departure, arrival) + elapsed <= PUBLISHER_ACTIVE_WINDOW
  }

  lemma LiveAfterTrip(p: Publisher, departure: Instant, arrival: Instant, elapsed: nat)
    ensures LiveAt(PublisherFromWire(PublisherToWire(p, departure), arrival), arrival + elapsed)
      <==> ShownLive(p, departure, arrival, elapsed)
  {
    AgeAfterTrip(p.lastSeen, departure, arrival);
  }

  /** Flooring keeps what is inside the window in, and lets at most a millisecond in,
      for as long as the snapshot is shown. */
  lemma ShownLiveBounds(p: Publisher, departure: Instant, arrival: Instant, elapsed: nat)
    ensures LiveAt(p, departure + elapsed) && (p.lastSeen <= departure || elapsed == 0) ==>
      ShownLive(p, departure, arrival, elapsed)
    ensures ShownLive(p, departure, arrival, elapsed) && Representable(AgeMillis(p.lastSeen, departure), arrival) ==>
      Age(p.lastSeen, departure) + elapsed < PUBLISHER_ACTIVE_WINDOW + NANOS_PER_MILLI
  {
    var age := Age(p.lastSeen, departure);
    assert age / NANOS_PER_MILLI * NANOS_PER_MILLI <= age < (age / NANOS_PER_MILLI + 1) * NANOS_PER_MILLI;
  }

  /** The server had seen everything it reports by the time it sent the snapshot. */
  ghost predicate SeenBy(s: Snapshot, departure: Instant) {
    forall name, peer :: name in s.topics && peer in s.topics[name].publishers ==>
      s.topics[name].publishers[peer].lastSeen <= departure
  }

  function LivePairs(s: Snapshot, now: Instant): set<(string, string)> {
    set name, peer | name in s.topics && peer in s.topics[name].publishers
      && LiveAt(s.topics[name].publishers[peer], now) :: (name, peer)
  }

  lemma {:induction false} Smaller<T>(a: set<T>, b: set<T>)
    requires a <= b
    ensures |a| <= |b|
  {
    if a != {} {
      var x :| x in a;
      Smaller(a - {x}, b - {x});
    }
  }

  /** The publishers the receiver shows as live, at any time after arrival, are exactly
      those whose age at the sender, floored to the millisecond (or taken as nothing if
      the receiver's clock cannot date it), plus the time since, is inside the window. */
  lemma LiveAtReceiver(s: Snapshot, departure: Instant, arrival: Instant, elapsed: nat, name: string, peer: string)
    ensures (name, peer) in LivePairs(FromWire(ToWire(s, departure), arrival), arrival + elapsed) <==>
      && name in s.topics && peer in s.topics[name].publishers
      && ShownLive(s.topics[name].publishers[peer], departure, arrival, elapsed)
  {
    if name in s.topics && peer in s.topics[name].publishers {
      LiveAfterTrip(s.topics[name].publishers[peer], departure, arrival, elapsed);
    }
  }

  lemma LiveStaysLive(s: Snapshot, departure: Instant, arrival: Instant, elapsed: nat)
    requires SeenBy(s, departure) || elapsed == 0
    ensures LivePairs(s, departure + elapsed) <= LivePairs(FromWire(ToWire(s, departure), arrival), arrival + elapsed)
  {
    forall name, peer | (name, peer) in LivePairs(s, departure + elapsed)
      ensures (name, peer) in LivePairs(FromWire(ToWire(s, departure), arrival), arrival + elapsed)
    {
      ShownLiveBounds(s.topics[name].publishers[peer], departure, arrival, elapsed);
      LiveAtReceiver(s, departure, arrival, elapsed, name, peer);
    }
  }

  /** Skew: whatever the delay, however the two clocks stand to each other and for as
      long as the snapshot is shown, every publisher that would be live at the server
      is live at the receiver; and one live at the receiver was seen within the window
      plus one millisecond, if the receiver's clock reaches back that far. */
  lemma LivenessSkew(s: Snapshot, departure: Instant, arrival: Instant, elapsed: nat)
    ensures var there := FromWire(ToWire(s, departure), arrival);
      && (SeenBy(s, departure) || elapsed == 0 ==>
            && LivePairs(s, departure + elapsed) <= LivePairs(there, arrival + elapsed)
            && ConnectedPublishers(s, departure + elapsed) <= ConnectedPublishers(there, arrival + elapsed))
      && forall name, peer :: (name, peer) in LivePairs(there, arrival + elapsed) ==>
           && name in s.topics && peer in s.topics[name].publishers
           && var p := s.topics[name].publishers[peer];
              (Representable(AgeMillis(p.lastSeen, departure), arrival) ==>
                 Age(p.lastSeen, departure) + elapsed < PUBLISHER_ACTIVE_WINDOW + NANOS_PER_MILLI)
  {
    var there := FromWire(ToWire(s, departure), arrival);
    forall name, peer | (name, peer) in LivePairs(there, arrival + elapsed)
      ensures name in s.topics && peer in s.topics[name].publishers
      ensures var p := s.topics[name].publishers[peer];
        Representable(AgeMillis(p.lastSeen, departure), arrival) ==>
          Age(p.lastSeen, departure) + elapsed < PUBLISHER_ACTIVE_WINDOW + NANOS_PER_MILLI
    {
      LiveAtReceiver(s, departure, arrival, elapsed, name, peer);
      ShownLiveBounds(s.topics[name].publishers[peer], departure, arrival, elapsed);
    }
    if SeenBy(s, departure) || elapsed == 0 {
      LiveStaysLive(s, departure, arrival, elapsed);
      Smaller(LivePairs(s, departure + elapsed), LivePairs(there, arrival + elapsed));
    }
  }
}
