/** The observed state and the single task that owns it. */
module State {
  import opened Basics
  import opened Events

  /** A publisher is live if it has published within this window. */
  const PUBLISHER_ACTIVE_WINDOW: nat := 10 * NANOS_PER_SEC

  datatype Publisher = Publisher(published: nat, lastSeen: Instant)

  datatype Topic = Topic(
    present: bool, // the admin poller currently lists it
    publishCount: nat,
    publishers: map<string, Publisher>)

  datatype Subscription = Subscription(
    present: bool, // the admin poller currently lists it
    topic: Option<string>,
    delivered: nat,
    acked: nat,
    liveConsumers: nat)

  datatype RecentMessage = RecentMessage(
    seqNo: nat,
    topic: string,
    data: seq<byte>,
    attributes: seq<(string, string)>,
    originalLen: nat,
    truncated: bool,
    seen: Instant)

  /** An immutable copy of the whole state. */
  datatype Snapshot = Snapshot(
    topics: map<string, Topic>,
    subscriptions: map<string, Subscription>,
    recentMessages: seq<RecentMessage>,
    recentBufferCapacity: nat,
    nextSeq: nat)

  const NO_TOPIC := Topic(false, 0, map[])
  const NO_SUBSCRIPTION := Subscription(false, None, 0, 0, 0)

  /** The entry for `name`, or the default a first mention creates. */
  function TopicOr(topics: map<string, Topic>, name: string): Topic {
    if name in topics then topics[name] else NO_TOPIC
  }

  function SubscriptionOr(subscriptions: map<string, Subscription>, name: string): Subscription {
    if name in subscriptions then subscriptions[name] else NO_SUBSCRIPTION
  }

  function Empty(capacity: nat): Snapshot {
    Snapshot(map[], map[], [], capacity, 0)
  }

  // ---- What one observation does to the state ----

  function Stamp(message: PublishedMessage, topic: string, seqNo: nat, now: Instant): RecentMessage {
    RecentMessage(seqNo, topic, message.data, message.attributes, message.originalLen, message.truncated, now)
  }

  function Stamped(messages: seq<PublishedMessage>, topic: string, first: nat, now: Instant): seq<RecentMessage> {
    seq(|messages|, i requires 0 <= i < |messages| => Stamp(messages[i], topic, first + i, now))
  }

  function Credited(topic: Topic, peer: string, count: nat, now: Instant): Topic {
    var published := if peer in topic.publishers then topic.publishers[peer].published else 0;
    topic.(publishCount := topic.publishCount + count,
           publishers := topic.publishers[peer := Publisher(published + count, now)])
  }

  function Names(infos: seq<SubscriptionInfo>): set<string> {
    set info | info in infos :: info.name
  }

  /** The topic the last entry naming `name` attaches it to. */
  function MappedTopic(infos: seq<SubscriptionInfo>, name: string): Option<string>
    decreases |infos|
  {
    if infos == [] then None
    else if infos[|infos| - 1].name == name then Some(infos[|infos| - 1].topic)
    else MappedTopic(infos[..|infos| - 1], name)
  }

  /** `topic` is what the last entry naming `name` says. */
  ghost predicate LastSays(infos: seq<SubscriptionInfo>, name: string, topic: string) {
    exists i :: 0 <= i < |infos| && infos[i] == SubscriptionInfo(name, topic)
      && forall j :: i < j < |infos| ==> infos[j].name != name
  }

  lemma {:induction false} MappedTopicIsLast(infos: seq<SubscriptionInfo>, name: string, topic: string)
    ensures MappedTopic(infos, name) == Some(topic) <==> LastSays(infos, name, topic)
    ensures MappedTopic(infos, name) == None <==> forall info :: info in infos ==> info.name != name
    decreases |infos|
  {
    if infos != [] {
      var before, last := infos[..|infos| - 1], infos[|infos| - 1];
      MappedTopicIsLast(before, name, topic);
      assert infos == before + [last];
      if last.name == name {
        assert last in infos && infos[|infos| - 1] == SubscriptionInfo(name, last.topic);
      } else {
        if LastSays(before, name, topic) {
          var i :| 0 <= i < |before| && before[i] == SubscriptionInfo(name, topic)
            && forall j :: i < j < |before| ==> before[j].name != name;
          assert infos[i] == SubscriptionInfo(name, topic);
        }
        if LastSays(infos, name, topic) {
          var i :| 0 <= i < |infos| && infos[i] == SubscriptionInfo(name, topic)
            && forall j :: i < j < |infos| ==> infos[j].name != name;
          assert before[i] == SubscriptionInfo(name, topic);
        }
      }
    }
  }

  function ListedTopics(topics: map<string, Topic>, listing: seq<string>): map<string, Topic> {
    map name | name in topics.Keys + Elements(listing) ::
      TopicOr(topics, name).(present := name in Elements(listing))
  }

  function ListedSubscriptions(subs: map<string, Subscription>, infos: seq<SubscriptionInfo>): map<string, Subscription> {
    map name | name in subs.Keys + Names(infos) ::
      var sub := SubscriptionOr(subs, name);
      sub.(present := name in Names(infos),
           topic := var mapped := MappedTopic(infos, name); if mapped.Some? then mapped else sub.topic)
  }

  /** Listing one more topic marks exactly that entry, creating it if need be. */
  lemma ListOneTopic(topics: map<string, Topic>, listing: seq<string>, name: string)
    ensures var before := ListedTopics(topics, listing);
      ListedTopics(topics, listing + [name]) == before[name := TopicOr(before, name).(present := true)]
  {
    assert Elements(listing + [name]) == Elements(listing) + {name};
  }

  /** Listing one more subscription marks and re-attaches exactly that entry. */
  lemma ListOneSubscription(subs: map<string, Subscription>, infos: seq<SubscriptionInfo>, info: SubscriptionInfo)
    ensures var before := ListedSubscriptions(subs, infos);
      ListedSubscriptions(subs, infos + [info])
        == before[info.name := SubscriptionOr(before, info.name).(present := true, topic := Some(info.topic))]
  {
    assert (infos + [info])[..|infos|] == infos;
    assert Names(infos + [info]) == Names(infos) + {info.name};
  }

  function OnSubscription(s: Snapshot, name: string, sub: Subscription): Snapshot {
    s.(subscriptions := s.subscriptions[name := sub])
  }

  function Applied(s: Snapshot, o: Observation, now: Instant): Snapshot {
    match o
    case Publish(topic, peer, messages) =>
      s.(topics := s.topics[topic := Credited(TopicOr(s.topics, topic), PeerKey(peer), |messages|, now)],
         recentMessages := s.recentMessages + Stamped(messages, topic, s.nextSeq, now),
         nextSeq := s.nextSeq + |messages|)
    case Deliver(name, _, count) =>
      var sub := SubscriptionOr(s.subscriptions, name);
      OnSubscription(s, name, sub.(delivered := sub.delivered + count))
    case Ack(name, _, count) =>
      var sub := SubscriptionOr(s.subscriptions, name);
      OnSubscription(s, name, sub.(acked := sub.acked + count))
    case ConsumerOpen(name, _) =>
      var sub := SubscriptionOr(s.subscriptions, name);
      OnSubscription(s, name, sub.(liveConsumers := sub.liveConsumers + 1))
    case ConsumerClose(name, _) =>
      var sub := SubscriptionOr(s.subscriptions, name);
      OnSubscription(s, name, sub.(liveConsumers := if sub.liveConsumers > 0 then sub.liveConsumers - 1 else 0))
    case AdminSnapshot(topics, subscriptions) =>
      s.(topics := ListedTopics(s.topics, topics),
         subscriptions := ListedSubscriptions(s.subscriptions, subscriptions))
  }

  /** The newest `cap` elements. */
  function Newest<T>(s: seq<T>, cap: nat): seq<T> {
    s[|s| - Min(|s|, cap)..]
  }

  function Trimmed(s: Snapshot, cap: nat): Snapshot {
    s.(recentMessages := Newest(s.recentMessages, cap))
  }

  // ---- Histories of the owner ----

  /** One thing the owning task does to its state. */
  datatype OwnerOp = Fold(o: Observation, now: Instant) | Trim

  function Performed(s: Snapshot, op: OwnerOp): Snapshot {
    match op
    case Fold(o, now) => Applied(s, o, now)
    case Trim => Trimmed(s, s.recentBufferCapacity)
  }

  /** The state after a whole history. */
  function Replay(capacity: nat, ops: seq<OwnerOp>): Snapshot
    decreases |ops|
  {
    if ops == [] then Empty(capacity)
    else Performed(Replay(capacity, ops[..|ops| - 1]), ops[|ops| - 1])
  }

  // ---- The queries the panels show ----

  /** Number of topics currently reported by the admin poller. */
  function TopicCount(s: Snapshot): nat {
    |set name | name in s.topics && s.topics[name].present|
  }

  predicate LiveAt(p: Publisher, now: Instant) {
    now - p.lastSeen <= PUBLISHER_ACTIVE_WINDOW
  }

  /** Number of publishers seen publishing within the active window. */
  function ConnectedPublishers(s: Snapshot, now: Instant): nat {
    |set name, peer | name in s.topics && peer in s.topics[name].publishers
        && LiveAt(s.topics[name].publishers[peer], now) :: (name, peer)|
  }

  /** Subscriptions attached to `topic` that have consumed at least one message. */
  function ActiveConsumersOf(s: Snapshot, topic: string): set<string> {
    set name | name in s.subscriptions
      && s.subscriptions[name].topic == Some(topic) && s.subscriptions[name].acked > 0
  }

  // ---- The owning task ----

  class AppState {
    var topics: map<string, Topic>
    var subscriptions: map<string, Subscription>
    var recentMessages: seq<RecentMessage>
    var recentBufferCapacity: nat
    var nextSeq: nat

    constructor (capacity: nat)
      ensures Clone() == Empty(capacity)
    {
      topics, subscriptions, recentMessages := map[], map[], [];
      recentBufferCapacity, nextSeq := capacity, 0;
    }

    /** The snapshot a reader is handed. */
    function Clone(): Snapshot
      reads this
    {
      Snapshot(topics, subscriptions, recentMessages, recentBufferCapacity, nextSeq)
    }

    /** Append a captured message, assigning it the next sequence number. */
    method PushRecent(topic: string, message: PublishedMessage, now: Instant)
      modifies this`recentMessages, this`nextSeq
      ensures recentMessages == old(recentMessages) + [Stamp(message, topic, old(nextSeq), now)]
      ensures nextSeq == old(nextSeq) + 1
    {
      var s := nextSeq;
      nextSeq := nextSeq + 1;
      recentMessages := recentMessages +
        [RecentMessage(s, topic, message.data, message.attributes, message.originalLen, message.truncated, now)];
    }

    /** Drop the oldest messages until at most `cap` remain. */
    method TrimRecent(cap: nat)
      modifies this`recentMessages
      ensures Clone() == Trimmed(old(Clone()), cap)
    {
      ghost var was := recentMessages;
      while |recentMessages| > cap
        invariant |recentMessages| >= Min(|was|, cap)
        invariant |recentMessages| <= |was|
        invariant recentMessages == was[|was| - |recentMessages|..]
      {
        recentMessages := recentMessages[1..];
      }
    }

    /** Fold a single observation into the state. */
    method Apply(o: Observation, now: Instant)
      modifies this
      ensures Clone() == Applied(old(Clone()), o, now)
    {
      match o
      case Publish(topic, peer, messages) =>
        var entry := TopicOr(topics, topic);
        var key := PeerKey(peer);
        var publisher := if key in entry.publishers then entry.publishers[key] else Publisher(0, now);
        publisher := publisher.(published := publisher.published + |messages|, lastSeen := now);
        entry := entry.(publishCount := entry.publishCount + |messages|,
                        publishers := entry.publishers[key := publisher]);
        topics := topics[topic := entry];
        for i := 0 to |messages|
          invariant nextSeq == old(nextSeq) + i
          invariant recentMessages == old(recentMessages) + Stamped(messages[..i], topic, old(nextSeq), now)
          invariant topics == old(topics)[topic := entry]
          invariant subscriptions == old(subscriptions) && recentBufferCapacity == old(recentBufferCapacity)
        {
          assert Stamped(messages[..i + 1], topic, old(nextSeq), now)
              == Stamped(messages[..i], topic, old(nextSeq), now) + [Stamp(messages[i], topic, old(nextSeq) + i, now)];
          PushRecent(topic, messages[i], now);
        }
        assert messages[..|messages|] == messages;
      case Deliver(name, _, count) =>
        var sub := SubscriptionOr(subscriptions, name);
        subscriptions := subscriptions[name := sub.(delivered := sub.delivered + count)];
      case Ack(name, _, count) =>
        var sub := SubscriptionOr(subscriptions, name);
        subscriptions := subscriptions[name := sub.(acked := sub.acked + count)];
      case ConsumerOpen(name, _) =>
        var sub := SubscriptionOr(subscriptions, name);
        subscriptions := subscriptions[name := sub.(liveConsumers := sub.liveConsumers + 1)];
      case ConsumerClose(name, _) =>
        var sub := SubscriptionOr(subscriptions, name);
        var left := if sub.liveConsumers > 0 then sub.liveConsumers - 1 else 0;
        subscriptions := subscriptions[name := sub.(liveConsumers := left)];
      case AdminSnapshot(names, infos) =>
        ApplyAdmin(names, infos);
    }

    /** Reconcile existence and topic mapping with the latest admin listing. */
    method ApplyAdmin(names: seq<string>, infos: seq<SubscriptionInfo>)
      modifies this`topics, this`subscriptions
      ensures topics == ListedTopics(old(topics), names)
      ensures subscriptions == ListedSubscriptions(old(subscriptions), infos)
    {
      topics := map name | name in topics :: topics[name].(present := false);
      for i := 0 to |names|
        invariant subscriptions == old(subscriptions)
        invariant topics == ListedTopics(old(topics), names[..i])
      {
        ListOneTopic(old(topics), names[..i], names[i]);
        assert names[..i + 1] == names[..i] + [names[i]];
        topics := topics[names[i] := TopicOr(topics, names[i]).(present := true)];
      }
      assert names[..|names|] == names;

      subscriptions := map name | name in subscriptions :: subscriptions[name].(present := false);
      for i := 0 to |infos|
        invariant topics == ListedTopics(old(topics), names)
        invariant subscriptions == ListedSubscriptions(old(subscriptions), infos[..i])
      {
        ListOneSubscription(old(subscriptions), infos[..i], infos[i]);
        assert infos[..i + 1] == infos[..i] + [infos[i]];
        var sub := SubscriptionOr(subscriptions, infos[i].name);
        subscriptions := subscriptions[infos[i].name := sub.(present := true, topic := Some(infos[i].topic))];
      }
      assert infos[..|infos|] == infos;
    }
  }

  /** What one wake-up of the owning task drains, and whether a reader was left
      to take the snapshot that follows. */
  datatype Burst = Burst(now: Instant, first: Observation, rest: seq<Observation>, readers: bool)

  function Folds(observations: seq<Observation>, now: Instant): seq<OwnerOp> {
    seq(|observations|, i requires 0 <= i < |observations| => Fold(observations[i], now))
  }

  /** One wake-up: fold everything that is waiting, then bound the buffer once. */
  function BurstOps(burst: Burst): seq<OwnerOp> {
    [Fold(burst.first, burst.now)] + Folds(burst.rest, burst.now) + [Trim]
  }

  /** The history that a sequence of bursts amounts to. */
  function OpsOf(bursts: seq<Burst>): seq<OwnerOp> {
    if bursts == [] then [] else OpsOf(bursts[..|bursts| - 1]) + BurstOps(bursts[|bursts| - 1])
  }

  lemma ReplayOneMore(capacity: nat, ops: seq<OwnerOp>, op: OwnerOp)
    ensures Replay(capacity, ops + [op]) == Performed(Replay(capacity, ops), op)
  {
    assert (ops + [op])[..|ops|] == ops;
  }

  lemma OpsOneMore(bursts: seq<Burst>, b: nat)
    requires b < |bursts|
    ensures OpsOf(bursts[..b + 1]) == OpsOf(bursts[..b]) + BurstOps(bursts[b])
  {
    assert bursts[..b + 1][..b] == bursts[..b];
  }

  /** `Apply`, seen as one more step of the owner's history. */
  method Step(state: AppState, o: Observation, now: Instant, recentBuffer: nat, ghost ops: seq<OwnerOp>)
    requires state.recentBufferCapacity == recentBuffer
    requires state.Clone() == Replay(recentBuffer, ops)
    modifies state
    ensures state.recentBufferCapacity == recentBuffer
    ensures state.Clone() == Replay(recentBuffer, ops + [Fold(o, now)])
  {
    ReplayOneMore(recentBuffer, ops, Fold(o, now));
    state.Apply(o, now);
  }

  /** `TrimRecent`, seen as one more step of the owner's history. */
  method Bound(state: AppState, recentBuffer: nat, ghost ops: seq<OwnerOp>)
    requires state.recentBufferCapacity == recentBuffer
    requires state.Clone() == Replay(recentBuffer, ops)
    modifies state
    ensures state.recentBufferCapacity == recentBuffer
    ensures state.Clone() == Replay(recentBuffer, ops + [Trim])
  {
    ReplayOneMore(recentBuffer, ops, Trim);
    state.TrimRecent(recentBuffer);
  }

  /** The owner's history once `i` of a burst's further observations are folded in. */
  function Draining(before: seq<OwnerOp>, burst: Burst, i: nat): seq<OwnerOp>
    requires i <= |burst.rest|
  {
    before + [Fold(burst.first, burst.now)] + Folds(burst.rest[..i], burst.now)
  }

  lemma DrainingSteps(before: seq<OwnerOp>, burst: Burst)
    ensures Draining(before, burst, 0) == before + [Fold(burst.first, burst.now)]
    ensures forall i :: 0 <= i < |burst.rest| ==>
      Draining(before, burst, i + 1) == Draining(before, burst, i) + [Fold(burst.rest[i], burst.now)]
    ensures Draining(before, burst, |burst.rest|) + [Trim] == before + BurstOps(burst)
  {
    assert burst.rest[..|burst.rest|] == burst.rest;
  }

  /** Fold one coalesced burst into `state`, bounding the buffer once at the end. */
  method Drain(state: AppState, burst: Burst, recentBuffer: nat, ghost before: seq<OwnerOp>)
    requires state.recentBufferCapacity == recentBuffer
    requires state.Clone() == Replay(recentBuffer, before)
    modifies state
    ensures state.recentBufferCapacity == recentBuffer
    ensures state.Clone() == Replay(recentBuffer, before + BurstOps(burst))
  {
    DrainingSteps(before, burst);
    Step(state, burst.first, burst.now, recentBuffer, before);
    for i := 0 to |burst.rest|
      invariant state.recentBufferCapacity == recentBuffer
      invariant state.Clone() == Replay(recentBuffer, Draining(before, burst, i))
    {
      Step(state, burst.rest[i], burst.now, recentBuffer, Draining(before, burst, i));
    }
    Bound(state, recentBuffer, Draining(before, burst, |burst.rest|));
  }

  /** Each snapshot is the state after one more burst that left a reader behind. */
  ghost predicate PublishedFrom(published: seq<Snapshot>, bursts: seq<Burst>, recentBuffer: nat) {
    && |published| <= |bursts|
    && forall i :: 0 <= i < |published| ==>
         bursts[i].readers && published[i] == Replay(recentBuffer, OpsOf(bursts[..i + 1]))
  }

  lemma PublishedOneMore(published: seq<Snapshot>, bursts: seq<Burst>, recentBuffer: nat, s: Snapshot)
    requires PublishedFrom(published, bursts, recentBuffer) && |published| < |bursts|
    requires bursts[|published|].readers && s == Replay(recentBuffer, OpsOf(bursts[..|published| + 1]))
    ensures PublishedFrom(published + [s], bursts, recentBuffer)
  {
  }

  /** The owning task's loop: it serves bursts until no reader is left. */
  method Run(bursts: seq<Burst>, recentBuffer: nat) returns (published: seq<Snapshot>)
    ensures PublishedFrom(published, bursts, recentBuffer)
    ensures |published| < |bursts| ==> !bursts[|published|].readers
  {
    var state := new AppState(recentBuffer);
    published := [];
    ghost var ops: seq<OwnerOp> := [];
    for b := 0 to |bursts|
      invariant |published| == b && PublishedFrom(published, bursts, recentBuffer)
      invariant ops == OpsOf(bursts[..b])
      invariant state.recentBufferCapacity == recentBuffer
      invariant state.Clone() == Replay(recentBuffer, ops)
    {
      Drain(state, bursts[b], recentBuffer, ops);
      OpsOneMore(bursts, b);
      ops := ops + BurstOps(bursts[b]);
      if !bursts[b].readers {
        break;
      }
      PublishedOneMore(published, bursts, recentBuffer, state.Clone());
      published := published + [state.Clone()];
    }
  }
}
