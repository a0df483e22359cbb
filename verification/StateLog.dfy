/** The state as an index over the log of observations: every figure it holds
    equals its naive definition over the whole log. */
module StateLog {
  import opened Basics
  import opened Events
  import opened LiveCount
  import opened State
  import opened Sums

  datatype Entry = Entry(o: Observation, now: Instant)

  /** The observations folded in by a history, in order. */
  function LogOf(ops: seq<OwnerOp>): seq<Entry>
    decreases |ops|
  {
    if ops == [] then []
    else
      var before := LogOf(ops[..|ops| - 1]);
      match ops[|ops| - 1]
      case Fold(o, now) => before + [Entry(o, now)]
      case Trim => before
  }

  /** The observations of a log, without their clock readings. */
  function Observations(log: seq<Entry>): seq<Observation> {
    seq(|log|, i requires 0 <= i < |log| => log[i].o)
  }

  // ---- Naive definitions over the log ----

  predicate IsPublish(e: Entry, topic: string) {
    e.o.Publish? && e.o.topic == topic
  }

  /** What a client without a known address is counted under. */
  const UNKNOWN := "unknown"

  /** Whether a client is the one counted under `key`: it has that address, or it has
      none. */
  predicate CountedUnder(peer: Peer, key: string) {
    peer == Some(key) || (peer == None && key == UNKNOWN)
  }

  predicate IsPublishBy(e: Entry, topic: string, key: string) {
    IsPublish(e, topic) && CountedUnder(e.o.peer, key)
  }

  /** Messages ever published to `topic`. */
  function PublishedTo(log: seq<Entry>, topic: string): nat {
    if log == [] then 0
    else
      var e := log[|log| - 1];
      PublishedTo(log[..|log| - 1], topic) + if IsPublish(e, topic) then |e.o.messages| else 0
  }

  /** Messages ever published to `topic` by `peer`. */
  function PublishedBy(log: seq<Entry>, topic: string, peer: string): nat {
    if log == [] then 0
    else
      var e := log[|log| - 1];
      PublishedBy(log[..|log| - 1], topic, peer) + if IsPublishBy(e, topic, peer) then |e.o.messages| else 0
  }

  /** When `peer` last published to `topic`. */
  function LastPublish(log: seq<Entry>, topic: string, peer: string): Option<Instant> {
    if log == [] then None
    else if IsPublishBy(log[|log| - 1], topic, peer) then Some(log[|log| - 1].now)
    else LastPublish(log[..|log| - 1], topic, peer)
  }

  /** Every message ever published, numbered in publish order. */
  function Messages(log: seq<Entry>): seq<RecentMessage> {
    if log == [] then []
    else
      var before, e := Messages(log[..|log| - 1]), log[|log| - 1];
      if e.o.Publish? then before + Stamped(e.o.messages, e.o.topic, |before|, e.now) else before
  }

  function DeliveredTo(log: seq<Entry>, name: string): nat {
    if log == [] then 0
    else
      var o := log[|log| - 1].o;
      DeliveredTo(log[..|log| - 1], name) + if o.Deliver? && o.subscription == name then o.count else 0
  }

  function AckedOn(log: seq<Entry>, name: string): nat {
    if log == [] then 0
    else
      var o := log[|log| - 1].o;
      AckedOn(log[..|log| - 1], name) + if o.Ack? && o.subscription == name then o.count else 0
  }

  /** The latest admin listing, empty before the first one. */
  function Listing(log: seq<Entry>): (seq<string>, seq<SubscriptionInfo>) {
    if log == [] then ([], [])
    else
      match log[|log| - 1].o
      case AdminSnapshot(topics, subscriptions) => (topics, subscriptions)
      case _ => Listing(log[..|log| - 1])
  }

  /** The topic the latest mention of `name` in any listing attaches it to. */
  function Attachment(log: seq<Entry>, name: string): Option<string> {
    if log == [] then None
    else
      var before, o := Attachment(log[..|log| - 1], name), log[|log| - 1].o;
      if o.AdminSnapshot? && MappedTopic(o.subscriptions, name).Some? then MappedTopic(o.subscriptions, name)
      else before
  }

  /** The (topic, client) pairs with a publish inside the active window. */
  function RecentlyActive(log: seq<Entry>, now: Instant): set<(string, Peer)> {
    set e | e in log && e.o.Publish? && now - e.now <= PUBLISHER_ACTIVE_WINDOW :: (e.o.topic, e.o.peer)
  }

  /** No client's address reads like the text that stands for having none. */
  ghost predicate RealAddresses(log: seq<Entry>) {
    forall e :: e in log && e.o.Publish? ==> e.o.peer != Some(UNKNOWN)
  }

  ghost predicate MonotonicClock(log: seq<Entry>) {
    forall i, j :: 0 <= i < j < |log| ==> log[i].now <= log[j].now
  }

  // ---- Topics ----

  ghost predicate TopicAgrees(topic: Topic, log: seq<Entry>, name: string) {
    && topic.publishCount == PublishedTo(log, name)
    && topic.present == (name in Listing(log).0)
    && (forall peer :: peer in topic.publishers <==> LastPublish(log, name, peer).Some?)
    && (forall peer :: peer in topic.publishers ==>
          && topic.publishers[peer].published == PublishedBy(log, name, peer)
          && Some(topic.publishers[peer].lastSeen) == LastPublish(log, name, peer))
  }

  lemma {:induction false} NeverPublished(log: seq<Entry>, topic: string, peer: string)
    requires LastPublish(log, topic, peer).None?
    ensures PublishedBy(log, topic, peer) == 0
  {
    if log != [] {
      NeverPublished(log[..|log| - 1], topic, peer);
    }
  }

  lemma CreditAgrees(topic: Topic, log: seq<Entry>, e: Entry, name: string)
    requires TopicAgrees(topic, log, name) && IsPublish(e, name)
    ensures TopicAgrees(Credited(topic, PeerKey(e.o.peer), |e.o.messages|, e.now), log + [e], name)
  {
    assert (log + [e])[..|log|] == log;
    if LastPublish(log, name, PeerKey(e.o.peer)).None? {
      NeverPublished(log, name, PeerKey(e.o.peer));
    }
  }

  lemma TopicStep(s: Snapshot, log: seq<Entry>, e: Entry, name: string)
    requires TopicAgrees(TopicOr(s.topics, name), log, name)
    ensures TopicAgrees(TopicOr(Applied(s, e.o, e.now).topics, name), log + [e], name)
  {
    if IsPublish(e, name) {
      CreditAgrees(TopicOr(s.topics, name), log, e, name);
    } else {
      assert (log + [e])[..|log|] == log;
    }
  }

  /** Counters, publishers, liveness stamps and existence of every topic are
      exactly what the log says. */
  lemma {:induction false} TopicsIndexLog(capacity: nat, ops: seq<OwnerOp>, name: string)
    ensures TopicAgrees(TopicOr(Replay(capacity, ops).topics, name), LogOf(ops), name)
    decreases |ops|
  {
    if ops != [] {
      var before := ops[..|ops| - 1];
      TopicsIndexLog(capacity, before, name);
      match ops[|ops| - 1]
      case Fold(o, now) => TopicStep(Replay(capacity, before), LogOf(before), Entry(o, now), name);
      case Trim =>
    }
  }

  // ---- Subscriptions ----

  /** Everything about a subscription but its live consumers. */
  ghost predicate CountersAgree(sub: Subscription, log: seq<Entry>, name: string) {
    && sub.delivered == DeliveredTo(log, name)
    && sub.acked == AckedOn(log, name)
    && sub.present == (name in Names(Listing(log).1))
    && sub.topic == Attachment(log, name)
  }

  ghost predicate SubscriptionAgrees(sub: Subscription, log: seq<Entry>, name: string) {
    && CountersAgree(sub, log, name)
    && LargestTail(sub.liveConsumers, Observations(log), name)
  }

  lemma {:induction false} MappedIfNamed(infos: seq<SubscriptionInfo>, name: string)
    ensures MappedTopic(infos, name).Some? <==> name in Names(infos)
    decreases |infos|
  {
    if infos != [] {
      var rest, last := infos[..|infos| - 1], infos[|infos| - 1];
      MappedIfNamed(rest, name);
      assert infos == rest + [last];
      assert Names(infos) == Names(rest) + {last.name};
    }
  }

  lemma ObservationsOneMore(log: seq<Entry>, e: Entry)
    ensures Observations(log + [e]) == Observations(log) + [e.o]
  {
  }

  lemma CountersStep(s: Snapshot, log: seq<Entry>, e: Entry, name: string)
    requires CountersAgree(SubscriptionOr(s.subscriptions, name), log, name)
    ensures CountersAgree(SubscriptionOr(Applied(s, e.o, e.now).subscriptions, name), log + [e], name)
  {
    assert (log + [e])[..|log|] == log;
    if e.o.AdminSnapshot? { MappedIfNamed(e.o.subscriptions, name); }
  }

  /** Opens add one; closes take one off, but never below zero; nothing else counts. */
  lemma LiveStep(s: Snapshot, o: Observation, now: Instant, name: string)
    ensures var left := SubscriptionOr(s.subscriptions, name).liveConsumers + Delta(o, Some(name));
      SubscriptionOr(Applied(s, o, now).subscriptions, name).liveConsumers == if left < 0 then 0 else left
  {
  }

  lemma SubscriptionStep(s: Snapshot, log: seq<Entry>, e: Entry, name: string)
    requires SubscriptionAgrees(SubscriptionOr(s.subscriptions, name), log, name)
    ensures SubscriptionAgrees(SubscriptionOr(Applied(s, e.o, e.now).subscriptions, name), log + [e], name)
  {
    CountersStep(s, log, e, name);
    ObservationsOneMore(log, e);
    LiveStep(s, e.o, e.now, name);
    LargestTailOneMore(SubscriptionOr(s.subscriptions, name).liveConsumers, Observations(log), e.o, name);
  }

  /** A vanished subscription keeps the topic it was last listed with, and no
      listing touches what was observed. */
  lemma {:induction false} SubscriptionsIndexLog(capacity: nat, ops: seq<OwnerOp>, name: string)
    ensures SubscriptionAgrees(SubscriptionOr(Replay(capacity, ops).subscriptions, name), LogOf(ops), name)
    decreases |ops|
  {
    if ops != [] {
      var before := ops[..|ops| - 1];
      SubscriptionsIndexLog(capacity, before, name);
      match ops[|ops| - 1]
      case Fold(o, now) => SubscriptionStep(Replay(capacity, before), LogOf(before), Entry(o, now), name);
      case Trim =>
    } else {
      assert Net(Observations([])[0..], Some(name)) == 0;
    }
  }

  // ---- Panel figures ----

  /** The topic count is the number of distinct topics in the latest listing. */
  lemma TopicCountIsListing(capacity: nat, ops: seq<OwnerOp>)
    ensures TopicCount(Replay(capacity, ops)) == |Elements(Listing(LogOf(ops)).0)|
  {
    var s := Replay(capacity, ops);
    forall name ensures TopicOr(s.topics, name).present <==> name in Listing(LogOf(ops)).0 {
      TopicsIndexLog(capacity, ops, name);
    }
    assert (set name | name in s.topics && s.topics[name].present) == Elements(Listing(LogOf(ops)).0);
  }

  lemma {:induction false} LastPublishIsLatest(log: seq<Entry>, topic: string, peer: string)
    requires MonotonicClock(log)
    ensures forall e :: e in log && IsPublishBy(e, topic, peer) ==>
      LastPublish(log, topic, peer).Some? && e.now <= LastPublish(log, topic, peer).value
    ensures LastPublish(log, topic, peer).Some? ==>
      exists e :: e in log && IsPublishBy(e, topic, peer) && e.now == LastPublish(log, topic, peer).value
  {
    if log != [] {
      var before, last := log[..|log| - 1], log[|log| - 1];
      LastPublishIsLatest(before, topic, peer);
      assert log == before + [last];
      if IsPublishBy(last, topic, peer) {
        assert last in log;
      }
    }
  }

  /** The keys that some clients are counted under. */
  ghost predicate KeysOf(keys: set<(string, string)>, clients: set<(string, Peer)>) {
    forall x: (string, string) :: x in keys <==> exists p :: CountedUnder(p, x.1) && (x.0, p) in clients
  }

  lemma KeysWithout(clients: set<(string, Peer)>, keys: set<(string, string)>, t: string, p: Peer, key: string)
    requires forall t, p :: (t, p) in clients ==> p != Some(UNKNOWN)
    requires KeysOf(keys, clients) && (t, p) in clients && CountedUnder(p, key)
    ensures KeysOf(keys - {(t, key)}, clients - {(t, p)})
  {
    var less, fewer := keys - {(t, key)}, clients - {(t, p)};
    forall x: (string, string)
      ensures x in less <==> exists p1 :: CountedUnder(p1, x.1) && (x.0, p1) in fewer
    {
      if x in less {
        var p1 :| CountedUnder(p1, x.1) && (x.0, p1) in clients;
        assert x == (x.0, x.1) && (x.0, p1) in fewer;
      }
    }
  }

  /** Counting clients and counting the keys they are counted under is the same, if no
      two clients share a key. */
  lemma {:induction false} SameSize(clients: set<(string, Peer)>, keys: set<(string, string)>)
    requires forall t, p :: (t, p) in clients ==> p != Some(UNKNOWN)
    requires KeysOf(keys, clients)
    ensures |clients| == |keys|
  {
    if clients == {} {
      assert keys == {};
    } else {
      var client :| client in clients;
      var t, p := client.0, client.1;
      var key := if p.Some? then p.value else UNKNOWN;
      assert client == (t, p) && CountedUnder(p, key);
      assert (t, key) in keys by { assert CountedUnder(p, (t, key).1) && ((t, key).0, p) in clients; }
      KeysWithout(clients, keys, t, p, key);
      SameSize(clients - {client}, keys - {(t, key)});
    }
  }

  /** A key was used inside the window exactly if its last use was. */
  lemma LiveKey(log: seq<Entry>, name: string, key: string, now: Instant)
    requires forall e :: e in log && IsPublishBy(e, name, key) ==>
      LastPublish(log, name, key).Some? && e.now <= LastPublish(log, name, key).value
    requires LastPublish(log, name, key).Some? ==>
      exists e :: e in log && IsPublishBy(e, name, key) && e.now == LastPublish(log, name, key).value
    ensures (LastPublish(log, name, key).Some? && now - LastPublish(log, name, key).value <= PUBLISHER_ACTIVE_WINDOW)
      <==> exists p :: CountedUnder(p, key) && (name, p) in RecentlyActive(log, now)
  {
    if LastPublish(log, name, key).Some? && now - LastPublish(log, name, key).value <= PUBLISHER_ACTIVE_WINDOW {
      var e :| e in log && IsPublishBy(e, name, key) && e.now == LastPublish(log, name, key).value;
      assert CountedUnder(e.o.peer, key) && (name, e.o.peer) in RecentlyActive(log, now);
    }
    if exists p :: CountedUnder(p, key) && (name, p) in RecentlyActive(log, now) {
      var p :| CountedUnder(p, key) && (name, p) in RecentlyActive(log, now);
      var e :| e in log && e.o.Publish? && now - e.now <= PUBLISHER_ACTIVE_WINDOW && e.o.topic == name && e.o.peer == p;
      assert IsPublishBy(e, name, key);
    }
  }

  /** Connected publishers are exactly the (topic, client) pairs with a publish in the
      window, clients told apart by their addresses, on any monotonic clock. */
  lemma ConnectedIsRecentlyActive(capacity: nat, ops: seq<OwnerOp>, now: Instant)
    requires MonotonicClock(LogOf(ops)) && RealAddresses(LogOf(ops))
    ensures ConnectedPublishers(Replay(capacity, ops), now) == |RecentlyActive(LogOf(ops), now)|
  {
    var s, log := Replay(capacity, ops), LogOf(ops);
    var live := set name, peer | name in s.topics && peer in s.topics[name].publishers
        && LiveAt(s.topics[name].publishers[peer], now) :: (name, peer);
    forall x: (string, string)
      ensures x in live <==> exists p :: CountedUnder(p, x.1) && (x.0, p) in RecentlyActive(log, now)
    {
      TopicsIndexLog(capacity, ops, x.0);
      LastPublishIsLatest(log, x.0, x.1);
      LiveKey(log, x.0, x.1, now);
      assert x == (x.0, x.1);
    }
    SameSize(RecentlyActive(log, now), live);
  }

  /** Messages published to `topic` by a client, told apart by its address. */
  function PublishedFrom(log: seq<Entry>, topic: string, peer: Peer): nat {
    if log == [] then 0
    else
      var e := log[|log| - 1];
      PublishedFrom(log[..|log| - 1], topic, peer) + if IsPublish(e, topic) && e.o.peer == peer then |e.o.messages| else 0
  }

  lemma {:induction false} PublishedByAddress(log: seq<Entry>, topic: string, address: string)
    requires address != UNKNOWN
    ensures PublishedBy(log, topic, address) == PublishedFrom(log, topic, Some(address))
  {
    if log != [] {
      PublishedByAddress(log[..|log| - 1], topic, address);
    }
  }

  /** Entry `i` is the last publish to `topic` from `peer`. */
  ghost predicate LastFrom(log: seq<Entry>, topic: string, peer: Peer, i: nat) {
    && i < |log| && IsPublish(log[i], topic) && log[i].o.peer == peer
    && forall j :: i < j < |log| ==> !(IsPublish(log[j], topic) && log[j].o.peer == peer)
  }

  lemma {:induction false} LastPublishIsLast(log: seq<Entry>, topic: string, address: string)
    requires address != UNKNOWN
    ensures LastPublish(log, topic, address).Some? <==> exists e :: e in log && IsPublish(e, topic) && e.o.peer == Some(address)
    ensures LastPublish(log, topic, address).Some? ==>
      exists i: nat :: LastFrom(log, topic, Some(address), i) && log[i].now == LastPublish(log, topic, address).value
  {
    if log != [] {
      var before, last := log[..|log| - 1], log[|log| - 1];
      LastPublishIsLast(before, topic, address);
      assert log == before + [last];
      if IsPublishBy(last, topic, address) {
        assert last in log && LastFrom(log, topic, Some(address), |log| - 1);
      } else if LastPublish(before, topic, address).Some? {
        var i: nat :| LastFrom(before, topic, Some(address), i) && before[i].now == LastPublish(before, topic, address).value;
        assert LastFrom(log, topic, Some(address), i);
      }
    }
  }

  /** An address is a publisher's own: what is counted under it comes from the publishes
      of that address and of no other client, and it was last seen when it last published. */
  lemma AddressIsPublisher(capacity: nat, ops: seq<OwnerOp>, name: string, address: string)
    requires address != UNKNOWN
    ensures var topic, log := TopicOr(Replay(capacity, ops).topics, name), LogOf(ops);
      && (address in topic.publishers <==> exists e :: e in log && IsPublish(e, name) && e.o.peer == Some(address))
      && (address in topic.publishers ==>
            && topic.publishers[address].published == PublishedFrom(log, name, Some(address))
            && exists i: nat :: LastFrom(log, name, Some(address), i) && log[i].now == topic.publishers[address].lastSeen)
  {
    var log := LogOf(ops);
    TopicsIndexLog(capacity, ops, name);
    PublishedByAddress(log, name, address);
    LastPublishIsLast(log, name, address);
  }

  function PeerCounts(topic: Topic): map<string, nat> {
    map peer | peer in topic.publishers :: topic.publishers[peer].published
  }

  function TopicCounts(topics: map<string, Topic>): map<string, nat> {
    map name | name in topics :: topics[name].publishCount
  }

  ghost predicate PeersAddUp(topic: Topic) {
    topic.publishCount == Sum(PeerCounts(topic))
  }

  ghost predicate AddsUp(s: Snapshot) {
    && Sum(TopicCounts(s.topics)) == s.nextSeq
    && forall name :: name in s.topics ==> PeersAddUp(s.topics[name])
  }

  lemma CreditAddsUp(topic: Topic, peer: string, count: nat, now: Instant)
    requires PeersAddUp(topic)
    ensures PeersAddUp(Credited(topic, peer, count, now))
  {
    var t := Credited(topic, peer, count, now);
    SumUpdate(PeerCounts(topic), peer, t.publishers[peer].published);
    assert PeerCounts(t) == PeerCounts(topic)[peer := t.publishers[peer].published];
  }

  lemma PublishAddsUp(s: Snapshot, o: Observation, now: Instant)
    requires AddsUp(s) && o.Publish?
    ensures AddsUp(Applied(s, o, now))
  {
    var topic := TopicOr(s.topics, o.topic);
    var t := Credited(topic, PeerKey(o.peer), |o.messages|, now);
    assert PeerCounts(NO_TOPIC) == map[];
    CreditAddsUp(topic, PeerKey(o.peer), |o.messages|, now);
    SumUpdate(TopicCounts(s.topics), o.topic, t.publishCount);
    assert TopicCounts(s.topics[o.topic := t]) == TopicCounts(s.topics)[o.topic := t.publishCount];
  }

  lemma ListingKeepsPeers(topics: map<string, Topic>, names: seq<string>)
    requires forall name :: name in topics ==> PeersAddUp(topics[name])
    ensures forall name :: name in ListedTopics(topics, names) ==> PeersAddUp(ListedTopics(topics, names)[name])
  {
    assert PeerCounts(NO_TOPIC) == map[];
    forall name | name in ListedTopics(topics, names) ensures PeersAddUp(ListedTopics(topics, names)[name]) {
      assert PeerCounts(ListedTopics(topics, names)[name]) == PeerCounts(TopicOr(topics, name));
    }
  }

  lemma MarkingKeepsTotal(topics: map<string, Topic>, name: string)
    ensures Sum(TopicCounts(topics[name := TopicOr(topics, name).(present := true)])) == Sum(TopicCounts(topics))
  {
    var count := TopicOr(topics, name).publishCount;
    SumUpdate(TopicCounts(topics), name, count);
    assert TopicCounts(topics[name := TopicOr(topics, name).(present := true)]) == TopicCounts(topics)[name := count];
  }

  lemma {:induction false} ListingKeepsTotal(topics: map<string, Topic>, names: seq<string>)
    ensures Sum(TopicCounts(ListedTopics(topics, names))) == Sum(TopicCounts(topics))
    decreases |names|
  {
    if names == [] {
      assert TopicCounts(ListedTopics(topics, names)) == TopicCounts(topics);
    } else {
      var rest, last := names[..|names| - 1], names[|names| - 1];
      ListingKeepsTotal(topics, rest);
      ListOneTopic(topics, rest, last);
      assert names == rest + [last];
      MarkingKeepsTotal(ListedTopics(topics, rest), last);
    }
  }

  lemma {:induction false} AllAddUp(capacity: nat, ops: seq<OwnerOp>)
    ensures AddsUp(Replay(capacity, ops))
    decreases |ops|
  {
    if ops == [] {
      assert TopicCounts(map[]) == map[];
    } else {
      var before := Replay(capacity, ops[..|ops| - 1]);
      AllAddUp(capacity, ops[..|ops| - 1]);
      var last := ops[|ops| - 1];
      if last.Fold? {
        if last.o.Publish? {
          PublishAddsUp(before, last.o, last.now);
        } else if last.o.AdminSnapshot? {
          ListingKeepsPeers(before.topics, last.o.topics);
          ListingKeepsTotal(before.topics, last.o.topics);
        }
      }
    }
  }

  /** Each topic's count is the sum of its publishers', and the sum over all
      topics is the number of messages ever observed. */
  lemma CountsAddUp(capacity: nat, ops: seq<OwnerOp>)
    ensures var s := Replay(capacity, ops);
      && Sum(TopicCounts(s.topics)) == s.nextSeq
      && forall name :: name in s.topics ==> s.topics[name].publishCount == Sum(PeerCounts(s.topics[name]))
  {
    AllAddUp(capacity, ops);
    forall name | name in Replay(capacity, ops).topics
      ensures PeersAddUp(Replay(capacity, ops).topics[name])
    {
    }
  }

  // ---- The recent-messages buffer ----

  ghost predicate IsSuffix<T>(tail: seq<T>, whole: seq<T>) {
    |tail| <= |whole| && tail == whole[|whole| - |tail|..]
  }

  ghost predicate Retains(s: Snapshot, all: seq<RecentMessage>) {
    && s.nextSeq == |all|
    && IsSuffix(s.recentMessages, all)
    && |s.recentMessages| >= Min(|all|, s.recentBufferCapacity)
  }

  lemma SuffixGrows<T>(tail: seq<T>, whole: seq<T>, more: seq<T>)
    requires IsSuffix(tail, whole)
    ensures IsSuffix(tail + more, whole + more)
  {
  }

  /** Only a publish looks at the buffer. */
  lemma BufferUntouched(s: Snapshot, o: Observation, now: Instant, buffer: seq<RecentMessage>)
    requires !o.Publish?
    ensures Applied(s.(recentMessages := buffer), o, now) == Applied(s, o, now).(recentMessages := buffer)
    ensures Applied(s, o, now).recentMessages == s.recentMessages
    ensures Applied(s, o, now).recentBufferCapacity == s.recentBufferCapacity
    ensures Applied(s, o, now).nextSeq == s.nextSeq
  {
  }

  lemma MessagesOneMore(log: seq<Entry>, e: Entry)
    ensures Messages(log + [e]) == if e.o.Publish?
      then Messages(log) + Stamped(e.o.messages, e.o.topic, |Messages(log)|, e.now) else Messages(log)
  {
    assert (log + [e])[..|log|] == log;
  }

  lemma RetainsPublish(s: Snapshot, all: seq<RecentMessage>, o: Observation, now: Instant)
    requires Retains(s, all) && o.Publish?
    ensures Retains(Applied(s, o, now), all + Stamped(o.messages, o.topic, |all|, now))
  {
    SuffixGrows(s.recentMessages, all, Stamped(o.messages, o.topic, |all|, now));
  }

  lemma RetainsOther(s: Snapshot, all: seq<RecentMessage>, o: Observation, now: Instant)
    requires Retains(s, all) && !o.Publish?
    ensures Retains(Applied(s, o, now), all)
  {
    BufferUntouched(s, o, now, s.recentMessages);
  }

  lemma RetainsStep(s: Snapshot, log: seq<Entry>, e: Entry)
    requires Retains(s, Messages(log))
    ensures Retains(Applied(s, e.o, e.now), Messages(log + [e]))
  {
    MessagesOneMore(log, e);
    if e.o.Publish? {
      RetainsPublish(s, Messages(log), e.o, e.now);
    } else {
      RetainsOther(s, Messages(log), e.o, e.now);
    }
  }

  /** At every moment the buffer is a suffix of everything ever published, never
      shorter than the retention bound allows. */
  lemma {:induction false} BufferIsSuffix(capacity: nat, ops: seq<OwnerOp>)
    ensures Replay(capacity, ops).recentBufferCapacity == capacity
    ensures Retains(Replay(capacity, ops), Messages(LogOf(ops)))
    decreases |ops|
  {
    if ops != [] {
      var before := ops[..|ops| - 1];
      BufferIsSuffix(capacity, before);
      match ops[|ops| - 1]
      case Fold(o, now) => RetainsStep(Replay(capacity, before), LogOf(before), Entry(o, now));
      case Trim =>
    }
  }

  lemma {:induction false} NumberedInOrder(log: seq<Entry>)
    ensures forall i :: 0 <= i < |Messages(log)| ==> Messages(log)[i].seqNo == i
  {
    if log != [] {
      NumberedInOrder(log[..|log| - 1]);
    }
  }

  lemma TrimLeavesNewest(s: Snapshot, all: seq<RecentMessage>)
    requires Retains(s, all)
    ensures var t := Trimmed(s, s.recentBufferCapacity);
      && t.recentMessages == Newest(all, s.recentBufferCapacity)
      && |t.recentMessages| == Min(s.recentBufferCapacity, |all|) && t.nextSeq == |all|
  {
  }

  lemma NewestNumbered(all: seq<RecentMessage>, cap: nat)
    requires forall i :: 0 <= i < |all| ==> all[i].seqNo == i
    ensures var newest := Newest(all, cap);
      forall i :: 0 <= i < |newest| ==> newest[i].seqNo == |all| - |newest| + i
  {
  }

  /** Messages published by the first `k` entries. */
  function MessagesBefore(log: seq<Entry>, k: nat): nat
    requires k <= |log|
  {
    if k == 0 then 0
    else MessagesBefore(log, k - 1) + if log[k - 1].o.Publish? then |log[k - 1].o.messages| else 0
  }

  lemma {:induction false} MessagesBeforePrefix(log: seq<Entry>, before: seq<Entry>, k: nat)
    requires k <= |before| <= |log| && before == log[..|before|]
    ensures MessagesBefore(log, k) == MessagesBefore(before, k)
  {
    if k > 0 {
      MessagesBeforePrefix(log, before, k - 1);
    }
  }

  lemma {:induction false} MessagesCounted(log: seq<Entry>)
    ensures |Messages(log)| == MessagesBefore(log, |log|)
    decreases |log|
  {
    if log != [] {
      var before := log[..|log| - 1];
      MessagesCounted(before);
      MessagesBeforePrefix(log, before, |before|);
    }
  }

  /** Message `j` of entry `k` is numbered by the messages before it, and is kept as it
      was captured, with its topic and the time it was observed. */
  lemma {:induction false} MessageAsPublished(log: seq<Entry>, k: nat, j: nat)
    requires k < |log| && log[k].o.Publish? && j < |log[k].o.messages|
    ensures |Messages(log)| == MessagesBefore(log, |log|)
    ensures var i := MessagesBefore(log, k) + j;
      var captured := log[k].o.messages[j];
      && i < |Messages(log)|
      && Messages(log)[i] == RecentMessage(i, log[k].o.topic, captured.data, captured.attributes, captured.originalLen,
                                           captured.truncated, log[k].now)
    decreases |log|
  {
    var before := log[..|log| - 1];
    MessagesCounted(log);
    MessagesCounted(before);
    MessagesBeforePrefix(log, before, |before|);
    if k < |before| {
      MessageAsPublished(before, k, j);
      MessagesBeforePrefix(log, before, k);
    }
  }

  /** Whenever a snapshot is published, its buffer is exactly the newest
      min(cap, total) messages, numbered contiguously up to the last one. */
  lemma PublishedBufferIsNewest(capacity: nat, ops: seq<OwnerOp>)
    requires ops != [] && ops[|ops| - 1].Trim?
    ensures var s, all := Replay(capacity, ops), Messages(LogOf(ops));
      && s.recentMessages == Newest(all, capacity)
      && |s.recentMessages| == Min(capacity, |all|)
      && forall i :: 0 <= i < |s.recentMessages| ==>
           s.recentMessages[i].seqNo == s.nextSeq - |s.recentMessages| + i
  {
    var before, all := ops[..|ops| - 1], Messages(LogOf(ops));
    BufferIsSuffix(capacity, before);
    assert LogOf(ops) == LogOf(before);
    TrimLeavesNewest(Replay(capacity, before), all);
    NumberedInOrder(LogOf(ops));
    NewestNumbered(all, capacity);
  }

  /** A history only ever extends the numbered messages. */
  lemma {:induction false} MessagesOnlyGrow(ops: seq<OwnerOp>, more: seq<OwnerOp>)
    ensures Messages(LogOf(ops)) <= Messages(LogOf(ops + more))
    decreases |more|
  {
    if more == [] {
      assert ops + more == ops;
    } else {
      var init := more[..|more| - 1];
      MessagesOnlyGrow(ops, init);
      assert (ops + more)[..|ops + more| - 1] == ops + init;
      var log := LogOf(ops + more);
      if more[|more| - 1].Fold? {
        assert log[..|log| - 1] == LogOf(ops + init);
      }
    }
  }

  /** A sequence number names one message for the whole run: any two snapshots
      that retain it agree on it. */
  lemma SequenceNumberIsIdentity(capacity: nat, ops: seq<OwnerOp>, more: seq<OwnerOp>, m: RecentMessage, n: RecentMessage)
    requires m in Replay(capacity, ops).recentMessages
    requires n in Replay(capacity, ops + more).recentMessages
    requires m.seqNo == n.seqNo
    ensures m == n
  {
    BufferIsSuffix(capacity, ops);
    BufferIsSuffix(capacity, ops + more);
    MessagesOnlyGrow(ops, more);
    NumberedInOrder(LogOf(ops));
    NumberedInOrder(LogOf(ops + more));
    assert m in Messages(LogOf(ops)) && n in Messages(LogOf(ops + more));
  }

  // ---- Independence of how the queue was drained ----

  function TimelessMessages(messages: seq<RecentMessage>): seq<RecentMessage> {
    seq(|messages|, i requires 0 <= i < |messages| => messages[i].(seen := 0))
  }

  function TimelessTopic(topic: Topic): Topic {
    topic.(publishers := map peer | peer in topic.publishers :: topic.publishers[peer].(lastSeen := 0))
  }

  /** A snapshot with every clock reading erased. */
  function Timeless(s: Snapshot): Snapshot {
    s.(topics := map name | name in s.topics :: TimelessTopic(s.topics[name]),
       recentMessages := TimelessMessages(s.recentMessages))
  }

  /** The observations of a history, in order. */
  function Observed(ops: seq<OwnerOp>): seq<Observation> {
    if ops == [] then []
    else
      var before := Observed(ops[..|ops| - 1]);
      if ops[|ops| - 1].Fold? then before + [ops[|ops| - 1].o] else before
  }

  lemma ObservedOneMore(ops: seq<OwnerOp>, op: OwnerOp)
    ensures Observed(ops + [op]) == if op.Fold? then Observed(ops) + [op.o] else Observed(ops)
  {
    assert (ops + [op])[..|ops|] == ops;
  }

  lemma {:induction false} ObservedIsLog(ops: seq<OwnerOp>)
    ensures Observed(ops) == Observations(LogOf(ops))
  {
    if ops != [] {
      ObservedIsLog(ops[..|ops| - 1]);
    }
  }

  lemma TimelessCredit(topic: Topic, peer: string, count: nat, now: Instant)
    ensures TimelessTopic(Credited(topic, peer, count, now)) == Credited(TimelessTopic(topic), peer, count, 0)
  {
    assert TimelessTopic(Credited(topic, peer, count, now)).publishers
        == Credited(TimelessTopic(topic), peer, count, 0).publishers;
  }

  lemma TimelessPublish(s: Snapshot, o: Observation, now: Instant)
    requires o.Publish?
    ensures Timeless(Applied(s, o, now)) == Applied(Timeless(s), o, 0)
  {
    assert TimelessTopic(NO_TOPIC) == NO_TOPIC;
    TimelessCredit(TopicOr(s.topics, o.topic), PeerKey(o.peer), |o.messages|, now);
    assert Timeless(Applied(s, o, now)).topics == Applied(Timeless(s), o, 0).topics;
    assert Timeless(Applied(s, o, now)).recentMessages == Applied(Timeless(s), o, 0).recentMessages;
  }

  lemma TimelessListing(topics: map<string, Topic>, names: seq<string>)
    ensures (map name | name in ListedTopics(topics, names) :: TimelessTopic(ListedTopics(topics, names)[name]))
      == ListedTopics(map name | name in topics :: TimelessTopic(topics[name]), names)
  {
    assert TimelessTopic(NO_TOPIC) == NO_TOPIC;
  }

  /** Folding commutes with erasing clock readings. */
  lemma TimelessApplied(s: Snapshot, o: Observation, now: Instant)
    ensures Timeless(Applied(s, o, now)) == Applied(Timeless(s), o, 0)
  {
    if o.Publish? {
      TimelessPublish(s, o, now);
    } else if o.AdminSnapshot? {
      TimelessListing(s.topics, o.topics);
    }
  }

  /** Same state, except that `whole` still has messages `s` has let go of. */
  ghost predicate SameUpToTrim(s: Snapshot, whole: Snapshot) {
    && s.(recentMessages := whole.recentMessages) == whole
    && IsSuffix(s.recentMessages, whole.recentMessages)
    && |s.recentMessages| >= Min(|whole.recentMessages|, whole.recentBufferCapacity)
  }

  lemma SameUpToTrimPublish(s: Snapshot, whole: Snapshot, o: Observation)
    requires SameUpToTrim(s, whole) && o.Publish?
    ensures SameUpToTrim(Applied(s, o, 0), Applied(whole, o, 0))
  {
    SuffixGrows(s.recentMessages, whole.recentMessages, Stamped(o.messages, o.topic, s.nextSeq, 0));
  }

  lemma SameUpToTrimOther(s: Snapshot, whole: Snapshot, o: Observation)
    requires SameUpToTrim(s, whole) && !o.Publish?
    ensures SameUpToTrim(Applied(s, o, 0), Applied(whole, o, 0))
  {
    BufferUntouched(s, o, 0, whole.recentMessages);
    BufferUntouched(whole, o, 0, whole.recentMessages);
    assert s.(recentMessages := whole.recentMessages) == whole;
  }

  lemma SameUpToTrimStep(s: Snapshot, whole: Snapshot, o: Observation)
    requires SameUpToTrim(s, whole)
    ensures SameUpToTrim(Applied(s, o, 0), Applied(whole, o, 0))
  {
    if o.Publish? {
      SameUpToTrimPublish(s, whole, o);
    } else {
      SameUpToTrimOther(s, whole, o);
    }
  }

  /** States that differ only in what has been let go of are trimmed alike. */
  lemma TrimmedAlike(s: Snapshot, whole: Snapshot)
    requires SameUpToTrim(s, whole)
    ensures Trimmed(s, s.recentBufferCapacity) == Trimmed(whole, whole.recentBufferCapacity)
  {
  }

  lemma TimelessTrimmed(s: Snapshot)
    ensures Timeless(Trimmed(s, s.recentBufferCapacity)) == Trimmed(Timeless(s), s.recentBufferCapacity)
  {
  }

  lemma {:induction false} DrainingOnlyTrims(capacity: nat, ops: seq<OwnerOp>)
    ensures SameUpToTrim(Timeless(Replay(capacity, ops)), Replay(capacity, Folds(Observed(ops), 0)))
    decreases |ops|
  {
    if ops != [] {
      var before, last := ops[..|ops| - 1], ops[|ops| - 1];
      DrainingOnlyTrims(capacity, before);
      match last
      case Fold(o, now) =>
        TimelessApplied(Replay(capacity, before), o, now);
        SameUpToTrimStep(Timeless(Replay(capacity, before)), Replay(capacity, Folds(Observed(before), 0)), o);
        var folds := Folds(Observed(ops), 0);
        assert folds[..|folds| - 1] == Folds(Observed(before), 0);
      case Trim =>
    } else {
      assert Timeless(Empty(capacity)) == Empty(capacity);
    }
  }

  /** The snapshot that `observations` lead to, however they were drained. */
  function Canonical(capacity: nat, observations: seq<Observation>): Snapshot {
    Trimmed(Replay(capacity, Folds(observations, 0)), capacity)
  }

  /** Burst independence: apart from clock readings, a published snapshot is a
      function of the observations alone. */
  lemma BurstIndependence(capacity: nat, ops: seq<OwnerOp>)
    requires ops != [] && ops[|ops| - 1].Trim?
    ensures Timeless(Replay(capacity, ops)) == Canonical(capacity, Observed(ops))
  {
    var before := ops[..|ops| - 1];
    BufferIsSuffix(capacity, before);
    DrainingOnlyTrims(capacity, before);
    TrimmedAlike(Timeless(Replay(capacity, before)), Replay(capacity, Folds(Observed(before), 0)));
    TimelessTrimmed(Replay(capacity, before));
    assert Observed(ops) == Observed(before);
  }

  // ---- What the owning task publishes ----

  function Entries(observations: seq<Observation>, now: Instant): seq<Entry> {
    seq(|observations|, i requires 0 <= i < |observations| => Entry(observations[i], now))
  }

  /** Everything some bursts brought, each observation at its burst's clock reading. */
  function LogOfBursts(bursts: seq<Burst>): seq<Entry> {
    if bursts == [] then []
    else
      var last := bursts[|bursts| - 1];
      LogOfBursts(bursts[..|bursts| - 1]) + [Entry(last.first, last.now)] + Entries(last.rest, last.now)
  }

  lemma LogOneMore(ops: seq<OwnerOp>, op: OwnerOp)
    ensures LogOf(ops + [op]) == LogOf(ops) + if op.Fold? then [Entry(op.o, op.now)] else []
  {
    assert (ops + [op])[..|ops|] == ops;
  }

  lemma {:induction false} LogFolds(ops: seq<OwnerOp>, observations: seq<Observation>, now: Instant)
    ensures LogOf(ops + Folds(observations, now)) == LogOf(ops) + Entries(observations, now)
    decreases |observations|
  {
    if observations == [] {
      assert ops + Folds(observations, now) == ops;
    } else {
      var before, last := observations[..|observations| - 1], observations[|observations| - 1];
      LogFolds(ops, before, now);
      assert ops + Folds(observations, now) == ops + Folds(before, now) + [Fold(last, now)];
      LogOneMore(ops + Folds(before, now), Fold(last, now));
      assert Entries(observations, now) == Entries(before, now) + [Entry(last, now)];
    }
  }

  /** A burst's operations fold in exactly what it brought, and end with the trim. */
  lemma LogBurst(ops: seq<OwnerOp>, burst: Burst)
    ensures LogOf(ops + BurstOps(burst)) == LogOf(ops) + [Entry(burst.first, burst.now)] + Entries(burst.rest, burst.now)
    ensures var all := ops + BurstOps(burst); all[|all| - 1] == Trim
  {
    var first := ops + [Fold(burst.first, burst.now)];
    LogOneMore(ops, Fold(burst.first, burst.now));
    LogFolds(first, burst.rest, burst.now);
    LogOneMore(first + Folds(burst.rest, burst.now), Trim);
    assert ops + BurstOps(burst) == first + Folds(burst.rest, burst.now) + [Trim];
  }

  lemma {:induction false} LogOfBurstOps(bursts: seq<Burst>)
    ensures LogOf(OpsOf(bursts)) == LogOfBursts(bursts)
    ensures bursts != [] ==> OpsOf(bursts) != [] && OpsOf(bursts)[|OpsOf(bursts)| - 1] == Trim
  {
    if bursts != [] {
      LogOfBurstOps(bursts[..|bursts| - 1]);
      LogBurst(OpsOf(bursts[..|bursts| - 1]), bursts[|bursts| - 1]);
    }
  }

  /** What the owning task publishes after some bursts holds exactly the newest
      min(cap, total) of the messages they brought. */
  lemma BurstsPublishNewest(capacity: nat, bursts: seq<Burst>)
    requires bursts != []
    ensures var s, all := Replay(capacity, OpsOf(bursts)), Messages(LogOfBursts(bursts));
      && s.nextSeq == |all| && |s.recentMessages| == Min(capacity, |all|)
      && s.recentMessages == all[|all| - |s.recentMessages|..]
  {
    LogOfBurstOps(bursts);
    PublishedBufferIsNewest(capacity, OpsOf(bursts));
    BufferIsSuffix(capacity, OpsOf(bursts));
  }

  /** Two ways of cutting the same observations into bursts publish the same, clock
      readings aside. */
  lemma CutsPublishAlike(capacity: nat, one: seq<Burst>, other: seq<Burst>)
    requires one != [] && other != []
    requires Observations(LogOfBursts(one)) == Observations(LogOfBursts(other))
    ensures Timeless(Replay(capacity, OpsOf(one))) == Timeless(Replay(capacity, OpsOf(other)))
  {
    LogOfBurstOps(one);
    LogOfBurstOps(other);
    ObservedIsLog(OpsOf(one));
    ObservedIsLog(OpsOf(other));
    BurstIndependence(capacity, OpsOf(one));
    BurstIndependence(capacity, OpsOf(other));
  }
}
