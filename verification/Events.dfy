/** What the taps and the admin poller observe, and the sink that carries it to
    the task owning the state. */
module Events {
  import opened Basics

  /** One captured message of a publish call. */
  datatype PublishedMessage = PublishedMessage(
    data: seq<byte>,
    attributes: seq<(string, string)>,
    originalLen: nat,
    truncated: bool)

  datatype SubscriptionInfo = SubscriptionInfo(name: string, topic: string)

  /** A client's socket address, absent when the transport does not know it. */
  type Peer = Option<string>

  datatype Observation =
    | Publish(topic: string, peer: Peer, messages: seq<PublishedMessage>)
    | Deliver(subscription: string, peer: Peer, count: nat)
    | Ack(subscription: string, peer: Peer, count: nat)
    | ConsumerOpen(subscription: string, peer: Peer)
    | ConsumerClose(subscription: string, peer: Peer)
    | AdminSnapshot(topics: seq<string>, subscriptions: seq<SubscriptionInfo>)

  /** The stable identity of a publisher. */
  function PeerKey(peer: Peer): string {
    match peer
    case None => "unknown"
    case Some(address) => address
  }

  /** The channel after one non-blocking send: unchanged if it is full or its
      receiver is gone. */
  function Offered(queue: seq<Observation>, capacity: nat, open: bool, o: Observation): seq<Observation> {
    if open && |queue| < capacity then queue + [o] else queue
  }

  /** The channel after several sends in a row. */
  function OfferedAll(queue: seq<Observation>, capacity: nat, open: bool, os: seq<Observation>): seq<Observation> {
    if os == [] then queue
    else Offered(OfferedAll(queue, capacity, open, os[..|os| - 1]), capacity, open, os[|os| - 1])
  }

  lemma OfferedOneMore(queue: seq<Observation>, capacity: nat, open: bool, os: seq<Observation>, o: Observation)
    ensures OfferedAll(queue, capacity, open, os + [o]) == Offered(OfferedAll(queue, capacity, open, os), capacity, open, o)
  {
    assert (os + [o])[..|os|] == os;
  }

  lemma {:induction false} OfferedSplit(
    queue: seq<Observation>, capacity: nat, open: bool, first: seq<Observation>, second: seq<Observation>)
    ensures OfferedAll(queue, capacity, open, first + second)
      == OfferedAll(OfferedAll(queue, capacity, open, first), capacity, open, second)
    decreases |second|
  {
    if second == [] {
      assert first + second == first;
    } else {
      var before, last := second[..|second| - 1], second[|second| - 1];
      OfferedSplit(queue, capacity, open, first, before);
      assert first + second == first + before + [last];
      OfferedOneMore(queue, capacity, open, first + before, last);
    }
  }

  /** What an open channel takes in is what fits, in order; a closed one takes nothing. */
  lemma {:induction false} OfferedFits(queue: seq<Observation>, capacity: nat, open: bool, os: seq<Observation>)
    requires |queue| <= capacity
    ensures OfferedAll(queue, capacity, open, os) == queue + if open then os[..Min(|os|, capacity - |queue|)] else []
  {
    if os != [] {
      OfferedFits(queue, capacity, open, os[..|os| - 1]);
      assert os[..|os|] == os;
    }
  }

  /** The bounded, non-blocking channel into the state owner. */
  class ObservationSink {
    var queue: seq<Observation>
    var open: bool
    const capacity: nat

    constructor (capacity: nat)
      ensures queue == [] && open && this.capacity == capacity
    {
      this.queue, this.open, this.capacity := [], true, capacity;
    }

    /** Record an observation. Never blocks; drops on a full or closed channel. */
    method Observe(o: Observation)
      modifies this`queue
      ensures queue == Offered(old(queue), capacity, open, o)
      ensures |old(queue)| <= capacity ==> |queue| <= capacity
    {
      if open && |queue| < capacity {
        queue := queue + [o];
      }
    }
  }
}
