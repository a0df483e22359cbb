/** From a tap, through the state, over the wire, to the viewer. */
module EndToEnd {
  import opened Basics
  import opened Events
  import opened State
  import opened StateLog
  import opened LiveCount
  import opened Capture
  import Convert
  import App

  function ObservationsOf(calls: seq<Call>, cap: nat): seq<Observation> {
    if calls == [] then []
    else
      var before := ObservationsOf(calls[..|calls| - 1], cap);
      match ObservationOf(calls[|calls| - 1], cap)
      case None => before
      case Some(o) => before + [o]
  }

  /** Every message published through the taps, in order. */
  function Sent(calls: seq<Call>, cap: nat): seq<Dispatch> {
    if calls == [] then []
    else Sent(calls[..|calls| - 1], cap) + MessagesOf(calls[|calls| - 1], cap)
  }

  /** A retained message is its sender's: same topic and attributes, the payload's first
      `cap` bytes, its true length, and a flag that is right about the cut. */
  ghost predicate CapturedFrom(m: RecentMessage, sent: Dispatch, cap: nat) {
    && m.topic == sent.topic
    && m.attributes == sent.message.attributes
    && m.data == sent.message.payload[..Min(|sent.message.payload|, cap)]
    && m.originalLen == |sent.message.payload|
    && (m.truncated <==> |m.data| < m.originalLen)
  }

  ghost predicate AllCaptured(all: seq<RecentMessage>, sent: seq<Dispatch>, cap: nat) {
    |all| == |sent| && forall i :: 0 <= i < |all| ==> CapturedFrom(all[i], sent[i], cap)
  }

  lemma CaptureStep(all: seq<RecentMessage>, sent: seq<Dispatch>, more: seq<Dispatch>, topic: string, now: Instant, cap: nat)
    requires AllCaptured(all, sent, cap) && forall d :: d in more ==> d.topic == topic
    ensures AllCaptured(all + Stamped(CaptureDispatches(more, cap), topic, |all|, now), sent + more, cap)
  {
  }

  lemma {:induction false} LogIsCaptured(log: seq<Entry>, calls: seq<Call>, cap: nat)
    requires Observations(log) == ObservationsOf(calls, cap)
    ensures AllCaptured(Messages(log), Sent(calls, cap), cap)
    decreases |calls|
  {
    if calls != [] {
      var before, call := calls[..|calls| - 1], calls[|calls| - 1];
      match ObservationOf(call, cap)
      case None =>
        LogIsCaptured(log, before, cap);
        assert Sent(before, cap) + [] == Sent(before, cap);
      case Some(o) =>
        assert |Observations(log)| == |log|;
        var earlier := log[..|log| - 1];
        assert Observations(earlier) == Observations(log)[..|log| - 1];
        LogIsCaptured(earlier, before, cap);
        assert Observations(log)[|log| - 1] == log[|log| - 1].o;
        if o.Publish? {
          PublishCaptures(call, cap);
          CaptureStep(Messages(earlier), Sent(before, cap), MessagesOf(call, cap), o.topic, log[|log| - 1].now, cap);
        } else {
          assert Sent(before, cap) + [] == Sent(before, cap);
        }
    }
  }

  lemma SuffixCaptured(recent: seq<RecentMessage>, all: seq<RecentMessage>, sent: seq<Dispatch>, cap: nat, i: nat)
    requires IsSuffix(recent, all) && AllCaptured(all, sent, cap) && i < |recent|
    requires forall k :: 0 <= k < |all| ==> all[k].seqNo == k
    ensures recent[i].seqNo < |sent| && CapturedFrom(recent[i], sent[recent[i].seqNo], cap)
  {
    assert recent[i] == all[|all| - |recent| + i];
  }

  /** Every retained message is the one published under its sequence number. */
  lemma RetainedIsCaptured(capacity: nat, ops: seq<OwnerOp>, calls: seq<Call>, cap: nat, i: nat)
    requires Observed(ops) == ObservationsOf(calls, cap)
    requires i < |Replay(capacity, ops).recentMessages|
    ensures var m := Replay(capacity, ops).recentMessages[i];
      m.seqNo < |Sent(calls, cap)| && CapturedFrom(m, Sent(calls, cap)[m.seqNo], cap)
  {
    var recent, all := Replay(capacity, ops).recentMessages, Messages(LogOf(ops));
    BufferIsSuffix(capacity, ops);
    NumberedInOrder(LogOf(ops));
    ObservedIsLog(ops);
    LogIsCaptured(LogOf(ops), calls, cap);
    SuffixCaptured(recent, all, Sent(calls, cap), cap, i);
  }

  /** Every message a viewer is ever shown, on its side of the wire, is the one
      published under its sequence number, cut to the payload cap and labelled so
      exactly when it was cut: whichever protocol it came through, however the
      queue was drained and whatever the two clocks say. */
  lemma ViewerShowsWhatWasPublished(
    capacity: nat, ops: seq<OwnerOp>, calls: seq<Call>, cap: nat, departure: Instant, arrival: Instant, m: RecentMessage)
    requires Observed(ops) == ObservationsOf(calls, cap)
    requires m in Convert.FromWire(Convert.ToWire(Replay(capacity, ops), departure), arrival).recentMessages
    ensures m.seqNo < |Sent(calls, cap)| && CapturedFrom(m, Sent(calls, cap)[m.seqNo], cap)
  {
    var s := Replay(capacity, ops);
    var there := Convert.FromWire(Convert.ToWire(s, departure), arrival);
    Convert.StateRoundTrip(s, departure, arrival);
    var i :| 0 <= i < |there.recentMessages| && there.recentMessages[i] == m;
    RetainedIsCaptured(capacity, ops, calls, cap, i);
    assert m == s.recentMessages[i].(seen := m.seen);
  }

  // ---- What the wire reports ----

  /** A topic on the wire has the figures of the log: counted to the topic and to each
      publisher, with the age of each publisher's last message. */
  ghost predicate WireTopicAgrees(t: Convert.WireTopic, log: seq<Entry>, name: string, departure: Instant) {
    && t.publishCount == PublishedTo(log, name)
    && t.present == (name in Listing(log).0)
    && (forall peer :: peer in t.publishers <==> LastPublish(log, name, peer).Some?)
    && (forall peer :: peer in t.publishers ==>
          && t.publishers[peer].published == PublishedBy(log, name, peer)
          && t.publishers[peer].millisSinceLastSeen == Convert.AgeMillis(LastPublish(log, name, peer).value, departure))
  }

  lemma WireReportsTopic(capacity: nat, ops: seq<OwnerOp>, departure: Instant, name: string)
    ensures var wire, log := Convert.ToWire(Replay(capacity, ops), departure), LogOf(ops);
      && (name in wire.topics ==> WireTopicAgrees(wire.topics[name], log, name, departure))
      && (name !in wire.topics ==> PublishedTo(log, name) == 0 && name !in Listing(log).0)
  {
    TopicsIndexLog(capacity, ops, name);
  }

  lemma WireReportsSubscription(capacity: nat, ops: seq<OwnerOp>, departure: Instant, name: string)
    ensures var wire, log := Convert.ToWire(Replay(capacity, ops), departure), LogOf(ops);
      && (name in wire.subscriptions ==>
            var sub := wire.subscriptions[name];
            && sub.delivered == DeliveredTo(log, name) && sub.acked == AckedOn(log, name)
            && sub.present == (name in Names(Listing(log).1)) && sub.topic == Attachment(log, name)
            && LargestTail(sub.liveConsumers, Observations(log), name))
      && (name !in wire.subscriptions ==>
            DeliveredTo(log, name) == 0 && AckedOn(log, name) == 0 && name !in Names(Listing(log).1))
  {
    SubscriptionsIndexLog(capacity, ops, name);
  }

  /** A message on the wire, field by field, is the one sent under its number. */
  lemma WireReportsMessage(capacity: nat, ops: seq<OwnerOp>, calls: seq<Call>, cap: nat, departure: Instant, i: nat)
    requires Observed(ops) == ObservationsOf(calls, cap)
    requires i < |Convert.ToWire(Replay(capacity, ops), departure).recentMessages|
    ensures var m := Convert.ToWire(Replay(capacity, ops), departure).recentMessages[i];
      && m.seqNo < |Sent(calls, cap)|
      && var sent := Sent(calls, cap)[m.seqNo];
         && m.topic == sent.topic && m.originalLen == |sent.message.payload|
         && m.data == sent.message.payload[..Min(|sent.message.payload|, cap)]
         && (m.truncated <==> |m.data| < m.originalLen)
         && |m.attributes| == |sent.message.attributes|
         && forall j :: 0 <= j < |m.attributes| ==>
              m.attributes[j].key == sent.message.attributes[j].0 && m.attributes[j].value == sent.message.attributes[j].1
  {
    RetainedIsCaptured(capacity, ops, calls, cap, i);
  }

  // ---- What the clients meant ----

  /** What the clients of some calls meant to publish, where the calls went through. */
  function Meant(calls: seq<Call>, intents: seq<Option<Intent>>): seq<Dispatch>
    requires |calls| == |intents|
  {
    if calls == [] then []
    else
      var n := |calls| - 1;
      Meant(calls[..n], intents[..n])
      + if intents[n].Some? && Accepted(calls[n]) then To(intents[n].value.topic, intents[n].value.messages) else []
  }

  lemma {:induction false} MeantIsSent(calls: seq<Call>, intents: seq<Option<Intent>>, cap: nat)
    requires |calls| == |intents| && forall i :: 0 <= i < |calls| ==> Means(calls[i], intents[i])
    ensures Sent(calls, cap) == Meant(calls, intents)
  {
    if calls != [] {
      var n := |calls| - 1;
      MeantIsSent(calls[..n], intents[..n], cap);
      MeantIsObserved(calls[n], intents[n], cap);
    }
  }

  /** Every message a viewer is ever shown is what a client meant to publish, in
      whichever protocol, alphabet and padding it encoded it: its topic, its attributes,
      its payload's first `cap` bytes, its true length, and whether it was cut. */
  lemma ViewerShowsWhatWasMeant(
    capacity: nat, ops: seq<OwnerOp>, calls: seq<Call>, intents: seq<Option<Intent>>, cap: nat,
    departure: Instant, arrival: Instant, m: RecentMessage)
    requires Observed(ops) == ObservationsOf(calls, cap)
    requires |calls| == |intents| && forall i :: 0 <= i < |calls| ==> Means(calls[i], intents[i])
    requires m in Convert.FromWire(Convert.ToWire(Replay(capacity, ops), departure), arrival).recentMessages
    ensures m.seqNo < |Meant(calls, intents)| && CapturedFrom(m, Meant(calls, intents)[m.seqNo], cap)
  {
    MeantIsSent(calls, intents, cap);
    ViewerShowsWhatWasPublished(capacity, ops, calls, cap, departure, arrival, m);
  }

  /** What the UI holds after one snapshot has crossed. */
  function Arrived(capacity: nat, ops: seq<OwnerOp>, departure: Instant, arrival: Instant): seq<RecentMessage> {
    Convert.FromWire(Convert.ToWire(Replay(capacity, ops), departure), arrival).recentMessages
  }

  /** A published snapshot reaches the UI with its numbering intact, so selections
      move by sequence number. */
  lemma ArrivesContiguous(capacity: nat, ops: seq<OwnerOp>, departure: Instant, arrival: Instant)
    requires ops != [] && ops[|ops| - 1].Trim?
    ensures App.Contiguous(Arrived(capacity, ops, departure, arrival))
  {
    PublishedBufferIsNewest(capacity, ops);
    Convert.StateRoundTrip(Replay(capacity, ops), departure, arrival);
  }

  /** A selected sequence number denotes the same message in every snapshot of the
      run that still retains it; only the rebuilt clock reading may differ. */
  lemma SelectionAnchored(
    capacity: nat, ops: seq<OwnerOp>, more: seq<OwnerOp>, d1: Instant, a1: Instant, d2: Instant, a2: Instant, seqNo: nat)
    ensures var one, other := Arrived(capacity, ops, d1, a1), Arrived(capacity, ops + more, d2, a2);
      var i, j := App.IndexOfSeq(one, seqNo), App.IndexOfSeq(other, seqNo);
      i.Some? && j.Some? ==> one[i.value].(seen := 0) == other[j.value].(seen := 0)
  {
    var s1, s2 := Replay(capacity, ops), Replay(capacity, ops + more);
    var one, other := Arrived(capacity, ops, d1, a1), Arrived(capacity, ops + more, d2, a2);
    Convert.StateRoundTrip(s1, d1, a1);
    Convert.StateRoundTrip(s2, d2, a2);
    var i, j := App.IndexOfSeq(one, seqNo), App.IndexOfSeq(other, seqNo);
    if i.Some? && j.Some? {
      SequenceNumberIsIdentity(capacity, ops, more, s1.recentMessages[i.value], s2.recentMessages[j.value]);
    }
  }
}
