/** What the publish taps capture, from either protocol, and which REST calls they
    count at all. */
module Capture {
  import opened Basics
  import opened Events
  import opened Json
  import opened Base64

  /** A message as its publisher sent it. */
  datatype Message = Message(payload: seq<byte>, attributes: seq<(string, string)>)

  /** The gRPC tap: a copy of at most `cap` bytes. */
  function CaptureGrpc(m: Message, cap: nat): PublishedMessage {
    PublishedMessage(m.payload[..Min(|m.payload|, cap)], m.attributes, |m.payload|, |m.payload| > cap)
  }

  // ---- The REST tap ----

  function MemberOf(fields: seq<Field>, name: string): Option<Json.Value> {
    if fields == [] then None
    else if fields[|fields| - 1].name == name then Some(fields[|fields| - 1].value)
    else MemberOf(fields[..|fields| - 1], name)
  }

  /** A member of a JSON object. */
  function Member(v: Json.Value, name: string): Option<Json.Value> {
    if v.Obj? then MemberOf(v.fields, name) else None
  }

  /** `v` is what the last field called `name` holds. */
  ghost predicate Says(fields: seq<Field>, name: string, v: Json.Value) {
    exists i :: 0 <= i < |fields| && fields[i] == Field(name, v) && forall j :: i < j < |fields| ==> fields[j].name != name
  }

  ghost predicate Lacks(fields: seq<Field>, name: string) {
    forall i :: 0 <= i < |fields| ==> fields[i].name != name
  }

  lemma SaysOneMore(before: seq<Field>, last: Field, name: string, v: Json.Value)
    ensures Says(before + [last], name, v) <==> last == Field(name, v) || (last.name != name && Says(before, name, v))
  {
    var fields := before + [last];
    assert fields[|before|] == last && forall i :: 0 <= i < |before| ==> fields[i] == before[i];
    if Says(before, name, v) && last.name != name {
      var i :| 0 <= i < |before| && before[i] == Field(name, v) && forall j :: i < j < |before| ==> before[j].name != name;
      assert fields[i] == Field(name, v);
    }
  }

  lemma LacksOneMore(before: seq<Field>, last: Field, name: string)
    ensures Lacks(before + [last], name) <==> last.name != name && Lacks(before, name)
  {
    var fields := before + [last];
    assert fields[|before|] == last && forall i :: 0 <= i < |before| ==> fields[i] == before[i];
  }

  lemma {:induction false} MemberSays(fields: seq<Field>, name: string, v: Json.Value)
    ensures MemberOf(fields, name) == Some(v) <==> Says(fields, name, v)
    ensures MemberOf(fields, name) == None <==> Lacks(fields, name)
  {
    if fields != [] {
      var before, last := fields[..|fields| - 1], fields[|fields| - 1];
      MemberSays(before, name, v);
      SaysOneMore(before, last, name, v);
      LacksOneMore(before, last, name);
      assert fields == before + [last];
    }
  }

  /** The payload a REST message carries; none at all reads as empty. */
  function RestPayload(message: Json.Value): seq<byte> {
    match Member(message, "data")
    case Some(Text(s)) => DecodeBase64(s)
    case _ => []
  }

  /** The members with string values. */
  function TextFields(fields: seq<Field>): seq<(string, string)> {
    if fields == [] then []
    else
      var before, last := TextFields(fields[..|fields| - 1]), fields[|fields| - 1];
      if last.value.Text? then before + [(last.name, last.value.s)] else before
  }

  /** Members with string values are kept in order, all others skipped. */
  lemma {:induction false} TextFieldsSplit(first: seq<Field>, second: seq<Field>)
    ensures TextFields(first + second) == TextFields(first) + TextFields(second)
    ensures forall f: Field :: TextFields([f]) == if f.value.Text? then [(f.name, f.value.s)] else []
    decreases |second|
  {
    forall f: Field ensures TextFields([f]) == if f.value.Text? then [(f.name, f.value.s)] else [] {
      assert [f][..0] == [];
    }
    if second == [] {
      assert first + second == first;
    } else {
      assert (first + second)[..|first + second| - 1] == first + second[..|second| - 1];
      TextFieldsSplit(first, second[..|second| - 1]);
    }
  }

  function RestAttributes(message: Json.Value): seq<(string, string)> {
    match Member(message, "attributes")
    case Some(Obj(fields)) => TextFields(fields)
    case _ => []
  }

  function RestMessage(message: Json.Value): Message {
    Message(RestPayload(message), RestAttributes(message))
  }

  // ---- What a client encodes ----

  /** The attributes of a message as JSON members. */
  function AttributeFields(attributes: seq<(string, string)>): seq<Field> {
    seq(|attributes|, i requires 0 <= i < |attributes| => Field(attributes[i].0, Text(attributes[i].1)))
  }

  /** `fields` carry the payload `d`, in either alphabet and with any part of the
      padding, or not at all if it is empty. */
  ghost predicate CarriesPayload(fields: seq<Field>, d: seq<byte>) {
    || (exists a, k :: 0 <= k <= Missing(d) && Says(fields, "data", Text(Encode(a, d) + Pads(k))))
    || (d == [] && Lacks(fields, "data"))
  }

  ghost predicate CarriesAttributes(fields: seq<Field>, attributes: seq<(string, string)>) {
    || Says(fields, "attributes", Obj(AttributeFields(attributes)))
    || (attributes == [] && Lacks(fields, "attributes"))
  }

  /** A client's JSON for the message `m`, whatever else it holds. */
  ghost predicate Encodes(v: Json.Value, m: Message) {
    v.Obj? && CarriesPayload(v.fields, m.payload) && CarriesAttributes(v.fields, m.attributes)
  }

  lemma PayloadRead(v: Json.Value, d: seq<byte>)
    requires v.Obj? && CarriesPayload(v.fields, d)
    ensures RestPayload(v) == d
  {
    if a, k :| 0 <= k <= Missing(d) && Says(v.fields, "data", Text(Encode(a, d) + Pads(k))) {
      MemberSays(v.fields, "data", Text(Encode(a, d) + Pads(k)));
      EitherAlphabetRoundTrip(a, d, k);
    } else {
      MemberSays(v.fields, "data", Null);
    }
  }

  lemma {:induction false} TextFieldsOf(attributes: seq<(string, string)>)
    ensures TextFields(AttributeFields(attributes)) == attributes
  {
    if attributes != [] {
      var before := attributes[..|attributes| - 1];
      TextFieldsOf(before);
      assert AttributeFields(attributes)[..|before|] == AttributeFields(before);
    }
  }

  lemma AttributesRead(v: Json.Value, attributes: seq<(string, string)>)
    requires v.Obj? && CarriesAttributes(v.fields, attributes)
    ensures RestAttributes(v) == attributes
  {
    if Says(v.fields, "attributes", Obj(AttributeFields(attributes))) {
      MemberSays(v.fields, "attributes", Obj(AttributeFields(attributes)));
      TextFieldsOf(attributes);
    } else {
      MemberSays(v.fields, "attributes", Null);
    }
  }

  /** Reading a client's JSON gives back its message. */
  lemma EncodedMessageRead(v: Json.Value, m: Message)
    requires Encodes(v, m)
    ensures RestMessage(v) == m
  {
    PayloadRead(v, m.payload);
    AttributesRead(v, m.attributes);
  }

  /** Text in neither alphabet, and anything that is not text, is captured as no data. */
  lemma UndecodableIsEmpty(v: Json.Value, data: Json.Value)
    requires v.Obj? && Says(v.fields, "data", data)
    requires data.Text? ==> forall a, d, k :: 0 <= k <= Missing(d) ==> data.s != Encode(a, d) + Pads(k)
    ensures RestPayload(v) == []
  {
    MemberSays(v.fields, "data", data);
    if data.Text? && DecodeBase64(data.s) != [] {
      NeverWrong(data.s);
    }
  }

  /** Capture one REST message, cutting the decoded payload down in place. */
  method CaptureRest(message: Json.Value, cap: nat) returns (captured: PublishedMessage)
    ensures captured == CaptureGrpc(RestMessage(message), cap)
    ensures forall m :: Encodes(message, m) ==>
      && captured.data == m.payload[..Min(|m.payload|, cap)] && captured.originalLen == |m.payload|
      && (captured.truncated <==> |m.payload| > cap) && captured.attributes == m.attributes
  {
    forall m | Encodes(message, m) ensures RestMessage(message) == m {
      EncodedMessageRead(message, m);
    }
    var data := RestPayload(message);
    var attributes := RestAttributes(message);
    var originalLen := |data|;
    var truncated := originalLen > cap;
    if |data| > cap {
      data := data[..cap];
    }
    captured := PublishedMessage(data, attributes, originalLen, truncated);
  }

  function ArrayMember(body: Option<Json.Value>, name: string): seq<Json.Value> {
    if body.None? then []
    else
      match Member(body.value, name)
      case Some(Arr(items)) => items
      case _ => []
  }

  // ---- Which REST calls count ----

  const PREFIX: string := "/v1/"

  /** The part after the last `c` and the part before it. */
  function RSplitOnce(s: string, c: char): Option<(string, string)> {
    if s == "" then None
    else if s[|s| - 1] == c then Some((s[..|s| - 1], ""))
    else
      match RSplitOnce(s[..|s| - 1], c)
      case None => None
      case Some((head, tail)) => Some((head, tail + [s[|s| - 1]]))
  }

  /** Resource name and verb of a path like `/v1/projects/p/topics/t:publish`. */
  function ResourceAndVerb(path: string): Option<(string, string)> {
    if |path| < |PREFIX| || path[..|PREFIX|] != PREFIX then None
    else
      match RSplitOnce(path[|PREFIX|..], ':')
      case None => None
      case Some((resource, verb)) => if resource != "" && verb != "" then Some((resource, verb)) else None
  }

  lemma {:induction false} RSplitSound(s: string, c: char)
    requires RSplitOnce(s, c).Some?
    ensures var (head, tail) := RSplitOnce(s, c).value; s == head + [c] + tail && c !in tail
  {
    var init, last := s[..|s| - 1], s[|s| - 1];
    assert s == init + [last];
    if last != c {
      RSplitSound(init, c);
    }
  }

  lemma {:induction false} RSplitComplete(c: char, head: string, tail: string)
    requires c !in tail
    ensures RSplitOnce(head + [c] + tail, c) == Some((head, tail))
    decreases |tail|
  {
    var s := head + [c] + tail;
    if tail == "" {
      assert s[..|s| - 1] == head;
    } else {
      RSplitComplete(c, head, tail[..|tail| - 1]);
      assert s[..|s| - 1] == head + [c] + tail[..|tail| - 1];
      assert s[|s| - 1] == tail[|tail| - 1] && tail == tail[..|tail| - 1] + [tail[|tail| - 1]];
    }
  }

  lemma RSplitExact(s: string, c: char, head: string, tail: string)
    ensures RSplitOnce(s, c) == Some((head, tail)) <==> s == head + [c] + tail && c !in tail
  {
    if RSplitOnce(s, c).Some? { RSplitSound(s, c); }
    if c !in tail { RSplitComplete(c, head, tail); }
  }

  /** A path is read as a resource and a verb exactly if it is built from them. */
  lemma PathExact(path: string, resource: string, verb: string)
    ensures ResourceAndVerb(path) == Some((resource, verb)) <==>
      path == PREFIX + resource + [':'] + verb && resource != "" && verb != "" && ':' !in verb
  {
    if |path| >= |PREFIX| && path[..|PREFIX|] == PREFIX {
      RSplitExact(path[|PREFIX|..], ':', resource, verb);
      assert path == PREFIX + path[|PREFIX|..];
      assert PREFIX + resource + [':'] + verb == PREFIX + (resource + [':'] + verb);
    }
    assert (PREFIX + resource + [':'] + verb)[..|PREFIX|] == PREFIX;
  }

  predicate OccursAt(s: string, part: string, i: nat) {
    i + |part| <= |s| && s[i..i + |part|] == part
  }

  predicate Contains(s: string, part: string) {
    exists i :: 0 <= i <= |s| && OccursAt(s, part, i)
  }

  /** Part of a text: with something, or nothing, on either side. */
  lemma ContainsExactly(s: string, part: string)
    ensures Contains(s, part) <==> exists before, after :: s == before + part + after
  {
    if Contains(s, part) {
      var i :| 0 <= i <= |s| && OccursAt(s, part, i);
      assert s == s[..i] + part + s[i + |part|..];
    }
    if exists before, after :: s == before + part + after {
      var before, after :| s == before + part + after;
      assert s[|before|..|before| + |part|] == part;
      assert OccursAt(s, part, |before|);
    }
  }

  /** One call at a tap, with what it takes to observe it. Bodies are the parsed
      JSON, absent when the encoding cannot be undone or the text is not JSON. */
  datatype Call =
    | GrpcPublish(topic: string, peer: Peer, messages: seq<Message>, ok: bool)
    | GrpcPull(subscription: string, peer: Peer, received: nat, ok: bool)
    | GrpcAcknowledge(subscription: string, peer: Peer, ackIds: nat, ok: bool)
    | RestCall(post: bool, path: string, success: bool, request: Option<Json.Value>, response: Option<Json.Value>, from: Peer)
    | Elsewhere(o: Observation) // any observation that is not a publish

  function CaptureAll(messages: seq<Message>, cap: nat): seq<PublishedMessage> {
    seq(|messages|, i requires 0 <= i < |messages| => CaptureGrpc(messages[i], cap))
  }

  function RestMessages(body: Option<Json.Value>): seq<Message> {
    var items := ArrayMember(body, "messages");
    seq(|items|, i requires 0 <= i < |items| => RestMessage(items[i]))
  }

  /** What a completed call is observed as; a rejected one is not observed. */
  function ObservationOf(call: Call, cap: nat): Option<Observation> {
    match call
    case GrpcPublish(topic, peer, messages, ok) =>
      if ok then Some(Publish(topic, peer, CaptureAll(messages, cap))) else None
    case GrpcPull(subscription, peer, received, ok) => if ok then Some(Deliver(subscription, peer, received)) else None
    case GrpcAcknowledge(subscription, peer, ackIds, ok) => if ok then Some(Ack(subscription, peer, ackIds)) else None
    case RestCall(post, path, success, request, response, peer) =>
      if !post || !success then None
      else
        (match ResourceAndVerb(path)
         case None => None
         case Some((resource, verb)) =>
           if verb == "publish" && Contains(resource, "/topics/") then
             var messages := RestMessages(request);
             if messages == [] then None else Some(Publish(resource, peer, CaptureAll(messages, cap)))
           else if verb == "pull" && Contains(resource, "/subscriptions/") then
             var n := |ArrayMember(response, "receivedMessages")|;
             if n > 0 then Some(Deliver(resource, peer, n)) else None
           else if verb == "acknowledge" && Contains(resource, "/subscriptions/") then
             var n := |ArrayMember(request, "ackIds")|;
             if n > 0 then Some(Ack(resource, peer, n)) else None
           else None)
    case Elsewhere(o) => if o.Publish? then None else Some(o)
  }

  /** A message and the topic it was sent to. */
  datatype Dispatch = Dispatch(topic: string, message: Message)

  function To(topic: string, messages: seq<Message>): seq<Dispatch> {
    seq(|messages|, i requires 0 <= i < |messages| => Dispatch(topic, messages[i]))
  }

  /** The messages of a call that is observed as a publish. */
  function MessagesOf(call: Call, cap: nat): seq<Dispatch> {
    match ObservationOf(call, cap)
    case Some(Publish(topic, _, _)) =>
      (match call
       case GrpcPublish(_, _, messages, _) => To(topic, messages)
       case RestCall(_, _, _, request, _, _) => To(topic, RestMessages(request))
       case _ => [])
    case _ => []
  }

  function CaptureDispatches(dispatches: seq<Dispatch>, cap: nat): seq<PublishedMessage> {
    seq(|dispatches|, i requires 0 <= i < |dispatches| => CaptureGrpc(dispatches[i].message, cap))
  }

  /** A publish is observed as the capture of exactly its messages. */
  lemma PublishCaptures(call: Call, cap: nat)
    requires ObservationOf(call, cap).Some? && ObservationOf(call, cap).value.Publish?
    ensures ObservationOf(call, cap).value.messages == CaptureDispatches(MessagesOf(call, cap), cap)
    ensures forall d :: d in MessagesOf(call, cap) ==> d.topic == ObservationOf(call, cap).value.topic
  {
  }

  /** A gRPC call is observed exactly if it succeeded: a publish with its messages, a
      pull and an acknowledgement with their counts, zero included. */
  lemma GrpcObserved(call: Call, cap: nat)
    ensures call.GrpcPublish? ==> (ObservationOf(call, cap)
      == if call.ok then Some(Publish(call.topic, call.peer, CaptureAll(call.messages, cap))) else None)
    ensures call.GrpcPull? ==> (ObservationOf(call, cap)
      == if call.ok then Some(Deliver(call.subscription, call.peer, call.received)) else None)
    ensures call.GrpcAcknowledge? ==> (ObservationOf(call, cap)
      == if call.ok then Some(Ack(call.subscription, call.peer, call.ackIds)) else None)
  {
  }

  // ---- REST calls, in terms of their bodies ----

  /** The body is an object whose member `name` is the array of `items`. */
  ghost predicate Holds(body: Option<Json.Value>, name: string, items: seq<Json.Value>) {
    body.Some? && body.value.Obj? && Says(body.value.fields, name, Arr(items))
  }

  /** The array a body holds is read as it is; without one there is nothing. */
  lemma ArrayRead(body: Option<Json.Value>, name: string)
    ensures forall items :: Holds(body, name, items) ==> ArrayMember(body, name) == items
    ensures ArrayMember(body, name) != [] ==> Holds(body, name, ArrayMember(body, name))
  {
    forall items | Holds(body, name, items) ensures ArrayMember(body, name) == items {
      MemberSays(body.value.fields, name, Arr(items));
    }
    if ArrayMember(body, name) != [] {
      MemberSays(body.value.fields, name, Arr(ArrayMember(body, name)));
    }
  }

  /** The path of a verb on a resource of some collection. */
  ghost predicate Addresses(path: string, resource: string, collection: string, verb: string) {
    path == PREFIX + resource + [':'] + verb && resource != "" && Contains(resource, collection)
  }

  /** A REST publish is counted exactly when it was a successful POST to a topic's
      publish path with at least one message in its body. */
  lemma RestPublishObserved(call: Call, cap: nat, topic: string)
    requires call.RestCall?
    ensures (exists m :: ObservationOf(call, cap) == Some(Publish(topic, call.from, m))) <==>
      && call.post && call.success && Addresses(call.path, topic, "/topics/", "publish")
      && exists items :: Holds(call.request, "messages", items) && items != []
  {
    PathExact(call.path, topic, "publish");
    ArrayRead(call.request, "messages");
    if ResourceAndVerb(call.path) == Some((topic, "publish")) && call.post && call.success
      && Contains(topic, "/topics/") && ArrayMember(call.request, "messages") != [] {
      assert ObservationOf(call, cap) == Some(Publish(topic, call.from, CaptureAll(RestMessages(call.request), cap)));
    }
  }

  /** Likewise for pulls, which are counted from the response. */
  lemma RestPullObserved(call: Call, cap: nat, name: string, n: nat)
    requires call.RestCall?
    ensures ObservationOf(call, cap) == Some(Deliver(name, call.from, n)) <==>
      && call.post && call.success && Addresses(call.path, name, "/subscriptions/", "pull")
      && exists items :: Holds(call.response, "receivedMessages", items) && n == |items| && n > 0
  {
    PathExact(call.path, name, "pull");
    ArrayRead(call.response, "receivedMessages");
  }

  /** And for acknowledgements, which are counted from the request. */
  lemma RestAckObserved(call: Call, cap: nat, name: string, n: nat)
    requires call.RestCall?
    ensures ObservationOf(call, cap) == Some(Ack(name, call.from, n)) <==>
      && call.post && call.success && Addresses(call.path, name, "/subscriptions/", "acknowledge")
      && exists items :: Holds(call.request, "ackIds", items) && n == |items| && n > 0
  {
    PathExact(call.path, name, "acknowledge");
    ArrayRead(call.request, "ackIds");
  }

  // ---- What the clients meant ----

  /** What a client publishes. */
  datatype Intent = Intent(topic: string, messages: seq<Message>)

  /** The call is the one a client makes to publish what it intends; or, without an
      intent, not a publish call. */
  ghost predicate Means(call: Call, intent: Option<Intent>) {
    match call
    case GrpcPublish(topic, _, messages, _) => intent == Some(Intent(topic, messages))
    case RestCall(_, path, _, request, _, _) =>
      (match intent
       case None => forall topic :: !Addresses(path, topic, "/topics/", "publish")
       case Some(Intent(topic, messages)) =>
         && Addresses(path, topic, "/topics/", "publish")
         && exists items :: Holds(request, "messages", items)
              && |items| == |messages| && forall i :: 0 <= i < |items| ==> Encodes(items[i], messages[i]))
    case _ => intent == None
  }

  /** The call went through. */
  predicate Accepted(call: Call) {
    match call
    case GrpcPublish(_, _, _, ok) => ok
    case GrpcPull(_, _, _, ok) => ok
    case GrpcAcknowledge(_, _, _, ok) => ok
    case RestCall(post, _, success, _, _, _) => post && success
    case Elsewhere(_) => true
  }

  lemma RestMeans(call: Call, intent: Intent)
    requires call.RestCall? && Means(call, Some(intent))
    ensures RestMessages(call.request) == intent.messages
    ensures ResourceAndVerb(call.path) == Some((intent.topic, "publish"))
  {
    var items :| Holds(call.request, "messages", items)
      && |items| == |intent.messages| && forall i :: 0 <= i < |items| ==> Encodes(items[i], intent.messages[i]);
    ArrayRead(call.request, "messages");
    forall i | 0 <= i < |items| ensures RestMessage(items[i]) == intent.messages[i] {
      EncodedMessageRead(items[i], intent.messages[i]);
    }
    PathExact(call.path, intent.topic, "publish");
  }

  lemma RestMeansNothing(call: Call, cap: nat)
    requires call.RestCall? && Means(call, None)
    ensures MessagesOf(call, cap) == []
  {
    var split := ResourceAndVerb(call.path);
    if split.Some? {
      PathExact(call.path, split.value.0, split.value.1);
      assert !Addresses(call.path, split.value.0, "/topics/", "publish");
    }
  }

  /** From either protocol, what is observed of a publish that went through is what the
      client meant; of any other call, nothing. */
  lemma MeantIsObserved(call: Call, intent: Option<Intent>, cap: nat)
    requires Means(call, intent)
    ensures MessagesOf(call, cap) ==
      if intent.Some? && Accepted(call) then To(intent.value.topic, intent.value.messages) else []
  {
    if call.RestCall? {
      if intent.Some? {
        RestMeans(call, intent.value);
      } else {
        RestMeansNothing(call, cap);
      }
    }
  }
}
