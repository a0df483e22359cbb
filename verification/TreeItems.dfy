/** The tree widget's items and their identifiers. */
module TreeItems {
  import opened Basics
  import opened Events
  import opened State
  import opened Strings
  import opened Ordering
  import opened Tree

  /** The character that separates the parts of an identifier. */
  const MARK: char := '\U{0001}'

  datatype Item = Item(id: string, children: seq<Item>)

  predicate UniqueIds(items: seq<Item>) {
    forall i, j :: 0 <= i < j < |items| ==> items[i].id != items[j].id
  }

  /** The widget refuses an item whose children share an identifier. */
  function NewItem(id: string, children: seq<Item>): Option<Item> {
    if UniqueIds(children) then Some(Item(id, children)) else None
  }

  /** The first topic at or below a node, in traversal order. */
  function FirstTopic(node: Node): Option<string>
    decreases node, |node.children| + 1
  {
    if node.topic.Some? then Some(node.topic.value.name)
    else FirstTopicAmong(SortedKeys(node.children.Keys), node)
  }

  function FirstTopicAmong(keys: seq<string>, node: Node): Option<string>
    requires forall k :: k in keys ==> k in node.children
    decreases node, |keys|
  {
    if keys == [] then None
    else
      var first := FirstTopic(node.children[keys[0]]);
      if first.Some? then first else FirstTopicAmong(keys[1..], node)
  }

  function GroupId(segment: string, node: Node): string {
    match FirstTopic(node)
    case Some(name) => name + [MARK] + segment
    case None => segment
  }

  /** Topic and group nodes have distinct identifier spaces. */
  function NodeKind(node: Node): string {
    if node.topic.Some? then "topic" else "group"
  }

  function NodeName(segment: string, node: Node): string {
    if node.topic.Some? then node.topic.value.name else GroupId(segment, node)
  }

  function NodeId(segment: string, node: Node): string {
    NodeKind(node) + [MARK] + NodeName(segment, node)
  }

  function LeafId(name: string, kind: string, key: string): string {
    name + [MARK] + (kind + [MARK] + key)
  }

  /** The publishers of a topic that have published something. */
  function ActivePublishers(topic: Topic): set<string> {
    set peer | peer in topic.publishers && topic.publishers[peer].published != 0
  }

  function LeavesOf(name: string, kind: string, keys: seq<string>): seq<Item> {
    seq(|keys|, i requires 0 <= i < |keys| => Item(LeafId(name, kind, keys[i]), []))
  }

  /** The publisher and consumer leaves shown beneath a topic node. */
  function Leaves(entry: NamedTopic, s: Snapshot): seq<Item> {
    LeavesOf(entry.name, "pub", SortedKeys(ActivePublishers(entry.topic)))
    + LeavesOf(entry.name, "sub", SortedKeys(ActiveConsumersOf(s, entry.name)))
  }

  lemma LeavesOfOneMore(name: string, kind: string, keys: seq<string>, key: string)
    ensures LeavesOf(name, kind, keys + [key]) == LeavesOf(name, kind, keys) + [Item(LeafId(name, kind, key), [])]
  {
  }

  /** The publishers with messages, skipping the others. */
  method PublisherLeaves(name: string, topic: Topic) returns (leaves: seq<Item>)
    ensures leaves == LeavesOf(name, "pub", SortedKeys(ActivePublishers(topic)))
  {
    leaves := [];
    var peers := SortedKeys(topic.publishers.Keys);
    for i := 0 to |peers|
      invariant leaves == LeavesOf(name, "pub", Kept(peers[..i], ActivePublishers(topic)))
    {
      KeptOneMore(peers, i, ActivePublishers(topic));
      if topic.publishers[peers[i]].published == 0 {
        continue;
      }
      LeavesOfOneMore(name, "pub", Kept(peers[..i], ActivePublishers(topic)), peers[i]);
      leaves := leaves + [Item(LeafId(name, "pub", peers[i]), [])];
    }
    assert peers[..|peers|] == peers;
    KeptInOrder(topic.publishers.Keys, ActivePublishers(topic));
  }

  /** The subscriptions that have consumed something. */
  method ConsumerLeaves(name: string, s: Snapshot) returns (leaves: seq<Item>)
    ensures leaves == LeavesOf(name, "sub", SortedKeys(ActiveConsumersOf(s, name)))
  {
    leaves := [];
    var subs := SortedKeys(ActiveConsumersOf(s, name));
    for i := 0 to |subs|
      invariant leaves == LeavesOf(name, "sub", subs[..i])
    {
      assert subs[..i + 1] == subs[..i] + [subs[i]];
      LeavesOfOneMore(name, "sub", subs[..i], subs[i]);
      leaves := leaves + [Item(LeafId(name, "sub", subs[i]), [])];
    }
    assert subs[..|subs|] == subs;
  }

  /** The leaves of a topic: its publishers, then its consumers. */
  method LeavesForTopic(name: string, topic: Topic, s: Snapshot) returns (leaves: seq<Item>)
    ensures leaves == Leaves(NamedTopic(name, topic), s)
  {
    leaves := PublisherLeaves(name, topic);
    var consumers := ConsumerLeaves(name, s);
    leaves := leaves + consumers;
  }

  /** The leaves shown beneath a node: only topics have any. */
  function LeavesUnder(node: Node, s: Snapshot): seq<Item> {
    if node.topic.Some? then Leaves(node.topic.value, s) else []
  }

  /** The items of some children carry those children's identifiers. */
  ghost predicate ChildIds(items: seq<Item>, keys: seq<string>, node: Node)
    requires forall k :: k in keys ==> k in node.children
  {
    |items| == |keys| && forall i :: 0 <= i < |keys| ==> items[i].id == NodeId(keys[i], node.children[keys[i]])
  }

  lemma ChildIdsCons(first: Item, rest: seq<Item>, keys: seq<string>, node: Node)
    requires keys != [] && forall k :: k in keys ==> k in node.children
    requires first.id == NodeId(keys[0], node.children[keys[0]]) && ChildIds(rest, keys[1..], node)
    ensures ChildIds([first] + rest, keys, node)
  {
  }

  /** A node as an item, or nothing if the widget would refuse it. */
  function ItemFor(segment: string, node: Node, s: Snapshot): (r: Option<Item>)
    ensures r.Some? ==> r.value.id == NodeId(segment, node)
    decreases node, |node.children| + 1
  {
    match ItemsFor(SortedKeys(node.children.Keys), node, s)
    case None => None
    case Some(children) =>
      NewItem(NodeId(segment, node), children + LeavesUnder(node, s))
  }

  function ItemsFor(keys: seq<string>, node: Node, s: Snapshot): (r: Option<seq<Item>>)
    requires forall k :: k in keys ==> k in node.children
    ensures r.Some? ==> ChildIds(r.value, keys, node)
    decreases node, |keys|
  {
    if keys == [] then Some([])
    else
      match (ItemFor(keys[0], node.children[keys[0]], s), ItemsFor(keys[1..], node, s))
      case (Some(first), Some(rest)) =>
        ChildIdsCons(first, rest, keys, node);
        Some([first] + rest)
      case _ => None
  }

  /** The whole panel: nothing if any item, or the top level, would be refused. */
  function Panel(s: Snapshot): Option<seq<Item>> {
    var root := Trie(s.topics);
    match ItemsFor(SortedKeys(root.children.Keys), root, s)
    case None => None
    case Some(items) => if UniqueIds(items) then Some(items) else None
  }

  // ---- Where topics sit ----

  /** Every topic at or below `node` sits at its own path, `path` leading here. */
  ghost predicate Placed(node: Node, path: seq<string>)
    decreases node
  {
    && (node.topic.Some? ==> PathOf(node.topic.value.name) == path)
    && forall k :: k in node.children ==> Placed(node.children[k], path + [k])
  }

  /** Every node has a topic at or below it. */
  ghost predicate Populated(node: Node)
    decreases node
  {
    && (node.topic.Some? || node.children != map[])
    && forall k :: k in node.children ==> Populated(node.children[k])
  }

  lemma {:induction false} InsertedPlaced(node: Node, at: seq<string>, path: seq<string>, entry: NamedTopic)
    requires Placed(node, at) && PathOf(entry.name) == at + path
    ensures Placed(Inserted(node, path, entry), at)
    decreases |path|
  {
    if path == [] {
      assert at + path == at;
    } else {
      assert at + path == at + [path[0]] + path[1..];
      assert Placed(EMPTY, at + [path[0]]);
      InsertedPlaced(ChildOr(node, path[0]), at + [path[0]], path[1..], entry);
    }
  }

  lemma {:induction false} InsertedPopulated(node: Node, path: seq<string>, entry: NamedTopic)
    requires node == EMPTY || Populated(node)
    ensures Populated(Inserted(node, path, entry))
    decreases |path|
  {
    if path != [] {
      InsertedPopulated(ChildOr(node, path[0]), path[1..], entry);
    }
  }

  lemma {:induction false} AllPlaced(names: seq<string>, topics: map<string, Topic>)
    requires forall n :: n in names ==> n in topics
    ensures var root := InsertedAll(names, topics); Placed(root, []) && (names != [] ==> Populated(root))
    ensures names == [] ==> InsertedAll(names, topics) == EMPTY
  {
    if names != [] {
      var before, last := names[..|names| - 1], names[|names| - 1];
      AllPlaced(before, topics);
      var entry := NamedTopic(last, topics[last]);
      assert PathOf(last) == [] + PathOf(last);
      InsertedPlaced(InsertedAll(before, topics), [], PathOf(last), entry);
      InsertedPopulated(InsertedAll(before, topics), PathOf(last), entry);
    }
  }

  /** The first topic of a populated node lies at or below it, strictly below if
      the node is not a topic itself. */
  lemma {:induction false} FirstTopicBelow(node: Node, path: seq<string>)
    requires Placed(node, path) && Populated(node)
    ensures FirstTopic(node).Some?
    ensures var name := FirstTopic(node).value;
      path <= PathOf(name) && (node.topic.None? ==> |PathOf(name)| > |path|)
    decreases node
  {
    if node.topic.None? {
      var keys := SortedKeys(node.children.Keys);
      var k :| k in node.children;
      assert k in keys;
      assert Populated(node.children[keys[0]]) && Placed(node.children[keys[0]], path + [keys[0]]);
      FirstTopicBelow(node.children[keys[0]], path + [keys[0]]);
      assert path <= path + [keys[0]];
    }
  }

  // ---- Identifiers ----

  lemma KindsAreUnmarked(node: Node)
    ensures MARK !in NodeKind(node)
    ensures NodeKind(node) == "group" <==> node.topic.None?
  {
  }

  lemma NodeIdUnique(j: string, a: Node, k: string, b: Node)
    requires NodeId(j, a) == NodeId(k, b)
    ensures a.topic.Some? == b.topic.Some? && NodeName(j, a) == NodeName(k, b)
  {
    KindsAreUnmarked(a);
    KindsAreUnmarked(b);
    CutUnique(NodeKind(a), NodeName(j, a), NodeKind(b), NodeName(k, b), MARK);
  }

  /** Segments hold no path separator. */
  lemma SegmentHasNoSlash(name: string, i: nat)
    requires i < |PathOf(name)|
    ensures '/' !in PathOf(name)[i]
  {
    PiecesSolid(name, '/');
    PiecesSolid(Short(name), SEGMENT_SEP);
    assert PathOf(name)[i] in PathOf(name) && Short(name) in Split(name, '/');
  }

  /** Text after a name, unless it starts a new path, leaves all but the name's last
      segment alone. */
  lemma LongerName(name: string, more: string, i: nat)
    requires '/' !in more && i + 1 < |PathOf(name)|
    ensures i < |PathOf(name + more)| && PathOf(name + more)[i] == PathOf(name)[i]
  {
    SplitMoreSolid(name, more, '/');
    assert Short(name + more) == Short(name) + more;
    SplitMore(Short(name), more, SEGMENT_SEP, i);
  }

  /** A group's segment and first topic can be told apart, marks or no marks. */
  lemma GroupsDiffer(one: string, j: string, other: string, k: string, i: nat)
    requires i + 1 < |PathOf(one)| && PathOf(one)[i] == j
    requires i + 1 < |PathOf(other)| && PathOf(other)[i] == k
    requires one + [MARK] + j == other + [MARK] + k && |one| <= |other|
    ensures j == k
  {
    var whole := one + [MARK] + j;
    if |one| == |other| {
      assert j == whole[|one| + 1..] && k == whole[|other| + 1..];
    } else {
      var between := other[|one| + 1..];
      assert other == whole[..|other|] && one == other[..|one|] && whole[|one|] == other[|one|] == MARK;
      assert other == one + ([MARK] + between);
      assert j == whole[|one| + 1..] == between + [MARK] + k;
      SegmentHasNoSlash(one, i);
      LongerName(one, [MARK] + between, i);
    }
  }

  /** Two different children of a node never share an identifier, whatever topics
      are called. */
  lemma NodeIdsDiffer(node: Node, path: seq<string>, j: string, k: string)
    requires Placed(node, path) && Populated(node)
    requires j in node.children && k in node.children && j != k
    ensures NodeId(j, node.children[j]) != NodeId(k, node.children[k])
  {
    var a, b := node.children[j], node.children[k];
    assert (path + [j])[|path|] != (path + [k])[|path|];
    if NodeId(j, a) == NodeId(k, b) {
      NodeIdUnique(j, a, k, b);
      if a.topic.None? {
        FirstTopicBelow(a, path + [j]);
        FirstTopicBelow(b, path + [k]);
        var one, other := FirstTopic(a).value, FirstTopic(b).value;
        assert PathOf(one)[|path|] == (path + [j])[|path|] && PathOf(other)[|path|] == (path + [k])[|path|];
        if |one| <= |other| {
          GroupsDiffer(one, j, other, k, |path|);
        } else {
          GroupsDiffer(other, k, one, j, |path|);
        }
      }
    }
  }

  lemma LeafKindIsTopLevel(kind: string)
    requires kind == "pub" || kind == "sub"
    ensures |PathOf(kind)| == 1 && MARK !in kind
  {
    SplitSolid(kind, '/');
    SplitSolid(kind, SEGMENT_SEP);
  }

  /** No topic at or below `node` has a name that contains the mark. */
  ghost predicate Unmarked(node: Node)
    decreases node
  {
    && (node.topic.Some? ==> MARK !in node.topic.value.name)
    && forall k :: k in node.children ==> Unmarked(node.children[k])
  }

  lemma {:induction false} FirstTopicUnmarked(node: Node)
    requires Unmarked(node) && FirstTopic(node).Some?
    ensures MARK !in FirstTopic(node).value
    decreases node, |node.children| + 1
  {
    if node.topic.None? {
      FirstAmongUnmarked(SortedKeys(node.children.Keys), node);
    }
  }

  lemma {:induction false} FirstAmongUnmarked(keys: seq<string>, node: Node)
    requires forall k :: k in keys ==> k in node.children
    requires Unmarked(node) && FirstTopicAmong(keys, node).Some?
    ensures MARK !in FirstTopicAmong(keys, node).value
    decreases node, |keys|
  {
    if FirstTopic(node.children[keys[0]]).Some? {
      assert Unmarked(node.children[keys[0]]);
      FirstTopicUnmarked(node.children[keys[0]]);
    } else {
      FirstAmongUnmarked(keys[1..], node);
    }
  }

  /** Without marks in topic names, a child node below a topic never has the
      identifier of one of its leaves. */
  lemma NodeIsNoLeaf(child: Node, path: seq<string>, segment: string, name: string, kind: string, key: string)
    requires Placed(child, path) && Populated(child) && Unmarked(child) && |path| > 1
    requires MARK !in name && (kind == "pub" || kind == "sub")
    ensures NodeId(segment, child) != LeafId(name, kind, key)
  {
    assert (kind + [MARK] + key)[|kind|] == MARK;
    if NodeId(segment, child) == LeafId(name, kind, key) {
      KindsAreUnmarked(child);
      CutUnique(NodeKind(child), NodeName(segment, child), name, kind + [MARK] + key, MARK);
      if child.topic.None? {
        LeafKindIsTopLevel(kind);
        FirstTopicBelow(child, path);
        FirstTopicUnmarked(child);
        CutUnique(FirstTopic(child).value, segment, kind, key, MARK);
      }
    }
  }

  lemma LeafIdUnique(name: string, kind1: string, key1: string, kind2: string, key2: string)
    requires (kind1 == "pub" || kind1 == "sub") && (kind2 == "pub" || kind2 == "sub")
    requires LeafId(name, kind1, key1) == LeafId(name, kind2, key2)
    ensures kind1 == kind2 && key1 == key2
  {
    LeafKindIsTopLevel(kind1);
    LeafKindIsTopLevel(kind2);
    assert LeafId(name, kind1, key1)[|name| + 1..] == kind1 + [MARK] + key1;
    assert LeafId(name, kind2, key2)[|name| + 1..] == kind2 + [MARK] + key2;
    CutUnique(kind1, key1, kind2, key2, MARK);
  }

  lemma OneKindDistinct(name: string, kind: string, keys: seq<string>)
    requires (kind == "pub" || kind == "sub") && Distinct(keys)
    ensures UniqueIds(LeavesOf(name, kind, keys))
  {
    forall i, j | 0 <= i < j < |keys| ensures LeafId(name, kind, keys[i]) != LeafId(name, kind, keys[j]) {
      if LeafId(name, kind, keys[i]) == LeafId(name, kind, keys[j]) {
        LeafIdUnique(name, kind, keys[i], kind, keys[j]);
      }
    }
  }

  function Ids(items: seq<Item>): set<string> {
    set item | item in items :: item.id
  }

  lemma LeavesOfExactly(name: string, kind: string, keys: seq<string>, item: Item)
    ensures item in LeavesOf(name, kind, keys) <==>
      item.children == [] && exists k :: k in keys && item.id == LeafId(name, kind, k)
  {
    if item.children == [] && exists k :: k in keys && item.id == LeafId(name, kind, k) {
      var k :| k in keys && item.id == LeafId(name, kind, k);
      var i :| 0 <= i < |keys| && keys[i] == k;
      assert LeavesOf(name, kind, keys)[i] == item;
    }
  }

  lemma KeyOfLeaf(name: string, kind: string, keys: seq<string>, id: string) returns (key: string)
    requires id in Ids(LeavesOf(name, kind, keys))
    ensures key in keys && id == LeafId(name, kind, key)
  {
    var item :| item in LeavesOf(name, kind, keys) && item.id == id;
    LeavesOfExactly(name, kind, keys, item);
    key :| key in keys && item.id == LeafId(name, kind, key);
  }

  lemma UniqueConcat(first: seq<Item>, second: seq<Item>)
    requires UniqueIds(first) && UniqueIds(second)
    ensures UniqueIds(first + second) <==> Ids(first) !! Ids(second)
  {
    if Ids(first) !! Ids(second) {
      forall i, j | 0 <= i < |first| && 0 <= j < |second| ensures first[i].id != second[j].id {
        assert first[i].id in Ids(first) && second[j].id in Ids(second);
      }
    } else {
      var id :| id in Ids(first) && id in Ids(second);
      var i :| 0 <= i < |first| && first[i].id == id;
      var j :| 0 <= j < |second| && second[j].id == id;
      assert (first + second)[i] == first[i] && (first + second)[|first| + j] == second[j];
    }
  }

  lemma LeavesDistinct(entry: NamedTopic, s: Snapshot)
    ensures UniqueIds(Leaves(entry, s))
  {
    var peers, subs := SortedKeys(ActivePublishers(entry.topic)), SortedKeys(ActiveConsumersOf(s, entry.name));
    SortedKeysIncrease(ActivePublishers(entry.topic));
    SortedKeysIncrease(ActiveConsumersOf(s, entry.name));
    OneKindDistinct(entry.name, "pub", peers);
    OneKindDistinct(entry.name, "sub", subs);
    forall id | id in Ids(LeavesOf(entry.name, "pub", peers)) ensures id !in Ids(LeavesOf(entry.name, "sub", subs)) {
      if id in Ids(LeavesOf(entry.name, "sub", subs)) {
        var peer := KeyOfLeaf(entry.name, "pub", peers, id);
        var sub := KeyOfLeaf(entry.name, "sub", subs, id);
        LeafIdUnique(entry.name, "pub", peer, "sub", sub);
      }
    }
    UniqueConcat(LeavesOf(entry.name, "pub", peers), LeavesOf(entry.name, "sub", subs));
  }

  /** A topic's leaves are its active publishers, then its active consumers, each
      exactly once and nothing else. */
  lemma LeavesExactly(entry: NamedTopic, s: Snapshot, item: Item)
    ensures item in Leaves(entry, s) <==> (item.children == []
      && ((exists p :: p in entry.topic.publishers && entry.topic.publishers[p].published != 0
             && item.id == LeafId(entry.name, "pub", p))
          || (exists n :: n in s.subscriptions && s.subscriptions[n].topic == Some(entry.name) && s.subscriptions[n].acked > 0
                && item.id == LeafId(entry.name, "sub", n))))
    ensures |Leaves(entry, s)| == |ActivePublishers(entry.topic)| + |ActiveConsumersOf(s, entry.name)|
  {
    LeavesOfExactly(entry.name, "pub", SortedKeys(ActivePublishers(entry.topic)), item);
    LeavesOfExactly(entry.name, "sub", SortedKeys(ActiveConsumersOf(s, entry.name)), item);
  }

  // ---- What the widget accepts ----

  /** The child of a topic at `k` has the identifier of one of the topic's leaves. */
  ghost predicate Clash(node: Node, k: string, s: Snapshot) {
    && node.topic.Some? && k in node.children
    && NodeId(k, node.children[k]) in Ids(Leaves(node.topic.value, s))
  }

  ghost predicate NoClash(node: Node, s: Snapshot) {
    forall k :: k in node.children ==> !Clash(node, k, s)
  }

  /** No topic at or below `node` clashes with one of its children. */
  ghost predicate Clear(node: Node, s: Snapshot)
    decreases node
  {
    NoClash(node, s) && forall k :: k in node.children ==> Clear(node.children[k], s)
  }

  lemma ChildItemsUnique(node: Node, path: seq<string>, items: seq<Item>)
    requires Placed(node, path) && Populated(node)
    requires ChildIds(items, SortedKeys(node.children.Keys), node)
    ensures UniqueIds(items)
  {
    var keys := SortedKeys(node.children.Keys);
    SortedKeysIncrease(node.children.Keys);
    forall i, j | 0 <= i < j < |items| ensures items[i].id != items[j].id {
      assert keys[i] in keys && keys[j] in keys;
      NodeIdsDiffer(node, path, keys[i], keys[j]);
    }
  }

  lemma ChildWithId(node: Node, items: seq<Item>, id: string) returns (k: string)
    requires ChildIds(items, SortedKeys(node.children.Keys), node) && id in Ids(items)
    ensures k in node.children && NodeId(k, node.children[k]) == id
  {
    var i :| 0 <= i < |items| && items[i].id == id;
    k := SortedKeys(node.children.Keys)[i];
    assert k in SortedKeys(node.children.Keys);
  }

  lemma IdOfChild(node: Node, items: seq<Item>, k: string)
    requires ChildIds(items, SortedKeys(node.children.Keys), node) && k in node.children
    ensures NodeId(k, node.children[k]) in Ids(items)
  {
    var keys := SortedKeys(node.children.Keys);
    assert k in keys;
    var i :| 0 <= i < |keys| && keys[i] == k;
    assert items[i] in items;
  }

  lemma CrossIsClash(node: Node, s: Snapshot, items: seq<Item>)
    requires node.topic.Some? && ChildIds(items, SortedKeys(node.children.Keys), node)
    ensures NoClash(node, s) <==> Ids(items) !! Ids(Leaves(node.topic.value, s))
  {
    if NoClash(node, s) {
      forall id | id in Ids(items) ensures id !in Ids(Leaves(node.topic.value, s)) {
        var k := ChildWithId(node, items, id);
        assert !Clash(node, k, s);
      }
    } else {
      var k :| k in node.children && Clash(node, k, s);
      IdOfChild(node, items, k);
    }
  }

  lemma TopicUniqueExactly(node: Node, s: Snapshot, items: seq<Item>)
    requires node.topic.Some? && UniqueIds(items)
    requires ChildIds(items, SortedKeys(node.children.Keys), node)
    ensures UniqueIds(items + Leaves(node.topic.value, s)) <==> NoClash(node, s)
  {
    LeavesDistinct(node.topic.value, s);
    UniqueConcat(items, Leaves(node.topic.value, s));
    CrossIsClash(node, s, items);
  }

  /** Among the items of a node, only a child and a leaf can share an identifier. */
  lemma ItemsUniqueExactly(node: Node, path: seq<string>, s: Snapshot, items: seq<Item>)
    requires Placed(node, path) && Populated(node)
    requires ChildIds(items, SortedKeys(node.children.Keys), node)
    ensures UniqueIds(items + LeavesUnder(node, s)) <==> NoClash(node, s)
  {
    ChildItemsUnique(node, path, items);
    if node.topic.None? {
      assert items + [] == items;
    } else {
      TopicUniqueExactly(node, s, items);
    }
  }

  lemma ItemForUnfolds(segment: string, node: Node, s: Snapshot)
    ensures var items := ItemsFor(SortedKeys(node.children.Keys), node, s);
      ItemFor(segment, node, s).Some? <==> items.Some? && UniqueIds(items.value + LeavesUnder(node, s))
  {
  }

  lemma ItemsForUnfolds(keys: seq<string>, node: Node, s: Snapshot)
    requires keys != [] && forall k :: k in keys ==> k in node.children
    ensures ItemsFor(keys, node, s).Some? <==>
      ItemFor(keys[0], node.children[keys[0]], s).Some? && ItemsFor(keys[1..], node, s).Some?
  {
  }

  /** The widget accepts a node exactly if nothing at or below it clashes. */
  lemma {:induction false} NodeAccepted(segment: string, node: Node, path: seq<string>, s: Snapshot)
    requires Placed(node, path) && Populated(node)
    ensures ItemFor(segment, node, s).Some? <==> Clear(node, s)
    decreases node, |node.children| + 1
  {
    var keys := SortedKeys(node.children.Keys);
    ItemsAccepted(keys, node, path, s);
    assert (forall k :: k in keys ==> Clear(node.children[k], s))
      <==> (forall k :: k in node.children ==> Clear(node.children[k], s));
    ItemForUnfolds(segment, node, s);
    if ItemsFor(keys, node, s).Some? {
      ItemsUniqueExactly(node, path, s, ItemsFor(keys, node, s).value);
    }
  }

  lemma {:induction false} ItemsAccepted(keys: seq<string>, node: Node, path: seq<string>, s: Snapshot)
    requires Placed(node, path) && Populated(node)
    requires forall k :: k in keys ==> k in node.children
    ensures ItemsFor(keys, node, s).Some? <==> forall k :: k in keys ==> Clear(node.children[k], s)
    decreases node, |keys|
  {
    if keys != [] {
      assert keys[0] in node.children;
      NodeAccepted(keys[0], node.children[keys[0]], path + [keys[0]], s);
      ItemsAccepted(keys[1..], node, path, s);
      ItemsForUnfolds(keys, node, s);
      assert forall k :: k in keys <==> k == keys[0] || k in keys[1..];
    }
  }

  lemma NothingAccepted(s: Snapshot)
    ensures ItemsFor(SortedKeys(EMPTY.children.Keys), EMPTY, s) == Some([]) && Clear(EMPTY, s)
  {
    assert SortedKeys(EMPTY.children.Keys) == [];
  }

  /** A group is clear if its children are. */
  lemma GroupClear(node: Node, keys: seq<string>, s: Snapshot)
    requires node.topic.None? && forall k :: k in keys <==> k in node.children
    ensures Clear(node, s) <==> forall k :: k in keys ==> Clear(node.children[k], s)
  {
  }

  lemma TopLevelAccepted(root: Node, s: Snapshot)
    requires Placed(root, []) && Populated(root) && root.topic.None?
    ensures var items := ItemsFor(SortedKeys(root.children.Keys), root, s);
      items.Some? && UniqueIds(items.value) <==> Clear(root, s)
  {
    var keys := SortedKeys(root.children.Keys);
    ItemsAccepted(keys, root, [], s);
    GroupClear(root, keys, s);
    if ItemsFor(keys, root, s).Some? {
      ChildItemsUnique(root, [], ItemsFor(keys, root, s).value);
    }
  }

  lemma PanelIsClear(s: Snapshot)
    ensures Panel(s).Some? <==> Clear(Trie(s.topics), s)
  {
    AllPlaced(SortedKeys(Published(s.topics)), s.topics);
    TrieNodesArePrefixes(s.topics, []);
    if Trie(s.topics) == EMPTY {
      NothingAccepted(s);
    } else {
      TopLevelAccepted(Trie(s.topics), s);
    }
  }

  lemma {:induction false} ClearBelow(node: Node, s: Snapshot, path: seq<string>)
    requires Clear(node, s) && SubNode(node, path).Some?
    ensures NoClash(SubNode(node, path).value, s)
    decreases |path|
  {
    if path != [] {
      ClearBelow(node.children[path[0]], s, path[1..]);
    }
  }

  lemma {:induction false} ClashBelow(node: Node, s: Snapshot) returns (path: seq<string>, k: string)
    requires !Clear(node, s)
    ensures SubNode(node, path).Some? && Clash(SubNode(node, path).value, k, s)
    decreases node
  {
    if NoClash(node, s) {
      var c :| c in node.children && !Clear(node.children[c], s);
      var below;
      below, k := ClashBelow(node.children[c], s);
      path := [c] + below;
      assert path[1..] == below;
    } else {
      path := [];
      k :| k in node.children && Clash(node, k, s);
    }
  }

  /** The node shown at `path + [k]` has the identifier of a leaf of the topic shown
      at `path`. */
  ghost predicate ClashAt(s: Snapshot, path: seq<string>, k: string) {
    SubNode(Trie(s.topics), path).Some? && Clash(SubNode(Trie(s.topics), path).value, k, s)
  }

  /** The panel is refused exactly when some topic has a leaf with the identifier of
      a node nested right below it. Nodes never clash with nodes, nor leaves with
      leaves, whatever topics, peers and subscriptions are called. */
  lemma PanelRefusedExactly(s: Snapshot)
    ensures Panel(s).None? <==> exists path, k :: ClashAt(s, path, k)
  {
    PanelIsClear(s);
    if Clear(Trie(s.topics), s) {
      forall path, k ensures !ClashAt(s, path, k) {
        if SubNode(Trie(s.topics), path).Some? {
          ClearBelow(Trie(s.topics), s, path);
        }
      }
    } else {
      var path, k := ClashBelow(Trie(s.topics), s);
      assert ClashAt(s, path, k);
    }
  }

  lemma {:induction false} InsertedUnmarked(node: Node, path: seq<string>, entry: NamedTopic)
    requires Unmarked(node) && MARK !in entry.name
    ensures Unmarked(Inserted(node, path, entry))
    decreases |path|
  {
    if path != [] {
      InsertedUnmarked(ChildOr(node, path[0]), path[1..], entry);
    }
  }

  lemma {:induction false} AllUnmarked(names: seq<string>, topics: map<string, Topic>)
    requires forall n :: n in names ==> n in topics && MARK !in n
    ensures Unmarked(InsertedAll(names, topics))
  {
    if names != [] {
      var before, last := names[..|names| - 1], names[|names| - 1];
      AllUnmarked(before, topics);
      InsertedUnmarked(InsertedAll(before, topics), PathOf(last), NamedTopic(last, topics[last]));
    }
  }

  lemma LeafHasKind(entry: NamedTopic, s: Snapshot, id: string) returns (kind: string, key: string)
    requires id in Ids(Leaves(entry, s))
    ensures (kind == "pub" || kind == "sub") && id == LeafId(entry.name, kind, key)
  {
    var peers, subs := SortedKeys(ActivePublishers(entry.topic)), SortedKeys(ActiveConsumersOf(s, entry.name));
    if id in Ids(LeavesOf(entry.name, "pub", peers)) {
      kind := "pub";
      key := KeyOfLeaf(entry.name, kind, peers, id);
    } else {
      kind := "sub";
      key := KeyOfLeaf(entry.name, kind, subs, id);
    }
  }

  lemma {:induction false} UnmarkedClear(node: Node, path: seq<string>, s: Snapshot)
    requires Placed(node, path) && Populated(node) && Unmarked(node) && (node.topic.Some? ==> path != [])
    ensures Clear(node, s)
    decreases node
  {
    forall k | k in node.children ensures Clear(node.children[k], s) && !Clash(node, k, s) {
      UnmarkedClear(node.children[k], path + [k], s);
      if node.topic.Some? {
        forall id | id in Ids(Leaves(node.topic.value, s)) ensures id != NodeId(k, node.children[k]) {
          var kind, key := LeafHasKind(node.topic.value, s, id);
          NodeIsNoLeaf(node.children[k], path + [k], k, node.topic.value.name, kind, key);
        }
      }
    }
  }

  /** In particular nothing is refused, whatever the peers and subscriptions are
      called, as long as no published topic's name contains the mark. */
  lemma PanelNeverRefused(s: Snapshot)
    requires forall n :: n in Published(s.topics) ==> MARK !in n
    ensures Panel(s).Some?
  {
    var names := SortedKeys(Published(s.topics));
    PanelIsClear(s);
    AllPlaced(names, s.topics);
    AllUnmarked(names, s.topics);
    TrieNodesArePrefixes(s.topics, []);
    if names != [] {
      UnmarkedClear(Trie(s.topics), [], s);
    }
  }

  lemma ConsumerHasLeaf(entry: NamedTopic, s: Snapshot, sub: string)
    requires sub in ActiveConsumersOf(s, entry.name)
    ensures LeafId(entry.name, "sub", sub) in Ids(Leaves(entry, s))
  {
    var subs := SortedKeys(ActiveConsumersOf(s, entry.name));
    assert sub in subs;
    var i :| 0 <= i < |subs| && subs[i] == sub;
    assert LeavesOf(entry.name, "sub", subs)[i] in Leaves(entry, s);
  }

  lemma NestedClashRefused(s: Snapshot, marked: string, sub: string)
    requires marked == "sub" + [MARK] + sub
    requires Published(s.topics) == {"topic", marked}
    requires PathOf("topic") == ["topic"] && PathOf(marked) == ["topic", "x"]
    requires sub in ActiveConsumersOf(s, "topic")
    ensures Panel(s).None?
  {
    var root := Trie(s.topics);
    TrieHoldsLastPublished(s.topics, ["topic"]);
    TrieHoldsLastPublished(s.topics, ["topic", "x"]);
    assert TopicAt(root, ["topic"]).Some? && TopicAt(root, ["topic", "x"]).Some?;
    var node := root.children["topic"];
    assert ["topic"][1..] == [] && ["topic", "x"][1..] == ["x"] && ["x"][1..] == [];
    assert node.topic.value.name == "topic" && node.children["x"].topic.value.name == marked;
    ConsumerHasLeaf(node.topic.value, s, sub);
    assert ClashAt(s, ["topic"], "x");
    PanelRefusedExactly(s);
  }

  /** A name of the form `prefix/group.leaf` is shown as `leaf` under `group`. */
  lemma NestedPath(prefix: string, group: string, leaf: string)
    requires '/' !in prefix && '/' !in group && '/' !in leaf
    requires SEGMENT_SEP !in group && SEGMENT_SEP !in leaf
    ensures PathOf(prefix + ['/'] + (group + [SEGMENT_SEP] + leaf)) == [group, leaf]
    ensures PathOf(group) == [group]
  {
    SplitFirst(prefix, group + [SEGMENT_SEP] + leaf, '/');
    SplitSolid(group + [SEGMENT_SEP] + leaf, '/');
    SplitFirst(group, leaf, SEGMENT_SEP);
    SplitSolid(leaf, SEGMENT_SEP);
    SplitSolid(group, '/');
    SplitSolid(group, SEGMENT_SEP);
  }

  /** The state after two publishes, a listing and an acknowledgement. */
  function Consumed(topic: string, other: string, sub: string, message: PublishedMessage): Snapshot {
    var s1 := Applied(Empty(1), Publish(topic, None, [message]), 0);
    var s2 := Applied(s1, Publish(other, None, [message]), 0);
    var s3 := Applied(s2, AdminSnapshot([], [SubscriptionInfo(sub, topic)]), 0);
    Applied(s3, Ack(sub, None, 1), 0)
  }

  lemma ConsumedShows(topic: string, other: string, sub: string, message: PublishedMessage)
    requires topic != other
    ensures var s := Consumed(topic, other, sub, message);
      Published(s.topics) == {topic, other} && sub in ActiveConsumersOf(s, topic)
  {
    var infos := [SubscriptionInfo(sub, topic)];
    assert MappedTopic(infos, sub) == Some(topic);
    assert infos[0] in infos && Names(infos) == {sub};
  }

  /** The restriction on topic names is needed: with a published topic called
      `topic`, one nested below it whose name contains the mark, and a
      subscription that has consumed from the first, the panel cannot be built. */
  lemma MarkedNameRefused(message: PublishedMessage)
    ensures var sub := "p" + ['/'] + ("topic" + [SEGMENT_SEP] + "x");
      Panel(Consumed("topic", "sub" + [MARK] + sub, sub, message)).None?
  {
    var sub := "p" + ['/'] + ("topic" + [SEGMENT_SEP] + "x");
    var marked := "sub" + [MARK] + sub;
    NestedPath("sub" + [MARK] + "p", "topic", "x");
    assert marked == "sub" + [MARK] + "p" + ['/'] + ("topic" + [SEGMENT_SEP] + "x");
    ConsumedShows("topic", marked, sub, message);
    NestedClashRefused(Consumed("topic", marked, sub, message), marked, sub);
  }
}
