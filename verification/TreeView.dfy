/** What the tree panel shows: an accepted panel is the trie, node for node, with the
    leaves of every topic. */
module TreeView {
  import opened Basics
  import opened State
  import opened Ordering
  import opened Tree
  import opened TreeItems
  import opened TreeIds

  /** The publishers of a topic that have published something, by name. */
  function Publishing(topic: Topic): seq<string> {
    SortedKeys(set peer | peer in topic.publishers && topic.publishers[peer].published > 0)
  }

  /** The subscriptions of a topic that have consumed something, by name. */
  function Consuming(s: Snapshot, name: string): seq<string> {
    SortedKeys(set n | n in s.subscriptions && s.subscriptions[n].topic == Some(name) && s.subscriptions[n].acked > 0)
  }

  /** The leaves below a topic: what each is called, in order, and nothing below them. */
  ghost predicate ShowsLeaves(leaves: seq<Item>, entry: NamedTopic, s: Snapshot) {
    var peers, subs := Publishing(entry.topic), Consuming(s, entry.name);
    && |leaves| == |peers| + |subs|
    && (forall i :: 0 <= i < |peers| ==> leaves[i] == Item(entry.name + [MARK] + "pub" + [MARK] + peers[i], []))
    && (forall i :: 0 <= i < |subs| ==> leaves[|peers| + i] == Item(entry.name + [MARK] + "sub" + [MARK] + subs[i], []))
  }

  /** An item is a node of the trie: it is called what the node is called, below it are
      first the node's children, in order, then, if the node is a topic, that topic's
      leaves, and no two items below it are called alike. */
  ghost predicate ShowsNode(item: Item, segment: string, node: Node, s: Snapshot)
    decreases node
  {
    var keys := SortedKeys(node.children.Keys);
    && item.id == NodeId(segment, node)
    && UniqueIds(item.children)
    && |item.children| >= |keys|
    && (forall i :: 0 <= i < |keys| ==> ShowsNode(item.children[i], keys[i], node.children[keys[i]], s))
    && (if node.topic.Some? then ShowsLeaves(item.children[|keys|..], node.topic.value, s) else |item.children| == |keys|)
  }

  ghost predicate ShowsAll(items: seq<Item>, keys: seq<string>, node: Node, s: Snapshot)
    requires forall k :: k in keys ==> k in node.children
  {
    |items| == |keys| && forall i :: 0 <= i < |keys| ==> ShowsNode(items[i], keys[i], node.children[keys[i]], s)
  }

  lemma LeafText(name: string, kind: string, key: string)
    ensures LeafId(name, kind, key) == name + [MARK] + kind + [MARK] + key
  {
  }

  lemma LeavesShown(entry: NamedTopic, s: Snapshot)
    ensures ShowsLeaves(Leaves(entry, s), entry, s)
  {
    var peers, subs := Publishing(entry.topic), Consuming(s, entry.name);
    assert ActivePublishers(entry.topic)
        == set peer | peer in entry.topic.publishers && entry.topic.publishers[peer].published > 0;
    assert ActiveConsumersOf(s, entry.name)
        == set n | n in s.subscriptions && s.subscriptions[n].topic == Some(entry.name) && s.subscriptions[n].acked > 0;
    forall i | 0 <= i < |peers| ensures Leaves(entry, s)[i] == Item(entry.name + [MARK] + "pub" + [MARK] + peers[i], []) {
      LeafText(entry.name, "pub", peers[i]);
    }
    forall i | 0 <= i < |subs|
      ensures Leaves(entry, s)[|peers| + i] == Item(entry.name + [MARK] + "sub" + [MARK] + subs[i], [])
    {
      LeafText(entry.name, "sub", subs[i]);
    }
  }

  lemma ShowsAllCons(first: Item, rest: seq<Item>, keys: seq<string>, node: Node, s: Snapshot)
    requires keys != [] && forall k :: k in keys ==> k in node.children
    requires ShowsNode(first, keys[0], node.children[keys[0]], s) && ShowsAll(rest, keys[1..], node, s)
    ensures ShowsAll([first] + rest, keys, node, s)
  {
  }

  /** From the parts of an accepted item to the item. */
  lemma ShownItem(segment: string, node: Node, s: Snapshot, children: seq<Item>, item: Item)
    requires ShowsAll(children, SortedKeys(node.children.Keys), node, s)
    requires NewItem(NodeId(segment, node), children + LeavesUnder(node, s)) == Some(item)
    ensures ShowsNode(item, segment, node, s)
  {
    var keys := SortedKeys(node.children.Keys);
    if node.topic.Some? {
      LeavesShown(node.topic.value, s);
      assert item.children[|keys|..] == Leaves(node.topic.value, s);
    }
    forall i | 0 <= i < |keys| ensures ShowsNode(item.children[i], keys[i], node.children[keys[i]], s) {
      assert item.children[i] == children[i];
    }
  }

  lemma ItemForParts(segment: string, node: Node, s: Snapshot)
    requires ItemFor(segment, node, s).Some?
    ensures ItemsFor(SortedKeys(node.children.Keys), node, s).Some?
    ensures NewItem(NodeId(segment, node), ItemsFor(SortedKeys(node.children.Keys), node, s).value + LeavesUnder(node, s))
      == ItemFor(segment, node, s)
  {
  }

  lemma ItemsForParts(keys: seq<string>, node: Node, s: Snapshot)
    requires keys != [] && forall k :: k in keys ==> k in node.children
    requires ItemsFor(keys, node, s).Some?
    ensures ItemFor(keys[0], node.children[keys[0]], s).Some? && ItemsFor(keys[1..], node, s).Some?
    ensures ItemsFor(keys, node, s).value
      == [ItemFor(keys[0], node.children[keys[0]], s).value] + ItemsFor(keys[1..], node, s).value
  {
  }

  /** An accepted item is its node. */
  lemma {:induction false} ItemIsNode(segment: string, node: Node, s: Snapshot)
    requires ItemFor(segment, node, s).Some?
    ensures ShowsNode(ItemFor(segment, node, s).value, segment, node, s)
    decreases node, |node.children| + 1
  {
    var keys := SortedKeys(node.children.Keys);
    ItemForParts(segment, node, s);
    ItemsAreNodes(keys, node, s);
    ShownItem(segment, node, s, ItemsFor(keys, node, s).value, ItemFor(segment, node, s).value);
  }

  lemma {:induction false} ItemsAreNodes(keys: seq<string>, node: Node, s: Snapshot)
    requires forall k :: k in keys ==> k in node.children
    requires ItemsFor(keys, node, s).Some?
    ensures ShowsAll(ItemsFor(keys, node, s).value, keys, node, s)
    decreases node, |keys|
  {
    if keys != [] {
      ItemsForParts(keys, node, s);
      ItemIsNode(keys[0], node.children[keys[0]], s);
      ItemsAreNodes(keys[1..], node, s);
      ShowsAllCons(ItemFor(keys[0], node.children[keys[0]], s).value, ItemsFor(keys[1..], node, s).value, keys, node, s);
    }
  }

  /** An accepted panel is the trie of the published topics: its items are the
      top-level nodes, in order, each with everything below it, and no two items side by
      side are called alike. */
  lemma PanelIsTrie(s: Snapshot)
    requires Panel(s).Some?
    ensures var root := Trie(s.topics);
      UniqueIds(Panel(s).value) && ShowsAll(Panel(s).value, SortedKeys(root.children.Keys), root, s)
  {
    ItemsAreNodes(SortedKeys(Trie(s.topics).children.Keys), Trie(s.topics), s);
  }

  // ---- Every node is there once ----

  /** Following identifiers downwards, as opening and selecting items does, can lead to
      `item`. */
  ghost predicate Leads(items: seq<Item>, ids: seq<string>, item: Item)
    decreases |ids|
  {
    ids != [] && (exists i ::
      && 0 <= i < |items| && items[i].id == ids[0]
      && (if |ids| == 1 then items[i] == item else Leads(items[i].children, ids[1..], item)))
  }

  /** Items below which no two side by side are called alike, at any level. */
  ghost predicate AllUnique(items: seq<Item>)
    decreases items
  {
    UniqueIds(items) && forall item :: item in items ==> AllUnique(item.children)
  }

  lemma {:induction false} LeadsToOne(items: seq<Item>, ids: seq<string>, one: Item, other: Item)
    requires AllUnique(items) && Leads(items, ids, one) && Leads(items, ids, other)
    ensures one == other
    decreases |ids|
  {
    var i :| 0 <= i < |items| && items[i].id == ids[0]
      && (if |ids| == 1 then items[i] == one else Leads(items[i].children, ids[1..], one));
    var j :| 0 <= j < |items| && items[j].id == ids[0]
      && (if |ids| == 1 then items[j] == other else Leads(items[j].children, ids[1..], other));
    assert i == j;
    if |ids| > 1 {
      assert items[i] in items;
      LeadsToOne(items[i].children, ids[1..], one, other);
    }
  }

  lemma LeavesAreBare(leaves: seq<Item>, entry: NamedTopic, s: Snapshot, i: nat)
    requires ShowsLeaves(leaves, entry, s) && i < |leaves|
    ensures leaves[i].children == []
  {
    var peers := Publishing(entry.topic);
    if i >= |peers| {
      var j := i - |peers|;
      assert leaves[|peers| + j] == Item(entry.name + [MARK] + "sub" + [MARK] + Consuming(s, entry.name)[j], []);
    }
  }

  /** What is right below an item is a node or a leaf. */
  lemma ChildOrLeaf(item: Item, segment: string, node: Node, s: Snapshot, i: nat) returns (k: Option<string>)
    requires ShowsNode(item, segment, node, s) && i < |item.children|
    ensures k.Some? ==> k.value in node.children && ShowsNode(item.children[i], k.value, node.children[k.value], s)
    ensures k.None? ==> item.children[i].children == []
  {
    var keys := SortedKeys(node.children.Keys);
    if i < |keys| {
      k := Some(keys[i]);
      assert keys[i] in keys;
    } else {
      k := None;
      assert item.children[|keys|..][i - |keys|] == item.children[i];
      LeavesAreBare(item.children[|keys|..], node.topic.value, s, i - |keys|);
    }
  }

  lemma NothingUnique()
    ensures AllUnique([])
  {
  }

  lemma {:induction false} NodeAllUnique(item: Item, segment: string, node: Node, s: Snapshot)
    requires ShowsNode(item, segment, node, s)
    ensures AllUnique(item.children)
    decreases node
  {
    forall child | child in item.children ensures AllUnique(child.children) {
      var i :| 0 <= i < |item.children| && item.children[i] == child;
      var k := ChildOrLeaf(item, segment, node, s, i);
      if k.Some? {
        NodeAllUnique(child, k.value, node.children[k.value], s);
      } else {
        NothingUnique();
      }
    }
  }

  /** Where a node is shown, so is all above it. */
  lemma PathShown(topics: map<string, Topic>, path: seq<string>, k: nat)
    requires SubNode(Trie(topics), path).Some? && k <= |path|
    ensures SubNode(Trie(topics), path[..k]).Some?
  {
    TrieNodesArePrefixes(topics, path);
    TrieNodesArePrefixes(topics, path[..k]);
    if k > 0 {
      var n :| n in Published(topics) && path <= PathOf(n);
      assert path[..k] <= PathOf(n);
    }
  }

  /** The identifiers of the nodes along a path. */
  function IdsAlong(topics: map<string, Topic>, path: seq<string>): seq<string>
    requires SubNode(Trie(topics), path).Some?
  {
    if path == [] then []
    else
      PathShown(topics, path, |path| - 1);
      IdsAlong(topics, path[..|path| - 1]) + [IdAt(topics, path).value]
  }

  /** Following further. */
  lemma {:induction false} LeadsOn(items: seq<Item>, ids: seq<string>, above: Item, id: string, i: nat)
    requires Leads(items, ids, above) && i < |above.children| && above.children[i].id == id
    ensures Leads(items, ids + [id], above.children[i])
    decreases |ids|
  {
    var j :| 0 <= j < |items| && items[j].id == ids[0]
      && (if |ids| == 1 then items[j] == above else Leads(items[j].children, ids[1..], above));
    assert (ids + [id])[0] == ids[0] && (ids + [id])[1..] == ids[1..] + [id];
    if |ids| > 1 {
      LeadsOn(items[j].children, ids[1..], above, id, i);
    } else {
      assert ids[1..] + [id] == [id];
    }
  }

  /** A node's child is shown by one of its item's children. */
  lemma ChildShown(items: seq<Item>, node: Node, s: Snapshot, k: string) returns (i: nat)
    requires k in node.children
    requires var keys := SortedKeys(node.children.Keys);
      |items| >= |keys| && forall i :: 0 <= i < |keys| ==> ShowsNode(items[i], keys[i], node.children[keys[i]], s)
    ensures i < |items| && ShowsNode(items[i], k, node.children[k], s)
  {
    var keys := SortedKeys(node.children.Keys);
    assert k in keys;
    i :| 0 <= i < |keys| && keys[i] == k;
  }

  /** A node and the one above it. */
  lemma NodeAbove(topics: map<string, Topic>, path: seq<string>)
    requires path != [] && SubNode(Trie(topics), path).Some?
    ensures var above, k := path[..|path| - 1], path[|path| - 1];
      && SubNode(Trie(topics), above).Some?
      && k in SubNode(Trie(topics), above).value.children
      && SubNode(Trie(topics), path).value == SubNode(Trie(topics), above).value.children[k]
      && IdsAlong(topics, path) == IdsAlong(topics, above) + [NodeId(k, SubNode(Trie(topics), path).value)]
  {
    assert path == path[..|path| - 1] + [path[|path| - 1]];
    PathShown(topics, path, |path| - 1);
    SubNodeChild(Trie(topics), path[..|path| - 1], path[|path| - 1]);
  }

  /** One step further down, from an item that is a node. */
  lemma StepReached(items: seq<Item>, ids: seq<string>, above: Item, segment: string, node: Node, k: string, s: Snapshot)
    returns (item: Item)
    requires Leads(items, ids, above) && ShowsNode(above, segment, node, s) && k in node.children
    ensures Leads(items, ids + [NodeId(k, node.children[k])], item) && ShowsNode(item, k, node.children[k], s)
  {
    var i := ChildShown(above.children, node, s, k);
    item := above.children[i];
    LeadsOn(items, ids, above, item.id, i);
  }

  lemma TopReached(items: seq<Item>, root: Node, k: string, s: Snapshot) returns (item: Item)
    requires ShowsAll(items, SortedKeys(root.children.Keys), root, s) && k in root.children
    ensures Leads(items, [NodeId(k, root.children[k])], item) && ShowsNode(item, k, root.children[k], s)
  {
    var i := ChildShown(items, root, s, k);
    item := items[i];
    assert items[i].id == [NodeId(k, root.children[k])][0];
  }

  lemma {:induction false} NodeReached(s: Snapshot, path: seq<string>) returns (item: Item)
    requires Panel(s).Some? && path != [] && SubNode(Trie(s.topics), path).Some?
    ensures Leads(Panel(s).value, IdsAlong(s.topics, path), item)
    ensures ShowsNode(item, path[|path| - 1], SubNode(Trie(s.topics), path).value, s)
    decreases |path|
  {
    var above, k := path[..|path| - 1], path[|path| - 1];
    NodeAbove(s.topics, path);
    var node := SubNode(Trie(s.topics), above).value;
    if above == [] {
      PanelIsTrie(s);
      item := TopReached(Panel(s).value, node, k, s);
      assert [] + [item.id] == [item.id];
    } else {
      var parent := NodeReached(s, above);
      item := StepReached(Panel(s).value, IdsAlong(s.topics, above), parent, above[|above| - 1], node, k, s);
    }
  }

  lemma PanelAllUnique(s: Snapshot)
    requires Panel(s).Some?
    ensures AllUnique(Panel(s).value)
  {
    var items, root := Panel(s).value, Trie(s.topics);
    var keys := SortedKeys(root.children.Keys);
    PanelIsTrie(s);
    forall item | item in items ensures AllUnique(item.children) {
      var i :| 0 <= i < |items| && items[i] == item;
      assert keys[i] in keys;
      NodeAllUnique(item, keys[i], root.children[keys[i]], s);
    }
  }

  /** In an accepted panel the identifiers along a node's path lead to exactly one item,
      and that item is the node. */
  lemma NodeShownOnce(s: Snapshot, path: seq<string>) returns (item: Item)
    requires Panel(s).Some? && path != [] && SubNode(Trie(s.topics), path).Some?
    ensures ShowsNode(item, path[|path| - 1], SubNode(Trie(s.topics), path).value, s)
    ensures forall other :: Leads(Panel(s).value, IdsAlong(s.topics, path), other) <==> other == item
  {
    item := NodeReached(s, path);
    PanelAllUnique(s);
    forall other | Leads(Panel(s).value, IdsAlong(s.topics, path), other) ensures other == item {
      LeadsToOne(Panel(s).value, IdsAlong(s.topics, path), other, item);
    }
  }
}
