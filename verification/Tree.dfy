/** The topic trie behind the tree panel: dotted topic names nested under groups. */
module Tree {
  import opened Basics
  import opened State
  import opened Strings
  import opened Ordering
  import opened Sums
  import StateLog

  const SEGMENT_SEP := '.'

  datatype NamedTopic = NamedTopic(name: string, topic: Topic)

  datatype Node = Node(children: map<string, Node>, topic: Option<NamedTopic>)

  const EMPTY := Node(map[], None)

  /** Last path component of a fully-qualified resource name. */
  function Short(name: string): string {
    var pieces := Split(name, '/');
    pieces[|pieces| - 1]
  }

  /** Where in the trie a topic belongs. */
  function PathOf(name: string): seq<string> {
    Split(Short(name), SEGMENT_SEP)
  }

  /** The topics with messages, which are the ones the tree shows. */
  function Published(topics: map<string, Topic>): set<string> {
    set name | name in topics && topics[name].publishCount != 0
  }

  function ChildOr(node: Node, segment: string): Node {
    if segment in node.children then node.children[segment] else EMPTY
  }

  function Inserted(node: Node, path: seq<string>, entry: NamedTopic): Node
    decreases |path|
  {
    if path == [] then node.(topic := Some(entry))
    else node.(children := node.children[path[0] := Inserted(ChildOr(node, path[0]), path[1..], entry)])
  }

  /** The node reached from `node` along `path`, created where missing. */
  function NodeAlong(node: Node, path: seq<string>): Node {
    if path == [] then node else ChildOr(NodeAlong(node, path[..|path| - 1]), path[|path| - 1])
  }

  lemma StepsAlong(node: Node, path: seq<string>, i: nat)
    requires i < |path|
    ensures NodeAlong(node, path[..i + 1]) == ChildOr(NodeAlong(node, path[..i]), path[i])
  {
    assert path[..i + 1][..i] == path[..i];
  }

  function InsertedAll(names: seq<string>, topics: map<string, Topic>): Node
    requires forall n :: n in names ==> n in topics
  {
    if names == [] then EMPTY
    else
      var last := names[|names| - 1];
      Inserted(InsertedAll(names[..|names| - 1], topics), PathOf(last), NamedTopic(last, topics[last]))
  }

  /** The trie for a set of topics. */
  function Trie(topics: map<string, Topic>): Node {
    InsertedAll(SortedKeys(Published(topics)), topics)
  }

  lemma InsertedOneMore(names: seq<string>, topics: map<string, Topic>, name: string)
    requires name in topics && forall n :: n in names ==> n in topics
    ensures InsertedAll(names + [name], topics)
      == Inserted(InsertedAll(names, topics), PathOf(name), NamedTopic(name, topics[name]))
  {
    assert (names + [name])[..|names|] == names;
  }

  /** Insert one topic. The reference that walks down, creating missing nodes, is the
      node at hand and the nodes it came through; writing through it is putting the
      changed nodes back on the way up. */
  method Insert(root: Node, path: seq<string>, entry: NamedTopic) returns (changed: Node)
    ensures changed == Inserted(root, path, entry)
  {
    var node, above: seq<Node> := root, [];
    for i := 0 to |path|
      invariant |above| == i && node == NodeAlong(root, path[..i])
      invariant forall j :: 0 <= j < i ==> above[j] == NodeAlong(root, path[..j])
    {
      StepsAlong(root, path, i);
      above := above + [node];
      node := ChildOr(node, path[i]);
    }
    assert path[..|path|] == path && path[|path|..] == [];
    changed := node.(topic := Some(entry));
    for i := |path| downto 0
      invariant changed == Inserted(NodeAlong(root, path[..i]), path[i..], entry)
    {
      StepsAlong(root, path, i);
      assert path[i..][1..] == path[i + 1..];
      changed := above[i].(children := above[i].children[path[i] := changed]);
    }
    assert path[..0] == [] && path[0..] == path;
  }

  /** Assemble the trie from every topic that has observed messages. */
  method Build(topics: map<string, Topic>) returns (root: Node)
    ensures root == Trie(topics)
  {
    var keys := SortedKeys(topics.Keys);
    root := EMPTY;
    for i := 0 to |keys|
      invariant root == InsertedAll(Kept(keys[..i], Published(topics)), topics)
    {
      KeptOneMore(keys, i, Published(topics));
      if topics[keys[i]].publishCount == 0 {
        continue;
      }
      InsertedOneMore(Kept(keys[..i], Published(topics)), topics, keys[i]);
      root := Insert(root, PathOf(keys[i]), NamedTopic(keys[i], topics[keys[i]]));
    }
    assert keys[..|keys|] == keys;
    KeptInOrder(topics.Keys, Published(topics));
  }

  // ---- What the trie holds ----

  function SubNode(node: Node, path: seq<string>): Option<Node>
    decreases |path|
  {
    if path == [] then Some(node)
    else if path[0] in node.children then SubNode(node.children[path[0]], path[1..])
    else None
  }

  function TopicAt(node: Node, path: seq<string>): Option<NamedTopic> {
    match SubNode(node, path)
    case None => None
    case Some(n) => n.topic
  }

  /** Inserting sets the topic at its own path and no other. */
  lemma {:induction false} InsertedTopicAt(node: Node, path: seq<string>, entry: NamedTopic, q: seq<string>)
    ensures TopicAt(Inserted(node, path, entry), q) == if q == path then Some(entry) else TopicAt(node, q)
    decreases |path|
  {
    if path != [] && q != [] && q[0] == path[0] {
      InsertedTopicAt(ChildOr(node, path[0]), path[1..], entry, q[1..]);
      assert q == [q[0]] + q[1..] && path == [path[0]] + path[1..];
      if path[0] !in node.children && q[1..] != [] {
        assert SubNode(EMPTY, q[1..]) == None;
      }
    }
  }

  /** Inserting adds exactly the nodes along its path. */
  lemma {:induction false} InsertedSubNode(node: Node, path: seq<string>, entry: NamedTopic, q: seq<string>)
    ensures SubNode(Inserted(node, path, entry), q).Some? <==> SubNode(node, q).Some? || q <= path
    decreases |path|
  {
    if path != [] && q != [] && q[0] == path[0] {
      InsertedSubNode(ChildOr(node, path[0]), path[1..], entry, q[1..]);
      assert q <= path <==> q[1..] <= path[1..];
      if path[0] !in node.children && q[1..] != [] {
        assert SubNode(EMPTY, q[1..]) == None;
      }
    }
  }

  /** `held` is the last of the `names` that belong at `p`, if there are any. */
  ghost predicate HeldAt(held: Option<NamedTopic>, names: seq<string>, topics: map<string, Topic>, p: seq<string>) {
    match held
    case None => forall n :: n in names ==> PathOf(n) != p
    case Some(e) =>
      && e.name in names && e.name in topics && e.topic == topics[e.name] && PathOf(e.name) == p
      && forall n :: n in names && PathOf(n) == p ==> AtMost(n, e.name)
  }

  lemma HeldAfter(held: Option<NamedTopic>, names: seq<string>, last: string, topics: map<string, Topic>, p: seq<string>)
    requires HeldAt(held, names, topics, p) && last in topics
    requires forall n :: n in names ==> AtMost(n, last)
    ensures HeldAt(if p == PathOf(last) then Some(NamedTopic(last, topics[last])) else held, names + [last], topics, p)
  {
    AtMostTotal(last, last);
    assert last in names + [last];
  }

  lemma {:induction false} HoldsLast(names: seq<string>, topics: map<string, Topic>, p: seq<string>)
    requires Increasing(names) && forall n :: n in names ==> n in topics
    ensures HeldAt(TopicAt(InsertedAll(names, topics), p), names, topics, p)
  {
    if names == [] {
      assert p != [] ==> SubNode(EMPTY, p) == None;
    } else {
      var before, last := names[..|names| - 1], names[|names| - 1];
      assert names == before + [last];
      IncreasingSnoc(before, last);
      HoldsLast(before, topics, p);
      InsertedTopicAt(InsertedAll(before, topics), PathOf(last), NamedTopic(last, topics[last]), p);
      HeldAfter(TopicAt(InsertedAll(before, topics), p), before, last, topics, p);
    }
  }

  lemma {:induction false} HasPrefixes(names: seq<string>, topics: map<string, Topic>, p: seq<string>)
    requires forall n :: n in names ==> n in topics
    ensures SubNode(InsertedAll(names, topics), p).Some? <==> p == [] || exists n :: n in names && p <= PathOf(n)
  {
    if names == [] {
      assert p != [] ==> SubNode(EMPTY, p) == None;
    } else {
      var before, last := names[..|names| - 1], names[|names| - 1];
      HasPrefixes(before, topics, p);
      InsertedSubNode(InsertedAll(before, topics), PathOf(last), NamedTopic(last, topics[last]), p);
      assert names == before + [last];
    }
  }

  /** The node at `p` is a topic exactly when some published topic belongs there,
      and then it holds the last such topic in name order. */
  lemma TrieHoldsLastPublished(topics: map<string, Topic>, p: seq<string>)
    ensures match TopicAt(Trie(topics), p)
      case None => forall n :: n in Published(topics) ==> PathOf(n) != p
      case Some(e) =>
        && e.name in Published(topics) && e.topic == topics[e.name] && PathOf(e.name) == p
        && forall n :: n in Published(topics) && PathOf(n) == p ==> AtMost(n, e.name)
  {
    SortedKeysIncrease(Published(topics));
    HoldsLast(SortedKeys(Published(topics)), topics, p);
  }

  /** Apart from the root, the nodes are exactly the prefixes of published paths,
      so every node has a topic below it; and the root itself never is a topic. */
  lemma TrieNodesArePrefixes(topics: map<string, Topic>, p: seq<string>)
    ensures SubNode(Trie(topics), p).Some? <==> p == [] || exists n :: n in Published(topics) && p <= PathOf(n)
    ensures Trie(topics).topic.None?
  {
    HasPrefixes(SortedKeys(Published(topics)), topics, p);
    TrieHoldsLastPublished(topics, []);
  }

  // ---- Totals ----

  function CountAt(entry: Option<NamedTopic>): nat {
    if entry.Some? then entry.value.topic.publishCount else 0
  }

  /** Total observed messages across every topic in a subtree. */
  ghost function SubtreeMessages(node: Node): int {
    CountAt(node.topic) + Sum(map k | k in node.children :: SubtreeMessages(node.children[k]))
  }

  ghost function ChildTotals(node: Node): map<string, int> {
    map k | k in node.children :: SubtreeMessages(node.children[k])
  }

  lemma EmptyTotal()
    ensures SubtreeMessages(EMPTY) == 0
  {
    assert ChildTotals(EMPTY) == map[];
  }

  lemma {:induction false} InsertedTotal(node: Node, path: seq<string>, entry: NamedTopic)
    ensures SubtreeMessages(Inserted(node, path, entry))
      == SubtreeMessages(node) + entry.topic.publishCount - CountAt(TopicAt(node, path))
    decreases |path|
  {
    var after := Inserted(node, path, entry);
    if path == [] {
      assert ChildTotals(after) == ChildTotals(node);
    } else {
      var child := ChildOr(node, path[0]);
      InsertedTotal(child, path[1..], entry);
      var total := SubtreeMessages(after.children[path[0]]);
      SumUpdate(ChildTotals(node), path[0], total);
      assert ChildTotals(after) == ChildTotals(node)[path[0] := total];
      if path[0] !in node.children {
        EmptyTotal();
        assert path[1..] != [] ==> SubNode(EMPTY, path[1..]) == None;
      }
    }
  }

  function CountsOf(names: seq<string>, topics: map<string, Topic>): nat
    requires forall n :: n in names ==> n in topics
  {
    if names == [] then 0
    else CountsOf(names[..|names| - 1], topics) + topics[names[|names| - 1]].publishCount
  }

  ghost predicate DistinctPaths(names: seq<string>) {
    forall i, j :: 0 <= i < j < |names| ==> PathOf(names[i]) != PathOf(names[j])
  }

  lemma DistinctPathsOneMore(names: seq<string>, last: string)
    ensures DistinctPaths(names + [last]) <==> DistinctPaths(names) && forall n :: n in names ==> PathOf(n) != PathOf(last)
  {
    var more := names + [last];
    if DistinctPaths(more) {
      forall i, j | 0 <= i < j < |names| ensures PathOf(names[i]) != PathOf(names[j]) {
        assert more[i] == names[i] && more[j] == names[j];
      }
      forall n | n in names ensures PathOf(n) != PathOf(last) {
        var i :| 0 <= i < |names| && names[i] == n;
        assert more[i] == n && more[|names|] == last;
      }
    }
    if DistinctPaths(names) && forall n :: n in names ==> PathOf(n) != PathOf(last) {
      forall i, j | 0 <= i < j < |more| ensures PathOf(more[i]) != PathOf(more[j]) {
        assert more[i] == names[i];
      }
    }
  }

  lemma {:induction false} TotalsOf(names: seq<string>, topics: map<string, Topic>)
    requires Increasing(names) && forall n :: n in names ==> n in topics && topics[n].publishCount != 0
    ensures SubtreeMessages(InsertedAll(names, topics)) <= CountsOf(names, topics)
    ensures SubtreeMessages(InsertedAll(names, topics)) == CountsOf(names, topics) <==> DistinctPaths(names)
  {
    if names == [] {
      EmptyTotal();
    } else {
      var before, last := names[..|names| - 1], names[|names| - 1];
      assert names == before + [last];
      IncreasingSnoc(before, last);
      TotalsOf(before, topics);
      InsertedTotal(InsertedAll(before, topics), PathOf(last), NamedTopic(last, topics[last]));
      HoldsLast(before, topics, PathOf(last));
      DistinctPathsOneMore(before, last);
      var held := TopicAt(InsertedAll(before, topics), PathOf(last));
      assert held.Some? ==> topics[held.value.name].publishCount != 0;
    }
  }

  lemma {:induction false} AllZero(m: map<string, int>)
    requires forall k :: k in m ==> m[k] == 0
    ensures Sum(m) == 0
    decreases |m|
  {
    if m != map[] {
      var k :| k in m;
      SumSplit(m, k);
      AllZero(m - {k});
    }
  }

  lemma {:induction false} CountsOfSame(names: seq<string>, one: map<string, Topic>, other: map<string, Topic>)
    requires forall n :: n in names ==> n in one && n in other && one[n] == other[n]
    ensures CountsOf(names, one) == CountsOf(names, other)
  {
    if names != [] {
      CountsOfSame(names[..|names| - 1], one, other);
    }
  }

  lemma {:induction false} CountsOfAll(names: seq<string>, topics: map<string, Topic>)
    requires Distinct(names)
    requires forall n :: n in names ==> n in topics
    requires forall n :: n in topics && n !in names ==> topics[n].publishCount == 0
    ensures Sum(StateLog.TopicCounts(topics)) == CountsOf(names, topics)
    decreases |names|
  {
    var counts := StateLog.TopicCounts(topics);
    if names == [] {
      AllZero(counts);
    } else {
      var before, last := names[..|names| - 1], names[|names| - 1];
      var rest := topics - {last};
      assert forall n :: n in before ==> n != last && n in rest;
      CountsOfAll(before, rest);
      CountsOfSame(before, rest, topics);
      SumSplit(counts, last);
      assert counts - {last} == StateLog.TopicCounts(rest);
    }
  }

  lemma DistinctPathsAreDistinctShorts(names: seq<string>)
    requires Distinct(names)
    ensures DistinctPaths(names) <==> forall m, n :: m in names && n in names && Short(m) == Short(n) ==> m == n
  {
    if DistinctPaths(names) {
      forall m, n | m in names && n in names && Short(m) == Short(n) ensures m == n {
        var i :| 0 <= i < |names| && names[i] == m;
        var j :| 0 <= j < |names| && names[j] == n;
        assert PathOf(names[i]) == PathOf(names[j]);
      }
    } else {
      var i, j :| 0 <= i < j < |names| && PathOf(names[i]) == PathOf(names[j]);
      JoinSplit(Short(names[i]), SEGMENT_SEP);
      JoinSplit(Short(names[j]), SEGMENT_SEP);
      assert names[i] in names && names[j] in names;
    }
  }

  /** The tree never shows more messages than were published, and it shows all of
      them exactly when no two published topics share their last path component. */
  lemma TreeTotalIsPublished(topics: map<string, Topic>)
    ensures SubtreeMessages(Trie(topics)) <= Sum(StateLog.TopicCounts(topics))
    ensures SubtreeMessages(Trie(topics)) == Sum(StateLog.TopicCounts(topics)) <==>
      forall m, n :: m in Published(topics) && n in Published(topics) && Short(m) == Short(n) ==> m == n
  {
    var names := SortedKeys(Published(topics));
    SortedKeysIncrease(Published(topics));
    TotalsOf(names, topics);
    CountsOfAll(names, topics);
    DistinctPathsAreDistinctShorts(names);
  }
}
