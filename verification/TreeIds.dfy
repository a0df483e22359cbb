/** When the tree's identifiers change: what the topic and group nodes are called is
    decided by the first topic below them, and only a newly published topic that
    comes before it can change that. */
module TreeIds {
  import opened Basics
  import opened Events
  import opened State
  import opened Strings
  import opened Ordering
  import opened Tree
  import opened TreeItems

  // ---- The order in which the tree lists topics ----

  /** `p` comes strictly before `q` when a tree is read from the top, parents first. */
  predicate PathBefore(p: seq<string>, q: seq<string>)
    decreases |p|
  {
    if q == [] then false
    else if p == [] then true
    else if p[0] != q[0] then AtMost(p[0], q[0])
    else PathBefore(p[1..], q[1..])
  }

  lemma {:induction false} PathBeforeAsymmetric(p: seq<string>, q: seq<string>)
    ensures !(PathBefore(p, q) && PathBefore(q, p))
    decreases |p|
  {
    if p != [] && q != [] {
      if p[0] != q[0] {
        if AtMost(p[0], q[0]) && AtMost(q[0], p[0]) { AtMostAntisymmetric(p[0], q[0]); }
      } else {
        PathBeforeAsymmetric(p[1..], q[1..]);
      }
    }
  }

  lemma {:induction false} PathBeforeTotal(p: seq<string>, q: seq<string>)
    ensures p == q || PathBefore(p, q) || PathBefore(q, p)
    decreases |p|
  {
    if p != [] && q != [] {
      if p[0] != q[0] {
        AtMostTotal(p[0], q[0]);
      } else {
        PathBeforeTotal(p[1..], q[1..]);
        assert p == [p[0]] + p[1..] && q == [q[0]] + q[1..];
      }
    }
  }

  lemma {:induction false} AncestorsBefore(p: seq<string>, q: seq<string>)
    requires p <= q && p != q
    ensures PathBefore(p, q)
    decreases |p|
  {
    if p != [] {
      assert p == [p[0]] + p[1..] && q == [q[0]] + q[1..];
      AncestorsBefore(p[1..], q[1..]);
    }
  }

  /** Below a common path, the one in the earlier branch comes first. */
  lemma {:induction false} BranchesBefore(path: seq<string>, j: string, p: seq<string>, k: string, q: seq<string>)
    requires path + [j] <= p && path + [k] <= q
    requires j != k && AtMost(j, k)
    ensures PathBefore(p, q)
    decreases |path|
  {
    assert p[|path|] == j && q[|path|] == k;
    if path != [] {
      assert p[0] == path[0] == q[0];
      assert path[1..] + [j] == (path + [j])[1..] && path[1..] + [k] == (path + [k])[1..];
      BranchesBefore(path[1..], j, p[1..], k, q[1..]);
    }
  }

  /** `one` is what the tree meets before `other`; of two topics that share a node, the
      one with the later name hides the other. */
  predicate Ahead(one: string, other: string) {
    || PathBefore(PathOf(one), PathOf(other))
    || (PathOf(one) == PathOf(other) && AtMost(other, one))
  }

  lemma AheadTotal(one: string, other: string)
    ensures Ahead(one, other) || Ahead(other, one)
  {
    PathBeforeTotal(PathOf(one), PathOf(other));
    AtMostTotal(one, other);
  }

  lemma AheadAntisymmetric(one: string, other: string)
    requires Ahead(one, other) && Ahead(other, one)
    ensures one == other
  {
    PathBeforeAsymmetric(PathOf(one), PathOf(other));
    if PathOf(one) == PathOf(other) {
      PathBeforeAsymmetric(PathOf(one), PathOf(one));
      AtMostAntisymmetric(one, other);
    }
  }

  lemma {:induction false} PathBeforeTransitive(p: seq<string>, q: seq<string>, r: seq<string>)
    requires PathBefore(p, q) && PathBefore(q, r)
    ensures PathBefore(p, r)
    decreases |p|
  {
    if p != [] {
      if p[0] == q[0] == r[0] {
        PathBeforeTransitive(p[1..], q[1..], r[1..]);
      } else if p[0] != q[0] && q[0] != r[0] {
        AtMostTransitive(p[0], q[0], r[0]);
        if p[0] == r[0] { AtMostAntisymmetric(p[0], q[0]); }
      }
    }
  }

  lemma AheadTransitive(one: string, other: string, third: string)
    requires Ahead(one, other) && Ahead(other, third)
    ensures Ahead(one, third)
  {
    if PathBefore(PathOf(one), PathOf(other)) && PathBefore(PathOf(other), PathOf(third)) {
      PathBeforeTransitive(PathOf(one), PathOf(other), PathOf(third));
    } else if PathOf(one) == PathOf(other) == PathOf(third) {
      AtMostTransitive(third, other, one);
    }
  }

  // ---- The first topic below a node ----

  /** Of the `names` at or below `path`, `first` is ahead of all others. */
  ghost predicate FirstBelow(first: string, names: set<string>, path: seq<string>) {
    && first in names && path <= PathOf(first)
    && forall n :: n in names && path <= PathOf(n) ==> Ahead(first, n)
  }

  lemma FirstBelowUnique(one: string, other: string, names: set<string>, path: seq<string>)
    requires FirstBelow(one, names, path) && FirstBelow(other, names, path)
    ensures one == other
  {
    AheadAntisymmetric(one, other);
  }

  /** A node's children are one step further down. */
  lemma {:induction false} SubNodeChild(node: Node, path: seq<string>, k: string)
    requires SubNode(node, path).Some?
    ensures var at := SubNode(node, path).value;
      SubNode(node, path + [k]) == if k in at.children then Some(at.children[k]) else None
    decreases |path|
  {
    if path == [] {
      assert (path + [k])[1..] == [];
    } else {
      assert (path + [k])[1..] == path[1..] + [k] && (path + [k])[0] == path[0];
      SubNodeChild(node.children[path[0]], path[1..], k);
    }
  }

  /** A topic node's own topic is the first below it. */
  lemma TopicIsFirst(topics: map<string, Topic>, path: seq<string>)
    requires TopicAt(Trie(topics), path).Some?
    ensures FirstBelow(TopicAt(Trie(topics), path).value.name, Published(topics), path)
  {
    TrieHoldsLastPublished(topics, path);
    var first := TopicAt(Trie(topics), path).value.name;
    forall n | n in Published(topics) && path <= PathOf(n) ensures Ahead(first, n) {
      if PathOf(n) != path { AncestorsBefore(path, PathOf(n)); }
    }
  }

  lemma NextSegment(path: seq<string>, p: seq<string>)
    requires path <= p && path != p
    ensures |p| > |path| && path + [p[|path|]] <= p
  {
  }

  lemma GroupHasNoTopic(topics: map<string, Topic>, path: seq<string>, n: string)
    requires TopicAt(Trie(topics), path).None? && n in Published(topics)
    ensures PathOf(n) != path
  {
    TrieHoldsLastPublished(topics, path);
  }

  /** Every branch that leads to a published topic is there. */
  lemma BranchShown(topics: map<string, Topic>, path: seq<string>, k: string, n: string)
    requires SubNode(Trie(topics), path).Some?
    requires n in Published(topics) && path + [k] <= PathOf(n)
    ensures k in SubNode(Trie(topics), path).value.children
  {
    TrieNodesArePrefixes(topics, path + [k]);
    SubNodeChild(Trie(topics), path, k);
  }

  /** The branch below a group that leads to one of its topics. */
  lemma BranchOf(topics: map<string, Topic>, path: seq<string>, n: string) returns (k: string)
    requires SubNode(Trie(topics), path).Some? && SubNode(Trie(topics), path).value.topic.None?
    requires n in Published(topics) && path <= PathOf(n)
    ensures k in SubNode(Trie(topics), path).value.children && path + [k] <= PathOf(n)
  {
    GroupHasNoTopic(topics, path, n);
    NextSegment(path, PathOf(n));
    k := PathOf(n)[|path|];
    BranchShown(topics, path, k, n);
  }

  /** The first topic of a group's first branch is the first of the group. */
  lemma FirstOfBranch(topics: map<string, Topic>, path: seq<string>, k: string, first: string)
    requires SubNode(Trie(topics), path).Some? && SubNode(Trie(topics), path).value.topic.None?
    requires IsLeast(k, SubNode(Trie(topics), path).value.children.Keys)
    requires FirstBelow(first, Published(topics), path + [k])
    ensures FirstBelow(first, Published(topics), path)
  {
    assert path <= path + [k];
    forall n | n in Published(topics) && path <= PathOf(n) ensures Ahead(first, n) {
      var j := BranchOf(topics, path, n);
      if j != k { BranchesBefore(path, k, PathOf(first), j, PathOf(n)); }
    }
  }

  /** The first topic of the node at `path` is the published topic below `path` that is
      ahead of all others there. */
  lemma {:induction false} FirstTopicIsAhead(topics: map<string, Topic>, path: seq<string>, node: Node, some: string)
    requires SubNode(Trie(topics), path) == Some(node)
    requires some in Published(topics) && path <= PathOf(some)
    ensures FirstTopic(node).Some? && FirstBelow(FirstTopic(node).value, Published(topics), path)
    decreases node
  {
    if node.topic.Some? {
      TopicIsFirst(topics, path);
    } else {
      var j := BranchOf(topics, path, some);
      var k := SortedKeysFirst(node.children.Keys);
      assert SortedKeys(node.children.Keys)[0] == k;
      SubNodeChild(Trie(topics), path, k);
      TrieNodesArePrefixes(topics, path + [k]);
      var n :| n in Published(topics) && path + [k] <= PathOf(n);
      FirstTopicIsAhead(topics, path + [k], node.children[k], n);
      FirstOfBranch(topics, path, k, FirstTopic(node.children[k]).value);
    }
  }

  // ---- Identifiers ----

  /** The identifier of the topic or group shown at `path`. */
  function IdAt(topics: map<string, Topic>, path: seq<string>): Option<string>
    requires path != []
  {
    match SubNode(Trie(topics), path)
    case None => None
    case Some(node) => Some(NodeId(path[|path| - 1], node))
  }

  /** The identifier that the first topic below a path gives the node there. */
  function IdFrom(first: string, path: seq<string>): string
    requires path != []
  {
    if PathOf(first) == path then "topic" + [MARK] + first
    else "group" + [MARK] + (first + [MARK] + path[|path| - 1])
  }

  /** A node is shown exactly where some published topic is at or below it, and the
      first such topic decides what it is called. */
  lemma IdIsFromFirst(topics: map<string, Topic>, path: seq<string>)
    requires path != []
    ensures IdAt(topics, path).None? <==> forall n :: n in Published(topics) ==> !(path <= PathOf(n))
    ensures IdAt(topics, path).Some? ==> exists first ::
      FirstBelow(first, Published(topics), path) && IdAt(topics, path) == Some(IdFrom(first, path))
  {
    TrieNodesArePrefixes(topics, path);
    if SubNode(Trie(topics), path).Some? {
      var node := SubNode(Trie(topics), path).value;
      var some :| some in Published(topics) && path <= PathOf(some);
      FirstTopicIsAhead(topics, path, node, some);
      TrieHoldsLastPublished(topics, path);
      var first := FirstTopic(node).value;
      if node.topic.None? { assert PathOf(first) != path; }
      assert IdAt(topics, path) == Some(IdFrom(first, path));
    }
  }

  /** Different first topics give different identifiers. */
  lemma IdFromUnique(one: string, other: string, path: seq<string>)
    requires path != [] && IdFrom(one, path) == IdFrom(other, path)
    ensures one == other
  {
    var id, tail := IdFrom(one, path), [MARK] + path[|path| - 1];
    assert id[0] == if PathOf(one) == path then 't' else 'g';
    assert id[0] == if PathOf(other) == path then 't' else 'g';
    if PathOf(one) == path {
      assert id[6..] == one;
      assert id[6..] == other;
    } else {
      assert id[6..] == one + tail;
      assert id[6..] == other + tail;
      assert one == (one + tail)[..|one|] && other == (other + tail)[..|other|];
    }
  }

  /** A shown node's identifier, as a function of the published names. */
  lemma IdOfFirst(topics: map<string, Topic>, path: seq<string>, first: string)
    requires path != [] && FirstBelow(first, Published(topics), path)
    ensures IdAt(topics, path) == Some(IdFrom(first, path))
  {
    IdIsFromFirst(topics, path);
    var f :| FirstBelow(f, Published(topics), path) && IdAt(topics, path) == Some(IdFrom(f, path));
    FirstBelowUnique(f, first, Published(topics), path);
  }

  /** Identifiers of topic and group nodes are a function of the set of published
      topic names: not of counters, peers, subscriptions or listings. */
  lemma IdsDependOnPublished(one: map<string, Topic>, other: map<string, Topic>, path: seq<string>)
    requires path != [] && Published(one) == Published(other)
    ensures IdAt(one, path) == IdAt(other, path)
  {
    IdIsFromFirst(one, path);
    IdIsFromFirst(other, path);
    if IdAt(one, path).Some? {
      var first :| FirstBelow(first, Published(one), path) && IdAt(one, path) == Some(IdFrom(first, path));
      IdOfFirst(other, path, first);
    }
  }

  // ---- When they change ----

  /** A newly published topic that is not ahead leaves the first topic the first. */
  lemma StaysFirst(first: string, names: set<string>, n: string, path: seq<string>)
    requires FirstBelow(first, names, path)
    requires !(path <= PathOf(n) && Ahead(n, first))
    ensures FirstBelow(first, names + {n}, path)
  {
    AheadTotal(first, n);
  }

  /** One that is ahead becomes the first, or at any rate the first is another. */
  lemma NoLongerFirst(first: string, other: string, names: set<string>, n: string, path: seq<string>)
    requires n !in names && FirstBelow(first, names, path) && FirstBelow(other, names + {n}, path)
    requires path <= PathOf(n) && Ahead(n, first)
    ensures other != first
  {
    if other == first {
      AheadAntisymmetric(first, n);
    }
  }

  /** When one more topic is published, a shown node with first topic `first` changes
      its identifier exactly if the new topic is at or below it and ahead of `first`:
      what the name of the new topic alone decides. */
  lemma IdChangesExactly(one: map<string, Topic>, other: map<string, Topic>, n: string, path: seq<string>, first: string)
    requires path != [] && n !in Published(one) && Published(other) == Published(one) + {n}
    requires FirstBelow(first, Published(one), path)
    ensures IdAt(one, path) == Some(IdFrom(first, path))
    ensures IdAt(other, path) != IdAt(one, path) <==> path <= PathOf(n) && Ahead(n, first)
  {
    IdOfFirst(one, path, first);
    if path <= PathOf(n) && Ahead(n, first) {
      IdIsFromFirst(other, path);
      var f :| FirstBelow(f, Published(other), path) && IdAt(other, path) == Some(IdFrom(f, path));
      NoLongerFirst(first, f, Published(one), n, path);
      if IdFrom(f, path) == IdFrom(first, path) { IdFromUnique(f, first, path); }
    } else {
      StaysFirst(first, Published(one), n, path);
      IdOfFirst(other, path, first);
    }
  }

  /** An observation adds to the published topics exactly when it is a non-empty
      publish to a topic without messages so far. */
  lemma PublishedAfter(s: Snapshot, o: Observation, now: Instant)
    ensures Published(Applied(s, o, now).topics) ==
      if o.Publish? && o.messages != [] then Published(s.topics) + {o.topic} else Published(s.topics)
  {
  }

  /** The observation publishes a topic for the first time, and that topic becomes the
      first one at or below `path`. */
  ghost predicate Overtakes(s: Snapshot, o: Observation, path: seq<string>) {
    && o.Publish? && o.messages != [] && o.topic !in Published(s.topics)
    && path <= PathOf(o.topic)
    && forall n :: n in Published(s.topics) && path <= PathOf(n) ==> Ahead(o.topic, n)
  }

  lemma OvertakesFirst(s: Snapshot, o: Observation, path: seq<string>, first: string)
    requires o.Publish? && o.messages != [] && o.topic !in Published(s.topics)
    requires FirstBelow(first, Published(s.topics), path)
    ensures Overtakes(s, o, path) <==> path <= PathOf(o.topic) && Ahead(o.topic, first)
  {
    if path <= PathOf(o.topic) && Ahead(o.topic, first) {
      forall n | n in Published(s.topics) && path <= PathOf(n) ensures Ahead(o.topic, n) {
        AheadTransitive(o.topic, first, n);
      }
    }
  }

  /** Exactly when the tree's identifiers survive an observation: the node at `path`,
      shown or not, keeps what it is called unless a topic published for the first
      time overtakes all others there. */
  lemma ObservationKeepsIds(s: Snapshot, o: Observation, now: Instant, path: seq<string>)
    requires path != []
    ensures IdAt(Applied(s, o, now).topics, path) == IdAt(s.topics, path) <==> !Overtakes(s, o, path)
  {
    var after := Applied(s, o, now).topics;
    PublishedAfter(s, o, now);
    IdIsFromFirst(s.topics, path);
    if !(o.Publish? && o.messages != [] && o.topic !in Published(s.topics)) {
      assert Published(after) == Published(s.topics);
      IdsDependOnPublished(after, s.topics, path);
    } else if IdAt(s.topics, path).Some? {
      var first :| FirstBelow(first, Published(s.topics), path);
      IdChangesExactly(s.topics, after, o.topic, path, first);
      OvertakesFirst(s, o, path, first);
    } else {
      IdIsFromFirst(after, path);
    }
  }

  // ---- Identifiers that do change ----

  /** The state after publishing to one topic, and to two in turn. */
  function PublishedOne(one: string, message: PublishedMessage): Snapshot {
    Applied(Empty(1), Publish(one, None, [message]), 0)
  }

  function PublishedTwo(one: string, other: string, message: PublishedMessage): Snapshot {
    Applied(PublishedOne(one, message), Publish(other, None, [message]), 0)
  }

  lemma PublishedOneTopic(one: string, message: PublishedMessage)
    ensures Published(PublishedOne(one, message).topics) == {one}
  {
    PublishedAfter(Empty(1), Publish(one, None, [message]), 0);
    assert Published(Empty(1).topics) == {};
  }

  lemma PublishedTwoTopics(one: string, other: string, message: PublishedMessage)
    ensures Published(PublishedTwo(one, other, message).topics) == {one, other}
  {
    PublishedOneTopic(one, message);
    PublishedAfter(PublishedOne(one, message), Publish(other, None, [message]), 0);
  }

  /** What a node is called before and after a second topic overtakes the first. */
  lemma Overtaken(one: string, other: string, message: PublishedMessage, path: seq<string>)
    requires path != [] && path <= PathOf(one) && path <= PathOf(other) && Ahead(other, one)
    ensures IdAt(PublishedOne(one, message).topics, path) == Some(IdFrom(one, path))
    ensures IdAt(PublishedTwo(one, other, message).topics, path) == Some(IdFrom(other, path))
  {
    PublishedOneTopic(one, message);
    PublishedTwoTopics(one, other, message);
    AheadTotal(one, one);
    AheadTotal(other, other);
    IdOfFirst(PublishedOne(one, message).topics, path, one);
    IdOfFirst(PublishedTwo(one, other, message).topics, path, other);
  }

  lemma DottedPath(group: string, leaf: string)
    requires '/' !in group && '/' !in leaf && SEGMENT_SEP !in group && SEGMENT_SEP !in leaf
    ensures PathOf(group + [SEGMENT_SEP] + leaf) == [group, leaf]
  {
    SplitSolid(group + [SEGMENT_SEP] + leaf, '/');
    SplitFirst(group, leaf, SEGMENT_SEP);
    SplitSolid(leaf, SEGMENT_SEP);
  }

  lemma ShortPath(prefix: string, leaf: string)
    requires '/' !in prefix && '/' !in leaf && SEGMENT_SEP !in leaf
    ensures PathOf(prefix + ['/'] + leaf) == [leaf]
  {
    SplitFirst(prefix, leaf, '/');
    SplitSolid(leaf, '/');
    SplitSolid(leaf, SEGMENT_SEP);
  }

  /** A group does not keep its identifier when an earlier topic joins it: after `g.x`,
      publishing `g.a` renames the group `g`. */
  lemma GroupRenamed(message: PublishedMessage)
    ensures IdAt(PublishedOne("g.x", message).topics, ["g"]) == Some("group" + [MARK] + ("g.x" + [MARK] + "g"))
    ensures IdAt(PublishedTwo("g.x", "g.a", message).topics, ["g"]) == Some("group" + [MARK] + ("g.a" + [MARK] + "g"))
  {
    DottedPath("g", "x");
    DottedPath("g", "a");
    assert "g" + [SEGMENT_SEP] + "x" == "g.x" && "g" + [SEGMENT_SEP] + "a" == "g.a";
    assert AtMost("a", "x");
    assert ["g", "a"][1..] == ["a"] && ["g", "x"][1..] == ["x"];
    assert PathBefore(["g", "a"], ["g", "x"]);
    Overtaken("g.x", "g.a", message, ["g"]);
  }

  /** Nor does a topic, when a later name takes over its node. */
  lemma TopicRenamed(message: PublishedMessage)
    ensures IdAt(PublishedOne("p/a", message).topics, ["a"]) == Some("topic" + [MARK] + "p/a")
    ensures IdAt(PublishedTwo("p/a", "q/a", message).topics, ["a"]) == Some("topic" + [MARK] + "q/a")
  {
    ShortPath("p", "a");
    ShortPath("q", "a");
    assert "p" + ['/'] + "a" == "p/a" && "q" + ['/'] + "a" == "q/a";
    assert AtMost("p/a", "q/a");
    Overtaken("p/a", "q/a", message, ["a"]);
  }

  /** Publishing elsewhere disturbs nothing shown: after `g.x`, publishing `z.a` keeps
      every identifier there was. */
  lemma OthersKept(message: PublishedMessage, path: seq<string>)
    requires path != [] && IdAt(PublishedOne("g.x", message).topics, path).Some?
    ensures IdAt(PublishedTwo("g.x", "z.a", message).topics, path) == IdAt(PublishedOne("g.x", message).topics, path)
  {
    DottedPath("g", "x");
    DottedPath("z", "a");
    assert "g" + [SEGMENT_SEP] + "x" == "g.x" && "z" + [SEGMENT_SEP] + "a" == "z.a";
    PublishedOneTopic("g.x", message);
    IdIsFromFirst(PublishedOne("g.x", message).topics, path);
    assert path[0] == "g";
    ObservationKeepsIds(PublishedOne("g.x", message), Publish("z.a", None, [message]), 0, path);
  }
}
