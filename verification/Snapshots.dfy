// The index a joiner rebuilds from a snapshot's timelines: manager.py, the first part of apply_snapshot.
module Snapshots {
  import opened Basics
  import opened Walking
  import opened Patcher

  /** What a snapshot says of one object besides its GUID and its children. */
  datatype Content = Content(isTrack: bool, key: Option<(Guid, int)>, commands: seq<Command>)

  datatype Carried = Carried(tree: Tree<Content>, isClipTimeline: bool)

  predicate IsClipTimeline(c: Carried) {
    c.isClipTimeline
  }

  function Listed(trees: seq<Tree<Content>>): seq<Child> {
    seq(|trees|, i requires 0 <= i < |trees| => Child(trees[i].guid, trees[i].value.key))
  }

  function Contained(tree: Tree<Content>): Container {
    Container(tree.value.isTrack, tree.value.key, Listed(tree.children))
  }

  /** What the walk of a tree puts in the index. */
  function ContainersOf(met: seq<Tree<Content>>): seq<Entry<Container>> {
    seq(|met|, i requires 0 <= i < |met| => Entry(met[i].guid, Contained(met[i])))
  }

  function Indexing(g: Graph, c: Carried): Graph {
    if c.isClipTimeline then MapPreserve(g, ContainersOf(Walk(c.tree))) else MapAll(g, ContainersOf(Walk(c.tree)))
  }

  function IndexingAll(g: Graph, timelines: seq<Carried>): Graph {
    if timelines == [] then g else Indexing(IndexingAll(g, timelines[..|timelines| - 1]), timelines[|timelines| - 1])
  }

  /** The index rebuilt from nothing, sequences before clip timelines. */
  function RebuiltFrom(timelines: seq<Carried>): Graph {
    IndexingAll(map[], SequencesFirst(timelines, IsClipTimeline))
  }

  // ------------------------------------------------------------------ what it holds

  ghost predicate Carries(timelines: seq<Carried>, s: Tree<Content>) {
    exists c :: c in timelines && s in Walk(c.tree)
  }

  /** Every object carried is indexed, and every entry is one that some timeline carries. */
  lemma {:induction false} IndexingHolds(g: Graph, timelines: seq<Carried>)
    ensures forall s | Carries(timelines, s) :: s.guid in IndexingAll(g, timelines)
    ensures forall p | p in IndexingAll(g, timelines) ::
              (p in g && IndexingAll(g, timelines)[p] == g[p])
              || exists s :: Carries(timelines, s) && s.guid == p && Contained(s) == IndexingAll(g, timelines)[p]
  {
    if timelines != [] {
      var init, c := timelines[..|timelines| - 1], timelines[|timelines| - 1];
      IndexingHolds(g, init);
      var before, after := IndexingAll(g, init), IndexingAll(g, timelines);
      IndexingOne(before, c);
      assert forall d :: d in timelines <==> d in init || d == c;
      forall p | p in after
        ensures (p in g && after[p] == g[p]) || exists s :: Carries(timelines, s) && s.guid == p && Contained(s) == after[p]
      {
        if p in before && after[p] == before[p] {
          if s :| Carries(init, s) && s.guid == p && Contained(s) == before[p] {
            assert Carries(timelines, s);
          }
        } else {
          var s :| s in Walk(c.tree) && s.guid == p && Contained(s) == after[p];
          assert Carries(timelines, s);
        }
      }
    }
  }

  lemma IndexingOne(g: Graph, c: Carried)
    ensures forall s | s in Walk(c.tree) :: s.guid in Indexing(g, c)
    ensures forall p | p in g :: p in Indexing(g, c)
    ensures forall p | p in Indexing(g, c) ::
              (p in g && Indexing(g, c)[p] == g[p])
              || exists s :: s in Walk(c.tree) && s.guid == p && Contained(s) == Indexing(g, c)[p]
  {
    var met, after := Walk(c.tree), Indexing(g, c);
    var entries := ContainersOf(met);
    MapAllTakesOver(g, entries);
    MapPreserveYields(g, entries);
    forall s | s in met ensures s.guid in after {
      var i :| 0 <= i < |met| && met[i] == s;
      assert entries[i] in entries;
    }
    forall p | p in after
      ensures (p in g && after[p] == g[p]) || exists s :: s in met && s.guid == p && Contained(s) == after[p]
    {
      if !(p in g && after[p] == g[p]) {
        assert Entry(p, after[p]) in entries;
        var i :| 0 <= i < |entries| && entries[i] == Entry(p, after[p]);
        assert met[i] in met && met[i].guid == p && Contained(met[i]) == after[p];
      }
    }
  }

  lemma RebuiltHolds(timelines: seq<Carried>)
    ensures forall s | Carries(timelines, s) :: s.guid in RebuiltFrom(timelines)
    ensures forall p | p in RebuiltFrom(timelines) ::
              exists s :: Carries(timelines, s) && s.guid == p && Contained(s) == RebuiltFrom(timelines)[p]
  {
    var sorted := SequencesFirst(timelines, IsClipTimeline);
    SameItems(timelines, IsClipTimeline);
    IndexingHolds(map[], sorted);
    forall s ensures Carries(timelines, s) <==> Carries(sorted, s) {
      if c :| c in timelines && s in Walk(c.tree) {
        assert c in sorted;
      }
      if c :| c in sorted && s in Walk(c.tree) {
        assert c in timelines;
      }
    }
  }

  // ------------------------------------------------------------------ a peer and what reaches it

  /** The structure a peer holds: the index, and which timelines are registered. */
  datatype Peer = Peer(graph: Graph, timelines: set<Guid>)

  /** What a peer tells the others: a patch, or a timeline it has registered. */
  datatype News = Patch(message: Message) | NewTimeline(carried: Carried)

  /** The ADD_TIMELINE handler ignores a timeline that is registered already. */
  function Received(s: Peer, n: News): Peer {
    match n
    case Patch(m) => s.(graph := Remote(s.graph, m))
    case NewTimeline(c) =>
      if c.tree.guid in s.timelines then s else Peer(Indexing(s.graph, c), s.timelines + {c.tree.guid})
  }

  function ReceivedAll(s: Peer, news: seq<News>): Peer
    decreases |news|
  {
    if news == [] then s else ReceivedAll(Received(s, news[0]), news[1..])
  }

  lemma {:induction false} ReceivedOneMore(s: Peer, news: seq<News>, n: News)
    ensures ReceivedAll(s, news + [n]) == Received(ReceivedAll(s, news), n)
    decreases |news|
  {
    if news == [] {
      assert [] + [n] == [n] && [n][1..] == [];
    } else {
      ReceivedOneMore(Received(s, news[0]), news[1..], n);
      assert (news + [n])[1..] == news[1..] + [n];
    }
  }

  function RegisteredIn(timelines: seq<Carried>): set<Guid> {
    set c | c in timelines :: c.tree.guid
  }

  /** What a snapshot alone makes of a joiner. */
  function RebuiltPeer(timelines: seq<Carried>): Peer {
    Peer(RebuiltFrom(timelines), RegisteredIn(timelines))
  }

  // ------------------------------------------------------------------ the rebuild in place

  /** Node by node what the walk met. */
  ghost predicate Mirrors(nodes: seq<Node>, met: seq<Tree<Content>>)
    reads nodes`children
  {
    && |nodes| == |met|
    && forall i | 0 <= i < |nodes| :: nodes[i].guid == met[i].guid && AsContainer(nodes[i]) == Contained(met[i])
  }

  /** Whatever the nodes list is among them. */
  ghost predicate ListsItself(nodes: seq<Node>)
    reads nodes`children
  {
    forall n, c | n in nodes && c in n.children :: c in nodes
  }

  /** Deserialise a tree; its nodes come in the order of the walk. */
  method BuildTree(tree: Tree<Content>) returns (nodes: seq<Node>)
    ensures forall n | n in nodes :: fresh(n)
    ensures nodes != [] && Mirrors(nodes, Walk(tree)) && ListsItself(nodes)
    ensures nodes[0].guid == tree.guid && nodes[0].key == tree.value.key
    decreases tree, 0
  {
    var kids, below := BuildAll(tree.children);
    var n := new Node(tree.guid, tree.value.isTrack, tree.value.key, kids, tree.value.commands);
    nodes := [n] + below;
    assert AsContainer(n) == Contained(tree);
    assert Walk(tree)[0] == tree && Walk(tree)[1..] == WalkAll(tree.children);
    forall i | 0 < i < |nodes| ensures nodes[i].guid == Walk(tree)[i].guid && AsContainer(nodes[i]) == Contained(Walk(tree)[i]) {
      assert nodes[i] == below[i - 1] && Walk(tree)[i] == WalkAll(tree.children)[i - 1];
    }
  }

  method BuildAll(trees: seq<Tree<Content>>) returns (roots: seq<Node>, nodes: seq<Node>)
    ensures forall n | n in nodes :: fresh(n)
    ensures Mirrors(nodes, WalkAll(trees)) && ListsItself(nodes)
    ensures Brief(roots) == Listed(trees) && forall r | r in roots :: r in nodes
    decreases trees, 1
  {
    if trees == [] {
      return [], [];
    }
    var first := BuildTree(trees[0]);
    var others, rest := BuildAll(trees[1..]);
    roots, nodes := [first[0]] + others, first + rest;
    assert first[0] in nodes;
    MirrorsJoin(first, rest, Walk(trees[0]), WalkAll(trees[1..]));
    BriefFirst(first[0], others, trees);
  }

  lemma MirrorsJoin(a: seq<Node>, b: seq<Node>, met: seq<Tree<Content>>, more: seq<Tree<Content>>)
    requires Mirrors(a, met) && Mirrors(b, more) && ListsItself(a) && ListsItself(b)
    ensures Mirrors(a + b, met + more) && ListsItself(a + b)
  {
  }

  lemma BriefFirst(first: Node, others: seq<Node>, trees: seq<Tree<Content>>)
    requires trees != [] && first.guid == trees[0].guid && first.key == trees[0].value.key
    requires Brief(others) == Listed(trees[1..])
    ensures Brief([first] + others) == Listed(trees)
  {
    var all := Brief([first] + others);
    assert |others| == |Brief(others)| == |trees| - 1;
    forall i | 0 < i < |all| ensures all[i] == Listed(trees)[i] {
      assert all[i] == Brief(others)[i - 1] && Listed(trees[1..])[i - 1] == Listed(trees)[i];
    }
  }

  /** Map the nodes of one timeline into the index. */
  method IndexNodes(objects: map<Guid, Node>, nodes: seq<Node>, met: seq<Tree<Content>>, preserve: bool)
    returns (mapped: map<Guid, Node>)
    requires Mirrors(nodes, met) && forall g | g in objects :: objects[g].guid == g
    ensures GraphOf(mapped) == if preserve then MapPreserve(GraphOf(objects), ContainersOf(met))
                               else MapAll(GraphOf(objects), ContainersOf(met))
    ensures forall g | g in mapped :: mapped[g].guid == g
    ensures forall o | o in mapped.Values :: o in objects.Values || o in nodes
  {
    mapped := objects;
    for n := 0 to |nodes|
      invariant GraphOf(mapped) == if preserve then MapPreserve(GraphOf(objects), ContainersOf(met)[..n])
                                   else MapAll(GraphOf(objects), ContainersOf(met)[..n])
      invariant forall g | g in mapped :: mapped[g].guid == g
      invariant forall o | o in mapped.Values :: o in objects.Values || o in nodes
    {
      assert ContainersOf(met)[..n + 1][..n] == ContainersOf(met)[..n];
      assert ContainersOf(met)[n] == Entry(nodes[n].guid, AsContainer(nodes[n]));
      if !preserve || nodes[n].guid !in mapped {
        mapped := mapped[nodes[n].guid := nodes[n]];
      }
    }
    assert ContainersOf(met)[..|nodes|] == ContainersOf(met);
  }

  /** Deserialise one timeline and map it. */
  method TakeIn(objects: map<Guid, Node>, ghost repr: set<Node>, c: Carried)
    returns (mapped: map<Guid, Node>, ghost reached: set<Node>)
    requires ValidIndex(objects, repr)
    ensures repr <= reached && fresh(reached - repr) && ValidIndex(mapped, reached)
    ensures GraphOf(mapped) == Indexing(old(GraphOf(objects)), c)
  {
    var nodes := BuildTree(c.tree);
    mapped := IndexNodes(objects, nodes, Walk(c.tree), c.isClipTimeline);
    reached := repr + set o | o in nodes :: o;
    StaysValid(objects, repr, nodes, mapped, reached);
  }

  lemma StaysValid(objects: map<Guid, Node>, repr: set<Node>, nodes: seq<Node>, mapped: map<Guid, Node>, reached: set<Node>)
    requires ValidIndex(objects, repr) && ListsItself(nodes)
    requires forall g | g in mapped :: mapped[g].guid == g
    requires forall o | o in mapped.Values :: o in objects.Values || o in nodes
    requires forall o :: o in reached <==> o in repr || o in nodes
    ensures ValidIndex(mapped, reached)
  {
    forall o, n | o in mapped.Values && n in o.children ensures n in reached {
      if o in objects.Values {
        assert n in repr;
      } else {
        assert n in nodes;
      }
    }
  }

  /** The index of a snapshot's timelines, with everything it reaches. */
  method RebuildIndex(timelines: seq<Carried>) returns (objects: map<Guid, Node>, ghost repr: set<Node>)
    ensures fresh(repr) && ValidIndex(objects, repr) && GraphOf(objects) == RebuiltFrom(timelines)
  {
    var sorted := SequencesFirst(timelines, IsClipTimeline);
    objects, repr := map[], {};
    for n := 0 to |sorted|
      invariant fresh(repr) && ValidIndex(objects, repr)
      invariant GraphOf(objects) == IndexingAll(map[], sorted[..n])
    {
      assert sorted[..n + 1][..n] == sorted[..n];
      objects, repr := TakeIn(objects, repr, sorted[n]);
    }
    assert sorted[..|sorted|] == sorted;
  }
}
