// The structural acts of a peer, edits and new timelines alike, and what they do to another peer.
// manager.py: register_timeline, get_or_create_clip_timeline, broadcast_add_timeline and the ADD_TIMELINE handler.
module Acts {
  import opened Basics
  import opened Walking
  import opened Patcher
  import opened Snapshots
  import opened JoinerGraph

  /** An edit of the graph, or a timeline that is registered and announced. */
  datatype Act = Edited(edit: Edit) | Announced(carried: Carried)

  function WireOf(a: Act): News {
    match a
    case Edited(e) => Patch(Wire(e))
    case Announced(c) => NewTimeline(c)
  }

  function WireOfAll(acts: seq<Act>): seq<News> {
    seq(|acts|, i requires 0 <= i < |acts| => WireOf(acts[i]))
  }

  /** None when the edit does nothing, or the timeline is registered already; nothing is sent then. */
  function Done(s: Peer, a: Act): Option<Peer> {
    match a
    case Edited(e) => if Local(s.graph, e).None? then None else Some(s.(graph := Local(s.graph, e).value))
    case Announced(c) =>
      if c.tree.guid in s.timelines then None else Some(Peer(Indexing(s.graph, c), s.timelines + {c.tree.guid}))
  }

  function DoneAll(s: Peer, acts: seq<Act>): Option<Peer>
    decreases |acts|
  {
    if acts == [] then Some(s)
    else if Done(s, acts[0]).None? then None
    else DoneAll(Done(s, acts[0]).value, acts[1..])
  }

  /** The acts that a peer with the same structure repeats exactly: new timelines always, edits as they agree. */
  predicate Repeats(s: Peer, a: Act) {
    a.Edited? ==> a.edit.parent in s.graph && Agrees(s.graph, a.edit)
  }

  lemma {:induction false} NewsRepeatsActIff(s: Peer, a: Act)
    requires Done(s, a).Some?
    ensures Received(s, WireOf(a)) == Done(s, a).value <==> Repeats(s, a)
  {
    if a.Edited? {
      PatchRepeatsEditIff(s.graph, a.edit);
    }
  }

  ghost predicate AllRepeat(s: Peer, acts: seq<Act>)
    requires DoneAll(s, acts).Some?
    decreases |acts|
  {
    acts == [] || (Repeats(s, acts[0]) && AllRepeat(Done(s, acts[0]).value, acts[1..]))
  }

  lemma {:induction false} DoneInParts(s: Peer, acts: seq<Act>, m: nat)
    requires m <= |acts| && DoneAll(s, acts).Some?
    ensures DoneAll(s, acts[..m]).Some?
    ensures DoneAll(DoneAll(s, acts[..m]).value, acts[m..]) == DoneAll(s, acts)
    ensures AllRepeat(s, acts) ==> AllRepeat(DoneAll(s, acts[..m]).value, acts[m..])
    decreases |acts|
  {
    if m == 0 {
      assert acts[0..] == acts;
    } else {
      DoneInParts(Done(s, acts[0]).value, acts[1..], m - 1);
      assert acts[..m][1..] == acts[1..][..m - 1] && acts[1..][m - 1..] == acts[m..];
    }
  }

  // ------------------------------------------------------------------ staying in step

  /** In step, and with the same timelines registered. */
  ghost predicate PeersInStep(j: Peer, s: Peer) {
    InStep(j.graph, s.graph) && j.timelines == s.timelines
  }

  /** What a clip timeline brings and only one of the two knows is there as the timeline has it. */
  ghost predicate Joins(h: Graph, g: Graph, c: Carried) {
    c.isClipTimeline ==>
      forall t | t in Walk(c.tree) ::
        && (t.guid in g && t.guid !in h ==> g[t.guid] == Contained(t))
        && (t.guid in h && t.guid !in g ==> h[t.guid] == Contained(t))
  }

  ghost predicate FitsAct(j: Peer, s: Peer, a: Act) {
    match a
    case Edited(e) => e.parent in s.graph && Fits(j.graph, s.graph, e)
    case Announced(c) => Joins(j.graph, s.graph, c)
  }

  lemma {:induction false} ActKeepsInStep(j: Peer, s: Peer, a: Act)
    requires PeersInStep(j, s) && Done(s, a).Some? && Repeats(s, a) && FitsAct(j, s, a)
    ensures PeersInStep(Received(j, WireOf(a)), Done(s, a).value)
  {
    match a
    case Edited(e) => EditKeepsInStep(j.graph, s.graph, e);
    case Announced(c) => TimelineKeepsInStep(j.graph, s.graph, c);
  }

  lemma {:induction false} TimelineKeepsInStep(h: Graph, g: Graph, c: Carried)
    requires InStep(h, g) && Joins(h, g, c)
    ensures InStep(Indexing(h, c), Indexing(g, c))
  {
    var h', g', met := Indexing(h, c), Indexing(g, c), Walk(c.tree);
    IndexingOne(h, c);
    IndexingOne(g, c);
    MappedAlike(h, g, ContainersOf(met));
    forall p | p in h' && p in g' ensures h'[p] == g'[p] {
      SameEntry(h, g, c, p);
    }
    forall p, i | p in h' && p in g' && 0 <= i < |g'[p].children| && g'[p].children[i].guid in g'
      ensures g'[p].children[i].guid in h'
    {
      var x := g'[p].children[i].guid;
      if p in g && g'[p] == g[p] && p in h && x in g {
        assert x in h;
      } else if !(p in g && g'[p] == g[p] && p in h) {
        ListsItsOwn(h, g, c, p, i);
      } else {
        NewOnBoth(h, g, c, x);
      }
    }
  }

  /** Two indexes that have an entry alike still do when one walk is mapped over both, and so has whatever is new. */
  lemma {:induction false} MappedAlike(h: Graph, g: Graph, entries: seq<Entry<Container>>)
    ensures forall p | p in Guids(entries) ::
              p in MapAll(h, entries) && p in MapAll(g, entries) && MapAll(h, entries)[p] == MapAll(g, entries)[p]
    ensures forall p | p in Guids(entries) && p !in h && p !in g ::
              && p in MapPreserve(h, entries) && p in MapPreserve(g, entries)
              && MapPreserve(h, entries)[p] == MapPreserve(g, entries)[p]
  {
    if entries != [] {
      var init, last := entries[..|entries| - 1], entries[|entries| - 1];
      MappedAlike(h, g, init);
      MapPreserveYields(h, init);
      MapPreserveYields(g, init);
      assert entries == init + [last];
      assert Guids(entries) == Guids(init) + {last.guid};
    }
  }

  lemma {:induction false} SameEntry(h: Graph, g: Graph, c: Carried, p: Guid)
    requires InStep(h, g) && Joins(h, g, c) && p in Indexing(h, c) && p in Indexing(g, c)
    ensures Indexing(h, c)[p] == Indexing(g, c)[p]
  {
    if c.isClipTimeline {
      PreservedAlike(h, g, c, p);
    } else {
      MappedAlike(h, g, ContainersOf(Walk(c.tree)));
      MapAllTakesOver(h, ContainersOf(Walk(c.tree)));
      MapAllTakesOver(g, ContainersOf(Walk(c.tree)));
    }
  }

  lemma {:induction false} PreservedAlike(h: Graph, g: Graph, c: Carried, p: Guid)
    requires c.isClipTimeline && InStep(h, g) && Joins(h, g, c) && p in Indexing(h, c) && p in Indexing(g, c)
    ensures Indexing(h, c)[p] == Indexing(g, c)[p]
  {
    var entries := ContainersOf(Walk(c.tree));
    MappedAlike(h, g, entries);
    MapPreserveYields(h, entries);
    MapPreserveYields(g, entries);
    if p in h && p !in g {
      EntryIsCarried(c, p, Indexing(g, c)[p]);
    } else if p in g && p !in h {
      EntryIsCarried(c, p, Indexing(h, c)[p]);
    }
  }

  lemma {:induction false} EntryIsCarried(c: Carried, p: Guid, v: Container)
    requires Entry(p, v) in ContainersOf(Walk(c.tree))
    ensures exists t :: t in Walk(c.tree) && t.guid == p && Contained(t) == v
  {
    var met, entries := Walk(c.tree), ContainersOf(Walk(c.tree));
    var i :| 0 <= i < |entries| && entries[i] == Entry(p, v);
    assert met[i] in met && met[i].guid == p && Contained(met[i]) == v;
  }

  /** What the walk puts in the index lists objects of the walk. */
  lemma {:induction false} ListsItsOwn(h: Graph, g: Graph, c: Carried, p: Guid, i: nat)
    requires InStep(h, g) && Joins(h, g, c) && p in Indexing(h, c) && p in Indexing(g, c)
    requires i < |Indexing(g, c)[p].children| && !(p in g && Indexing(g, c)[p] == g[p] && p in h)
    ensures Indexing(g, c)[p].children[i].guid in Indexing(h, c)
  {
    IndexingOne(h, c);
    IndexingOne(g, c);
    SameEntry(h, g, c, p);
    var v := Indexing(g, c)[p];
    assert exists t :: t in Walk(c.tree) && t.guid == p && Contained(t) == v;
    var t :| t in Walk(c.tree) && t.guid == p && Contained(t) == v;
    WalkClosed(c.tree, t, i);
  }

  lemma {:induction false} NewOnBoth(h: Graph, g: Graph, c: Carried, x: Guid)
    requires x in Indexing(g, c) && x !in g
    ensures x in Indexing(h, c)
  {
    IndexingOne(g, c);
    IndexingOne(h, c);
  }

  // ------------------------------------------------------------------ whole runs

  /** Each act of a run fits the joiner as it is when the news reaches it. */
  ghost predicate AllFit(j: Peer, s: Peer, acts: seq<Act>)
    requires DoneAll(s, acts).Some?
    decreases |acts|
  {
    acts == [] || (FitsAct(j, s, acts[0]) && AllFit(Received(j, WireOf(acts[0])), Done(s, acts[0]).value, acts[1..]))
  }

  lemma {:induction false} RunKeepsInStep(j: Peer, s: Peer, acts: seq<Act>)
    requires PeersInStep(j, s) && DoneAll(s, acts).Some? && AllRepeat(s, acts) && AllFit(j, s, acts)
    ensures PeersInStep(ReceivedAll(j, WireOfAll(acts)), DoneAll(s, acts).value)
    decreases |acts|
  {
    if acts != [] {
      ActKeepsInStep(j, s, acts[0]);
      RunKeepsInStep(Received(j, WireOf(acts[0])), Done(s, acts[0]).value, acts[1..]);
      assert WireOfAll(acts)[1..] == WireOfAll(acts[1..]);
    }
  }

  // ------------------------------------------------------------------ acts that bring what is new to the session

  /** The GUIDs an act brings. */
  function Brings(a: Act): set<Guid> {
    match a
    case Edited(Insert(_, payload, _)) => {payload.item.guid}
    case Edited(AddCommands(_, payload)) => {payload.item.guid}
    case Edited(Remove(_, _)) => {}
    case Edited(Move(_, _, _)) => {}
    case Announced(c) => set t | t in Walk(c.tree) :: t.guid
  }

  /**
   * Inserted objects have a GUID that was never used and bring no children; only indexed children are moved; and every
   * object of a new timeline was never used, or is an indexed object that something lists, as the index has it. The
   * copy of a clip in its clip timeline is such an object.
   */
  ghost predicate Fresh(used: set<Guid>, s: Peer, a: Act) {
    match a
    case Edited(Insert(_, payload, _)) => payload.item.guid !in used && payload.kids == []
    case Edited(AddCommands(_, payload)) => payload.item.guid !in used && payload.kids == []
    case Edited(Remove(_, _)) => true
    case Edited(Move(_, child, _)) => child in s.graph
    case Announced(c) =>
      forall t | t in Walk(c.tree) :: t.guid !in used || Known(s.graph, t)
  }

  ghost predicate Known(g: Graph, t: Tree<Content>) {
    t.guid in g && g[t.guid] == Contained(t) && !Unlisted(g, t.guid)
  }

  ghost predicate AllFresh(used: set<Guid>, s: Peer, acts: seq<Act>)
    requires DoneAll(s, acts).Some?
    decreases |acts|
  {
    acts == [] || (Fresh(used, s, acts[0]) && AllFresh(used + Brings(acts[0]), Done(s, acts[0]).value, acts[1..]))
  }

  /** Whatever either index knows, and whatever the sender's lists, has been used. */
  ghost predicate Covers(used: set<Guid>, h: Graph, g: Graph) {
    && h.Keys <= used && g.Keys <= used
    && forall q, i | q in g && 0 <= i < |g[q].children| :: g[q].children[i].guid in used
  }

  lemma {:induction false} FreshFits(used: set<Guid>, j: Peer, s: Peer, a: Act)
    requires PeersInStep(j, s) && Covers(used, j.graph, s.graph) && Done(s, a).Some? && Fresh(used, s, a)
    ensures FitsAct(j, s, a)
  {
  }

  lemma {:induction false} FreshStaysCovered(used: set<Guid>, j: Peer, s: Peer, a: Act)
    requires PeersInStep(j, s) && Covers(used, j.graph, s.graph) && Done(s, a).Some? && Repeats(s, a) && Fresh(used, s, a)
    ensures Covers(used + Brings(a), Received(j, WireOf(a)).graph, Done(s, a).value.graph)
  {
    var s', used' := Done(s, a).value, used + Brings(a);
    FreshFits(used, j, s, a);
    match a
    case Edited(e) =>
      EditKeepsInStep(j.graph, s.graph, e);
      forall q, i | q in s'.graph && 0 <= i < |s'.graph[q].children| ensures s'.graph[q].children[i].guid in used' {
        EditListsUsed(used, s.graph, e, q, i);
      }
    case Announced(c) =>
      IndexingOne(j.graph, c);
      IndexingOne(s.graph, c);
      forall q, i | q in s'.graph && 0 <= i < |s'.graph[q].children| ensures s'.graph[q].children[i].guid in used' {
        TimelineListsUsed(used, s.graph, c, q, i);
      }
  }

  lemma {:induction false} EditListsUsed(used: set<Guid>, g: Graph, e: Edit, q: Guid, i: nat)
    requires Covers(used, g, g) && Local(g, e).Some? && Fresh(used, Peer(g, {}), Edited(e))
    requires q in Local(g, e).value && i < |Local(g, e).value[q].children|
    ensures Local(g, e).value[q].children[i].guid in used + Brings(Edited(e))
  {
    ListedBefore(g, e, q, i);
  }

  lemma {:induction false} TimelineListsUsed(used: set<Guid>, g: Graph, c: Carried, q: Guid, i: nat)
    requires Covers(used, g, g) && q in Indexing(g, c) && i < |Indexing(g, c)[q].children|
    ensures Indexing(g, c)[q].children[i].guid in used + Brings(Announced(c))
  {
    IndexingOne(g, c);
    if !(q in g && Indexing(g, c)[q] == g[q]) {
      var t :| t in Walk(c.tree) && t.guid == q && Contained(t) == Indexing(g, c)[q];
      WalkClosed(c.tree, t, i);
      assert t.children[i] in Walk(c.tree);
    }
  }

  /** A root that nothing lists stays in both indexes, and unlisted. */
  lemma {:induction false} RootOutlives(used: set<Guid>, j: Peer, s: Peer, a: Act, root: Guid)
    requires PeersInStep(j, s) && Covers(used, j.graph, s.graph) && Done(s, a).Some? && Repeats(s, a) && Fresh(used, s, a)
    requires root in j.graph && root in s.graph && Unlisted(s.graph, root)
    ensures root in Received(j, WireOf(a)).graph && root in Done(s, a).value.graph && Unlisted(Done(s, a).value.graph, root)
  {
    var g' := Done(s, a).value.graph;
    FreshFits(used, j, s, a);
    match a
    case Edited(e) =>
      EditKeepsInStep(j.graph, s.graph, e);
      forall q, i | q in g' && 0 <= i < |g'[q].children| ensures g'[q].children[i].guid != root {
        EditListsNoRoot(used, s.graph, e, q, i, root);
      }
    case Announced(c) =>
      IndexingOne(j.graph, c);
      IndexingOne(s.graph, c);
      forall q, i | q in g' && 0 <= i < |g'[q].children| ensures g'[q].children[i].guid != root {
        if !(q in s.graph && g'[q] == s.graph[q]) {
          var t :| t in Walk(c.tree) && t.guid == q && Contained(t) == g'[q];
          WalkClosed(c.tree, t, i);
          assert t.children[i] in Walk(c.tree);
        }
      }
  }

  lemma {:induction false} EditListsNoRoot(used: set<Guid>, g: Graph, e: Edit, q: Guid, i: nat, root: Guid)
    requires Covers(used, g, g) && Local(g, e).Some? && Fresh(used, Peer(g, {}), Edited(e)) && root in g && Unlisted(g, root)
    requires q in Local(g, e).value && i < |Local(g, e).value[q].children|
    ensures Local(g, e).value[q].children[i].guid != root
  {
    ListedBefore(g, e, q, i);
  }

  /** Runs of fresh acts fit every joiner that is in step, clip timelines and all, and take no root away. */
  lemma {:induction false} FreshRunsFit(used: set<Guid>, j: Peer, s: Peer, acts: seq<Act>)
    requires PeersInStep(j, s) && Covers(used, j.graph, s.graph)
    requires DoneAll(s, acts).Some? && AllRepeat(s, acts) && AllFresh(used, s, acts)
    ensures AllFit(j, s, acts)
    ensures forall root | root in j.graph && root in s.graph && Unlisted(s.graph, root) ::
              root in ReceivedAll(j, WireOfAll(acts)).graph && root in DoneAll(s, acts).value.graph
    decreases |acts|
  {
    if acts != [] {
      var a := acts[0];
      var j', s' := Received(j, WireOf(a)), Done(s, a).value;
      FreshFits(used, j, s, a);
      ActKeepsInStep(j, s, a);
      FreshStaysCovered(used, j, s, a);
      forall root | root in j.graph && root in s.graph && Unlisted(s.graph, root)
        ensures root in j'.graph && root in s'.graph && Unlisted(s'.graph, root)
      {
        RootOutlives(used, j, s, a, root);
      }
      FreshRunsFit(used + Brings(a), j', s', acts[1..]);
      assert WireOfAll(acts)[1..] == WireOfAll(acts[1..]);
    }
  }
}
