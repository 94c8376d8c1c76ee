// What a joiner's rebuilt index has to do with the sender's, and why every later edit keeps it so.
// manager.py, apply_snapshot; patcher.py, insert_child, remove_child, move_child and apply_patch.
module JoinerGraph {
  import opened Basics
  import opened Walking
  import opened Patcher
  import opened Snapshots

  /**
   * A joiner with index h is in step with a sender with index g: what both know they list alike, and what such an
   * object lists and the sender knows the joiner knows too. The sender may know more: objects that went out of its
   * trees stay in its index. So may the joiner: a rebuild indexes the insides of a subtree that the sender inserted
   * and never indexed, and a clip copy whose original the sender has removed.
   */
  ghost predicate InStep(h: Graph, g: Graph) {
    && (forall p | p in h && p in g :: h[p] == g[p])
    && (forall p, i | p in h && p in g && 0 <= i < |g[p].children| && g[p].children[i].guid in g ::
          g[p].children[i].guid in h)
  }

  /** The stricter relation: the joiner's index is the part of the sender's that its trees reach. */
  ghost predicate Restricts(h: Graph, g: Graph) {
    && h.Keys <= g.Keys
    && (forall p | p in h :: h[p] == g[p])
    && (forall p, i | p in h && 0 <= i < |h[p].children| :: h[p].children[i].guid in h)
    && (forall q, i | q in g && q !in h && 0 <= i < |g[q].children| :: g[q].children[i].guid !in h)
  }

  // ------------------------------------------------------------------ the snapshot

  /** The tree is the sender's own: whatever object of it is indexed, the index says of it what the tree does. */
  ghost predicate Depicts(g: Graph, tree: Tree<Content>) {
    forall s | s in Walk(tree) && s.guid in g :: g[s.guid] == Contained(s)
  }

  ghost predicate AllDepict(g: Graph, timelines: seq<Carried>) {
    forall c | c in timelines :: Depicts(g, c.tree)
  }

  /** No object outside the trees lists one inside. */
  ghost predicate OutsideApart(g: Graph, inside: set<Guid>) {
    forall q, i | q in g && q !in inside && 0 <= i < |g[q].children| :: g[q].children[i].guid !in inside
  }

  /** A joiner that rebuilds from the sender's own trees is in step with it, whatever else the sender's index holds. */
  lemma {:induction false} RebuildInStep(g: Graph, timelines: seq<Carried>)
    requires AllDepict(g, timelines)
    ensures InStep(RebuiltFrom(timelines), g)
  {
    var h := RebuiltFrom(timelines);
    RebuiltHolds(timelines);
    forall p | p in h && p in g ensures h[p] == g[p] {
      var s :| Carries(timelines, s) && s.guid == p && Contained(s) == h[p];
      var c :| c in timelines && s in Walk(c.tree);
      assert Depicts(g, c.tree);
    }
    forall p, i | p in h && 0 <= i < |h[p].children| ensures h[p].children[i].guid in h {
      ChildrenCarried(timelines, p, i);
    }
  }

  /** Its index is a closed part of the sender's exactly when that holds the trees and nothing outside lists what is inside. */
  lemma {:induction false} RebuildRestrictsIff(g: Graph, timelines: seq<Carried>)
    requires AllDepict(g, timelines)
    ensures Restricts(RebuiltFrom(timelines), g) <==>
              RebuiltFrom(timelines).Keys <= g.Keys && OutsideApart(g, RebuiltFrom(timelines).Keys)
  {
    var h := RebuiltFrom(timelines);
    RebuildInStep(g, timelines);
    forall p, i | p in h && 0 <= i < |h[p].children| ensures h[p].children[i].guid in h {
      ChildrenCarried(timelines, p, i);
    }
  }

  /** A rebuilt index knows whatever it lists. */
  lemma ChildrenCarried(timelines: seq<Carried>, p: Guid, i: nat)
    requires p in RebuiltFrom(timelines) && i < |RebuiltFrom(timelines)[p].children|
    ensures RebuiltFrom(timelines)[p].children[i].guid in RebuiltFrom(timelines)
  {
    RebuiltHolds(timelines);
    var h := RebuiltFrom(timelines);
    var s :| Carries(timelines, s) && s.guid == p && Contained(s) == h[p];
    var c :| c in timelines && s in Walk(c.tree);
    WalkClosed(c.tree, s, i);
    assert Carries(timelines, s.children[i]);
    assert h[p].children[i].guid == s.children[i].guid;
  }

  lemma {:induction false} WalkClosed<T(!new)>(tree: Tree<T>, s: Tree<T>, i: nat)
    requires s in Walk(tree) && i < |s.children|
    ensures s.children[i] in Walk(tree)
  {
    WalkMeetsTheTree(tree, s);
    var path :| At(tree, path) == Some(s);
    Deeper(tree, path, s, i);
    WalkMeetsTheTree(tree, s.children[i]);
  }

  lemma {:induction false} Deeper<T(!new)>(tree: Tree<T>, path: seq<nat>, s: Tree<T>, i: nat)
    requires At(tree, path) == Some(s) && i < |s.children|
    ensures At(tree, path + [i]) == Some(s.children[i])
    decreases |path|
  {
    if path == [] {
      assert [] + [i] == [i] && [i][1..] == [];
    } else {
      Deeper(tree.children[path[0]], path[1..], s, i);
      assert (path + [i])[1..] == path[1..] + [i];
    }
  }

  /** The last step of a path comes from a parent. */
  lemma {:induction false} UpOne<T(!new)>(top: Tree<T>, path: seq<nat>, s: Tree<T>) returns (parent: Tree<T>)
    requires path != [] && At(top, path) == Some(s)
    ensures At(top, path[..|path| - 1]) == Some(parent)
    ensures path[|path| - 1] < |parent.children| && parent.children[path[|path| - 1]] == s
    decreases |path|
  {
    if |path| == 1 {
      parent := top;
      assert path[1..] == [];
    } else {
      parent := UpOne(top.children[path[0]], path[1..], s);
      assert path[..|path| - 1][1..] == path[1..][..|path| - 2];
    }
  }

  // ------------------------------------------------------------------ the snapshot of a sound graph

  ghost predicate Unlisted(g: Graph, guid: Guid) {
    forall p, i | p in g && 0 <= i < |g[p].children| :: g[p].children[i].guid != guid
  }

  /** The roots are indexed, and nothing lists them. */
  ghost predicate RootsStand(g: Graph, timelines: seq<Carried>) {
    forall c | c in timelines :: c.tree.guid in g && Unlisted(g, c.tree.guid)
  }

  /** The rebuilt index of a sound sender is the part of the sender's index that its roots reach. */
  lemma {:induction false} SoundSnapshotRestricts(g: Graph, timelines: seq<Carried>)
    requires Sound(g) && AllDepict(g, timelines) && RootsStand(g, timelines)
    ensures Restricts(RebuiltFrom(timelines), g)
  {
    var h := RebuiltFrom(timelines);
    RebuiltHolds(timelines);
    forall p | p in h ensures p in g {
      var s :| Carries(timelines, s) && s.guid == p;
      var c :| c in timelines && s in Walk(c.tree);
      TreeIsIndexed(g, c.tree, s);
    }
    forall q, i | q in g && q !in h && 0 <= i < |g[q].children| ensures g[q].children[i].guid !in h {
      if g[q].children[i].guid in h {
        ListersAreInside(g, timelines, q, i);
      }
    }
    RebuildRestrictsIff(g, timelines);
  }

  lemma {:induction false} TreeIsIndexed(g: Graph, tree: Tree<Content>, s: Tree<Content>)
    requires Sound(g) && Depicts(g, tree) && tree.guid in g && s in Walk(tree)
    ensures s.guid in g
  {
    WalkMeetsTheTree(tree, s);
    var path :| At(tree, path) == Some(s);
    PathIsIndexed(g, tree, path, s);
  }

  /** Down a path of the tree, every object met is indexed because its parent lists it. */
  lemma {:induction false} PathIsIndexed(g: Graph, tree: Tree<Content>, path: seq<nat>, s: Tree<Content>)
    requires Sound(g) && Depicts(g, tree) && tree.guid in g && At(tree, path) == Some(s)
    ensures s.guid in g
    decreases |path|
  {
    if path != [] {
      var init, k := path[..|path| - 1], path[|path| - 1];
      var parent := UpOne(tree, path, s);
      PathIsIndexed(g, tree, init, parent);
      assert Within(parent, tree);
      WalkMeetsTheTree(tree, parent);
      assert g[parent.guid] == Contained(parent);
      assert Held(g, g[parent.guid].children[k]);
    }
  }

  /** Whatever lists an object of the trees is an object of the trees itself. */
  lemma ListersAreInside(g: Graph, timelines: seq<Carried>, q: Guid, i: nat)
    requires Sound(g) && AllDepict(g, timelines) && RootsStand(g, timelines)
    requires q in g && i < |g[q].children| && g[q].children[i].guid in RebuiltFrom(timelines)
    ensures q in RebuiltFrom(timelines)
  {
    RebuiltHolds(timelines);
    var x := g[q].children[i].guid;
    var s :| Carries(timelines, s) && s.guid == x;
    var c :| c in timelines && s in Walk(c.tree);
    WalkMeetsTheTree(c.tree, s);
    var path :| At(c.tree, path) == Some(s);
    assert Unlisted(g, c.tree.guid);
    if path != [] {
      var init, k := path[..|path| - 1], path[|path| - 1];
      var parent := UpOne(c.tree, path, s);
      assert Within(parent, c.tree);
      WalkMeetsTheTree(c.tree, parent);
      TreeIsIndexed(g, c.tree, parent);
      assert Depicts(g, c.tree);
      assert g[parent.guid] == Contained(parent) && g[parent.guid].children[k].guid == x;
      assert Carries(timelines, parent);
    }
  }

  // ------------------------------------------------------------------ every sound graph has such a snapshot

  /** From a root that nothing lists, each listing the next, and none met twice. */
  ghost predicate Descent(g: Graph, way: seq<Guid>) {
    && way != [] && Unlisted(g, way[0])
    && (forall i | 0 <= i < |way| :: way[i] in g)
    && (forall i | 0 < i < |way| :: Lists(g, way[i - 1], way[i]))
    && (forall i, j | 0 <= i < j < |way| :: way[i] != way[j])
  }

  ghost predicate Lists(g: Graph, p: Guid, x: Guid) {
    p in g && exists i :: 0 <= i < |g[p].children| && g[p].children[i].guid == x
  }

  lemma OneLister(g: Graph, a: Guid, b: Guid, x: Guid)
    requires Sound(g) && Lists(g, a, x) && Lists(g, b, x)
    ensures a == b
  {
  }

  /** In a sound graph a descent never comes back to where it was. */
  lemma DescentGoesOn(g: Graph, way: seq<Guid>, i: nat)
    requires Sound(g) && Descent(g, way) && i < |g[way[|way| - 1]].children|
    ensures Descent(g, way + [g[way[|way| - 1]].children[i].guid])
  {
    var p := way[|way| - 1];
    var x := g[p].children[i].guid;
    assert Held(g, g[p].children[i]) && Lists(g, p, x);
    forall j | 0 <= j < |way| ensures way[j] != x {
      if j > 0 && way[j] == x {
        OneLister(g, way[j - 1], p, x);
      }
    }
  }

  /** The tree below the end of a descent, drawn from the index alone. */
  lemma {:induction false} GrowTree(g: Graph, way: seq<Guid>, left: set<Guid>) returns (tree: Tree<Content>)
    requires Sound(g) && Descent(g, way) && forall x | x in g :: x in left || x in way
    ensures tree.guid == way[|way| - 1] && tree.value.key == g[tree.guid].key && Depicts(g, tree)
    decreases left, |g[way[|way| - 1]].children| + 1
  {
    var guid := way[|way| - 1];
    var kids := GrowAll(g, way, left, |g[guid].children|);
    tree := Tree(guid, Content(g[guid].isTrack, g[guid].key, []), kids);
    assert Listed(kids) == g[guid].children;
    forall s | s in Walk(tree) && s.guid in g ensures g[s.guid] == Contained(s) {
      if s != tree {
        var k := SomeWalk(kids, s);
        assert Depicts(g, kids[k]);
      }
    }
  }

  lemma {:induction false} GrowAll(g: Graph, way: seq<Guid>, left: set<Guid>, n: nat) returns (kids: seq<Tree<Content>>)
    requires Sound(g) && Descent(g, way) && forall x | x in g :: x in left || x in way
    requires n <= |g[way[|way| - 1]].children|
    ensures |kids| == n
    ensures forall k | 0 <= k < n ::
              Depicts(g, kids[k]) && Child(kids[k].guid, kids[k].value.key) == g[way[|way| - 1]].children[k]
    decreases left, n
  {
    kids := [];
    if n > 0 {
      var c := g[way[|way| - 1]].children[n - 1];
      kids := GrowAll(g, way, left, n - 1);
      DescentGoesOn(g, way, n - 1);
      assert Held(g, c);
      var further := way + [c.guid];
      assert further[|way|] == c.guid && forall j | 0 <= j < |way| :: further[j] == way[j];
      var kid := GrowTree(g, way + [c.guid], left - {c.guid});
      kids := kids + [kid];
    }
  }

  lemma {:induction false} SomeWalk<T(!new)>(trees: seq<Tree<T>>, s: Tree<T>) returns (k: nat)
    requires s in WalkAll(trees)
    ensures k < |trees| && s in Walk(trees[k])
  {
    if s in Walk(trees[0]) {
      k := 0;
    } else {
      k := SomeWalk(trees[1..], s);
      k := k + 1;
    }
  }

  /** Every indexed root that nothing lists has a tree that the sender can put in its snapshot. */
  lemma SoundRootHasTree(g: Graph, root: Guid) returns (tree: Tree<Content>)
    requires Sound(g) && root in g && Unlisted(g, root)
    ensures tree.guid == root && Depicts(g, tree)
  {
    tree := GrowTree(g, [root], g.Keys);
  }

  // ------------------------------------------------------------------ one edit

  /** An inserted object is new to both, and what it lists and only the sender knows is not put before the joiner. */
  ghost predicate Enters(h: Graph, g: Graph, p: Guid, payload: Payload) {
    var x := payload.item.guid;
    && x !in g && x !in h
    && if p in h then forall i | 0 <= i < |payload.kids| :: payload.kids[i].guid in g ==> payload.kids[i].guid in h
       else forall q, i | q in h && q in g && 0 <= i < |g[q].children| :: g[q].children[i].guid != x
  }

  /** The edits that keep a joiner in step, among those every peer repeats. */
  ghost predicate Fits(h: Graph, g: Graph, e: Edit)
    requires e.parent in g
  {
    match e
    case Insert(p, payload, _) => Enters(h, g, p, payload)
    case AddCommands(p, payload) => Enters(h, g, p, payload)
    case Remove(_, _) => true
    case Move(p, child, _) =>
      var k := FirstAt(g[p].children, child);
      k < |g[p].children| && child in h && child !in g ==> h[child].key == g[p].children[k].key
  }

  /** A step of a joiner in step: the sender's edit, and its patch on the joiner. */
  lemma {:induction false} EditKeepsInStep(h: Graph, g: Graph, e: Edit)
    requires InStep(h, g) && Local(g, e).Some? && Agrees(g, e) && Fits(h, g, e)
    ensures InStep(Remote(h, Wire(e)), Local(g, e).value)
    ensures Remote(h, Wire(e)) == OnJoiner(h, g, e)
  {
    var p, children := e.parent, g[e.parent].children;
    match e
    case Insert(_, payload, index) =>
      EntersList(h, g, p, InsertOrAppend(children, index, payload.item), payload);
      InsertedAmong(children, index, payload.item);
    case AddCommands(_, payload) =>
      assert WithChildren(g, p, children) == g;
      assert p in h ==> WithChildren(h, p, children) == h;
      EntersList(h, g, p, children, payload);
    case Remove(_, child) =>
      LeavesList(h, g, p, FirstAt(children, child));
    case Move(_, child, toIndex) =>
      MovesInList(h, g, p, child, toIndex);
  }

  /** What the sender's edit does to its own graph, done to the joiner's if that knows the parent. */
  function OnJoiner(h: Graph, g: Graph, e: Edit): Graph
    requires Local(g, e).Some?
  {
    if e.parent !in h then h
    else
      var children := g[e.parent].children;
      match e
      case Insert(p, payload, index) => Indexed(WithChildren(h, p, InsertOrAppend(children, index, payload.item)), payload)
      case AddCommands(p, payload) => Indexed(h, payload)
      case Remove(p, child) => WithChildren(h, p, RemoveAt(children, FirstAt(children, child))) - {child}
      case Move(p, child, toIndex) =>
        var k := FirstAt(children, child);
        WithChildren(h, p, Relocated(children, k, toIndex, children[k]))
  }

  lemma {:induction false} InsertedAmong(children: seq<Child>, index: int, item: Child)
    ensures forall c | c in InsertOrAppend(children, index, item) :: c in children || c == item
  {
  }

  lemma {:induction false} EntersList(h: Graph, g: Graph, p: Guid, list: seq<Child>, payload: Payload)
    requires InStep(h, g) && p in g && Enters(h, g, p, payload)
    requires forall c | c in list :: c in g[p].children || c == payload.item
    ensures InStep(if p in h then Indexed(WithChildren(h, p, list), payload) else h, Indexed(WithChildren(g, p, list), payload))
  {
    var x, g' := payload.item.guid, Indexed(WithChildren(g, p, list), payload);
    var h' := if p in h then Indexed(WithChildren(h, p, list), payload) else h;
    forall q, i | q in h' && q in g' && 0 <= i < |g'[q].children| && g'[q].children[i].guid in g'
      ensures g'[q].children[i].guid in h'
    {
      var c := g'[q].children[i];
      if q != x && c.guid != x {
        assert q == p ==> c in list && c in g[p].children;
        var j :| 0 <= j < |g[q].children| && g[q].children[j] == c;
      } else if q == x {
        assert c == payload.kids[i];
      }
    }
  }

  lemma {:induction false} LeavesList(h: Graph, g: Graph, p: Guid, k: nat)
    requires InStep(h, g) && p in g && k < |g[p].children|
    ensures var x := g[p].children[k].guid;
            InStep(if p in h then WithChildren(h, p, RemoveAt(g[p].children, k)) - {x} else h,
                   WithChildren(g, p, RemoveAt(g[p].children, k)) - {x})
  {
    var x, list := g[p].children[k].guid, RemoveAt(g[p].children, k);
    var g' := WithChildren(g, p, list) - {x};
    var h' := if p in h then WithChildren(h, p, list) - {x} else h;
    assert forall i | 0 <= i < |list| :: list[i] == g[p].children[Skipping(k, i)];
    forall q, i | q in h' && q in g' && 0 <= i < |g'[q].children| && g'[q].children[i].guid in g'
      ensures g'[q].children[i].guid in h'
    {
      assert q == p ==> g'[q].children[i] == g[p].children[Skipping(k, i)];
      assert q != p ==> g'[q] == g[q];
    }
  }

  lemma {:induction false} MovesInList(h: Graph, g: Graph, p: Guid, child: Guid, toIndex: int)
    requires InStep(h, g) && Local(g, Move(p, child, toIndex)).Some?
    requires Agrees(g, Move(p, child, toIndex)) && Fits(h, g, Move(p, child, toIndex))
    ensures InStep(OnJoiner(h, g, Move(p, child, toIndex)), Local(g, Move(p, child, toIndex)).value)
    ensures Remote(h, MoveMessage(p, child, toIndex)) == OnJoiner(h, g, Move(p, child, toIndex))
  {
    var children, k := g[p].children, FirstAt(g[p].children, child);
    var list := Relocated(children, k, toIndex, children[k]);
    var g' := WithChildren(g, p, list);
    var h' := if p in h then WithChildren(h, p, list) else h;
    assert children[k] == Child(child, children[k].key);
    if p in h && child !in h {
      assert list == children && h' == h by {
        assert h[p] == g[p];
      }
    }
    var slot := Slot(|children| - 1, toIndex);
    forall i: nat | i < |list| ensures Came(children, list, k, slot, i) {
      CameFrom(children, k, toIndex, i);
    }
    forall q, i | q in h' && q in g' && 0 <= i < |g'[q].children| && g'[q].children[i].guid in g'
      ensures g'[q].children[i].guid in h'
    {
      assert q == p ==> Came(children, list, k, slot, i);
      assert q != p ==> g'[q] == g[q];
    }
  }

  // ------------------------------------------------------------------ careful edits of a sound graph

  lemma {:induction false} RestrictsIsInStep(h: Graph, g: Graph)
    requires Sound(g)
    ensures Restricts(h, g) <==> h.Keys <= g.Keys && InStep(h, g) && OutsideApart(g, h.Keys)
  {
    if h.Keys <= g.Keys && InStep(h, g) {
      forall p, i | p in h && 0 <= i < |h[p].children| ensures h[p].children[i].guid in h {
        assert Held(g, g[p].children[i]);
      }
    }
  }

  /** A careful edit of a sound sender keeps the joiner's index the reached part of it, whether or not it knows the parent. */
  lemma {:induction false} CarefulEditKeepsRestricts(h: Graph, g: Graph, e: Edit)
    requires Sound(g) && Restricts(h, g) && Local(g, e).Some? && Careful(g, e)
    ensures Sound(Local(g, e).value) && Restricts(Remote(h, Wire(e)), Local(g, e).value)
    ensures e.parent !in h ==> Missing(h, Wire(e)) == Some(e.parent) && Remote(h, Wire(e)) == h
  {
    CarefulEditsAgree(g, e);
    PatchRepeatsEditIff(g, e);
    RestrictsIsInStep(h, g);
    CarefulFits(h, g, e);
    EditKeepsInStep(h, g, e);
    CarefulStaysApart(h, g, e);
    RestrictsIsInStep(Remote(h, Wire(e)), Local(g, e).value);
  }

  lemma {:induction false} CarefulFits(h: Graph, g: Graph, e: Edit)
    requires Sound(g) && Restricts(h, g) && e.parent in g && Careful(g, e)
    ensures Fits(h, g, e)
  {
    forall q, i | q in g && 0 <= i < |g[q].children| ensures g[q].children[i].guid in g {
      assert Held(g, g[q].children[i]);
    }
  }

  /** Nothing outside comes to list what is inside: it lists what it did, or the object just inserted there. */
  lemma {:induction false} CarefulStaysApart(h: Graph, g: Graph, e: Edit)
    requires Sound(g) && Restricts(h, g) && Local(g, e).Some? && Careful(g, e)
    ensures var h', g' := OnJoiner(h, g, e), Local(g, e).value; h'.Keys <= g'.Keys && OutsideApart(g', h'.Keys)
  {
    var h', g' := OnJoiner(h, g, e), Local(g, e).value;
    if e.Remove? {
      var k := FirstAt(g[e.parent].children, e.child);
      assert Held(g, g[e.parent].children[k]);
    }
    forall q, i | q in g' && q !in h' && 0 <= i < |g'[q].children| ensures g'[q].children[i].guid !in h' {
      ListedBefore(g, e, q, i);
      if q in g {
        OutsideListsOutside(h, g, e, q, i);
      }
    }
  }

  lemma {:induction false} OutsideListsOutside(h: Graph, g: Graph, e: Edit, q: Guid, i: nat)
    requires Sound(g) && Restricts(h, g) && Local(g, e).Some? && Careful(g, e)
    requires q in g && q in Local(g, e).value && q !in OnJoiner(h, g, e) && i < |Local(g, e).value[q].children|
    ensures Local(g, e).value[q].children[i].guid !in OnJoiner(h, g, e)
  {
    ListedBefore(g, e, q, i);
    var c := Local(g, e).value[q].children[i];
    if q !in h {
      if c.guid in g {
        var j :| 0 <= j < |g[q].children| && g[q].children[j] == c;
      }
    }
  }

  /** Careful edits list no root and so take none away. */
  lemma {:induction false} RootStays(h: Graph, g: Graph, e: Edit, root: Guid)
    requires Sound(g) && Restricts(h, g) && Local(g, e).Some? && Careful(g, e)
    requires root in h && Unlisted(g, root)
    ensures root in Remote(h, Wire(e)) && Unlisted(Local(g, e).value, root)
  {
    var p, g' := e.parent, Local(g, e).value;
    forall q, i | q in g' && 0 <= i < |g'[q].children| ensures g'[q].children[i].guid != root {
      ListedBefore(g, e, q, i);
    }
  }

  /** Whatever the edit inserts has no children. */
  predicate BringsLeaf(e: Edit) {
    e.Insert? || e.AddCommands? ==> e.payload.kids == []
  }

  /** What an object lists after such an edit it listed before, or it is the object inserted. */
  lemma {:induction false} ListedBefore(g: Graph, e: Edit, q: Guid, i: nat)
    requires Local(g, e).Some? && BringsLeaf(e) && q in Local(g, e).value && i < |Local(g, e).value[q].children|
    ensures var c := Local(g, e).value[q].children[i];
            || (q in g && exists j :: 0 <= j < |g[q].children| && g[q].children[j] == c)
            || (e.Insert? && c == e.payload.item)
  {
    var children, c := g[e.parent].children, Local(g, e).value[q].children[i];
    if (e.Insert? || e.AddCommands?) && q == e.payload.item.guid {
    } else if q != e.parent || e.AddCommands? {
      assert Local(g, e).value[q] == g[q] && g[q].children[i] == c;
    } else {
      match e
      case Insert(_, payload, index) =>
        InsertedAmong(children, index, payload.item);
        assert c in InsertOrAppend(children, index, payload.item);
      case Remove(_, child) =>
        assert g[q].children[Skipping(FirstAt(children, child), i)] == c;
      case Move(_, child, toIndex) =>
        CameFrom(children, FirstAt(children, child), toIndex, i);
        assert g[q].children[Whence(FirstAt(children, child), Slot(|children| - 1, toIndex), i)] == c;
    }
  }

  lemma {:induction false} CarefulRunKeepsRestricts(h: Graph, g: Graph, edits: seq<Edit>)
    requires Sound(g) && Restricts(h, g) && LocalRun(g, edits).Some? && AllCareful(g, edits)
    ensures Sound(LocalRun(g, edits).value)
    ensures Restricts(RemoteRun(h, WireAll(edits)), LocalRun(g, edits).value)
    ensures forall root | root in h && Unlisted(g, root) ::
              root in RemoteRun(h, WireAll(edits)) && Unlisted(LocalRun(g, edits).value, root)
    decreases |edits|
  {
    if edits != [] {
      var h', g' := Remote(h, Wire(edits[0])), Local(g, edits[0]).value;
      CarefulEditKeepsRestricts(h, g, edits[0]);
      forall root | root in h && Unlisted(g, root) ensures root in h' && Unlisted(g', root) {
        RootStays(h, g, edits[0], root);
      }
      CarefulRunKeepsRestricts(h', g', edits[1..]);
      assert WireAll(edits)[1..] == WireAll(edits[1..]);
    }
  }

  // ------------------------------------------------------------------ what being in step means for the trees

  /** The object that a path of child positions leads to from a root, as long as every object on the way is indexed. */
  function Reach(g: Graph, root: Guid, path: seq<nat>): Option<Guid>
    decreases |path|
  {
    if root !in g then None
    else if path == [] then Some(root)
    else if path[0] < |g[root].children| then Reach(g, g[root].children[path[0]].guid, path[1..])
    else None
  }

  /** Where the path leads in the sender's index it leads in the joiner's too, to an object that lists alike. */
  ghost predicate ReachesAlike(h: Graph, g: Graph, root: Guid, path: seq<nat>) {
    Reach(g, root, path).Some? ==>
      && Reach(h, root, path) == Reach(g, root, path)
      && Reach(g, root, path).value in h && Reach(g, root, path).value in g
      && h[Reach(g, root, path).value] == g[Reach(g, root, path).value]
  }

  /** Being in step is enough for the trees of every root the joiner knows to be the sender's. */
  lemma {:induction false} TreesAreAlike(h: Graph, g: Graph, root: Guid, path: seq<nat>)
    requires InStep(h, g) && root in h
    ensures ReachesAlike(h, g, root, path)
    decreases |path|
  {
    if path != [] && root in g && path[0] < |g[root].children| {
      var c := g[root].children[path[0]];
      if c.guid in g {
        TreesAreAlike(h, g, c.guid, path[1..]);
      }
    }
  }
}
