// Walking an object tree and mapping what is met: patcher.py, traverse_and_map and traverse_and_map_preserve.
module Walking {
  import opened Basics

  datatype Tree<T> = Tree(guid: Guid, value: T, children: seq<Tree<T>>)

  /** The object and everything beneath it, each before its children. */
  function Walk<T>(tree: Tree<T>): seq<Tree<T>> {
    [tree] + WalkAll(tree.children)
  }

  function WalkAll<T>(trees: seq<Tree<T>>): seq<Tree<T>> {
    if trees == [] then [] else Walk(trees[0]) + WalkAll(trees[1..])
  }

  /** The subtree reached by going to the path's children one after another. */
  function At<T>(tree: Tree<T>, path: seq<nat>): Option<Tree<T>> {
    if path == [] then Some(tree)
    else if path[0] < |tree.children| then At(tree.children[path[0]], path[1..])
    else None
  }

  ghost predicate Within<T(!new)>(s: Tree<T>, tree: Tree<T>) {
    exists path :: At(tree, path) == Some(s)
  }

  /** The walk meets exactly the objects of the tree. */
  lemma {:induction false} WalkMeetsTheTree<T(!new)>(tree: Tree<T>, s: Tree<T>)
    ensures s in Walk(tree) <==> Within(s, tree)
    decreases tree, 0
  {
    WalkAllMeets(tree.children, s);
    if s == tree {
      assert At(tree, []) == Some(s);
    } else if s in Walk(tree) {
      var k :| 0 <= k < |tree.children| && Within(s, tree.children[k]);
      var path :| At(tree.children[k], path) == Some(s);
      assert ([k] + path)[1..] == path;
      assert At(tree, [k] + path) == Some(s);
    }
    if Within(s, tree) && s != tree {
      var path :| At(tree, path) == Some(s);
      assert At(tree.children[path[0]], path[1..]) == Some(s);
      assert Within(s, tree.children[path[0]]);
    }
  }

  lemma {:induction false} WalkAllMeets<T(!new)>(trees: seq<Tree<T>>, s: Tree<T>)
    ensures s in WalkAll(trees) <==> exists k :: 0 <= k < |trees| && Within(s, trees[k])
    decreases trees, 1
  {
    if trees != [] {
      WalkMeetsTheTree(trees[0], s);
      WalkAllMeets(trees[1..], s);
      if s in WalkAll(trees[1..]) {
        var k :| 0 <= k < |trees[1..]| && Within(s, trees[1..][k]);
        assert Within(s, trees[k + 1]);
      }
      if k :| 0 <= k < |trees| && Within(s, trees[k]) {
        assert k > 0 ==> trees[1..][k - 1] == trees[k];
      }
    }
  }

  // ------------------------------------------------------------------ mapping what is met

  datatype Entry<T> = Entry(guid: Guid, value: T)

  type Index<T> = map<Guid, T>

  function Guids<T(==)>(entries: seq<Entry<T>>): set<Guid> {
    set e | e in entries :: e.guid
  }

  function MapAll<T>(index: Index<T>, entries: seq<Entry<T>>): Index<T> {
    if entries == [] then index
    else var last := entries[|entries| - 1]; MapAll(index, entries[..|entries| - 1])[last.guid := last.value]
  }

  function MapPreserve<T>(index: Index<T>, entries: seq<Entry<T>>): Index<T> {
    if entries == [] then index
    else
      var before, last := MapPreserve(index, entries[..|entries| - 1]), entries[|entries| - 1];
      if last.guid in before then before else before[last.guid := last.value]
  }

  lemma {:induction false} MapAllTakesOver<T>(index: Index<T>, entries: seq<Entry<T>>)
    ensures MapAll(index, entries).Keys == index.Keys + Guids(entries)
    ensures forall g | g in Guids(entries) :: Entry(g, MapAll(index, entries)[g]) in entries
    ensures forall g | g in index && g !in Guids(entries) :: MapAll(index, entries)[g] == index[g]
  {
    if entries != [] {
      MapAllTakesOver(index, entries[..|entries| - 1]);
      assert entries == entries[..|entries| - 1] + [entries[|entries| - 1]];
    }
  }

  lemma {:induction false} MapPreserveYields<T>(index: Index<T>, entries: seq<Entry<T>>)
    ensures MapPreserve(index, entries).Keys == index.Keys + Guids(entries)
    ensures forall g | g in index :: MapPreserve(index, entries)[g] == index[g]
    ensures forall g | g in Guids(entries) && g !in index :: Entry(g, MapPreserve(index, entries)[g]) in entries
  {
    if entries != [] {
      MapPreserveYields(index, entries[..|entries| - 1]);
      assert entries == entries[..|entries| - 1] + [entries[|entries| - 1]];
    }
  }

  // ------------------------------------------------------------------ a snapshot's order

  function Only<T>(items: seq<T>, chosen: T -> bool): seq<T> {
    if items == [] then []
    else (if chosen(items[0]) then [items[0]] else []) + Only(items[1..], chosen)
  }

  function Not<T>(chosen: T -> bool): T -> bool {
    item => !chosen(item)
  }

  /** Sequence timelines before clip timelines, otherwise as they come. */
  function SequencesFirst<T>(items: seq<T>, isClip: T -> bool): seq<T> {
    Only(items, Not(isClip)) + Only(items, isClip)
  }

  lemma {:induction false} OnlyChosen<T>(items: seq<T>, chosen: T -> bool)
    ensures forall item :: item in Only(items, chosen) <==> item in items && chosen(item)
  {
    if items != [] {
      assert items == [items[0]] + items[1..];
      OnlyChosen(items[1..], chosen);
    }
  }

  lemma SameItems<T>(items: seq<T>, isClip: T -> bool)
    ensures forall item :: item in SequencesFirst(items, isClip) <==> item in items
  {
    OnlyChosen(items, Not(isClip));
    OnlyChosen(items, isClip);
  }
}
