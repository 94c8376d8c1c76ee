// The timelines a peer holds and the GUID index over them. manager.py: registration, ADD_TIMELINE, the snapshot
// rebuild, removal and replacement.
module Timelines {
  import opened Basics
  import opened Walking

  /** Which object in memory a GUID stands for: copies of one clip share a GUID and differ in identity. */
  type Identity = int

  /** A sequence timeline, or the timeline made to annotate one clip. */
  datatype Timeline = Timeline(tree: Tree<Identity>, clipTimelineFor: Option<Guid>)

  /** What the walk of a tree finds, in order. */
  function Entries(tree: Tree<Identity>): seq<Entry<Identity>> {
    var met := Walk(tree);
    seq(|met|, i requires 0 <= i < |met| => Entry(met[i].guid, met[i].value))
  }

  /** The GUIDs of a timeline and of everything in it. */
  function GuidsOf(tl: Timeline): set<Guid> {
    Guids(Entries(tl.tree))
  }

  /** A GUID is among them exactly when some path from the root leads to an object with it. */
  lemma GuidsAreWithin(tl: Timeline, g: Guid)
    ensures g in GuidsOf(tl) <==> exists path :: At(tl.tree, path).Some? && At(tl.tree, path).value.guid == g
  {
    var met := Walk(tl.tree);
    if g in GuidsOf(tl) {
      var i :| 0 <= i < |met| && Entries(tl.tree)[i].guid == g;
      WalkMeetsTheTree(tl.tree, met[i]);
      assert met[i] in met;
      var path :| At(tl.tree, path) == Some(met[i]);
      assert At(tl.tree, path).Some? && At(tl.tree, path).value.guid == g;
    }
    forall path | At(tl.tree, path).Some? && At(tl.tree, path).value.guid == g ensures g in GuidsOf(tl) {
      var s := At(tl.tree, path).value;
      assert Within(s, tl.tree);
      WalkMeetsTheTree(tl.tree, s);
      var i :| 0 <= i < |met| && met[i] == s;
      assert Entries(tl.tree)[i] in Entries(tl.tree) && Entries(tl.tree)[i].guid == g;
    }
  }

  method TraverseAndMap(index: Index<Identity>, item: Tree<Identity>) returns (mapped: Index<Identity>)
    ensures mapped == MapAll(index, Entries(item))
  {
    var entries := Entries(item);
    mapped := index;
    for n := 0 to |entries|
      invariant mapped == MapAll(index, entries[..n])
    {
      assert entries[..n + 1][..n] == entries[..n];
      mapped := mapped[entries[n].guid := entries[n].value];
    }
    assert entries[..|entries|] == entries;
  }

  method TraverseAndMapPreserve(index: Index<Identity>, item: Tree<Identity>) returns (mapped: Index<Identity>)
    ensures mapped == MapPreserve(index, Entries(item))
  {
    var entries := Entries(item);
    mapped := index;
    for n := 0 to |entries|
      invariant mapped == MapPreserve(index, entries[..n])
    {
      assert entries[..n + 1][..n] == entries[..n];
      if entries[n].guid !in mapped {
        mapped := mapped[entries[n].guid := entries[n].value];
      }
    }
    assert entries[..|entries|] == entries;
  }

  // ------------------------------------------------------------------ the registry

  datatype Registry = Registry(
    timelines: map<Guid, Timeline>, clipTimelines: map<Guid, Guid>, index: Index<Identity>, active: Option<Guid>)

  const EMPTY: Registry := Registry(map[], map[], map[], None)

  /** Every GUID in a registered timeline is indexed. */
  ghost predicate Indexed(r: Registry) {
    forall t, g | t in r.timelines && g in GuidsOf(r.timelines[t]) :: g in r.index
  }

  /** The index gives an object of a registered sequence. */
  ghost predicate OnSequence(timelines: map<Guid, Timeline>, index: Index<Identity>, g: Guid) {
    g in index && exists t :: t in timelines && HoldsInSequence(timelines[t], Entry(g, index[g]))
  }

  predicate HoldsInSequence(tl: Timeline, e: Entry<Identity>) {
    tl.clipTimelineFor.None? && e in Entries(tl.tree)
  }

  /** Every GUID occurring in a sequence stands for an object of a sequence, never for a clip timeline's copy. */
  ghost predicate Canonical(r: Registry) {
    forall t, g | t in r.timelines && r.timelines[t].clipTimelineFor.None? && g in GuidsOf(r.timelines[t]) ::
      OnSequence(r.timelines, r.index, g)
  }

  ghost predicate ClipTimelinesHeld(r: Registry) {
    forall clip | clip in r.clipTimelines :: r.clipTimelines[clip] in r.timelines
  }

  ghost predicate Good(r: Registry) {
    Indexed(r) && Canonical(r) && ClipTimelinesHeld(r)
  }

  /** Take in a timeline: a sequence claims its GUIDs, a clip timeline only those nobody has. */
  function Added(r: Registry, t: Guid, tl: Timeline): Registry {
    var timelines := r.timelines[t := tl];
    match tl.clipTimelineFor
    case None => r.(timelines := timelines, index := MapAll(r.index, Entries(tl.tree)))
    case Some(clip) =>
      r.(timelines := timelines, index := MapPreserve(r.index, Entries(tl.tree)), clipTimelines := r.clipTimelines[clip := t])
  }

  /** The ADD_TIMELINE handler: a timeline already held is ignored. */
  function Announced(r: Registry, t: Guid, tl: Timeline): Registry {
    if t in r.timelines then r else Added(r, t, tl)
  }

  function AddedAll(r: Registry, items: seq<(Guid, Timeline)>): Registry
    decreases |items|
  {
    if items == [] then r else AddedAll(Added(r, items[0].0, items[0].1), items[1..])
  }

  predicate IsClip(item: (Guid, Timeline)) {
    item.1.clipTimelineFor.Some?
  }

  /** The snapshot's timelines, sequences before clip timelines. */
  function Sorted(items: seq<(Guid, Timeline)>): seq<(Guid, Timeline)> {
    SequencesFirst(items, IsClip)
  }

  function Rebuilt(items: seq<(Guid, Timeline)>, active: Option<Guid>): Registry {
    AddedAll(EMPTY, Sorted(items)).(active := active)
  }

  /** Taking in a timeline under a new GUID keeps the registry good, whatever is registered already. */
  lemma AddingKeepsGood(r: Registry, t: Guid, tl: Timeline)
    requires Good(r) && t !in r.timelines
    ensures Good(Added(r, t, tl))
  {
    var walk, r' := Entries(tl.tree), Added(r, t, tl);
    MapAllTakesOver(r.index, walk);
    MapPreserveYields(r.index, walk);
    forall u, g | u in r'.timelines && r'.timelines[u].clipTimelineFor.None? && g in GuidsOf(r'.timelines[u])
      ensures OnSequence(r'.timelines, r'.index, g)
    {
      if tl.clipTimelineFor.None? && g in Guids(walk) {
        assert r'.timelines[t] == tl && HoldsInSequence(tl, Entry(g, r'.index[g]));
      } else {
        assert u in r.timelines && OnSequence(r.timelines, r.index, g);
        var s :| s in r.timelines && HoldsInSequence(r.timelines[s], Entry(g, r.index[g]));
        assert r'.timelines[s] == r.timelines[s] && r'.index[g] == r.index[g];
      }
    }
  }

  /** ADD_TIMELINE messages in any order, repeated or not. */
  lemma {:induction false} AnnouncementsKeepGood(r: Registry, messages: seq<(Guid, Timeline)>)
    requires Good(r)
    ensures Good(AnnouncedAll(r, messages))
    decreases |messages|
  {
    if messages != [] {
      var (t, tl) := messages[0];
      if t !in r.timelines {
        AddingKeepsGood(r, t, tl);
      }
      AnnouncementsKeepGood(Announced(r, t, tl), messages[1..]);
    }
  }

  /** What is held stays as it is, only what is announced is added, and no announcement activates anything. */
  lemma {:induction false} AnnouncementsOnlyAdd(r: Registry, messages: seq<(Guid, Timeline)>)
    ensures var after := AnnouncedAll(r, messages);
            && after.active == r.active && (forall t | t in r.timelines :: t in after.timelines && after.timelines[t] == r.timelines[t])
            && (forall t | t in after.timelines :: t in r.timelines || exists m :: m in messages && m.0 == t)
    decreases |messages|
  {
    if messages != [] {
      var (t, tl) := messages[0];
      var rest, r' := messages[1..], Announced(r, t, tl);
      AnnouncementsOnlyAdd(r', rest);
      assert messages[0] in messages && forall m | m in rest :: m in messages;
    }
  }

  /** And each timeline that is new is taken in as its first announcement has it. */
  lemma {:induction false} FirstAnnouncementCounts(r: Registry, messages: seq<(Guid, Timeline)>, k: nat)
    requires k < |messages| && messages[k].0 !in r.timelines
    requires forall i | 0 <= i < k :: messages[i].0 != messages[k].0
    ensures var after := AnnouncedAll(r, messages);
            messages[k].0 in after.timelines && after.timelines[messages[k].0] == messages[k].1
    decreases |messages|
  {
    var (t, tl) := messages[0];
    var rest, r' := messages[1..], Announced(r, t, tl);
    if k == 0 {
      assert t in r'.timelines && r'.timelines[t] == tl;
      AnnouncementsOnlyAdd(r', rest);
    } else {
      assert messages[0].0 != messages[k].0;
      assert forall i | 0 <= i < k - 1 :: rest[i] == messages[i + 1];
      FirstAnnouncementCounts(r', rest, k - 1);
    }
  }

  function AnnouncedAll(r: Registry, messages: seq<(Guid, Timeline)>): Registry
    decreases |messages|
  {
    if messages == [] then r else AnnouncedAll(Announced(r, messages[0].0, messages[0].1), messages[1..])
  }

  ghost predicate DistinctKeys(items: seq<(Guid, Timeline)>) {
    forall i, j | 0 <= i < j < |items| :: items[i].0 != items[j].0
  }

  /** A snapshot's timelines rebuild a good registry from any order of the dictionary. */
  lemma RebuildIsGood(items: seq<(Guid, Timeline)>, active: Option<Guid>)
    requires DistinctKeys(items)
    ensures Good(Rebuilt(items, active))
    ensures Rebuilt(items, active).timelines.Keys == set item | item in items :: item.0
    ensures forall item | item in items :: Rebuilt(items, active).timelines[item.0] == item.1
    ensures Rebuilt(items, active).active == active
  {
    SortedKeeps(items);
    AddingAllKeepsGood(EMPTY, Sorted(items));
  }

  lemma {:induction false} AddingAllKeepsGood(r: Registry, items: seq<(Guid, Timeline)>)
    requires Good(r) && DistinctKeys(items) && forall item | item in items :: item.0 !in r.timelines
    ensures Good(AddedAll(r, items))
    ensures AddedAll(r, items).timelines.Keys == r.timelines.Keys + set item | item in items :: item.0
    ensures forall t | t in r.timelines :: AddedAll(r, items).timelines[t] == r.timelines[t]
    ensures forall item | item in items :: AddedAll(r, items).timelines[item.0] == item.1
    decreases |items|
  {
    if items != [] {
      var (t, tl) := items[0];
      AddingKeepsGood(r, t, tl);
      assert items == [items[0]] + items[1..];
      AddingAllKeepsGood(Added(r, t, tl), items[1..]);
      assert Added(r, t, tl).timelines[t] == tl;
    }
  }

  lemma SortedKeeps(items: seq<(Guid, Timeline)>)
    requires DistinctKeys(items)
    ensures DistinctKeys(Sorted(items))
    ensures forall item :: item in Sorted(items) <==> item in items
  {
    SameItems(items, IsClip);
    var sequences, clips := Only(items, Not(IsClip)), Only(items, IsClip);
    OnlyDistinct(items, Not(IsClip));
    OnlyDistinct(items, IsClip);
    OnlyChosen(items, Not(IsClip));
    OnlyChosen(items, IsClip);
    forall i, j | 0 <= i < |sequences| && 0 <= j < |clips| ensures sequences[i].0 != clips[j].0 {
      assert sequences[i] in sequences && clips[j] in clips;
      var a :| 0 <= a < |items| && items[a] == sequences[i];
      var b :| 0 <= b < |items| && items[b] == clips[j];
    }
  }

  lemma {:induction false} OnlyDistinct(items: seq<(Guid, Timeline)>, chosen: ((Guid, Timeline)) -> bool)
    requires DistinctKeys(items)
    ensures DistinctKeys(Only(items, chosen))
  {
    if items != [] {
      OnlyDistinct(items[1..], chosen);
      OnlyChosen(items[1..], chosen);
      var rest := Only(items[1..], chosen);
      forall j | 0 <= j < |rest| ensures rest[j].0 != items[0].0 {
        assert rest[j] in rest;
      }
    }
  }

  // ------------------------------------------------------------------ removing

  /** The clip timelines that go with a timeline: those of the clips in it. */
  function Cascade(r: Registry, t: Guid): set<Guid>
    requires t in r.timelines
  {
    set clip | clip in r.clipTimelines && clip in GuidsOf(r.timelines[t]) :: r.clipTimelines[clip]
  }

  /** One timeline's own state gone: its GUIDs, its entry, and whatever names it as a clip timeline. */
  function Purged(r: Registry, t: Guid): Registry {
    r.(
      index := if t in r.timelines then r.index - GuidsOf(r.timelines[t]) else r.index,
      timelines := r.timelines - {t},
      clipTimelines := map clip | clip in r.clipTimelines && r.clipTimelines[clip] != t :: r.clipTimelines[clip])
  }

  /** All GUIDs of the timelines named. */
  function GuidsOfAll(timelines: map<Guid, Timeline>, named: set<Guid>): set<Guid> {
    set t, g | t in named && t in timelines && g in GuidsOf(timelines[t]) :: g
  }

  /** What removing a timeline leaves. */
  function Removed(r: Registry, t: Guid): Registry {
    if t !in r.timelines then r
    else
      var gone := Cascade(r, t) + {t};
      Registry(
        r.timelines - gone,
        map clip | clip in r.clipTimelines && r.clipTimelines[clip] !in gone :: r.clipTimelines[clip],
        r.index - GuidsOfAll(r.timelines, gone),
        if r.active == Some(t) then None else r.active)
  }

  /** After removal every remaining GUID is still indexed exactly when none of them was among the GUIDs removed. */
  lemma RemovalKeepsIndexIff(r: Registry, t: Guid)
    requires Indexed(r) && t in r.timelines
    ensures Indexed(Removed(r, t)) <==>
              forall u | u in Removed(r, t).timelines ::
                GuidsOf(r.timelines[u]) !! GuidsOfAll(r.timelines, Cascade(r, t) + {t})
  {
  }

  /**
   * Sequences share no GUIDs, a clip timeline shares GUIDs only with the sequence its clip is in, and each clip
   * timeline is the one registered for its clip.
   */
  ghost predicate Separate(r: Registry) {
    && (forall t, u | t in r.timelines && u in r.timelines && t != u ::
          GuidsOf(r.timelines[t]) !! GuidsOf(r.timelines[u]) || Annotates(r, t, u) || Annotates(r, u, t))
    && (forall clip | clip in r.clipTimelines && r.clipTimelines[clip] in r.timelines ::
          r.timelines[r.clipTimelines[clip]].clipTimelineFor == Some(clip))
    && forall t | t in r.timelines && r.timelines[t].clipTimelineFor.Some? ::
         var clip := r.timelines[t].clipTimelineFor.value;
         clip in r.clipTimelines && r.clipTimelines[clip] == t
  }

  /** t annotates a clip of the sequence u. */
  predicate Annotates(r: Registry, t: Guid, u: Guid)
    requires t in r.timelines && u in r.timelines
  {
    && r.timelines[t].clipTimelineFor.Some? && r.timelines[u].clipTimelineFor.None?
    && r.timelines[t].clipTimelineFor.value in GuidsOf(r.timelines[u])
  }

  /**
   * In such a session, removing a sequence takes exactly its own GUIDs and those of its clips' timelines, leaves
   * every other entry as it was, and keeps the registry good.
   */
  lemma RemovingSequenceKeepsGood(r: Registry, t: Guid)
    requires Good(r) && Separate(r) && t in r.timelines && r.timelines[t].clipTimelineFor.None?
    ensures Good(Removed(r, t)) && Separate(Removed(r, t))
    ensures forall g | g in r.index && (exists u :: u in Removed(r, t).timelines && g in GuidsOf(r.timelines[u])) ::
              g in Removed(r, t).index && Removed(r, t).index[g] == r.index[g]
  {
    StaysSeparate(r, t);
    var r', gone := Removed(r, t), Cascade(r, t) + {t};
    forall u | u in r'.timelines ensures GuidsOf(r.timelines[u]) !! GuidsOfAll(r.timelines, gone) {
      forall v | v in gone && v in r.timelines ensures GuidsOf(r.timelines[u]) !! GuidsOf(r.timelines[v]) {
        RemainingIsApart(r, t, u, v);
      }
    }
    RemovalKeepsIndexIff(r, t);
    forall u, g | u in r'.timelines && r'.timelines[u].clipTimelineFor.None? && g in GuidsOf(r'.timelines[u])
      ensures OnSequence(r'.timelines, r'.index, g)
    {
      assert OnSequence(r.timelines, r.index, g);
      var s :| s in r.timelines && HoldsInSequence(r.timelines[s], Entry(g, r.index[g]));
      assert g in GuidsOf(r.timelines[s]) && g in r'.index;
      assert s !in gone;
      assert HoldsInSequence(r'.timelines[s], Entry(g, r'.index[g]));
    }
  }

  lemma StaysSeparate(r: Registry, t: Guid)
    requires Separate(r) && t in r.timelines
    ensures Separate(Removed(r, t))
  {
  }

  lemma RemainingIsApart(r: Registry, t: Guid, u: Guid, v: Guid)
    requires Separate(r) && t in r.timelines && r.timelines[t].clipTimelineFor.None?
    requires u in r.timelines && v in r.timelines && u !in Cascade(r, t) + {t} && v in Cascade(r, t) + {t}
    ensures GuidsOf(r.timelines[u]) !! GuidsOf(r.timelines[v])
  {
  }

  lemma WalkOfTwo(root: Guid, rootObject: Identity, leaf: Guid, leafObject: Identity)
    ensures Entries(Tree(root, rootObject, [Tree(leaf, leafObject, [])])) == [Entry(root, rootObject), Entry(leaf, leafObject)]
  {
    var below := Tree(leaf, leafObject, []);
    assert Walk(below) == [below];
    assert [below][1..] == [] && WalkAll([below]) == Walk(below) + [];
    assert Walk(Tree(root, rootObject, [below])) == [Tree(root, rootObject, [below]), below];
  }

  /** Removing a clip timeline by itself takes the clip's shared GUID out of the index. */
  lemma RemovingClipTimelineLosesTheClip(sequence: Guid, clip: Guid, clipTimeline: Guid)
    requires sequence != clip && sequence != clipTimeline && clip != clipTimeline
    ensures var seqTl := Timeline(Tree(sequence, 0, [Tree(clip, 1, [])]), None);
            var clipTl := Timeline(Tree(clipTimeline, 2, [Tree(clip, 3, [])]), Some(clip));
            var r := Added(Added(EMPTY, sequence, seqTl), clipTimeline, clipTl);
            Good(r) && !Indexed(Removed(r, clipTimeline)) && clip !in Removed(r, clipTimeline).index
  {
    var seqTl := Timeline(Tree(sequence, 0, [Tree(clip, 1, [])]), None);
    var clipTl := Timeline(Tree(clipTimeline, 2, [Tree(clip, 3, [])]), Some(clip));
    WalkOfTwo(sequence, 0, clip, 1);
    WalkOfTwo(clipTimeline, 2, clip, 3);
    assert Entries(seqTl.tree) == [Entry(sequence, 0), Entry(clip, 1)];
    assert Entries(clipTl.tree) == [Entry(clipTimeline, 2), Entry(clip, 3)];
    var one := Added(EMPTY, sequence, seqTl);
    var r := Added(one, clipTimeline, clipTl);
    AddingKeepsGood(EMPTY, sequence, seqTl);
    AddingKeepsGood(one, clipTimeline, clipTl);
    assert Entry(clip, 1) in Entries(seqTl.tree) && Entry(clip, 3) in Entries(clipTl.tree);
    assert clip in GuidsOf(seqTl) && clip in GuidsOf(clipTl);
    assert r.timelines[sequence] == seqTl && r.timelines[clipTimeline] == clipTl;
    var r' := Removed(r, clipTimeline);
    assert clip in GuidsOfAll(r.timelines, Cascade(r, clipTimeline) + {clipTimeline});
    assert sequence !in Cascade(r, clipTimeline);
    assert r'.timelines[sequence] == seqTl;
  }

  /** The active timeline may be one that went in the cascade; then, and only then, it is left dangling. */
  lemma ActiveDanglesIff(r: Registry, t: Guid)
    requires t in r.timelines && r.active.Some? && r.active.value in r.timelines
    ensures (Removed(r, t).active.Some? && Removed(r, t).active.value !in Removed(r, t).timelines)
       <==> r.active.value != t && r.active.value in Cascade(r, t)
  {
  }

  // ------------------------------------------------------------------ replacing

  /** Put a new structure under a timeline's GUID; GUIDs only the old one had are dropped. */
  function Replaced(r: Registry, t: Guid, tl: Timeline): Registry {
    var kept := if t in r.timelines then r.index - (GuidsOf(r.timelines[t]) - GuidsOf(tl)) else r.index;
    r.(
      timelines := r.timelines[t := tl],
      index := MapAll(kept, Entries(tl.tree)),
      active := if r.active.None? then Some(t) else r.active)
  }

  /** The index stays complete exactly when no other timeline holds a GUID that was dropped. */
  lemma ReplacementKeepsIndexIff(r: Registry, t: Guid, tl: Timeline)
    requires Indexed(r) && t in r.timelines
    ensures Indexed(Replaced(r, t, tl)) <==>
              forall u | u in r.timelines && u != t ::
                GuidsOf(r.timelines[u]) !! GuidsOf(r.timelines[t]) - GuidsOf(tl)
  {
    var stale, r' := GuidsOf(r.timelines[t]) - GuidsOf(tl), Replaced(r, t, tl);
    MapAllTakesOver(r.index - stale, Entries(tl.tree));
    forall u | u in r.timelines && u != t
      ensures (forall g | g in GuidsOf(r.timelines[u]) :: g in r'.index) <==> GuidsOf(r.timelines[u]) !! stale
    {
      assert r'.timelines[u] == r.timelines[u];
    }
    if Indexed(r') {
      forall u | u in r.timelines && u != t ensures GuidsOf(r.timelines[u]) !! stale {
        assert u in r'.timelines && r'.timelines[u] == r.timelines[u];
        assert forall g | g in GuidsOf(r'.timelines[u]) :: g in r'.index;
      }
    }
  }

  /** Replacing a sequence keeps every sequence GUID on a sequence, as long as the index stays complete. */
  lemma ReplacingSequenceKeepsCanonical(r: Registry, t: Guid, tl: Timeline)
    requires Good(r) && tl.clipTimelineFor.None? && t in r.timelines && r.timelines[t].clipTimelineFor.None?
    requires forall u | u in r.timelines && u != t :: GuidsOf(r.timelines[u]) !! GuidsOf(r.timelines[t]) - GuidsOf(tl)
    ensures Good(Replaced(r, t, tl))
  {
    var stale, r' := GuidsOf(r.timelines[t]) - GuidsOf(tl), Replaced(r, t, tl);
    MapAllTakesOver(r.index - stale, Entries(tl.tree));
    ReplacementKeepsIndexIff(r, t, tl);
    forall u, g | u in r'.timelines && r'.timelines[u].clipTimelineFor.None? && g in GuidsOf(r'.timelines[u])
      ensures OnSequence(r'.timelines, r'.index, g)
    {
      if g in GuidsOf(tl) {
        assert HoldsInSequence(r'.timelines[t], Entry(g, r'.index[g]));
      } else {
        assert u != t && OnSequence(r.timelines, r.index, g);
        var s :| s in r.timelines && HoldsInSequence(r.timelines[s], Entry(g, r.index[g]));
        assert g in GuidsOf(r.timelines[s]) && g !in stale;
        assert HoldsInSequence(r'.timelines[s], Entry(g, r'.index[g]));
      }
    }
  }

  /**
   * A replacement always claims its GUIDs, even when it is a clip timeline. So replacing a clip timeline keeps the
   * sequences canonical exactly when they share no GUID with it, which a timeline of one of their clips does.
   */
  lemma ReplacingClipTimelineIff(r: Registry, t: Guid, tl: Timeline)
    requires Good(r) && t in r.timelines && r.timelines[t].clipTimelineFor.Some? && tl.clipTimelineFor.Some?
    requires forall u, e | u in r.timelines && e in Entries(tl.tree) :: !HoldsInSequence(r.timelines[u], e)
    ensures Canonical(Replaced(r, t, tl)) <==>
              forall u | u in r.timelines && r.timelines[u].clipTimelineFor.None? ::
                GuidsOf(r.timelines[u]) !! GuidsOf(r.timelines[t]) + GuidsOf(tl)
  {
    var stale, r' := GuidsOf(r.timelines[t]) - GuidsOf(tl), Replaced(r, t, tl);
    MapAllTakesOver(r.index - stale, Entries(tl.tree));
    forall u, g | u in r.timelines && r.timelines[u].clipTimelineFor.None? && g in GuidsOf(r.timelines[u])
      ensures OnSequence(r'.timelines, r'.index, g) <==> g !in GuidsOf(r.timelines[t]) + GuidsOf(tl)
    {
      if g !in GuidsOf(r.timelines[t]) + GuidsOf(tl) {
        assert OnSequence(r.timelines, r.index, g);
        var s :| s in r.timelines && HoldsInSequence(r.timelines[s], Entry(g, r.index[g]));
        assert HoldsInSequence(r'.timelines[s], Entry(g, r'.index[g]));
      } else if g in GuidsOf(tl) {
        assert Entry(g, r'.index[g]) in Entries(tl.tree);
        assert forall s | s in r'.timelines :: !HoldsInSequence(r'.timelines[s], Entry(g, r'.index[g]));
      }
    }
    assert forall u | u in r.timelines && r.timelines[u].clipTimelineFor.None? :: r'.timelines[u] == r.timelines[u];
  }

  // ------------------------------------------------------------------ every run

  /** register_timeline: the whole timeline is mapped under its own GUID, whatever it is. */
  function Registered(r: Registry, tl: Timeline): Registry {
    r.(
      timelines := r.timelines[tl.tree.guid := tl], index := MapAll(r.index, Entries(tl.tree)),
      active := if r.active.None? then Some(tl.tree.guid) else r.active)
  }

  /** get_or_create_clip_timeline, given the timeline it would build for the clip and whether the GUID is a clip's. */
  function ClipTimelineMade(r: Registry, clip: Guid, isClip: bool, t: Guid, tl: Timeline): Registry {
    if clip in r.clipTimelines || clip !in r.index || !isClip then r else Added(r, t, tl)
  }

  datatype Operation =
    | Announce(t: Guid, tl: Timeline)
    | Register(tl: Timeline)
    | MakeClipTimeline(clip: Guid, isClip: bool, t: Guid, tl: Timeline)
    | AdoptSnapshot(items: seq<(Guid, Timeline)>, active: Option<Guid>)
    | Remove(t: Guid)
    | Replace(t: Guid, tl: Timeline)
    | Reset

  function After(r: Registry, op: Operation): Registry {
    match op
    case Announce(t, tl) => Announced(r, t, tl)
    case Register(tl) => Registered(r, tl)
    case MakeClipTimeline(clip, isClip, t, tl) => ClipTimelineMade(r, clip, isClip, t, tl)
    case AdoptSnapshot(items, active) => Rebuilt(items, active)
    case Remove(t) => Removed(r, t)
    case Replace(t, tl) => Replaced(r, t, tl)
    case Reset => EMPTY
  }

  function AfterAll(ops: seq<Operation>): Registry {
    if ops == [] then EMPTY else After(AfterAll(ops[..|ops| - 1]), ops[|ops| - 1])
  }

  /** In every reachable state each clip timeline on record is a registered timeline. */
  lemma {:induction false} ClipTimelinesAlwaysHeld(ops: seq<Operation>)
    ensures ClipTimelinesHeld(AfterAll(ops))
  {
    if ops != [] {
      ClipTimelinesAlwaysHeld(ops[..|ops| - 1]);
      if ops[|ops| - 1].AdoptSnapshot? {
        AddingAllKeepsHeld(EMPTY, Sorted(ops[|ops| - 1].items));
      }
    }
  }

  lemma {:induction false} AddingAllKeepsHeld(r: Registry, items: seq<(Guid, Timeline)>)
    requires ClipTimelinesHeld(r)
    ensures ClipTimelinesHeld(AddedAll(r, items))
    decreases |items|
  {
    if items != [] {
      AddingAllKeepsHeld(Added(r, items[0].0, items[0].1), items[1..]);
    }
  }

  /** What adds a timeline under a new GUID, locally or from a peer, keeps the registry good. */
  predicate OnlyAdds(r: Registry, op: Operation) {
    match op
    case Announce(_, _) => true
    case Register(tl) => tl.tree.guid !in r.timelines && tl.clipTimelineFor.None?
    case MakeClipTimeline(_, _, t, _) => t !in r.timelines
    case AdoptSnapshot(_, _) => false
    case Remove(_) => false
    case Replace(_, _) => false
    case Reset => true
  }

  ghost predicate AllOnlyAdd(ops: seq<Operation>) {
    forall i | 0 <= i < |ops| :: OnlyAdds(AfterAll(ops[..i]), ops[i])
  }

  lemma {:induction false} AddingRunsStayGood(ops: seq<Operation>)
    requires AllOnlyAdd(ops)
    ensures Good(AfterAll(ops))
  {
    if ops != [] {
      var init, op := ops[..|ops| - 1], ops[|ops| - 1];
      forall i | 0 <= i < |init| ensures OnlyAdds(AfterAll(init[..i]), init[i]) {
        assert init[..i] == ops[..i];
      }
      AddingRunsStayGood(init);
      var r := AfterAll(init);
      match op
      case Announce(t, tl) =>
        if t !in r.timelines {
          AddingKeepsGood(r, t, tl);
        }
      case Register(tl) =>
        AddingKeepsGood(r, tl.tree.guid, tl);
      case MakeClipTimeline(_, _, t, tl) => AddingKeepsGood(r, t, tl);
      case Reset =>
    }
  }

  /** What a session's timeline is, whoever holds a copy: the GUIDs in it, and the clip it annotates if it does. */
  datatype Plan = Plan(guids: set<Guid>, clipTimelineFor: Option<Guid>)

  /**
   * Sequences of the session share no GUIDs, a clip timeline shares some only with the sequence its clip is in, and
   * its own GUID is derived from the clip.
   */
  ghost predicate PlannedApart(plans: map<Guid, Plan>, derive: Guid -> Guid) {
    && (forall t, u | t in plans && u in plans && t != u ::
          plans[t].guids !! plans[u].guids || PlannedToAnnotate(plans[t], plans[u]) || PlannedToAnnotate(plans[u], plans[t]))
    && forall t | t in plans && plans[t].clipTimelineFor.Some? :: t == derive(plans[t].clipTimelineFor.value)
  }

  predicate PlannedToAnnotate(a: Plan, b: Plan) {
    a.clipTimelineFor.Some? && b.clipTimelineFor.None? && a.clipTimelineFor.value in b.guids
  }

  predicate AsPlanned(plans: map<Guid, Plan>, t: Guid, tl: Timeline) {
    t in plans && plans[t] == Plan(GuidsOf(tl), tl.clipTimelineFor)
  }

  /** Announcements, registrations and clip timelines of the session's timelines, and removals of any. */
  predicate KeepsToPlan(plans: map<Guid, Plan>, op: Operation) {
    match op
    case Announce(t, tl) => AsPlanned(plans, t, tl)
    case Register(tl) => AsPlanned(plans, tl.tree.guid, tl) && tl.clipTimelineFor.None?
    case MakeClipTimeline(clip, _, t, tl) => AsPlanned(plans, t, tl) && tl.clipTimelineFor == Some(clip)
    case AdoptSnapshot(_, _) => false
    case Remove(_) => true
    case Replace(_, _) => false
    case Reset => true
  }

  ghost predicate Planned(plans: map<Guid, Plan>, r: Registry) {
    && (forall t | t in r.timelines :: AsPlanned(plans, t, r.timelines[t]))
    && (forall clip | clip in r.clipTimelines ::
          r.clipTimelines[clip] in r.timelines && r.timelines[r.clipTimelines[clip]].clipTimelineFor == Some(clip))
    && (forall t | t in r.timelines && r.timelines[t].clipTimelineFor.Some? ::
          var clip := r.timelines[t].clipTimelineFor.value; clip in r.clipTimelines && r.clipTimelines[clip] == t)
  }

  lemma OperationKeepsPlanned(plans: map<Guid, Plan>, derive: Guid -> Guid, r: Registry, op: Operation)
    requires PlannedApart(plans, derive) && Planned(plans, r) && KeepsToPlan(plans, op)
    ensures Planned(plans, After(r, op))
  {
    match op
    case Announce(t, tl) =>
      if t !in r.timelines {
        AddingKeepsPlanned(plans, derive, r, t, tl);
      }
    case MakeClipTimeline(_, _, t, tl) => AddingKeepsPlanned(plans, derive, r, t, tl);
    case Remove(t) =>
      var r' := Removed(r, t);
      assert forall u | u in r'.timelines :: r'.timelines[u] == r.timelines[u] && AsPlanned(plans, u, r.timelines[u]);
    case _ =>
  }

  lemma AddingKeepsPlanned(plans: map<Guid, Plan>, derive: Guid -> Guid, r: Registry, t: Guid, tl: Timeline)
    requires PlannedApart(plans, derive) && Planned(plans, r) && AsPlanned(plans, t, tl)
    ensures Planned(plans, Added(r, t, tl))
  {
    var r' := Added(r, t, tl);
    forall clip | clip in r'.clipTimelines
      ensures r'.clipTimelines[clip] in r'.timelines
              && r'.timelines[r'.clipTimelines[clip]].clipTimelineFor == Some(clip)
    {
      assert r'.clipTimelines[clip] == t ==> t in r.timelines ==> AsPlanned(plans, t, r.timelines[t]);
    }
    forall u | u in r'.timelines && r'.timelines[u].clipTimelineFor.Some?
      ensures var clip := r'.timelines[u].clipTimelineFor.value; clip in r'.clipTimelines && r'.clipTimelines[clip] == u
    {
      assert AsPlanned(plans, u, r'.timelines[u]);
    }
  }

  /** In such a session every peer's registry has its timelines apart, whatever arrives, is made or is removed, and in what order. */
  lemma {:induction false} SessionsStaySeparate(plans: map<Guid, Plan>, derive: Guid -> Guid, ops: seq<Operation>)
    requires PlannedApart(plans, derive) && forall op | op in ops :: KeepsToPlan(plans, op)
    ensures Planned(plans, AfterAll(ops)) && Separate(AfterAll(ops))
  {
    if ops != [] {
      SessionsStaySeparate(plans, derive, ops[..|ops| - 1]);
      assert ops[|ops| - 1] in ops;
      OperationKeepsPlanned(plans, derive, AfterAll(ops[..|ops| - 1]), ops[|ops| - 1]);
    }
  }

  /** It keeps to the plan, registers only what is not held yet, and removes only sequences. */
  predicate Tame(plans: map<Guid, Plan>, r: Registry, op: Operation) {
    && KeepsToPlan(plans, op)
    && (op.Register? ==> op.tl.tree.guid !in r.timelines)
    && (op.Remove? && op.t in r.timelines ==> r.timelines[op.t].clipTimelineFor.None?)
  }

  /** Over any run of additions and of sequence removals the index stays complete and canonical. */
  lemma {:induction false} TameRunsStayGood(plans: map<Guid, Plan>, derive: Guid -> Guid, ops: seq<Operation>)
    requires PlannedApart(plans, derive) && forall i | 0 <= i < |ops| :: Tame(plans, AfterAll(ops[..i]), ops[i])
    ensures Planned(plans, AfterAll(ops)) && Good(AfterAll(ops))
  {
    if ops != [] {
      var init, op := ops[..|ops| - 1], ops[|ops| - 1];
      forall i | 0 <= i < |init| ensures Tame(plans, AfterAll(init[..i]), init[i]) {
        assert init[..i] == ops[..i];
      }
      TameRunsStayGood(plans, derive, init);
      TameKeepsGood(plans, derive, AfterAll(init), op);
    }
  }

  lemma TameKeepsGood(plans: map<Guid, Plan>, derive: Guid -> Guid, r: Registry, op: Operation)
    requires PlannedApart(plans, derive) && Planned(plans, r) && Good(r) && Tame(plans, r, op)
    ensures Planned(plans, After(r, op)) && Good(After(r, op))
  {
    OperationKeepsPlanned(plans, derive, r, op);
    match op
    case Announce(t, tl) =>
      if t !in r.timelines {
        AddingKeepsGood(r, t, tl);
      }
    case Register(tl) =>
      AddingKeepsGood(r, tl.tree.guid, tl);
    case MakeClipTimeline(clip, isClip, t, tl) =>
      if After(r, op) != r {
        assert t in r.timelines ==> AsPlanned(plans, t, r.timelines[t]);
        AddingKeepsGood(r, t, tl);
      }
    case Remove(t) =>
      if t in r.timelines {
        RemovingSequenceKeepsGood(r, t);
      }
    case Reset =>
  }

  // ------------------------------------------------------------------ the state and its methods

  /** What is left when the named timelines have been purged one by one. */
  function PurgedAll(r: Registry, gone: set<Guid>): Registry {
    Registry(
      r.timelines - gone,
      map clip | clip in r.clipTimelines && r.clipTimelines[clip] !in gone :: r.clipTimelines[clip],
      r.index - GuidsOfAll(r.timelines, gone),
      r.active)
  }

  lemma PurgeOneMore(r: Registry, gone: set<Guid>, t: Guid)
    ensures Purged(PurgedAll(r, gone), t) == PurgedAll(r, gone + {t})
  {
  }

  class TimelineRegistry {
    var timelines: map<Guid, Timeline>
    var clipTimelines: map<Guid, Guid>
    var objectMap: Index<Identity>
    var activeTimelineGuid: Option<Guid>

    function State(): Registry
      reads this
    {
      Registry(timelines, clipTimelines, objectMap, activeTimelineGuid)
    }

    constructor ()
      ensures State() == EMPTY
    {
      timelines, clipTimelines, objectMap, activeTimelineGuid := map[], map[], map[], None;
    }

    method RegisterTimeline(tl: Timeline)
      modifies this
      ensures State() == Registered(old(State()), tl)
      ensures timelines == old(timelines)[tl.tree.guid := tl]
      ensures activeTimelineGuid == if old(activeTimelineGuid).None? then Some(tl.tree.guid) else old(activeTimelineGuid)
    {
      timelines := timelines[tl.tree.guid := tl];
      objectMap := TraverseAndMap(objectMap, tl.tree);
      if activeTimelineGuid.None? {
        activeTimelineGuid := Some(tl.tree.guid);
      }
    }

    method GetOrCreateClipTimeline(clip: Guid, isClip: bool, t: Guid, tl: Timeline) returns (found: Option<Guid>)
      requires tl.clipTimelineFor == Some(clip)
      modifies this
      ensures State() == ClipTimelineMade(old(State()), clip, isClip, t, tl)
      ensures found.None? <==> clip !in old(clipTimelines) && (clip !in old(objectMap) || !isClip)
      ensures found.Some? ==> clip in clipTimelines && found.value == clipTimelines[clip]
      ensures found.Some? && clip !in old(clipTimelines) ==> found.value == t && timelines == old(timelines)[t := tl]
      ensures found.None? || clip in old(clipTimelines) ==> State() == old(State())
    {
      if clip in clipTimelines {
        return Some(clipTimelines[clip]);
      }
      if clip !in objectMap || !isClip {
        return None;
      }
      TakeIn(t, tl);
      return Some(t);
    }

    method ResetTimelines()
      modifies this
      ensures State() == EMPTY
    {
      timelines, objectMap, clipTimelines, activeTimelineGuid := map[], map[], map[], None;
    }

    /** The body shared by the ADD_TIMELINE handler and the snapshot rebuild. */
    method TakeIn(t: Guid, tl: Timeline)
      modifies this
      ensures State() == Added(old(State()), t, tl)
    {
      timelines := timelines[t := tl];
      if tl.clipTimelineFor.Some? {
        objectMap := TraverseAndMapPreserve(objectMap, tl.tree);
        clipTimelines := clipTimelines[tl.clipTimelineFor.value := t];
      } else {
        objectMap := TraverseAndMap(objectMap, tl.tree);
      }
    }

    method HandleAddTimeline(t: Guid, tl: Timeline)
      modifies this
      ensures State() == Announced(old(State()), t, tl)
    {
      if t !in timelines {
        TakeIn(t, tl);
      }
    }

    method RebuildFromSnapshot(items: seq<(Guid, Timeline)>, active: Option<Guid>)
      modifies this
      ensures State() == Rebuilt(items, active)
    {
      timelines, objectMap, clipTimelines, activeTimelineGuid := map[], map[], map[], None;
      var sorted := Sorted(items);
      for n := 0 to |sorted|
        invariant AddedAll(State(), sorted[n..]) == AddedAll(EMPTY, sorted)
      {
        assert sorted[n..][1..] == sorted[n + 1..];
        TakeIn(sorted[n].0, sorted[n].1);
      }
      activeTimelineGuid := active;
    }

    method PurgeTimelineState(t: Guid)
      modifies this
      ensures State() == Purged(old(State()), t)
    {
      if t in timelines {
        objectMap := objectMap - GuidsOf(timelines[t]);
      }
      timelines := timelines - {t};
      clipTimelines := map clip | clip in clipTimelines && clipTimelines[clip] != t :: clipTimelines[clip];
    }

    /** _remove_timeline_local. The clip timelines may go in any order. */
    method RemoveTimelineLocal(t: Guid) returns (removed: Option<Timeline>)
      modifies this
      ensures State() == Removed(old(State()), t)
      ensures removed == if t in old(timelines) then Some(old(timelines)[t]) else None
    {
      if t !in timelines {
        return None;
      }
      removed := Some(timelines[t]);
      ghost var start := State();
      var cascade := Cascade(State(), t);
      var pending := cascade;
      PurgedNone(start);
      while pending != {}
        invariant pending <= cascade && State() == PurgedAll(start, cascade - pending)
      {
        var next := AnyOf(pending);
        PurgeOneMore(start, cascade - pending, next);
        assert cascade - pending + {next} == cascade - (pending - {next});
        PurgeTimelineState(next);
        pending := pending - {next};
      }
      PurgeOneMore(start, cascade - pending, t);
      assert cascade - pending + {t} == cascade + {t};
      PurgeTimelineState(t);
      if activeTimelineGuid == Some(t) {
        activeTimelineGuid := None;
      }
    }

    method ReplaceTimelineLocal(t: Guid, tl: Timeline)
      modifies this
      ensures State() == Replaced(old(State()), t, tl)
      ensures timelines == old(timelines)[t := tl]
      ensures activeTimelineGuid == if old(activeTimelineGuid).None? then Some(t) else old(activeTimelineGuid)
    {
      if t in timelines {
        objectMap := objectMap - (GuidsOf(timelines[t]) - GuidsOf(tl));
      }
      timelines := timelines[t := tl];
      objectMap := TraverseAndMap(objectMap, tl.tree);
      if activeTimelineGuid.None? {
        activeTimelineGuid := Some(t);
      }
    }
  }

  method AnyOf<T>(pending: set<T>) returns (t: T)
    requires pending != {}
    ensures t in pending
  {
    t :| t in pending;
  }

  lemma PurgedNone(r: Registry)
    ensures PurgedAll(r, {}) == r
  {
  }
}
