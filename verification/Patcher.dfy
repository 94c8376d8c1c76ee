// The GUID index over the object graph, edited locally and by patches from peers: patcher.py, OTIOPatcher.
module Patcher {
  import opened Basics

  type Command = int

  /** A listed object: its GUID, and for an annotation clip the (clip GUID, frame) it annotates. */
  datatype Child = Child(guid: Guid, key: Option<(Guid, int)>)

  /** What the index knows of one object. */
  datatype Container = Container(isTrack: bool, key: Option<(Guid, int)>, children: seq<Child>)

  /** The index, as child lists by GUID. */
  type Graph = map<Guid, Container>

  /** An object travelling in a message. */
  datatype Payload = Payload(item: Child, isTrack: bool, kids: seq<Child>, commands: seq<Command>)

  datatype Message =
    | InsertMessage(parent: Guid, payload: Payload, index: int)
    | RemoveMessage(parent: Guid, child: Guid)
    | MoveMessage(parent: Guid, child: Guid, toIndex: int)

  /** What a peer does to its own graph. AddCommands is the merging branch of broadcast_add_annotation. */
  datatype Edit =
    | Insert(parent: Guid, payload: Payload, index: int)
    | Remove(parent: Guid, child: Guid)
    | Move(parent: Guid, child: Guid, toIndex: int)
    | AddCommands(parent: Guid, payload: Payload)

  /** The message a local edit broadcasts. */
  function Wire(e: Edit): Message {
    match e
    case Insert(p, payload, index) => InsertMessage(p, payload, index)
    case Remove(p, child) => RemoveMessage(p, child)
    case Move(p, child, toIndex) => MoveMessage(p, child, toIndex)
    case AddCommands(p, payload) => InsertMessage(p, payload, -1)
  }

  // ------------------------------------------------------------------ lists

  /** Where an insert lands: negative indices count from the end, and the result is clamped into the list. */
  function Slot(n: nat, index: int): (k: nat)
    ensures k <= n
    ensures 0 <= index <= n ==> k == index
  {
    var i := if index < 0 then index + n else index;
    if i < 0 then 0 else if i > n then n else i
  }

  function InsertAt<T>(s: seq<T>, index: int, x: T): seq<T> {
    var k := Slot(|s|, index);
    s[..k] + [x] + s[k..]
  }

  function RemoveAt<T>(s: seq<T>, k: nat): seq<T>
    requires k < |s|
  {
    s[..k] + s[k + 1..]
  }

  /** insert_child's reading of the index: -1 appends. */
  function InsertOrAppend<T>(s: seq<T>, index: int, x: T): seq<T> {
    if index == -1 then s + [x] else InsertAt(s, index, x)
  }

  /** The first child with the GUID, or the length of the list. */
  function FirstAt(children: seq<Child>, guid: Guid): (k: nat)
    ensures k <= |children|
    ensures k < |children| ==> children[k].guid == guid
    ensures forall j | 0 <= j < k :: children[j].guid != guid
  {
    if children == [] || children[0].guid == guid then 0 else 1 + FirstAt(children[1..], guid)
  }

  /** The first child with the annotation key, or the length of the list. */
  function FirstKeyed(children: seq<Child>, key: (Guid, int)): (k: nat)
    ensures k <= |children|
    ensures k < |children| ==> children[k].key == Some(key)
    ensures forall j | 0 <= j < k :: children[j].key != Some(key)
  {
    if children == [] || children[0].key == Some(key) then 0 else 1 + FirstKeyed(children[1..], key)
  }

  /** Take out what is at k and put x in at toIndex. */
  function Relocated<T>(s: seq<T>, k: nat, toIndex: int, x: T): seq<T>
    requires k < |s|
  {
    InsertAt(RemoveAt(s, k), toIndex, x)
  }

  // ------------------------------------------------------------------ what edits and patches do

  function WithChildren(g: Graph, parent: Guid, children: seq<Child>): Graph
    requires parent in g
  {
    g[parent := g[parent].(children := children)]
  }

  /** Only the object itself is indexed, never what it contains. */
  function Indexed(g: Graph, payload: Payload): Graph {
    g[payload.item.guid := Container(payload.isTrack, payload.item.key, payload.kids)]
  }

  /** The incoming object only adds commands to an annotation clip that is already there. */
  predicate MergesInto(parent: Container, payload: Payload) {
    && parent.isTrack && payload.commands != [] && payload.item.key.Some?
    && FirstKeyed(parent.children, payload.item.key.value) < |parent.children|
  }

  predicate Merges(g: Graph, parent: Guid, payload: Payload)
    requires parent in g
  {
    MergesInto(g[parent], payload)
  }

  /** None when the edit does nothing, and so is not broadcast. */
  function Local(g: Graph, e: Edit): Option<Graph> {
    if e.parent !in g then None
    else
      var children := g[e.parent].children;
      match e
      case Insert(p, payload, index) =>
        Some(Indexed(WithChildren(g, p, InsertOrAppend(children, index, payload.item)), payload))
      case Remove(p, child) =>
        var k := FirstAt(children, child);
        if k == |children| then None else Some(WithChildren(g, p, RemoveAt(children, k)) - {child})
      case Move(p, child, toIndex) =>
        var k := FirstAt(children, child);
        if k == |children| || k == toIndex then None
        else Some(WithChildren(g, p, Relocated(children, k, toIndex, children[k])))
      case AddCommands(p, payload) =>
        if payload.item.key.None? || FirstKeyed(children, payload.item.key.value) == |children| then None
        else Some(Indexed(g, payload))
  }

  /** A local edit either changes the graph and is broadcast, or does neither. */
  ghost predicate Edited(before: Graph, e: Edit, after: Graph, sent: bool) {
    && sent == Local(before, e).Some?
    && after == if sent then Local(before, e).value else before
  }

  function Remote(g: Graph, m: Message): Graph {
    if Missing(g, m).Some? then g
    else
      var children := g[m.parent].children;
      match m
      case InsertMessage(p, payload, index) =>
        Indexed(if Merges(g, p, payload) then g
                else WithChildren(g, p, InsertOrAppend(children, index, payload.item)), payload)
      case RemoveMessage(p, child) =>
        var k := FirstAt(children, child);
        if k == |children| then g else WithChildren(g, p, RemoveAt(children, k)) - {child}
      case MoveMessage(p, child, toIndex) =>
        var k := FirstAt(children, child);
        if k == |children| then g
        else WithChildren(g, p, Relocated(children, k, toIndex, Child(child, g[child].key)))
  }

  /** The GUID a patch names and the index does not hold; the patch is then recorded and dropped. */
  function Missing(g: Graph, m: Message): Option<Guid> {
    if m.parent !in g then Some(m.parent)
    else if m.MoveMessage? && m.child !in g then Some(m.child)
    else None
  }

  // ------------------------------------------------------------------ the same edit on both sides

  /** The edits that leave sender and receiver alike. */
  predicate Agrees(g: Graph, e: Edit)
    requires e.parent in g
  {
    match e
    case Insert(p, payload, _) => !Merges(g, p, payload) || payload.item.guid == p
    case Remove(_, _) => true
    case Move(p, child, toIndex) =>
      var k := FirstAt(g[p].children, child);
      k < |g[p].children| ==>
        if child in g then g[child].key == g[p].children[k].key
        else Relocated(g[p].children, k, toIndex, g[p].children[k]) == g[p].children
    case AddCommands(p, payload) => (payload.commands != [] && g[p].isTrack) || payload.item.guid == p
  }

  /**
   * A patch does to the receiver what the edit did to the sender, except in three cases: a plain insert that the
   * receiver takes for an annotation delta, a move of a child that is listed but not indexed (or that shares its
   * GUID with an indexed object of another key), and an annotation
   * delta with no commands, which the receiver inserts as a clip.
   */
  lemma PatchRepeatsEditIff(g: Graph, e: Edit)
    requires Local(g, e).Some?
    ensures Remote(g, Wire(e)) == Local(g, e).value <==> Agrees(g, e)
  {
    var p, children := e.parent, g[e.parent].children;
    match e
    case Insert(_, payload, index) =>
      if Merges(g, p, payload) && payload.item.guid != p {
        assert Local(g, e).value[p].children != Remote(g, Wire(e))[p].children;
      }
    case Remove(_, _) =>
    case Move(_, child, toIndex) =>
      var k := FirstAt(children, child);
      assert Local(g, e).value[p].children == Relocated(children, k, toIndex, children[k]);
      if child !in g {
        assert g[p] == g[p].(children := children) && g[p := g[p]] == g;
      } else {
        LandsAt(children, k, toIndex, children[k]);
        LandsAt(children, k, toIndex, Child(child, g[child].key));
        assert Remote(g, Wire(e))[p].children == Relocated(children, k, toIndex, Child(child, g[child].key));
      }
    case AddCommands(_, payload) =>
      if !Agrees(g, e) {
        assert Local(g, e).value[p].children != Remote(g, Wire(e))[p].children;
      }
  }

  lemma LandsAt<T>(s: seq<T>, k: nat, toIndex: int, x: T)
    requires k < |s|
    ensures Slot(|s| - 1, toIndex) < |Relocated(s, k, toIndex, x)| == |s|
    ensures Relocated(s, k, toIndex, x)[Slot(|s| - 1, toIndex)] == x
  {
  }

  predicate Held(g: Graph, child: Child) {
    child.guid in g && g[child.guid].key == child.key
  }

  ghost predicate AllHeld(g: Graph) {
    forall p, i | p in g && 0 <= i < |g[p].children| :: Held(g, g[p].children[i])
  }

  ghost predicate NothingTwice(g: Graph) {
    forall p, i, q, j | p in g && q in g && 0 <= i < |g[p].children| && 0 <= j < |g[q].children| ::
      g[p].children[i].guid == g[q].children[j].guid ==> p == q && i == j
  }

  /** Everything listed is indexed, and nothing is listed twice. */
  ghost predicate Sound(g: Graph) {
    AllHeld(g) && NothingTwice(g)
  }

  /** Inserted objects are new and come without children, and annotations with commands go where they can merge. */
  predicate Careful(g: Graph, e: Edit)
    requires e.parent in g
  {
    match e
    case Insert(p, payload, _) => payload.item.guid !in g && payload.kids == [] && !Merges(g, p, payload)
    case Remove(_, _) => true
    case Move(_, _, _) => true
    case AddCommands(p, payload) =>
      payload.item.guid !in g && payload.kids == [] && payload.commands != [] && g[p].isTrack
  }

  /** Careful edits keep a sound graph sound, and every peer repeats them exactly. */
  lemma {:induction false} CarefulEditsAgree(g: Graph, e: Edit)
    requires Sound(g) && Local(g, e).Some? && Careful(g, e)
    ensures Sound(Local(g, e).value) && Remote(g, Wire(e)) == Local(g, e).value
  {
    var p, children := e.parent, g[e.parent].children;
    match e
    case Insert(_, payload, index) =>
      PatchRepeatsEditIff(g, e);
      InsertKeepsSound(g, p, payload, index);
    case Remove(_, child) =>
      PatchRepeatsEditIff(g, e);
      RemoveKeepsSound(g, p, child);
    case Move(_, child, toIndex) =>
      var k := FirstAt(children, child);
      assert Held(g, children[k]);
      PatchRepeatsEditIff(g, e);
      MoveKeepsSound(g, p, k, toIndex);
    case AddCommands(_, payload) =>
      PatchRepeatsEditIff(g, e);
  }

  lemma InsertKeepsSound(g: Graph, p: Guid, payload: Payload, index: int)
    requires Sound(g) && p in g && payload.item.guid !in g && payload.kids == []
    ensures Sound(Indexed(WithChildren(g, p, InsertOrAppend(g[p].children, index, payload.item)), payload))
  {
    var after := InsertOrAppend(g[p].children, index, payload.item);
    var k := if index == -1 then |g[p].children| else Slot(|g[p].children|, index);
    Inserts(g[p].children, index, payload.item);
    NewListing(g, p, after, k, payload);
  }

  lemma Inserts(before: seq<Child>, index: int, item: Child)
    ensures var k := if index == -1 then |before| else Slot(|before|, index);
            var after := InsertOrAppend(before, index, item);
            && |after| == |before| + 1 && after[k] == item
            && forall i | 0 <= i < |after| && i != k :: after[i] == before[Before(k, i)]
  {
    var k := if index == -1 then |before| else Slot(|before|, index);
    var after := InsertOrAppend(before, index, item);
    assert after == before[..k] + [item] + before[k..];
    forall i | 0 <= i < |after| && i != k ensures after[i] == before[Before(k, i)] {
    }
  }

  /** The index before an object was put in at k, for any other index. */
  function Before(k: nat, i: nat): int {
    if i < k then i else i - 1
  }

  lemma NewListing(g: Graph, p: Guid, after: seq<Child>, k: nat, payload: Payload)
    requires Sound(g) && p in g && payload.item.guid !in g && payload.kids == []
    requires k <= |g[p].children| && |after| == |g[p].children| + 1
    requires after[k] == payload.item
    requires forall i | 0 <= i < |after| && i != k :: after[i] == g[p].children[Before(k, i)]
    ensures Sound(Indexed(WithChildren(g, p, after), payload))
  {
    var before, next := g[p].children, Indexed(WithChildren(g, p, after), payload);
    assert next[p].children == after && next[payload.item.guid].children == [];
    forall q, i | q in next && 0 <= i < |next[q].children| ensures Held(next, next[q].children[i]) {
      if q == p {
        assert i != k ==> after[i] == before[Before(k, i)] && Held(g, before[Before(k, i)]);
      } else {
        assert next[q] == g[q] && Held(g, g[q].children[i]);
      }
    }
    forall q, i, r, j | q in next && r in next && 0 <= i < |next[q].children| && 0 <= j < |next[r].children|
      && next[q].children[i].guid == next[r].children[j].guid
      ensures q == r && i == j
    {
      assert q == p && i != k ==> after[i] == before[Before(k, i)] && Held(g, before[Before(k, i)]);
      assert r == p && j != k ==> after[j] == before[Before(k, j)] && Held(g, before[Before(k, j)]);
      assert q != p ==> q in g && next[q] == g[q] && Held(g, g[q].children[i]);
      assert r != p ==> r in g && next[r] == g[r] && Held(g, g[r].children[j]);
    }
  }

  lemma RemoveKeepsSound(g: Graph, p: Guid, child: Guid)
    requires Sound(g) && p in g && FirstAt(g[p].children, child) < |g[p].children|
    ensures Sound(WithChildren(g, p, RemoveAt(g[p].children, FirstAt(g[p].children, child))) - {child})
  {
    var k := FirstAt(g[p].children, child);
    ShorterListing(g, p, RemoveAt(g[p].children, k), k);
  }

  lemma ShorterListing(g: Graph, p: Guid, after: seq<Child>, k: nat)
    requires Sound(g) && p in g && k < |g[p].children| && |after| == |g[p].children| - 1
    requires forall i | 0 <= i < |after| :: after[i] == g[p].children[Skipping(k, i)]
    ensures Sound(WithChildren(g, p, after) - {g[p].children[k].guid})
  {
  }

  /** The index before the object at k was taken out. */
  function Skipping(k: nat, i: nat): nat {
    if i < k then i else i + 1
  }

  lemma {:induction false} MoveKeepsSound(g: Graph, p: Guid, k: nat, toIndex: int)
    requires Sound(g) && p in g && k < |g[p].children|
    ensures Sound(WithChildren(g, p, Relocated(g[p].children, k, toIndex, g[p].children[k])))
  {
    var before := g[p].children;
    var after := Relocated(before, k, toIndex, before[k]);
    var next := WithChildren(g, p, after);
    var to := Slot(|before| - 1, toIndex);
    forall i: nat | i < |after| ensures Came(before, after, k, to, i) {
      CameFrom(before, k, toIndex, i);
    }
    forall q, i | q in next && 0 <= i < |next[q].children| ensures Held(next, next[q].children[i]) {
      if q == p {
        assert Came(before, after, k, Slot(|before| - 1, toIndex), i);
      } else {
        assert next[q] == g[q];
      }
    }
    forall q, i, r, j | q in next && r in next && 0 <= i < |next[q].children| && 0 <= j < |next[r].children|
      && next[q].children[i].guid == next[r].children[j].guid
      ensures q == r && i == j
    {
      assert q == p ==> Came(before, after, k, Slot(|before| - 1, toIndex), i);
      assert r == p ==> Came(before, after, k, Slot(|before| - 1, toIndex), j);
    }
  }

  ghost predicate Came(before: seq<Child>, after: seq<Child>, k: nat, to: nat, i: nat) {
    i < |after| && 0 <= Whence(k, to, i) < |before| && after[i] == before[Whence(k, to, i)]
  }

  lemma CameFrom(before: seq<Child>, k: nat, toIndex: int, i: nat)
    requires k < |before| && i < |before|
    ensures var after := Relocated(before, k, toIndex, before[k]);
            |after| == |before| && Came(before, after, k, Slot(|before| - 1, toIndex), i)
  {
  }

  /** Where the object now at i was before the one at k moved to `to`. */
  function Whence(k: nat, to: nat, i: nat): int {
    if i == to then k
    else if i < to then (if i < k then i else i + 1)
    else if i - 1 < k then i - 1 else i
  }

  /** Without that care: an inserted subtree's children are not indexed, so moving one of them is lost on the way. */
  lemma MoveInsideInsertedSubtreeIsLost()
    ensures var g: Graph := map[0 := Container(false, None, [])];
            var kids := [Child(2, None), Child(3, None)];
            var inserted := Local(g, Insert(0, Payload(Child(1, None), true, kids, []), -1)).value;
            var move := Move(1, 2, 1);
            && Remote(g, Wire(Insert(0, Payload(Child(1, None), true, kids, []), -1))) == inserted
            && Local(inserted, move).Some? && Local(inserted, move).value[1].children == [kids[1], kids[0]]
            && Remote(inserted, Wire(move)) == inserted && Missing(inserted, Wire(move)) == Some(2)
  {
  }

  // ------------------------------------------------------------------ where an edit puts things

  /** A list with x put in: -1 and whatever is past the end append, other negative positions count from the end. */
  ghost predicate PutIn<T>(before: seq<T>, after: seq<T>, x: T, index: int) {
    var n := |before|;
    && (index == -1 || index >= n ==> after == before + [x])
    && (0 <= index < n ==> after == before[..index] + [x] + before[index..])
    && (-n <= index < -1 ==> after == before[..n + index] + [x] + before[n + index..])
    && (index < -n && index != -1 ==> after == [x] + before)
  }

  /** The list without its first child with the GUID. */
  ghost predicate TakenOut(before: seq<Child>, after: seq<Child>, guid: Guid, k: nat) {
    && k < |before| && before[k].guid == guid && (forall j | 0 <= j < k :: before[j].guid != guid)
    && after == before[..k] + before[k + 1..]
  }

  /** An insert puts the object in and indexes it as it came; nothing else changes. */
  lemma {:induction false} InsertLists(g: Graph, p: Guid, payload: Payload, index: int)
    requires p in g && payload.item.guid != p
    ensures var after := Local(g, Insert(p, payload, index));
            && after.Some? && after.value.Keys == g.Keys + {payload.item.guid}
            && PutIn(g[p].children, after.value[p].children, payload.item, index)
            && after.value[payload.item.guid] == Container(payload.isTrack, payload.item.key, payload.kids)
            && forall q | q in g && q != p && q != payload.item.guid :: after.value[q] == g[q]
  {
    var children := g[p].children;
    assert children[..|children|] == children && children[|children|..] == [] && children[..0] == [];
  }

  /** A removal takes the first child with the GUID out of the list, and it out of the index; without one it does nothing. */
  lemma {:induction false} RemoveLists(g: Graph, p: Guid, child: Guid)
    requires p in g && p != child
    ensures var after := Local(g, Remove(p, child));
            && (after.Some? <==> exists c :: c in g[p].children && c.guid == child)
            && (after.Some? ==>
                  && after.value.Keys == g.Keys - {child}
                  && (exists k: nat :: TakenOut(g[p].children, after.value[p].children, child, k))
                  && forall q | q in after.value && q != p :: after.value[q] == g[q])
  {
    var children, k := g[p].children, FirstAt(g[p].children, child);
    if k < |children| {
      assert children[k] in children;
      assert Local(g, Remove(p, child)).value[p].children == RemoveAt(children, k);
      assert TakenOut(children, RemoveAt(children, k), child, k);
    }
  }

  /**
   * A move takes the first child with the GUID out and puts it in again, at the position in the list without it, where -1
   * is the place before the last; moving it to where it is does nothing.
   */
  lemma {:induction false} MoveLists(g: Graph, p: Guid, child: Guid, toIndex: int)
    requires p in g
    ensures var after := Local(g, Move(p, child, toIndex));
            && (after.None? <==> forall j | 0 <= j < |g[p].children| ::
                  g[p].children[j].guid == child ==> j == toIndex || exists i :: 0 <= i < j && g[p].children[i].guid == child)
            && (after.Some? ==>
                  && after.value.Keys == g.Keys && (forall q | q in g && q != p :: after.value[q] == g[q])
                  && exists k: nat, without: seq<Child> ::
                       && TakenOut(g[p].children, without, child, k)
                       && PutBack(without, after.value[p].children, g[p].children[k], toIndex))
  {
    var children, k := g[p].children, FirstAt(g[p].children, child);
    if k < |children| {
      var without := RemoveAt(children, k);
      assert TakenOut(children, without, child, k);
      assert without[..|without|] == without && without[|without|..] == [] && without[..0] == [];
      assert PutBack(without, Relocated(children, k, toIndex, children[k]), children[k], toIndex);
    }
  }

  /** As `PutIn`, but -1 counts from the end too. */
  ghost predicate PutBack<T>(before: seq<T>, after: seq<T>, x: T, index: int) {
    var n := |before|;
    && (index >= n ==> after == before + [x])
    && (0 <= index < n ==> after == before[..index] + [x] + before[index..])
    && (-n <= index < 0 ==> after == before[..n + index] + [x] + before[n + index..])
    && (index < -n ==> after == [x] + before)
  }

  // ------------------------------------------------------------------ runs

  function LocalRun(g: Graph, edits: seq<Edit>): Option<Graph>
    decreases |edits|
  {
    if edits == [] then Some(g)
    else if Local(g, edits[0]).None? then None
    else LocalRun(Local(g, edits[0]).value, edits[1..])
  }

  function RemoteRun(g: Graph, messages: seq<Message>): Graph
    decreases |messages|
  {
    if messages == [] then g else RemoteRun(Remote(g, messages[0]), messages[1..])
  }

  function WireAll(edits: seq<Edit>): seq<Message> {
    seq(|edits|, i requires 0 <= i < |edits| => Wire(edits[i]))
  }

  /** Each edit of a run is one that peers repeat exactly, on the graph it is made on. */
  ghost predicate AllAgree(g: Graph, edits: seq<Edit>)
    requires LocalRun(g, edits).Some?
    decreases |edits|
  {
    edits == [] || (Agrees(g, edits[0]) && AllAgree(Local(g, edits[0]).value, edits[1..]))
  }

  lemma {:induction false} AgreeingRunsMatch(g: Graph, edits: seq<Edit>)
    requires LocalRun(g, edits).Some? && AllAgree(g, edits)
    ensures RemoteRun(g, WireAll(edits)) == LocalRun(g, edits).value
    decreases |edits|
  {
    if edits != [] {
      PatchRepeatsEditIff(g, edits[0]);
      AgreeingRunsMatch(Local(g, edits[0]).value, edits[1..]);
      assert WireAll(edits)[1..] == WireAll(edits[1..]);
    }
  }

  ghost predicate AllCareful(g: Graph, edits: seq<Edit>)
    requires LocalRun(g, edits).Some?
    decreases |edits|
  {
    edits == [] || (Careful(g, edits[0]) && AllCareful(Local(g, edits[0]).value, edits[1..]))
  }

  /** A run of careful edits from a sound graph, of any length, is one that every peer repeats exactly. */
  lemma {:induction false} CarefulRunsAgree(g: Graph, edits: seq<Edit>)
    requires Sound(g) && LocalRun(g, edits).Some? && AllCareful(g, edits)
    ensures Sound(LocalRun(g, edits).value) && AllAgree(g, edits)
    decreases |edits|
  {
    if edits != [] {
      CarefulEditsAgree(g, edits[0]);
      PatchRepeatsEditIff(g, edits[0]);
      CarefulRunsAgree(Local(g, edits[0]).value, edits[1..]);
    }
  }

  lemma {:induction false} LocalRunSplits(g: Graph, edits: seq<Edit>, m: nat)
    requires m <= |edits| && LocalRun(g, edits).Some? && AllAgree(g, edits)
    ensures LocalRun(g, edits[..m]).Some?
    ensures LocalRun(LocalRun(g, edits[..m]).value, edits[m..]) == LocalRun(g, edits)
    ensures AllAgree(LocalRun(g, edits[..m]).value, edits[m..])
    decreases |edits|
  {
    if m == 0 {
      assert edits[0..] == edits;
    } else {
      LocalRunSplits(Local(g, edits[0]).value, edits[1..], m - 1);
      assert edits[..m][1..] == edits[1..][..m - 1] && edits[1..][m - 1..] == edits[m..];
    }
  }

  lemma {:induction false} RemoteOneMore(g: Graph, messages: seq<Message>, m: Message)
    ensures RemoteRun(g, messages + [m]) == Remote(RemoteRun(g, messages), m)
    decreases |messages|
  {
    if messages == [] {
      assert [] + [m] == [m] && [m][1..] == [];
    } else {
      RemoteOneMore(Remote(g, messages[0]), messages[1..], m);
      assert (messages + [m])[1..] == messages[1..] + [m];
    }
  }

  // ------------------------------------------------------------------ the patcher

  class Node {
    const guid: Guid
    const isTrack: bool
    const key: Option<(Guid, int)>
    var children: seq<Node>
    var commands: seq<Command>

    constructor (guid: Guid, isTrack: bool, key: Option<(Guid, int)>, children: seq<Node>, commands: seq<Command>)
      ensures this.guid == guid && this.isTrack == isTrack && this.key == key
      ensures this.children == children && this.commands == commands
    {
      this.guid, this.isTrack, this.key, this.children, this.commands := guid, isTrack, key, children, commands;
    }
  }

  function Brief(nodes: seq<Node>): seq<Child> {
    seq(|nodes|, i requires 0 <= i < |nodes| => Child(nodes[i].guid, nodes[i].key))
  }

  function AsPayload(n: Node): Payload
    reads n
  {
    Payload(Child(n.guid, n.key), n.isTrack, Brief(n.children), n.commands)
  }

  lemma BriefInserts(nodes: seq<Node>, index: int, n: Node)
    ensures Brief(InsertAt(nodes, index, n)) == InsertAt(Brief(nodes), index, Child(n.guid, n.key))
    ensures Brief(InsertOrAppend(nodes, index, n)) == InsertOrAppend(Brief(nodes), index, Child(n.guid, n.key))
  {
  }

  lemma SameNodes(nodes: seq<Node>, index: int, k: nat, n: Node)
    ensures forall x | x in InsertAt(nodes, index, n) :: x == n || x in nodes
    ensures forall x | x in InsertOrAppend(nodes, index, n) :: x == n || x in nodes
    ensures k < |nodes| ==> forall x | x in RemoveAt(nodes, k) :: x in nodes
    ensures k < |nodes| ==> forall x | x in Relocated(nodes, k, index, n) :: x == n || x in nodes
  {
    if k < |nodes| {
      assert forall x | x in RemoveAt(nodes, k) :: x in nodes;
    }
  }

  lemma BriefRemoves(nodes: seq<Node>, k: nat)
    requires k < |nodes|
    ensures Brief(RemoveAt(nodes, k)) == RemoveAt(Brief(nodes), k)
  {
  }

  function AsContainer(n: Node): Container
    reads n`children
  {
    Container(n.isTrack, n.key, Brief(n.children))
  }

  ghost function GraphOf(objects: map<Guid, Node>): (g: Graph)
    reads objects.Values`children
    ensures g.Keys == objects.Keys
  {
    map guid | guid in objects :: AsContainer(objects[guid])
  }

  /** Every indexed object is indexed under its own GUID; repr holds those objects and what they list. */
  ghost predicate ValidIndex(objects: map<Guid, Node>, repr: set<Node>)
    reads objects.Values`children
  {
    && (forall g | g in objects :: objects[g].guid == g)
    && objects.Values <= repr && (forall o, n | o in objects.Values && n in o.children :: n in repr)
  }

  /** _try_merge_annotation. */
  method TryMergeAnnotation(parent: Node, child: Node) returns (merged: Option<Node>)
    modifies parent.children`commands
    ensures merged.Some? <==> MergesInto(AsContainer(parent), old(AsPayload(child)))
    ensures merged.Some? ==>
              && merged.value in parent.children && merged.value.key == child.key
              && merged.value.commands == old(merged.value.commands + child.commands)
    ensures forall n | n in parent.children && Some(n) != merged :: n.commands == old(n.commands)
  {
    if !parent.isTrack || child.commands == [] || child.key.None? {
      return None;
    }
    var k := FirstKeyed(Brief(parent.children), child.key.value);
    if k == |parent.children| {
      return None;
    }
    var existing := parent.children[k];
    existing.commands := existing.commands + child.commands;
    return Some(existing);
  }

  class OTIOPatcher {
    var objectMap: map<Guid, Node>
    var unresolvedCount: nat

    ghost var Repr: set<Node>

    ghost predicate Valid()
      reads this`objectMap, this`Repr, objectMap.Values`children
    {
      ValidIndex(objectMap, Repr)
    }

    ghost function View(): (g: Graph)
      reads this`objectMap, objectMap.Values`children
      ensures g.Keys == objectMap.Keys
    {
      GraphOf(objectMap)
    }

    constructor ()
      ensures Valid() && View() == map[] && Repr == {} && unresolvedCount == 0
    {
      objectMap, unresolvedCount, Repr := map[], 0, {};
    }

    /** The index built anew by a snapshot; what was unresolved is forgotten elsewhere. */
    method Rebuilt(objects: map<Guid, Node>, ghost repr: set<Node>)
      requires ValidIndex(objects, repr)
      modifies this`objectMap, this`Repr
      ensures Valid() && Repr == repr && objectMap == objects
      ensures View() == old(GraphOf(objects))
    {
      objectMap, Repr := objects, repr;
    }

    twostate lemma OneListChanged(p: Guid)
      requires old(Valid()) && p in objectMap && objectMap == old(objectMap)
      requires forall g | g in objectMap && objectMap[g] != objectMap[p] ::
                 objectMap[g].children == old(objectMap[g].children)
      ensures View() == WithChildren(old(View()), p, Brief(objectMap[p].children))
    {
      forall g | g in objectMap && g != p ensures View()[g] == old(View())[g] {
        assert objectMap[g].guid != objectMap[p].guid;
      }
    }

    method InsertChild(parentGuid: Guid, child: Node, index: int) returns (sent: bool)
      requires Valid() && child !in Repr
      modifies this`objectMap, this`Repr, objectMap.Values`children
      ensures Valid() && Repr == old(Repr + {child} + set n | n in child.children)
      ensures Edited(old(View()), Insert(parentGuid, old(AsPayload(child)), index), View(), sent)
    {
      if parentGuid !in objectMap {
        Repr := Repr + {child} + set n | n in child.children;
        return false;
      }
      var parent := objectMap[parentGuid];
      SameNodes(parent.children, index, 0, child);
      BriefInserts(parent.children, index, child);
      parent.children := InsertOrAppend(parent.children, index, child);
      OneListChanged(parentGuid);
      ghost var listed := View();
      objectMap, Repr := objectMap[child.guid := child], Repr + {child} + set n | n in child.children;
      assert View() == listed[child.guid := AsContainer(child)];
      return true;
    }

    method RemoveChild(parentGuid: Guid, childGuid: Guid) returns (sent: bool)
      requires Valid()
      modifies this`objectMap, objectMap.Values`children
      ensures Valid() && Repr == old(Repr)
      ensures Edited(old(View()), Remove(parentGuid, childGuid), View(), sent)
    {
      sent := false;
      if parentGuid in objectMap {
        var parent := objectMap[parentGuid];
        var k := FirstAt(Brief(parent.children), childGuid);
        if k < |parent.children| {
          SameNodes(parent.children, 0, k, parent);
          BriefRemoves(parent.children, k);
          parent.children := RemoveAt(parent.children, k);
          OneListChanged(parentGuid);
          objectMap := objectMap - {childGuid};
          sent := true;
        }
      }
    }

    method MoveChild(parentGuid: Guid, childGuid: Guid, toIndex: int) returns (sent: bool)
      requires Valid()
      modifies objectMap.Values`children
      ensures Valid() && Repr == old(Repr)
      ensures Edited(old(View()), Move(parentGuid, childGuid, toIndex), View(), sent)
    {
      sent := false;
      if parentGuid in objectMap {
        var parent := objectMap[parentGuid];
        var k := FirstAt(Brief(parent.children), childGuid);
        if k < |parent.children| && k != toIndex {
          SameNodes(parent.children, toIndex, k, parent.children[k]);
          BriefRemoves(parent.children, k);
          BriefInserts(RemoveAt(parent.children, k), toIndex, parent.children[k]);
          parent.children := Relocated(parent.children, k, toIndex, parent.children[k]);
          sent := true;
          OneListChanged(parentGuid);
        }
      }
    }

    method ApplyRemove(m: Message)
      requires Valid() && m.RemoveMessage?
      modifies this`objectMap, this`unresolvedCount, objectMap.Values`children
      ensures Valid() && View() == Remote(old(View()), m)
      ensures unresolvedCount == old(unresolvedCount) + if Missing(old(View()), m).Some? then 1 else 0
    {
      if m.parent !in objectMap {
        unresolvedCount := unresolvedCount + 1;
        return;
      }
      var _ := RemoveChild(m.parent, m.child);
    }

    method ApplyMove(m: Message)
      requires Valid() && m.MoveMessage?
      modifies this`objectMap, this`unresolvedCount, objectMap.Values`children
      ensures Valid() && View() == Remote(old(View()), m)
      ensures unresolvedCount == old(unresolvedCount) + if Missing(old(View()), m).Some? then 1 else 0
    {
      if m.parent !in objectMap || m.child !in objectMap {
        unresolvedCount := unresolvedCount + 1;
        return;
      }
      var parent, child := objectMap[m.parent], objectMap[m.child];
      var k := FirstAt(Brief(parent.children), m.child);
      if k < |parent.children| {
        SameNodes(parent.children, m.toIndex, k, child);
        BriefRemoves(parent.children, k);
        BriefInserts(RemoveAt(parent.children, k), m.toIndex, child);
        parent.children := Relocated(parent.children, k, m.toIndex, child);
        OneListChanged(m.parent);
      }
    }

    /** An insert from a peer, which only adds commands when the annotation clip is already there. */
    method ApplyInsert(m: Message, child: Node) returns (merged: Option<Node>)
      requires Valid() && m.InsertMessage? && m.payload == AsPayload(child) && child !in Repr
      modifies this, Repr
      ensures Repr == old(Repr + {child} + set n | n in child.children)
      ensures Valid() && View() == Remote(old(View()), m)
      ensures unresolvedCount == old(unresolvedCount) + if Missing(old(View()), m).Some? then 1 else 0
      ensures merged.Some? <==> Missing(old(View()), m).None? && Merges(old(View()), m.parent, m.payload)
      ensures merged.Some? ==>
                && merged.value in old(objectMap[m.parent].children) && merged.value.key == m.payload.item.key
                && merged.value.commands == old(merged.value.commands) + m.payload.commands
    {
      if m.parent !in objectMap {
        unresolvedCount, Repr := unresolvedCount + 1, Repr + {child} + set n | n in child.children;
        return None;
      }
      var parent := objectMap[m.parent];
      ghost var was := View();
      merged := TryMergeAnnotation(parent, child);
      assert View() == was && AsPayload(child) == m.payload && was[m.parent] == AsContainer(parent);
      if merged.None? {
        var _ := InsertChild(m.parent, child, m.index);
      } else {
        objectMap, Repr := objectMap[child.guid := child], Repr + {child} + set n | n in child.children;
      }
    }

    method ApplyPatch(m: Message)
      requires Valid()
      modifies this, Repr
      ensures fresh(Repr - old(Repr))
      ensures Valid() && View() == Remote(old(View()), m)
      ensures unresolvedCount == old(unresolvedCount) + if Missing(old(View()), m).Some? then 1 else 0
    {
      if m.InsertMessage? {
        var child := Deserialised(m.payload);
        var _ := ApplyInsert(m, child);
      } else if m.RemoveMessage? {
        ApplyRemove(m);
      } else {
        ApplyMove(m);
      }
    }
  }

  method Deserialised(payload: Payload) returns (n: Node)
    ensures fresh(n) && AsPayload(n) == payload && forall k | k in n.children :: fresh(k)
  {
    var kids: seq<Node> := [];
    for k := 0 to |payload.kids|
      invariant |kids| == k && Brief(kids) == payload.kids[..k] && forall n | n in kids :: fresh(n)
    {
      var kid := new Node(payload.kids[k].guid, false, payload.kids[k].key, [], []);
      kids := kids + [kid];
    }
    n := new Node(payload.item.guid, payload.isTrack, payload.item.key, kids, payload.commands);
  }
}
