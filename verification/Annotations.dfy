// Annotation tracks written by several peers: manager.py, broadcast_add_annotation and the merge on receipt.
module Annotations {
  import opened Basics
  import Patcher

  type Command = int
  type Key = (Guid, int)

  /** What an annotation track lists: the drawing on one frame of one clip, or a gap. */
  datatype Item =
    | Drawing(key: Key, commands: seq<Command>, duration: int)
    | Spacer(duration: int)

  type Track = seq<Item>

  // ------------------------------------------------------------------ reading a track

  /** _annotation_track_end. */
  method AnnotationTrackEnd(t: Track) returns (end: int)
    ensures end == TrackEnd(t)
  {
    end := 0;
    for n := 0 to |t|
      invariant end == TrackEnd(t[..n])
    {
      assert t[..n + 1][..n] == t[..n];
      end := end + t[n].duration;
    }
    assert t[..|t|] == t;
  }

  function TrackEnd(t: Track): int {
    if t == [] then 0 else TrackEnd(t[..|t| - 1]) + t[|t| - 1].duration
  }

  /** _find_annotation_clip_at: the first drawing with the key, or the length of the track. */
  method FindAnnotationClipAt(t: Track, key: Key) returns (k: nat)
    ensures k == FirstAt(t, key)
  {
    k := 0;
    while k < |t| && !IsFor(t[k], key)
      invariant k <= |t| && forall j | 0 <= j < k :: !IsFor(t[j], key)
    {
      k := k + 1;
    }
  }

  predicate IsFor(item: Item, key: Key) {
    item.Drawing? && item.key == key
  }

  function FirstAt(t: Track, key: Key): (k: nat)
    ensures k <= |t|
    ensures k < |t| ==> IsFor(t[k], key)
    ensures forall j | 0 <= j < k :: !IsFor(t[j], key)
  {
    if t == [] || IsFor(t[0], key) then 0 else 1 + FirstAt(t[1..], key)
  }

  /** How many drawings a track holds for a key. */
  function Drawings(t: Track, key: Key): nat {
    if t == [] then 0 else Drawings(t[..|t| - 1], key) + if IsFor(t[|t| - 1], key) then 1 else 0
  }

  /** All commands a track holds for a key. */
  function Drawn(t: Track, key: Key): multiset<Command> {
    if t == [] then multiset{}
    else
      var last := t[|t| - 1];
      Drawn(t[..|t| - 1], key) + if IsFor(last, key) then multiset(last.commands) else multiset{}
  }

  lemma {:induction false} HasDrawing(t: Track, key: Key)
    ensures Drawings(t, key) > 0 <==> FirstAt(t, key) < |t|
  {
    if t != [] {
      var init := t[..|t| - 1];
      HasDrawing(init, key);
      if FirstAt(init, key) < |init| {
      } else if IsFor(t[|t| - 1], key) {
      } else {
      }
    }
  }

  // ------------------------------------------------------------------ adding to a track

  function Extended(item: Item, commands: seq<Command>): Item
    requires item.Drawing?
  {
    item.(commands := item.commands + commands)
  }

  function DrawingOn(key: Key, commands: seq<Command>): Item {
    Drawing(key, commands, 1)
  }

  /** What committing a drawing does to the sender's track. */
  function Committed(t: Track, key: Key, commands: seq<Command>): Track {
    var k := FirstAt(t, key);
    if k < |t| then t[k := Extended(t[k], commands)]
    else
      var gap := if key.1 > TrackEnd(t) then [Spacer(key.1 - TrackEnd(t))] else [];
      t + gap + [DrawingOn(key, commands)]
  }

  /** The items it broadcasts, one insert message each. */
  function Announced(t: Track, key: Key, commands: seq<Command>): seq<Item> {
    if FirstAt(t, key) < |t| || key.1 <= TrackEnd(t) then [DrawingOn(key, commands)]
    else [Spacer(key.1 - TrackEnd(t)), DrawingOn(key, commands)]
  }

  /** What an insert message at the end does to a receiver's track. */
  function Received(t: Track, item: Item): Track {
    if item.Drawing? && item.commands != [] && FirstAt(t, item.key) < |t|
    then t[FirstAt(t, item.key) := Extended(t[FirstAt(t, item.key)], item.commands)]
    else t + [item]
  }

  /** The messages one after another. */
  function ReceivedAll(t: Track, items: seq<Item>): Track {
    if items == [] then t else Received(ReceivedAll(t, items[..|items| - 1]), items[|items| - 1])
  }

  // ------------------------------------------------------------------ where a drawing goes

  ghost predicate NoDrawingFor(t: Track, key: Key) {
    forall i | 0 <= i < |t| :: !(t[i].Drawing? && t[i].key == key)
  }

  function Durations(t: Track): seq<int> {
    seq(|t|, i requires 0 <= i < |t| => t[i].duration)
  }

  lemma {:induction false} EndIsSum(t: Track)
    ensures TrackEnd(t) == Sum(Durations(t))
  {
    if t != [] {
      EndIsSum(t[..|t| - 1]);
      assert Durations(t)[..|t| - 1] == Durations(t[..|t| - 1]);
    }
  }

  /**
   * The first drawing for a key comes last, behind what was there and at most one gap, on its own frame unless the
   * track already ends past that. What is sent is what was appended.
   */
  ghost predicate PlacedLast(before: Track, after: Track, sent: seq<Item>, key: Key, commands: seq<Command>) {
    && after == before + sent && 1 <= |sent| <= 2 && sent[|sent| - 1] == Drawing(key, commands, 1)
    && (|sent| == 2 ==> sent[0].Spacer? && sent[0].duration > 0)
    && Sum(Durations(after[..|after| - 1]))
       == if Sum(Durations(before)) > key.1 then Sum(Durations(before)) else key.1
  }

  /** A later one goes behind the commands of the first drawing with its key, and is sent alone. */
  ghost predicate MergedInto(before: Track, after: Track, sent: seq<Item>, key: Key, commands: seq<Command>, k: nat) {
    && k < |before| && before[k].Drawing? && before[k].key == key && NoDrawingFor(before[..k], key)
    && after == before[k := Drawing(key, before[k].commands + commands, before[k].duration)]
    && sent == [Drawing(key, commands, 1)]
  }

  lemma {:induction false} CommitPlaces(t: Track, key: Key, commands: seq<Command>)
    ensures var u, sent := Committed(t, key, commands), Announced(t, key, commands);
            if NoDrawingFor(t, key) then PlacedLast(t, u, sent, key, commands)
            else exists k: nat :: MergedInto(t, u, sent, key, commands, k)
  {
    var k := FirstAt(t, key);
    if NoDrawingFor(t, key) {
      assert k == |t|;
      FirstComesLast(t, key, commands);
    } else {
      assert MergedInto(t, Committed(t, key, commands), Announced(t, key, commands), key, commands, k);
    }
  }

  lemma {:induction false} FirstComesLast(t: Track, key: Key, commands: seq<Command>)
    requires FirstAt(t, key) == |t|
    ensures PlacedLast(t, Committed(t, key, commands), Announced(t, key, commands), key, commands)
  {
    var u := Committed(t, key, commands);
    CommitMovesEnd(t, key, commands);
    EndIsSum(t);
    EndIsSum(u[..|u| - 1]);
  }

  /**
   * A receiver with the sender's track that takes in what is sent ends with the sender's track, exactly when the
   * drawing is the first for its key or has commands.
   */
  lemma {:induction false} ReceiverFollowsIff(t: Track, key: Key, commands: seq<Command>)
    ensures ReceivedAll(t, Announced(t, key, commands)) == Committed(t, key, commands)
       <==> NoDrawingFor(t, key) || commands != []
  {
    var sent, k := Announced(t, key, commands), FirstAt(t, key);
    assert NoDrawingFor(t, key) <==> k == |t|;
    if |sent| == 2 {
      assert sent[..1] == [sent[0]] && [sent[0]][..0] == [];
      assert ReceivedAll(t, sent[..1]) == t + [sent[0]];
      assert forall j | 0 <= j <= |t| :: !IsFor((t + [sent[0]])[j], key);
    } else {
      assert sent[..0] == [];
      assert ReceivedAll(t, sent) == Received(t, sent[0]);
      assert t + [] == t;
    }
  }

  class AnnotationTrack {
    var items: Track

    constructor (items: Track)
      ensures this.items == items
    {
      this.items := items;
    }

    /** broadcast_add_annotation, past its gates. */
    method AddAnnotation(key: Key, commands: seq<Command>) returns (sent: seq<Item>)
      modifies this
      ensures items == Committed(old(items), key, commands) && sent == Announced(old(items), key, commands)
      ensures if NoDrawingFor(old(items), key) then PlacedLast(old(items), items, sent, key, commands)
              else exists k: nat :: MergedInto(old(items), items, sent, key, commands, k)
      ensures ReceivedAll(old(items), sent) == items <==> NoDrawingFor(old(items), key) || commands != []
    {
      CommitPlaces(items, key, commands);
      ReceiverFollowsIff(items, key, commands);
      var k := FindAnnotationClipAt(items, key);
      if k < |items| {
        items := items[k := items[k].(commands := items[k].commands + commands)];
        return [Drawing(key, commands, 1)];
      }
      var end := AnnotationTrackEnd(items);
      sent := [];
      if key.1 > end {
        items, sent := items + [Spacer(key.1 - end)], [Spacer(key.1 - end)];
      }
      items, sent := items + [Drawing(key, commands, 1)], sent + [Drawing(key, commands, 1)];
    }

    /** An insert message from a peer. */
    method ApplyInsert(item: Item)
      modifies this
      ensures items == Received(old(items), item)
    {
      if item.Drawing? && item.commands != [] {
        var k := FindAnnotationClipAt(items, item.key);
        if k < |items| {
          items := items[k := items[k].(commands := items[k].commands + item.commands)];
          return;
        }
      }
      items := items + [item];
    }
  }

  lemma {:induction false} SameEnd(t: Track, k: nat, item: Item)
    requires k < |t| && item.duration == t[k].duration
    ensures TrackEnd(t[k := item]) == TrackEnd(t)
  {
    if k == |t| - 1 {
      assert t[k := item][..|t| - 1] == t[..|t| - 1];
    } else {
      SameEnd(t[..|t| - 1], k, item);
      assert t[k := item][..|t| - 1] == t[..|t| - 1][k := item];
    }
  }

  /** A drawing on a new frame ends the track one frame past it, or one past the old end if that is later. */
  lemma {:induction false} CommitMovesEnd(t: Track, key: Key, commands: seq<Command>)
    ensures FirstAt(t, key) == |t| ==>
              TrackEnd(Committed(t, key, commands)) == (if TrackEnd(t) > key.1 then TrackEnd(t) else key.1) + 1
    ensures FirstAt(t, key) < |t| ==> TrackEnd(Committed(t, key, commands)) == TrackEnd(t)
  {
    var k := FirstAt(t, key);
    if k < |t| {
      SameEnd(t, k, Extended(t[k], commands));
    } else if key.1 > TrackEnd(t) {
      var gap := Spacer(key.1 - TrackEnd(t));
    } else {
      assert t + [] == t;
    }
  }

  // ------------------------------------------------------------------ one step

  lemma AddedLast(t: Track, item: Item, key: Key)
    ensures Drawings(t + [item], key) == Drawings(t, key) + if IsFor(item, key) then 1 else 0
    ensures Drawn(t + [item], key) == Drawn(t, key) + if IsFor(item, key) then multiset(item.commands) else multiset{}
  {
    assert (t + [item])[..|t|] == t;
  }

  lemma ExtendedLast(init: Track, last: Item, commands: seq<Command>, key: Key)
    requires last.Drawing?
    ensures Drawings(init + [Extended(last, commands)], key) == Drawings(init + [last], key)
    ensures Drawn(init + [Extended(last, commands)], key)
         == Drawn(init + [last], key) + if last.key == key then multiset(commands) else multiset{}
  {
    AddedLast(init, last, key);
    AddedLast(init, Extended(last, commands), key);
    assert multiset(last.commands + commands) == multiset(last.commands) + multiset(commands);
  }

  lemma {:induction false} ExtendedAt(t: Track, k: nat, commands: seq<Command>, key: Key)
    requires k < |t| && t[k].Drawing?
    ensures var u := t[k := Extended(t[k], commands)];
            && Drawings(u, key) == Drawings(t, key)
            && Drawn(u, key) == Drawn(t, key) + if t[k].key == key then multiset(commands) else multiset{}
  {
    var init, last := t[..|t| - 1], t[|t| - 1];
    assert t == init + [last];
    if k == |t| - 1 {
      ExtendedLast(init, last, commands, key);
      assert t[k := Extended(t[k], commands)] == init + [Extended(last, commands)];
    } else {
      var v := init[k := Extended(init[k], commands)];
      ExtendedAt(init, k, commands, key);
      assert t[k := Extended(t[k], commands)] == v + [last];
      AddedLast(init, last, key);
      AddedLast(v, last, key);
    }
  }

  /** Committing adds the commands to the drawing for their key, and to nothing else. */
  lemma CommitAdds(t: Track, added: Key, commands: seq<Command>, key: Key)
    ensures var u := Committed(t, added, commands);
            && Drawn(u, key) == Drawn(t, key) + (if key == added then multiset(commands) else multiset{})
            && Drawings(u, key) == if key == added && Drawings(t, key) == 0 then 1 else Drawings(t, key)
  {
    HasDrawing(t, added);
    var k := FirstAt(t, added);
    if k < |t| {
      ExtendedAt(t, k, commands, key);
    } else if added.1 > TrackEnd(t) {
      var gap := Spacer(added.1 - TrackEnd(t));
      AddedLast(t, gap, key);
      AddedLast(t + [gap], DrawingOn(added, commands), key);
    } else {
      assert t + [] == t;
      AddedLast(t, DrawingOn(added, commands), key);
    }
  }

  /** Receiving a drawing does the same, except that one without commands always becomes a drawing of its own. */
  lemma ReceiveAdds(t: Track, item: Item, key: Key)
    ensures var u := Received(t, item);
            && Drawn(u, key) == Drawn(t, key) + (if IsFor(item, key) then multiset(item.commands) else multiset{})
            && Drawings(u, key) == Drawings(t, key)
                 + if IsFor(item, key) && (Drawings(t, key) == 0 || item.commands == []) then 1 else 0
  {
    if item.Drawing? {
      HasDrawing(t, item.key);
      if item.commands != [] && FirstAt(t, item.key) < |t| {
        ExtendedAt(t, FirstAt(t, item.key), item.commands, key);
      } else {
        AddedLast(t, item, key);
      }
    } else {
      AddedLast(t, item, key);
    }
  }

  ghost predicate OneDrawingEach(t: Track) {
    forall key: Key :: Drawings(t, key) <= 1
  }

  /** An arriving drawing breaks the rule of one drawing a frame exactly when it is empty and not the first. */
  lemma DuplicateIff(t: Track, item: Item)
    requires OneDrawingEach(t)
    ensures OneDrawingEach(Received(t, item))
       <==> !(item.Drawing? && item.commands == [] && FirstAt(t, item.key) < |t|)
  {
    forall key: Key ensures Drawings(Received(t, item), key) <= 1
                      <==> !(IsFor(item, key) && item.commands == [] && Drawings(t, key) == 1)
    {
      ReceiveAdds(t, item, key);
    }
    if item.Drawing? {
      HasDrawing(t, item.key);
      assert IsFor(item, item.key);
    }
  }

  // ------------------------------------------------------------------ many writers

  /** What happens to one replica: a drawing committed here, or an insert message from elsewhere. */
  datatype Step = Here(key: Key, commands: seq<Command>) | There(item: Item)

  function Stepped(t: Track, s: Step): Track {
    match s
    case Here(key, commands) => Committed(t, key, commands)
    case There(item) => Received(t, item)
  }

  function Replica(t: Track, steps: seq<Step>): Track {
    if steps == [] then t else Stepped(Replica(t, steps[..|steps| - 1]), steps[|steps| - 1])
  }

  /** Every drawing that travels has commands. */
  predicate Substantial(s: Step) {
    match s
    case Here(_, commands) => commands != []
    case There(item) => item.Drawing? ==> item.commands != []
  }

  /** The drawing a step adds, wherever it was made. */
  function Addition(s: Step): Option<(Key, seq<Command>)> {
    match s
    case Here(key, commands) => Some((key, commands))
    case There(Drawing(key, commands, _)) => Some((key, commands))
    case There(Spacer(_)) => None
  }

  /** That drawing alone, if there is one. */
  function Given(s: Step): multiset<(Key, seq<Command>)> {
    match Addition(s) case None => multiset{} case Some(a) => multiset{a}
  }

  function Additions(steps: seq<Step>): multiset<(Key, seq<Command>)> {
    if steps == [] then multiset{}
    else
      Additions(steps[..|steps| - 1]) + Given(steps[|steps| - 1])
  }

  /** The commands a collection of additions holds for a key, added up in some order. */
  function Total(steps: seq<Step>, key: Key): multiset<Command> {
    if steps == [] then multiset{} else Total(steps[..|steps| - 1], key) + Share(steps[|steps| - 1], key)
  }

  function Share(s: Step, key: Key): multiset<Command> {
    match Addition(s)
    case None => multiset{}
    case Some((k, commands)) => if k == key then multiset(commands) else multiset{}
  }

  /**
   * On every replica and in any order of local drawings and arrivals: at most one drawing for each key, holding
   * the union of all commands added for that key, and present exactly when one was there or was added.
   */
  lemma {:induction false} ReplicaHoldsTheUnion(t: Track, steps: seq<Step>, key: Key)
    requires OneDrawingEach(t) && forall s | s in steps :: Substantial(s)
    ensures Drawings(Replica(t, steps), key) <= 1
    ensures Drawn(Replica(t, steps), key) == Drawn(t, key) + Total(steps, key)
    ensures Drawings(Replica(t, steps), key) == 1 <==> Drawings(t, key) == 1 || Total(steps, key) != multiset{}
  {
    if steps != [] {
      var init, last := steps[..|steps| - 1], steps[|steps| - 1];
      ReplicaHoldsTheUnion(t, init, key);
      assert last in steps;
      StepAdds(Replica(t, init), last, key);
    }
  }

  lemma StepAdds(t: Track, s: Step, key: Key)
    requires Substantial(s)
    ensures Drawn(Stepped(t, s), key) == Drawn(t, key) + Share(s, key)
    ensures Drawings(Stepped(t, s), key)
         == if Share(s, key) != multiset{} && Drawings(t, key) == 0 then 1 else Drawings(t, key)
  {
    match s
    case Here(added, commands) =>
      assert commands[0] in multiset(commands);
      CommitAdds(t, added, commands, key);
    case There(item) =>
      if item.Drawing? {
        assert item.commands[0] in multiset(item.commands);
      }
      ReceiveAdds(t, item, key);
  }

  /** The total depends on which drawings were added, not on the order, nor on who made them. */
  lemma {:induction false} TotalIgnoresOrder(a: seq<Step>, b: seq<Step>, key: Key)
    requires Additions(a) == Additions(b)
    ensures Total(a, key) == Total(b, key)
    decreases |a| + |b|
  {
    if a == [] {
      NothingAdded(b, key);
    } else if b == [] {
      NothingAdded(a, key);
    } else {
      var init, last := a[..|a| - 1], a[|a| - 1];
      match Addition(last) {
        case None =>
          TotalIgnoresOrder(init, b, key);
        case Some(added) =>
          assert added in Additions(b);
          var without := TakeOut(b, added, key);
          TotalIgnoresOrder(init, without, key);
      }
    }
  }

  lemma {:induction false} NothingAdded(steps: seq<Step>, key: Key)
    requires Additions(steps) == multiset{}
    ensures Total(steps, key) == multiset{}
  {
    if steps != [] {
      assert Additions(steps[..|steps| - 1]) <= Additions(steps);
      NothingAdded(steps[..|steps| - 1], key);
    }
  }

  lemma {:induction false} StillOut(
    init: seq<Step>, rest: seq<Step>, last: Step, added: (Key, seq<Command>), share: multiset<Command>, key: Key)
    requires added in Additions(init) && Additions(rest) == Additions(init) - multiset{added}
    requires Total(init, key) == Total(rest, key) + share
    ensures Additions(rest + [last]) == Additions(init + [last]) - multiset{added}
    ensures Total(init + [last], key) == Total(rest + [last], key) + share
  {
    OneMoreStep(init, last, key);
    OneMoreStep(rest, last, key);
    AddThenTake(Additions(init), added, Given(last));
    AddBoth(Total(rest, key), share, Share(last, key));
  }

  lemma AddThenTake<T>(all: multiset<T>, one: T, more: multiset<T>)
    requires one in all
    ensures all - multiset{one} + more == all + more - multiset{one}
  {
  }

  lemma AddBoth<T>(all: multiset<T>, some: multiset<T>, more: multiset<T>)
    ensures all + some + more == all + more + some
  {
  }

  lemma {:induction false} OneMoreStep(steps: seq<Step>, last: Step, key: Key)
    ensures Total(steps + [last], key) == Total(steps, key) + Share(last, key)
    ensures Additions(steps + [last]) == Additions(steps) + Given(last)
  {
    assert (steps + [last])[..|steps|] == steps;
  }

  lemma {:induction false} TakeOut(steps: seq<Step>, added: (Key, seq<Command>), key: Key) returns (without: seq<Step>)
    requires added in Additions(steps)
    ensures |without| < |steps| && Additions(without) == Additions(steps) - multiset{added}
    ensures Total(steps, key) == Total(without, key) + if added.0 == key then multiset(added.1) else multiset{}
  {
    var init, last := steps[..|steps| - 1], steps[|steps| - 1];
    assert steps == init + [last];
    if Addition(last) == Some(added) {
      without := init;
    } else {
      var rest := TakeOut(init, added, key);
      without := rest + [last];
      StillOut(init, rest, last, added, if added.0 == key then multiset(added.1) else multiset{}, key);
    }
  }

  /** Replicas that start alike and take in the same drawings end with the same drawings, whatever the order. */
  lemma {:induction false} ReplicasConverge(t: Track, a: seq<Step>, b: seq<Step>)
    requires OneDrawingEach(t) && forall s | s in a + b :: Substantial(s)
    requires Additions(a) == Additions(b)
    ensures OneDrawingEach(Replica(t, a)) && OneDrawingEach(Replica(t, b))
    ensures forall key: Key ::
              && Drawings(Replica(t, a), key) == Drawings(Replica(t, b), key)
              && Drawn(Replica(t, a), key) == Drawn(Replica(t, b), key)
  {
    forall key: Key
      ensures && Drawings(Replica(t, a), key) == Drawings(Replica(t, b), key) <= 1
              && Drawn(Replica(t, a), key) == Drawn(Replica(t, b), key)
    {
      assert forall s | s in a :: s in a + b;
      assert forall s | s in b :: s in a + b;
      ReplicaHoldsTheUnion(t, a, key);
      ReplicaHoldsTheUnion(t, b, key);
      TotalIgnoresOrder(a, b, key);
    }
  }

  /** What the sender announces adds to every receiver exactly the drawing that the sender committed. */
  lemma AnnouncedIsTheAddition(t: Track, key: Key, commands: seq<Command>)
    ensures var steps := seq(|Announced(t, key, commands)|,
                             i requires 0 <= i < |Announced(t, key, commands)| => There(Announced(t, key, commands)[i]));
            Additions(steps) == Additions([Here(key, commands)])
  {
  }

  // ------------------------------------------------------------------ the same merge in the patcher

  function KeyOf(item: Item): Option<Key> {
    if item.Drawing? then Some(item.key) else None
  }

  /** The track as the patcher's index lists it, given the GUIDs of its items. */
  function AsListed(t: Track, guids: seq<Guid>): seq<Patcher.Child>
    requires |guids| == |t|
  {
    seq(|t|, i requires 0 <= i < |t| => Patcher.Child(guids[i], KeyOf(t[i])))
  }

  lemma SameFirst(t: Track, guids: seq<Guid>, key: Key)
    requires |guids| == |t|
    ensures FirstAt(t, key) == Patcher.FirstKeyed(AsListed(t, guids), key)
  {
    var k, listed := Patcher.FirstKeyed(AsListed(t, guids), key), AsListed(t, guids);
    assert forall j | 0 <= j < |t| :: IsFor(t[j], key) <==> listed[j].key == Some(key);
  }

  /** A receipt on the track is the patcher's insert on the index: merged by the same test, listed at the same place. */
  lemma ReceiptIsThePatch(t: Track, guids: seq<Guid>, parent: Guid, guid: Guid, item: Item)
    requires |guids| == |t| && guid != parent
    ensures var g := map[parent := Patcher.Container(true, None, AsListed(t, guids))];
            var payload := Patcher.Payload(Patcher.Child(guid, KeyOf(item)), false, [], if item.Drawing? then item.commands else []);
            var merges := Patcher.Merges(g, parent, payload);
            && (merges <==> |Received(t, item)| == |t|)
            && Patcher.Remote(g, Patcher.InsertMessage(parent, payload, -1))[parent].children
               == AsListed(Received(t, item), if merges then guids else guids + [guid])
  {
    if item.Drawing? {
      SameFirst(t, guids, item.key);
    }
  }
}
