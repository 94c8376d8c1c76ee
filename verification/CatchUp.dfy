// Catching up with a session: manager.py, the snapshot, the buffer and the filtered replay, against the sender's run.
module CatchUp {
  import opened Basics
  import opened Walking
  import opened Patcher
  import opened Snapshots
  import opened JoinerGraph
  import opened Acts
  import opened Joining

  // ------------------------------------------------------------------ catching up

  /** One act of the sender, with the stamp its message carries. */
  datatype Stamped = Stamped(at: real, act: Act)

  function ActsOf(history: seq<Stamped>): seq<Act> {
    seq(|history|, i requires 0 <= i < |history| => history[i].act)
  }

  ghost predicate InStampOrder(history: seq<Stamped>) {
    forall i, j | 0 <= i <= j < |history| :: history[i].at <= history[j].at
  }

  /** How many acts of the history are in a snapshot stamped t. */
  function Covered(history: seq<Stamped>, t: real): (n: nat)
    ensures n <= |history|
  {
    if history == [] || history[0].at > t then 0 else 1 + Covered(history[1..], t)
  }

  /** The structural news in a buffer, with the stamps. */
  function NewsIn(buffer: seq<Envelope>): seq<(real, News)> {
    if buffer == [] then []
    else
      var last := buffer[|buffer| - 1];
      NewsIn(buffer[..|buffer| - 1]) + if last.body.StructureBody? then [(StampOf(last), last.body.news)] else []
  }

  function Sent(history: seq<Stamped>): seq<(real, News)> {
    seq(|history|, i requires 0 <= i < |history| => (history[i].at, WireOf(history[i].act)))
  }

  function NewerOf(patches: seq<(real, News)>, t: real): seq<News> {
    if patches == [] then []
    else
      var last := patches[|patches| - 1];
      NewerOf(patches[..|patches| - 1], t) + if last.0 > t then [last.1] else []
  }

  lemma {:induction false} NewerLooksAtNews(buffer: seq<Envelope>, t: real)
    ensures Newer(buffer, t) == NewerOf(NewsIn(buffer), t)
  {
    if buffer != [] {
      var init, last := buffer[..|buffer| - 1], buffer[|buffer| - 1];
      NewerLooksAtNews(init, t);
      if last.body.StructureBody? {
        assert NewsIn(buffer) == NewsIn(init) + [(StampOf(last), last.body.news)];
        assert NewsIn(buffer)[..|NewsIn(buffer)| - 1] == NewsIn(init);
      } else {
        assert NewsIn(buffer) == NewsIn(init);
      }
    }
  }

  lemma {:induction false} CoveredIsAPrefix(history: seq<Stamped>, t: real)
    requires InStampOrder(history)
    ensures forall i | 0 <= i < |history| :: history[i].at <= t <==> i < Covered(history, t)
  {
    if history != [] && history[0].at <= t {
      CoveredIsAPrefix(history[1..], t);
      assert forall i | 0 < i < |history| :: history[i] == history[1..][i - 1];
    }
  }

  lemma SentOneMore(history: seq<Stamped>, s: Stamped)
    ensures Sent(history + [s]) == Sent(history) + [(s.at, WireOf(s.act))]
  {
  }

  lemma CutStep(before: seq<Stamped>, rest: seq<Stamped>, s: Stamped, t: real)
    requires NewerOf(Sent(before), t) == WireOfAll(ActsOf(rest))
    ensures NewerOf(Sent(before + [s]), t) == WireOfAll(ActsOf(if s.at > t then rest + [s] else rest))
  {
    SentOneMore(before, s);
  }

  lemma UncoveredOneMore(history: seq<Stamped>, upTo: nat, t: real)
    requires InStampOrder(history) && 0 < upTo <= |history|
    ensures var s, before := history[upTo - 1], Uncovered(history, upTo - 1, t);
            Uncovered(history, upTo, t) == if s.at > t then before + [s] else before
  {
    CoveredIsAPrefix(history, t);
  }

  /** Filtering by stamp cuts an ordered stream in two: all that the snapshot holds goes, all the rest stays. */
  lemma {:induction false} FilterCuts(history: seq<Stamped>, from: nat, upTo: nat, t: real)
    requires InStampOrder(history) && from <= Covered(history, t) && from <= upTo <= |history|
    ensures NewerOf(Sent(history[from..upTo]), t) == WireOfAll(ActsOf(Uncovered(history, upTo, t)))
    decreases upTo
  {
    CoveredIsAPrefix(history, t);
    if from < upTo {
      var before, s := history[from..upTo - 1], history[upTo - 1];
      FilterCuts(history, from, upTo - 1, t);
      assert history[from..upTo] == before + [s];
      CutStep(before, Uncovered(history, upTo - 1, t), s, t);
      UncoveredOneMore(history, upTo, t);
    }
  }

  /** The acts before upTo that a snapshot stamped t does not hold. */
  function Uncovered(history: seq<Stamped>, upTo: nat, t: real): seq<Stamped>
    requires upTo <= |history|
  {
    if Covered(history, t) <= upTo then history[Covered(history, t)..upTo] else []
  }

  /** The sender after the acts that a snapshot stamped t holds. */
  function CoveredRun(initial: Peer, history: seq<Stamped>, t: real): Option<Peer> {
    DoneAll(initial, ActsOf(history[..Covered(history, t)]))
  }

  /** What the acts behind those make of it. */
  function LaterRun(initial: Peer, history: seq<Stamped>, t: real): Option<Peer> {
    if CoveredRun(initial, history, t).None? then None
    else DoneAll(CoveredRun(initial, history, t).value, ActsOf(history[Covered(history, t)..]))
  }

  /**
   * The buffer of a joiner, among whatever leaves the structure alone: the news of an unbroken tail of the history that
   * starts inside the snapshot, behind any leftovers that are no newer than the snapshot. A recovery that was not
   * answered leaves such a stretch behind.
   */
  ghost predicate Buffers(
    buffer: seq<Envelope>, history: seq<Stamped>, t: real, leftover: seq<(real, News)>, from: nat)
  {
    && from <= Covered(history, t) && NewsIn(buffer) == leftover + Sent(history[from..])
    && forall n | n in leftover :: n.0 <= t
  }

  /** The sender's run that a snapshot stamped t, carrying these timelines, was taken from. */
  ghost predicate SnapshotOf(initial: Peer, history: seq<Stamped>, t: real, timelines: seq<Carried>) {
    && InStampOrder(history) && DoneAll(initial, ActsOf(history)).Some?
    && AllRepeat(initial, ActsOf(history))
    && CoveredRun(initial, history, t).Some? && LaterRun(initial, history, t).Some?
    && var sender := CoveredRun(initial, history, t).value;
       AllDepict(sender.graph, timelines) && RegisteredIn(timelines) == sender.timelines
  }

  /** What the joiner has once the snapshot is applied and the buffer replayed. */
  function Joined(timelines: seq<Carried>, buffer: seq<Envelope>, t: real): Peer {
    ReceivedAll(RebuiltPeer(timelines), Newer(buffer, t))
  }

  /**
   * A joiner catches up. The sender edits and announces timelines, with stamps that never run back; the snapshot
   * stamped t carries its own timelines after what was stamped up to t. Each later act is applied once and in order,
   * each earlier one left out, and the joiner ends in step: with the sender's timelines registered, and from every
   * root it knows with the sender's trees, object by object.
   */
  lemma {:induction false} JoinerCatchesUp(
    initial: Peer, history: seq<Stamped>, t: real, timelines: seq<Carried>,
    leftover: seq<(real, News)>, from: nat, buffer: seq<Envelope>)
    requires SnapshotOf(initial, history, t, timelines) && Buffers(buffer, history, t, leftover, from)
    requires AllFit(RebuiltPeer(timelines), CoveredRun(initial, history, t).value, ActsOf(history[Covered(history, t)..]))
    ensures var joined, sender := Joined(timelines, buffer, t), DoneAll(initial, ActsOf(history)).value;
            && PeersInStep(joined, sender)
            && forall root, path | root in joined.graph :: ReachesAlike(joined.graph, sender.graph, root, path)
  {
    var m := Covered(history, t);
    var j, s := RebuiltPeer(timelines), CoveredRun(initial, history, t).value;
    ActsSplit(history, m);
    DoneInParts(initial, ActsOf(history), m);
    NewerIsTheRest(history, t, leftover, from, buffer);
    RebuildInStep(s.graph, timelines);
    RunKeepsInStep(j, s, ActsOf(history[m..]));
    var joined, sender := Joined(timelines, buffer, t), DoneAll(initial, ActsOf(history)).value;
    forall root, path | root in joined.graph ensures ReachesAlike(joined.graph, sender.graph, root, path) {
      TreesAreAlike(joined.graph, sender.graph, root, path);
    }
  }

  /**
   * The same with nothing assumed of the joiner, in sessions with clip timelines too: every act behind the snapshot
   * brings only GUIDs that the session has not used, but for known objects that a new timeline shares as they are.
   * No root that nothing lists is lost.
   */
  lemma {:induction false} FreshJoinerCatchesUp(
    initial: Peer, history: seq<Stamped>, t: real, timelines: seq<Carried>,
    leftover: seq<(real, News)>, from: nat, buffer: seq<Envelope>, used: set<Guid>)
    requires SnapshotOf(initial, history, t, timelines) && Buffers(buffer, history, t, leftover, from)
    requires var s := CoveredRun(initial, history, t).value;
             && Covers(used, RebuiltFrom(timelines), s.graph)
             && AllFresh(used, s, ActsOf(history[Covered(history, t)..]))
    ensures var joined, sender := Joined(timelines, buffer, t), DoneAll(initial, ActsOf(history)).value;
            && PeersInStep(joined, sender)
            && (forall root, path | root in joined.graph :: ReachesAlike(joined.graph, sender.graph, root, path))
            && forall c | c in timelines && c.tree.guid in CoveredRun(initial, history, t).value.graph
                          && Unlisted(CoveredRun(initial, history, t).value.graph, c.tree.guid) ::
                 c.tree.guid in joined.graph && c.tree.guid in sender.graph
  {
    var m := Covered(history, t);
    var j, s := RebuiltPeer(timelines), CoveredRun(initial, history, t).value;
    ActsSplit(history, m);
    DoneInParts(initial, ActsOf(history), m);
    RebuildInStep(s.graph, timelines);
    RootsAreRebuilt(timelines);
    FreshRunsFit(used, j, s, ActsOf(history[m..]));
    NewerIsTheRest(history, t, leftover, from, buffer);
    JoinerCatchesUp(initial, history, t, timelines, leftover, from, buffer);
  }

  /** A history of edits alone. */
  ghost predicate OnlyEdits(history: seq<Stamped>) {
    forall s | s in history :: s.act.Edited?
  }

  function EditsOf(history: seq<Stamped>): seq<Edit>
    requires OnlyEdits(history)
  {
    seq(|history|, i requires 0 <= i < |history| => assert history[i] in history; history[i].act.edit)
  }

  /**
   * For a sound sender that only edits, with care, the joiner ends with exactly the part of the sender's index that its
   * trees reach: it knows every root, it lists alike whatever it knows, and it knows whatever it lists.
   */
  lemma {:induction false} CarefulJoinerCatchesUp(
    initial: Graph, history: seq<Stamped>, t: real, timelines: seq<Carried>,
    leftover: seq<(real, News)>, from: nat, buffer: seq<Envelope>)
    requires Sound(initial) && InStampOrder(history) && OnlyEdits(history) && OnlyEdits(history[..Covered(history, t)])
    requires LocalRun(initial, EditsOf(history)).Some? && AllCareful(initial, EditsOf(history))
    requires Buffers(buffer, history, t, leftover, from)
    requires var covered := LocalRun(initial, EditsOf(history[..Covered(history, t)]));
             covered.Some? && AllDepict(covered.value, timelines) && RootsStand(covered.value, timelines)
    ensures var joined, g := Joined(timelines, buffer, t).graph, LocalRun(initial, EditsOf(history)).value;
            Restricts(joined, g) && forall c | c in timelines :: c.tree.guid in joined
  {
    var m := Covered(history, t);
    var h, g := RebuiltFrom(timelines), LocalRun(initial, EditsOf(history[..m])).value;
    assert forall s | s in history[m..] :: s in history;
    assert EditsOf(history[..m]) == EditsOf(history)[..m] && EditsOf(history[m..]) == EditsOf(history)[m..];
    CarefulRunSplits(initial, EditsOf(history), m);
    NewerIsTheRest(history, t, leftover, from, buffer);
    SoundSnapshotRestricts(g, timelines);
    RootsAreRebuilt(timelines);
    CarefulRunKeepsRestricts(h, g, EditsOf(history[m..]));
    PatchesAlone(RebuiltPeer(timelines), history[m..]);
  }

  lemma {:induction false} PatchesAlone(s: Peer, history: seq<Stamped>)
    requires OnlyEdits(history)
    ensures ReceivedAll(s, WireOfAll(ActsOf(history))).graph == RemoteRun(s.graph, WireAll(EditsOf(history)))
    decreases |history|
  {
    if history != [] {
      assert history[0] in history && forall x | x in history[1..] :: x in history;
      var news, messages := WireOfAll(ActsOf(history)), WireAll(EditsOf(history));
      assert news[1..] == WireOfAll(ActsOf(history[1..])) && messages[1..] == WireAll(EditsOf(history[1..]));
      PatchesAlone(Received(s, news[0]), history[1..]);
    }
  }

  lemma RootsAreRebuilt(timelines: seq<Carried>)
    ensures forall c | c in timelines :: c.tree.guid in RebuiltFrom(timelines)
  {
    RebuiltHolds(timelines);
    forall c | c in timelines ensures c.tree.guid in RebuiltFrom(timelines) {
      assert c.tree in Walk(c.tree);
      assert Carries(timelines, c.tree);
    }
  }

  lemma {:induction false} CarefulRunSplits(g: Graph, edits: seq<Edit>, m: nat)
    requires m <= |edits| && Sound(g) && LocalRun(g, edits).Some? && AllCareful(g, edits)
    ensures LocalRun(g, edits[..m]).Some? && Sound(LocalRun(g, edits[..m]).value)
    ensures LocalRun(LocalRun(g, edits[..m]).value, edits[m..]) == LocalRun(g, edits)
    ensures AllCareful(LocalRun(g, edits[..m]).value, edits[m..])
    decreases |edits|
  {
    if m == 0 {
      assert edits[0..] == edits;
    } else {
      CarefulEditsAgree(g, edits[0]);
      CarefulRunSplits(Local(g, edits[0]).value, edits[1..], m - 1);
      assert edits[..m][1..] == edits[1..][..m - 1] && edits[1..][m - 1..] == edits[m..];
    }
  }

  lemma ActsSplit(history: seq<Stamped>, m: nat)
    requires m <= |history|
    ensures ActsOf(history[..m]) == ActsOf(history)[..m] && ActsOf(history[m..]) == ActsOf(history)[m..]
  {
  }

  lemma {:induction false} NewerInParts(a: seq<(real, News)>, b: seq<(real, News)>, t: real)
    ensures NewerOf(a + b, t) == NewerOf(a, t) + NewerOf(b, t)
  {
    if b == [] {
      assert a + b == a;
    } else {
      assert (a + b)[..|a + b| - 1] == a + b[..|b| - 1];
      NewerInParts(a, b[..|b| - 1], t);
    }
  }

  lemma {:induction false} NothingNewer(old': seq<(real, News)>, t: real)
    requires forall n | n in old' :: n.0 <= t
    ensures NewerOf(old', t) == []
  {
    if old' != [] {
      NothingNewer(old'[..|old'| - 1], t);
    }
  }

  /** What the filter leaves of the buffer is the sender's acts after those in the snapshot. */
  lemma NewerIsTheRest(
    history: seq<Stamped>, t: real, leftover: seq<(real, News)>, from: nat, buffer: seq<Envelope>)
    requires InStampOrder(history) && Buffers(buffer, history, t, leftover, from)
    ensures Newer(buffer, t) == WireOfAll(ActsOf(history[Covered(history, t)..]))
  {
    NewerLooksAtNews(buffer, t);
    NewerInParts(leftover, Sent(history[from..]), t);
    NothingNewer(leftover, t);
    assert history[from..|history|] == history[from..];
    assert Uncovered(history, |history|, t) == history[Covered(history, t)..];
    FilterCuts(history, from, |history|, t);
  }

  /** A patch without a stamp never replays against a snapshot with one. */
  lemma UnstampedNeverReplays(buffer: seq<Envelope>, e: Envelope, t: real)
    requires e.stamp.None? && t >= 0.0
    ensures Newer(buffer + [e], t) == Newer(buffer, t)
  {
  }
}
