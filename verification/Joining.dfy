// Joining a session: buffering while JOINING, the snapshot, and the filtered replay.
// manager.py, apply_patch and apply_snapshot.
module Joining {
  import opened Basics
  import opened Patcher
  import opened Snapshots

  /** What a message is about: session plumbing, the structure, or anything that leaves the structure alone. */
  datatype Body = SessionBody | StructureBody(news: News) | OtherBody

  datatype Envelope = Envelope(source: Guid, stamp: Option<real>, body: Body)

  /** A missing stamp reads as zero. */
  function StampOf(e: Envelope): real {
    if e.stamp.None? then 0.0 else e.stamp.value
  }

  /** The structural news of a buffer that is newer than the snapshot, in arrival order. */
  function Newer(buffer: seq<Envelope>, snapshotStamp: real): seq<News> {
    if buffer == [] then []
    else
      var last := buffer[|buffer| - 1];
      Newer(buffer[..|buffer| - 1], snapshotStamp)
        + if StampOf(last) > snapshotStamp && last.body.StructureBody? then [last.body.news] else []
  }

  /** The structure after the first n messages of a buffer have been considered for replay. */
  ghost function Replay(s: Peer, buffer: seq<Envelope>, n: nat, snapshotStamp: real): Peer
    requires n <= |buffer|
  {
    if n == 0 then s else Considered(Replay(s, buffer, n - 1, snapshotStamp), buffer[n - 1], snapshotStamp)
  }

  ghost function Considered(s: Peer, e: Envelope, snapshotStamp: real): Peer {
    if StampOf(e) > snapshotStamp && e.body.StructureBody? then Received(s, e.body.news) else s
  }

  lemma {:induction false} ReplayRunsTheNewer(s: Peer, buffer: seq<Envelope>, n: nat, snapshotStamp: real)
    requires n <= |buffer|
    ensures Replay(s, buffer, n, snapshotStamp) == ReceivedAll(s, Newer(buffer[..n], snapshotStamp))
  {
    if n > 0 {
      ReplayRunsTheNewer(s, buffer, n - 1, snapshotStamp);
      assert buffer[..n][..n - 1] == buffer[..n - 1];
      var e := buffer[n - 1];
      if StampOf(e) > snapshotStamp && e.body.StructureBody? {
        ReceivedOneMore(s, Newer(buffer[..n - 1], snapshotStamp), e.body.news);
      } else {
        assert Newer(buffer[..n], snapshotStamp) == Newer(buffer[..n - 1], snapshotStamp);
      }
    }
  }

  class SessionJoin {
    const selfGuid: Guid
    const patcher: OTIOPatcher
    var timelines: set<Guid>
    var status: SessionStatus
    var deltaBuffer: seq<Envelope>
    var replaying: bool
    var syncing: bool

    /** Only messages from others wait in the buffer, and never session messages. */
    ghost predicate Valid()
      reads this, patcher, patcher.objectMap.Values
    {
      patcher.Valid() && forall e | e in deltaBuffer :: e.source != selfGuid && !e.body.SessionBody?
    }

    ghost function View(): Peer
      reads this`timelines, patcher`objectMap, patcher.objectMap.Values`children
    {
      Peer(patcher.View(), timelines)
    }

    constructor (selfGuid: Guid)
      ensures Valid() && this.selfGuid == selfGuid && status == Discovering && deltaBuffer == [] && !replaying
      ensures fresh(patcher) && patcher.Repr == {} && View() == Peer(map[], {})
    {
      this.selfGuid, status, deltaBuffer, replaying, syncing := selfGuid, Discovering, [], false, false;
      timelines := {};
      patcher := new OTIOPatcher();
    }

    /** The handler of a timeline that a peer announces. */
    method HandleAddTimeline(c: Carried)
      requires Valid()
      modifies this`timelines, patcher
      ensures Valid() && fresh(patcher.Repr - old(patcher.Repr)) && View() == Received(old(View()), NewTimeline(c))
    {
      if c.tree.guid !in timelines {
        var mapped: map<Guid, Node>;
        ghost var reached: set<Node>;
        mapped, reached := TakeIn(patcher.objectMap, patcher.Repr, c);
        patcher.Rebuilt(mapped, reached);
        timelines := timelines + {c.tree.guid};
      }
    }

    /** The handler of a patch. */
    method HandlePatch(m: Message)
      requires Valid()
      modifies patcher, patcher.Repr
      ensures Valid() && fresh(patcher.Repr - old(patcher.Repr)) && View() == Received(old(View()), Patch(m))
    {
      patcher.ApplyPatch(m);
    }

    /** apply_patch. */
    method ApplyPatch(e: Envelope)
      requires Valid()
      modifies this`deltaBuffer, this`syncing, this`timelines, patcher, patcher.Repr
      ensures Valid() && fresh(patcher.Repr - old(patcher.Repr))
      ensures e.source == selfGuid ==> deltaBuffer == old(deltaBuffer) && View() == old(View())
      ensures e.source != selfGuid ==>
                var held := status.Joining? && !e.body.SessionBody? && !replaying;
                && deltaBuffer == old(deltaBuffer) + (if held then [e] else [])
                && View() == if held || !e.body.StructureBody? then old(View()) else Received(old(View()), e.body.news)
    {
      if e.source == selfGuid {
        return;
      }
      if status.Joining? && !e.body.SessionBody? && !replaying {
        deltaBuffer := deltaBuffer + [e];
        return;
      }
      syncing := true;
      if e.body.StructureBody? {
        if e.body.news.Patch? {
          HandlePatch(e.body.news.message);
        } else {
          HandleAddTimeline(e.body.news.carried);
        }
      }
      syncing := false;
    }

    /** The replay loop: every buffered message newer than the snapshot, once, in order, none buffered again. */
    method ReplayBuffer(snapshotStamp: real)
      requires Valid() && replaying
      modifies this`deltaBuffer, this`syncing, this`timelines, patcher, patcher.Repr
      ensures Valid() && deltaBuffer == old(deltaBuffer)
      ensures View() == ReceivedAll(old(View()), Newer(deltaBuffer, snapshotStamp))
    {
      ghost var start, buffer := View(), deltaBuffer;
      var n := 0;
      while n < |deltaBuffer|
        invariant deltaBuffer == buffer && n <= |buffer| && Valid()
        invariant fresh(patcher.Repr - old(patcher.Repr))
        invariant View() == Replay(start, buffer, n, snapshotStamp)
        decreases |buffer| - n
      {
        var e := deltaBuffer[n];
        assert e in deltaBuffer;
        if StampOf(e) > snapshotStamp {
          ApplyPatch(e);
        }
        n := n + 1;
      }
      assert buffer[..|buffer|] == buffer;
      ReplayRunsTheNewer(start, buffer, |buffer|, snapshotStamp);
    }

    /** The first part of apply_snapshot: the structure is rebuilt from the snapshot's timelines. */
    method Rebuild(carried: seq<Carried>)
      modifies this`timelines, patcher
      ensures patcher.Valid() && fresh(patcher.Repr) && View() == RebuiltPeer(carried)
    {
      var objects: map<Guid, Node>;
      ghost var repr: set<Node>;
      objects, repr := RebuildIndex(carried);
      patcher.Rebuilt(objects, repr);
      timelines := set c | c in carried :: c.tree.guid;
    }

    /** apply_snapshot: rebuilt from the snapshot's timelines, then the newer messages replayed. */
    method ApplySnapshot(snapshotStamp: real, carried: seq<Carried>)
      requires Valid() && !replaying
      modifies this, patcher
      ensures Valid() && status.Synced? && deltaBuffer == [] && !replaying && !syncing
      ensures View() == ReceivedAll(RebuiltPeer(carried), Newer(old(deltaBuffer), snapshotStamp))
    {
      syncing := true;
      Rebuild(carried);
      replaying := true;
      assert View() == RebuiltPeer(carried);
      ReplayBuffer(snapshotStamp);
      ghost var caughtUp := View();
      replaying := false;
      deltaBuffer, status, syncing := [], Synced, false;
      assert View() == caughtUp;
    }
  }
}
