// The delay after a snapshot, over whole runs: when the gate of a waiting player lets its clock start.
module PlayerGate {
  import opened Basics
  import opened Player
  import opened PlayerRuns

  /** A message and when it was handled. */
  datatype Heard = Heard(message: Incoming, at: real)

  function HeardAt(messages: seq<Incoming>, at: real): seq<Heard> {
    seq(|messages|, i requires 0 <= i < |messages| => Heard(messages[i], at))
  }

  /** Everything the ticks of a run handle, in order. */
  function HeardOver(calls: seq<Call>): seq<Heard> {
    if calls == [] then []
    else
      var c := calls[|calls| - 1];
      HeardOver(calls[..|calls| - 1]) + if c.TickAt? then HeardAt(c.messages, c.at) else []
  }

  /** The last request that was answered with a snapshot; the length when there is none. */
  function LastAnswered(rec: Recording, heard: seq<Heard>): (k: nat)
    ensures k <= |heard|
    ensures k < |heard| ==> IsAnswered(rec, heard[k].message)
    ensures forall i | 0 <= i < |heard| && (i > k || k == |heard|) :: !IsAnswered(rec, heard[i].message)
  {
    if heard == [] then 0
    else if IsAnswered(rec, heard[|heard| - 1].message) then |heard| - 1
    else
      var k := LastAnswered(rec, heard[..|heard| - 1]);
      if k == |heard| - 1 then |heard| else k
  }

  /** A message from another peer was handled at the last answered request or after it. */
  ghost predicate ForeignSince(rec: Recording, heard: seq<Heard>) {
    exists i | LastAnswered(rec, heard) <= i < |heard| :: IsForeign(rec, heard[i].message)
  }

  function ArmedAfter(calls: seq<Call>): bool {
    calls != [] && (calls[|calls| - 1].ArmAt? || ArmedAfter(calls[..|calls| - 1]))
  }

  // ------------------------------------------------------------------ what the player remembers

  /** The two marks of the gate say when the last request was answered and whether a peer was heard since. */
  ghost predicate Remembers(p: State, heard: seq<Heard>) {
    var k := LastAnswered(p.rec, heard);
    if k == |heard| then p.snapshotSentAt.None?
    else p.snapshotSentAt == Some(heard[k].at) && (p.peerActive <==> ForeignSince(p.rec, heard))
  }

  lemma OneMoreHeard(p: State, heard: seq<Heard>, m: Incoming, now: real)
    requires Remembers(p, heard)
    ensures Remembers(Handled(p, m, now), heard + [Heard(m, now)])
  {
    assert (heard + [Heard(m, now)])[..|heard|] == heard;
  }

  lemma {:induction false} AllHeard(p: State, heard: seq<Heard>, messages: seq<Incoming>, now: real)
    requires Remembers(p, heard)
    ensures Remembers(HandledAll(p, messages, now), heard + HeardAt(messages, now))
  {
    if messages == [] {
      assert heard + HeardAt(messages, now) == heard;
    } else {
      var init, last := messages[..|messages| - 1], messages[|messages| - 1];
      AllHeard(p, heard, init, now);
      OneMoreHeard(HandledAll(p, init, now), heard + HeardAt(init, now), last, now);
      assert heard + HeardAt(messages, now) == heard + HeardAt(init, now) + [Heard(last, now)];
    }
  }

  /** What a run of calls leaves a player that is still waiting. */
  ghost predicate Waiting(p: State, q: State, calls: seq<Call>) {
    && q.playing && q.waitForPeer && q.startTime.None? && q.rec == p.rec && q.settings == p.settings
    && (q.paused <==> PausedAfter(calls)) && (q.armRequested <==> ArmedAfter(calls))
    && q.snapshotted == AskedOver(p.rec, calls) && Remembers(q, HeardOver(calls))
  }

  lemma {:induction false} StillWaiting(p: State, start: real, calls: seq<Call>)
    requires JustStarted(p, start) && p.settings.waitForPeer && Run(p, calls).startTime.None?
    ensures Waiting(p, Run(p, calls), calls)
  {
    if calls != [] {
      var before, c := calls[..|calls| - 1], calls[|calls| - 1];
      GateStep(Run(p, before), c);
      StillWaiting(p, start, before);
      WaitingStep(p, Run(p, before), before, c);
      assert calls == before + [c];
    }
  }

  lemma WaitingStep(p: State, q: State, before: seq<Call>, c: Call)
    requires Ready(q) && p.rec.events != [] && Waiting(p, q, before) && Effect(q, c).0.startTime.None?
    ensures Waiting(p, Effect(q, c).0, before + [c])
  {
    var calls := before + [c];
    assert calls[..|calls| - 1] == before && calls[|calls| - 1] == c;
    if c.TickAt? {
      TickKeepsMarks(q, c.messages, c.at);
      AllHeard(q, HeardOver(before), c.messages, c.at);
    } else {
      assert HeardOver(before) + [] == HeardOver(before);
    }
  }

  /** A tick that does not start the clock leaves the gate's marks as its messages left them. */
  lemma TickKeepsMarks(q: State, messages: seq<Incoming>, now: real)
    requires Ready(q) && q.playing && q.rec.events != [] && q.waitForPeer
    requires Advanced(q, messages, now).after.startTime.None?
    ensures var h, after := HandledAll(q, messages, now), Advanced(q, messages, now).after;
            && after.playing && after.waitForPeer && h.rec == after.rec == q.rec && after.settings == q.settings
            && after.paused == q.paused && after.armRequested == q.armRequested
            && after.snapshotSentAt == h.snapshotSentAt && after.peerActive == h.peerActive
            && after.snapshotted == h.snapshotted == q.snapshotted + Served(q.rec, messages)
  {
    MessagesTouchTheGate(q, messages, now);
    var h := HandledAll(q, messages, now);
    if !h.paused {
      MarkFacts(h, now);
      if GateOf(h, now).Open? {
      }
    }
  }

  // ------------------------------------------------------------------ the theorems

  /** The delay since the last answered request is over, or was cut short by a message from another peer. */
  ghost predicate DelayOver(rec: Recording, calls: seq<Call>, delay: real, now: real) {
    var heard := HeardOver(calls);
    var k := LastAnswered(rec, heard);
    k < |heard| && (now - heard[k].at >= delay || ForeignSince(rec, heard))
  }

  /**
   * When the clock of a waiting player starts, over any run: at the first tick, not paused and after the clock was
   * armed, by which enough peers were served and either the delay since the last answered request has passed or a
   * message from another peer was handled at that request or after it.
   */
  lemma {:induction false} ClockStartsIff(p: State, start: real, calls: seq<Call>, at: real, messages: seq<Incoming>)
    requires JustStarted(p, start) && p.settings.waitForPeer && Run(p, calls).startTime.None?
    ensures var run := calls + [TickAt(at, messages)];
            Run(p, run).startTime.Some? <==>
              && !PausedAfter(calls) && ArmedAfter(calls)
              && |AskedOver(p.rec, run)| >= p.settings.minPeerCount
              && DelayOver(p.rec, run, p.settings.postSnapshotDelay, at)
  {
    var c := TickAt(at, messages);
    var q, run := Run(p, calls), calls + [c];
    assert run[..|run| - 1] == calls && run[|run| - 1] == c;
    StillWaiting(p, start, calls);
    AllHeard(q, HeardOver(calls), messages, at);
    GateDecides(q, messages, at);
  }

  lemma GateDecides(q: State, messages: seq<Incoming>, now: real)
    requires Ready(q) && q.playing && q.rec.events != [] && q.waitForPeer
    ensures var h := HandledAll(q, messages, now);
            && Advanced(q, messages, now).after.startTime.Some?
               == (!q.paused && q.armRequested && |h.snapshotted| >= q.settings.minPeerCount && h.snapshotSentAt.Some?
                   && (h.peerActive || now - h.snapshotSentAt.value >= q.settings.postSnapshotDelay))
            && h.rec == q.rec && h.snapshotted == q.snapshotted + Served(q.rec, messages)
  {
    MessagesTouchTheGate(q, messages, now);
    var h := HandledAll(q, messages, now);
    if !h.paused {
      MarkFacts(h, now);
      if GateOf(h, now).Open? {
      }
    }
  }

  /**
   * So a tick at which only the delay is missing starts the clock early exactly when another peer was heard at the
   * last answered request or since: neither the delay nor the peer that was served needs to have anything to do
   * with it.
   */
  lemma {:induction false} ClockStartsEarlyIff(p: State, start: real, calls: seq<Call>, at: real, messages: seq<Incoming>)
    requires JustStarted(p, start) && p.settings.waitForPeer && Run(p, calls).startTime.None?
    requires !PausedAfter(calls) && ArmedAfter(calls)
    requires |AskedOver(p.rec, calls + [TickAt(at, messages)])| >= p.settings.minPeerCount
    requires var heard := HeardOver(calls + [TickAt(at, messages)]);
             var k := LastAnswered(p.rec, heard);
             k < |heard| && at - heard[k].at < p.settings.postSnapshotDelay
    ensures Run(p, calls + [TickAt(at, messages)]).startTime.Some?
       <==> ForeignSince(p.rec, HeardOver(calls + [TickAt(at, messages)]))
  {
    ClockStartsIff(p, start, calls, at, messages);
  }

  /** Such a run: one peer is served by a request that names no source, another one says anything, and it starts at once. */
  lemma {:induction false} ChatterCutsTheDelay(p: State, start: real, peer: Guid, other: Guid)
    requires JustStarted(p, start) && p.settings.waitForPeer && p.settings.minPeerCount == 1
    requires p.rec.hasSnapshot && other != p.rec.selfGuid
    ensures var messages := [StateRequest(None, p.rec.selfGuid, Some(peer)), OtherMessage(Some(other))];
            Run(p, [ArmAt(start), TickAt(start, messages)]).startTime.Some?
  {
    var request, chatter := StateRequest(None, p.rec.selfGuid, Some(peer)), OtherMessage(Some(other));
    var armed, c := [ArmAt(start)], TickAt(start, [request, chatter]);
    var run := armed + [c];
    assert run == [ArmAt(start), c] && run[..1] == armed && armed[..0] == [];
    assert Run(p, armed) == p.(armRequested := true);
    assert run[..|run| - 1] == armed && run[|run| - 1] == c;
    var heard := HeardAt(c.messages, start);
    assert HeardOver(armed) == [] && HeardOver(run) == [] + heard == heard;
    assert IsAnswered(p.rec, heard[0].message) && IsForeign(p.rec, heard[1].message);
    assert peer in Served(p.rec, c.messages) by {
      assert request in c.messages && IsAnswered(p.rec, request);
    }
    Subset({peer}, AskedOver(p.rec, run));
    ClockStartsIff(p, start, armed, start, c.messages);
  }

  /** The clock was started by the n-th call, before which nothing was sent, with the delay over or cut short. */
  ghost predicate StartedBy(p: State, calls: seq<Call>, n: nat)
    requires Ready(p)
  {
    && 0 < n <= |calls| && calls[n - 1].TickAt? && SentOver(p, calls[..n - 1]) == []
    && DelayOver(p.rec, calls[..n], p.settings.postSnapshotDelay, calls[n - 1].at)
  }

  /** Nothing is sent before such a tick. */
  lemma {:induction false} NothingBeforeTheDelay(p: State, start: real, calls: seq<Call>)
    requires JustStarted(p, start) && p.settings.waitForPeer
    ensures SentOver(p, calls) != [] || Run(p, calls).startTime.Some? ==> exists n: nat :: StartedBy(p, calls, n)
  {
    GateTracksCalls(p, start, calls);
    if Run(p, calls).startTime.Some? {
      var before, c := calls[..|calls| - 1], calls[|calls| - 1];
      assert calls == before + [c];
      if Run(p, before).startTime.Some? {
        NothingBeforeTheDelay(p, start, before);
        var n: nat :| StartedBy(p, before, n);
        StartedEarlier(p, before, c, n);
      } else {
        GateTracksCalls(p, start, before);
        StartedNow(p, start, before, c);
      }
    }
  }

  lemma StartedEarlier(p: State, before: seq<Call>, c: Call, n: nat)
    requires Ready(p) && StartedBy(p, before, n)
    ensures StartedBy(p, before + [c], n)
  {
    assert (before + [c])[..n] == before[..n] && (before + [c])[..n - 1] == before[..n - 1];
  }

  lemma {:induction false} StartedNow(p: State, start: real, before: seq<Call>, c: Call)
    requires JustStarted(p, start) && p.settings.waitForPeer && SentOver(p, before) == []
    requires Run(p, before).startTime.None? && Run(p, before + [c]).startTime.Some?
    ensures StartedBy(p, before + [c], |before| + 1)
  {
    var calls := before + [c];
    assert calls[..|calls|] == calls && calls[..|calls| - 1] == before && calls[|calls| - 1] == c;
    if c.TickAt? {
      ClockStartsIff(p, start, before, c.at, c.messages);
    }
  }

  /** Where no other peer is heard at or after an answered request, nothing is sent before the delay has passed. */
  lemma {:induction false} QuietSessionsWaitTheDelay(p: State, start: real, calls: seq<Call>) returns (n: nat)
    requires JustStarted(p, start) && p.settings.waitForPeer && SentOver(p, calls) != []
    requires forall i | 0 <= i <= |calls| :: !ForeignSince(p.rec, HeardOver(calls[..i]))
    ensures 0 < n <= |calls| && SentOver(p, calls[..n - 1]) == []
    ensures var heard := HeardOver(calls[..n]);
            var k := LastAnswered(p.rec, heard);
            k < |heard| && calls[n - 1].at - heard[k].at >= p.settings.postSnapshotDelay
  {
    NothingBeforeTheDelay(p, start, calls);
    n :| StartedBy(p, calls, n);
  }
}
