// What a player does over a whole run of calls, between one start of non-looping playback and the next.
module PlayerRuns {
  import opened Basics
  import opened Player

  datatype Call =
    | TickAt(at: real, messages: seq<Incoming>)
    | PauseAt(at: real)
    | ResumeAt(at: real)
    | ArmAt(at: real)

  /** Playback that does not loop, with its clock started exactly when the gate is not waiting any more. */
  ghost predicate Ready(p: State) {
    Sane(p) && !p.settings.loop && (p.paused <==> p.pauseStartedAt.Some?) && (p.waitForPeer <==> p.startTime.None?)
  }

  function Effect(p: State, c: Call): (r: (State, seq<Event>))
    requires Ready(p)
  {
    match c
    case TickAt(at, messages) => var t := Advanced(p, messages, at); (t.after, t.sent)
    case PauseAt(at) => (PausedAt(p, at), [])
    case ResumeAt(at) => (ResumedAt(p, at), [])
    case ArmAt(_) => (p.(armRequested := true), [])
  }

  /** Messages touch only what the gate looks at. */
  lemma {:induction false} MessagesTouchTheGate(p: State, messages: seq<Incoming>, now: real)
    ensures var q := HandledAll(p, messages, now);
            q == p.(snapshotSentAt := q.snapshotSentAt, peerActive := q.peerActive, snapshotted := q.snapshotted)
    ensures HandledAll(p, messages, now).snapshotted == p.snapshotted + Served(p.rec, messages)
  {
    if messages != [] {
      MessagesTouchTheGate(p, messages[..|messages| - 1], now);
    }
  }

  /** The peers that a batch of messages asks a snapshot for. */
  function Served(rec: Recording, messages: seq<Incoming>): set<Guid> {
    set m | m in messages && IsAnswered(rec, m) :: Requester(m).value
  }

  /** The message asks this player for the snapshot on behalf of g: by name, or as its source when it names nobody. */
  predicate AsksFor(rec: Recording, m: Incoming, g: Guid) {
    && m.StateRequest? && m.target == rec.selfGuid
    && (m.requester == Some(g) || (m.requester.None? && m.source == Some(g)))
  }

  /** Who asks is served, if there is a snapshot, and nobody else. */
  lemma ServedIff(p: State, messages: seq<Incoming>, now: real, g: Guid)
    ensures g in HandledAll(p, messages, now).snapshotted <==>
              g in p.snapshotted || (p.rec.hasSnapshot && exists m :: m in messages && AsksFor(p.rec, m, g))
  {
    MessagesTouchTheGate(p, messages, now);
    assert forall m :: IsAnswered(p.rec, m) && Requester(m).value == g <==> p.rec.hasSnapshot && AsksFor(p.rec, m, g);
  }

  // ------------------------------------------------------------------ one tick

  /** What no tick of a non-looping player changes, and where its clock may go. */
  ghost predicate Onward(p: State, q: State, now: real) {
    && q.rec == p.rec && q.settings == p.settings && p.index <= q.index <= |p.rec.events|
    && q.paused == p.paused && q.pauseStartedAt == p.pauseStartedAt
    && if p.waitForPeer && !q.waitForPeer then !p.paused && q.startTime == Some(now)
       else q.waitForPeer == p.waitForPeer && q.startTime == p.startTime
  }

  /** What is sent runs from one index to the other, is due, and leaves nothing due behind if anything could be sent. */
  ghost predicate SentWhatWasDue(p: State, q: State, sent: seq<Event>, now: real) {
    && p.index <= q.index <= |p.rec.events| && sent == p.rec.events[p.index..q.index]
    && (sent != [] ==> q.startTime.Some? && !q.waitForPeer && !q.paused)
    && (q.startTime.Some? ==>
          var reached := Offset(now - q.startTime.value, p.settings.speed);
          && (forall e | e in sent :: e.offset <= reached)
          && (p.playing && !q.waitForPeer && !q.paused && q.index < |p.rec.events| ==>
                p.rec.events[q.index].offset > reached))
  }

  lemma DispatchFacts(p: State, now: real)
    requires Ready(p) && !p.waitForPeer && !p.paused
    ensures var t := Dispatched(p, now); Onward(p, t.after, now) && SentWhatWasDue(p, t.after, t.sent, now)
  {
  }

  lemma MarkFacts(p: State, now: real)
    requires Ready(p) && !p.paused
    ensures var q := Marked(p, now);
            && Onward(p, q, now) && q.index == p.index && q.playing == p.playing
            && (GateOf(p, now).Open? <==> !q.waitForPeer) && (q.waitForPeer ==> q.startTime == p.startTime)
            && q.armRequested == p.armRequested && q.snapshotted == p.snapshotted
  {
  }

  lemma TickFacts(p: State, messages: seq<Incoming>, now: real)
    requires Ready(p)
    ensures var t := Advanced(p, messages, now); Onward(p, t.after, now) && SentWhatWasDue(p, t.after, t.sent, now)
  {
    MessagesTouchTheGate(p, messages, now);
    var q := HandledAll(p, messages, now);
    if p.playing && p.rec.events != [] && !q.paused {
      MarkFacts(q, now);
      if GateOf(q, now).Open? {
        DispatchFacts(Marked(q, now), now);
      }
    }
  }

  /** A tick answers whether the player plays on. With nothing recorded it does not. */
  lemma ActiveIsPlaying(p: State, messages: seq<Incoming>, now: real)
    requires Sane(p)
    ensures var t := Advanced(p, messages, now);
            t.active == t.after.playing && (p.rec.events == [] ==> !t.active) && (t.active ==> p.playing)
  {
    MessagesTouchTheGate(p, messages, now);
  }

  /** The state after the calls, starting from p. */
  function Run(p: State, calls: seq<Call>): (q: State)
    requires Ready(p)
    ensures Ready(q) && q.rec == p.rec && q.settings == p.settings
  {
    if calls == [] then p
    else
      var before := Run(p, calls[..|calls| - 1]);
      StaysReady(before, calls[|calls| - 1]);
      Effect(before, calls[|calls| - 1]).0
  }

  lemma StaysReady(p: State, c: Call)
    requires Ready(p)
    ensures var q := Effect(p, c).0; Ready(q) && q.rec == p.rec && q.settings == p.settings
  {
    if c.TickAt? {
      TickFacts(p, c.messages, c.at);
    }
  }

  function SentOver(p: State, calls: seq<Call>): seq<Event>
    requires Ready(p)
  {
    if calls == [] then []
    else SentOver(p, calls[..|calls| - 1]) + Effect(Run(p, calls[..|calls| - 1]), calls[|calls| - 1]).1
  }

  // ------------------------------------------------------------------ time played

  /** Whether the last pause or resume was a pause. */
  function PausedAfter(calls: seq<Call>): bool {
    if calls == [] then false
    else
      match calls[|calls| - 1]
      case PauseAt(_) => true
      case ResumeAt(_) => false
      case TickAt(_, _) => PausedAfter(calls[..|calls| - 1])
      case ArmAt(_) => PausedAfter(calls[..|calls| - 1])
  }

  function LastAt(start: real, calls: seq<Call>): real {
    if calls == [] then start else calls[|calls| - 1].at
  }

  /**
   * The time played by the last call: every stretch between two calls counts when the clock had started before it
   * and the player was not paused over it.
   */
  function Played(p: State, start: real, calls: seq<Call>): real
    requires Ready(p)
  {
    if calls == [] then 0.0
    else
      var before := calls[..|calls| - 1];
      Played(p, start, before)
        + if Run(p, before).startTime.Some? && !PausedAfter(before)
          then calls[|calls| - 1].at - LastAt(start, before) else 0.0
  }

  /** A player just started at `start`, not paused and not looping. */
  ghost predicate JustStarted(p: State, start: real) {
    && Ready(p) && p.rec.events != [] && !p.paused && p.playing && p.index == 0
    && p.waitForPeer == p.settings.waitForPeer && !p.armRequested && p.snapshotted == {} && p.snapshotSentAt.None?
    && p.gateClearedAt.None? && p.drainDeadline.None?
    && p.startTime == if p.waitForPeer then None else Some(start)
  }

  /** Every start of a player with a recording that is not paused, unless it loops, begins such a run. */
  lemma StartBeginsARun(p: State, settings: Settings, now: real)
    requires p.rec.events != [] && !p.paused && p.pauseStartedAt.None? && !settings.loop
    ensures JustStarted(Started(p, settings, now), now)
  {
  }

  /** The clock's own bookkeeping agrees with the time played. */
  ghost predicate OnClock(p: State, played: real, now: real)
    requires Ready(p)
  {
    && (p.startTime.None? ==> played == 0.0)
    && (p.startTime.Some? ==>
          played == (if p.paused then p.pauseStartedAt.value else now) - p.startTime.value)
  }

  lemma {:induction false} ClockTracksTimePlayed(p: State, start: real, calls: seq<Call>)
    requires JustStarted(p, start)
    ensures Run(p, calls).paused == PausedAfter(calls)
    ensures OnClock(Run(p, calls), Played(p, start, calls), LastAt(start, calls))
  {
    if calls != [] {
      var before, c := calls[..|calls| - 1], calls[|calls| - 1];
      ClockTracksTimePlayed(p, start, before);
      ClockStep(Run(p, before), c, Played(p, start, before), LastAt(start, before));
    }
  }

  lemma ClockStep(p: State, c: Call, played: real, last: real)
    requires Ready(p) && OnClock(p, played, last)
    ensures var q := Effect(p, c).0;
            && Ready(q) && OnClock(q, played + (if p.startTime.Some? && !p.paused then c.at - last else 0.0), c.at)
            && q.paused == if c.PauseAt? then true else if c.ResumeAt? then false else p.paused
  {
    StaysReady(p, c);
    if c.TickAt? {
      TickFacts(p, c.messages, c.at);
    }
  }

  // ------------------------------------------------------------------ what is sent

  /** Whatever the calls, what has been sent is the recording up to the index: in order and each event once. */
  lemma {:induction false} SentIsAPrefix(p: State, start: real, calls: seq<Call>)
    requires JustStarted(p, start)
    ensures SentOver(p, calls) == p.rec.events[..Run(p, calls).index]
  {
    if calls != [] {
      var before, c := calls[..|calls| - 1], calls[|calls| - 1];
      SentIsAPrefix(p, start, before);
      SentNext(Run(p, before), c);
      Joined(p.rec.events, Run(p, before).index, Run(p, calls).index);
    }
  }

  lemma Joined(s: seq<Event>, a: nat, b: nat)
    requires a <= b <= |s|
    ensures s[..a] + s[a..b] == s[..b]
  {
  }

  lemma SentNext(p: State, c: Call)
    requires Ready(p)
    ensures var (q, sent) := Effect(p, c); p.index <= q.index <= |p.rec.events| && sent == p.rec.events[p.index..q.index]
  {
    if c.TickAt? {
      TickFacts(p, c.messages, c.at);
    }
  }

  /** The offset reached is the time played, scaled by the speed. */
  lemma OffsetIsScaled(played: real, speed: real)
    ensures Offset(played, speed) == played * speed
  {
  }

  /**
   * No event is sent before its offset in played time scaled by the speed; and when a tick gets to sending, it
   * leaves nothing behind that is due.
   */
  lemma EventsAreOnTime(p: State, start: real, calls: seq<Call>, c: Call)
    requires JustStarted(p, start)
    ensures var reached := Offset(Played(p, start, calls + [c]), p.settings.speed);
            var (q, sent) := Effect(Run(p, calls), c);
            && (forall e | e in sent :: e.offset <= reached)
            && (c.TickAt? && Run(p, calls).playing && q.startTime.Some? && !q.paused && q.index < |p.rec.events|
                ==> p.rec.events[q.index].offset > reached)
  {
    var run := calls + [c];
    assert run[..|run| - 1] == calls && run[|run| - 1] == c;
    ClockTracksTimePlayed(p, start, run);
    OnTime(Run(p, calls), c, Played(p, start, run));
  }

  lemma OnTime(p: State, c: Call, played: real)
    requires Ready(p) && Ready(Effect(p, c).0) && OnClock(Effect(p, c).0, played, c.at)
    ensures var reached := Offset(played, p.settings.speed);
            var (q, sent) := Effect(p, c);
            && (forall e | e in sent :: e.offset <= reached)
            && (c.TickAt? && p.playing && q.startTime.Some? && !q.paused && q.index < |p.rec.events|
                ==> p.rec.events[q.index].offset > reached)
  {
    if c.TickAt? {
      TickFacts(p, c.messages, c.at);
      var t := Advanced(p, c.messages, c.at);
      DueBy(p, t.after, t.sent, c.at, played);
    }
  }

  lemma DueBy(p: State, q: State, sent: seq<Event>, now: real, played: real)
    requires SentWhatWasDue(p, q, sent, now) && Ready(q) && OnClock(q, played, now)
    ensures var reached := Offset(played, p.settings.speed);
            && (forall e | e in sent :: e.offset <= reached)
            && (p.playing && q.startTime.Some? && !q.paused && q.index < |p.rec.events|
                ==> p.rec.events[q.index].offset > reached)
  {
  }

  // ------------------------------------------------------------------ pausing

  /** A pause, however long and whatever is called meanwhile, sends nothing and resumes where it began. */
  lemma {:induction false} PauseKeepsThePlace(p: State, t1: real, meanwhile: seq<Call>, t2: real)
    requires Ready(p) && !p.paused && forall c | c in meanwhile :: !c.ResumeAt?
    ensures var q := Run(PausedAt(p, t1), meanwhile);
            && q.paused && q.pauseStartedAt == Some(t1) && q.startTime == p.startTime && q.index == p.index
            && SentOver(PausedAt(p, t1), meanwhile) == []
            && (p.startTime.Some? ==>
                  (t2 - ResumedAt(q, t2).startTime.value) * p.settings.speed
                  == (t1 - p.startTime.value) * p.settings.speed)
  {
    if meanwhile != [] {
      var before, c := meanwhile[..|meanwhile| - 1], meanwhile[|meanwhile| - 1];
      PauseKeepsThePlace(p, t1, before, t2);
      assert c in meanwhile;
      WhilePaused(Run(PausedAt(p, t1), before), c);
    }
  }

  lemma WhilePaused(p: State, c: Call)
    requires Ready(p) && p.paused && !c.ResumeAt?
    ensures var (q, sent) := Effect(p, c);
            && sent == [] && q.paused && q.pauseStartedAt == p.pauseStartedAt
            && q.startTime == p.startTime && q.index == p.index
  {
    if c.TickAt? {
      TickFacts(p, c.messages, c.at);
    }
  }

  /**
   * Starting does not end a pause. A player paused since p0 and started at t0 takes, when resumed, the time played
   * back by t0 - p0: it resumes at the beginning only if it was paused at that very moment.
   */
  lemma StartingWhilePausedLags(p: State, settings: Settings, p0: real, t0: real, t2: real)
    requires p.paused && p.pauseStartedAt == Some(p0) && !settings.waitForPeer
    ensures t2 - ResumedAt(Started(p, settings, t0), t2).startTime.value == p0 - t0
    ensures t2 - ResumedAt(Started(p, settings, t0), t2).startTime.value == 0.0 <==> p0 == t0
  {
  }

  // ------------------------------------------------------------------ the gate

  function AskedOver(rec: Recording, calls: seq<Call>): set<Guid> {
    if calls == [] then {}
    else
      var c := calls[|calls| - 1];
      AskedOver(rec, calls[..|calls| - 1]) + if c.TickAt? then Served(rec, c.messages) else {}
  }

  /**
   * With the gate on, as long as not enough peers have asked for the snapshot, or the clock has not been armed,
   * nothing is sent.
   */
  lemma {:induction false} NothingBeforeTheGate(p: State, start: real, calls: seq<Call>)
    requires JustStarted(p, start) && p.settings.waitForPeer
    ensures SentOver(p, calls) != [] ==>
              && |AskedOver(p.rec, calls)| >= p.settings.minPeerCount
              && exists c :: c in calls && c.ArmAt?
  {
    GateTracksCalls(p, start, calls);
    Subset(Run(p, calls).snapshotted, AskedOver(p.rec, calls));
  }

  lemma {:induction false} GateTracksCalls(p: State, start: real, calls: seq<Call>)
    requires JustStarted(p, start) && p.settings.waitForPeer
    ensures var q := Run(p, calls);
            && q.snapshotted <= AskedOver(p.rec, calls)
            && (q.armRequested ==> exists c :: c in calls && c.ArmAt?)
            && (q.startTime.Some? ==> |q.snapshotted| >= p.settings.minPeerCount && q.armRequested)
            && (q.startTime.None? ==> SentOver(p, calls) == [])
  {
    if calls != [] {
      var before, c := calls[..|calls| - 1], calls[|calls| - 1];
      GateTracksCalls(p, start, before);
      assert forall d :: d in calls <==> d in before || d == c;
      var q := Run(p, before);
      GateStep(q, c);
      Subset(q.snapshotted, Effect(q, c).0.snapshotted);
    }
  }

  lemma Subset<T>(a: set<T>, b: set<T>)
    ensures a <= b ==> |a| <= |b|
  {
    if a <= b {
      assert b == a + (b - a);
    }
  }

  lemma GateStep(p: State, c: Call)
    requires Ready(p)
    ensures var (q, sent) := Effect(p, c);
            && p.snapshotted <= q.snapshotted <= p.snapshotted + (if c.TickAt? then Served(p.rec, c.messages) else {})
            && (q.armRequested <==> p.armRequested || c.ArmAt?)
            && (q.startTime.Some? && p.startTime.None? ==> |q.snapshotted| >= p.settings.minPeerCount && q.armRequested)
            && (q.startTime.None? ==> p.startTime.None? && sent == [])
  {
    if c.TickAt? {
      TickFacts(p, c.messages, c.at);
      TickGate(p, c.messages, c.at);
    }
  }

  lemma TickGate(p: State, messages: seq<Incoming>, now: real)
    requires Ready(p)
    ensures var q := Advanced(p, messages, now).after;
            && p.snapshotted <= q.snapshotted <= p.snapshotted + Served(p.rec, messages)
            && q.armRequested == p.armRequested
            && (q.startTime.Some? && p.startTime.None? ==> |q.snapshotted| >= p.settings.minPeerCount && q.armRequested)
            && (q.startTime.None? && p.rec.events != [] ==> q.playing == p.playing)
  {
    MessagesTouchTheGate(p, messages, now);
    var q := HandledAll(p, messages, now);
    if p.playing && p.rec.events != [] && !q.paused {
      MarkFacts(q, now);
      if GateOf(q, now).Open? {
      }
    }
  }

  /**
   * A request that is answered also counts as a sign of life when it comes from another peer: the gate then opens
   * on the spot, and after any other answered request it waits.
   */
  lemma AnsweredRequestEndsDelayIff(p: State, m: Incoming, now: real)
    requires IsAnswered(p.rec, m) && p.waitForPeer && p.armRequested && p.settings.postSnapshotDelay > 0.0
    requires |p.snapshotted + {Requester(m).value}| >= p.settings.minPeerCount
    ensures GateOf(Handled(p, m, now), now).Open? <==> m.source.Some? && m.source.value != p.rec.selfGuid
  {
  }
}
