// How playback ends, or begins again: sync_recorder/player.py, the end of tick, over whole runs of calls.
module PlayerEnds {
  import opened Basics
  import opened Player
  import opened PlayerRuns

  // ------------------------------------------------------------------ the drain window

  /** How long of the time since `start` the player was paused. */
  function PausedFor(start: real, calls: seq<Call>): real {
    if calls == [] then 0.0
    else
      var before := calls[..|calls| - 1];
      PausedFor(start, before) + if PausedAfter(before) then calls[|calls| - 1].at - LastAt(start, before) else 0.0
  }

  /** Everything is sent and the window, counted from t, lasts so long; a pause in progress is not counted in yet. */
  ghost predicate Draining(p: State, t: real, pausedFor: real, now: real) {
    && Ready(p) && p.rec.events != [] && p.index == |p.rec.events| && !p.waitForPeer && p.settings.drainSeconds > 0.0
    && p.drainDeadline
       == Some(t + p.settings.drainSeconds + pausedFor - if p.paused then now - p.pauseStartedAt.value else 0.0)
  }

  lemma DrainingStep(p: State, c: Call, t: real, pausedFor: real, last: real)
    requires Draining(p, t, pausedFor, last) && p.playing
    ensures var q := Effect(p, c).0;
            && Draining(q, t, pausedFor + (if p.paused then c.at - last else 0.0), c.at)
            && q.paused == (if c.PauseAt? then true else if c.ResumeAt? then false else p.paused)
            && q.playing == (c.TickAt? && !p.paused ==> c.at < p.drainDeadline.value)
  {
    StaysReady(p, c);
    if c.TickAt? {
      MessagesTouchTheGate(p, c.messages, c.at);
    }
  }

  /** As long as no call stops it, the window moves by exactly the time paused. */
  lemma {:induction false} DrainingLasts(p: State, t: real, calls: seq<Call>)
    requires Draining(p, t, 0.0, t) && p.playing && !p.paused
    requires Run(p, calls).playing
    ensures Draining(Run(p, calls), t, PausedFor(t, calls), LastAt(t, calls))
    ensures Run(p, calls).paused == PausedAfter(calls)
  {
    if calls != [] {
      var before, c := calls[..|calls| - 1], calls[|calls| - 1];
      if Run(p, before).playing {
        DrainingLasts(p, t, before);
        DrainingStep(Run(p, before), c, t, PausedFor(t, before), LastAt(t, before));
      } else {
        StoppedStaysStopped(Run(p, before), c);
      }
    }
  }

  lemma StoppedStaysStopped(p: State, c: Call)
    requires Ready(p) && !p.playing
    ensures !Effect(p, c).0.playing && Effect(p, c).1 == []
  {
  }

  /** The tick at t, on a player that is not paused, sends the last of the recording. */
  ghost predicate SendsTheRest(p: State, t: real, messages: seq<Incoming>) {
    && Ready(p) && p.rec.events != [] && p.playing && !p.paused && p.drainDeadline.None?
    && var q := Run(p, [TickAt(t, messages)]); !q.waitForPeer && q.index == |p.rec.events|
  }

  /**
   * Without a drain window playback ends with the tick that sends the last event. With one it goes on from there for as
   * long as the window, pauses not counted, and ends with the first tick behind that.
   */
  lemma {:induction false} PlaybackEndsIff(
    p: State, t: real, messages: seq<Incoming>, calls: seq<Call>, u: real, more: seq<Incoming>)
    requires SendsTheRest(p, t, messages)
    ensures var q := Run(p, [TickAt(t, messages)]);
            && q.playing == (p.settings.drainSeconds > 0.0)
            && (q.playing && Run(q, calls).playing && !PausedAfter(calls) ==>
                  (Effect(Run(q, calls), TickAt(u, more)).0.playing
                   <==> u < t + p.settings.drainSeconds + PausedFor(t, calls)))
  {
    var q := Run(p, [TickAt(t, messages)]);
    LastTick(p, t, messages);
    if q.playing && Run(q, calls).playing && !PausedAfter(calls) {
      DrainingLasts(q, t, calls);
      DrainingStep(Run(q, calls), TickAt(u, more), t, PausedFor(t, calls), LastAt(t, calls));
    }
  }

  lemma LastTick(p: State, t: real, messages: seq<Incoming>)
    requires SendsTheRest(p, t, messages)
    ensures var q := Run(p, [TickAt(t, messages)]);
            && q.playing == (p.settings.drainSeconds > 0.0) && !q.paused
            && (q.playing ==> Draining(q, t, 0.0, t))
  {
    var c := TickAt(t, messages);
    assert [c][..0] == [] && Run(p, [c]) == Effect(p, c).0;
    MessagesTouchTheGate(p, messages, t);
    var h := HandledAll(p, messages, t);
    MarkFacts(h, t);
    if GateOf(h, t).Open? {
      LastDispatch(Marked(h, t), t);
    }
  }

  lemma LastDispatch(p: State, now: real)
    requires Ready(p) && p.rec.events != [] && p.playing && !p.paused && p.drainDeadline.None? && !p.waitForPeer
    requires Dispatched(p, now).after.index == |p.rec.events|
    ensures var q := Dispatched(p, now).after;
            && q.playing == (p.settings.drainSeconds > 0.0) && !q.paused && q.settings == p.settings
            && (q.playing ==> Draining(q, now, 0.0, now))
  {
  }

  // ------------------------------------------------------------------ a tick that raises

  /** A snapshot has been sent exactly when somebody has been served. */
  predicate SentIffServed(p: State) {
    p.snapshotSentAt.None? <==> p.snapshotted == {}
  }

  lemma {:induction false} MessagesKeepServed(p: State, messages: seq<Incoming>, now: real)
    requires SentIffServed(p)
    ensures SentIffServed(HandledAll(p, messages, now))
  {
    if messages != [] {
      MessagesKeepServed(p, messages[..|messages| - 1], now);
    }
  }

  lemma WaitingTick(p: State, messages: seq<Incoming>, now: real)
    requires Ready(p) && p.playing && p.rec.events != [] && p.waitForPeer && SentIffServed(p)
    ensures var t := Advanced(p, messages, now);
            && (t.after.waitForPeer ==>
                  t.after.playing && SentIffServed(t.after) && t.after.snapshotted == p.snapshotted + Served(p.rec, messages))
            && (t.raised <==> !p.paused && p.settings.minPeerCount <= 0 && p.snapshotted + Served(p.rec, messages) == {})
  {
    MessagesTouchTheGate(p, messages, now);
    MessagesKeepServed(p, messages, now);
    var q := HandledAll(p, messages, now);
    if !q.paused {
      MarkFacts(q, now);
    }
  }

  /** As long as the gate waits the player plays, and has served whoever has asked. */
  lemma {:induction false} WaitingServes(p: State, start: real, calls: seq<Call>)
    requires JustStarted(p, start) && p.waitForPeer && Run(p, calls).waitForPeer
    ensures var q := Run(p, calls); q.playing && SentIffServed(q) && q.snapshotted == AskedOver(p.rec, calls)
  {
    if calls != [] {
      var before, c := calls[..|calls| - 1], calls[|calls| - 1];
      var q := Run(p, before);
      if c.TickAt? {
        TickFacts(q, c.messages, c.at);
        WaitingServes(p, start, before);
        WaitingTick(q, c.messages, c.at);
      } else {
        WaitingServes(p, start, before);
      }
    }
  }

  /**
   * A tick raises, for want of a snapshot to measure the delay from, exactly when the gate still waits, the player is not
   * paused, no peer at all is required and none has asked.
   */
  lemma {:induction false} TickRaisesIff(p: State, start: real, calls: seq<Call>, messages: seq<Incoming>, now: real)
    requires JustStarted(p, start)
    ensures Advanced(Run(p, calls), messages, now).raised <==>
              && Run(p, calls).waitForPeer && !PausedAfter(calls)
              && p.settings.minPeerCount <= 0 && AskedOver(p.rec, calls + [TickAt(now, messages)]) == {}
  {
    var c := TickAt(now, messages);
    assert (calls + [c])[..|calls|] == calls;
    ClockTracksTimePlayed(p, start, calls);
    var q := Run(p, calls);
    if q.waitForPeer {
      NeverWaitsAnew(p, calls);
      WaitingServes(p, start, calls);
      WaitingTick(q, messages, now);
    } else {
      MessagesTouchTheGate(q, messages, now);
    }
  }

  lemma {:induction false} NeverWaitsAnew(p: State, calls: seq<Call>)
    requires Ready(p) && Run(p, calls).waitForPeer
    ensures p.waitForPeer
  {
    if calls != [] {
      var before, c := calls[..|calls| - 1], calls[|calls| - 1];
      if c.TickAt? {
        TickFacts(Run(p, before), c.messages, c.at);
      }
      NeverWaitsAnew(p, before);
    }
  }

  // ------------------------------------------------------------------ looping

  /** A looping player that plays. */
  ghost predicate Looping(p: State) {
    && p.settings.loop && p.playing && p.rec.events != [] && p.index < |p.rec.events|
    && (p.paused <==> p.pauseStartedAt.Some?) && (p.waitForPeer <==> p.startTime.None?)
  }

  function LoopEffect(p: State, c: Call): (State, seq<Event>)
    requires Looping(p)
  {
    match c
    case TickAt(at, messages) => var t := Advanced(p, messages, at); (t.after, t.sent)
    case PauseAt(at) => (PausedAt(p, at), [])
    case ResumeAt(at) => (ResumedAt(p, at), [])
    case ArmAt(_) => (p.(armRequested := true), [])
  }

  /** A call at `at`, from p to q. What it sends goes on from the index and is due; past the last event a round begins. */
  ghost predicate GoesRound(p: State, q: State, sent: seq<Event>, at: real)
    requires Looping(p)
  {
    && Looping(q) && q.rec == p.rec && q.settings == p.settings
    && (if q.index == 0 && sent != [] then sent == p.rec.events[p.index..] && q.startTime == Some(at)
        else p.index <= q.index && sent == p.rec.events[p.index..q.index])
    && (sent != [] ==> !p.paused)
    && (forall e | e in sent && p.startTime.Some? :: e.offset <= Offset(at - p.startTime.value, p.settings.speed))
    && (forall e | e in sent && p.startTime.None? :: e.offset <= Offset(0.0, p.settings.speed))
  }

  lemma LoopDispatch(p: State, now: real)
    requires Looping(p) && !p.paused && p.startTime.Some?
    ensures var t := Dispatched(p, now); GoesRound(p, t.after, t.sent, now)
  {
  }

  lemma LoopTick(p: State, messages: seq<Incoming>, now: real)
    requires Looping(p)
    ensures var t := Advanced(p, messages, now); GoesRound(p, t.after, t.sent, now)
  {
    var q := HandledAll(p, messages, now);
    MessagesTouchTheGate(p, messages, now);
    if !q.paused {
      LoopGate(q, now);
    }
    if !q.paused && GateOf(q, now).Open? {
      LoopDispatch(Marked(q, now), now);
    }
  }

  lemma LoopGate(p: State, now: real)
    requires Looping(p) && !p.paused
    ensures var q := Marked(p, now);
            && Looping(q) && q == p.(waitForPeer := q.waitForPeer, startTime := q.startTime, gateClearedAt := q.gateClearedAt)
            && (GateOf(p, now).Open? ==> q.startTime.Some?)
            && (p.startTime.Some? ==> q.startTime == p.startTime) && (p.startTime.None? && q.startTime.Some? ==> q.startTime == Some(now))
  {
  }

  lemma LoopStep(p: State, c: Call)
    requires Looping(p)
    ensures GoesRound(p, LoopEffect(p, c).0, LoopEffect(p, c).1, c.at)
  {
    if c.TickAt? {
      LoopTick(p, c.messages, c.at);
    }
  }

  function LoopRun(p: State, calls: seq<Call>): (q: State)
    requires Looping(p)
    ensures Looping(q) && q.rec == p.rec && q.settings == p.settings
  {
    if calls == [] then p
    else
      var before := LoopRun(p, calls[..|calls| - 1]);
      LoopStep(before, calls[|calls| - 1]);
      LoopEffect(before, calls[|calls| - 1]).0
  }

  function LoopSent(p: State, calls: seq<Call>): seq<Event>
    requires Looping(p)
  {
    if calls == [] then []
    else LoopSent(p, calls[..|calls| - 1]) + LoopEffect(LoopRun(p, calls[..|calls| - 1]), calls[|calls| - 1]).1
  }

  function Repeated(events: seq<Event>, rounds: nat): seq<Event> {
    if rounds == 0 then [] else Repeated(events, rounds - 1) + events
  }

  /** Whatever the calls, a looping player plays on, and what it has sent is the recording over and over, up to the index. */
  lemma {:induction false} LoopSendsOverAndOver(p: State, calls: seq<Call>) returns (rounds: nat)
    requires Looping(p) && p.index == 0
    ensures LoopSent(p, calls) == Repeated(p.rec.events, rounds) + p.rec.events[..LoopRun(p, calls).index]
    ensures LoopRun(p, calls).playing
  {
    if calls == [] {
      rounds := 0;
    } else {
      var before, c := calls[..|calls| - 1], calls[|calls| - 1];
      var n := LoopSendsOverAndOver(p, before);
      LoopStep(LoopRun(p, before), c);
      rounds := RoundsOn(LoopRun(p, before), LoopRun(p, calls), LoopEffect(LoopRun(p, before), c).1, c.at, n);
    }
  }

  lemma RoundsOn(p: State, q: State, sent: seq<Event>, at: real, n: nat) returns (rounds: nat)
    requires Looping(p) && GoesRound(p, q, sent, at)
    ensures Repeated(p.rec.events, n) + p.rec.events[..p.index] + sent
         == Repeated(p.rec.events, rounds) + p.rec.events[..q.index]
  {
    var events := p.rec.events;
    if q.index == 0 && sent != [] {
      rounds := n + 1;
      assert events[..p.index] + sent == events;
      assert Repeated(events, n) + events[..p.index] + sent == Repeated(events, n) + (events[..p.index] + sent);
    } else {
      rounds := n;
      assert events[..p.index] + sent == events[..q.index];
    }
  }

  /** Starting a looping player that is not paused makes it one that plays so, from the first event. */
  lemma StartBeginsALoop(p: State, settings: Settings, now: real)
    requires p.rec.events != [] && !p.paused && p.pauseStartedAt.None? && settings.loop
    ensures Looping(Started(p, settings, now)) && Started(p, settings, now).index == 0
  {
  }
}
