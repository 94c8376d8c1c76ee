// Playing a recording back: sync_recorder/player.py, start_playback, tick, arm_clock, pause and resume.
// Each call reads the wall clock once, and the network is one the caller supplied.
module Player {
  import opened Basics

  datatype Event = Event(offset: real, payload: int)

  /** A message waiting on the network. */
  datatype Incoming =
    | StateRequest(source: Option<Guid>, target: Guid, requester: Option<Guid>)
    | OtherMessage(source: Option<Guid>)

  /** What start_playback is asked for. */
  datatype Settings = Settings(
    speed: real, loop: bool, waitForPeer: bool, minPeerCount: int, postSnapshotDelay: real, drainSeconds: real)

  /** The recording, which does not change. */
  datatype Recording = Recording(selfGuid: Guid, events: seq<Event>, hasSnapshot: bool)

  datatype State = State(
    rec: Recording, settings: Settings, playing: bool, index: nat,
    startTime: Option<real>, drainDeadline: Option<real>, pauseStartedAt: Option<real>, paused: bool,
    waitForPeer: bool, armRequested: bool, gateClearedAt: Option<real>,
    snapshotSentAt: Option<real>, peerActive: bool, snapshotted: set<Guid>)

  // ------------------------------------------------------------------ one call

  /** Whom a request's snapshot goes to: the requester it names, else its source. */
  function Requester(m: Incoming): Option<Guid> {
    match m
    case StateRequest(source, _, requester) => if requester.Some? then requester else source
    case OtherMessage(_) => None
  }

  predicate IsAnswered(rec: Recording, m: Incoming) {
    m.StateRequest? && m.target == rec.selfGuid && Requester(m).Some? && rec.hasSnapshot
  }

  /** It names a source, and another one than this player. */
  predicate IsForeign(rec: Recording, m: Incoming) {
    m.source.Some? && m.source.value != rec.selfGuid
  }

  function Handled(p: State, m: Incoming, now: real): State {
    var q := if IsAnswered(p.rec, m)
             then p.(snapshotted := p.snapshotted + {Requester(m).value}, snapshotSentAt := Some(now), peerActive := false)
             else p;
    if IsForeign(p.rec, m) && q.snapshotSentAt.Some? then q.(peerActive := true) else q
  }

  function HandledAll(p: State, messages: seq<Incoming>, now: real): State {
    if messages == [] then p
    else Handled(HandledAll(p, messages[..|messages| - 1], now), messages[|messages| - 1], now)
  }

  datatype Gate = Open | Held | Raises

  /** The peer-join gate, for a player that is not paused. Raises: the delay is measured from a snapshot never sent. */
  function GateOf(p: State, now: real): Gate {
    if !p.waitForPeer then Open
    else if |p.snapshotted| < p.settings.minPeerCount then Held
    else if p.snapshotSentAt.None? then Raises
    else if !p.peerActive && now - p.snapshotSentAt.value < p.settings.postSnapshotDelay then Held
    else if p.armRequested then Open else Held
  }

  /** The gate's marks: when it first cleared, and the clock's start once it is open and armed. */
  function Marked(p: State, now: real): State {
    if !p.waitForPeer || |p.snapshotted| < p.settings.minPeerCount || p.snapshotSentAt.None?
      || (!p.peerActive && now - p.snapshotSentAt.value < p.settings.postSnapshotDelay) then p
    else
      var q := if p.gateClearedAt.None? then p.(gateClearedAt := Some(now)) else p;
      if p.armRequested then q.(waitForPeer := false, startTime := Some(now)) else q
  }

  /** The first event from k on that is not due at the offset. */
  function DueEnd(events: seq<Event>, k: nat, offset: real): (n: nat)
    requires k <= |events|
    ensures k <= n <= |events|
    ensures forall i | k <= i < n :: events[i].offset <= offset
    ensures n < |events| ==> events[n].offset > offset
    decreases |events| - k
  {
    if k < |events| && events[k].offset <= offset then DueEnd(events, k + 1, offset) else k
  }

  /** The point of the recording reached when the time played is `played`. */
  function Offset(played: real, speed: real): real {
    played * speed
  }

  datatype Ticked = Ticked(after: State, sent: seq<Event>, active: bool, raised: bool)

  predicate Sane(p: State) {
    p.index <= |p.rec.events|
  }

  function Advanced(p: State, messages: seq<Incoming>, now: real): Ticked
    requires Sane(p)
  {
    if !p.playing then Ticked(p, [], false, false)
    else if p.rec.events == [] then Ticked(p.(playing := false), [], false, false)
    else
      var q := HandledAll(p, messages, now);
      if q.paused then Ticked(q, [], true, false)
      else if GateOf(q, now).Raises? then Ticked(q, [], true, true)
      else if GateOf(q, now).Held? then Ticked(Marked(q, now), [], true, false)
      else Dispatched(Marked(q, now), now)
  }

  /** Past the gate: send what is due, then loop, drain or stop once everything has been sent. */
  function Dispatched(p: State, now: real): Ticked
  {
    if p.startTime.None? || p.index > |p.rec.events| then Ticked(p.(playing := false), [], false, false)
    else
      var n := DueEnd(p.rec.events, p.index, Offset(now - p.startTime.value, p.settings.speed));
      var sent, q := p.rec.events[p.index..n], p.(index := n);
      if n < |p.rec.events| then Ticked(q, sent, true, false)
      else if p.settings.loop then Ticked(q.(startTime := Some(now), index := 0), sent, true, false)
      else Ticked(Drained(q, now), sent, Drained(q, now).playing, false)
  }

  /** Everything is sent: linger for the drain window, if any, then stop. */
  function Drained(p: State, now: real): State {
    if p.settings.drainSeconds <= 0.0 then p.(playing := false)
    else
      var deadline := if p.drainDeadline.None? then now + p.settings.drainSeconds else p.drainDeadline.value;
      p.(drainDeadline := Some(deadline), playing := p.playing && now < deadline)
  }

  /** A pause in progress and the mark for peer activity are left as they were. */
  function Started(p: State, settings: Settings, now: real): State {
    p.(
      settings := settings, playing := true, index := 0, drainDeadline := None,
      startTime := if settings.waitForPeer then None else Some(now),
      waitForPeer := settings.waitForPeer, armRequested := false, gateClearedAt := None,
      snapshotSentAt := None, snapshotted := {})
  }

  function PausedAt(p: State, now: real): State {
    if p.paused then p else p.(paused := true, pauseStartedAt := Some(now))
  }

  function ResumedAt(p: State, now: real): State
    requires p.paused ==> p.pauseStartedAt.Some?
  {
    if !p.paused then p
    else
      var elapsed := now - p.pauseStartedAt.value;
      p.(
        paused := false, pauseStartedAt := None,
        startTime := if p.startTime.Some? then Some(p.startTime.value + elapsed) else None,
        drainDeadline := if p.drainDeadline.Some? then Some(p.drainDeadline.value + elapsed) else None)
  }

  // ------------------------------------------------------------------ the player

  /** Send from k on whatever is due. */
  method SendDue(events: seq<Event>, k: nat, offset: real) returns (next: nat, sent: seq<Event>)
    requires k <= |events|
    ensures next == DueEnd(events, k, offset) && sent == events[k..next]
  {
    next, sent := k, [];
    while next < |events| && events[next].offset <= offset
      invariant k <= next <= |events| && DueEnd(events, next, offset) == DueEnd(events, k, offset)
      invariant sent == events[k..next]
    {
      sent, next := sent + [events[next]], next + 1;
    }
  }

  class SyncPlayer {
    const rec: Recording
    var settings: Settings
    var playing: bool
    var index: nat
    var startTime: Option<real>
    var drainDeadline: Option<real>
    var pauseStartedAt: Option<real>
    var paused: bool
    var waitForPeer: bool
    var armRequested: bool
    var gateClearedAt: Option<real>
    var snapshotSentAt: Option<real>
    var peerActive: bool
    var snapshotted: set<Guid>

    function View(): State
      reads this
    {
      State(rec, settings, playing, index, startTime, drainDeadline, pauseStartedAt, paused,
            waitForPeer, armRequested, gateClearedAt, snapshotSentAt, peerActive, snapshotted)
    }

    ghost predicate Valid()
      reads this
    {
      index <= |rec.events| && (paused <==> pauseStartedAt.Some?)
    }

    constructor (rec: Recording)
      ensures Valid() && this.rec == rec && !playing && !paused && !peerActive
    {
      this.rec, settings := rec, Settings(1.0, false, false, 1, 3.0, 0.0);
      playing, index, startTime, drainDeadline, pauseStartedAt, paused := false, 0, None, None, None, false;
      waitForPeer, armRequested, gateClearedAt := false, false, None;
      snapshotSentAt, peerActive, snapshotted := None, false, {};
    }

    method StartPlayback(settings: Settings, now: real) returns (raised: bool)
      requires Valid()
      modifies this
      ensures Valid() && raised == (rec.events == [])
      ensures View() == if raised then old(View()) else Started(old(View()), settings, now)
    {
      if rec.events == [] {
        return true;
      }
      snapshotSentAt, snapshotted := None, {};
      this.settings, waitForPeer, armRequested, gateClearedAt := settings, settings.waitForPeer, false, None;
      startTime := if settings.waitForPeer then None else Some(now);
      index, drainDeadline, playing := 0, None, true;
      return false;
    }

    method ArmClock()
      requires Valid()
      modifies this`armRequested
      ensures Valid() && View() == old(View()).(armRequested := true)
    {
      armRequested := true;
    }

    method Pause(now: real)
      requires Valid()
      modifies this`paused, this`pauseStartedAt
      ensures Valid() && View() == PausedAt(old(View()), now)
    {
      if !paused {
        paused, pauseStartedAt := true, Some(now);
      }
    }

    method Resume(now: real)
      requires Valid()
      modifies this`paused, this`pauseStartedAt, this`startTime, this`drainDeadline
      ensures Valid() && View() == ResumedAt(old(View()), now)
    {
      if paused {
        var elapsed := now - pauseStartedAt.value;
        paused, pauseStartedAt := false, None;
        if startTime.Some? {
          startTime := Some(startTime.value + elapsed);
        }
        if drainDeadline.Some? {
          drainDeadline := Some(drainDeadline.value + elapsed);
        }
      }
    }

    method ProcessNetworkRequests(messages: seq<Incoming>, now: real)
      requires Valid()
      modifies this`snapshotSentAt, this`snapshotted, this`peerActive
      ensures Valid() && View() == HandledAll(old(View()), messages, now)
    {
      for n := 0 to |messages|
        invariant Valid() && View() == HandledAll(old(View()), messages[..n], now)
      {
        assert messages[..n + 1][..n] == messages[..n];
        var m := messages[n];
        if m.StateRequest? && m.target == rec.selfGuid {
          var requester := if m.requester.Some? then m.requester else m.source;
          if requester.Some? && rec.hasSnapshot {
            snapshotted, snapshotSentAt, peerActive := snapshotted + {requester.value}, Some(now), false;
          }
        }
        if m.source.Some? && m.source.value != rec.selfGuid && snapshotSentAt.Some? {
          peerActive := true;
        }
      }
      assert messages[..|messages|] == messages;
    }

    method PassGate(now: real) returns (gate: Gate)
      requires Valid()
      modifies this`waitForPeer, this`startTime, this`gateClearedAt
      ensures Valid() && gate == GateOf(old(View()), now) && View() == Marked(old(View()), now)
    {
      if !waitForPeer {
        return Open;
      }
      if |snapshotted| < settings.minPeerCount {
        return Held;
      }
      if snapshotSentAt.None? {
        return Raises;
      }
      if !peerActive && now - snapshotSentAt.value < settings.postSnapshotDelay {
        return Held;
      }
      if gateClearedAt.None? {
        gateClearedAt := Some(now);
      }
      if !armRequested {
        return Held;
      }
      waitForPeer, startTime := false, Some(now);
      return Open;
    }

    method Dispatch(now: real) returns (sent: seq<Event>, active: bool)
      requires Valid()
      modifies this`index, this`startTime, this`drainDeadline, this`playing
      ensures Valid() && Ticked(View(), sent, active, false) == Dispatched(old(View()), now)
    {
      if startTime.None? {
        playing := false;
        return [], false;
      }
      var next: nat;
      next, sent := SendDue(rec.events, index, Offset(now - startTime.value, settings.speed));
      index := next;
      assert View() == old(View()).(index := next);
      if index < |rec.events| {
        return sent, true;
      }
      if settings.loop {
        startTime, index := Some(now), 0;
        return sent, true;
      }
      Drain(now);
      return sent, playing;
    }

    method Drain(now: real)
      requires Valid()
      modifies this`drainDeadline, this`playing
      ensures Valid() && View() == Drained(old(View()), now)
    {
      if settings.drainSeconds > 0.0 {
        if drainDeadline.None? {
          drainDeadline := Some(now + settings.drainSeconds);
        }
        if now < drainDeadline.value {
          return;
        }
      }
      playing := false;
    }

    method Tick(messages: seq<Incoming>, now: real) returns (sent: seq<Event>, active: bool, raised: bool)
      requires Valid()
      modifies this
      ensures Valid() && Ticked(View(), sent, active, raised) == Advanced(old(View()), messages, now)
    {
      if !playing {
        return [], false, false;
      }
      if rec.events == [] {
        playing := false;
        return [], false, false;
      }
      ProcessNetworkRequests(messages, now);
      if paused {
        return [], true, false;
      }
      var gate := PassGate(now);
      if !gate.Open? {
        return [], true, gate.Raises?;
      }
      sent, active := Dispatch(now);
      raised := false;
    }
  }
}
