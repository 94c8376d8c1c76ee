// Recording a session: sync_recorder/recorder.py, tick and _drive_periodic_capture. Each tick reads the clock once.
module Recorder {
  import opened Basics

  datatype Incoming = IAmMaster(master: Option<Guid>) | StateSnapshot(target: Guid) | OtherMessage(payload: int)

  datatype Outgoing = WhoIsMaster | StateRequest(target: Option<Guid>)

  datatype Handshake = Discovering | RequestingState | Recording

  datatype Config = Config(
    selfGuid: Guid, captureInitial: bool, capturePeriodic: bool, minInterval: real, minSilence: real)

  datatype State = State(
    handshake: Handshake, master: Option<Guid>, sentDiscover: real, sentRequest: real, requestStart: real,
    captured: bool, cachedMaster: Option<Guid>,
    lastMessage: real, lastSnapshot: real, lastRequest: real, pending: bool)

  datatype Recorded = Recorded(offset: real, message: Incoming)

  const ACTIVE_REQUEST_TIMEOUT: real := 2.0

  /** A recording begins at t. */
  function Begun(c: Config, t: real): State {
    State(if c.captureInitial then Handshake.Discovering else Recording, None, 0.0, 0.0, 0.0, !c.captureInitial, None, t, 0.0, 0.0, false)
  }

  // ------------------------------------------------------------------ the steps of a tick

  /** The initial handshake: discover the master, ask it for the state, give up and rediscover. */
  function Handshaken(c: Config, s: State, now: real): (State, seq<Outgoing>) {
    if !c.captureInitial || s.captured then (s, [])
    else
      match s.handshake
      case Discovering =>
        if now - s.sentDiscover > 1.0 then (s.(sentDiscover := now), [WhoIsMaster]) else (s, [])
      case RequestingState =>
        if now - s.requestStart > 4.0 then (s.(handshake := Handshake.Discovering, master := None), [])
        else if now - s.sentRequest > 2.0 then (s.(sentRequest := now), [StateRequest(s.master)])
        else (s, [])
      case Recording => (s, [])
  }

  /** _drive_periodic_capture. */
  function Driven(c: Config, s: State, now: real): (State, seq<Outgoing>) {
    if s.pending then
      if now - s.lastRequest > ACTIVE_REQUEST_TIMEOUT
      then (s.(pending := false, cachedMaster := None, lastRequest := now), [WhoIsMaster])
      else (s, [])
    else if s.cachedMaster.None? then
      if now - s.lastRequest >= c.minInterval then (s.(lastRequest := now), [WhoIsMaster]) else (s, [])
    else if now - s.lastMessage < c.minSilence || now - s.lastRequest < c.minInterval
      || (s.lastSnapshot != 0.0 && now - s.lastSnapshot < c.minInterval) then (s, [])
    else (s.(lastRequest := now, pending := true), [StateRequest(s.cachedMaster)])
  }

  function Received(c: Config, s: State, m: Incoming, now: real): State {
    var heard := s.(lastMessage := now);
    match m
    case OtherMessage(_) => heard
    case IAmMaster(master) =>
      var cached := if master.Some? then heard.(cachedMaster := master) else heard;
      if !c.captureInitial || s.captured || s.handshake.RequestingState? then cached
      else if master.Some? then cached.(master := master, handshake := RequestingState, sentRequest := 0.0, requestStart := now)
      else cached.(master := None)
    case StateSnapshot(target) =>
      var landed := heard.(lastSnapshot := now, pending := false);
      if c.captureInitial && !s.captured && s.handshake.RequestingState? && target == c.selfGuid
      then landed.(handshake := Recording, captured := true) else landed
  }

  function ReceivedAll(c: Config, s: State, messages: seq<Incoming>, now: real): State {
    if messages == [] then s
    else Received(c, ReceivedAll(c, s, messages[..|messages| - 1], now), messages[|messages| - 1], now)
  }

  function Ticked(c: Config, s: State, messages: seq<Incoming>, now: real): (State, seq<Outgoing>) {
    var (h, first) := Handshaken(c, s, now);
    var (d, second) := if c.capturePeriodic && h.captured then Driven(c, h, now) else (h, []);
    (ReceivedAll(c, d, messages, now), first + second)
  }

  // ------------------------------------------------------------------ the recorder

  class SyncRecorder {
    const config: Config
    const startTime: real
    var events: seq<Recorded>
    var handshake: Handshake
    var master: Option<Guid>
    var sentDiscover: real
    var sentRequest: real
    var requestStart: real
    var captured: bool
    var cachedMaster: Option<Guid>
    var lastMessage: real
    var lastSnapshot: real
    var lastRequest: real
    var pending: bool

    function View(): State
      reads this
    {
      State(handshake, master, sentDiscover, sentRequest, requestStart, captured, cachedMaster,
            lastMessage, lastSnapshot, lastRequest, pending)
    }

    /** start. */
    constructor (config: Config, now: real)
      ensures this.config == config && startTime == now && View() == Begun(config, now) && events == []
    {
      this.config, startTime, events := config, now, [];
      handshake, master := if config.captureInitial then Handshake.Discovering else Recording, None;
      sentDiscover, sentRequest, requestStart, captured := 0.0, 0.0, 0.0, !config.captureInitial;
      cachedMaster, lastMessage, lastSnapshot, lastRequest, pending := None, now, 0.0, 0.0, false;
    }

    /** Every message waiting is recorded once, in order, at the tick's offset. */
    method Tick(messages: seq<Incoming>, now: real) returns (sent: seq<Outgoing>, recorded: seq<Recorded>)
      modifies this
      ensures (View(), sent) == Ticked(config, old(View()), messages, now)
      ensures events == old(events) + recorded && |recorded| == |messages|
      ensures forall i | 0 <= i < |messages| :: recorded[i] == Recorded(now - startTime, messages[i])
    {
      sent := DriveHandshake(now);
      var more: seq<Outgoing> := [];
      if config.capturePeriodic && captured {
        more := DrivePeriodicCapture(now);
      }
      sent := sent + more;
      recorded := RecordAll(messages, now);
    }

    method RecordAll(messages: seq<Incoming>, now: real) returns (recorded: seq<Recorded>)
      modifies this
      ensures View() == ReceivedAll(config, old(View()), messages, now)
      ensures events == old(events) + recorded && |recorded| == |messages|
      ensures forall i | 0 <= i < |messages| :: recorded[i] == Recorded(now - startTime, messages[i])
    {
      recorded := [];
      for n := 0 to |messages|
        invariant View() == ReceivedAll(config, old(View()), messages[..n], now)
        invariant |recorded| == n && events == old(events) + recorded
        invariant forall i | 0 <= i < n :: recorded[i] == Recorded(now - startTime, messages[i])
      {
        assert messages[..n + 1][..n] == messages[..n];
        Receive(messages[n], now);
        var event := Recorded(now - startTime, messages[n]);
        events, recorded := events + [event], recorded + [event];
      }
      assert messages[..|messages|] == messages;
    }

    method DriveHandshake(now: real) returns (sent: seq<Outgoing>)
      modifies this`sentDiscover, this`handshake, this`master, this`sentRequest
      ensures (View(), sent) == Handshaken(config, old(View()), now)
    {
      sent := [];
      if config.captureInitial && !captured {
        if handshake.Discovering? {
          if now - sentDiscover > 1.0 {
            sent, sentDiscover := [WhoIsMaster], now;
          }
        } else if handshake.RequestingState? {
          if now - requestStart > 4.0 {
            handshake, master := Handshake.Discovering, None;
          } else if now - sentRequest > 2.0 {
            sent, sentRequest := [StateRequest(master)], now;
          }
        }
      }
    }

    method DrivePeriodicCapture(now: real) returns (sent: seq<Outgoing>)
      modifies this`pending, this`cachedMaster, this`lastRequest
      ensures (View(), sent) == Driven(config, old(View()), now)
    {
      if pending {
        if now - lastRequest > ACTIVE_REQUEST_TIMEOUT {
          pending, cachedMaster, lastRequest := false, None, now;
          return [WhoIsMaster];
        }
        return [];
      }
      if cachedMaster.None? {
        if now - lastRequest >= config.minInterval {
          lastRequest := now;
          return [WhoIsMaster];
        }
        return [];
      }
      if now - lastMessage < config.minSilence {
        return [];
      }
      if now - lastRequest < config.minInterval {
        return [];
      }
      if lastSnapshot != 0.0 && now - lastSnapshot < config.minInterval {
        return [];
      }
      lastRequest, pending := now, true;
      return [StateRequest(cachedMaster)];
    }

    method Receive(m: Incoming, now: real)
      modifies this
      ensures View() == Received(config, old(View()), m, now) && events == old(events)
    {
      lastMessage := now;
      match m
      case OtherMessage(_) =>
      case IAmMaster(announced) =>
        if announced.Some? {
          cachedMaster := announced;
        }
        if config.captureInitial && !captured && !handshake.RequestingState? {
          master := announced;
          if announced.Some? {
            handshake, sentRequest, requestStart := RequestingState, 0.0, now;
          }
        }
      case StateSnapshot(target) =>
        lastSnapshot, pending := now, false;
        if config.captureInitial && !captured && handshake.RequestingState? && target == config.selfGuid {
          handshake, captured := Recording, true;
        }
    }
  }

  // ------------------------------------------------------------------ runs

  datatype TickInput = TickInput(at: real, messages: seq<Incoming>)

  function After(c: Config, s: State, ticks: seq<TickInput>): State {
    if ticks == [] then s
    else
      var last := ticks[|ticks| - 1];
      Ticked(c, After(c, s, ticks[..|ticks| - 1]), last.messages, last.at).0
  }

  /** Tick i sends a periodic request, given the state it finds. */
  predicate Requests(c: Config, s: State, now: real) {
    var h := Handshaken(c, s, now).0;
    c.capturePeriodic && h.captured && Driven(c, h, now).1 != [] && Driven(c, h, now).1[0].StateRequest?
  }

  predicate RequestsAt(c: Config, s: State, ticks: seq<TickInput>, i: nat)
    requires i < |ticks|
  {
    Requests(c, After(c, s, ticks[..i]), ticks[i].at)
  }

  ghost predicate InTime(start: real, ticks: seq<TickInput>) {
    forall i, j | 0 <= i <= j < |ticks| :: start <= ticks[i].at <= ticks[j].at
  }

  /** What one tick does to the marks that bound the periodic requests. */
  lemma TickMarks(c: Config, s: State, messages: seq<Incoming>, now: real)
    ensures var t := Ticked(c, s, messages, now).0;
            && t.lastRequest in {s.lastRequest, now} && (Requests(c, s, now) ==> t.lastRequest == now)
            && t.lastMessage == (if messages == [] then s.lastMessage else now)
            && t.lastSnapshot == (if HasSnapshot(messages) then now else s.lastSnapshot)
            && (s.pending && now - s.lastRequest <= ACTIVE_REQUEST_TIMEOUT ==> t.lastRequest == s.lastRequest)
            && (HasSnapshot(messages) ==> !t.pending)
            && (!HasSnapshot(messages) ==>
                  t.pending == (Requests(c, s, now)
                    || (s.pending && !(c.capturePeriodic && s.captured && now - s.lastRequest > ACTIVE_REQUEST_TIMEOUT))))
  {
    var h := Handshaken(c, s, now).0;
    var d := if c.capturePeriodic && h.captured then Driven(c, h, now).0 else h;
    ReceivedMarks(c, d, messages, now);
  }

  predicate HasSnapshot(messages: seq<Incoming>) {
    exists m | m in messages :: m.StateSnapshot?
  }

  lemma {:induction false} ReceivedMarks(c: Config, s: State, messages: seq<Incoming>, now: real)
    ensures var t := ReceivedAll(c, s, messages, now);
            && t.lastRequest == s.lastRequest
            && t.lastMessage == (if messages == [] then s.lastMessage else now)
            && t.lastSnapshot == (if HasSnapshot(messages) then now else s.lastSnapshot)
            && t.pending == (s.pending && !HasSnapshot(messages))
  {
    if messages != [] {
      var init, last := messages[..|messages| - 1], messages[|messages| - 1];
      ReceivedMarks(c, s, init, now);
      assert forall m :: m in messages <==> m in init || m == last;
    }
  }

  /** The marks a run has left: no later than the clock, and as late as the ticks that set them. */
  lemma {:induction false} MarksOfRun(c: Config, s: State, ticks: seq<TickInput>, i: nat)
    requires i < |ticks| && InTime(s.lastRequest, ticks)
    ensures var t := After(c, s, ticks);
            && t.lastRequest <= ticks[|ticks| - 1].at
            && (RequestsAt(c, s, ticks, i) ==> t.lastRequest >= ticks[i].at)
            && (ticks[i].messages != [] ==> t.lastMessage >= ticks[i].at)
            && (HasSnapshot(ticks[i].messages) ==> t.lastSnapshot >= ticks[i].at)
  {
    var before, last := ticks[..|ticks| - 1], ticks[|ticks| - 1];
    TickMarks(c, After(c, s, before), last.messages, last.at);
    if before != [] {
      var k := if i < |before| then i else |before| - 1;
      assert ticks[..i] == before[..i];
      MarksOfRun(c, s, before, k);
    }
  }

  /**
   * Bounds on the periodic requests, over any run with a clock that never runs back: two of them are at least the
   * interval apart, each follows the last message by at least the silence, and each follows the last snapshot by at
   * least the interval.
   */
  lemma RequestsAreSpaced(c: Config, s: State, ticks: seq<TickInput>, i: nat, j: nat)
    requires i < j < |ticks| && InTime(s.lastRequest, ticks) && s.lastRequest >= 0.0 && RequestsAt(c, s, ticks, j)
    ensures RequestsAt(c, s, ticks, i) ==> ticks[j].at - ticks[i].at >= c.minInterval
    ensures ticks[i].messages != [] ==> ticks[j].at - ticks[i].at >= c.minSilence
    ensures HasSnapshot(ticks[i].messages) && ticks[i].at > 0.0 ==> ticks[j].at - ticks[i].at >= c.minInterval
  {
    var before := ticks[..j];
    assert before[..i] == ticks[..i];
    MarksOfRun(c, s, before, i);
  }

  /**
   * A request stays outstanding until a snapshot lands or its time is up: no second one is sent as long as no tick
   * since has received a snapshot or come more than the timeout after it.
   */
  lemma {:induction false} OneRequestOutstanding(c: Config, s: State, ticks: seq<TickInput>, i: nat, j: nat)
    requires i < j < |ticks| && RequestsAt(c, s, ticks, i)
    requires forall k | i <= k < j :: !HasSnapshot(ticks[k].messages)
    requires forall k | i <= k < j :: ticks[k].at - ticks[i].at <= 2.0
    ensures After(c, s, ticks[..j]).pending && After(c, s, ticks[..j]).lastRequest == ticks[i].at
    ensures !RequestsAt(c, s, ticks, j)
    decreases j
  {
    assert ticks[..j][..j - 1] == ticks[..j - 1];
    TickMarks(c, After(c, s, ticks[..j - 1]), ticks[j - 1].messages, ticks[j - 1].at);
    if i < j - 1 {
      OneRequestOutstanding(c, s, ticks, i, j - 1);
    }
  }
}
