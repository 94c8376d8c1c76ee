// What recovery keeps over every run of ticks and of calls by the host application.
module RecoveryRuns {
  import opened Basics
  import opened Recovery

  // ------------------------------------------------------------------ every run

  /**
   * A tick with the batch it drains, or something the host application does: a structural broadcast that is refused,
   * a request on its own account, a start, an election of itself, an object that it adds or takes away.
   */
  datatype Event =
    | Refused(syncing: bool, at: real)
    | Asked(reason: Reason, wall: real, at: real)
    | Started(at: real)
    | ElectedSelf(at: real)
    | Brought(guids: set<Guid>, at: real)
    | Took(guids: set<Guid>, at: real)
    | Tick(messages: seq<Message>, wall: real, at: real)

  function Next(s: State, e: Event): State {
    match e
    case Refused(syncing, now) => if !syncing && s.status == Synced then Diverge(s, now) else s
    case Asked(reason, wall, now) => Requested(s, reason, now, wall).0
    case Started(_) => s.(status := Discovering)
    case ElectedSelf(_) => s.(isMaster := true, master := Some(s.self), status := Synced)
    case Brought(guids, _) => s.(held := s.held + guids)
    case Took(guids, _) => s.(held := s.held - guids)
    case Tick(messages, wall, now) => Ticked(s, messages, now, wall).0
  }

  /** Whether the timers make a recovery attempt from state s, through either trigger. */
  predicate TimersAttempt(s: State, wall: real, now: real) {
    var s := TimeOut(Failover(s, wall).0, wall).0;
    DivergenceDue(s, now) || ResyncDue(RecoverDivergence(s, now, wall).0, now)
  }

  predicate Attempts(s: State, e: Event) {
    e.Tick? && TimersAttempt(Drained(s, e.messages, e.wall, e.at).0, e.wall, e.at)
  }

  predicate AsksFor(e: Event, reason: Reason) {
    e.Asked? && e.reason == reason
  }

  function After(self: Guid, events: seq<Event>): State {
    if events == [] then Start(self) else Next(After(self, events[..|events| - 1]), events[|events| - 1])
  }

  /** The monotonic clock never runs backwards. */
  ghost predicate Ordered(events: seq<Event>) {
    forall i, j | 0 <= i <= j < |events| :: events[i].at <= events[j].at
  }

  /** Event i of the run marks the peer diverged. */
  predicate Marks(self: Guid, events: seq<Event>, i: nat)
    requires i < |events|
  {
    events[i].Refused? && !events[i].syncing && After(self, events[..i]).status == Synced
  }

  predicate AttemptsAt(self: Guid, events: seq<Event>, i: nat)
    requires i < |events|
  {
    Attempts(After(self, events[..i]), events[i])
  }

  lemma {:induction false} MissingTouchesTargetsOnly(s: State, missed: seq<Guid>, now: real)
    ensures MissedAll(s, missed, now) == s.(targets := MissedAll(s, missed, now).targets)
  {
    if missed != [] {
      MissingTouchesTargetsOnly(s, missed[..|missed| - 1], now);
    }
  }

  // ------------------------------------------------------------------ what the batch can do

  /** Handlers move the master, what is held and what is missing; only a peer that is searching finds a master. */
  lemma {:induction false} HandlersKeep(s: State, messages: seq<Message>, wall: real, now: real)
    ensures var (t, actions) := HandledAll(s, messages, wall, now);
            && t == s.(master := t.master, masterAskedAt := t.masterAskedAt, targets := t.targets, held := t.held)
            && (forall a | a in actions && a.MasterFound? :: s.status == Discovering)
            && (forall a | a in actions && a.SnapshotReceived? :: HasSnapshot(messages))
  {
    if messages != [] {
      var init, m := messages[..|messages| - 1], messages[|messages| - 1];
      HandlersKeep(s, init, wall, now);
      var (t, actions) := HandledAll(s, init, wall, now);
      HandlerKeeps(t, m, wall, now);
      assert forall x :: x in messages <==> x in init || x == m;
    }
  }

  /** A snapshot that is meant for this peer is in the batch. */
  predicate HasSnapshot(messages: seq<Message>) {
    exists m | m in messages :: m.StateSnapshot? && m.forThisPeer
  }

  lemma HandlerKeeps(s: State, m: Message, wall: real, now: real)
    ensures var (t, actions) := Handled(s, m, wall, now);
            && t == s.(master := t.master, masterAskedAt := t.masterAskedAt, targets := t.targets, held := t.held)
            && (forall a | a in actions && a.MasterFound? :: s.status == Discovering)
            && (forall a | a in actions && a.SnapshotReceived? :: m.StateSnapshot? && m.forThisPeer)
  {
  }

  /** The divergence flag falls only in a snapshot that answers a recovery request no older than the last mark. */
  predicate FallsFitly(s: State) {
    && s.reason == Some(ForRecovery) && s.recoverySentAt.Some?
    && (s.lastMark.None? || s.lastMark.value <= s.recoverySentAt.value)
  }

  predicate BatchFacts(s: State, t: State, snapshot: bool) {
    && ((s.diverged <==> s.settleDeadline.Some?) ==> (t.diverged <==> t.settleDeadline.Some?))
    && t.lastMark == s.lastMark && t.lastAttempt == s.lastAttempt
    && (t.recoverySentAt.None? || t.recoverySentAt == s.recoverySentAt)
    && (t.reason == Some(ForRecovery) ==> s.reason == Some(ForRecovery))
    && (s.diverged && !t.diverged ==> snapshot && FallsFitly(s))
    && (!s.diverged ==> !t.diverged)
  }

  lemma ActionFacts(s: State, a: Action, wall: real, now: real)
    ensures BatchFacts(s, Performed(s, a, wall, now).0, a.SnapshotReceived?)
  {
    if a.SnapshotReceived? {
      MissingTouchesTargetsOnly(s.(held := a.rebuilt, targets := [], resyncUnreachable := false), a.missed, now);
    }
  }

  lemma {:induction false} ActionsFacts(s: State, actions: seq<Action>, wall: real, now: real)
    ensures BatchFacts(s, PerformedAll(s, actions, wall, now).0, exists a | a in actions :: a.SnapshotReceived?)
  {
    if actions != [] {
      var init, a := actions[..|actions| - 1], actions[|actions| - 1];
      ActionsFacts(s, init, wall, now);
      ActionFacts(PerformedAll(s, init, wall, now).0, a, wall, now);
      assert forall x :: x in actions <==> x in init || x == a;
    }
  }

  lemma DrainFacts(s: State, messages: seq<Message>, wall: real, now: real)
    ensures BatchFacts(s, Drained(s, messages, wall, now).0, HasSnapshot(messages))
  {
    var (t, actions) := HandledAll(s, messages, wall, now);
    HandlersKeep(s, messages, wall, now);
    ActionsFacts(t, actions, wall, now);
  }

  // ------------------------------------------------------------------ what the timers can do

  /** Synchronised, or away only to repair itself. */
  predicate InSession(s: State) {
    s.status == Synced || (s.status == Joining && s.reason == Some(ForRecovery))
  }

  /** A timer stage, which attempted recovery or not: it never touches the divergence itself. */
  predicate StageFacts(s: State, s': State, attempted: bool, now: real) {
    && s'.diverged == s.diverged && s'.settleDeadline == s.settleDeadline && s'.lastMark == s.lastMark
    && s'.lastAttempt == (if attempted then Some(now) else s.lastAttempt)
    && (attempted ==> CooledDown(s, now))
    && (|| s'.recoverySentAt.None? || s'.recoverySentAt == s.recoverySentAt
        || (s'.recoverySentAt == Some(now) && attempted && s'.status == Joining))
    && (InSession(s) ==> InSession(s'))
  }

  lemma {:induction false} StagesCompose(s: State, mono: real, wall: real)
    ensures StageFacts(s, TimersFired(s, mono, wall).0, TimersAttempt(s, wall, mono), mono)
  {
    var s1 := Failover(s, wall).0;
    assert StageFacts(s, s1, false, mono);
    var s2 := TimeOut(s1, wall).0;
    assert StageFacts(s1, s2, false, mono);
    var s3 := RecoverDivergence(s2, mono, wall).0;
    DivergenceStage(s2, mono, wall);
    var s4 := ResyncUnresolved(s3, mono, wall).0;
    ResyncStage(s3, mono, wall);
    assert TimersFired(s, mono, wall).0 == s4;
    assert DivergenceDue(s2, mono) ==> !ResyncDue(s3, mono);
  }

  lemma DivergenceStage(s: State, mono: real, wall: real)
    ensures var s' := RecoverDivergence(s, mono, wall).0;
            StageFacts(s, s', DivergenceDue(s, mono), mono)
            && (s' == s || s'.status == Joining || !CooledDown(s', mono))
  {
  }

  lemma ResyncStage(s: State, mono: real, wall: real)
    ensures var s' := ResyncUnresolved(s, mono, wall).0;
            StageFacts(s, s', ResyncDue(s, mono), mono) && (!ResyncDue(s, mono) ==> s'.status == s.status)
  {
  }

  // ------------------------------------------------------------------ what one event can do

  /** The deadline goes with the flag, marks and requests are stamped, and only a fit snapshot lowers the flag. */
  predicate EventFacts(s: State, e: Event, s': State) {
    && ((s.diverged <==> s.settleDeadline.Some?) ==> (s'.diverged <==> s'.settleDeadline.Some?))
    && s'.lastMark == (if e.Refused? && !e.syncing && s.status == Synced then Some(e.at) else s.lastMark)
    && s'.lastAttempt == (if Attempts(s, e) then Some(e.at) else s.lastAttempt)
    && (Attempts(s, e) ==> CooledDown(s, e.at))
    && (|| s'.recoverySentAt.None? || s'.recoverySentAt == s.recoverySentAt
        || (s'.recoverySentAt == Some(e.at) && (Attempts(s, e) || AsksFor(e, ForRecovery)) && s'.status == Joining))
    && (s.diverged && !s'.diverged ==> e.Tick? && HasSnapshot(e.messages) && FallsFitly(s))
  }

  lemma {:induction false} EventKeepsFacts(s: State, e: Event)
    ensures EventFacts(s, e, Next(s, e))
  {
    if e.Tick? {
      TickKeepsFacts(s, e.messages, e.wall, e.at);
    }
  }

  lemma TickKeepsFacts(s: State, messages: seq<Message>, wall: real, now: real)
    ensures EventFacts(s, Tick(messages, wall, now), Ticked(s, messages, now, wall).0)
  {
    var drained := Drained(s, messages, wall, now).0;
    DrainFacts(s, messages, wall, now);
    StagesCompose(drained, now, wall);
    assert CooledDown(s, now) == CooledDown(drained, now);
  }

  // ------------------------------------------------------------------ over whole runs

  lemma {:induction false} DivergedIffDeadline(self: Guid, events: seq<Event>)
    ensures var s := After(self, events); s.diverged <==> s.settleDeadline.Some?
  {
    if events != [] {
      DivergedIffDeadline(self, events[..|events| - 1]);
      EventKeepsFacts(After(self, events[..|events| - 1]), events[|events| - 1]);
    }
  }

  /** A recovery request that is never answered leaves master and session membership alone. */
  lemma RecoveryTimeoutKeepsSession(s: State, mono: real, wall: real)
    requires s.status == Joining && s.reason == Some(ForRecovery) && s.requestTime.Some?
    requires wall - s.requestTime.value > 5.0
    ensures TimersFired(s, mono, wall).0.master == s.master && TimersFired(s, mono, wall).0.status != Discovering
    ensures TimersFired(s, mono, wall).0.diverged == s.diverged
    ensures RecoveryFailed in TimersFired(s, mono, wall).1
  {
    assert Failover(s, wall) == (s, []);
    assert TimeOut(s, wall).1 == [RecoveryFailed];
    assert TimersFired(s, mono, wall).1[0] == RecoveryFailed;
  }

  // ------------------------------------------------------------------ pacing of attempts

  lemma {:induction false} LastAttemptIsLatest(self: Guid, events: seq<Event>, i: nat)
    requires Ordered(events) && i < |events| && AttemptsAt(self, events, i)
    ensures After(self, events).lastAttempt.Some? && After(self, events).lastAttempt.value >= events[i].at
  {
    var n := |events| - 1;
    AttemptIsNoted(After(self, events[..n]), events[n]);
    if i < n {
      assert events[..n][..i] == events[..i];
      LastAttemptIsLatest(self, events[..n], i);
    }
  }

  lemma AttemptIsNoted(s: State, e: Event)
    ensures Next(s, e).lastAttempt == if Attempts(s, e) then Some(e.at) else s.lastAttempt
  {
    EventKeepsFacts(s, e);
  }

  /** Whatever holds at once, two attempts through either trigger are at least the cooldown apart. */
  lemma AttemptsAreApart(self: Guid, events: seq<Event>, i: nat, j: nat)
    requires Ordered(events) && i < j < |events|
    requires AttemptsAt(self, events, i) && AttemptsAt(self, events, j)
    ensures events[j].at - events[i].at >= 5.0
  {
    assert events[..j][..i] == events[..i];
    LastAttemptIsLatest(self, events[..j], i);
    EventKeepsFacts(After(self, events[..j]), events[j]);
  }

  // ------------------------------------------------------------------ when divergence is forgotten

  /** A recovery request goes out at event i. */
  predicate RequestsRecoveryAt(self: Guid, events: seq<Event>, i: nat)
    requires i < |events|
  {
    (AttemptsAt(self, events, i) || AsksFor(events[i], ForRecovery)) && After(self, events[..i + 1]).status == Joining
  }

  lemma {:induction false} LastMarkIsLatest(self: Guid, events: seq<Event>, i: nat)
    requires Ordered(events) && i < |events| && Marks(self, events, i)
    ensures After(self, events).lastMark.Some? && After(self, events).lastMark.value >= events[i].at
  {
    var n := |events| - 1;
    EventKeepsFacts(After(self, events[..n]), events[n]);
    if i < n {
      assert events[..n][..i] == events[..i];
      LastMarkIsLatest(self, events[..n], i);
    }
  }

  lemma {:induction false} SentAtWasSent(self: Guid, events: seq<Event>) returns (i: nat)
    requires After(self, events).recoverySentAt.Some?
    ensures i < |events| && RequestsRecoveryAt(self, events, i)
    ensures events[i].at == After(self, events).recoverySentAt.value
  {
    var n := |events| - 1;
    EventKeepsFacts(After(self, events[..n]), events[n]);
    if After(self, events[..n]).recoverySentAt == After(self, events).recoverySentAt {
      i := SentAtWasSent(self, events[..n]);
      assert events[..n][..i] == events[..i] && events[..n][..i + 1] == events[..i + 1];
    } else {
      i := n;
      assert events[..n + 1] == events;
    }
  }

  /**
   * A divergence is forgotten only by a snapshot, and only when some recovery request was sent no earlier
   * than every refusal so far: nothing this peer changed after asking is ever written off.
   */
  lemma DivergenceFallsOnlyOnRecovery(self: Guid, events: seq<Event>) returns (sent: nat)
    requires events != [] && Ordered(events)
    requires After(self, events[..|events| - 1]).diverged && !After(self, events).diverged
    ensures events[|events| - 1].Tick? && HasSnapshot(events[|events| - 1].messages)
    ensures sent < |events| - 1 && RequestsRecoveryAt(self, events, sent)
    ensures forall k: nat | k < |events| && Marks(self, events, k) :: events[k].at <= events[sent].at
  {
    var n := |events| - 1;
    var init := events[..n];
    EventKeepsFacts(After(self, init), events[n]);
    sent := SentAtWasSent(self, init);
    assert init[..sent] == events[..sent] && init[..sent + 1] == events[..sent + 1];
    forall k: nat | k < |events| && Marks(self, events, k) ensures events[k].at <= events[sent].at {
      assert init[..k] == events[..k];
      LastMarkIsLatest(self, init, k);
    }
  }

  /** And an answered recovery does forget it, exactly when the request is no older than the last refusal. */
  lemma SnapshotForgetsIff(s: State, rebuilt: set<Guid>, missed: seq<Guid>, now: real)
    requires s.diverged
    ensures !Rebuilt(s, rebuilt, missed, now).diverged <==>
            && s.reason == Some(ForRecovery) && s.recoverySentAt.Some?
            && (s.lastMark.None? || s.lastMark.value <= s.recoverySentAt.value)
  {
    MissingTouchesTargetsOnly(s.(held := rebuilt, targets := [], resyncUnreachable := false), missed, now);
  }

  /** A settled divergence on a synchronised, cooled-down peer is acted on by the next tick. */
  lemma SettledDivergenceIsActedOn(s: State, mono: real, wall: real)
    requires DivergenceDue(s, mono) && !s.isMaster && s.master.Some? && s.masterAskedAt.None?
    ensures TimersFired(s, mono, wall).1 == [StateRequested(s.master.value)]
    ensures TimersFired(s, mono, wall).0.status == Joining && TimersFired(s, mono, wall).0.recoverySentAt == Some(mono)
  {
  }

  // ------------------------------------------------------------------ leaving the session

  /** The state after the first n timers. */
  function TimerMoment(s: State, wall: real, now: real, n: nat): State {
    if n == 0 then s
    else
      var before := TimerMoment(s, wall, now, n - 1);
      if n == 1 then Failover(before, wall).0
      else if n == 2 then TimeOut(before, wall).0
      else if n == 3 then RecoverDivergence(before, now, wall).0
      else ResyncUnresolved(before, now, wall).0
  }

  function Collected(s: State, e: Event): seq<Action>
    requires e.Tick?
  {
    HandledAll(s, e.messages, e.wall, e.at).1
  }

  function Handed(s: State, e: Event): State
    requires e.Tick?
  {
    HandledAll(s, e.messages, e.wall, e.at).0
  }

  /** How many states an event goes through, the one it finds and the one it leaves included. */
  function Moments(s: State, e: Event): nat {
    if e.Tick? then |Collected(s, e)| + 6 else 2
  }

  /** They are: the one found, the one with all messages handled, one after each action, one after each timer. */
  function Moment(s: State, e: Event, c: nat): State
    requires c < Moments(s, e)
  {
    if c == 0 then s
    else if !e.Tick? then Next(s, e)
    else if c <= |Collected(s, e)| + 1 then AfterActions(s, e, c - 1)
    else TimerMoment(AfterActions(s, e, |Collected(s, e)|), e.wall, e.at, c - 1 - |Collected(s, e)|)
  }

  function AfterActions(s: State, e: Event, k: nat): State
    requires e.Tick? && k <= |Collected(s, e)|
  {
    PerformedAll(Handed(s, e), Collected(s, e)[..k], e.wall, e.at).0
  }

  lemma FirstAndLast(s: State, e: Event)
    ensures Moment(s, e, 0) == s && Moment(s, e, Moments(s, e) - 1) == Next(s, e)
  {
    if e.Tick? {
      var n := |Collected(s, e)|;
      assert Collected(s, e)[..n] == Collected(s, e);
      TimersEnd(AfterActions(s, e, n), e.wall, e.at);
    }
  }

  lemma TimersEnd(s: State, wall: real, now: real)
    ensures TimerMoment(s, wall, now, 4) == TimersFired(s, now, wall).0
  {
    assert TimerMoment(s, wall, now, 1) == Failover(s, wall).0;
    assert TimerMoment(s, wall, now, 2) == TimeOut(TimerMoment(s, wall, now, 1), wall).0;
    assert TimerMoment(s, wall, now, 3) == RecoverDivergence(TimerMoment(s, wall, now, 2), now, wall).0;
  }

  /** Among the actions a master is found behind a snapshot. */
  ghost predicate FoundBehindSnapshot(actions: seq<Action>) {
    exists i, j :: 0 <= i < j < |actions| && actions[i].SnapshotReceived? && actions[j].MasterFound?
  }

  /**
   * A join request made while in the session: by the host application, or by a tick that was searching when it drained
   * a snapshot and, behind it, a master's answer. A start does the same.
   */
  ghost predicate Ejects(s: State, e: Event) {
    match e
    case Asked(reason, _, _) => reason == ForJoin && InSession(s) && s.master.Some?
    case Started(_) => InSession(s)
    case Tick(_, _, _) =>
      s.status == Discovering && Handed(s, e).master.Some? && FoundBehindSnapshot(Collected(s, e))
    case _ => false
  }

  lemma {:induction false} ActionsKeepMaster(s: State, actions: seq<Action>, wall: real, now: real)
    ensures PerformedAll(s, actions, wall, now).0.master == s.master
  {
    if actions != [] {
      var init, a := actions[..|actions| - 1], actions[|actions| - 1];
      ActionsKeepMaster(s, init, wall, now);
      ActionStep(PerformedAll(s, init, wall, now).0, a, wall, now);
    }
  }

  /** A snapshot brings a peer into the session; finding a master, if there is one to ask, takes it out. */
  lemma ActionStep(s: State, a: Action, wall: real, now: real)
    ensures var t := Performed(s, a, wall, now).0;
            && t.master == s.master
            && (a.SnapshotReceived? ==> t.status == Synced)
            && (a.MasterFound? ==> if s.master.Some? then !InSession(t) else t == s)
  {
    if a.SnapshotReceived? {
      MissingTouchesTargetsOnly(s.(held := a.rebuilt, targets := [], resyncUnreachable := false), a.missed, now);
    }
  }

  /** Who was not in the session and then is, took in a snapshot. */
  lemma {:induction false} SnapshotBefore(s: State, actions: seq<Action>, k: nat, wall: real, now: real) returns (i: nat)
    requires k <= |actions| && !InSession(s) && InSession(PerformedAll(s, actions[..k], wall, now).0)
    ensures i < k && actions[i].SnapshotReceived?
  {
    assert actions[..k][..k - 1] == actions[..k - 1];
    ActionStep(PerformedAll(s, actions[..k - 1], wall, now).0, actions[k - 1], wall, now);
    if actions[k - 1].SnapshotReceived? {
      i := k - 1;
    } else {
      i := SnapshotBefore(s, actions, k - 1, wall, now);
    }
  }

  /** From one moment of an event to the next the session is left only as stated. */
  lemma MomentStep(s: State, e: Event, c: nat)
    requires c + 1 < Moments(s, e) && InSession(Moment(s, e, c)) && !InSession(Moment(s, e, c + 1))
    ensures Ejects(s, e)
  {
    if e.Tick? {
      HandlersKeep(s, e.messages, e.wall, e.at);
      var n := |Collected(s, e)|;
      if 1 <= c <= n {
        ActionTakesOut(s, e, c - 1);
      } else if c > n {
        TimerStaysInSession(AfterActions(s, e, n), e.wall, e.at, c - 1 - n);
      }
    }
  }

  lemma ActionTakesOut(s: State, e: Event, k: nat)
    requires e.Tick? && k < |Collected(s, e)|
    requires InSession(AfterActions(s, e, k)) && !InSession(AfterActions(s, e, k + 1))
    ensures Ejects(s, e)
  {
    var actions := Collected(s, e);
    HandlersKeep(s, e.messages, e.wall, e.at);
    OneMoreAction(s, e, k);
    assert actions[k] in actions;
    var i := SnapshotBefore(Handed(s, e), actions, k, e.wall, e.at);
  }

  lemma OneMoreAction(s: State, e: Event, k: nat)
    requires e.Tick? && k < |Collected(s, e)|
    ensures var a, before, after := Collected(s, e)[k], AfterActions(s, e, k), AfterActions(s, e, k + 1);
            && after == Performed(before, a, e.wall, e.at).0 && before.master == Handed(s, e).master
            && (a.SnapshotReceived? ==> after.status == Synced)
            && (a.MasterFound? ==> if before.master.Some? then !InSession(after) else after == before)
  {
    var actions := Collected(s, e);
    assert actions[..k + 1][..k] == actions[..k];
    ActionsKeepMaster(Handed(s, e), actions[..k], e.wall, e.at);
    ActionStep(AfterActions(s, e, k), actions[k], e.wall, e.at);
  }

  lemma TimerStaysInSession(s: State, wall: real, now: real, n: nat)
    requires InSession(TimerMoment(s, wall, now, n))
    ensures InSession(TimerMoment(s, wall, now, n + 1))
  {
    var before := TimerMoment(s, wall, now, n);
    DivergenceStage(before, now, wall);
    ResyncStage(before, now, wall);
  }

  lemma {:induction false} SessionCarries(s: State, e: Event, a: nat, b: nat)
    requires a <= b < Moments(s, e) && InSession(Moment(s, e, a)) && !Ejects(s, e)
    ensures InSession(Moment(s, e, b))
    decreases b
  {
    if a < b {
      SessionCarries(s, e, a, b - 1);
      if !InSession(Moment(s, e, b)) {
        MomentStep(s, e, b - 1);
      }
    }
  }

  /** Event by event that is exact: some moment is in the session and a later one is not, if and only if it ejects. */
  lemma {:induction false} EjectsIff(s: State, e: Event)
    ensures Ejects(s, e) <==>
              exists a, b :: 0 <= a < b < Moments(s, e) && InSession(Moment(s, e, a)) && !InSession(Moment(s, e, b))
  {
    if Ejects(s, e) {
      if e.Tick? {
        var a, b := InAndOut(s, e);
      } else {
        assert InSession(Moment(s, e, 0)) && !InSession(Moment(s, e, 1));
      }
    } else {
      forall a, b | 0 <= a < b < Moments(s, e) && InSession(Moment(s, e, a)) ensures InSession(Moment(s, e, b)) {
        SessionCarries(s, e, a, b);
      }
    }
  }

  lemma InAndOut(s: State, e: Event) returns (a: nat, b: nat)
    requires e.Tick? && Ejects(s, e)
    ensures a < b < Moments(s, e) && InSession(Moment(s, e, a)) && !InSession(Moment(s, e, b))
  {
    var actions := Collected(s, e);
    var i, j :| 0 <= i < j < |actions| && actions[i].SnapshotReceived? && actions[j].MasterFound?;
    a, b := i + 2, j + 2;
    OneMoreAction(s, e, i);
    OneMoreAction(s, e, j);
    assert Moment(s, e, a) == AfterActions(s, e, i + 1) && Moment(s, e, b) == AfterActions(s, e, j + 1);
  }

  /** Moment a of event x of a run. */
  function MomentOf(self: Guid, events: seq<Event>, x: nat, a: nat): State
    requires x < |events| && a < Moments(After(self, events[..x]), events[x])
  {
    Moment(After(self, events[..x]), events[x], a)
  }

  lemma EndsAtNext(self: Guid, events: seq<Event>, x: nat)
    requires x < |events|
    ensures MomentOf(self, events, x, 0) == After(self, events[..x])
    ensures MomentOf(self, events, x, Moments(After(self, events[..x]), events[x]) - 1) == After(self, events[..x + 1])
  {
    assert events[..x + 1][..x] == events[..x];
    FirstAndLast(After(self, events[..x]), events[x]);
  }

  /**
   * Over all runs: whoever is in the session at some moment, be it in the middle of a tick, and is not at a later one,
   * went through an event that ejects in between.
   */
  lemma {:induction false} LeavesOnlyIfEjected(self: Guid, events: seq<Event>, x: nat, a: nat, y: nat, b: nat)
    returns (z: nat)
    requires x <= y < |events| && (x == y ==> a <= b)
    requires a < Moments(After(self, events[..x]), events[x]) && b < Moments(After(self, events[..y]), events[y])
    requires InSession(MomentOf(self, events, x, a)) && !InSession(MomentOf(self, events, y, b))
    ensures x <= z <= y && Ejects(After(self, events[..z]), events[z])
    decreases y - x
  {
    var s := After(self, events[..x]);
    if Ejects(s, events[x]) {
      z := x;
    } else {
      var last := Moments(s, events[x]) - 1;
      if x == y {
        SessionCarries(s, events[x], a, b);
      } else {
        SessionCarries(s, events[x], a, last);
        EndsAtNext(self, events, x);
        EndsAtNext(self, events, x + 1);
        z := LeavesOnlyIfEjected(self, events, x + 1, 0, y, b);
      }
    }
  }

  /**
   * Seen from the outside no batch and no timer ejects: a peer that is synced between two ticks never searches for a
   * master again, unless its host application asks to join anew or starts over.
   */
  lemma {:induction false} NeverEjected(self: Guid, events: seq<Event>, i: nat)
    requires i <= |events| && After(self, events[..i]).status == Synced
    requires forall j | i <= j < |events| :: !AsksFor(events[j], ForJoin) && !events[j].Started?
    ensures InSession(After(self, events)) && After(self, events).status != Discovering
  {
    if i == |events| {
      assert events[..i] == events;
    } else {
      var init, n := events[..|events| - 1], |events| - 1;
      assert init[..i] == events[..i] && events[..n] == init && events[..n + 1] == events;
      NeverEjected(self, init, i);
      EndsAtNext(self, events, n);
      SessionCarries(After(self, init), events[n], 0, Moments(After(self, init), events[n]) - 1);
    }
  }

  /** Asking to join while in the session does eject: when no answer comes, the peer drops its master and searches. */
  lemma AskingToJoinEjects(s: State, wall: real, now: real, later: real, mono: real)
    requires s.status == Synced && s.master.Some? && later - wall > 5.0
    ensures Ejects(s, Asked(ForJoin, wall, now))
    ensures var t := Next(Next(s, Asked(ForJoin, wall, now)), Tick([], later, mono)); t.status == Discovering && t.master.None?
  {
    UnansweredJoinGivesUp(Next(s, Asked(ForJoin, wall, now)), later, mono);
  }

  lemma UnansweredJoinGivesUp(s: State, wall: real, now: real)
    requires s.status == Joining && s.reason == Some(ForJoin) && s.requestTime.Some?
    requires wall - s.requestTime.value > 5.0
    ensures var t := Next(s, Tick([], wall, now)); t.status == Discovering && t.master.None?
  {
    assert Drained(s, [], wall, now) == (s, []);
    assert Failover(s, wall) == (s, []);
    var timedOut := TimeOut(s, wall).0;
    assert RecoverDivergence(timedOut, now, wall) == (timedOut, []);
  }

  /**
   * And so does one batch, with nothing asked by anyone: a peer that gave up on its join drains the late snapshot and,
   * behind it, a master's answer. It is synced for a moment, asks again at once, and if that goes unanswered it is
   * searching without a master.
   */
  lemma LateSnapshotEjects(s: State, master: Guid, rebuilt: set<Guid>, wall: real, now: real, later: real, mono: real)
    requires s.status == Discovering && !s.isMaster && later - wall > 5.0
    ensures var batch := Tick([StateSnapshot(true, rebuilt, []), IAmMaster(Some(master), false)], wall, now);
            && Ejects(s, batch)
            && (exists k :: 0 <= k < Moments(s, batch) && Moment(s, batch, k).status == Synced)
            && Next(s, batch).status == Joining && Next(s, batch).reason == Some(ForJoin)
            && (var t := Next(Next(s, batch), Tick([], later, mono)); t.status == Discovering && t.master.None?)
  {
    var batch := Tick([StateSnapshot(true, rebuilt, []), IAmMaster(Some(master), false)], wall, now);
    var found := SnapshotReceived(rebuilt, []);
    var handled := s.(master := Some(master), masterAskedAt := None);
    TwoHandled(s, master, rebuilt, wall, now);
    TwoPerformed(handled, found, wall, now);
    var synced := Rebuilt(handled, rebuilt, [], now);
    var asked := Requested(synced, ForJoin, now, wall).0;
    assert [found, MasterFound][0].SnapshotReceived? && [found, MasterFound][1].MasterFound?;
    assert Moment(s, batch, 2) == synced;
    JustAskedWaits(asked, wall, now);
    assert Next(s, batch) == asked;
    UnansweredJoinGivesUp(asked, later, mono);
  }

  lemma TwoHandled(s: State, master: Guid, rebuilt: set<Guid>, wall: real, now: real)
    requires s.status == Discovering && !s.isMaster
    ensures HandledAll(s, [StateSnapshot(true, rebuilt, []), IAmMaster(Some(master), false)], wall, now)
         == (s.(master := Some(master), masterAskedAt := None), [SnapshotReceived(rebuilt, []), MasterFound])
  {
    var snapshot, found := StateSnapshot(true, rebuilt, []), SnapshotReceived(rebuilt, []);
    var messages := [snapshot, IAmMaster(Some(master), false)];
    assert messages[..1] == [snapshot] && [snapshot][..0] == [];
    assert [] + [found] == [found] && [found] + [MasterFound] == [found, MasterFound];
    assert HandledAll(s, [snapshot], wall, now) == (s, [found]);
  }

  lemma TwoPerformed(s: State, found: Action, wall: real, now: real)
    requires found.SnapshotReceived?
    ensures var synced := Performed(s, found, wall, now).0;
            && PerformedAll(s, [found, MasterFound][..1], wall, now).0 == synced
            && PerformedAll(s, [found, MasterFound], wall, now).0 == Requested(synced, ForJoin, now, wall).0
  {
    var actions := [found, MasterFound];
    assert actions[..1] == [found] && [found][..0] == [];
  }

  /** The timers leave a request made in the same tick alone. */
  lemma JustAskedWaits(s: State, wall: real, now: real)
    requires s.status == Joining && s.requestTime == Some(wall)
    ensures TimersFired(s, now, wall).0 == s
  {
    assert Failover(s, wall) == (s, []) && TimeOut(s, wall) == (s, []);
    assert RecoverDivergence(s, now, wall) == (s, []);
  }
}
