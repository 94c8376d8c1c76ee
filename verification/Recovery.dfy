// Structure-divergence recovery and unresolved-patch resync: python/otio_sync_core/manager.py (tick,
// request_state, apply_snapshot, _note_structure_diverged) and patcher.py (unresolved targets).
module Recovery {
  import opened Basics

  const DIVERGENCE_SETTLE: real := 0.5
  const UNRESOLVED_SETTLE: real := DIVERGENCE_SETTLE
  const RECOVERY_COOLDOWN: real := 5.0
  const STATE_REQUEST_TIMEOUT: real := 5.0
  const FAILOVER_SILENCE: real := 2.0
  const UNRESOLVED_TARGETS: nat := 10

  datatype Reason = ForJoin | ForRecovery

  /** A patch target nobody gave this peer, with the time it was first missed. */
  datatype Target = Target(guid: Guid, since: real)

  datatype Effect = RequestTimedOut | RecoveryFailed | ResyncFailed | StateRequested(master: Guid) | BecameMaster

  /** The fields of the manager that take part in recovery. */
  datatype State = State(
    self: Guid, status: SessionStatus, isMaster: bool, master: Option<Guid>, masterAskedAt: Option<real>,
    diverged: bool, settleDeadline: Option<real>, lastMark: Option<real>,
    reason: Option<Reason>, requestTime: Option<real>, recoverySentAt: Option<real>, lastAttempt: Option<real>,
    recoveryUnreachable: bool, resyncUnreachable: bool, targets: seq<Target>, held: set<Guid>)

  function Start(self: Guid): State {
    State(self, Discovering, false, None, None, false, None, None, None, None, None, None, false, false, [], {})
  }

  // ------------------------------------------------------------------ single transitions

  function Diverge(s: State, now: real): State {
    s.(diverged := true, settleDeadline := Some(now + DIVERGENCE_SETTLE), lastMark := Some(now))
  }

  predicate Misses(targets: seq<Target>, guid: Guid) {
    forall t | t in targets :: t.guid != guid
  }

  /** First sight is kept, and only the newest ten targets. */
  function Missed(s: State, guid: Guid, now: real): State {
    var all := if Misses(s.targets, guid) then s.targets + [Target(guid, now)] else s.targets;
    s.(targets := if |all| > UNRESOLVED_TARGETS then all[|all| - UNRESOLVED_TARGETS..] else all)
  }

  function StillMissing(targets: seq<Target>, held: set<Guid>): seq<Target> {
    if targets == [] then []
    else (if targets[0].guid in held then [] else [targets[0]]) + StillMissing(targets[1..], held)
  }

  function Requested(s: State, reason: Reason, mono: real, wall: real): (State, seq<Effect>) {
    if s.master.None? then (s, [])
    else
      (s.(status := Joining, requestTime := Some(wall), reason := Some(reason),
          recoverySentAt := if reason == ForRecovery then Some(mono) else s.recoverySentAt),
       [StateRequested(s.master.value)])
  }

  /** The index was rebuilt, so nothing is missed but what the replay then could not find. */
  function Reindexed(s: State, held: set<Guid>, missed: seq<Guid>, now: real): State {
    MissedAll(s.(held := held, targets := [], resyncUnreachable := false), missed, now)
  }

  /** A finished recovery forgets the divergence unless it was marked again after the request went out. */
  function RecoveryFinished(s: State): State {
    if s.reason != Some(ForRecovery) then s
    else
      var s :=
        if s.recoverySentAt.Some? && (s.lastMark.None? || s.lastMark.value <= s.recoverySentAt.value)
        then s.(diverged := false, settleDeadline := None) else s;
      s.(recoveryUnreachable := false, recoverySentAt := None)
  }

  function Rebuilt(s: State, held: set<Guid>, missed: seq<Guid>, now: real): State {
    RecoveryFinished(Reindexed(s, held, missed, now).(requestTime := None)).(status := Synced, reason := None)
  }

  function MissedAll(s: State, missed: seq<Guid>, now: real): State {
    if missed == [] then s else Missed(MissedAll(s, missed[..|missed| - 1], now), missed[|missed| - 1], now)
  }

  // ------------------------------------------------------------------ the four timer stages of tick

  function Failover(s: State, wall: real): (State, seq<Effect>) {
    if !s.isMaster && s.status == Synced && s.masterAskedAt.Some? && wall - s.masterAskedAt.value > FAILOVER_SILENCE
    then (s.(masterAskedAt := None, isMaster := true, master := Some(s.self)), [BecameMaster])
    else (s, [])
  }

  function TimeOut(s: State, wall: real): (State, seq<Effect>) {
    if s.status != Joining || s.requestTime.None? || wall - s.requestTime.value <= STATE_REQUEST_TIMEOUT then (s, [])
    else if s.reason == Some(ForRecovery) then
      (s.(requestTime := None, reason := None, recoverySentAt := None, recoveryUnreachable := true, status := Synced),
       [RecoveryFailed])
    else (s.(master := None, requestTime := None, reason := None, status := Discovering), [RequestTimedOut])
  }

  predicate CooledDown(s: State, now: real) {
    s.lastAttempt.None? || now - s.lastAttempt.value >= RECOVERY_COOLDOWN
  }

  predicate DivergenceDue(s: State, now: real) {
    && s.diverged && s.status == Synced && s.settleDeadline.Some? && now >= s.settleDeadline.value
    && CooledDown(s, now)
  }

  function RecoverDivergence(s: State, mono: real, wall: real): (State, seq<Effect>) {
    if !DivergenceDue(s, mono) then (s, [])
    else
      var s := s.(lastAttempt := Some(mono));
      if s.isMaster || s.master.None? then (s.(recoveryUnreachable := true), [RecoveryFailed])
      else Requested(s.(recoveryUnreachable := false), ForRecovery, mono, wall)
  }

  predicate ResyncDue(s: State, now: real) {
    && s.status == Synced
    && (exists t | t in s.targets :: t.guid !in s.held && now - t.since >= UNRESOLVED_SETTLE)
    && CooledDown(s, now)
  }

  function ResyncUnresolved(s: State, mono: real, wall: real): (State, seq<Effect>) {
    var kept := if s.status == Synced then s.(targets := StillMissing(s.targets, s.held)) else s;
    if !ResyncDue(s, mono) then (kept, [])
    else
      var s := kept.(lastAttempt := Some(mono));
      if s.isMaster || s.master.None? then (s.(resyncUnreachable := true), [ResyncFailed])
      else Requested(s.(resyncUnreachable := false), ForRecovery, mono, wall)
  }

  /** The timers one after another, each adding its effects. */
  function TimersFired(s: State, mono: real, wall: real): (State, seq<Effect>) {
    var first := Failover(s, wall);
    var second := TimeOut(first.0, wall);
    var third := RecoverDivergence(second.0, mono, wall);
    var fourth := ResyncUnresolved(third.0, mono, wall);
    (fourth.0, ((first.1 + second.1) + third.1) + fourth.1)
  }

  lemma {:induction false} StillMissingKeeps(targets: seq<Target>, held: set<Guid>)
    ensures forall t :: t in StillMissing(targets, held) <==> t in targets && t.guid !in held
  {
    if targets != [] {
      StillMissingKeeps(targets[1..], held);
      assert forall t | t in targets :: t == targets[0] || t in targets[1..];
    }
  }

  // ------------------------------------------------------------------ the batch at the head of a tick

  /**
   * A message as far as recovery goes. `behind` says that the claimant ranks behind this peer as master; a snapshot
   * names the objects it leaves indexed and those its replay could not find.
   */
  datatype Message =
    | WhoIsMaster
    | IAmMaster(master: Option<Guid>, behind: bool)
    | StateSnapshot(forThisPeer: bool, rebuilt: set<Guid>, missed: seq<Guid>)
    | PatchMissed(target: Guid)
    | PatchBrought(guids: set<Guid>)
    | PatchTook(guids: set<Guid>)
    | OtherMessage

  /** What a handler leaves for the tick to do once the whole batch is handled. */
  datatype Action = MasterFound | SnapshotReceived(rebuilt: set<Guid>, missed: seq<Guid>)

  /** One handler. Patches that arrive while joining are buffered. */
  function Handled(s: State, m: Message, wall: real, now: real): (State, seq<Action>) {
    match m
    case WhoIsMaster => (if !s.isMaster && s.status == Synced then s.(masterAskedAt := Some(wall)) else s, [])
    case IAmMaster(master, behind) =>
      if s.isMaster && master.Some? && master != Some(s.self) && behind then (s, [])
      else (s.(master := master, masterAskedAt := None), if s.status == Discovering then [MasterFound] else [])
    case StateSnapshot(forThisPeer, rebuilt, missed) => (s, if forThisPeer then [SnapshotReceived(rebuilt, missed)] else [])
    case PatchMissed(target) => (if s.status == Joining || target in s.held then s else Missed(s, target, now), [])
    case PatchBrought(guids) => (if s.status == Joining then s else s.(held := s.held + guids), [])
    case PatchTook(guids) => (if s.status == Joining then s else s.(held := s.held - guids), [])
    case OtherMessage => (s, [])
  }

  function HandledAll(s: State, messages: seq<Message>, wall: real, now: real): (State, seq<Action>) {
    if messages == [] then (s, [])
    else
      var (before, actions) := HandledAll(s, messages[..|messages| - 1], wall, now);
      var (after, more) := Handled(before, messages[|messages| - 1], wall, now);
      (after, actions + more)
  }

  function Performed(s: State, a: Action, wall: real, now: real): (State, seq<Effect>) {
    match a
    case MasterFound => Requested(s, ForJoin, now, wall)
    case SnapshotReceived(rebuilt, missed) => (Rebuilt(s, rebuilt, missed, now), [])
  }

  function PerformedAll(s: State, actions: seq<Action>, wall: real, now: real): (State, seq<Effect>) {
    if actions == [] then (s, [])
    else
      var (before, effects) := PerformedAll(s, actions[..|actions| - 1], wall, now);
      var (after, more) := Performed(before, actions[|actions| - 1], wall, now);
      (after, effects + more)
  }

  /** The state the timers find: every message handled, then every action performed. */
  function Drained(s: State, messages: seq<Message>, wall: real, now: real): (State, seq<Effect>) {
    var (handled, actions) := HandledAll(s, messages, wall, now);
    PerformedAll(handled, actions, wall, now)
  }

  function Ticked(s: State, messages: seq<Message>, mono: real, wall: real): (State, seq<Effect>) {
    var drained := Drained(s, messages, wall, mono);
    var timed := TimersFired(drained.0, mono, wall);
    (timed.0, drained.1 + timed.1)
  }

  // ------------------------------------------------------------------ the fields in place

  class RecoveryMonitor {
    const self: Guid
    var status: SessionStatus
    var isMaster: bool
    var masterGuid: Option<Guid>
    var lastWhoIsMasterTime: Option<real>
    var structureDiverged: bool
    var settleDeadline: Option<real>
    var lastDivergeMarkAt: Option<real>
    var stateRequestReason: Option<Reason>
    var stateRequestTime: Option<real>
    var recoveryRequestSentAt: Option<real>
    var lastRecoveryAttempt: Option<real>
    var recoveryUnreachable: bool
    var resyncUnreachable: bool
    var unresolvedTargets: seq<Target>
    var held: set<Guid>
    var effects: seq<Effect>

    function View(): State
      reads this
    {
      State(self, status, isMaster, masterGuid, lastWhoIsMasterTime, structureDiverged, settleDeadline,
            lastDivergeMarkAt, stateRequestReason, stateRequestTime, recoveryRequestSentAt, lastRecoveryAttempt,
            recoveryUnreachable, resyncUnreachable, unresolvedTargets, held)
    }

    constructor (self: Guid)
      ensures View() == Start(self) && effects == []
    {
      this.self := self;
      status, isMaster, masterGuid, lastWhoIsMasterTime := Discovering, false, None, None;
      structureDiverged, settleDeadline, lastDivergeMarkAt := false, None, None;
      stateRequestReason, stateRequestTime, recoveryRequestSentAt, lastRecoveryAttempt := None, None, None, None;
      recoveryUnreachable, resyncUnreachable, unresolvedTargets, held, effects := false, false, [], {}, [];
    }

    /** A structural broadcast refused by role or lease. Only a synchronised peer marks itself diverged. */
    method StructureRefused(syncing: bool, now: real)
      modifies this
      ensures View() == (if !syncing && old(status) == Synced then Diverge(old(View()), now) else old(View()))
      ensures effects == old(effects)
    {
      if !syncing && status == Synced {
        structureDiverged := true;
        settleDeadline := Some(now + DIVERGENCE_SETTLE);
        lastDivergeMarkAt := Some(now);
      }
    }

    /** _record_unresolved, for a target that is not held. */
    method RecordUnresolved(target: Guid, now: real)
      modifies this
      ensures View() == Missed(old(View()), target, now) && effects == old(effects)
    {
      if forall t | t in unresolvedTargets :: t.guid != target {
        unresolvedTargets := unresolvedTargets + [Target(target, now)];
      }
      if |unresolvedTargets| > UNRESOLVED_TARGETS {
        unresolvedTargets := unresolvedTargets[|unresolvedTargets| - UNRESOLVED_TARGETS..];
      }
    }

    method RequestState(reason: Reason, mono: real, wall: real)
      modifies this
      ensures var (s, e) := Requested(old(View()), reason, mono, wall); View() == s && effects == old(effects) + e
    {
      if masterGuid.Some? {
        status := Joining;
        stateRequestTime := Some(wall);
        stateRequestReason := Some(reason);
        if reason == ForRecovery {
          recoveryRequestSentAt := Some(mono);
        }
        effects := effects + [StateRequested(masterGuid.value)];
      }
    }

    method Reindex(rebuilt: set<Guid>, missed: seq<Guid>, now: real)
      modifies this
      ensures View() == Reindexed(old(View()), rebuilt, missed, now) && effects == old(effects)
    {
      held, unresolvedTargets, resyncUnreachable := rebuilt, [], false;
      ghost var cleared := View();
      for n := 0 to |missed|
        invariant View() == MissedAll(cleared, missed[..n], now) && effects == old(effects)
      {
        assert missed[..n + 1][..n] == missed[..n];
        RecordUnresolved(missed[n], now);
      }
      assert missed[..|missed|] == missed;
    }

    method FinishRecovery()
      modifies this
      ensures View() == RecoveryFinished(old(View())) && effects == old(effects)
    {
      if stateRequestReason == Some(ForRecovery) {
        if recoveryRequestSentAt.Some?
           && (lastDivergeMarkAt.None? || lastDivergeMarkAt.value <= recoveryRequestSentAt.value) {
          structureDiverged := false;
          settleDeadline := None;
        }
        recoveryUnreachable := false;
        recoveryRequestSentAt := None;
      }
    }

    /** apply_snapshot, as far as recovery goes; `missed` are the targets the replay could not find. */
    method ApplySnapshot(rebuilt: set<Guid>, missed: seq<Guid>, now: real)
      modifies this
      ensures View() == Rebuilt(old(View()), rebuilt, missed, now) && effects == old(effects)
    {
      Reindex(rebuilt, missed, now);
      stateRequestTime := None;
      FinishRecovery();
      status := Synced;
      stateRequestReason := None;
    }

    method PromoteOnSilence(wall: real)
      modifies this
      ensures var (s, e) := Failover(old(View()), wall); View() == s && effects == old(effects) + e
    {
      if !isMaster && status == Synced && lastWhoIsMasterTime.Some?
         && wall - lastWhoIsMasterTime.value > FAILOVER_SILENCE {
        lastWhoIsMasterTime := None;
        isMaster := true;
        masterGuid := Some(self);
        effects := effects + [BecameMaster];
      }
    }

    method TimeOutRequest(wall: real)
      modifies this
      ensures var (s, e) := TimeOut(old(View()), wall); View() == s && effects == old(effects) + e
    {
      if status == Joining && stateRequestTime.Some? && wall - stateRequestTime.value > STATE_REQUEST_TIMEOUT {
        if stateRequestReason == Some(ForRecovery) {
          stateRequestTime, stateRequestReason, recoveryRequestSentAt := None, None, None;
          recoveryUnreachable := true;
          status := Synced;
          effects := effects + [RecoveryFailed];
        } else {
          masterGuid, stateRequestTime, stateRequestReason := None, None, None;
          status := Discovering;
          effects := effects + [RequestTimedOut];
        }
      }
    }

    method RecoverIfDiverged(mono: real, wall: real)
      modifies this
      ensures var (s, e) := RecoverDivergence(old(View()), mono, wall); View() == s && effects == old(effects) + e
    {
      if structureDiverged && status == Synced && settleDeadline.Some? && mono >= settleDeadline.value
         && (lastRecoveryAttempt.None? || mono - lastRecoveryAttempt.value >= RECOVERY_COOLDOWN) {
        lastRecoveryAttempt := Some(mono);
        if isMaster || masterGuid.None? {
          recoveryUnreachable := true;
          effects := effects + [RecoveryFailed];
        } else {
          recoveryUnreachable := false;
          RequestState(ForRecovery, mono, wall);
        }
      }
    }

    method ResyncIfUnresolved(mono: real, wall: real)
      modifies this
      ensures var (s, e) := ResyncUnresolved(old(View()), mono, wall); View() == s && effects == old(effects) + e
    {
      if status != Synced || unresolvedTargets == [] {
        return;
      }
      StillMissingKeeps(unresolvedTargets, held);
      unresolvedTargets := StillMissing(unresolvedTargets, held);
      if (exists t | t in unresolvedTargets :: mono - t.since >= UNRESOLVED_SETTLE)
         && (lastRecoveryAttempt.None? || mono - lastRecoveryAttempt.value >= RECOVERY_COOLDOWN) {
        lastRecoveryAttempt := Some(mono);
        if isMaster || masterGuid.None? {
          resyncUnreachable := true;
          effects := effects + [ResyncFailed];
        } else {
          resyncUnreachable := false;
          RequestState(ForRecovery, mono, wall);
        }
      }
    }

    /** One handler, with the actions it leaves. */
    method Handle(m: Message, wall: real, now: real) returns (actions: seq<Action>)
      modifies this
      ensures (View(), actions) == Handled(old(View()), m, wall, now) && effects == old(effects)
    {
      actions := [];
      match m
      case WhoIsMaster =>
        if !isMaster && status == Synced {
          lastWhoIsMasterTime := Some(wall);
        }
      case IAmMaster(master, behind) =>
        if !(isMaster && master.Some? && master != Some(self) && behind) {
          masterGuid, lastWhoIsMasterTime := master, None;
          if status == Discovering {
            actions := [MasterFound];
          }
        }
      case StateSnapshot(forThisPeer, rebuilt, missed) =>
        if forThisPeer {
          actions := [SnapshotReceived(rebuilt, missed)];
        }
      case PatchMissed(target) =>
        if status != Joining && target !in held {
          RecordUnresolved(target, now);
        }
      case PatchBrought(guids) =>
        if status != Joining {
          held := held + guids;
        }
      case PatchTook(guids) =>
        if status != Joining {
          held := held - guids;
        }
      case OtherMessage =>
    }

    /** receive_and_apply_all, as far as recovery goes. */
    method ReceiveAndApplyAll(messages: seq<Message>, wall: real, now: real) returns (actions: seq<Action>)
      modifies this
      ensures (View(), actions) == HandledAll(old(View()), messages, wall, now) && effects == old(effects)
    {
      actions := [];
      for n := 0 to |messages|
        invariant (View(), actions) == HandledAll(old(View()), messages[..n], wall, now) && effects == old(effects)
      {
        assert messages[..n + 1][..n] == messages[..n];
        var more := Handle(messages[n], wall, now);
        actions := actions + more;
      }
      assert messages[..|messages|] == messages;
    }

    method Perform(actions: seq<Action>, wall: real, now: real)
      modifies this
      ensures var (s, e) := PerformedAll(old(View()), actions, wall, now); View() == s && effects == old(effects) + e
    {
      ghost var s, before := View(), effects;
      for n := 0 to |actions|
        invariant View() == PerformedAll(s, actions[..n], wall, now).0
        invariant effects == before + PerformedAll(s, actions[..n], wall, now).1
      {
        assert actions[..n + 1][..n] == actions[..n];
        match actions[n]
        case MasterFound => RequestState(ForJoin, now, wall);
        case SnapshotReceived(rebuilt, missed) => ApplySnapshot(rebuilt, missed, now);
      }
      assert actions[..|actions|] == actions;
    }

    /** The timers of tick, in their order. */
    method FireTimers(mono: real, wall: real)
      modifies this
      ensures var (s, e) := TimersFired(old(View()), mono, wall); View() == s && effects == old(effects) + e
    {
      ghost var s, before := View(), effects;
      PromoteOnSilence(wall);
      ghost var first := Failover(s, wall);
      TimeOutRequest(wall);
      ghost var second := TimeOut(first.0, wall);
      assert effects == before + (first.1 + second.1);
      RecoverIfDiverged(mono, wall);
      ghost var third := RecoverDivergence(second.0, mono, wall);
      assert effects == before + ((first.1 + second.1) + third.1);
      ResyncIfUnresolved(mono, wall);
      ghost var fourth := ResyncUnresolved(third.0, mono, wall);
      assert effects == before + (((first.1 + second.1) + third.1) + fourth.1);
    }

    /** The head of a tick: the whole batch is handled first, then the actions are performed in order. */
    method Drain(messages: seq<Message>, wall: real, now: real)
      modifies this
      ensures var (s, e) := Drained(old(View()), messages, wall, now); View() == s && effects == old(effects) + e
    {
      var actions := ReceiveAndApplyAll(messages, wall, now);
      Perform(actions, wall, now);
    }

    method Tick(messages: seq<Message>, mono: real, wall: real)
      modifies this
      ensures View() == Ticked(old(View()), messages, mono, wall).0
      ensures effects == old(effects) + Ticked(old(View()), messages, mono, wall).1
    {
      ghost var drained := Drained(View(), messages, wall, mono);
      Drain(messages, wall, mono);
      FireTimers(mono, wall);
      JoinAll(old(effects), drained.1, TimersFired(drained.0, mono, wall).1);
    }
  }

  lemma JoinAll<T>(a: seq<T>, b: seq<T>, c: seq<T>)
    ensures a + b + c == a + (b + c)
  {
  }
}
