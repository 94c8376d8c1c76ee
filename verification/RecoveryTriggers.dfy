// The timers of tick over runs: a patch that cannot be applied and a refused change each lead to a request for the
// state, a silent master to a new one. python/otio_sync_core/manager.py, tick; patcher.py, the retained targets.
module RecoveryTriggers {
  import opened Basics
  import opened Recovery
  import opened RecoveryRuns

  /** What tick k of a run tells the host application and the network. */
  function EffectsOf(self: Guid, events: seq<Event>, k: nat): seq<Effect>
    requires k < |events| && events[k].Tick?
  {
    Ticked(After(self, events[..k]), events[k].messages, events[k].at, events[k].wall).1
  }

  // ------------------------------------------------------------------ what is retained

  ghost predicate Distinct(targets: seq<Target>) {
    forall p, q | 0 <= p < q < |targets| :: targets[p].guid != targets[q].guid
  }

  /** The target waits since t, not held, and behind it wait only targets of the given few. */
  ghost predicate Waits(s: State, g: Guid, t: real, newer: set<Guid>) {
    g !in s.held && Distinct(s.targets) && |s.targets| <= 10 && WaitsIn(s.targets, g, t, newer)
  }

  ghost predicate WaitsIn(targets: seq<Target>, g: Guid, t: real, newer: set<Guid>) {
    exists p: nat :: WaitsAt(targets, p, g, t, newer)
  }

  ghost predicate WaitsAt(targets: seq<Target>, p: nat, g: Guid, t: real, newer: set<Guid>) {
    p < |targets| && targets[p] == Target(g, t) && forall q | p < q < |targets| :: targets[q].guid in newer
  }

  lemma {:induction false} DistinctAmongFew(targets: seq<Target>, few: set<Guid>)
    requires Distinct(targets) && forall q | 0 <= q < |targets| :: targets[q].guid in few
    ensures |targets| <= |few|
  {
    if targets != [] {
      var last := targets[|targets| - 1];
      DistinctAmongFew(targets[..|targets| - 1], few - {last.guid});
    }
  }

  /** A message that neither brings the object, nor a snapshot, nor a miss of anything but it and the few. */
  predicate Harmless(m: Message, g: Guid, newer: set<Guid>) {
    && (m.PatchBrought? ==> g !in m.guids)
    && !(m.StateSnapshot? && m.forThisPeer)
    && (m.PatchMissed? ==> m.target == g || m.target in newer)
  }

  /** The newest ten of one target more still hold it. */
  lemma {:induction false} NewestHoldIt(all: seq<Target>, p: nat, g: Guid, t: real, newer: set<Guid>)
    requires Distinct(all) && |all| <= 11 && WaitsAt(all, p, g, t, newer) && |newer| < 10
    ensures var kept := if |all| > 10 then all[|all| - 10..] else all;
            WaitsIn(kept, g, t, newer) && Distinct(kept) && |kept| <= 10
  {
    var behind := all[p + 1..];
    DistinctAmongFew(behind, newer);
    var cut := if |all| > 10 then |all| - 10 else 0;
    assert WaitsAt(all[cut..], p - cut, g, t, newer);
    assert all[0..] == all;
  }

  lemma {:induction false} MissRetains(s: State, x: Guid, now: real, g: Guid, t: real, newer: set<Guid>)
    requires Waits(s, g, t, newer) && |newer| < 10 && (x == g || x in newer)
    ensures Waits(Missed(s, x, now), g, t, newer)
  {
    var p: nat :| WaitsAt(s.targets, p, g, t, newer);
    if Misses(s.targets, x) {
      var all := s.targets + [Target(x, now)];
      assert s.targets[p] in s.targets;
      assert WaitsAt(all, p, g, t, newer);
      assert Distinct(all) by {
        forall q | 0 <= q < |s.targets| ensures s.targets[q].guid != x {
          assert s.targets[q] in s.targets;
        }
      }
      NewestHoldIt(all, p, g, t, newer);
    }
  }

  lemma MessageRetains(s: State, m: Message, wall: real, now: real, g: Guid, t: real, newer: set<Guid>)
    requires Waits(s, g, t, newer) && |newer| < 10 && Harmless(m, g, newer)
    ensures Waits(Handled(s, m, wall, now).0, g, t, newer)
  {
    if m.PatchMissed? {
      MissRetains(s, m.target, now, g, t, newer);
    }
  }

  lemma {:induction false} BatchRetains(
    s: State, before: seq<Message>, rest: seq<Message>, wall: real, now: real, g: Guid, t: real, newer: set<Guid>)
    requires |newer| < 10 && Waits(HandledAll(s, before, wall, now).0, g, t, newer)
    requires forall m | m in rest :: Harmless(m, g, newer)
    ensures Waits(HandledAll(s, before + rest, wall, now).0, g, t, newer)
    decreases |rest|
  {
    if rest == [] {
      assert before + rest == before;
    } else {
      var init, m := rest[..|rest| - 1], rest[|rest| - 1];
      assert m in rest && forall x | x in init :: x in rest;
      BatchRetains(s, before, init, wall, now, g, t, newer);
      assert (before + rest)[..|before + rest| - 1] == before + init;
      MessageRetains(HandledAll(s, before + init, wall, now).0, m, wall, now, g, t, newer);
    }
  }

  /** Without a snapshot the actions of a batch leave what waits alone. */
  lemma {:induction false} ActionsRetain(s: State, actions: seq<Action>, wall: real, now: real)
    requires forall a | a in actions :: !a.SnapshotReceived?
    ensures var u := PerformedAll(s, actions, wall, now).0; u.targets == s.targets && u.held == s.held
  {
    if actions != [] {
      ActionsRetain(s, actions[..|actions| - 1], wall, now);
      assert actions[|actions| - 1] in actions;
    }
  }

  lemma DrainRetains(
    s: State, messages: seq<Message>, from: nat, wall: real, now: real, g: Guid, t: real, newer: set<Guid>)
    requires from <= |messages| && |newer| < 10 && !HasSnapshot(messages)
    requires Waits(HandledAll(s, messages[..from], wall, now).0, g, t, newer)
    requires forall m | m in messages[from..] :: Harmless(m, g, newer)
    ensures Waits(Drained(s, messages, wall, now).0, g, t, newer)
  {
    assert messages == messages[..from] + messages[from..];
    BatchRetains(s, messages[..from], messages[from..], wall, now, g, t, newer);
    HandlersKeep(s, messages, wall, now);
    var (handled, actions) := HandledAll(s, messages, wall, now);
    ActionsRetain(handled, actions, wall, now);
  }

  lemma {:induction false} StillMissingRetains(
    targets: seq<Target>, held: set<Guid>, p: nat, g: Guid, t: real, newer: set<Guid>)
    requires g !in held && WaitsAt(targets, p, g, t, newer)
    ensures WaitsIn(StillMissing(targets, held), g, t, newer)
  {
    var kept, rest := StillMissing(targets, held), StillMissing(targets[1..], held);
    if p == 0 {
      StillMissingKeeps(targets[1..], held);
      forall q | 0 < q < |kept| ensures kept[q].guid in newer {
        assert kept[q] == rest[q - 1] && rest[q - 1] in targets[1..];
      }
      assert WaitsAt(kept, 0, g, t, newer);
    } else {
      assert WaitsAt(targets[1..], p - 1, g, t, newer);
      StillMissingRetains(targets[1..], held, p - 1, g, t, newer);
      var r: nat :| WaitsAt(rest, r, g, t, newer);
      var shift := |kept| - |rest|;
      assert kept[shift..] == rest;
      assert WaitsAt(kept, shift + r, g, t, newer);
    }
  }

  lemma {:induction false} StillMissingIsDistinct(targets: seq<Target>, held: set<Guid>)
    requires Distinct(targets)
    ensures Distinct(StillMissing(targets, held)) && |StillMissing(targets, held)| <= |targets|
  {
    if targets != [] {
      StillMissingIsDistinct(targets[1..], held);
      StillMissingKeeps(targets[1..], held);
      var rest := StillMissing(targets[1..], held);
      forall q | 0 <= q < |rest| ensures rest[q].guid != targets[0].guid {
        assert rest[q] in targets[1..];
      }
    }
  }

  /** The timers leave what is held alone and forget at most what is held. */
  lemma TimersForgetHeld(s: State, mono: real, wall: real)
    ensures var t := TimersFired(s, mono, wall).0;
            t.held == s.held && (t.targets == s.targets || t.targets == StillMissing(s.targets, s.held))
  {
    var s2 := TimeOut(Failover(s, wall).0, wall).0;
    assert s2.targets == s.targets && s2.held == s.held;
    var s3 := RecoverDivergence(s2, mono, wall).0;
    assert s3.targets == s2.targets && s3.held == s2.held;
    OneTimerForgets(s3, mono, wall);
    assert TimersFired(s, mono, wall).0 == ResyncUnresolved(s3, mono, wall).0;
  }

  lemma OneTimerForgets(s: State, mono: real, wall: real)
    ensures var t, kept := ResyncUnresolved(s, mono, wall).0, StillMissing(s.targets, s.held);
            t.held == s.held && (t.targets == s.targets || t.targets == kept)
  {
    var t := ResyncUnresolved(s, mono, wall).0;
    if ResyncDue(s, mono) {
      var due := s.(targets := StillMissing(s.targets, s.held), lastAttempt := Some(mono));
      assert t == due.(resyncUnreachable := true)
             || t == Requested(due.(resyncUnreachable := false), ForRecovery, mono, wall).0;
    }
  }

  lemma TimersRetain(s: State, mono: real, wall: real, g: Guid, t: real, newer: set<Guid>)
    requires Waits(s, g, t, newer)
    ensures Waits(TimersFired(s, mono, wall).0, g, t, newer)
  {
    TimersForgetHeld(s, mono, wall);
    var p: nat :| WaitsAt(s.targets, p, g, t, newer);
    StillMissingRetains(s.targets, s.held, p, g, t, newer);
    StillMissingIsDistinct(s.targets, s.held);
  }

  // ------------------------------------------------------------------ over a run

  /** Message j of tick i is a patch whose target the peer does not hold and does not miss yet. */
  ghost predicate FirstMissed(self: Guid, events: seq<Event>, i: nat, j: nat, g: Guid)
    requires i < |events|
  {
    && events[i].Tick? && j < |events[i].messages| && events[i].messages[j] == PatchMissed(g)
    && var s := HandledAll(After(self, events[..i]), events[i].messages[..j], events[i].wall, events[i].at).0;
       s.status != Joining && g !in s.held && forall t | t in s.targets :: t.guid != g
  }

  /** Nothing an event does or brings settles the miss of g: see the messages. */
  predicate LeavesMissing(e: Event, g: Guid, newer: set<Guid>) {
    && (e.Brought? ==> g !in e.guids)
    && (e.Tick? ==> forall m | m in e.messages :: Harmless(m, g, newer))
  }

  /** After its first miss in tick i nothing settles it, and fewer than ten others are missed. */
  ghost predicate StaysMissing(self: Guid, events: seq<Event>, i: nat, j: nat, g: Guid, newer: set<Guid>)
    requires i < |events|
  {
    && FirstMissed(self, events, i, j, g) && |newer| < 10
    && !HasSnapshot(events[i].messages)
    && (forall m | m in events[i].messages[j + 1..] :: Harmless(m, g, newer))
    && (forall k | i < k < |events| :: LeavesMissing(events[k], g, newer))
  }

  lemma {:induction false} TargetsStayFew(self: Guid, events: seq<Event>)
    ensures var s := After(self, events); Distinct(s.targets) && |s.targets| <= 10
  {
    if events != [] {
      var init, e := events[..|events| - 1], events[|events| - 1];
      TargetsStayFew(self, init);
      if e.Tick? {
        TickKeepsFew(After(self, init), e.messages, e.wall, e.at);
      }
    }
  }

  ghost predicate Few(s: State) {
    Distinct(s.targets) && |s.targets| <= 10
  }

  lemma MissKeepsFew(s: State, g: Guid, now: real)
    requires Few(s)
    ensures Few(Missed(s, g, now))
  {
    if Misses(s.targets, g) {
      var all := s.targets + [Target(g, now)];
      forall q | 0 <= q < |s.targets| ensures s.targets[q].guid != g {
        assert s.targets[q] in s.targets;
      }
      assert Distinct(all);
    }
  }

  lemma {:induction false} HandlersKeepFew(s: State, messages: seq<Message>, wall: real, now: real)
    requires Few(s)
    ensures Few(HandledAll(s, messages, wall, now).0)
  {
    if messages != [] {
      var init, m := messages[..|messages| - 1], messages[|messages| - 1];
      HandlersKeepFew(s, init, wall, now);
      if m.PatchMissed? {
        MissKeepsFew(HandledAll(s, init, wall, now).0, m.target, now);
      }
    }
  }

  lemma {:induction false} MissesKeepFew(s: State, missed: seq<Guid>, now: real)
    requires Few(s)
    ensures Few(MissedAll(s, missed, now))
  {
    if missed != [] {
      MissesKeepFew(s, missed[..|missed| - 1], now);
      MissKeepsFew(MissedAll(s, missed[..|missed| - 1], now), missed[|missed| - 1], now);
    }
  }

  lemma {:induction false} ActionsKeepFew(s: State, actions: seq<Action>, wall: real, now: real)
    requires Few(s)
    ensures Few(PerformedAll(s, actions, wall, now).0)
  {
    if actions != [] {
      var init, a := actions[..|actions| - 1], actions[|actions| - 1];
      ActionsKeepFew(s, init, wall, now);
      if a.SnapshotReceived? {
        var before := PerformedAll(s, init, wall, now).0;
        MissesKeepFew(before.(held := a.rebuilt, targets := [], resyncUnreachable := false), a.missed, now);
      }
    }
  }

  lemma TickKeepsFew(s: State, messages: seq<Message>, wall: real, now: real)
    requires Few(s)
    ensures Few(Ticked(s, messages, now, wall).0)
  {
    HandlersKeepFew(s, messages, wall, now);
    var (handled, actions) := HandledAll(s, messages, wall, now);
    ActionsKeepFew(handled, actions, wall, now);
    var drained := Drained(s, messages, wall, now).0;
    StillMissingIsDistinct(drained.targets, drained.held);
    TimersForgetHeld(drained, now, wall);
  }

  // ------------------------------------------------------------------ the trigger

  lemma {:induction false} EventRetains(s: State, e: Event, g: Guid, t: real, newer: set<Guid>)
    requires Waits(s, g, t, newer) && |newer| < 10 && LeavesMissing(e, g, newer)
    ensures Waits(Next(s, e), g, t, newer)
  {
    if e.Tick? {
      TickDrains(s, e, 0, g, t, newer);
      TimersRetain(Drained(s, e.messages, e.wall, e.at).0, e.at, e.wall, g, t, newer);
    }
  }

  lemma TickDrains(s: State, e: Event, from: nat, g: Guid, t: real, newer: set<Guid>)
    requires e.Tick? && from <= |e.messages| && |newer| < 10 && !HasSnapshot(e.messages)
    requires Waits(HandledAll(s, e.messages[..from], e.wall, e.at).0, g, t, newer)
    requires forall m | m in e.messages[from..] :: Harmless(m, g, newer)
    ensures Waits(Drained(s, e.messages, e.wall, e.at).0, g, t, newer)
  {
    DrainRetains(s, e.messages, from, e.wall, e.at, g, t, newer);
  }

  /** The miss itself makes it wait, behind whatever waited before. */
  lemma {:induction false} MissMakesWait(s: State, m: Guid, now: real, newer: set<Guid>)
    requires Few(s) && m !in s.held && forall t | t in s.targets :: t.guid != m
    ensures Waits(Missed(s, m, now), m, now, newer)
  {
    var all := s.targets + [Target(m, now)];
    assert Distinct(all) by {
      forall q | 0 <= q < |s.targets| ensures s.targets[q].guid != m {
        assert s.targets[q] in s.targets;
      }
    }
    assert Missed(s, m, now).targets == all[|all| - |Missed(s, m, now).targets|..];
    assert WaitsAt(Missed(s, m, now).targets, |Missed(s, m, now).targets| - 1, m, now, newer);
  }

  /** Until the end of the run it waits, since the moment it was first missed. */
  lemma {:induction false} WaitsOn(self: Guid, events: seq<Event>, i: nat, j: nat, g: Guid, newer: set<Guid>)
    requires i < |events| && StaysMissing(self, events, i, j, g, newer)
    ensures Waits(After(self, events), g, events[i].at, newer)
  {
    var n := |events| - 1;
    if i == n {
      var s, e := After(self, events[..n]), events[n];
      var messages := e.messages;
      TargetsStayFew(self, events[..n]);
      HandlersKeepFew(s, messages[..j], e.wall, e.at);
      HandlersKeep(s, messages[..j], e.wall, e.at);
      assert messages[..j + 1][..j] == messages[..j];
      MissMakesWait(HandledAll(s, messages[..j], e.wall, e.at).0, g, e.at, newer);
      TickDrains(s, e, j + 1, g, e.at, newer);
      TimersRetain(Drained(s, messages, e.wall, e.at).0, e.at, e.wall, g, e.at, newer);
    } else {
      assert events[..n][..i] == events[..i];
      WaitsOn(self, events[..n], i, j, g, newer);
      EventRetains(After(self, events[..n]), events[n], g, events[i].at, newer);
    }
  }

  /** The timers of a synced peer that has waited long enough ask its master for the state. */
  lemma {:induction false} TimersAsk(s: State, mono: real, wall: real, g: Guid, t: real, newer: set<Guid>)
    requires s.status == Synced && Waits(s, g, t, newer) && mono >= t + 0.5
    requires s.lastAttempt.None? || mono >= s.lastAttempt.value + 5.0
    requires var u := TimersFired(s, mono, wall).0; !u.isMaster && u.master.Some?
    ensures var (u, effects) := TimersFired(s, mono, wall);
            StateRequested(u.master.value) in effects && u.status == Joining && u.reason == Some(ForRecovery)
            && u.lastAttempt == Some(mono) && u.recoverySentAt == Some(mono)
  {
    var s1 := Failover(s, wall);
    assert s1 == (s, []);
    assert TimeOut(s, wall) == (s, []);
    var p: nat :| WaitsAt(s.targets, p, g, t, newer);
    assert s.targets[p] in s.targets;
    if DivergenceDue(s, mono) {
      assert RecoverDivergence(s, mono, wall).1 == [StateRequested(s.master.value)];
    } else {
      assert ResyncDue(s, mono);
      assert ResyncUnresolved(s, mono, wall).1 == [StateRequested(s.master.value)];
    }
  }

  // ------------------------------------------------------------------ the theorem

  /** A recovery may be attempted again: none has been in the last five seconds. */
  predicate Rested(s: State, now: real) {
    s.lastAttempt.None? || now >= s.lastAttempt.value + 5.0
  }

  /** The last event is a tick at `from` or later of a peer that is synced and rested, and leaves it with another as master. */
  ghost predicate CanAsk(self: Guid, events: seq<Event>, from: real) {
    && events != [] && events[|events| - 1].Tick? && events[|events| - 1].at >= from
    && var s, t := After(self, events[..|events| - 1]), After(self, events);
       s.status == Synced && Rested(s, events[|events| - 1].at) && !t.isMaster && t.master.Some?
  }

  /** And it asks that master for the state, to recover. */
  ghost predicate Asks(self: Guid, events: seq<Event>)
    requires events != [] && events[|events| - 1].Tick?
  {
    var t := After(self, events);
    && t.master.Some? && StateRequested(t.master.value) in EffectsOf(self, events, |events| - 1)
    && t.status == Joining && t.reason == Some(ForRecovery) && t.recoverySentAt == Some(events[|events| - 1].at)
    && t.lastAttempt == Some(events[|events| - 1].at)
  }

  /**
   * Over every run: a target is missed, at first in tick i; nothing since brings it, no snapshot is applied, fewer than
   * ten others are missed behind it. Then every tick half a second later or more, of a peer that is synced, rested and
   * has a master other than itself, asks that master for the state. Further misses of the same target change nothing.
   */
  lemma {:induction false} MissIsActedOn(
    self: Guid, events: seq<Event>, i: nat, j: nat, g: Guid, newer: set<Guid>)
    requires i < |events| - 1 && StaysMissing(self, events, i, j, g, newer)
    requires CanAsk(self, events, events[i].at + 0.5)
    ensures Asks(self, events)
  {
    var n := |events| - 1;
    var s, e := After(self, events[..n]), events[n];
    assert events[..n][..i] == events[..i];
    assert StaysMissing(self, events[..n], i, j, g, newer);
    WaitsOn(self, events[..n], i, j, g, newer);
    assert HandledAll(s, [], e.wall, e.at).0 == s && e.messages[..0] == [];
    TickDrains(s, e, 0, g, events[i].at, newer);
    StaysSynced(s, e.messages, e.wall, e.at);
    TimersAsk(Drained(s, e.messages, e.wall, e.at).0, e.at, e.wall, g, events[i].at, newer);
  }

  /** A batch without a snapshot leaves a synced peer synced. */
  lemma {:induction false} StaysSynced(s: State, messages: seq<Message>, wall: real, now: real)
    requires s.status == Synced && !HasSnapshot(messages)
    ensures HandledAll(s, messages, wall, now).1 == []
    ensures var d := Drained(s, messages, wall, now).0;
            d.status == Synced && d.lastAttempt == s.lastAttempt && d.diverged == s.diverged
  {
    if messages != [] {
      var init, m := messages[..|messages| - 1], messages[|messages| - 1];
      assert m in messages && forall x | x in init :: x in messages;
      StaysSynced(s, init, wall, now);
      HandlersKeep(s, init, wall, now);
      HandlerKeeps(HandledAll(s, init, wall, now).0, m, wall, now);
    }
  }

  /** A peer is kept from resting only by an attempt that was told: a request, or that there is nobody to ask. */
  lemma {:induction false} AttemptsAreTold(self: Guid, events: seq<Event>)
    ensures var last := After(self, events).lastAttempt;
            last.Some? ==> exists i :: 0 <= i < |events| && events[i].Tick? && events[i].at == last.value
                                       && exists effect :: effect in EffectsOf(self, events, i) && IsAttempt(effect)
  {
    if events != [] {
      var n := |events| - 1;
      var s, e := After(self, events[..n]), events[n];
      EventKeepsFacts(s, e);
      if Attempts(s, e) {
        var drained := Drained(s, e.messages, e.wall, e.at);
        var effect := AttemptTells(drained.0, e.at, e.wall);
        assert effect in EffectsOf(self, events, n);
      } else {
        AttemptsAreTold(self, events[..n]);
        if After(self, events).lastAttempt.Some? {
          var i :| 0 <= i < n && events[..n][i].Tick? && events[..n][i].at == s.lastAttempt.value
                   && exists effect :: effect in EffectsOf(self, events[..n], i) && IsAttempt(effect);
          assert events[..n][..i] == events[..i] && events[..n][i] == events[i];
          assert EffectsOf(self, events[..n], i) == EffectsOf(self, events, i);
        }
      }
    }
  }

  predicate IsAttempt(effect: Effect) {
    effect.StateRequested? || effect == RecoveryFailed || effect == ResyncFailed
  }

  lemma AttemptTells(s: State, mono: real, wall: real) returns (effect: Effect)
    requires TimersAttempt(s, wall, mono)
    ensures effect in TimersFired(s, mono, wall).1 && IsAttempt(effect)
  {
    var s2 := TimeOut(Failover(s, wall).0, wall).0;
    var third := RecoverDivergence(s2, mono, wall);
    if DivergenceDue(s2, mono) {
      effect := third.1[0];
    } else {
      effect := ResyncUnresolved(third.0, mono, wall).1[0];
    }
  }

  // ------------------------------------------------------------------ and only then

  /** The event names the object as one it could not find. */
  predicate NamesMissing(e: Event, g: Guid) {
    e.Tick? && exists m | m in e.messages ::
                 m == PatchMissed(g) || (m.StateSnapshot? && m.forThisPeer && g in m.missed)
  }

  /** Every target that waits was missed at the time it waits since. */
  ghost predicate Traced(events: seq<Event>, targets: seq<Target>) {
    forall t | t in targets :: exists i :: 0 <= i < |events| && events[i].at == t.since && NamesMissing(events[i], t.guid)
  }

  /** The targets of a state are old ones, or missed now. */
  ghost predicate OldOrNew(old': seq<Target>, targets: seq<Target>, now: real, missed: set<Guid>) {
    forall t | t in targets :: t in old' || (t.since == now && t.guid in missed)
  }

  /** What a batch says is missing. */
  function MissingIn(messages: seq<Message>): set<Guid> {
    if messages == [] then {}
    else
      var m := messages[|messages| - 1];
      MissingIn(messages[..|messages| - 1])
        + if m.PatchMissed? then {m.target}
          else if m.StateSnapshot? && m.forThisPeer then set g | g in m.missed else {}
  }

  lemma {:induction false} MissingIsNamed(messages: seq<Message>, wall: real, at: real)
    ensures forall g | g in MissingIn(messages) :: NamesMissing(Tick(messages, wall, at), g)
  {
    if messages != [] {
      var init, m := messages[..|messages| - 1], messages[|messages| - 1];
      MissingIsNamed(init, wall, at);
      assert m in messages && forall x | x in init :: x in messages;
      forall g | g in MissingIn(messages) ensures NamesMissing(Tick(messages, wall, at), g) {
        if g in MissingIn(init) {
          var x :| x in init && (x == PatchMissed(g) || (x.StateSnapshot? && x.forThisPeer && g in x.missed));
          assert x in messages;
        }
      }
    }
  }

  lemma {:induction false} HandlersMiss(s: State, messages: seq<Message>, wall: real, now: real)
    ensures OldOrNew(s.targets, HandledAll(s, messages, wall, now).0.targets, now, MissingIn(messages))
    ensures forall a, g | a in HandledAll(s, messages, wall, now).1 && a.SnapshotReceived? && g in a.missed ::
              g in MissingIn(messages)
  {
    if messages != [] {
      var init, m := messages[..|messages| - 1], messages[|messages| - 1];
      HandlersMiss(s, init, wall, now);
      var before := HandledAll(s, init, wall, now).0;
      assert forall t | t in Handled(before, m, wall, now).0.targets ::
               t in before.targets || (m.PatchMissed? && t == Target(m.target, now));
    }
  }

  lemma {:induction false} ReplayMisses(s: State, missed: seq<Guid>, now: real)
    ensures OldOrNew(s.targets, MissedAll(s, missed, now).targets, now, set g | g in missed)
  {
    if missed != [] {
      var init, g := missed[..|missed| - 1], missed[|missed| - 1];
      ReplayMisses(s, init, now);
      assert forall x :: x in missed <==> x in init || x == g;
    }
  }

  /** Actions of a batch add only what its snapshots miss, and without a master found they say nothing. */
  lemma {:induction false} ActionsMiss(s: State, actions: seq<Action>, wall: real, now: real, missing: set<Guid>)
    requires forall a, g | a in actions && a.SnapshotReceived? && g in a.missed :: g in missing
    ensures OldOrNew(s.targets, PerformedAll(s, actions, wall, now).0.targets, now, missing)
    ensures (forall a | a in actions :: !a.MasterFound?) ==>
              PerformedAll(s, actions, wall, now).1 == []
              && (s.status == Synced ==> PerformedAll(s, actions, wall, now).0.status == Synced)
  {
    if actions != [] {
      var init, a := actions[..|actions| - 1], actions[|actions| - 1];
      assert a in actions && forall x | x in init :: x in actions;
      ActionsMiss(s, init, wall, now, missing);
      if a.SnapshotReceived? {
        var before := PerformedAll(s, init, wall, now).0;
        var cleared := before.(held := a.rebuilt, targets := [], resyncUnreachable := false);
        ReplayMisses(cleared, a.missed, now);
        MissingTouchesTargetsOnly(cleared, a.missed, now);
      }
    }
  }

  lemma BatchMisses(s: State, messages: seq<Message>, wall: real, now: real)
    ensures OldOrNew(s.targets, Drained(s, messages, wall, now).0.targets, now, MissingIn(messages))
    ensures s.status == Synced ==>
              Drained(s, messages, wall, now).0.status == Synced && Drained(s, messages, wall, now).1 == []
  {
    HandlersMiss(s, messages, wall, now);
    HandlersKeep(s, messages, wall, now);
    var (handled, actions) := HandledAll(s, messages, wall, now);
    ActionsMiss(handled, actions, wall, now, MissingIn(messages));
  }

  lemma {:induction false} TargetsAreTraced(self: Guid, events: seq<Event>)
    ensures Traced(events, After(self, events).targets)
  {
    if events != [] {
      var n := |events| - 1;
      var s, e := After(self, events[..n]), events[n];
      TargetsAreTraced(self, events[..n]);
      var targets := if e.Tick? then Drained(s, e.messages, e.wall, e.at).0.targets else s.targets;
      if e.Tick? {
        BatchMisses(s, e.messages, e.wall, e.at);
        MissingIsNamed(e.messages, e.wall, e.at);
        TimersForgetHeld(Drained(s, e.messages, e.wall, e.at).0, e.at, e.wall);
        StillMissingKeeps(targets, Drained(s, e.messages, e.wall, e.at).0.held);
      }
      forall t | t in targets ensures exists i :: 0 <= i < |events| && events[i].at == t.since && NamesMissing(events[i], t.guid) {
        if t in s.targets {
          var i :| 0 <= i < n && events[..n][i].at == t.since && NamesMissing(events[..n][i], t.guid);
          assert events[i] == events[..n][i];
        } else {
          assert events[n].at == t.since && NamesMissing(events[n], t.guid);
        }
      }
    }
  }

  /**
   * And only then: a synced peer that has not diverged asks for the state, or says that it has nobody to ask, only when
   * it is rested and something missed half a second ago or earlier is still not held.
   */
  lemma {:induction false} ActsOnlyOnAMiss(self: Guid, events: seq<Event>, effect: Effect)
    returns (g: Guid, i: nat)
    requires var n := |events| - 1;
             && n >= 0 && events[n].Tick? && effect in EffectsOf(self, events, n)
             && After(self, events[..n]).status == Synced && !After(self, events[..n]).diverged
    requires effect.StateRequested? || effect.ResyncFailed?
    ensures i < |events| - 1 && NamesMissing(events[i], g) && events[i].at + 0.5 <= events[|events| - 1].at
    ensures g !in After(self, events).held && Rested(After(self, events[..|events| - 1]), events[|events| - 1].at)
  {
    var n := |events| - 1;
    var s, e := After(self, events[..n]), events[n];
    var drained := Drained(s, e.messages, e.wall, e.at).0;
    BatchMisses(s, e.messages, e.wall, e.at);
    DrainFacts(s, e.messages, e.wall, e.at);
    TimersForgetHeld(drained, e.at, e.wall);
    var t := TimersActOn(drained, e.at, e.wall, effect);
    g := t.guid;
    TargetsAreTraced(self, events[..n]);
    i :| 0 <= i < n && events[..n][i].at == t.since && NamesMissing(events[..n][i], g);
  }

  lemma TimersActOn(s: State, mono: real, wall: real, effect: Effect) returns (t: Target)
    requires s.status == Synced && !s.diverged && effect in TimersFired(s, mono, wall).1
    requires effect.StateRequested? || effect.ResyncFailed?
    ensures t in s.targets && t.guid !in s.held && t.since + 0.5 <= mono && Rested(s, mono)
  {
    var s1 := Failover(s, wall).0;
    assert TimeOut(s1, wall) == (s1, []);
    assert RecoverDivergence(s1, mono, wall) == (s1, []);
    assert ResyncDue(s1, mono);
    t :| t in s1.targets && t.guid !in s1.held && mono - t.since >= UNRESOLVED_SETTLE;
  }

  // ------------------------------------------------------------------ the newest ten

  function Patches(missed: seq<Guid>): seq<Message> {
    seq(|missed|, i requires 0 <= i < |missed| => PatchMissed(missed[i]))
  }

  function TargetsOf(missed: seq<Guid>, now: real): seq<Target> {
    seq(|missed|, i requires 0 <= i < |missed| => Target(missed[i], now))
  }

  ghost predicate NewNames(s: State, missed: seq<Guid>) {
    && (forall i, j | 0 <= i < j < |missed| :: missed[i] != missed[j])
    && (forall g | g in missed :: g !in s.held && forall t | t in s.targets :: t.guid != g)
  }

  /** Of ten or more new misses in one batch the last ten are retained, in order, and nothing else. */
  lemma {:induction false} NewestTenRemain(s: State, missed: seq<Guid>, wall: real, now: real)
    requires |s.targets| <= 10 && s.status != Joining && NewNames(s, missed)
    ensures HandledAll(s, Patches(missed), wall, now).0
         == s.(targets := LastTen(s.targets + TargetsOf(missed, now)))
  {
    if missed == [] {
      assert s.targets + [] == s.targets;
    } else {
      var init, g := missed[..|missed| - 1], missed[|missed| - 1];
      LastIsNew(s, missed, now);
      NewestTenRemain(s, init, wall, now);
      assert Patches(missed) == Patches(init) + [PatchMissed(g)];
      assert s.targets + TargetsOf(missed, now) == s.targets + TargetsOf(init, now) + [Target(g, now)];
      OneMoreMiss(s, Patches(init), g, s.targets + TargetsOf(init, now), wall, now);
    }
  }

  lemma OneMoreMiss(s: State, messages: seq<Message>, g: Guid, all: seq<Target>, wall: real, now: real)
    requires HandledAll(s, messages, wall, now).0 == s.(targets := LastTen(all)) && s.status != Joining && g !in s.held
    requires forall t | t in all :: t.guid != g
    ensures HandledAll(s, messages + [PatchMissed(g)], wall, now).0 == s.(targets := LastTen(all + [Target(g, now)]))
  {
    assert (messages + [PatchMissed(g)])[..|messages|] == messages;
    OneMoreOfTen(s.(targets := LastTen(all)), all, g, now);
  }

  lemma LastIsNew(s: State, missed: seq<Guid>, now: real)
    requires missed != [] && NewNames(s, missed)
    ensures var init, g := missed[..|missed| - 1], missed[|missed| - 1];
            && NewNames(s, init) && g !in s.held
            && forall t | t in s.targets + TargetsOf(init, now) :: t.guid != g
  {
    var init, g := missed[..|missed| - 1], missed[|missed| - 1];
    assert g in missed && forall x | x in init :: x in missed;
    forall t | t in TargetsOf(init, now) ensures t.guid != g {
      var i :| 0 <= i < |init| && TargetsOf(init, now)[i] == t;
      assert missed[i] == t.guid;
    }
  }

  lemma {:induction false} OneMoreOfTen(s: State, all: seq<Target>, g: Guid, now: real)
    requires s.targets == LastTen(all) && forall t | t in all :: t.guid != g
    ensures Missed(s, g, now) == s.(targets := LastTen(all + [Target(g, now)]))
  {
    assert Misses(s.targets, g);
  }

  function LastTen(targets: seq<Target>): seq<Target> {
    if |targets| > 10 then targets[|targets| - 10..] else targets
  }

  // ------------------------------------------------------------------ a refused change

  /** Neither a refusal that marks the peer nor a snapshot. */
  ghost predicate LeavesDivergence(e: Event) {
    !e.Refused? && (e.Tick? ==> !HasSnapshot(e.messages))
  }

  ghost predicate DivergedUntil(s: State, deadline: real) {
    s.diverged && s.settleDeadline == Some(deadline)
  }

  lemma {:induction false} ActionsKeepDivergence(s: State, actions: seq<Action>, wall: real, now: real)
    requires forall a | a in actions :: !a.SnapshotReceived?
    ensures var t := PerformedAll(s, actions, wall, now).0;
            t.diverged == s.diverged && t.settleDeadline == s.settleDeadline
  {
    if actions != [] {
      ActionsKeepDivergence(s, actions[..|actions| - 1], wall, now);
      assert actions[|actions| - 1] in actions;
    }
  }

  lemma DrainKeepsDivergence(s: State, messages: seq<Message>, wall: real, now: real)
    requires !HasSnapshot(messages)
    ensures var t := Drained(s, messages, wall, now).0;
            t.diverged == s.diverged && t.settleDeadline == s.settleDeadline
  {
    HandlersKeep(s, messages, wall, now);
    var (handled, actions) := HandledAll(s, messages, wall, now);
    ActionsKeepDivergence(handled, actions, wall, now);
  }

  lemma EventKeepsDivergence(s: State, e: Event, deadline: real)
    requires DivergedUntil(s, deadline) && LeavesDivergence(e)
    ensures DivergedUntil(Next(s, e), deadline)
  {
    if e.Tick? {
      var drained := Drained(s, e.messages, e.wall, e.at).0;
      DrainKeepsDivergence(s, e.messages, e.wall, e.at);
      StagesCompose(drained, e.at, e.wall);
    }
  }

  lemma {:induction false} StaysDiverged(self: Guid, events: seq<Event>, i: nat)
    requires i < |events| && Marks(self, events, i)
    requires forall k | i < k < |events| :: LeavesDivergence(events[k])
    ensures DivergedUntil(After(self, events), events[i].at + 0.5)
  {
    var n := |events| - 1;
    if i < n {
      assert events[..n][..i] == events[..i];
      StaysDiverged(self, events[..n], i);
      EventKeepsDivergence(After(self, events[..n]), events[n], events[i].at + 0.5);
    }
  }

  /**
   * Over every run: the last refusal that marked the peer was event i, and no snapshot has been applied since. Then a
   * tick of a synced and rested peer with a master other than itself asks that master for the state, if it comes half a
   * second after the refusal or later.
   */
  lemma {:induction false} RefusalIsActedOn(self: Guid, events: seq<Event>, i: nat)
    requires i < |events| - 1 && Marks(self, events, i)
    requires forall k | i < k < |events| :: LeavesDivergence(events[k])
    requires CanAsk(self, events, events[i].at + 0.5)
    ensures Asks(self, events)
  {
    var n := |events| - 1;
    var s, e := After(self, events[..n]), events[n];
    assert events[..n][..i] == events[..i];
    StaysDiverged(self, events[..n], i);
    StaysSynced(s, e.messages, e.wall, e.at);
    DrainKeepsDivergence(s, e.messages, e.wall, e.at);
    DivergedAsks(Drained(s, e.messages, e.wall, e.at).0, e.at, e.wall);
  }

  lemma DivergedAsks(s: State, mono: real, wall: real)
    requires s.status == Synced && s.diverged && s.settleDeadline.Some? && mono >= s.settleDeadline.value && Rested(s, mono)
    requires var u := TimersFired(s, mono, wall).0; !u.isMaster && u.master.Some?
    ensures var (u, effects) := TimersFired(s, mono, wall);
            StateRequested(u.master.value) in effects && u.status == Joining && u.reason == Some(ForRecovery)
            && u.recoverySentAt == Some(mono) && u.lastAttempt == Some(mono)
  {
    assert Failover(s, wall) == (s, []);
    assert TimeOut(s, wall) == (s, []);
    assert RecoverDivergence(s, mono, wall).1 == [StateRequested(s.master.value)];
  }

  // ------------------------------------------------------------------ a silent master

  /** Nobody asks for the master, and nobody answers. */
  predicate SilentOnMaster(messages: seq<Message>) {
    forall m | m in messages :: !m.WhoIsMaster? && !m.IAmMaster?
  }

  lemma {:induction false} SilenceKeepsAsked(s: State, before: seq<Message>, rest: seq<Message>, wall: real, now: real)
    requires SilentOnMaster(rest)
    ensures HandledAll(s, before + rest, wall, now).0.masterAskedAt == HandledAll(s, before, wall, now).0.masterAskedAt
    decreases |rest|
  {
    if rest == [] {
      assert before + rest == before;
    } else {
      var init, m := rest[..|rest| - 1], rest[|rest| - 1];
      assert m in rest && forall x | x in init :: x in rest;
      SilenceKeepsAsked(s, before, init, wall, now);
      assert (before + rest)[..|before + rest| - 1] == before + init;
    }
  }

  lemma {:induction false} ActionsKeepAsked(s: State, actions: seq<Action>, wall: real, now: real)
    ensures var t := PerformedAll(s, actions, wall, now).0;
            t.masterAskedAt == s.masterAskedAt && t.isMaster == s.isMaster
  {
    if actions != [] {
      var init, a := actions[..|actions| - 1], actions[|actions| - 1];
      ActionsKeepAsked(s, init, wall, now);
      if a.SnapshotReceived? {
        var before := PerformedAll(s, init, wall, now).0;
        MissingTouchesTargetsOnly(before.(held := a.rebuilt, targets := [], resyncUnreachable := false), a.missed, now);
      }
    }
  }

  /** The state the timers find remembers the question. */
  lemma DrainKeepsAsked(s: State, messages: seq<Message>, from: nat, wall: real, now: real)
    requires from <= |messages| && SilentOnMaster(messages[from..])
    ensures var t := Drained(s, messages, wall, now).0;
            t.isMaster == s.isMaster && t.masterAskedAt == HandledAll(s, messages[..from], wall, now).0.masterAskedAt
  {
    assert messages == messages[..from] + messages[from..];
    SilenceKeepsAsked(s, messages[..from], messages[from..], wall, now);
    HandlersKeep(s, messages, wall, now);
    var (handled, actions) := HandledAll(s, messages, wall, now);
    ActionsKeepAsked(handled, actions, wall, now);
  }

  /** A synced peer that is no master hears somebody ask for it. */
  ghost predicate HearsQuestion(self: Guid, events: seq<Event>, i: nat, j: nat)
    requires i < |events|
  {
    && events[i].Tick? && j < |events[i].messages| && events[i].messages[j] == WhoIsMaster
    && After(self, events[..i]).status == Synced && !After(self, events[..i]).isMaster
    && SilentOnMaster(events[i].messages[j + 1..])
  }

  ghost predicate MasterOrAsked(s: State, at: real) {
    s.isMaster || s.masterAskedAt == Some(at)
  }

  lemma TickKeepsQuestion(s: State, e: Event, from: nat, at: real)
    requires e.Tick? && from <= |e.messages| && SilentOnMaster(e.messages[from..])
    requires MasterOrAsked(HandledAll(s, e.messages[..from], e.wall, e.at).0, at)
    ensures MasterOrAsked(Next(s, e), at)
  {
    DrainKeepsAsked(s, e.messages, from, e.wall, e.at);
    HandlersKeep(s, e.messages[..from], e.wall, e.at);
    FailoverIff(Drained(s, e.messages, e.wall, e.at).0, e.at, e.wall);
  }

  lemma {:induction false} QuestionStays(self: Guid, events: seq<Event>, i: nat, j: nat)
    requires i < |events| && HearsQuestion(self, events, i, j)
    requires forall k | i < k < |events| && events[k].Tick? :: SilentOnMaster(events[k].messages)
    ensures MasterOrAsked(After(self, events), events[i].wall)
  {
    var n := |events| - 1;
    var s, e := After(self, events[..n]), events[n];
    if i == n {
      assert e.messages[..j + 1][..j] == e.messages[..j];
      HandlersKeep(s, e.messages[..j], e.wall, e.at);
      TickKeepsQuestion(s, e, j + 1, e.wall);
    } else {
      assert events[..n][..i] == events[..i];
      QuestionStays(self, events[..n], i, j);
      if e.Tick? {
        assert e.messages[0..] == e.messages && e.messages[..0] == [];
        TickKeepsQuestion(s, e, 0, events[i].wall);
      }
    }
  }

  /** The timers behind the first one do not concern the question. */
  lemma LaterTimersKeepAsked(s: State, mono: real, wall: real)
    ensures var (t, effects) := TimeOut(s, wall);
            t.isMaster == s.isMaster && t.masterAskedAt == s.masterAskedAt && BecameMaster !in effects
    ensures var (t, effects) := RecoverDivergence(s, mono, wall);
            t.isMaster == s.isMaster && t.masterAskedAt == s.masterAskedAt && BecameMaster !in effects
    ensures var (t, effects) := ResyncUnresolved(s, mono, wall);
            t.isMaster == s.isMaster && t.masterAskedAt == s.masterAskedAt && BecameMaster !in effects
  {
    assert forall m :: BecameMaster !in [StateRequested(m)];
  }

  lemma FailoverIff(s: State, mono: real, wall: real)
    ensures var (t, effects) := TimersFired(s, mono, wall);
            var due := !s.isMaster && s.status == Synced && s.masterAskedAt.Some? && wall > s.masterAskedAt.value + 2.0;
            && (BecameMaster in effects <==> due) && t.isMaster == (s.isMaster || due)
            && (t.masterAskedAt == if due then None else s.masterAskedAt)
  {
    var first := Failover(s, wall);
    var second := TimeOut(first.0, wall);
    var third := RecoverDivergence(second.0, mono, wall);
    LaterTimersKeepAsked(first.0, mono, wall);
    LaterTimersKeepAsked(second.0, mono, wall);
    LaterTimersKeepAsked(third.0, mono, wall);
  }

  /**
   * Over every run: somebody asks for the master, and since then nobody asks again and nobody answers. A tick of the
   * peer, while it is synced and no master, makes it master exactly when more than two seconds have passed.
   */
  lemma {:induction false} SilentMasterIsReplacedIff(self: Guid, events: seq<Event>, i: nat, j: nat)
    requires i < |events| - 1 && HearsQuestion(self, events, i, j)
    requires forall k | i < k < |events| && events[k].Tick? :: SilentOnMaster(events[k].messages)
    requires var n := |events| - 1;
             && events[n].Tick? && After(self, events[..n]).status == Synced && !After(self, events[..n]).isMaster
    ensures BecameMaster in EffectsOf(self, events, |events| - 1) <==> events[|events| - 1].wall > events[i].wall + 2.0
    ensures After(self, events).isMaster <==> events[|events| - 1].wall > events[i].wall + 2.0
  {
    var n := |events| - 1;
    var s, e := After(self, events[..n]), events[n];
    assert events[..n][..i] == events[..i];
    QuestionStays(self, events[..n], i, j);
    assert e.messages[0..] == e.messages && e.messages[..0] == [];
    DrainKeepsAsked(s, e.messages, 0, e.wall, e.at);
    BatchMisses(s, e.messages, e.wall, e.at);
    FailoverIff(Drained(s, e.messages, e.wall, e.at).0, e.at, e.wall);
  }

  // ------------------------------------------------------------------ a request that is not answered

  /** Waiting for the state since `at`. */
  ghost predicate AwaitsState(s: State, reason: Reason, at: real) {
    s.status == Joining && s.reason == Some(reason) && s.requestTime == Some(at)
  }

  /** Nothing that ends the wait but the clock: no snapshot, and no call of the host application. */
  ghost predicate LeavesWaiting(e: Event) {
    && !e.Asked? && !e.Started? && !e.ElectedSelf?
    && (e.Tick? ==> !HasSnapshot(e.messages))
  }

  /** A tick finds the wait as it was. */
  lemma {:induction false} DrainLeavesWaiting(s: State, messages: seq<Message>, wall: real, now: real, reason: Reason, at: real)
    requires AwaitsState(s, reason, at) && !HasSnapshot(messages)
    ensures HandledAll(s, messages, wall, now).1 == []
    ensures AwaitsState(Drained(s, messages, wall, now).0, reason, at) && Drained(s, messages, wall, now).1 == []
  {
    if messages != [] {
      var init, m := messages[..|messages| - 1], messages[|messages| - 1];
      assert m in messages && forall x | x in init :: x in messages;
      DrainLeavesWaiting(s, init, wall, now, reason, at);
      HandlersKeep(s, init, wall, now);
      HandlerKeeps(HandledAll(s, init, wall, now).0, m, wall, now);
      HandlersKeep(s, messages, wall, now);
    }
  }

  lemma TimersGiveUpIff(s: State, mono: real, wall: real, reason: Reason, at: real)
    requires AwaitsState(s, reason, at)
    ensures var (t, effects) := TimersFired(s, mono, wall);
            if wall <= at + 5.0 then t == s && effects == []
            else effects != [] && effects[0] == (if reason == ForRecovery then RecoveryFailed else RequestTimedOut)
                 && (if reason == ForRecovery then t.master == s.master && t.status != Discovering
                     else t.master.None? && t.status == Discovering)
  {
    assert Failover(s, wall) == (s, []);
    if wall <= at + 5.0 {
      assert TimeOut(s, wall) == (s, []) && RecoverDivergence(s, mono, wall) == (s, []);
    } else if reason == ForJoin {
      var out := TimeOut(s, wall).0;
      assert RecoverDivergence(out, mono, wall) == (out, []);
    }
  }

  /** What a tick does about the wait: nothing for five seconds, then it gives up. A recovery stays with its master. */
  ghost predicate EndsWaitOnTime(s: State, e: Event, reason: Reason, at: real)
    requires e.Tick?
  {
    var (t, effects) := Ticked(s, e.messages, e.at, e.wall);
    if e.wall <= at + 5.0 then AwaitsState(t, reason, at) && effects == []
    else && effects != [] && effects[0] == (if reason == ForRecovery then RecoveryFailed else RequestTimedOut)
         && (t.status == Discovering <==> reason == ForJoin) && (reason == ForJoin ==> t.master.None?)
  }

  lemma TickEndsWait(s: State, e: Event, reason: Reason, at: real)
    requires e.Tick? && AwaitsState(s, reason, at) && LeavesWaiting(e)
    ensures EndsWaitOnTime(s, e, reason, at)
  {
    DrainLeavesWaiting(s, e.messages, e.wall, e.at, reason, at);
    TimersGiveUpIff(Drained(s, e.messages, e.wall, e.at).0, e.at, e.wall, reason, at);
  }

  lemma {:induction false} StillWaits(self: Guid, events: seq<Event>, i: nat, reason: Reason, at: real)
    requires i <= |events| && AwaitsState(After(self, events[..i]), reason, at)
    requires forall k | i <= k < |events| :: LeavesWaiting(events[k]) && (events[k].Tick? ==> events[k].wall <= at + 5.0)
    ensures AwaitsState(After(self, events), reason, at)
  {
    if i == |events| {
      assert events[..i] == events;
    } else {
      var n := |events| - 1;
      assert events[..n][..i] == events[..i];
      StillWaits(self, events[..n], i, reason, at);
      EventLeavesWaiting(After(self, events[..n]), events[n], reason, at);
    }
  }

  lemma EventLeavesWaiting(s: State, e: Event, reason: Reason, at: real)
    requires AwaitsState(s, reason, at) && LeavesWaiting(e) && (e.Tick? ==> e.wall <= at + 5.0)
    ensures AwaitsState(Next(s, e), reason, at)
  {
    if e.Tick? {
      TickEndsWait(s, e, reason, at);
    }
  }

  /**
   * A request for the state waits for five seconds. No tick before that does anything about it; the first one behind that
   * gives up: a recovery stays with its master, a join drops it and searches again.
   */
  lemma {:induction false} UnansweredRequestEndsIff(self: Guid, events: seq<Event>, i: nat, reason: Reason, at: real)
    requires i < |events| && AwaitsState(After(self, events[..i]), reason, at)
    requires forall k | i <= k < |events| :: LeavesWaiting(events[k])
    requires forall k | i <= k < |events| - 1 && events[k].Tick? :: events[k].wall <= at + 5.0
    requires events[|events| - 1].Tick?
    ensures EndsWaitOnTime(After(self, events[..|events| - 1]), events[|events| - 1], reason, at)
  {
    var n := |events| - 1;
    assert events[..n][..i] == events[..i];
    StillWaits(self, events[..n], i, reason, at);
    TickEndsWait(After(self, events[..n]), events[n], reason, at);
  }
}
