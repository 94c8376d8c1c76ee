// The recorder's first handshake over whole runs: sync_recorder/recorder.py, tick. What it sends is told by the times alone.
module RecorderRuns {
  import opened Basics
  import opened Recorder

  /** What tick i of a run sends. */
  function SentAt(c: Config, s: State, ticks: seq<TickInput>, i: nat): seq<Outgoing>
    requires i < |ticks|
  {
    Ticked(c, After(c, s, ticks[..i]), ticks[i].messages, ticks[i].at).1
  }

  /** More than so long after zero, and after every earlier tick that sent something. */
  ghost predicate Due(c: Config, s: State, ticks: seq<TickInput>, j: nat, wait: real)
    requires j < |ticks|
  {
    ticks[j].at > wait && forall i | 0 <= i < j && SentAt(c, s, ticks, i) != [] :: ticks[j].at > ticks[i].at + wait
  }

  /** `mark` is when something was last sent, zero when nothing was. */
  ghost predicate LastSent(c: Config, s: State, ticks: seq<TickInput>, mark: real) {
    && (forall i | 0 <= i < |ticks| && SentAt(c, s, ticks, i) != [] :: ticks[i].at <= mark)
    && (mark == 0.0 || exists i :: 0 <= i < |ticks| && SentAt(c, s, ticks, i) != [] && ticks[i].at == mark)
  }

  /** The mark of all ticks but the last, seen from all of them. */
  lemma {:induction false} LastSentBefore(c: Config, s: State, ticks: seq<TickInput>, mark: real)
    requires ticks != [] && LastSent(c, s, ticks[..|ticks| - 1], mark)
    ensures forall i | 0 <= i < |ticks| - 1 && SentAt(c, s, ticks, i) != [] :: ticks[i].at <= mark
    ensures mark == 0.0 || exists i :: 0 <= i < |ticks| - 1 && SentAt(c, s, ticks, i) != [] && ticks[i].at == mark
  {
    var n := |ticks| - 1;
    forall i | 0 <= i < n ensures SentAt(c, s, ticks[..n], i) == SentAt(c, s, ticks, i) {
      SameBefore(c, s, ticks, n, i, 0.0);
    }
    if mark != 0.0 {
      var i :| 0 <= i < n && SentAt(c, s, ticks[..n], i) != [] && ticks[..n][i].at == mark;
      assert SentAt(c, s, ticks, i) != [];
    }
  }

  lemma {:induction false} LastSentDecides(c: Config, s: State, ticks: seq<TickInput>, mark: real, wait: real)
    requires ticks != [] && InTime(0.0, ticks) && mark >= 0.0 && wait > 0.0
    requires LastSent(c, s, ticks[..|ticks| - 1], mark)
    ensures Due(c, s, ticks, |ticks| - 1, wait) <==> ticks[|ticks| - 1].at - mark > wait
    ensures LastSent(c, s, ticks, if SentAt(c, s, ticks, |ticks| - 1) != [] then ticks[|ticks| - 1].at else mark)
  {
    LastSentBefore(c, s, ticks, mark);
    LastSentOn(c, s, ticks, mark);
  }

  lemma {:induction false} LastSentOn(c: Config, s: State, ticks: seq<TickInput>, mark: real)
    requires ticks != [] && InTime(0.0, ticks)
    requires forall i | 0 <= i < |ticks| - 1 && SentAt(c, s, ticks, i) != [] :: ticks[i].at <= mark
    requires mark == 0.0 || exists i :: 0 <= i < |ticks| - 1 && SentAt(c, s, ticks, i) != [] && ticks[i].at == mark
    ensures LastSent(c, s, ticks, if SentAt(c, s, ticks, |ticks| - 1) != [] then ticks[|ticks| - 1].at else mark)
  {
  }

  // ------------------------------------------------------------------ looking for a master

  predicate NamesMaster(m: Incoming) {
    m.IAmMaster? && m.master.Some?
  }

  /** Looking for a master, not having found one. */
  predicate Searching(c: Config, s: State) {
    c.captureInitial && !s.captured && s.handshake == Handshake.Discovering
  }

  lemma {:induction false} SearchGoesOn(c: Config, s: State, messages: seq<Incoming>, now: real)
    requires Searching(c, s) && forall m | m in messages :: !NamesMaster(m)
    ensures var t := ReceivedAll(c, s, messages, now);
            Searching(c, t) && t.sentDiscover == s.sentDiscover
  {
    if messages != [] {
      var init, m := messages[..|messages| - 1], messages[|messages| - 1];
      assert m in messages && forall x | x in init :: x in messages;
      SearchGoesOn(c, s, init, now);
    }
  }

  lemma SearchTick(c: Config, s: State, messages: seq<Incoming>, now: real)
    requires Searching(c, s) && forall m | m in messages :: !NamesMaster(m)
    ensures var (t, sent) := Ticked(c, s, messages, now);
            && Searching(c, t) && sent == (if now - s.sentDiscover > 1.0 then [WhoIsMaster] else [])
            && t.sentDiscover == if sent != [] then now else s.sentDiscover
  {
    SearchGoesOn(c, Handshaken(c, s, now).0, messages, now);
  }

  lemma {:induction false} SearchMarks(c: Config, s0: State, ticks: seq<TickInput>)
    requires Searching(c, s0) && s0.sentDiscover == 0.0 && InTime(0.0, ticks)
    requires forall i, m | 0 <= i < |ticks| && m in ticks[i].messages :: !NamesMaster(m)
    ensures var s := After(c, s0, ticks);
            Searching(c, s) && s.sentDiscover >= 0.0 && LastSent(c, s0, ticks, s.sentDiscover)
    ensures ticks != [] ==>
              var n := |ticks| - 1; SentAt(c, s0, ticks, n) == if Due(c, s0, ticks, n, 1.0) then [WhoIsMaster] else []
  {
    if ticks != [] {
      var n := |ticks| - 1;
      var init, last := ticks[..n], ticks[n];
      SearchMarks(c, s0, init);
      var s := After(c, s0, init);
      SearchTick(c, s, last.messages, last.at);
      LastSentDecides(c, s0, ticks, s.sentDiscover, 1.0);
    }
  }

  lemma SameBefore(c: Config, s: State, ticks: seq<TickInput>, n: nat, j: nat, wait: real)
    requires j < n <= |ticks|
    ensures SentAt(c, s, ticks, j) == SentAt(c, s, ticks[..n], j)
    ensures Due(c, s, ticks, j, wait) == Due(c, s, ticks[..n], j, wait)
  {
    assert ticks[..n][..j] == ticks[..j] && ticks[..n][j] == ticks[j];
    forall i | 0 <= i < j ensures SentAt(c, s, ticks, i) == SentAt(c, s, ticks[..n], i) && ticks[..n][i] == ticks[i] {
      assert ticks[..n][..i] == ticks[..i];
    }
  }

  /**
   * As long as nobody names a master, a recorder that wants an initial snapshot asks for one at exactly those ticks that
   * come more than a second after every earlier question.
   */
  lemma {:induction false} AsksEverySecond(c: Config, t0: real, ticks: seq<TickInput>, j: nat)
    requires c.captureInitial && InTime(0.0, ticks) && j < |ticks|
    requires forall i, m | 0 <= i < |ticks| && m in ticks[i].messages :: !NamesMaster(m)
    ensures SentAt(c, Begun(c, t0), ticks, j)
         == if Due(c, Begun(c, t0), ticks, j, 1.0) then [WhoIsMaster] else []
  {
    SearchMarks(c, Begun(c, t0), ticks[..j + 1]);
    SameBefore(c, Begun(c, t0), ticks, j + 1, j, 1.0);
  }

  // ------------------------------------------------------------------ asking the master

  /** A master was named at t, and has been asked last at `mark`. */
  predicate Requesting(c: Config, s: State, master: Guid, t: real, mark: real) {
    && c.captureInitial && !s.captured && s.handshake == RequestingState
    && s.master == Some(master) && s.requestStart == t && s.sentRequest == mark
  }

  /** The state for this recorder. */
  predicate IsAnswer(c: Config, m: Incoming) {
    m == StateSnapshot(c.selfGuid)
  }

  lemma {:induction false} RequestGoesOn(
    c: Config, s: State, messages: seq<Incoming>, now: real, master: Guid, t: real, mark: real)
    requires Requesting(c, s, master, t, mark) && forall m | m in messages :: !IsAnswer(c, m)
    ensures Requesting(c, ReceivedAll(c, s, messages, now), master, t, mark)
  {
    if messages != [] {
      var init, m := messages[..|messages| - 1], messages[|messages| - 1];
      assert m in messages && forall x | x in init :: x in messages;
      RequestGoesOn(c, s, init, now, master, t, mark);
    }
  }

  /** The first message of a batch that names a master makes a searching recorder ask that one, whatever else the batch holds. */
  lemma {:induction false} MasterIsFound(
    c: Config, s: State, before: seq<Incoming>, master: Guid, behind: seq<Incoming>, now: real)
    requires Searching(c, s) && (forall m | m in before :: !NamesMaster(m)) && (forall m | m in behind :: !IsAnswer(c, m))
    ensures Requesting(c, ReceivedAll(c, s, before + [IAmMaster(Some(master))] + behind, now), master, now, 0.0)
    decreases |behind|
  {
    var messages := before + [IAmMaster(Some(master))] + behind;
    if behind == [] {
      assert messages[..|messages| - 1] == before;
      SearchGoesOn(c, s, before, now);
    } else {
      var init, m := behind[..|behind| - 1], behind[|behind| - 1];
      assert messages[..|messages| - 1] == before + [IAmMaster(Some(master))] + init;
      assert m in behind && forall x | x in init :: x in behind;
      MasterIsFound(c, s, before, master, init, now);
    }
  }

  /**
   * From then on, until it is answered and for at most four seconds, it asks that master at exactly those ticks that come
   * more than two seconds after every earlier request. The first tick after the four seconds sends nothing and gives up.
   */
  lemma {:induction false} RequestsEveryTwoSeconds(c: Config, s: State, master: Guid, t: real, ticks: seq<TickInput>)
    requires Requesting(c, s, master, t, 0.0) && InTime(0.0, ticks) && ticks != []
    requires forall i, m | 0 <= i < |ticks| && m in ticks[i].messages :: !IsAnswer(c, m)
    requires forall i | 0 <= i < |ticks| - 1 :: ticks[i].at <= t + 4.0
    ensures var n := |ticks| - 1;
            SentAt(c, s, ticks, n)
            == if ticks[n].at <= t + 4.0 && Due(c, s, ticks, n, 2.0) then [StateRequest(Some(master))] else []
    ensures var n := |ticks| - 1;
            if ticks[n].at <= t + 4.0
            then exists mark :: mark >= 0.0 && Requesting(c, After(c, s, ticks), master, t, mark) && LastSent(c, s, ticks, mark)
            else (forall m | m in ticks[n].messages :: !NamesMaster(m)) ==> Searching(c, After(c, s, ticks))
  {
    var n := |ticks| - 1;
    var init, last := ticks[..n], ticks[n];
    var q, mark := After(c, s, init), 0.0;
    if init != [] {
      RequestsEveryTwoSeconds(c, s, master, t, init);
      mark :| mark >= 0.0 && Requesting(c, q, master, t, mark) && LastSent(c, s, init, mark);
    }
    LastSentDecides(c, s, ticks, mark, 2.0);
    RequestTick(c, q, last.messages, last.at, master, t, mark);
    if last.at <= t + 4.0 {
      var now := if last.at - mark > 2.0 then last.at else mark;
      assert Requesting(c, After(c, s, ticks), master, t, now) && LastSent(c, s, ticks, now);
    }
  }

  lemma RequestTick(c: Config, s: State, messages: seq<Incoming>, now: real, master: Guid, t: real, mark: real)
    requires Requesting(c, s, master, t, mark) && forall m | m in messages :: !IsAnswer(c, m)
    ensures var (u, sent) := Ticked(c, s, messages, now);
            if now <= t + 4.0
            then && Requesting(c, u, master, t, if now - mark > 2.0 then now else mark)
                 && sent == (if now - mark > 2.0 then [StateRequest(Some(master))] else [])
            else sent == [] && ((forall m | m in messages :: !NamesMaster(m)) ==> Searching(c, u))
  {
    var h := Handshaken(c, s, now).0;
    if now <= t + 4.0 {
      RequestGoesOn(c, h, messages, now, master, t, h.sentRequest);
    } else if forall m | m in messages :: !NamesMaster(m) {
      SearchGoesOn(c, h, messages, now);
    }
  }

  /** The answer ends it, whatever else the batch holds. */
  lemma {:induction false} AnswerIsCaptured(
    c: Config, s: State, before: seq<Incoming>, behind: seq<Incoming>, now: real, master: Guid, t: real, mark: real)
    requires Requesting(c, s, master, t, mark) && forall m | m in before :: !IsAnswer(c, m)
    ensures var u := ReceivedAll(c, s, before + [StateSnapshot(c.selfGuid)] + behind, now);
            u.captured && u.handshake == Recording
    decreases |behind|
  {
    var messages := before + [StateSnapshot(c.selfGuid)] + behind;
    if behind == [] {
      assert messages[..|messages| - 1] == before;
      RequestGoesOn(c, s, before, now, master, t, mark);
    } else {
      var init := behind[..|behind| - 1];
      assert messages[..|messages| - 1] == before + [StateSnapshot(c.selfGuid)] + init;
      AnswerIsCaptured(c, s, before, init, now, master, t, mark);
    }
  }

  /** Once the answer is in, there is no more handshake. */
  lemma {:induction false} CapturedIsQuiet(c: Config, s: State, ticks: seq<TickInput>)
    requires s.captured && !c.capturePeriodic
    ensures After(c, s, ticks).captured && forall j | 0 <= j < |ticks| :: SentAt(c, s, ticks, j) == []
  {
    if ticks != [] {
      var n := |ticks| - 1;
      CapturedIsQuiet(c, s, ticks[..n]);
      CapturedStays(c, After(c, s, ticks[..n]), ticks[n].messages, ticks[n].at);
      forall j | 0 <= j < n ensures SentAt(c, s, ticks, j) == [] {
        SameBefore(c, s, ticks, n, j, 0.0);
      }
    }
  }

  lemma {:induction false} CapturedStays(c: Config, s: State, messages: seq<Incoming>, now: real)
    requires s.captured
    ensures ReceivedAll(c, s, messages, now).captured
  {
    if messages != [] {
      CapturedStays(c, s, messages[..|messages| - 1], now);
    }
  }

  // ------------------------------------------------------------------ periodic snapshots

  /**
   * Once the initial snapshot is in, a tick asks the known master again exactly when nothing is outstanding, the session
   * has been silent and the last request and the last snapshot are long enough ago; and it looks for a master exactly
   * when none is known for that long, or when a request has gone unanswered for more than two seconds.
   */
  lemma PeriodicSendsIff(c: Config, s: State, messages: seq<Incoming>, now: real)
    requires s.captured
    ensures Ticked(c, s, messages, now).1 == [StateRequest(s.cachedMaster)] <==>
              && c.capturePeriodic && !s.pending && s.cachedMaster.Some?
              && now >= s.lastMessage + c.minSilence && now >= s.lastRequest + c.minInterval
              && (s.lastSnapshot == 0.0 || now >= s.lastSnapshot + c.minInterval)
    ensures Ticked(c, s, messages, now).1 == [WhoIsMaster] <==>
              && c.capturePeriodic
              && (if s.pending then now > s.lastRequest + 2.0
                  else s.cachedMaster.None? && now >= s.lastRequest + c.minInterval)
    ensures Ticked(c, s, messages, now).1 in [[], [WhoIsMaster], [StateRequest(s.cachedMaster)]]
  {
    var sent := Ticked(c, s, messages, now).1;
    assert Handshaken(c, s, now) == (s, []);
    assert sent == [] + (if c.capturePeriodic then Driven(c, s, now).1 else []);
    assert sent != [] ==> sent == [sent[0]];
    assert [WhoIsMaster] != [StateRequest(s.cachedMaster)] by {
      assert [WhoIsMaster][0] != [StateRequest(s.cachedMaster)][0];
    }
  }

  /** The master a recorder knows is the one the last message to name one named. */
  ghost predicate KnowsLastNamed(known: Option<Guid>, messages: seq<Incoming>, before: Option<Guid>) {
    || (known == before && forall m | m in messages :: !NamesMaster(m))
    || (exists k :: 0 <= k < |messages| && NamesMaster(messages[k]) && messages[k].master == known
                    && forall i | k < i < |messages| :: !NamesMaster(messages[i]))
  }

  lemma {:induction false} MasterIsRemembered(c: Config, s: State, messages: seq<Incoming>, now: real)
    ensures KnowsLastNamed(ReceivedAll(c, s, messages, now).cachedMaster, messages, s.cachedMaster)
  {
    if messages != [] {
      var init, m := messages[..|messages| - 1], messages[|messages| - 1];
      MasterIsRemembered(c, s, init, now);
      var known := ReceivedAll(c, s, init, now).cachedMaster;
      if NamesMaster(m) {
        assert messages[|messages| - 1].master == ReceivedAll(c, s, messages, now).cachedMaster;
      } else if k :| 0 <= k < |init| && NamesMaster(init[k]) && init[k].master == known
                     && forall i | k < i < |init| :: !NamesMaster(init[i]) {
        assert NamesMaster(messages[k]) && messages[k].master == known;
        assert forall i | k < i < |messages| :: !NamesMaster(messages[i]);
      } else {
        assert forall x :: x in messages <==> x in init || x == m;
      }
    }
  }

  /** Due by an interval: so long after zero, and after every earlier tick that sent something. */
  ghost predicate DueEvery(c: Config, s: State, ticks: seq<TickInput>, j: nat, interval: real)
    requires j < |ticks|
  {
    ticks[j].at >= interval && forall i | 0 <= i < j && SentAt(c, s, ticks, i) != [] :: ticks[j].at >= ticks[i].at + interval
  }

  /** No master known, and none asked for the state. */
  predicate Looking(c: Config, s: State) {
    c.capturePeriodic && s.captured && !s.pending && s.cachedMaster.None?
  }

  lemma {:induction false} LookingGoesOn(c: Config, s: State, messages: seq<Incoming>, now: real)
    requires Looking(c, s) && forall m | m in messages :: !NamesMaster(m)
    ensures Looking(c, ReceivedAll(c, s, messages, now)) && ReceivedAll(c, s, messages, now).lastRequest == s.lastRequest
  {
    if messages != [] {
      var init, m := messages[..|messages| - 1], messages[|messages| - 1];
      assert m in messages && forall x | x in init :: x in messages;
      LookingGoesOn(c, s, init, now);
    }
  }

  lemma {:induction false} LookingMarks(c: Config, s0: State, ticks: seq<TickInput>)
    requires Looking(c, s0) && s0.lastRequest == 0.0 && InTime(0.0, ticks)
    requires forall i, m | 0 <= i < |ticks| && m in ticks[i].messages :: !NamesMaster(m)
    ensures var s := After(c, s0, ticks);
            Looking(c, s) && s.lastRequest >= 0.0 && LastSent(c, s0, ticks, s.lastRequest)
    ensures ticks != [] ==>
              var n := |ticks| - 1;
              SentAt(c, s0, ticks, n) == if DueEvery(c, s0, ticks, n, c.minInterval) then [WhoIsMaster] else []
  {
    if ticks != [] {
      var n := |ticks| - 1;
      var init, last := ticks[..n], ticks[n];
      LookingMarks(c, s0, init);
      var s := After(c, s0, init);
      LookingTick(c, s, last.messages, last.at);
      LastSentBefore(c, s0, ticks, s.lastRequest);
      LastSentOn(c, s0, ticks, s.lastRequest);
    }
  }

  lemma LookingTick(c: Config, s: State, messages: seq<Incoming>, now: real)
    requires Looking(c, s) && forall m | m in messages :: !NamesMaster(m)
    ensures var (t, sent) := Ticked(c, s, messages, now);
            && Looking(c, t) && sent == (if now - s.lastRequest >= c.minInterval then [WhoIsMaster] else [])
            && t.lastRequest == if sent != [] then now else s.lastRequest
  {
    assert Handshaken(c, s, now) == (s, []);
    LookingGoesOn(c, Driven(c, s, now).0, messages, now);
  }

  /**
   * A recorder that only captures now and then looks for a master, from its start and as long as nobody names one, at
   * exactly those ticks that come an interval or more after every earlier question.
   */
  lemma {:induction false} LooksEveryInterval(c: Config, t0: real, ticks: seq<TickInput>, j: nat)
    requires !c.captureInitial && c.capturePeriodic && InTime(0.0, ticks) && j < |ticks|
    requires forall i, m | 0 <= i < |ticks| && m in ticks[i].messages :: !NamesMaster(m)
    ensures SentAt(c, Begun(c, t0), ticks, j)
         == if DueEvery(c, Begun(c, t0), ticks, j, c.minInterval) then [WhoIsMaster] else []
  {
    LookingMarks(c, Begun(c, t0), ticks[..j + 1]);
    SameBefore(c, Begun(c, t0), ticks, j + 1, j, 0.0);
    forall i | 0 <= i < j ensures SentAt(c, Begun(c, t0), ticks[..j + 1], i) == SentAt(c, Begun(c, t0), ticks, i) {
      SameBefore(c, Begun(c, t0), ticks, j + 1, i, 0.0);
    }
  }
}
