// A session of peers exchanging visibility claims, one step at a time.
module VisibilitySession {
  import opened Basics
  import opened Authority
  import opened Leases

  /** A peer's visibility lease, the stamps it has claimed with, and how many of each sender's claims it has applied. */
  datatype PeerState = PeerState(lease: Lease, sent: seq<real>, applied: map<Guid, nat>)

  type Session = map<Guid, PeerState>

  function Applied(s: Session, q: Guid, p: Guid): nat
    requires q in s
  {
    if p in s[q].applied then s[q].applied[p] else 0
  }

  datatype Step =
    | LocalClaim(peer: Guid, role: Role, wall: real, at: Instant)
    | Deliver(to: Guid, from: Guid, at: Instant)

  ghost predicate Initial(s: Session) {
    forall q | q in s :: s[q] == PeerState(FREE, [], map[])
  }

  // ------------------------------------------------------------------ a local claim

  /**
   * With a stamp present, a permitted claim is withheld exactly while another peer's claim is younger than
   * the hold-off, and every claim that is made takes the lease.
   */
  lemma WithheldOrTaken(l: Lease, self: Guid, role: Role, wall: real, now: Instant)
    requires WellFormed(Visibility, l) && !Expired(l, now)
    requires l.owner.Some? ==> l.claimTs.Some?
    requires role == Driver
    ensures var LocalClaimOutcome(after, wire, raised) := LocallyClaimed(Visibility, l, self, role, wall, now);
            && !raised
            && (wire.None? <==> l.owner.Some? && l.owner != Some(self) && wall < l.claimTs.value + 1.5)
            && (wire.None? ==> after == l)
            && (wire.Some? ==> wire.value == Claim(wall, self) && Holds(after, wire.value) && !Expired(after, now))
  {
  }

  datatype Attempt = Attempt(role: Role, wall: real, at: Instant)

  function AfterAttempts(l: Lease, self: Guid, attempts: seq<Attempt>): (Lease, seq<Claim>) {
    if attempts == [] then (l, [])
    else
      var a := attempts[|attempts| - 1];
      var (before, wires) := AfterAttempts(l, self, attempts[..|attempts| - 1]);
      var outcome := LocallyClaimed(Visibility, before, self, a.role, a.wall, a.at);
      (outcome.lease, if outcome.wire.Some? then wires + [outcome.wire.value] else wires)
  }

  /** No run of local claims inside the hold-off, however long, takes the lease or reaches the wire. */
  lemma {:induction false} HoldoffResistsAnyRun(l: Lease, self: Guid, attempts: seq<Attempt>)
    requires WellFormed(Visibility, l) && l.owner.Some? && l.owner != Some(self) && l.claimTs.Some?
    requires forall a | a in attempts :: a.wall < l.claimTs.value + 1.5 && !Expired(l, a.at)
    ensures AfterAttempts(l, self, attempts) == (l, [])
  {
    var n := |attempts| - 1;
    if n >= 0 {
      HoldoffResistsAnyRun(l, self, attempts[..n]);
      assert attempts[n] in attempts;
    }
  }

  // ------------------------------------------------------------------ the step relation

  /** A step that stays inside the window: the lease it touches is live and wall stamps do not run backwards. */
  predicate Enabled(s: Session, step: Step) {
    match step
    case LocalClaim(p, _, wall, at) =>
      && p in s && !Expired(s[p].lease, at)
      && (s[p].sent != [] ==> s[p].sent[|s[p].sent| - 1] <= wall)
    case Deliver(q, p, at) =>
      p in s && q in s && !Expired(s[q].lease, at) && Applied(s, q, p) < |s[p].sent|
  }

  /** A peer applies its own claim before it sends it; deliveries from one sender keep the order sent. */
  function Next(s: Session, step: Step): Session
    requires Enabled(s, step)
  {
    match step
    case LocalClaim(p, role, wall, at) =>
      var outcome := LocallyClaimed(Visibility, s[p].lease, p, role, wall, at);
      if outcome.wire.None? then s[p := s[p].(lease := outcome.lease)]
      else s[p := PeerState(outcome.lease, s[p].sent + [wall], s[p].applied[p := Applied(s, p, p) + 1])]
    case Deliver(q, p, at) =>
      var k := Applied(s, q, p);
      var outcome := Claimed(Visibility, s[q].lease, Claim(s[p].sent[k], p), at);
      s[q := s[q].(lease := outcome.lease, applied := s[q].applied[p := k + 1])]
  }

  ghost predicate Follows(run: seq<Session>, steps: seq<Step>) {
    && |run| == |steps| + 1
    && Initial(run[0])
    && (forall i | 0 <= i < |steps| :: Enabled(run[i], steps[i]) && run[i + 1] == Next(run[i], steps[i]))
  }

  // ------------------------------------------------------------------ what every peer believes

  /** Peer q has applied no more than was sent, and all of its own. */
  ghost predicate Counted(s: Session, q: Guid)
    requires q in s
  {
    && Applied(s, q, q) == |s[q].sent|
    && forall p | p in s :: Applied(s, q, p) <= |s[p].sent|
  }

  ghost predicate StampsInOrder(stamps: seq<real>) {
    forall i, j | 0 <= i <= j < |stamps| :: stamps[i] <= stamps[j]
  }

  /** Peer q names the best claim, latest stamp and then lowest GUID, among those it has applied. */
  ghost predicate NamesBestApplied(s: Session, q: Guid)
    requires q in s && Counted(s, q)
  {
    var l := s[q].lease;
    && WellFormed(Visibility, l)
    && (l.owner.None? ==> forall p | p in s :: Applied(s, q, p) == 0)
    && (l.owner.Some? ==>
          var o := l.owner.value;
          && o in s && Applied(s, q, o) > 0
          && l.claimTs == Some(s[o].sent[Applied(s, q, o) - 1])
          && forall p, j | p in s && 0 <= j < Applied(s, q, p) ::
            !Beats(Visibility, Claim(s[p].sent[j], p), Claim(l.claimTs.value, o)))
  }

  ghost predicate PeerInvariant(s: Session, q: Guid)
    requires q in s
  {
    StampsInOrder(s[q].sent) && Counted(s, q) && NamesBestApplied(s, q)
  }

  ghost predicate Invariant(s: Session) {
    forall q | q in s :: PeerInvariant(s, q)
  }

  /** From s to s' stamps are only appended. */
  ghost predicate SentGrows(s: Session, s': Session) {
    && s'.Keys == s.Keys
    && forall o | o in s :: |s[o].sent| <= |s'[o].sent| && s'[o].sent[..|s[o].sent|] == s[o].sent
  }

  lemma BystanderStillNamesBest(s: Session, s': Session, r: Guid)
    requires SentGrows(s, s') && r in s && s'[r] == s[r]
    requires Counted(s, r) && NamesBestApplied(s, r)
    ensures Counted(s', r) && NamesBestApplied(s', r)
  {
  }

  /** Applying one more claim of p, the next in order, leaves q naming the best it has applied. */
  lemma OneMoreClaimNamesBest(s: Session, s': Session, q: Guid, p: Guid, at: Instant)
    requires SentGrows(s, s') && q in s && p in s && Counted(s, q) && NamesBestApplied(s, q) && Counted(s', q)
    requires forall o | o in s :: Applied(s', q, o) == Applied(s, q, o) + if o == p then 1 else 0
    requires StampsInOrder(s'[p].sent) && !Expired(s[q].lease, at)
    requires var c := Claim(s'[p].sent[Applied(s, q, p)], p);
             s'[q].lease == Claimed(Visibility, s[q].lease, c, at).lease
    ensures NamesBestApplied(s', q)
  {
  }

  lemma {:induction false} DeliveryKeepsPeer(s: Session, q: Guid, p: Guid, at: Instant, r: Guid)
    requires Enabled(s, Deliver(q, p, at)) && r in s
    requires PeerInvariant(s, r) && PeerInvariant(s, p) && PeerInvariant(s, q)
    ensures PeerInvariant(Next(s, Deliver(q, p, at)), r)
  {
    var s' := Next(s, Deliver(q, p, at));
    assert SentGrows(s, s');
    if r == q {
      assert forall o | o in s :: Applied(s', q, o) == Applied(s, q, o) + if o == p then 1 else 0;
      assert Counted(s', q);
      OneMoreClaimNamesBest(s, s', q, p, at);
    } else {
      BystanderStillNamesBest(s, s', r);
    }
  }

  lemma {:induction false} LocalClaimKeepsPeer(s: Session, p: Guid, role: Role, wall: real, at: Instant, r: Guid)
    requires Enabled(s, LocalClaim(p, role, wall, at)) && r in s
    requires PeerInvariant(s, r) && PeerInvariant(s, p)
    ensures PeerInvariant(Next(s, LocalClaim(p, role, wall, at)), r)
  {
    var s' := Next(s, LocalClaim(p, role, wall, at));
    var outcome := LocallyClaimed(Visibility, s[p].lease, p, role, wall, at);
    if outcome.wire.None? {
      if RolePermits(role, VisibilityGroup) {
        WithheldOrTaken(s[p].lease, p, role, wall, at);
      }
      assert s'[p] == s[p] && s'[r] == s[r];
      BystanderStillNamesBest(s, s', r);
    } else {
      SentClaimKeepsPeer(s, s', p, wall, at, r);
    }
  }

  lemma {:induction false} SentClaimKeepsPeer(s: Session, s': Session, p: Guid, wall: real, at: Instant, r: Guid)
    requires p in s && r in s && !Expired(s[p].lease, at)
    requires s[p].sent != [] ==> s[p].sent[|s[p].sent| - 1] <= wall
    requires PeerInvariant(s, r) && PeerInvariant(s, p)
    requires s' == s[p := PeerState(Claimed(Visibility, s[p].lease, Claim(wall, p), at).lease, s[p].sent + [wall],
                                    s[p].applied[p := Applied(s, p, p) + 1])]
    ensures PeerInvariant(s', r)
  {
    assert s'[p].sent[..|s[p].sent|] == s[p].sent;
    if r != p {
      BystanderStillNamesBest(s, s', r);
    } else {
      assert forall o | o in s :: Applied(s', p, o) == Applied(s, p, o) + if o == p then 1 else 0;
      assert Counted(s', p);
      OneMoreClaimNamesBest(s, s', p, p, at);
    }
  }

  lemma {:induction false} InvariantHolds(run: seq<Session>, steps: seq<Step>, i: nat)
    requires Follows(run, steps) && i < |run|
    ensures Invariant(run[i])
  {
    if i > 0 {
      InvariantHolds(run, steps, i - 1);
      var s := run[i - 1];
      forall r | r in run[i] ensures PeerInvariant(run[i], r) {
        match steps[i - 1]
        case LocalClaim(p, role, wall, at) =>
          assert PeerInvariant(s, p) && PeerInvariant(s, r);
          LocalClaimKeepsPeer(s, p, role, wall, at, r);
        case Deliver(q, p, at) =>
          assert PeerInvariant(s, p) && PeerInvariant(s, q) && PeerInvariant(s, r);
          DeliveryKeepsPeer(s, q, p, at, r);
      }
    }
  }

  /** At every moment of every run, each peer's lease is the best claim among those it has applied. */
  lemma EveryPeerNamesBestApplied(run: seq<Session>, steps: seq<Step>, i: nat, q: Guid)
    requires Follows(run, steps) && i < |run| && q in run[i]
    ensures Counted(run[i], q) && NamesBestApplied(run[i], q)
  {
    InvariantHolds(run, steps, i);
    assert PeerInvariant(run[i], q);
  }

  ghost predicate AllDelivered(s: Session) {
    forall q, p | q in s && p in s :: Applied(s, q, p) == |s[p].sent|
  }

  /** _owns_channel on the visibility channel at peer p. */
  predicate OwnsVisibilityChannel(s: Session, p: Guid, now: Instant)
    requires p in s
  {
    Settled(Visibility, s[p].lease, now).owner == Some(p)
  }

  /**
   * Convergence: once everything sent has been delivered, any two peers hold one owner and one stamp, and
   * while the leases last exactly that owner passes the broadcast gate.
   */
  lemma VisibilityConverges(run: seq<Session>, steps: seq<Step>, i: nat, q: Guid, r: Guid)
    requires Follows(run, steps) && i < |run| && AllDelivered(run[i])
    requires q in run[i] && r in run[i]
    ensures run[i][q].lease.owner == run[i][r].lease.owner
    ensures run[i][q].lease.claimTs == run[i][r].lease.claimTs
    ensures run[i][q].lease.owner.None? <==> forall p | p in run[i] :: run[i][p].sent == []
    ensures run[i][q].lease.owner.Some? ==> run[i][q].lease.owner.value in run[i]
    ensures forall now: Instant | !Expired(run[i][r].lease, now) ::
              OwnsVisibilityChannel(run[i], r, now) <==> run[i][q].lease.owner == Some(r)
  {
    InvariantHolds(run, steps, i);
    var s := run[i];
    assert PeerInvariant(s, q) && PeerInvariant(s, r);
    var l, m := s[q].lease, s[r].lease;
    if l.owner.Some? && m.owner.Some? {
      assert !Beats(Visibility, Claim(m.claimTs.value, m.owner.value), Claim(l.claimTs.value, l.owner.value));
      assert !Beats(Visibility, Claim(l.claimTs.value, l.owner.value), Claim(m.claimTs.value, m.owner.value));
    }
  }

  /** The stamps must not run backwards: a clock stepping back on the holder alone splits two peers. */
  lemma BackwardClockDiverges()
    ensures var mine, theirs := Arrival(Claim(5.0, 1), 0.0), Arrival(Claim(4.0, 2), 0.0);
            var back := Arrival(Claim(3.0, 1), 0.0);
            && Fold(Visibility, FREE, [mine, back, theirs]).owner == Some(2)
            && Fold(Visibility, FREE, [mine, theirs, back]).owner == Some(1)
  {
    var mine, theirs := Arrival(Claim(5.0, 1), 0.0), Arrival(Claim(4.0, 2), 0.0);
    var back := Arrival(Claim(3.0, 1), 0.0);
    FoldThree(Visibility, mine, back, theirs);
    FoldThree(Visibility, mine, theirs, back);
  }
}
