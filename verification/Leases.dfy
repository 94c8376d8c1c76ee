// Write leases: python/otio_sync_core/manager.py, OwnershipLease and the methods that rewrite one.
module Leases {
  import opened Basics
  import opened Authority

  /** The value of one lease record. */
  datatype Lease = Lease(
    owner: Option<Guid>, claimTs: Option<real>, deadline: Option<real>, confirmed: bool, pending: Option<Claim>)

  const FREE: Lease := Lease(None, None, None, false, None)

  /** The record invariant: what every reachable lease satisfies. */
  predicate WellFormed(channel: Channel, l: Lease) {
    && (l.owner.None? <==> l.deadline.None?)
    && (l.owner.None? ==> l.claimTs.None? && !l.confirmed && l.pending.None?)
    && (l.pending.Some? ==> l.owner.Some? && l.confirmed && l.pending.value.guid != l.owner.value)
    && (channel == Visibility ==> l.pending.None?)
    && (l.owner.Some? && l.claimTs.None? ==> l.confirmed)
  }

  // ------------------------------------------------------------------ one lease operation each

  predicate Expired(l: Lease, now: Instant) {
    l.deadline.Some? && l.deadline.value <= now
  }

  /** Hand the lease to its queued claimant, or free it. */
  function Vacated(channel: Channel, l: Lease, now: Instant): Lease {
    if l.pending.Some?
    then Lease(Some(l.pending.value.guid), Some(l.pending.value.ts), Some(now + LeaseDuration(channel)), false, None)
    else FREE
  }

  function Settled(channel: Channel, l: Lease, now: Instant): Lease {
    if Expired(l, now) then Vacated(channel, l, now) else l
  }

  /** The lease's own claim, when it has both an owner and a stamp. */
  function HeldClaim(l: Lease): Option<Claim> {
    if l.owner.Some? && l.claimTs.Some? then Some(Claim(l.claimTs.value, l.owner.value)) else None
  }

  /** `raised` marks the comparison of a missing stamp, which the program answers with a TypeError. */
  datatype ClaimOutcome = ClaimOutcome(lease: Lease, raised: bool)

  function Claimed(channel: Channel, before: Lease, c: Claim, now: Instant): ClaimOutcome {
    var l := Settled(channel, before, now);
    if l.owner == Some(c.guid) then
      ClaimOutcome(l.(claimTs := Some(c.ts), deadline := Some(now + LeaseDuration(channel))), false)
    else if !ResolvesOnTimestampsAlone(channel) && l.owner.Some? && l.confirmed then
      ClaimOutcome(l.(pending := Some(ResolveClaim(channel, l.pending, c))), false)
    else if l.owner.Some? && l.claimTs.None? then
      ClaimOutcome(l, true)
    else
      var first := ResolveClaim(channel, HeldClaim(l), c);
      var best := if l.pending.Some? then ResolveClaim(channel, Some(first), l.pending.value) else first;
      if HeldClaim(l) == Some(best) then ClaimOutcome(l.(pending := None), false)
      else ClaimOutcome(
             l.(owner := Some(best.guid), claimTs := Some(best.ts),
                deadline := Some(now + LeaseDuration(channel)), pending := None), false)
  }

  datatype LocalClaimOutcome = LocalClaimOutcome(lease: Lease, wire: Option<Claim>, raised: bool)

  /** claim_category: the role gate, the hold-off, then the same resolution every received claim goes through. */
  function LocallyClaimed(
    channel: Channel, l: Lease, self: Guid, role: Role, wall: real, now: Instant): LocalClaimOutcome
  {
    var settled := Settled(channel, l, now);
    if !RolePermits(role, ChannelGroup(channel)) then LocalClaimOutcome(l, None, false)
    else if ClaimWithheldByHoldoff(channel, settled.owner, settled.claimTs, self, wall) then
      LocalClaimOutcome(settled, None, false)
    else
      var outcome := Claimed(channel, settled, Claim(wall, self), now);
      LocalClaimOutcome(outcome.lease, if outcome.raised then None else Some(Claim(wall, self)), outcome.raised)
  }

  /** A local claim never confirms a lease, and a well-formed record stays one. */
  lemma LocalClaimKeeps(channel: Channel, l: Lease, self: Guid, role: Role, wall: real, now: Instant)
    requires WellFormed(channel, l)
    ensures var after := LocallyClaimed(channel, l, self, role, wall, now).lease;
            WellFormed(channel, after) && (after.confirmed ==> l.confirmed)
  {
  }

  /** Real traffic of the owner confirms the lease. */
  function Confirmed(channel: Channel, l: Lease, now: Instant): Lease {
    l.(deadline := Some(now + LeaseDuration(channel)), confirmed := true)
  }

  function Adopted(l: Lease, self: Guid, owner: Option<Guid>, remainingMs: Option<real>, now: Instant): Lease {
    if owner.None? || remainingMs.None? then l
    else if l.owner == Some(self) && l.deadline.Some? && l.deadline.value > now then l
    else
      var left := remainingMs.value / 1000.0;
      Lease(owner, None, Some(now + if left > 0.0 then left else 0.0), true, None)
  }

  function Departed(channel: Channel, l: Lease, peer: Guid, now: Instant): Lease {
    var l := if l.pending.Some? && l.pending.value.guid == peer then l.(pending := None) else l;
    if l.owner == Some(peer) then Settled(channel, l.(deadline := Some(0.0)), now) else l
  }

  // ------------------------------------------------------------------ the record in place

  class OwnershipLease {
    const channel: Channel
    var ownerGuid: Option<Guid>
    var claimTs: Option<real>
    var deadline: Option<real>
    var confirmed: bool
    var pendingClaimant: Option<Claim>

    function View(): Lease
      reads this
    {
      Lease(ownerGuid, claimTs, deadline, confirmed, pendingClaimant)
    }

    constructor (channel: Channel)
      ensures this.channel == channel && View() == FREE
    {
      this.channel := channel;
      ownerGuid, claimTs, deadline, confirmed, pendingClaimant := None, None, None, false, None;
    }

    /** _release_local, and the second half of _settle_lease_expiry. */
    method Vacate(now: Instant)
      modifies this
      ensures View() == Vacated(channel, old(View()), now)
    {
      if pendingClaimant.Some? {
        ownerGuid := Some(pendingClaimant.value.guid);
        claimTs := Some(pendingClaimant.value.ts);
        deadline := Some(now + LeaseDuration(channel));
        confirmed := false;
        pendingClaimant := None;
      } else {
        ownerGuid, claimTs, deadline, confirmed := None, None, None, false;
      }
    }

    method SettleExpiry(now: Instant)
      modifies this
      ensures View() == Settled(channel, old(View()), now)
    {
      if deadline.None? || now < deadline.value {
        return;
      }
      Vacate(now);
    }

    method ApplyClaim(ts: real, peer: Guid, now: Instant) returns (raised: bool)
      modifies this
      ensures ClaimOutcome(View(), raised) == Claimed(channel, old(View()), Claim(ts, peer), now)
    {
      SettleExpiry(now);
      var candidate := Claim(ts, peer);
      if ownerGuid == Some(peer) {
        claimTs := Some(ts);
        deadline := Some(now + LeaseDuration(channel));
        return false;
      }
      if !ResolvesOnTimestampsAlone(channel) && ownerGuid.Some? && confirmed {
        pendingClaimant := Some(ResolveClaim(channel, pendingClaimant, candidate));
        return false;
      }
      if ownerGuid.Some? && claimTs.None? {
        return true;
      }
      var current := if ownerGuid.Some? then Some(Claim(claimTs.value, ownerGuid.value)) else None;
      var best := ResolveClaim(channel, current, candidate);
      if pendingClaimant.Some? {
        best := ResolveClaim(channel, Some(best), pendingClaimant.value);
      }
      pendingClaimant := None;
      if current == Some(best) {
        return false;
      }
      ownerGuid, claimTs := Some(best.guid), Some(best.ts);
      deadline := Some(now + LeaseDuration(channel));
      return false;
    }

    method RefreshConfirmed(now: Instant)
      modifies this
      ensures View() == Confirmed(channel, old(View()), now)
    {
      deadline := Some(now + LeaseDuration(channel));
      confirmed := true;
    }

    method Adopt(self: Guid, owner: Option<Guid>, remainingMs: Option<real>, now: Instant)
      modifies this
      ensures View() == Adopted(old(View()), self, owner, remainingMs, now)
    {
      if owner.None? || remainingMs.None? {
        return;
      }
      if ownerGuid == Some(self) && deadline.Some? && deadline.value > now {
        return;
      }
      ownerGuid, claimTs := owner, None;
      var left := remainingMs.value / 1000.0;
      deadline := Some(now + if left > 0.0 then left else 0.0);
      confirmed, pendingClaimant := true, None;
    }

    method ReleasePeer(peer: Guid, now: Instant)
      modifies this
      ensures View() == Departed(channel, old(View()), peer, now)
    {
      if pendingClaimant.Some? && pendingClaimant.value.guid == peer {
        pendingClaimant := None;
      }
      if ownerGuid != Some(peer) {
        return;
      }
      deadline := Some(0.0);
      SettleExpiry(now);
    }
  }

  // ------------------------------------------------------------------ every run of one lease

  /** Everything that rewrites a lease on the peer `self`, with the clock reading it happens at. */
  datatype Event =
    | ClaimArrives(claim: Claim, at: Instant)
    | OwnBroadcast(at: Instant)
    | OwnRelease(at: Instant)
    | ReleaseArrives(peer: Guid, at: Instant)
    | Consulted(at: Instant)
    | SnapshotAdopted(owner: Option<Guid>, remainingMs: Option<real>, at: Instant)
    | PeerDropped(peer: Guid, at: Instant)

  function After(channel: Channel, self: Guid, l: Lease, e: Event): Lease {
    match e
    case ClaimArrives(c, now) => Claimed(channel, l, c, now).lease
    case OwnBroadcast(now) =>
      var s := Settled(channel, l, now);
      if s.owner == Some(self) then Confirmed(channel, s, now) else s
    case OwnRelease(now) => if l.owner == Some(self) then Vacated(channel, l, now) else l
    case ReleaseArrives(peer, now) => if l.owner == Some(peer) then Vacated(channel, l, now) else l
    case Consulted(now) => Settled(channel, l, now)
    case SnapshotAdopted(owner, ms, now) => Adopted(l, self, owner, ms, now)
    case PeerDropped(peer, now) => Departed(channel, l, peer, now)
  }

  function AfterAll(channel: Channel, self: Guid, l: Lease, events: seq<Event>): Lease {
    if events == [] then l
    else After(channel, self, AfterAll(channel, self, l, events[..|events| - 1]), events[|events| - 1])
  }

  lemma {:induction false} RecordInvariant(channel: Channel, self: Guid, events: seq<Event>)
    ensures WellFormed(channel, AfterAll(channel, self, FREE, events))
  {
    if events != [] {
      RecordInvariant(channel, self, events[..|events| - 1]);
    }
  }

  /** A dropped peer is named by no reachable lease, neither as holder nor as claimant. */
  lemma DroppedPeerIsGone(channel: Channel, self: Guid, events: seq<Event>, peer: Guid, now: Instant)
    ensures var l := After(channel, self, AfterAll(channel, self, FREE, events), PeerDropped(peer, now));
            l.owner != Some(peer) && (l.pending.Some? ==> l.pending.value.guid != peer)
  {
  }

  /**
   * The comparison fails in exactly one reachable situation: a visibility claim meets another peer's
   * live lease that was adopted from a snapshot and so carries no stamp.
   */
  lemma ClaimUndefinedIff(channel: Channel, self: Guid, events: seq<Event>, c: Claim, now: Instant)
    ensures var l := AfterAll(channel, self, FREE, events);
            Claimed(channel, l, c, now).raised <==>
            channel == Visibility && !Expired(l, now) && l.owner.Some? && l.owner != Some(c.guid) && l.claimTs.None?
  {
    RecordInvariant(channel, self, events);
  }

  /** That situation does occur: a joiner adopts the host's visibility lease and a third peer claims it. */
  lemma ClaimUndefinedExample()
    ensures var events := [SnapshotAdopted(Some(1), Some(2000.0), 10.0)];
            Claimed(Visibility, AfterAll(Visibility, 9, FREE, events), Claim(50.0, 2), 10.5).raised
  {
  }

  // ------------------------------------------------------------------ folding claims in arrival order

  datatype Arrival = Arrival(claim: Claim, at: Instant)

  function Fold(channel: Channel, l: Lease, arrivals: seq<Arrival>): Lease {
    if arrivals == [] then l
    else
      var last := arrivals[|arrivals| - 1];
      Claimed(channel, Fold(channel, l, arrivals[..|arrivals| - 1]), last.claim, last.at).lease
  }

  /** No arrival finds the lease expired. */
  ghost predicate StaysLive(channel: Channel, l: Lease, arrivals: seq<Arrival>) {
    forall k | 0 <= k < |arrivals| :: !Expired(Fold(channel, l, arrivals[..k]), arrivals[k].at)
  }

  lemma StaysLivePrefix(channel: Channel, l: Lease, arrivals: seq<Arrival>, n: nat)
    requires StaysLive(channel, l, arrivals) && n <= |arrivals|
    ensures StaysLive(channel, l, arrivals[..n])
  {
    forall k | 0 <= k < n ensures !Expired(Fold(channel, l, arrivals[..n][..k]), arrivals[..n][k].at) {
      assert arrivals[..n][..k] == arrivals[..k];
    }
  }

  /** The first claim of a nonempty sequence in the channel's order. */
  function Best(channel: Channel, arrivals: seq<Arrival>): Claim
    requires arrivals != []
  {
    var last := arrivals[|arrivals| - 1].claim;
    if |arrivals| == 1 then last
    else ResolveClaim(channel, Some(Best(channel, arrivals[..|arrivals| - 1])), last)
  }

  ghost predicate IsBest(channel: Channel, b: Claim, arrivals: seq<Arrival>) {
    && (exists k :: 0 <= k < |arrivals| && arrivals[k].claim == b)
    && (forall k :: 0 <= k < |arrivals| ==> !Beats(channel, arrivals[k].claim, b))
  }

  lemma {:induction false} BestIsBest(channel: Channel, arrivals: seq<Arrival>)
    requires arrivals != []
    ensures IsBest(channel, Best(channel, arrivals), arrivals)
  {
    var n := |arrivals| - 1;
    if n > 0 {
      BestIsBest(channel, arrivals[..n]);
      var j :| 0 <= j < n && arrivals[..n][j].claim == Best(channel, arrivals[..n]);
      assert arrivals[j].claim == Best(channel, arrivals[..n]);
      assert arrivals[n].claim == arrivals[n].claim;
      forall k | 0 <= k < |arrivals| ensures !Beats(channel, arrivals[k].claim, Best(channel, arrivals)) {
        if k < n {
          assert arrivals[..n][k].claim == arrivals[k].claim;
        }
      }
    } else {
      assert arrivals[0].claim == Best(channel, arrivals);
    }
  }

  ghost predicate Holds(l: Lease, c: Claim) {
    l.owner == Some(c.guid) && l.claimTs == Some(c.ts)
  }

  /** The lease names the best claim after every arrival. */
  ghost predicate TracksBest(channel: Channel, arrivals: seq<Arrival>) {
    forall k | 1 <= k <= |arrivals| :: Holds(Fold(channel, FREE, arrivals[..k]), Best(channel, arrivals[..k]))
  }

  /** The author of the best claim so far claims again with one that ranks behind it. */
  ghost predicate LeaderFallsBack(channel: Channel, arrivals: seq<Arrival>, k: nat)
    requires 1 <= k < |arrivals|
  {
    var leading := Best(channel, arrivals[..k]);
    arrivals[k].claim.guid == leading.guid && Beats(channel, leading, arrivals[k].claim)
  }

  lemma {:induction false} FoldStaysUnconfirmed(channel: Channel, arrivals: seq<Arrival>)
    requires StaysLive(channel, FREE, arrivals)
    ensures var l := Fold(channel, FREE, arrivals);
            WellFormed(channel, l) && !l.confirmed && l.pending.None? && (arrivals != [] ==> l.owner.Some?)
  {
    var n := |arrivals| - 1;
    if n >= 0 {
      StaysLivePrefix(channel, FREE, arrivals, n);
      FoldStaysUnconfirmed(channel, arrivals[..n]);
    }
  }

  lemma FoldOneMore(channel: Channel, arrivals: seq<Arrival>, k: nat)
    requires StaysLive(channel, FREE, arrivals) && 1 <= k < |arrivals|
    requires Holds(Fold(channel, FREE, arrivals[..k]), Best(channel, arrivals[..k]))
    ensures Holds(Fold(channel, FREE, arrivals[..k + 1]), Best(channel, arrivals[..k + 1]))
            <==> !LeaderFallsBack(channel, arrivals, k)
  {
    StaysLivePrefix(channel, FREE, arrivals, k);
    FoldStaysUnconfirmed(channel, arrivals[..k]);
    assert arrivals[..k + 1][..k] == arrivals[..k];
  }

  /**
   * After every arrival the lease names the best claim so far exactly when the leading claimant never re-claims
   * with a worse claim: a re-claim by the holder is stored unconditionally. Holds for every channel.
   */
  lemma FoldTracksBestIff(channel: Channel, arrivals: seq<Arrival>)
    requires StaysLive(channel, FREE, arrivals)
    ensures TracksBest(channel, arrivals) <==>
            forall k | 1 <= k < |arrivals| :: !LeaderFallsBack(channel, arrivals, k)
  {
    if TracksBest(channel, arrivals) {
      forall k | 1 <= k < |arrivals| ensures !LeaderFallsBack(channel, arrivals, k) {
        assert Holds(Fold(channel, FREE, arrivals[..k]), Best(channel, arrivals[..k]));
        assert Holds(Fold(channel, FREE, arrivals[..k + 1]), Best(channel, arrivals[..k + 1]));
        FoldOneMore(channel, arrivals, k);
      }
    }
    if forall k | 1 <= k < |arrivals| :: !LeaderFallsBack(channel, arrivals, k) {
      forall k | 1 <= k <= |arrivals|
        ensures Holds(Fold(channel, FREE, arrivals[..k]), Best(channel, arrivals[..k]))
      {
        FoldTracksBestUpTo(channel, arrivals, k);
      }
    }
  }

  lemma {:induction false} FoldTracksBestUpTo(channel: Channel, arrivals: seq<Arrival>, k: nat)
    requires StaysLive(channel, FREE, arrivals) && 1 <= k <= |arrivals|
    requires forall j | 1 <= j < |arrivals| :: !LeaderFallsBack(channel, arrivals, j)
    ensures Holds(Fold(channel, FREE, arrivals[..k]), Best(channel, arrivals[..k]))
  {
    if k == 1 {
      assert arrivals[..1][..0] == [];
      assert !Expired(Fold(channel, FREE, arrivals[..0]), arrivals[0].at);
    } else {
      FoldTracksBestUpTo(channel, arrivals, k - 1);
      FoldOneMore(channel, arrivals, k - 1);
    }
  }

  /** Two orders of one claim per peer settle on one holder, with the same stamp, on every channel. */
  lemma {:induction false} ArrivalOrderIrrelevant(channel: Channel, one: seq<Arrival>, other: seq<Arrival>)
    requires one != [] && other != []
    requires StaysLive(channel, FREE, one) && StaysLive(channel, FREE, other)
    requires OneClaimPerPeer(one) && OneClaimPerPeer(other)
    requires forall c :: IsClaimOf(c, one) <==> IsClaimOf(c, other)
    ensures Fold(channel, FREE, one).owner == Fold(channel, FREE, other).owner == Some(Best(channel, one).guid)
    ensures Fold(channel, FREE, one).claimTs == Fold(channel, FREE, other).claimTs == Some(Best(channel, one).ts)
    ensures IsBest(channel, Best(channel, one), one)
  {
    OneClaimPerPeerTracks(channel, one);
    OneClaimPerPeerTracks(channel, other);
    BestIsBest(channel, one);
    BestIsBest(channel, other);
    assert IsClaimOf(Best(channel, one), one) && IsClaimOf(Best(channel, other), other);
    assert Best(channel, one) == Best(channel, other);
  }

  ghost predicate IsClaimOf(c: Claim, arrivals: seq<Arrival>) {
    exists k :: 0 <= k < |arrivals| && arrivals[k].claim == c
  }

  ghost predicate OneClaimPerPeer(arrivals: seq<Arrival>) {
    forall i, j :: 0 <= i < j < |arrivals| ==> arrivals[i].claim.guid != arrivals[j].claim.guid
  }

  lemma {:induction false} OneClaimPerPeerTracks(channel: Channel, arrivals: seq<Arrival>)
    requires arrivals != [] && StaysLive(channel, FREE, arrivals) && OneClaimPerPeer(arrivals)
    ensures Holds(Fold(channel, FREE, arrivals), Best(channel, arrivals))
  {
    forall k | 1 <= k < |arrivals| ensures !LeaderFallsBack(channel, arrivals, k) {
      BestIsBest(channel, arrivals[..k]);
      var j :| 0 <= j < k && arrivals[..k][j].claim == Best(channel, arrivals[..k]);
      assert arrivals[j].claim.guid != arrivals[k].claim.guid;
    }
    FoldTracksBestUpTo(channel, arrivals, |arrivals|);
    assert arrivals[..|arrivals|] == arrivals;
  }

  // ------------------------------------------------------------------ every order of given claims

  function ClaimsOf(arrivals: seq<Arrival>): seq<Claim> {
    seq(|arrivals|, i requires 0 <= i < |arrivals| => arrivals[i].claim)
  }

  function AtOnce(claims: seq<Claim>): seq<Arrival> {
    seq(|claims|, i requires 0 <= i < |claims| => Arrival(claims[i], 0.0))
  }

  /** The arrivals bring exactly the given claims, each as often, in some order and while the lease lasts. */
  ghost predicate IsOrderOf(channel: Channel, arrivals: seq<Arrival>, claims: seq<Claim>) {
    StaysLive(channel, FREE, arrivals) && multiset(ClaimsOf(arrivals)) == multiset(claims)
  }

  ghost predicate EveryOrderSettlesAlike(channel: Channel, claims: seq<Claim>) {
    forall one, other | IsOrderOf(channel, one, claims) && IsOrderOf(channel, other, claims) ::
      HeldClaim(Fold(channel, FREE, one)) == HeldClaim(Fold(channel, FREE, other))
  }

  /** The claim of a nonempty list that no other claim of it beats. */
  function BestClaim(channel: Channel, claims: seq<Claim>): Claim
    requires claims != []
  {
    Best(channel, AtOnce(claims))
  }

  /**
   * All orders of given claims end with one owner and one stamp exactly when the author of the best claim makes no
   * claim with another stamp. What any other peer claims, and how often, does not matter.
   */
  lemma {:induction false} OrderIrrelevantIff(channel: Channel, claims: seq<Claim>)
    requires claims != []
    ensures EveryOrderSettlesAlike(channel, claims) <==>
              forall c | c in claims && c.guid == BestClaim(channel, claims).guid :: c.ts == BestClaim(channel, claims).ts
    ensures EveryOrderSettlesAlike(channel, claims) ==>
              forall arrivals | IsOrderOf(channel, arrivals, claims) ::
                HeldClaim(Fold(channel, FREE, arrivals)) == Some(BestClaim(channel, claims))
  {
    var best := BestClaim(channel, claims);
    BestClaimIsBest(channel, claims);
    if a :| a in claims && a.guid == best.guid && a.ts != best.ts {
      LateReclaimSplitsOrders(channel, claims, best, a);
    } else {
      forall arrivals | IsOrderOf(channel, arrivals, claims)
        ensures HeldClaim(Fold(channel, FREE, arrivals)) == Some(best)
      {
        SameClaims(arrivals, claims);
        EndsOnBest(channel, arrivals, best);
      }
    }
  }

  lemma {:induction false} BestClaimIsBest(channel: Channel, claims: seq<Claim>)
    requires claims != []
    ensures BestClaim(channel, claims) in claims
    ensures forall c | c in claims :: !Beats(channel, c, BestClaim(channel, claims))
  {
    var arrivals := AtOnce(claims);
    BestIsBest(channel, arrivals);
    var k :| 0 <= k < |arrivals| && arrivals[k].claim == BestClaim(channel, claims);
    assert claims[k] == arrivals[k].claim;
    forall c | c in claims ensures !Beats(channel, c, BestClaim(channel, claims)) {
      var i :| 0 <= i < |claims| && claims[i] == c;
      assert arrivals[i].claim == c;
    }
  }

  lemma SameClaims(arrivals: seq<Arrival>, claims: seq<Claim>)
    requires multiset(ClaimsOf(arrivals)) == multiset(claims)
    ensures forall c :: IsClaimOf(c, arrivals) <==> c in claims
  {
    forall c ensures IsClaimOf(c, arrivals) <==> c in claims {
      assert c in ClaimsOf(arrivals) <==> c in multiset(ClaimsOf(arrivals));
      assert c in claims <==> c in multiset(claims);
      if c in ClaimsOf(arrivals) {
        var k :| 0 <= k < |arrivals| && ClaimsOf(arrivals)[k] == c;
        assert arrivals[k].claim == c;
      }
      if k :| 0 <= k < |arrivals| && arrivals[k].claim == c {
        assert ClaimsOf(arrivals)[k] == c;
      }
    }
  }

  /** What a lease holds, while it lasts, is one of the claims that arrived. */
  lemma {:induction false} HoldsAnArrival(channel: Channel, arrivals: seq<Arrival>)
    requires StaysLive(channel, FREE, arrivals) && arrivals != []
    ensures HeldClaim(Fold(channel, FREE, arrivals)).Some?
    ensures IsClaimOf(HeldClaim(Fold(channel, FREE, arrivals)).value, arrivals)
  {
    var n := |arrivals| - 1;
    FoldStaysUnconfirmed(channel, arrivals);
    var held := HeldClaim(Fold(channel, FREE, arrivals)).value;
    if n > 0 {
      StaysLivePrefix(channel, FREE, arrivals, n);
      HoldsAnArrival(channel, arrivals[..n]);
      FoldStaysUnconfirmed(channel, arrivals[..n]);
      if held != arrivals[n].claim {
        var k :| 0 <= k < n && arrivals[..n][k].claim == held;
        assert arrivals[k].claim == held;
      }
    }
    assert held == arrivals[n].claim || IsClaimOf(held, arrivals);
  }

  /** One claim on a live unconfirmed lease: a re-claim replaces the stamp, a better claim takes over. */
  lemma ClaimMeets(channel: Channel, l: Lease, c: Claim, at: Instant)
    requires WellFormed(channel, l) && !l.confirmed && !Expired(l, at)
    ensures var held := HeldClaim(l);
            HeldClaim(Claimed(channel, l, c, at).lease)
            == if held.None? || held.value.guid == c.guid || Beats(channel, c, held.value) then Some(c) else held
  {
  }

  lemma FoldLast(channel: Channel, before: seq<Arrival>, last: Arrival)
    ensures Fold(channel, FREE, before + [last])
         == Claimed(channel, Fold(channel, FREE, before), last.claim, last.at).lease
    ensures StaysLive(channel, FREE, before + [last]) ==>
              StaysLive(channel, FREE, before) && !Expired(Fold(channel, FREE, before), last.at)
  {
    var all := before + [last];
    assert all[..|before|] == before && all[|before|] == last;
    if StaysLive(channel, FREE, all) {
      StaysLivePrefix(channel, FREE, all, |before|);
    }
  }

  /** A claim that nothing before it beats takes the lease when it arrives last. */
  lemma {:induction false} BestTakesLast(channel: Channel, before: seq<Arrival>, last: Arrival)
    requires StaysLive(channel, FREE, before + [last])
    requires forall c | IsClaimOf(c, before) :: !Beats(channel, c, last.claim)
    ensures HeldClaim(Fold(channel, FREE, before + [last])) == Some(last.claim)
  {
    FoldLast(channel, before, last);
    FoldStaysUnconfirmed(channel, before);
    ClaimMeets(channel, Fold(channel, FREE, before), last.claim, last.at);
    if before != [] {
      HoldsAnArrival(channel, before);
    }
  }

  lemma {:induction false} EndsOnBest(channel: Channel, arrivals: seq<Arrival>, best: Claim)
    requires StaysLive(channel, FREE, arrivals) && IsClaimOf(best, arrivals)
    requires forall c | IsClaimOf(c, arrivals) :: !Beats(channel, c, best) && (c.guid == best.guid ==> c.ts == best.ts)
    ensures HeldClaim(Fold(channel, FREE, arrivals)) == Some(best)
  {
    var before, last := arrivals[..|arrivals| - 1], arrivals[|arrivals| - 1];
    assert arrivals == before + [last];
    ClaimsBefore(before, last);
    FoldLast(channel, before, last);
    if IsClaimOf(best, before) {
      EndsOnBest(channel, before, best);
      FoldStaysUnconfirmed(channel, before);
      ClaimMeets(channel, Fold(channel, FREE, before), last.claim, last.at);
    } else {
      BestTakesLast(channel, before, last);
    }
  }

  lemma ClaimsBefore(before: seq<Arrival>, last: Arrival)
    ensures forall c :: IsClaimOf(c, before + [last]) <==> IsClaimOf(c, before) || c == last.claim
  {
    var all := before + [last];
    assert all[|before|] == last && forall k | 0 <= k < |before| :: all[k] == before[k];
    forall c | IsClaimOf(c, before) ensures IsClaimOf(c, all) {
      var k :| 0 <= k < |before| && before[k].claim == c;
      assert all[k].claim == c;
    }
  }

  /** Two orders that part: the best claim last, or last but for another claim of its author. */
  lemma {:induction false} LateReclaimSplitsOrders(channel: Channel, claims: seq<Claim>, best: Claim, a: Claim)
    requires best in claims && a in claims && a.guid == best.guid && a.ts != best.ts
    requires forall c | c in claims :: !Beats(channel, c, best)
    ensures !EveryOrderSettlesAlike(channel, claims)
  {
    var others := Others(claims, best, a);
    AtOnceIsAnOrder(channel, others + [a] + [best], claims);
    AtOnceIsAnOrder(channel, others + [best] + [a], claims);
    BestTakesLastAtOnce(channel, others + [a], best);
    BestTakesLastAtOnce(channel, others, best);
    ReclaimedAtOnce(channel, others + [best], best, a);
  }

  /** The claims with one occurrence of each of two of them taken out. */
  lemma Others(claims: seq<Claim>, best: Claim, a: Claim) returns (others: seq<Claim>)
    requires best in claims && a in claims && a != best
    ensures multiset(others + [a] + [best]) == multiset(others + [best] + [a]) == multiset(claims)
    ensures forall c | c in others + [a] :: c in claims
  {
    var rest := Without(claims, best);
    others := Without(rest, a);
    assert multiset(others + [a] + [best]) == multiset(others) + multiset{a} + multiset{best};
    assert multiset(others + [best] + [a]) == multiset(others) + multiset{best} + multiset{a};
  }

  lemma {:induction false} BestTakesLastAtOnce(channel: Channel, claims: seq<Claim>, best: Claim)
    requires forall c | c in claims :: !Beats(channel, c, best)
    ensures HeldClaim(Fold(channel, FREE, AtOnce(claims + [best]))) == Some(best)
  {
    assert AtOnce(claims + [best]) == AtOnce(claims) + [Arrival(best, 0.0)];
    AtOnceIsAnOrder(channel, claims + [best], claims + [best]);
    AtOnceIsAnOrder(channel, claims, claims);
    SameClaims(AtOnce(claims), claims);
    BestTakesLast(channel, AtOnce(claims), Arrival(best, 0.0));
  }

  lemma {:induction false} ReclaimedAtOnce(channel: Channel, claims: seq<Claim>, held: Claim, a: Claim)
    requires HeldClaim(Fold(channel, FREE, AtOnce(claims))) == Some(held) && a.guid == held.guid
    ensures HeldClaim(Fold(channel, FREE, AtOnce(claims + [a]))) == Some(a)
  {
    AtOnceIsAnOrder(channel, claims + [a], claims + [a]);
    assert AtOnce(claims + [a]) == AtOnce(claims) + [Arrival(a, 0.0)];
    FoldLast(channel, AtOnce(claims), Arrival(a, 0.0));
    FoldStaysUnconfirmed(channel, AtOnce(claims));
    ClaimMeets(channel, Fold(channel, FREE, AtOnce(claims)), a, 0.0);
  }

  /** The list with one occurrence of c taken out. */
  function Without(claims: seq<Claim>, c: Claim): (rest: seq<Claim>)
    requires c in claims
    ensures multiset(rest) == multiset(claims) - multiset{c}
    ensures forall d | d in claims && d != c :: d in rest
    ensures forall d | d in rest :: d in claims
  {
    if claims[0] == c then
      assert claims == [claims[0]] + claims[1..];
      claims[1..]
    else
      assert claims == [claims[0]] + claims[1..];
      [claims[0]] + Without(claims[1..], c)
  }

  lemma {:induction false} AtOnceIsAnOrder(channel: Channel, listed: seq<Claim>, claims: seq<Claim>)
    requires multiset(listed) == multiset(claims)
    ensures IsOrderOf(channel, AtOnce(listed), claims)
  {
    assert ClaimsOf(AtOnce(listed)) == listed;
    forall k | 0 <= k < |listed| ensures !Expired(Fold(channel, FREE, AtOnce(listed)[..k]), 0.0) {
      assert AtOnce(listed)[..k] == AtOnce(listed[..k]);
    }
  }

  /** On an earlier-wins channel one peer's second claim is enough to make two orders disagree. */
  lemma ReclaimMakesOrderMatter()
    ensures var a, b, a2 := Arrival(Claim(1.0, 1), 0.0), Arrival(Claim(2.0, 2), 0.0), Arrival(Claim(3.0, 1), 0.0);
            && StaysLive(Position, FREE, [a, a2, b]) && StaysLive(Position, FREE, [a, b, a2])
            && Fold(Position, FREE, [a, a2, b]).owner == Some(2)
            && Fold(Position, FREE, [a, b, a2]).owner == Some(1)
  {
    var a, b, a2 := Arrival(Claim(1.0, 1), 0.0), Arrival(Claim(2.0, 2), 0.0), Arrival(Claim(3.0, 1), 0.0);
    FoldThree(Position, a, a2, b);
    FoldThree(Position, a, b, a2);
  }

  lemma LiveLast(channel: Channel, before: seq<Arrival>, last: Arrival)
    requires StaysLive(channel, FREE, before) && !Expired(Fold(channel, FREE, before), last.at)
    ensures StaysLive(channel, FREE, before + [last])
  {
    var all := before + [last];
    forall k | 0 <= k < |all| ensures !Expired(Fold(channel, FREE, all[..k]), all[k].at) {
      if k < |before| {
        assert all[..k] == before[..k] && all[k] == before[k];
      } else {
        assert all[..k] == before && all[k] == last;
      }
    }
  }

  /** Three arrivals folded one by one. */
  lemma FoldThree(channel: Channel, x: Arrival, y: Arrival, z: Arrival)
    ensures Fold(channel, FREE, [x]) == Claimed(channel, FREE, x.claim, x.at).lease
    ensures Fold(channel, FREE, [x, y]) == Claimed(channel, Fold(channel, FREE, [x]), y.claim, y.at).lease
    ensures Fold(channel, FREE, [x, y, z]) == Claimed(channel, Fold(channel, FREE, [x, y]), z.claim, z.at).lease
    ensures !Expired(Fold(channel, FREE, [x]), y.at) && !Expired(Fold(channel, FREE, [x, y]), z.at) ==>
              StaysLive(channel, FREE, [x, y, z])
  {
    OneMoreFolded(channel, [], x, [x]);
    OneMoreFolded(channel, [x], y, [x, y]);
    OneMoreFolded(channel, [x, y], z, [x, y, z]);
  }

  lemma OneMoreFolded(channel: Channel, before: seq<Arrival>, last: Arrival, all: seq<Arrival>)
    requires all == before + [last]
    ensures Fold(channel, FREE, all) == Claimed(channel, Fold(channel, FREE, before), last.claim, last.at).lease
    ensures StaysLive(channel, FREE, before) && !Expired(Fold(channel, FREE, before), last.at) ==> StaysLive(channel, FREE, all)
  {
    FoldLast(channel, before, last);
    if StaysLive(channel, FREE, before) && !Expired(Fold(channel, FREE, before), last.at) {
      LiveLast(channel, before, last);
    }
  }

  // ------------------------------------------------------------------ a confirmed earlier-wins lease

  /** The best of an already queued claim and the claims of other peers, if there is any. */
  function QueuedBest(channel: Channel, queued: Option<Claim>, owner: Guid, arrivals: seq<Arrival>): Option<Claim> {
    if arrivals == [] then queued
    else
      var c := arrivals[|arrivals| - 1].claim;
      var before := QueuedBest(channel, queued, owner, arrivals[..|arrivals| - 1]);
      if c.guid == owner then before else Some(ResolveClaim(channel, before, c))
  }

  /** It is one of the queued or arriving foreign claims, and none of those ranks ahead of it. */
  lemma {:induction false} QueuedBestIsBest(
    channel: Channel, queued: Option<Claim>, owner: Guid, arrivals: seq<Arrival>)
    ensures var q := QueuedBest(channel, queued, owner, arrivals);
            && (q.None? <==> queued.None? && forall k :: 0 <= k < |arrivals| ==> arrivals[k].claim.guid == owner)
            && (q.Some? ==>
                  && (q == queued || exists k :: 0 <= k < |arrivals| && arrivals[k].claim == q.value && q.value.guid != owner)
                  && (queued.Some? ==> !Beats(channel, queued.value, q.value))
                  && forall k :: 0 <= k < |arrivals| && arrivals[k].claim.guid != owner
                                 ==> !Beats(channel, arrivals[k].claim, q.value))
  {
    var n := |arrivals| - 1;
    if n >= 0 {
      var init := arrivals[..n];
      QueuedBestIsBest(channel, queued, owner, init);
      var q := QueuedBest(channel, queued, owner, arrivals);
      assert forall k :: 0 <= k < n ==> init[k] == arrivals[k];
      if q.Some? && q != queued && q == QueuedBest(channel, queued, owner, init) {
        var k :| 0 <= k < n && init[k].claim == q.value && q.value.guid != owner;
        assert arrivals[k].claim == q.value;
      } else if q.Some? && q != queued {
        assert arrivals[n].claim == q.value;
      }
    }
  }

  /**
   * However many claims arrive, in whatever order and from whomever, a confirmed owner keeps the lease and
   * the best foreign claim so far is the one that waits.
   */
  lemma {:induction false} ConfirmedOwnerIsNeverPreempted(channel: Channel, l: Lease, arrivals: seq<Arrival>)
    requires channel != Visibility && WellFormed(channel, l) && l.confirmed
    requires StaysLive(channel, l, arrivals)
    ensures var after := Fold(channel, l, arrivals);
            && after.owner == l.owner && after.confirmed && WellFormed(channel, after)
            && after.pending == QueuedBest(channel, l.pending, l.owner.value, arrivals)
  {
    var n := |arrivals| - 1;
    if n >= 0 {
      StaysLivePrefix(channel, l, arrivals, n);
      ConfirmedOwnerIsNeverPreempted(channel, l, arrivals[..n]);
      assert arrivals[..n] == arrivals[..|arrivals| - 1];
    }
  }

  /** Release, departure and expiry all hand the lease to exactly that waiting claim, or free it. */
  lemma {:induction false} WaitingClaimIsGranted(channel: Channel, self: Guid, l: Lease, arrivals: seq<Arrival>, e: Event)
    requires channel != Visibility && WellFormed(channel, l) && l.confirmed
    requires StaysLive(channel, l, arrivals)
    requires var after := Fold(channel, l, arrivals);
             || (e.OwnRelease? && l.owner == Some(self))
             || (e.ReleaseArrives? && l.owner == Some(e.peer))
             || (e.PeerDropped? && l.owner == Some(e.peer))
             || (e.Consulted? && Expired(after, e.at))
    ensures var q := QueuedBest(channel, l.pending, l.owner.value, arrivals);
            var granted := After(channel, self, Fold(channel, l, arrivals), e);
            if q.None? then granted == FREE
            else Holds(granted, q.value) && !granted.confirmed && granted.pending.None?
  {
    ConfirmedOwnerIsNeverPreempted(channel, l, arrivals);
  }
}
