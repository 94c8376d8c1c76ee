// How long a lease lasts, over runs of everything that rewrites one: python/otio_sync_core/manager.py,
// _settle_lease_expiry, _refresh_lease and _refresh_lease_confirmed; authority.py, LEASE_DURATIONS.
module LeaseTimes {
  import opened Basics
  import opened Authority
  import opened Leases

  /** Seconds from a grant, a reaffirmation or a broadcast to the expiry. */
  function Lasts(channel: Channel): real {
    match channel
    case Display => 0.5
    case Position => 1.0
    case Structure => 2.0
    case Visibility => 3.0
  }

  function TimeOf(e: Event): Instant {
    match e
    case ClaimArrives(_, at) => at
    case OwnBroadcast(at) => at
    case OwnRelease(at) => at
    case ReleaseArrives(_, at) => at
    case Consulted(at) => at
    case SnapshotAdopted(_, _, at) => at
    case PeerDropped(_, at) => at
  }

  /**
   * The lease starts anew: its owner claims it again or has just taken it, the owner is this peer and broadcasts, or
   * the lease went to the claimant who waited. An entry of a snapshot brings its own deadline.
   */
  predicate StartsAnew(self: Guid, before: Lease, e: Event, after: Lease) {
    && !e.SnapshotAdopted? && after.owner.Some?
    && (|| after.owner != before.owner
        || (e.ClaimArrives? && after.owner == Some(e.claim.guid))
        || (e.OwnBroadcast? && after.owner == Some(self)))
  }

  function Consultations(times: seq<Instant>): seq<Event> {
    seq(|times|, i requires 0 <= i < |times| => Consulted(times[i]))
  }

  lemma {:induction false} AfterInParts(channel: Channel, self: Guid, l: Lease, a: seq<Event>, b: seq<Event>)
    ensures AfterAll(channel, self, l, a + b) == AfterAll(channel, self, AfterAll(channel, self, l, a), b)
  {
    if b == [] {
      assert a + b == a;
    } else {
      assert (a + b)[..|a + b| - 1] == a + b[..|b| - 1];
      AfterInParts(channel, self, l, a, b[..|b| - 1]);
    }
  }

  lemma StartsWithDeadline(channel: Channel, self: Guid, before: Lease, e: Event)
    requires WellFormed(channel, before) && StartsAnew(self, before, e, After(channel, self, before, e))
    ensures After(channel, self, before, e).deadline == Some(TimeOf(e) + Lasts(channel))
  {
  }

  lemma {:induction false} Unsettled(channel: Channel, self: Guid, l: Lease, times: seq<Instant>)
    requires l.deadline.Some? && forall t | t in times :: t < l.deadline.value
    ensures AfterAll(channel, self, l, Consultations(times)) == l
  {
    if times != [] {
      var init, last := times[..|times| - 1], times[|times| - 1];
      assert Consultations(times)[..|times| - 1] == Consultations(init);
      assert last in times && forall t | t in init :: t in times;
      Unsettled(channel, self, l, init);
    }
  }

  /** The owner passes the gate at `now` if nothing but these consultations has happened. */
  function OwnerAt(channel: Channel, self: Guid, l: Lease, times: seq<Instant>, now: Instant): Option<Guid> {
    AfterAll(channel, self, l, Consultations(times + [now])).owner
  }

  /**
   * Over every run: from the moment a lease starts anew, and as long as it is only consulted, its owner passes the gate
   * before the time is up and not from then on. Then the claimant who waited passes, for as long again, or nobody.
   */
  lemma {:induction false} LeaseLasts(
    channel: Channel, self: Guid, events: seq<Event>, e: Event, times: seq<Instant>, now: Instant)
    requires var before := AfterAll(channel, self, FREE, events);
             StartsAnew(self, before, e, After(channel, self, before, e))
    requires forall t | t in times :: t < TimeOf(e) + Lasts(channel)
    ensures var l := AfterAll(channel, self, FREE, events + [e]);
            && l.owner.Some?
            && (now < TimeOf(e) + Lasts(channel) ==> OwnerAt(channel, self, l, times, now) == l.owner)
            && (now >= TimeOf(e) + Lasts(channel) ==>
                  OwnerAt(channel, self, l, times, now)
                  == if l.pending.Some? then Some(l.pending.value.guid) else None)
    ensures var l := AfterAll(channel, self, FREE, events + [e]);
            now >= TimeOf(e) + Lasts(channel) && l.pending.Some? ==>
              forall later: Instant | later >= now ::
                OwnerAt(channel, self, l, times + [now], later)
                == if later < now + Lasts(channel) then Some(l.pending.value.guid) else None
  {
    var before := AfterAll(channel, self, FREE, events);
    RecordInvariant(channel, self, events);
    StartsWithDeadline(channel, self, before, e);
    assert (events + [e])[..|events|] == events;
    var l := After(channel, self, before, e);
    assert AfterAll(channel, self, FREE, events + [e]) == l;
    Unsettled(channel, self, l, times);
    OneMoreConsulted(channel, self, l, times, now);
    if now >= TimeOf(e) + Lasts(channel) && l.pending.Some? {
      forall later: Instant | later >= now
        ensures OwnerAt(channel, self, l, times + [now], later)
             == if later < now + Lasts(channel) then Some(l.pending.value.guid) else None
      {
        OneMoreConsulted(channel, self, l, times + [now], later);
      }
    }
  }

  lemma OneMoreConsulted(channel: Channel, self: Guid, l: Lease, times: seq<Instant>, now: Instant)
    ensures AfterAll(channel, self, l, Consultations(times + [now]))
         == Settled(channel, AfterAll(channel, self, l, Consultations(times)), now)
  {
    assert Consultations(times + [now])[..|times|] == Consultations(times);
  }

  // ------------------------------------------------------------------ who may take it before that

  /** The earlier stamp, and on a tie the lower GUID. */
  predicate Earlier(a: Claim, b: Claim) {
    a.ts < b.ts || (a.ts == b.ts && a.guid < b.guid)
  }

  /**
   * Whoever broadcasts holds: on an earlier-wins channel no claim of another peer takes the lease from an owner that has
   * broadcast, until it expires. It waits, unless an earlier one waits already.
   */
  lemma {:induction false} BroadcastHoldsOff(
    channel: Channel, self: Guid, events: seq<Event>, t: Instant, c: Claim, now: Instant)
    requires channel != Visibility && c.guid != self && now < t + Lasts(channel)
    requires AfterAll(channel, self, FREE, events + [OwnBroadcast(t)]).owner == Some(self)
    ensures var l := AfterAll(channel, self, FREE, events + [OwnBroadcast(t)]);
            var after := After(channel, self, l, ClaimArrives(c, now));
            && after == l.(pending := after.pending) && after.pending.Some?
            && (if l.pending.Some? && !Earlier(c, l.pending.value) then after.pending == l.pending
                else after.pending == Some(c))
  {
    var before := AfterAll(channel, self, FREE, events);
    RecordInvariant(channel, self, events);
    assert (events + [OwnBroadcast(t)])[..|events|] == events;
    StartsWithDeadline(channel, self, before, OwnBroadcast(t));
  }

  /** Before its first broadcast an owner loses it to every earlier claim: to a later one where that wins. */
  lemma {:induction false} ProvisionalOwnerYieldsIff(
    channel: Channel, self: Guid, events: seq<Event>, c: Claim, now: Instant)
    requires var l := AfterAll(channel, self, FREE, events);
             && l.owner.Some? && l.owner != Some(c.guid) && l.claimTs.Some? && l.deadline.Some? && now < l.deadline.value
             && (channel == Visibility || !l.confirmed)
    ensures var l := AfterAll(channel, self, FREE, events);
            var held := Claim(l.claimTs.value, l.owner.value);
            After(channel, self, l, ClaimArrives(c, now)).owner
            == if (if channel == Visibility && c.ts != held.ts then c.ts > held.ts else Earlier(c, held))
               then Some(c.guid) else l.owner
  {
    RecordInvariant(channel, self, events);
  }

  /**
   * One claim per peer, in any order of arrival: the lease ends with the claim that is earliest, or on visibility latest,
   * and among equal stamps with the lowest GUID.
   */
  lemma {:induction false} FirstClaimSettles(channel: Channel, arrivals: seq<Arrival>, c: Claim)
    requires arrivals != [] && StaysLive(channel, FREE, arrivals) && OneClaimPerPeer(arrivals)
    requires IsClaimOf(c, arrivals)
    ensures Holds(Fold(channel, FREE, arrivals), c) <==>
              forall k | 0 <= k < |arrivals| ::
                var d := arrivals[k].claim;
                d == c || if channel == Visibility && c.ts != d.ts then c.ts > d.ts else Earlier(c, d)
  {
    OneClaimPerPeerTracks(channel, arrivals);
    BestIsBest(channel, arrivals);
    var best := Best(channel, arrivals);
    var b :| 0 <= b < |arrivals| && arrivals[b].claim == best;
    var i :| 0 <= i < |arrivals| && arrivals[i].claim == c;
    if c == best {
      forall k | 0 <= k < |arrivals| && arrivals[k].claim != c ensures arrivals[k].claim.guid != c.guid {
      }
    } else {
      assert !Beats(channel, c, best);
    }
  }

  // ------------------------------------------------------------------ which roles may claim

  /** A driver claims everything, a reviewer the position and the display, a viewer only the display. */
  lemma {:induction false} RolesThatClaim(channel: Channel, self: Guid, role: Role, wall: real, now: Instant)
    ensures LocallyClaimed(channel, FREE, self, role, wall, now).lease.owner == Some(self) <==>
              || role == Driver
              || (role == Reviewer && (channel == Position || channel == Display))
              || (role == Viewer && channel == Display)
    ensures LocallyClaimed(channel, FREE, self, role, wall, now).wire.Some? <==>
              LocallyClaimed(channel, FREE, self, role, wall, now).lease.owner == Some(self)
  {
  }
}
