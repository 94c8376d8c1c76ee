// The authority half of python/otio_sync_core/manager.py: leases, roles, host seat and gated broadcasts.
module Manager {
  import opened Basics
  import opened Authority
  import opened Leases
  import opened HostElection
  import opened PlaybackMessage

  datatype Wire =
    | ClaimOwnership(channel: Channel, claim: Claim)
    | ReleaseOwnership(channel: Channel, peer: Guid)
    | PeerAnnounce(peer: Guid, role: Role)
    | PlaybackSettings(payload: Fields)
    | DisplaySettings(state: DisplayState)
    | StructureChange(kind: Structural)
    | IAmMaster(peer: Guid)

  /** A display state, with the time it was sent at. */
  datatype DisplayState = DisplayState(settings: int, stamp: real)

  /** The structural broadcasts. */
  datatype Structural = AddTimeline | RenameTimeline | RemoveTimeline | ReplaceTimeline | MoveChild | RemoveChild

  /** Those that are not made while a remote message is being applied. */
  predicate ChecksSyncing(kind: Structural) {
    kind == RenameTimeline || kind == MoveChild || kind == RemoveChild
  }

  /** Those whose refusal leaves this peer with a structure of its own. */
  predicate DivergesIfRefused(kind: Structural) {
    kind == MoveChild || kind == RemoveChild
  }

  /** One channel of a snapshot's broadcast_ownership section. */
  datatype OwnershipInfo = OwnershipInfo(channel: Channel, owner: Option<Guid>, remainingMs: Option<real>)

  type LeaseTable = map<Channel, Lease>

  /** Every channel has a lease record. */
  ghost predicate Complete(t: LeaseTable) {
    forall c: Channel :: c in t
  }

  ghost predicate TableWellFormed(t: LeaseTable) {
    Complete(t) && forall c: Channel :: WellFormed(c, t[c])
  }

  // ------------------------------------------------------------------ the playback message

  /** The state as broadcast_playback_state completes it before any pass. */
  function Completed(state: Fields, timeline: Option<Guid>, active: Option<Guid>, wall: real): Fields {
    var guid := if timeline.Some? then timeline else active;
    state[SyncTimestamp := Stamp(wall)][TimelineGuid := if guid.Some? then Ref(guid.value) else Null]
  }

  /** Stamped with the time; on the timeline asked for, else the active one, else on none; unknown fields as they were given. */
  ghost predicate Addressed(payload: Fields, state: Fields, timeline: Option<Guid>, active: Option<Guid>, wall: real) {
    && SyncTimestamp in payload && payload[SyncTimestamp] == Stamp(wall)
    && (timeline.Some? ==> TimelineGuid in payload && payload[TimelineGuid] == Ref(timeline.value))
    && (timeline.None? && active.Some? ==> TimelineGuid in payload && payload[TimelineGuid] == Ref(active.value))
    && (timeline.None? && active.None? ==> TimelineGuid !in payload)
    && (forall name :: (Extra(name) in payload <==> Extra(name) in state)
                       && (Extra(name) in payload ==> payload[Extra(name)] == state[Extra(name)]))
  }

  /**
   * A playback message as it goes out: addressed; with what is on screen only from a driver that may say so, and with the
   * position from a driver or reviewer that holds it.
   */
  ghost predicate Speaks(
    payload: Fields, state: Fields, timeline: Option<Guid>, active: Option<Guid>, wall: real,
    role: Role, holdsVisibility: bool, holdsPosition: bool)
  {
    && Addressed(payload, state, timeline, active, wall)
    && (if role == Driver && holdsVisibility then TravelsWhole(payload, state, {ViewMode, ClipGuid})
        else TravelsNotAtAll(payload, {ViewMode, ClipGuid}))
    && (if role != Viewer && holdsPosition then TravelsWhole(payload, state, {CurrentTime, Playing, PlaybackMode})
        else TravelsNotAtAll(payload, {CurrentTime, Playing, PlaybackMode}))
  }

  lemma {:induction false} CompletedSpeaks(
    state: Fields, timeline: Option<Guid>, active: Option<Guid>, wall: real,
    role: Role, holdsVisibility: bool, holdsPosition: bool)
    requires Enforced(Completed(state, timeline, active, wall), role, holdsVisibility, holdsPosition).state.Some?
    ensures var out := Enforced(Completed(state, timeline, active, wall), role, holdsVisibility, holdsPosition);
            Speaks(WirePayload(out.state.value), state, timeline, active, wall, role, holdsVisibility, holdsPosition)
  {
    var complete := Completed(state, timeline, active, wall);
    var payload := WirePayload(Enforced(complete, role, holdsVisibility, holdsPosition).state.value);
    WireAuthority(complete, role, holdsVisibility, holdsPosition);
    GroupsUntouched(state, timeline, active, wall, payload);
    OthersTravel(state, timeline, active, wall, payload);
  }

  /** What is in neither group travels as completed, except that a null is left out. */
  lemma OthersTravel(state: Fields, timeline: Option<Guid>, active: Option<Guid>, wall: real, payload: Fields)
    requires var complete := Completed(state, timeline, active, wall);
             forall f | f !in VISIBILITY_FIELDS && f !in POSITION_FIELDS ::
               (f in payload <==> f in WirePayload(complete)) && (f in payload ==> payload[f] == complete[f])
    ensures Addressed(payload, state, timeline, active, wall)
  {
    var complete := Completed(state, timeline, active, wall);
    forall name ensures (Extra(name) in payload <==> Extra(name) in state)
                        && (Extra(name) in payload ==> payload[Extra(name)] == state[Extra(name)]) {
      assert Extra(name) !in VISIBILITY_FIELDS && Extra(name) !in POSITION_FIELDS;
      assert Extra(name) in complete <==> Extra(name) in state;
    }
  }

  /** Completing a state leaves the two groups as they were, so what travels of them is the state's own. */
  lemma GroupsUntouched(state: Fields, timeline: Option<Guid>, active: Option<Guid>, wall: real, payload: Fields)
    ensures var complete := Completed(state, timeline, active, wall);
            && TravelsWhole(payload, complete, VISIBILITY_FIELDS) == TravelsWhole(payload, state, {ViewMode, ClipGuid})
            && TravelsWhole(payload, complete, POSITION_FIELDS)
               == TravelsWhole(payload, state, {CurrentTime, Playing, PlaybackMode})
  {
    var complete := Completed(state, timeline, active, wall);
    assert forall f | f in VISIBILITY_FIELDS || f in POSITION_FIELDS ::
             (f in complete <==> f in state) && (f in state ==> complete[f] == state[f]);
  }

  // ------------------------------------------------------------------ the ownership section

  /** Seconds of hold left, as the section carries them. */
  function InfoOf(channel: Channel, l: Lease, now: Instant): OwnershipInfo
    requires l.deadline.Some?
  {
    var left := l.deadline.value - now;
    OwnershipInfo(channel, l.owner, Some((if left > 0.0 then left else 0.0) * 1000.0))
  }

  ghost function AdoptedAll(t: LeaseTable, self: Guid, section: seq<OwnershipInfo>, now: Instant): LeaseTable
    requires Complete(t)
    ensures Complete(AdoptedAll(t, self, section, now))
  {
    if section == [] then t
    else
      var before := AdoptedAll(t, self, section[..|section| - 1], now);
      var info := section[|section| - 1];
      before[info.channel := Adopted(before[info.channel], self, info.owner, info.remainingMs, now)]
  }

  ghost function SectionUpTo(t: LeaseTable, now: Instant, n: nat): seq<OwnershipInfo>
    requires Complete(t)
    requires n <= |LEASE_CHANNELS|
  {
    if n == 0 then []
    else
      var c := LEASE_CHANNELS[n - 1];
      var l := Settled(c, t[c], now);
      SectionUpTo(t, now, n - 1) + EntryOf(c, l, now)
  }

  /** A channel nobody holds is left out. */
  function EntryOf(channel: Channel, l: Lease, now: Instant): seq<OwnershipInfo> {
    if l.owner.Some? && l.deadline.Some? then [InfoOf(channel, l, now)] else []
  }

  ghost function Section(t: LeaseTable, now: Instant): seq<OwnershipInfo>
    requires Complete(t)
  {
    SectionUpTo(t, now, 4)
  }

  ghost predicate ChannelsDistinct(section: seq<OwnershipInfo>) {
    forall i, j | 0 <= i < j < |section| :: section[i].channel != section[j].channel
  }

  /** The section lists every held one of the first n channels once, with the time it has left, and no other. */
  ghost predicate Lists(section: seq<OwnershipInfo>, t: LeaseTable, now: Instant, n: nat)
    requires Complete(t) && n <= |LEASE_CHANNELS|
  {
    && ChannelsDistinct(section)
    && (forall i | i in section :: i.channel in LEASE_CHANNELS[..n])
    && (forall i | i in section ::
          var l := Settled(i.channel, t[i.channel], now);
          l.owner.Some? && l.deadline.Some? && i == InfoOf(i.channel, l, now))
    && (forall k | 0 <= k < n ::
          var c := LEASE_CHANNELS[k];
          Settled(c, t[c], now).owner.Some? ==> exists i | i in section :: i.channel == c)
  }

  lemma {:induction false} SectionLists(t: LeaseTable, now: Instant, n: nat)
    requires TableWellFormed(t) && n <= 4
    ensures Lists(SectionUpTo(t, now, n), t, now, n)
  {
    if n > 0 {
      var before, section := SectionUpTo(t, now, n - 1), SectionUpTo(t, now, n);
      SectionLists(t, now, n - 1);
      var c := LEASE_CHANNELS[n - 1];
      var l := Settled(c, t[c], now);
      assert WellFormed(c, l) by {
        assert WellFormed(c, t[c]);
      }
      assert c !in LEASE_CHANNELS[..n - 1];
      if l.owner.Some? {
        assert section == before + [InfoOf(c, l, now)];
        assert section[|before|].channel == c;
        forall i | 0 <= i < |before| ensures section[i].channel != c {
          assert before[i] in before;
        }
      } else {
        assert section == before;
      }
    }
  }

  lemma {:induction false} AdoptionTouchesListedChannels(
    t: LeaseTable, self: Guid, section: seq<OwnershipInfo>, now: Instant, c: Channel)
    requires Complete(t) && ChannelsDistinct(section)
    ensures (forall i | i in section :: i.channel != c) ==> AdoptedAll(t, self, section, now)[c] == t[c]
    ensures forall i | i in section && i.channel == c ::
              AdoptedAll(t, self, section, now)[c] == Adopted(t[c], self, i.owner, i.remainingMs, now)
  {
    var n := |section| - 1;
    if n >= 0 {
      AdoptionTouchesListedChannels(t, self, section[..n], now, c);
      forall i | i in section[..n] ensures i.channel != section[n].channel {
        var k :| 0 <= k < n && section[..n][k] == i;
        assert section[k] == i;
      }
      assert forall i | i in section :: i in section[..n] || i == section[n];
    }
  }

  lemma EntryReadsBack(
    section: seq<OwnershipInfo>, theirs: LeaseTable, sentAt: Instant,
    mine: Lease, learnt: Lease, self: Guid, readAt: Instant, c: Channel)
    requires TableWellFormed(theirs) && mine.owner != Some(self) && Lists(section, theirs, sentAt, 4)
    requires (forall i | i in section :: i.channel != c) ==> learnt == mine
    requires forall i | i in section && i.channel == c ::
               learnt == Adopted(mine, self, i.owner, i.remainingMs, readAt)
    ensures learnt == LearntFrom(c, theirs[c], sentAt, mine, readAt)
  {
    ListedMatchesHeld(section, theirs, sentAt, c);
    if i :| i in section && i.channel == c {
    }
  }

  lemma ListedMatchesHeld(section: seq<OwnershipInfo>, t: LeaseTable, now: Instant, c: Channel)
    requires TableWellFormed(t) && Lists(section, t, now, 4)
    ensures var held := Settled(c, t[c], now);
            && (held.owner.Some? <==> exists i | i in section :: i.channel == c)
            && (forall i | i in section && i.channel == c :: i == InfoOf(c, held, now))
            && (held.owner.Some? ==> held.deadline.Some? && held.deadline.value >= now)
  {
    var held := Settled(c, t[c], now);
    assert WellFormed(c, t[c]);
    if held.owner.Some? {
      ChannelIsListed(c);
    }
  }

  lemma ChannelIsListed(c: Channel)
    ensures exists k | 0 <= k < 4 :: LEASE_CHANNELS[k] == c
  {
    match c
    case Position => assert LEASE_CHANNELS[0] == c;
    case Display => assert LEASE_CHANNELS[1] == c;
    case Structure => assert LEASE_CHANNELS[2] == c;
    case Visibility => assert LEASE_CHANNELS[3] == c;
  }

  /** A held lease is learnt with its owner and the time it has left; a free one teaches nothing. */
  function LearntFrom(c: Channel, theirs: Lease, sentAt: Instant, mine: Lease, readAt: Instant): Lease {
    var held := Settled(c, theirs, sentAt);
    if held.owner.None? || held.deadline.None? || held.deadline.value < sentAt then mine
    else Lease(held.owner, None, Some(readAt + (held.deadline.value - sentAt)), true, None)
  }

  /**
   * A joiner that holds nothing learns, channel by channel, exactly who holds each lease and for how much
   * longer, whatever the two machines' clocks read.
   */
  lemma OwnershipRoundTrip(
    theirs: LeaseTable, sentAt: Instant, mine: LeaseTable, self: Guid, readAt: Instant, c: Channel)
    requires TableWellFormed(theirs) && Complete(mine) && mine[c].owner != Some(self)
    ensures AdoptedAll(mine, self, Section(theirs, sentAt), readAt)[c]
            == LearntFrom(c, theirs[c], sentAt, mine[c], readAt)
  {
    var section := Section(theirs, sentAt);
    SectionLists(theirs, sentAt, 4);
    AdoptionTouchesListedChannels(mine, self, section, readAt, c);
    EntryReadsBack(section, theirs, sentAt, mine[c], AdoptedAll(mine, self, section, readAt)[c], self, readAt, c);
  }

  // ------------------------------------------------------------------ the manager

  class SyncManager {
    const selfGuid: Guid
    var selfRole: Role
    var defaultRole: Role
    var peers: Table
    var masterGuid: Option<Guid>
    var hostGuid: Option<Guid>
    var isHost: bool
    var electionRequested: bool
    var isSyncing: bool
    var sessionStatus: SessionStatus
    var isMaster: bool
    var displayState: Option<DisplayState>
    var activeTimelineGuid: Option<Guid>
    var playbackState: Fields
    /** Everything handed to the network so far. */
    var outbox: seq<Wire>
    const leases: map<Channel, OwnershipLease>

    ghost predicate Valid()
      reads this, leases.Values
    {
      && (forall c: Channel :: c in leases)
      && (forall c: Channel :: leases[c].channel == c && WellFormed(c, leases[c].View()))
      && (isHost <==> hostGuid == Some(selfGuid))
      && KeysDistinct(peers)
    }

    function LeaseOf(channel: Channel): Lease
      requires channel in leases
      reads leases.Values
    {
      leases[channel].View()
    }

    /** The value of the whole lease dictionary. */
    function LeaseView(): LeaseTable
      reads leases.Values
    {
      map c | c in leases :: leases[c].View()
    }

    constructor (self: Guid, app: App, canHost: bool, role: Role, defaultRole: Role)
      ensures Valid() && fresh(leases.Values)
      ensures forall c: Channel :: LeaseOf(c) == FREE
      ensures selfGuid == self && selfRole == role && this.defaultRole == defaultRole
      ensures hostGuid.None? && masterGuid.None? && outbox == []
      ensures peers == [Entry(self, Peer(app, canHost, Declared(role)))]
    {
      var p := new OwnershipLease(Position);
      var d := new OwnershipLease(Display);
      var s := new OwnershipLease(Structure);
      var v := new OwnershipLease(Visibility);
      selfGuid, selfRole, this.defaultRole := self, role, defaultRole;
      peers := [Entry(self, Peer(app, canHost, Declared(role)))];
      masterGuid, hostGuid, isHost, electionRequested, isSyncing := None, None, false, false, false;
      sessionStatus, isMaster, displayState := Discovering, false, None;
      activeTimelineGuid, playbackState, outbox := None, map[], [];
      leases := map[Position := p, Display := d, Structure := s, Visibility := v];
      new;
      forall c: Channel ensures c in leases && leases[c].channel == c && leases[c].View() == FREE {
        match c {
          case Position =>
          case Display =>
          case Structure =>
          case Visibility =>
        }
      }
    }

    // ---------------------------------------------------------------- leases

    /** Leases other than the given channel's keep their value. */
    twostate predicate OnlyLease(channel: Channel, l: Lease)
      requires old(Valid()) && Valid()
      reads this, leases.Values
    {
      && LeaseOf(channel) == l
      && forall c: Channel | c != channel :: LeaseOf(c) == old(LeaseOf(c))
    }

    /** Nothing is claimed or newly confirmed on a channel this peer's role forbids. */
    twostate predicate NothingForbidden()
      requires old(Valid()) && Valid() && |old(outbox)| <= |outbox|
      reads this, leases.Values
    {
      forall c: Channel | !RolePermits(selfRole, ChannelGroup(c)) ::
        && (forall i | |old(outbox)| <= i < |outbox| :: !(outbox[i].ClaimOwnership? && outbox[i].channel == c))
        && (LeaseOf(c).confirmed ==> old(LeaseOf(c)).confirmed)
    }

    method OwnsChannel(channel: Channel, now: Instant) returns (owns: bool)
      requires Valid()
      modifies leases[channel]
      ensures Valid() && OnlyLease(channel, Settled(channel, old(LeaseOf(channel)), now))
      ensures owns <==> LeaseOf(channel).owner == Some(selfGuid)
    {
      leases[channel].SettleExpiry(now);
      owns := leases[channel].ownerGuid == Some(selfGuid);
    }

    /** claim_category. A refused or withheld claim leaves the owner in place; a raised one is never sent. */
    method ClaimCategory(channel: Channel, wall: real, now: Instant) returns (raised: bool)
      requires Valid()
      modifies this`outbox, leases[channel]
      ensures Valid()
      ensures var outcome := LocallyClaimed(channel, old(LeaseOf(channel)), selfGuid, selfRole, wall, now);
              && OnlyLease(channel, outcome.lease) && raised == outcome.raised
              && outbox == old(outbox) + if outcome.wire.Some? then [ClaimOwnership(channel, outcome.wire.value)] else []
      ensures NothingForbidden()
    {
      LocalClaimKeeps(channel, LeaseOf(channel), selfGuid, selfRole, wall, now);
      if !RolePermits(selfRole, ChannelGroup(channel)) {
        return false;
      }
      var lease := leases[channel];
      lease.SettleExpiry(now);
      if ClaimWithheldByHoldoff(channel, lease.ownerGuid, lease.claimTs, selfGuid, wall) {
        return false;
      }
      raised := lease.ApplyClaim(wall, selfGuid, now);
      assert lease.View() == LocallyClaimed(channel, old(LeaseOf(channel)), selfGuid, selfRole, wall, now).lease;
      if !raised {
        outbox := outbox + [ClaimOwnership(channel, Claim(wall, selfGuid))];
      }
    }

    /** release_category. Expiry is not settled first. */
    method ReleaseCategory(channel: Channel, now: Instant)
      requires Valid()
      modifies this`outbox, leases[channel]
      ensures Valid()
      ensures OnlyLease(channel, After(channel, selfGuid, old(LeaseOf(channel)), OwnRelease(now)))
      ensures outbox == old(outbox) + if old(LeaseOf(channel)).owner == Some(selfGuid)
                                      then [ReleaseOwnership(channel, selfGuid)] else []
    {
      if leases[channel].ownerGuid != Some(selfGuid) {
        return;
      }
      leases[channel].Vacate(now);
      outbox := outbox + [ReleaseOwnership(channel, selfGuid)];
    }

    /** A received CLAIM_OWNERSHIP; one that lacks a peer or a stamp is ignored. */
    method HandleClaimOwnership(channel: Channel, peer: Option<Guid>, ts: Option<real>, now: Instant)
      returns (raised: bool)
      requires Valid()
      modifies leases[channel]
      ensures Valid()
      ensures if peer.None? || ts.None? then !raised && OnlyLease(channel, old(LeaseOf(channel)))
              else var outcome := Claimed(channel, old(LeaseOf(channel)), Claim(ts.value, peer.value), now);
                   raised == outcome.raised && OnlyLease(channel, outcome.lease)
    {
      if peer.None? || ts.None? {
        return false;
      }
      raised := leases[channel].ApplyClaim(ts.value, peer.value, now);
    }

    /** A received RELEASE_OWNERSHIP; one from a peer that is not the holder changes nothing. */
    method HandleReleaseOwnership(channel: Channel, peer: Guid, now: Instant)
      requires Valid()
      modifies leases[channel]
      ensures Valid()
      ensures OnlyLease(channel, After(channel, selfGuid, old(LeaseOf(channel)), ReleaseArrives(peer, now)))
    {
      if leases[channel].ownerGuid != Some(peer) {
        return;
      }
      leases[channel].Vacate(now);
    }

    method LeaseWireEntry(channel: Channel, now: Instant) returns (entry: seq<OwnershipInfo>)
      requires Valid()
      modifies leases[channel]
      ensures Valid() && OnlyLease(channel, Settled(channel, old(LeaseOf(channel)), now))
      ensures entry == EntryOf(channel, LeaseOf(channel), now)
    {
      var lease := leases[channel];
      lease.SettleExpiry(now);
      if lease.ownerGuid.None? || lease.deadline.None? {
        return [];
      }
      var left := lease.deadline.value - now;
      return [OwnershipInfo(channel, lease.ownerGuid, Some((if left > 0.0 then left else 0.0) * 1000.0))];
    }

    /** _lease_wire_section: reading the section settles every lease. */
    method LeaseWireSection(now: Instant) returns (section: seq<OwnershipInfo>)
      requires Valid()
      modifies leases.Values
      ensures Valid()
      ensures section == Section(old(LeaseView()), now)
      ensures forall c: Channel :: LeaseOf(c) == Settled(c, old(LeaseOf(c)), now)
    {
      section := [];
      ghost var t := LeaseView();
      for n := 0 to 4
        invariant Valid()
        invariant section == SectionUpTo(t, now, n)
        invariant forall k | 0 <= k < n :: var c := LEASE_CHANNELS[k]; LeaseOf(c) == Settled(c, t[c], now)
        invariant forall k | n <= k < 4 :: var c := LEASE_CHANNELS[k]; LeaseOf(c) == t[c]
      {
        var entry := LeaseWireEntry(LEASE_CHANNELS[n], now);
        section := section + entry;
      }
      forall c: Channel ensures LeaseOf(c) == Settled(c, old(LeaseOf(c)), now) {
        ChannelIsListed(c);
      }
    }

    /** adopt_ownership. */
    method AdoptOwnership(section: seq<OwnershipInfo>, now: Instant)
      requires Valid()
      modifies leases.Values
      ensures Valid()
      ensures forall c: Channel :: LeaseOf(c) == AdoptedAll(old(LeaseView()), selfGuid, section, now)[c]
    {
      for n := 0 to |section|
        invariant Valid()
        invariant forall c: Channel :: LeaseOf(c) == AdoptedAll(old(LeaseView()), selfGuid, section[..n], now)[c]
      {
        assert section[..n + 1][..n] == section[..n];
        var info := section[n];
        leases[info.channel].Adopt(selfGuid, info.owner, info.remainingMs, now);
      }
      assert section[..|section|] == section;
    }

    /** _release_peer_leases. */
    method ReleasePeerLeases(peer: Guid, now: Instant)
      requires Valid()
      modifies leases.Values
      ensures Valid()
      ensures forall c: Channel :: LeaseOf(c) == Departed(c, old(LeaseOf(c)), peer, now)
    {
      for n := 0 to 4
        invariant Valid()
        invariant forall k | 0 <= k < n ::
                    var c := LEASE_CHANNELS[k]; LeaseOf(c) == Departed(c, old(LeaseOf(c)), peer, now)
        invariant forall k | n <= k < 4 :: var c := LEASE_CHANNELS[k]; LeaseOf(c) == old(LeaseOf(c))
      {
        leases[LEASE_CHANNELS[n]].ReleasePeer(peer, now);
      }
      forall c: Channel ensures LeaseOf(c) == Departed(c, old(LeaseOf(c)), peer, now) {
        ChannelIsListed(c);
      }
    }

    // ---------------------------------------------------------------- host seat and peers

    /** elect_host: the seat follows the peer table. */
    method ElectHost()
      requires Valid()
      modifies this`hostGuid, this`isHost
      ensures Valid()
      ensures hostGuid == ElectHostGuid(peers, defaultRole, masterGuid)
      ensures hostGuid.Some? <==> HasEligibleDriver(peers, defaultRole)
    {
      HostIsLeastStanding(peers, defaultRole, masterGuid);
      var elected := ElectHostGuid(peers, defaultRole, masterGuid);
      if elected == hostGuid {
        return;
      }
      hostGuid := elected;
      isHost := elected == Some(selfGuid);
    }

    /** adopt_host: a snapshot without a host cannot clear one already elected. */
    method AdoptHost(host: Option<Guid>)
      requires Valid()
      modifies this`hostGuid, this`isHost
      ensures Valid() && hostGuid == if host.Some? then host else old(hostGuid)
    {
      if host.None? || host == hostGuid {
        return;
      }
      hostGuid := host;
      isHost := host == Some(selfGuid);
    }

    /** A received PEER_ANNOUNCE. */
    method HandlePeerAnnounce(a: Announcement)
      requires Valid()
      modifies this`peers, this`hostGuid, this`isHost
      ensures Valid() && peers == Announced(old(peers), a)
      ensures var known := Lookup(old(peers), a.guid);
              Lookup(peers, a.guid) == Some(Peer(a.app, a.canHost,
                if a.role.Declared? then a.role
                else if a.role == Unrecognised then Declared(Driver)
                else if known.Some? then known.value.role else Absent))
      ensures forall g | g != a.guid :: Lookup(peers, g) == Lookup(old(peers), g)
      ensures hostGuid == ElectHostGuid(peers, defaultRole, masterGuid)
    {
      var known := Lookup(peers, a.guid);
      var role := if a.role != Absent then Declared(NormaliseRole(a.role))
                  else if known.Some? then known.value.role else Absent;
      PutRewritesOneEntry(peers, a.guid, Peer(a.app, a.canHost, role));
      peers := Put(peers, a.guid, Peer(a.app, a.canHost, role));
      ElectHost();
    }

    /** adopt_peers: merge a snapshot's roster. No election is run. */
    method AdoptPeers(roster: Table)
      requires Valid()
      modifies this`peers
      ensures Valid() && peers == RosterAdopted(old(peers), selfGuid, roster)
    {
      for n := 0 to |roster|
        invariant Valid() && peers == RosterAdopted(old(peers), selfGuid, roster[..n])
      {
        assert roster[..n + 1][..n] == roster[..n];
        RosterOnlyFillsGaps(old(peers), selfGuid, roster[..n + 1], selfGuid);
        var e := roster[n];
        if e.guid != selfGuid {
          var known := Lookup(peers, e.guid);
          var role := if e.peer.role == Absent then Absent else Declared(NormaliseRole(e.peer.role));
          if known.None? {
            peers := Put(peers, e.guid, e.peer.(role := role));
          } else if e.peer.role != Absent && known.value.role == Absent {
            peers := Put(peers, e.guid, known.value.(role := role));
          }
        }
      }
      assert roster[..|roster|] == roster;
    }

    /** The role a peer has declared, if this peer knows it. */
    function RoleOf(guid: Guid): DeclaredRole
      reads this`peers
    {
      if Lookup(peers, guid).Some? then Lookup(peers, guid).value.role else Absent
    }

    /**
     * A received I_AM_MASTER. A master declines a claimant that ranks behind it, and says so; anyone else learns the
     * master, and learning a new one re-runs the election.
     */
    method LearnMaster(master: Option<Guid>) returns (declined: bool)
      requires Valid()
      modifies this`masterGuid, this`hostGuid, this`isHost, this`outbox
      ensures Valid()
      ensures declined <==> isMaster && master.Some? && master.value != selfGuid
                            && Drives(RoleOf(selfGuid), defaultRole) && !Drives(RoleOf(master.value), defaultRole)
      ensures declined ==> masterGuid == old(masterGuid) && hostGuid == old(hostGuid)
                           && outbox == old(outbox) + [IAmMaster(selfGuid)]
      ensures !declined ==>
                && masterGuid == master && outbox == old(outbox)
                && hostGuid == if master == old(masterGuid) then old(hostGuid)
                               else ElectHostGuid(peers, defaultRole, master)
    {
      if master.Some? {
        PrefersDriver(Lookup(peers, selfGuid), Lookup(peers, master.value), defaultRole);
      }
      if isMaster && master.Some? && master.value != selfGuid
        && MasterRank(Lookup(peers, selfGuid), defaultRole) < MasterRank(Lookup(peers, master.value), defaultRole)
      {
        outbox := outbox + [IAmMaster(selfGuid)];
        return true;
      }
      var changed := masterGuid != master;
      masterGuid := master;
      if changed {
        ElectHost();
      }
      return false;
    }

    /** drop_peer: nothing for a stranger; otherwise the peer, its leases and its claims are gone and the seat follows. */
    method DropPeer(peer: Guid, now: Instant)
      requires Valid()
      modifies this`peers, this`hostGuid, this`isHost, leases.Values
      ensures Valid()
      ensures Lookup(old(peers), peer).None? ==>
                peers == old(peers) && hostGuid == old(hostGuid) && forall c: Channel :: LeaseOf(c) == old(LeaseOf(c))
      ensures Lookup(old(peers), peer).Some? ==>
                && peers == Drop(old(peers), peer) && Lookup(peers, peer).None?
                && hostGuid == ElectHostGuid(peers, defaultRole, masterGuid) && hostGuid != Some(peer)
                && forall c: Channel ::
                  && LeaseOf(c) == Departed(c, old(LeaseOf(c)), peer, now)
                  && LeaseOf(c).owner != Some(peer)
                  && (LeaseOf(c).pending.Some? ==> LeaseOf(c).pending.value.guid != peer)
    {
      if Lookup(peers, peer).None? {
        return;
      }
      DropKeepsDistinct(peers, peer);
      DropForgetsOneEntry(peers, peer, peer);
      peers := Drop(peers, peer);
      ReleasePeerLeases(peer, now);
      ElectHost();
      HostIsLeastStanding(peers, defaultRole, masterGuid);
    }

    /**
     * elect_role_to_driver: refused exactly when an eligible driver exists. Otherwise this peer drives, says
     * so and asks for an election, which seats a host exactly when this peer can hold the seat.
     */
    method ElectRoleToDriver() returns (granted: bool)
      requires Valid()
      modifies this`selfRole, this`peers, this`outbox, this`electionRequested
      ensures Valid()
      ensures granted <==> forall e | e in old(peers) :: !MayHost(e.peer, defaultRole)
      ensures !granted ==> selfRole == old(selfRole) && peers == old(peers) && outbox == old(outbox)
                           && electionRequested == old(electionRequested)
      ensures granted ==>
                && selfRole == Driver && electionRequested && outbox == old(outbox) + [PeerAnnounce(selfGuid, Driver)]
                && (var me := Lookup(old(peers), selfGuid);
                    (exists e :: e in peers && MayHost(e.peer, defaultRole)) <==> me.Some? && me.value.canHost)
    {
      DriverStandsIff(peers, defaultRole);
      if HasEligibleDriver(peers, defaultRole) {
        return false;
      }
      HostIsLeastStanding(peers, defaultRole, None);
      selfRole := Driver;
      var me := Lookup(peers, selfGuid);
      if me.Some? {
        PutRewritesOneEntry(peers, selfGuid, me.value.(role := Declared(Driver)));
        ghost var before := peers;
        peers := Put(peers, selfGuid, me.value.(role := Declared(Driver)));
        assert forall g | g != selfGuid :: Standing(peers, defaultRole, g) == Standing(before, defaultRole, g);
        assert Standing(peers, defaultRole, selfGuid).Some? <==> me.value.canHost;
      }
      HostIsLeastStanding(peers, defaultRole, None);
      DriverStandsIff(peers, defaultRole);
      outbox := outbox + [PeerAnnounce(selfGuid, Driver)];
      electionRequested := true;
      return true;
    }

    /** _drain_host_elections. */
    method DrainHostElections()
      requires Valid()
      modifies this`electionRequested, this`hostGuid, this`isHost
      ensures Valid() && !electionRequested
      ensures hostGuid == if old(electionRequested) then ElectHostGuid(peers, defaultRole, masterGuid) else old(hostGuid)
    {
      if electionRequested {
        electionRequested := false;
        ElectHost();
      }
    }

    // ---------------------------------------------------------------- gated broadcasts

    /** Whether the visibility gate lets this peer's fields pass. */
    predicate HoldsVisibility(now: Instant)
      requires Visibility in leases
      reads this, leases.Values
    {
      var owner := Settled(Visibility, leases[Visibility].View(), now).owner;
      owner == Some(selfGuid) || (owner.None? && isHost)
    }

    predicate HoldsPosition(now: Instant)
      requires Position in leases
      reads this, leases.Values
    {
      Settled(Position, leases[Position].View(), now).owner == Some(selfGuid)
    }

    method EnforceVisibility(state: Fields, now: Instant) returns (out: Passed)
      requires Valid()
      modifies leases[Visibility]
      ensures Valid()
      ensures out == VisibilityPass(state, old(HoldsVisibility(now)))
      ensures OnlyLease(Visibility, if Asserts(state, VISIBILITY_FIELDS)
                                    then Settled(Visibility, old(LeaseOf(Visibility)), now)
                                    else old(LeaseOf(Visibility)))
    {
      if !Asserts(state, VISIBILITY_FIELDS) {
        return Passed(state, Sent);
      }
      var owns := OwnsChannel(Visibility, now);
      if owns {
        return Passed(state, Sent);
      }
      if leases[Visibility].ownerGuid.None? && isHost {
        return Passed(state, Sent);
      }
      return Passed(Strip(state, VISIBILITY_FIELDS), Suppressed);
    }

    method EnforcePosition(before: Passed, now: Instant) returns (out: Passed)
      requires Valid()
      modifies leases[Position]
      ensures Valid()
      ensures out == PositionPass(before, old(HoldsPosition(now)))
      ensures var settled := Settled(Position, old(LeaseOf(Position)), now);
              OnlyLease(Position, if old(HoldsPosition(now)) then Confirmed(Position, settled, now) else settled)
    {
      var owns := OwnsChannel(Position, now);
      if owns {
        leases[Position].RefreshConfirmed(now);
        return before;
      }
      if !Asserts(before.state, POSITION_FIELDS) {
        return before;
      }
      return Passed(Strip(before.state, POSITION_FIELDS), Suppressed);
    }

    /** The two lease-gated passes, the second only where the role permits position at all. */
    method EnforceLeases(state: Fields, now: Instant) returns (out: Passed)
      requires Valid()
      modifies leases[Visibility], leases[Position]
      ensures Valid()
      ensures var seen := VisibilityPass(state, old(HoldsVisibility(now)));
              out == if RolePermits(selfRole, PositionGroup) then PositionPass(seen, old(HoldsPosition(now))) else seen
      ensures LeaseOf(Position) == old(PositionAfterPasses(now))
      ensures LeaseOf(Visibility) == if Asserts(state, VISIBILITY_FIELDS)
                                     then Settled(Visibility, old(LeaseOf(Visibility)), now)
                                     else old(LeaseOf(Visibility))
      ensures forall c: Channel | c == Display || c == Structure :: LeaseOf(c) == old(LeaseOf(c))
    {
      out := EnforceVisibility(state, now);
      if RolePermits(selfRole, PositionGroup) {
        out := EnforcePosition(out, now);
      }
    }

    /** The position lease after the passes: confirmed for a permitted holder, settled for a permitted other. */
    function PositionAfterPasses(now: Instant): (l: Lease)
      requires Position in leases
      reads this, leases.Values
      ensures selfRole == Viewer ==> l == LeaseOf(Position)
      ensures selfRole != Viewer ==>
                var settled := Settled(Position, LeaseOf(Position), now);
                l == if settled.owner == Some(selfGuid) then settled.(deadline := Some(now + 1.0), confirmed := true) else settled
    {
      var settled := Settled(Position, LeaseOf(Position), now);
      if !RolePermits(selfRole, PositionGroup) then LeaseOf(Position)
      else if settled.owner == Some(selfGuid) then Confirmed(Position, settled, now)
      else settled
    }

    /** Everything after the message is complete: the role pass, the lease passes, the send. */
    method EmitPlayback(state: Fields, now: Instant) returns (out: Outgoing)
      requires Valid()
      modifies this`outbox, this`playbackState, leases[Visibility], leases[Position]
      ensures Valid()
      ensures out == Enforced(state, selfRole, old(HoldsVisibility(now)), old(HoldsPosition(now)))
      ensures out.state.None? ==> outbox == old(outbox) && playbackState == old(playbackState)
      ensures out.state.Some? ==>
                outbox == old(outbox) + [PlaybackSettings(WirePayload(out.state.value))] && playbackState == out.state.value
      ensures LeaseOf(Position) == old(if out.state.Some? then PositionAfterPasses(now) else LeaseOf(Position))
      ensures LeaseOf(Visibility) == old(LeaseOf(Visibility))
              || LeaseOf(Visibility) == Settled(Visibility, old(LeaseOf(Visibility)), now)
      ensures forall c: Channel | c == Display || c == Structure :: LeaseOf(c) == old(LeaseOf(c))
    {
      var byRole := StripRole(state, selfRole);
      if Emptied(state, byRole) {
        return Outgoing(None, Suppressed, false);
      }
      var passed := EnforceLeases(byRole, now);
      var status := if |byRole| != |state| then Suppressed else passed.status;
      outbox := outbox + [PlaybackSettings(WirePayload(passed.state))];
      playbackState := passed.state;
      out := Outgoing(Some(passed.state), status,
                      RolePermits(selfRole, PositionGroup) && leases[Position].ownerGuid == Some(selfGuid));
    }

    /** The complete message through all passes. */
    method EmitCompleted(state: Fields, timeline: Option<Guid>, wall: real, now: Instant) returns (out: Outgoing)
      requires Valid()
      modifies this`outbox, this`playbackState, leases[Visibility], leases[Position]
      ensures Valid()
      ensures out == Enforced(Completed(state, timeline, activeTimelineGuid, wall), selfRole,
                              old(HoldsVisibility(now)), old(HoldsPosition(now)))
      ensures out.state.None? ==> outbox == old(outbox) && playbackState == old(playbackState)
      ensures out.state.Some? ==>
                outbox == old(outbox) + [PlaybackSettings(WirePayload(out.state.value))] && playbackState == out.state.value
      ensures LeaseOf(Position) == old(if out.state.Some? then PositionAfterPasses(now) else LeaseOf(Position))
      ensures LeaseOf(Visibility) == old(LeaseOf(Visibility))
              || LeaseOf(Visibility) == Settled(Visibility, old(LeaseOf(Visibility)), now)
      ensures forall c: Channel | c == Display || c == Structure :: LeaseOf(c) == old(LeaseOf(c))
      ensures var onScreen := Settled(Visibility, old(LeaseOf(Visibility)), now).owner;
              var position := Settled(Position, old(LeaseOf(Position)), now).owner;
              out.state.Some? ==>
                Speaks(WirePayload(out.state.value), state, timeline, activeTimelineGuid, wall, selfRole,
                       onScreen == Some(selfGuid) || (onScreen.None? && isHost), position == Some(selfGuid))
    {
      out := EmitPlayback(Completed(state, timeline, activeTimelineGuid, wall), now);
      if out.state.Some? {
        CompletedSpeaks(state, timeline, activeTimelineGuid, wall, selfRole,
                        old(HoldsVisibility(now)), old(HoldsPosition(now)));
      }
    }

    method BroadcastPlaybackState(state: Fields, timeline: Option<Guid>, wall: real, now: Instant)
      returns (status: Status)
      requires Valid()
      modifies this`outbox, this`playbackState, leases[Visibility], leases[Position]
      ensures Valid()
      ensures isSyncing ==> status == Suppressed && outbox == old(outbox) && playbackState == old(playbackState)
                            && forall c: Channel :: LeaseOf(c) == old(LeaseOf(c))
      ensures !isSyncing ==>
                var out := Enforced(Completed(state, timeline, activeTimelineGuid, wall), selfRole,
                                    old(HoldsVisibility(now)), old(HoldsPosition(now)));
                && status == out.status
                && outbox == old(outbox) + (if out.state.Some? then [PlaybackSettings(WirePayload(out.state.value))] else [])
                && playbackState == (if out.state.Some? then out.state.value else old(playbackState))
                && LeaseOf(Position) == old(if out.state.Some? then PositionAfterPasses(now) else LeaseOf(Position))
      ensures var onScreen := Settled(Visibility, old(LeaseOf(Visibility)), now).owner;
              var position := Settled(Position, old(LeaseOf(Position)), now).owner;
              |outbox| > |old(outbox)| ==>
                && outbox[|old(outbox)|].PlaybackSettings?
                && Speaks(outbox[|old(outbox)|].payload, state, timeline, activeTimelineGuid, wall, selfRole,
                          onScreen == Some(selfGuid) || (onScreen.None? && isHost), position == Some(selfGuid))
      ensures LeaseOf(Visibility) == old(LeaseOf(Visibility))
              || LeaseOf(Visibility) == Settled(Visibility, old(LeaseOf(Visibility)), now)
      ensures forall c: Channel | c == Display || c == Structure :: LeaseOf(c) == old(LeaseOf(c))
      ensures NothingForbidden()
    {
      if isSyncing {
        return Suppressed;
      }
      var out := EmitCompleted(state, timeline, wall, now);
      status := out.status;
      assert RolePermits(selfRole, ChannelGroup(Display));
    }

    /** broadcast_display_state: every role may emit it, so only the lease gates it. */
    method BroadcastDisplayState(settings: int, wall: real, now: Instant) returns (status: Status)
      requires Valid()
      modifies this`outbox, this`displayState, leases[Display]
      ensures Valid()
      ensures var settled := Settled(Display, old(LeaseOf(Display)), now);
              var sends := !isSyncing && settled.owner == Some(selfGuid);
              && (status == Sent <==> sends)
              && outbox == old(outbox) + (if sends then [DisplaySettings(DisplayState(settings, wall))] else [])
              && displayState == (if sends then Some(DisplayState(settings, wall)) else old(displayState))
              && OnlyLease(Display, if isSyncing then old(LeaseOf(Display))
                                    else if sends then Confirmed(Display, settled, now) else settled)
      ensures NothingForbidden()
    {
      if isSyncing {
        return Suppressed;
      }
      var owns := OwnsChannel(Display, now);
      if !owns {
        return Suppressed;
      }
      leases[Display].RefreshConfirmed(now);
      displayState := Some(DisplayState(settings, wall));
      outbox := outbox + [DisplaySettings(DisplayState(settings, wall))];
      return Sent;
    }

    /** Whether a structural broadcast is considered at all. */
    predicate StructureOpen(kind: Structural)
      reads this`sessionStatus, this`isSyncing
      ensures StructureOpen(kind) <==>
                sessionStatus == Synced
                && (!isSyncing || kind == AddTimeline || kind == RemoveTimeline || kind == ReplaceTimeline)
    {
      sessionStatus == Synced && !(ChecksSyncing(kind) && isSyncing)
    }

    /**
     * A lease-gated structural broadcast; `applies` says that there is such an object and the change to it took hold
     * locally. A change of the object graph refused for role or lease leaves this peer diverged.
     */
    method BroadcastStructure(kind: Structural, applies: bool, now: Instant) returns (status: Status, diverges: bool)
      requires Valid()
      modifies this`outbox, leases[Structure]
      ensures Valid()
      ensures var permitted := selfRole == Driver;
              var settled := Settled(Structure, old(LeaseOf(Structure)), now);
              var sends := StructureOpen(kind) && permitted && settled.owner == Some(selfGuid) && applies;
              && (status == Sent <==> sends)
              && (diverges <==> (kind == MoveChild || kind == RemoveChild) && StructureOpen(kind)
                                && !(permitted && settled.owner == Some(selfGuid)))
              && outbox == old(outbox) + (if sends then [StructureChange(kind)] else [])
              && OnlyLease(Structure, if !StructureOpen(kind) || !permitted then old(LeaseOf(Structure))
                                      else if sends then Confirmed(Structure, settled, now) else settled)
      ensures NothingForbidden()
    {
      if sessionStatus != Synced || (ChecksSyncing(kind) && isSyncing) {
        return Suppressed, false;
      }
      if !RolePermits(selfRole, StructureGroup) {
        return Suppressed, DivergesIfRefused(kind);
      }
      var owns := OwnsChannel(Structure, now);
      if !owns {
        return Suppressed, DivergesIfRefused(kind);
      }
      if !applies {
        return Suppressed, false;
      }
      leases[Structure].RefreshConfirmed(now);
      outbox := outbox + [StructureChange(kind)];
      return Sent, false;
    }
  }
}
