// Host election over the peer table: python/otio_sync_core/authority.py.
module HostElection {
  import opened Basics
  import opened Authority

  datatype App = XStudio | OpenRv | OtherApp(name: string)

  datatype Peer = Peer(app: App, canHost: bool, role: DeclaredRole)

  /** The peer table in the order it lists its entries. */
  datatype Entry = Entry(guid: Guid, peer: Peer)
  type Table = seq<Entry>

  ghost predicate KeysDistinct(t: Table) {
    forall i, j | 0 <= i < j < |t| :: t[i].guid != t[j].guid
  }

  function Lookup(t: Table, guid: Guid): Option<Peer> {
    if t == [] then None
    else if t[0].guid == guid then Some(t[0].peer)
    else Lookup(t[1..], guid)
  }

  /** Rewrite an entry in place, or add it at the end. */
  function Put(t: Table, guid: Guid, peer: Peer): Table {
    if t == [] then [Entry(guid, peer)]
    else if t[0].guid == guid then [Entry(guid, peer)] + t[1..]
    else [t[0]] + Put(t[1..], guid, peer)
  }

  function Drop(t: Table, guid: Guid): Table {
    if t == [] then []
    else if t[0].guid == guid then t[1..]
    else [t[0]] + Drop(t[1..], guid)
  }

  lemma {:induction false} LookupFinds(t: Table, i: nat)
    requires KeysDistinct(t) && i < |t|
    ensures Lookup(t, t[i].guid) == Some(t[i].peer)
  {
    if i > 0 {
      assert t[0].guid != t[i].guid;
      LookupFinds(t[1..], i - 1);
    }
  }

  lemma {:induction false} LookupIsEntry(t: Table, guid: Guid)
    ensures Lookup(t, guid).Some? ==> Entry(guid, Lookup(t, guid).value) in t
    ensures Lookup(t, guid).None? ==> forall e | e in t :: e.guid != guid
  {
    if t != [] && t[0].guid != guid {
      LookupIsEntry(t[1..], guid);
    }
  }

  lemma {:induction false} PutRewritesOneEntry(t: Table, guid: Guid, peer: Peer)
    requires KeysDistinct(t)
    ensures KeysDistinct(Put(t, guid, peer))
    ensures forall g :: Lookup(Put(t, guid, peer), g) == if g == guid then Some(peer) else Lookup(t, g)
    ensures forall e | e in Put(t, guid, peer) :: e in t || e.guid == guid
  {
    if t != [] && t[0].guid != guid {
      PutRewritesOneEntry(t[1..], guid, peer);
      assert forall e | e in Put(t[1..], guid, peer) :: e.guid != t[0].guid;
    }
  }

  lemma {:induction false} DropKeepsDistinct(t: Table, guid: Guid)
    requires KeysDistinct(t)
    ensures KeysDistinct(Drop(t, guid))
    ensures forall e | e in Drop(t, guid) :: e in t
  {
    if t != [] && t[0].guid != guid {
      var rest := Drop(t[1..], guid);
      DropKeepsDistinct(t[1..], guid);
      forall k | 0 <= k < |rest| ensures rest[k].guid != t[0].guid {
        assert rest[k] in t[1..];
      }
    }
  }

  lemma {:induction false} DropForgetsOneEntry(t: Table, guid: Guid, g: Guid)
    requires KeysDistinct(t)
    ensures Lookup(Drop(t, guid), g) == if g == guid then None else Lookup(t, g)
  {
    if t != [] && t[0].guid == guid {
      LookupIsEntry(t[1..], guid);
    } else if t != [] {
      DropForgetsOneEntry(t[1..], guid, g);
    }
  }

  // ------------------------------------------------------------------ the election

  function HostRank(app: App): nat {
    match app
    case XStudio => 0
    case OpenRv => 1
    case OtherApp(_) => 2
  }

  function PeerRole(peer: Peer, defaultRole: Role): Role {
    if peer.role == Absent then defaultRole else NormaliseRole(peer.role)
  }

  /** The preference between two peers that claim to be master: a driver before anyone else. */
  function MasterRank(peer: Option<Peer>, defaultRole: Role): nat {
    var role := if peer.Some? then PeerRole(peer.value, defaultRole) else defaultRole;
    if role == Driver then 0 else 1
  }

  predicate Eligible(peer: Peer, defaultRole: Role) {
    peer.canHost && RolePermits(PeerRole(peer, defaultRole), VisibilityGroup)
  }

  datatype Candidate = Candidate(rank: nat, guid: Guid)

  function HostCandidates(t: Table, defaultRole: Role): seq<Candidate> {
    if t == [] then []
    else (if Eligible(t[0].peer, defaultRole) then [Candidate(HostRank(t[0].peer.app), t[0].guid)] else [])
         + HostCandidates(t[1..], defaultRole)
  }

  /** Application rank, then the master, then the lower GUID. */
  predicate Precedes(a: Candidate, b: Candidate, master: Option<Guid>) {
    if a.rank != b.rank then a.rank < b.rank
    else if (Some(a.guid) == master) != (Some(b.guid) == master) then Some(a.guid) == master
    else a.guid < b.guid
  }

  function Least(cs: seq<Candidate>, master: Option<Guid>): Candidate
    requires cs != []
  {
    if |cs| == 1 then cs[0]
    else
      var rest := Least(cs[1..], master);
      if Precedes(rest, cs[0], master) then rest else cs[0]
  }

  function ElectHostGuid(t: Table, defaultRole: Role, master: Option<Guid>): Option<Guid> {
    var cs := HostCandidates(t, defaultRole);
    if cs == [] then None else Some(Least(cs, master).guid)
  }

  predicate HasEligibleDriver(t: Table, defaultRole: Role) {
    HostCandidates(t, defaultRole) != []
  }

  /** What a peer stands for in an election, if it may stand at all. */
  function Standing(t: Table, defaultRole: Role, guid: Guid): Option<Candidate> {
    var p := Lookup(t, guid);
    if p.Some? && Eligible(p.value, defaultRole) then Some(Candidate(HostRank(p.value.app), guid)) else None
  }

  lemma {:induction false} CandidatesAreStandings(t: Table, defaultRole: Role)
    requires KeysDistinct(t)
    ensures forall c :: c in HostCandidates(t, defaultRole) <==> Standing(t, defaultRole, c.guid) == Some(c)
  {
    if t != [] {
      CandidatesAreStandings(t[1..], defaultRole);
      LookupIsEntry(t[1..], t[0].guid);
    }
  }

  lemma {:induction false} LeastIsLeast(cs: seq<Candidate>, master: Option<Guid>)
    requires cs != []
    ensures Least(cs, master) in cs
    ensures forall c | c in cs :: !Precedes(c, Least(cs, master), master)
  {
    if |cs| > 1 {
      LeastIsLeast(cs[1..], master);
      assert forall c | c in cs :: c == cs[0] || c in cs[1..];
    }
  }

  /** The host is a standing peer no other standing peer precedes, and there is one unless nobody stands. */
  lemma HostIsLeastStanding(t: Table, defaultRole: Role, master: Option<Guid>)
    requires KeysDistinct(t)
    ensures var host := ElectHostGuid(t, defaultRole, master);
            && (host.Some? <==> HasEligibleDriver(t, defaultRole))
            && (host.None? <==> forall g :: Standing(t, defaultRole, g).None?)
            && (host.Some? ==>
                  && Standing(t, defaultRole, host.value).Some?
                  && forall g :: Standing(t, defaultRole, g).Some? ==>
                       !Precedes(Standing(t, defaultRole, g).value, Standing(t, defaultRole, host.value).value, master))
  {
    CandidatesAreStandings(t, defaultRole);
    var cs := HostCandidates(t, defaultRole);
    if cs != [] {
      LeastIsLeast(cs, master);
      assert cs[0] in cs;
    }
    forall g | Standing(t, defaultRole, g).Some?
      ensures Standing(t, defaultRole, g).value in cs
    {
    }
  }

  /** A driver by declaration, or for want of one where drivers are the default. A role nobody knows counts as a driver's. */
  predicate Drives(role: DeclaredRole, defaultRole: Role) {
    role == Declared(Driver) || role == Unrecognised || (role == Absent && defaultRole == Driver)
  }

  predicate MayHost(peer: Peer, defaultRole: Role) {
    peer.canHost && Drives(peer.role, defaultRole)
  }

  /** Of two that claim to be master, the one that drives is preferred to the one that does not; else neither is. */
  lemma PrefersDriver(a: Option<Peer>, b: Option<Peer>, defaultRole: Role)
    ensures MasterRank(a, defaultRole) < MasterRank(b, defaultRole) <==>
              && Drives(if a.Some? then a.value.role else Absent, defaultRole)
              && !Drives(if b.Some? then b.value.role else Absent, defaultRole)
  {
  }

  /** XStudio before OpenRV, and OpenRV before anything else. */
  predicate AppAhead(a: App, b: App) {
    (a.XStudio? && !b.XStudio?) || (a.OpenRv? && b.OtherApp?)
  }

  /** Who is ahead for the seat: by application, then the master, then the lower GUID. */
  predicate SeatAhead(a: Entry, b: Entry, master: Option<Guid>) {
    || AppAhead(a.peer.app, b.peer.app)
    || (!AppAhead(b.peer.app, a.peer.app)
        && (master == Some(a.guid) || (master != Some(b.guid) && a.guid < b.guid)))
  }

  lemma EligibleMayHost(peer: Peer, defaultRole: Role)
    ensures Eligible(peer, defaultRole) <==> MayHost(peer, defaultRole)
  {
  }

  lemma RankIsAhead(a: App, b: App)
    ensures HostRank(a) < HostRank(b) <==> AppAhead(a, b)
    ensures HostRank(a) == HostRank(b) <==> !AppAhead(a, b) && !AppAhead(b, a)
  {
  }

  lemma StandingIsEntry(t: Table, defaultRole: Role, e: Entry)
    requires KeysDistinct(t) && e in t
    ensures Standing(t, defaultRole, e.guid)
         == if MayHost(e.peer, defaultRole) then Some(Candidate(HostRank(e.peer.app), e.guid)) else None
  {
    var i :| 0 <= i < |t| && t[i] == e;
    LookupFinds(t, i);
    EligibleMayHost(e.peer, defaultRole);
  }

  /** The host is the entry that is ahead of every other that may host. */
  lemma {:induction false} HostIsAhead(t: Table, defaultRole: Role, master: Option<Guid>, e: Entry)
    requires KeysDistinct(t) && e in t
    ensures ElectHostGuid(t, defaultRole, master) == Some(e.guid) <==>
              && MayHost(e.peer, defaultRole)
              && forall d | d in t && d.guid != e.guid && MayHost(d.peer, defaultRole) :: SeatAhead(e, d, master)
  {
    HostIsLeastStanding(t, defaultRole, master);
    StandingIsEntry(t, defaultRole, e);
    var host := ElectHostGuid(t, defaultRole, master);
    if host.Some? {
      LookupIsEntry(t, host.value);
      var h := Entry(host.value, Lookup(t, host.value).value);
      StandingIsEntry(t, defaultRole, h);
      forall d | d in t && d.guid != h.guid && MayHost(d.peer, defaultRole)
        ensures SeatAhead(h, d, master) && !SeatAhead(d, h, master)
      {
        StandingIsEntry(t, defaultRole, d);
        RankIsAhead(h.peer.app, d.peer.app);
        RankIsAhead(d.peer.app, h.peer.app);
      }
      if h.guid == e.guid {
        OneEntryEach(t, h, e);
      }
    }
  }

  lemma OneEntryEach(t: Table, d: Entry, e: Entry)
    requires KeysDistinct(t) && d in t && e in t && d.guid == e.guid
    ensures d == e
  {
  }

  lemma {:induction false} DriverStandsIff(t: Table, defaultRole: Role)
    ensures HasEligibleDriver(t, defaultRole) <==> exists e :: e in t && MayHost(e.peer, defaultRole)
  {
    if t != [] {
      DriverStandsIff(t[1..], defaultRole);
      EligibleMayHost(t[0].peer, defaultRole);
      assert t[0] in t && forall e | e in t :: e == t[0] || e in t[1..];
    }
  }

  /** Tables that list the same peers in any order elect the same host. */
  lemma ElectionIgnoresTableOrder(t: Table, u: Table, defaultRole: Role, master: Option<Guid>)
    requires KeysDistinct(t) && KeysDistinct(u)
    requires forall g :: Lookup(t, g) == Lookup(u, g)
    ensures ElectHostGuid(t, defaultRole, master) == ElectHostGuid(u, defaultRole, master)
  {
    HostIsLeastStanding(t, defaultRole, master);
    HostIsLeastStanding(u, defaultRole, master);
    var h, k := ElectHostGuid(t, defaultRole, master), ElectHostGuid(u, defaultRole, master);
    assert forall g :: Standing(t, defaultRole, g) == Standing(u, defaultRole, g);
    if h.Some? && k.Some? {
      assert Standing(t, defaultRole, h.value).Some? && Standing(t, defaultRole, k.value).Some?;
    }
  }

  /**
   * A newcomer takes the seat from an elected master exactly when it is eligible and its application is
   * strictly better ranked; a lower GUID never does it.
   */
  lemma NewcomerUnseatsMasterIff(
    t: Table, defaultRole: Role, master: Guid, incumbent: Peer, newcomer: Guid, peer: Peer)
    requires KeysDistinct(t) && Lookup(t, newcomer).None? && Lookup(t, master) == Some(incumbent)
    requires ElectHostGuid(t, defaultRole, Some(master)) == Some(master)
    ensures ElectHostGuid(Put(t, newcomer, peer), defaultRole, Some(master)) !=  Some(master)
            <==> MayHost(peer, defaultRole) && AppAhead(peer.app, incumbent.app)
  {
    var u := Put(t, newcomer, peer);
    PutRewritesOneEntry(t, newcomer, peer);
    HostIsLeastStanding(t, defaultRole, Some(master));
    HostIsLeastStanding(u, defaultRole, Some(master));
    EligibleMayHost(peer, defaultRole);
    RankIsAhead(peer.app, incumbent.app);
    var h := ElectHostGuid(u, defaultRole, Some(master));
    assert Standing(u, defaultRole, master) == Some(Candidate(HostRank(incumbent.app), master));
    assert forall g | g != newcomer :: Standing(u, defaultRole, g) == Standing(t, defaultRole, g);
    if Eligible(peer, defaultRole) {
      assert Standing(u, defaultRole, newcomer) == Some(Candidate(HostRank(peer.app), newcomer));
    }
  }

  // ------------------------------------------------------------------ announcements

  datatype Announcement = Announcement(guid: Guid, app: App, canHost: bool, role: DeclaredRole)

  /** The entry an announcement leaves: an undeclared role keeps the role already known. */
  function AnnouncedPeer(known: Option<Peer>, a: Announcement): Peer {
    var role :=
      if a.role != Absent then Declared(NormaliseRole(a.role))
      else if known.Some? then known.value.role
      else Absent;
    Peer(a.app, a.canHost, role)
  }

  function Announced(t: Table, a: Announcement): Table {
    Put(t, a.guid, AnnouncedPeer(Lookup(t, a.guid), a))
  }

  function AllAnnounced(t: Table, batch: seq<Announcement>): Table {
    if batch == [] then t
    else Announced(AllAnnounced(t, batch[..|batch| - 1]), batch[|batch| - 1])
  }

  ghost predicate SendersDistinct(batch: seq<Announcement>) {
    forall i, j | 0 <= i < j < |batch| :: batch[i].guid != batch[j].guid
  }

  lemma {:induction false} AnnouncementsMeet(t: Table, batch: seq<Announcement>, guid: Guid)
    requires KeysDistinct(t) && SendersDistinct(batch)
    ensures KeysDistinct(AllAnnounced(t, batch))
    ensures (forall a | a in batch :: a.guid != guid) ==> Lookup(AllAnnounced(t, batch), guid) == Lookup(t, guid)
    ensures forall a | a in batch && a.guid == guid ::
              Lookup(AllAnnounced(t, batch), guid) == Some(AnnouncedPeer(Lookup(t, guid), a))
  {
    var n := |batch| - 1;
    if n >= 0 {
      var init, last := batch[..n], batch[n];
      AnnouncementsMeet(t, init, guid);
      AnnouncementsMeet(t, init, last.guid);
      PutRewritesOneEntry(AllAnnounced(t, init), last.guid, AnnouncedPeer(Lookup(AllAnnounced(t, init), last.guid), last));
      assert forall a | a in init :: a.guid != last.guid;
      assert forall a | a in batch :: a in init || a == last;
    }
  }

  /** Announcements of distinct peers may arrive in any order: the elected host is the same. */
  lemma AnnouncementOrderIrrelevant(
    t: Table, one: seq<Announcement>, other: seq<Announcement>, defaultRole: Role, master: Option<Guid>)
    requires KeysDistinct(t) && SendersDistinct(one) && SendersDistinct(other)
    requires forall a :: a in one <==> a in other
    ensures ElectHostGuid(AllAnnounced(t, one), defaultRole, master)
            == ElectHostGuid(AllAnnounced(t, other), defaultRole, master)
  {
    var u, v := AllAnnounced(t, one), AllAnnounced(t, other);
    AnnouncementsMeet(t, one, 0);
    AnnouncementsMeet(t, other, 0);
    forall g ensures Lookup(u, g) == Lookup(v, g) {
      AnnouncementsMeet(t, one, g);
      AnnouncementsMeet(t, other, g);
      if a :| a in one && a.guid == g {
        assert a in other;
      }
    }
    ElectionIgnoresTableOrder(u, v, defaultRole, master);
  }

  // ------------------------------------------------------------------ a snapshot's roster

  /** adopt_peers for one roster entry: a stranger is learnt, a known peer only has a missing role filled in. */
  function RosterPeerAdopted(t: Table, self: Guid, e: Entry): Table {
    var known := Lookup(t, e.guid);
    var role := if e.peer.role == Absent then Absent else Declared(NormaliseRole(e.peer.role));
    if e.guid == self then t
    else if known.None? then Put(t, e.guid, e.peer.(role := role))
    else if e.peer.role != Absent && known.value.role == Absent then Put(t, e.guid, known.value.(role := role))
    else t
  }

  function RosterAdopted(t: Table, self: Guid, roster: Table): Table {
    if roster == [] then t
    else RosterPeerAdopted(RosterAdopted(t, self, roster[..|roster| - 1]), self, roster[|roster| - 1])
  }

  /**
   * What was heard first-hand outranks the roster: every known peer keeps its application, capability and
   * declared role, and this peer's own entry is untouched. A peer the roster does not list stays as it was.
   */
  lemma {:induction false} RosterOnlyFillsGaps(t: Table, self: Guid, roster: Table, g: Guid)
    requires KeysDistinct(t)
    ensures var before, after := Lookup(t, g), Lookup(RosterAdopted(t, self, roster), g);
            && KeysDistinct(RosterAdopted(t, self, roster))
            && (g == self ==> after == before)
            && (before.Some? ==>
                  && after.Some? && after.value.app == before.value.app && after.value.canHost == before.value.canHost
                  && (before.value.role != Absent ==> after == before))
            && (after.Some? <==> before.Some? || (g != self && exists e | e in roster :: e.guid == g))
  {
    var n := |roster| - 1;
    if n >= 0 {
      RosterOnlyFillsGaps(t, self, roster[..n], g);
      var mid, e := RosterAdopted(t, self, roster[..n]), roster[n];
      var known := Lookup(mid, e.guid);
      var role := if e.peer.role == Absent then Absent else Declared(NormaliseRole(e.peer.role));
      PutRewritesOneEntry(mid, e.guid, e.peer.(role := role));
      if known.Some? {
        PutRewritesOneEntry(mid, e.guid, known.value.(role := role));
      }
      assert forall x | x in roster :: x in roster[..n] || x == e;
    }
  }
}
