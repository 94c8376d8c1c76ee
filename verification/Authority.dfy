// python/otio_sync_core/authority.py: the category, role and claim tables.
module Authority {
  import opened Basics

  // ------------------------------------------------------------------ lease channels

  datatype Channel = Position | Display | Structure | Visibility

  const LEASE_CHANNELS: seq<Channel> := [Position, Display, Structure, Visibility]

  function LeaseDuration(channel: Channel): real {
    match channel
    case Display => 0.5
    case Position => 1.0
    case Structure => 2.0
    case Visibility => 3.0
  }

  const VISIBILITY_HOLDOFF: real := 1.5

  // ------------------------------------------------------------------ claims

  datatype Claim = Claim(ts: real, guid: Guid)

  /** The claim order of a channel: earlier stamp first, or later stamp first for visibility; lower GUID on a tie. */
  predicate Beats(channel: Channel, a: Claim, b: Claim) {
    if a.ts == b.ts then a.guid < b.guid
    else if channel == Visibility then a.ts > b.ts
    else a.ts < b.ts
  }

  /** Whether a claim is settled on stamps alone, so that even a confirmed holder can be preempted. */
  predicate ResolvesOnTimestampsAlone(channel: Channel) {
    channel == Visibility
  }

  function ResolveClaim(channel: Channel, current: Option<Claim>, incoming: Claim): Claim {
    if current.Some? && !Beats(channel, incoming, current.value) then current.value else incoming
  }

  predicate ClaimWithheldByHoldoff(
    channel: Channel, owner: Option<Guid>, ownerClaimTs: Option<real>, self: Guid, now: real)
  {
    && channel == Visibility
    && owner.Some? && owner.value != self && ownerClaimTs.Some?
    && now < ownerClaimTs.value + VISIBILITY_HOLDOFF
  }

  // ------------------------------------------------------------------ roles

  datatype Role = Driver | Reviewer | Viewer

  /** A role as it is carried by a peer entry or a policy: missing, a name nobody knows, or one of the three. */
  datatype DeclaredRole = Absent | Unrecognised | Declared(role: Role)

  datatype Group = VisibilityGroup | PositionGroup | DisplayGroup | StructureGroup

  const DEFAULT_ROLE: Role := Driver

  function NormaliseRole(declared: DeclaredRole): Role {
    if declared.Declared? then declared.role else DEFAULT_ROLE
  }

  predicate RolePermits(role: Role, group: Group) {
    match role
    case Driver => true
    case Reviewer => group == PositionGroup || group == DisplayGroup
    case Viewer => group == DisplayGroup
  }

  /** The role group a lease channel is claimed under. */
  function ChannelGroup(channel: Channel): Group {
    match channel
    case Position => PositionGroup
    case Display => DisplayGroup
    case Structure => StructureGroup
    case Visibility => VisibilityGroup
  }
}
