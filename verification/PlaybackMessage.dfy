// The playback message and the three passes that strip it before it is sent:
// python/otio_sync_core/authority.py and manager.py, broadcast_playback_state.
module PlaybackMessage {
  import opened Basics
  import opened Authority

  datatype Field =
    | CurrentTime | Playing | PlaybackMode | ViewMode | ClipGuid
    | TimelineGuid | SyncTimestamp | Extra(name: string)

  /** A field may be present and null, which is not the same as absent. */
  datatype Value = Null | Json(text: string) | Ref(guid: Guid) | Stamp(t: real)

  type Fields = map<Field, Value>

  const VISIBILITY_FIELDS: set<Field> := {ViewMode, ClipGuid}
  const POSITION_FIELDS: set<Field> := {CurrentTime, Playing, PlaybackMode}

  datatype Status = Sent | Suppressed

  predicate Asserts(state: Fields, group: set<Field>) {
    exists f | f in group :: f in state && state[f] != Null
  }

  function Strip(state: Fields, group: set<Field>): Fields {
    map f | f in state && f !in group :: state[f]
  }

  function StripRole(state: Fields, role: Role): Fields {
    var out := if RolePermits(role, VisibilityGroup) then state else Strip(state, VISIBILITY_FIELDS);
    if RolePermits(role, PositionGroup) then out else Strip(out, POSITION_FIELDS)
  }

  /** A state on its way out, with the status so far. */
  datatype Passed = Passed(state: Fields, status: Status)

  function VisibilityPass(state: Fields, holds: bool): Passed {
    if Asserts(state, VISIBILITY_FIELDS) && !holds then Passed(Strip(state, VISIBILITY_FIELDS), Suppressed)
    else Passed(state, Sent)
  }

  function PositionPass(before: Passed, holds: bool): Passed {
    if !holds && Asserts(before.state, POSITION_FIELDS) then Passed(Strip(before.state, POSITION_FIELDS), Suppressed)
    else before
  }

  /** The role takes whole groups away and leaves nothing to say. */
  predicate Emptied(state: Fields, byRole: Fields) {
    |byRole| != |state| && !Asserts(byRole, POSITION_FIELDS) && !Asserts(byRole, VISIBILITY_FIELDS)
  }

  /** What goes out: nothing at all, or `state` with a status; and whether the position lease was confirmed. */
  datatype Outgoing = Outgoing(state: Option<Fields>, status: Status, confirmsPosition: bool)

  /**
   * The three passes in their order. `holdsVisibility` says this peer holds the visibility lease, or it is
   * free and this peer is host; `holdsPosition` says this peer holds the position lease.
   */
  function Enforced(state: Fields, role: Role, holdsVisibility: bool, holdsPosition: bool): Outgoing {
    var byRole := StripRole(state, role);
    if Emptied(state, byRole) then Outgoing(None, Suppressed, false)
    else
      var seen := VisibilityPass(byRole, holdsVisibility);
      var out := if RolePermits(role, PositionGroup) then PositionPass(seen, holdsPosition) else seen;
      Outgoing(Some(out.state), if |byRole| != |state| then Suppressed else out.status,
               RolePermits(role, PositionGroup) && holdsPosition)
  }

  /** The wire form: a null in a modelled field is left out, extra fields travel as they are. */
  function WirePayload(state: Fields): Fields {
    map f | f in state && (f.Extra? || state[f] != Null) :: state[f]
  }

  // ------------------------------------------------------------------ what reaches the wire

  /** The group's non-null fields all travel unchanged. */
  ghost predicate TravelsWhole(wire: Fields, state: Fields, group: set<Field>) {
    forall f | f in group :: (f in wire <==> f in state && state[f] != Null) && (f in wire ==> wire[f] == state[f])
  }

  ghost predicate TravelsNotAtAll(wire: Fields, group: set<Field>) {
    forall f | f in group :: f !in wire
  }

  lemma {:induction false} StripCounts(state: Fields, group: set<Field>)
    ensures |Strip(state, group)| <= |state|
    ensures |Strip(state, group)| == |state| <==> Strip(state, group) == state
    ensures Strip(state, group) == state <==> forall f | f in group :: f !in state
  {
    var out := Strip(state, group);
    assert out.Keys <= state.Keys;
    SubsetSize(out.Keys, state.Keys);
    assert |out| == |out.Keys| && |state| == |state.Keys|;
    if out.Keys == state.Keys {
      assert out == state;
    }
    if f :| f in group && f in state {
      assert f !in out;
    }
  }

  lemma {:induction false} SubsetSize(a: set<Field>, b: set<Field>)
    requires a <= b
    ensures |a| <= |b| && (|a| == |b| <==> a == b)
  {
    if f :| f in a {
      SubsetSize(a - {f}, b - {f});
      assert a - {f} == b - {f} <==> a == b;
    } else {
      assert a == {};
    }
  }

  lemma RoleStripCounts(state: Fields, role: Role)
    ensures |StripRole(state, role)| == |state| <==> StripRole(state, role) == state
    ensures forall f :: f in StripRole(state, role) <==>
                        && f in state
                        && (f in VISIBILITY_FIELDS ==> role == Driver)
                        && (f in POSITION_FIELDS ==> role != Viewer)
    ensures forall f | f in StripRole(state, role) :: StripRole(state, role)[f] == state[f]
  {
    var out := if RolePermits(role, VisibilityGroup) then state else Strip(state, VISIBILITY_FIELDS);
    StripCounts(state, VISIBILITY_FIELDS);
    StripCounts(out, POSITION_FIELDS);
  }

  /**
   * Authority on the wire. Each of the two field groups survives whole or not at all, a group with anything
   * to say survives exactly when role and gate both allow it, and every other field is untouched.
   */
  lemma WireAuthority(state: Fields, role: Role, holdsVisibility: bool, holdsPosition: bool)
    requires Enforced(state, role, holdsVisibility, holdsPosition).state.Some?
    ensures var wire := WirePayload(Enforced(state, role, holdsVisibility, holdsPosition).state.value);
            && (if role == Driver && holdsVisibility
                then TravelsWhole(wire, state, VISIBILITY_FIELDS) else TravelsNotAtAll(wire, VISIBILITY_FIELDS))
            && (if role != Viewer && holdsPosition
                then TravelsWhole(wire, state, POSITION_FIELDS) else TravelsNotAtAll(wire, POSITION_FIELDS))
            && (forall f | f !in VISIBILITY_FIELDS && f !in POSITION_FIELDS ::
                  (f in wire <==> f in WirePayload(state)) && (f in wire ==> wire[f] == state[f]))
  {
  }

  /**
   * The message is withheld exactly when the role took a field away and left neither group asserting
   * anything; the status is SENT exactly when the message goes out as given; and the position lease is
   * confirmed exactly by a message that goes out from a permitted holder.
   */
  lemma StatusTellsTheTruth(state: Fields, role: Role, holdsVisibility: bool, holdsPosition: bool)
    ensures var out := Enforced(state, role, holdsVisibility, holdsPosition);
            && (out.state.None? <==>
                  && (exists f | f in state :: || (f in VISIBILITY_FIELDS && role != Driver)
                                               || (f in POSITION_FIELDS && role == Viewer))
                  && !(role == Driver && Asserts(state, VISIBILITY_FIELDS))
                  && !(role != Viewer && Asserts(state, POSITION_FIELDS)))
            && (out.status == Sent <==> out.state == Some(state))
            && (out.confirmsPosition <==>
                  out.state.Some? && role != Viewer && holdsPosition)
  {
    RoleStripCounts(state, role);
    var byRole := StripRole(state, role);
    assert Asserts(byRole, VISIBILITY_FIELDS)
           <==> RolePermits(role, VisibilityGroup) && Asserts(state, VISIBILITY_FIELDS);
    assert Asserts(byRole, POSITION_FIELDS)
           <==> RolePermits(role, PositionGroup) && Asserts(state, POSITION_FIELDS);
    assert byRole != state <==> exists f | f in state :: f !in byRole by {
      if forall f | f in state :: f in byRole {
        assert byRole.Keys == state.Keys;
        assert byRole == state;
      }
    }
    var seen := Strip(byRole, VISIBILITY_FIELDS);
    if Asserts(byRole, VISIBILITY_FIELDS) {
      var f :| f in VISIBILITY_FIELDS && f in byRole && byRole[f] != Null;
      assert f !in seen && f !in Strip(seen, POSITION_FIELDS);
    }
    if Asserts(byRole, POSITION_FIELDS) {
      var f :| f in POSITION_FIELDS && f in byRole && byRole[f] != Null;
      assert f !in Strip(byRole, POSITION_FIELDS) && f !in Strip(seen, POSITION_FIELDS);
    }
  }
}
