// Dropping superseded messages from a backlog: manager.py, _coalesce_payloads and receive_and_apply_all.
module Coalesce {
  import opened Basics
  import opened Timelines

  /** A view-state message's data and the two fields its handler looks at. */
  datatype ViewState = ViewState(data: int, clip: Option<Guid>, timeline: Option<Guid>)

  /** Playback messages are those of the one schema that may be collapsed; the rest are told apart no further than needed. */
  datatype Body =
    | PlaybackSet(state: ViewState)
    | PlaybackUnknown(event: int)
    | AddTimeline(t: Guid, tl: Timeline)
    | RemoveTimeline(t: Guid)
    | ReplaceTimeline(t: Guid, tl: Timeline)
    | OtherBody(content: int)

  datatype Payload = Payload(source: Guid, body: Body)

  const THRESHOLD: nat := 12

  predicate IsPlayback(p: Payload) {
    p.body.PlaybackSet? || p.body.PlaybackUnknown?
  }

  function Count(ps: seq<Payload>): nat {
    if ps == [] then 0 else Count(ps[..|ps| - 1]) + if IsPlayback(ps[|ps| - 1]) then 1 else 0
  }

  /** Where the last playback message is; the length of the batch when there is none. */
  function LastPlayback(ps: seq<Payload>): (k: nat)
    ensures k <= |ps|
    ensures k < |ps| ==> IsPlayback(ps[k]) && forall i | k < i < |ps| :: !IsPlayback(ps[i])
    ensures k == |ps| ==> forall i | 0 <= i < |ps| :: !IsPlayback(ps[i])
  {
    if ps == [] then 0
    else if IsPlayback(ps[|ps| - 1]) then |ps| - 1
    else
      var k := LastPlayback(ps[..|ps| - 1]);
      if k == |ps| - 1 then |ps| else k
  }

  function Others(ps: seq<Payload>): seq<Payload> {
    if ps == [] then []
    else Others(ps[..|ps| - 1]) + if IsPlayback(ps[|ps| - 1]) then [] else [ps[|ps| - 1]]
  }

  /** Past the threshold only the last playback message stays, at its place among the others. */
  function Coalesced(ps: seq<Payload>): seq<Payload> {
    var k := LastPlayback(ps);
    if Count(ps) <= THRESHOLD || k == |ps| then ps else Others(ps[..k]) + ps[k..]
  }

  method CoalescePayloads(payloads: seq<Payload>) returns (out: seq<Payload>)
    ensures out == Coalesced(payloads)
  {
    CountAtMost(payloads);
    if |payloads| <= 1 {
      return payloads;
    }
    var count, last := CountPlayback(payloads);
    if count <= THRESHOLD {
      return payloads;
    }
    SomePlayback(payloads);
    out := DropSuperseded(payloads, last);
  }

  method CountPlayback(payloads: seq<Payload>) returns (count: nat, last: nat)
    ensures count == Count(payloads) && last == LastPlayback(payloads)
  {
    count, last := 0, |payloads|;
    for n := 0 to |payloads|
      invariant count == Count(payloads[..n])
      invariant last == (if LastPlayback(payloads[..n]) == n then |payloads| else LastPlayback(payloads[..n]))
    {
      assert payloads[..n + 1][..n] == payloads[..n];
      if IsPlayback(payloads[n]) {
        count, last := count + 1, n;
      }
    }
    assert payloads[..|payloads|] == payloads;
  }

  method DropSuperseded(payloads: seq<Payload>, last: nat) returns (out: seq<Payload>)
    requires last < |payloads| && last == LastPlayback(payloads)
    ensures out == Others(payloads[..last]) + payloads[last..]
  {
    out := [];
    for n := 0 to |payloads|
      invariant out == KeptSoFar(payloads, last, n)
    {
      assert n < last ==> payloads[..n + 1][..n] == payloads[..n];
      if !IsPlayback(payloads[n]) || n == last {
        out := out + [payloads[n]];
      }
    }
    assert payloads[last..|payloads|] == payloads[last..];
  }

  function KeptSoFar(ps: seq<Payload>, last: nat, n: nat): seq<Payload>
    requires last <= |ps| && n <= |ps|
  {
    if n <= last then Others(ps[..n]) else Others(ps[..last]) + ps[last..n]
  }

  lemma {:induction false} CountAtMost(ps: seq<Payload>)
    ensures Count(ps) <= |ps|
  {
    if ps != [] {
      CountAtMost(ps[..|ps| - 1]);
    }
  }

  lemma {:induction false} SomePlayback(ps: seq<Payload>)
    ensures Count(ps) > 0 <==> LastPlayback(ps) < |ps|
  {
    if ps != [] {
      SomePlayback(ps[..|ps| - 1]);
    }
  }

  // ------------------------------------------------------------------ what is kept

  lemma {:induction false} OthersSplit(a: seq<Payload>, b: seq<Payload>)
    ensures Others(a + b) == Others(a) + Others(b)
    ensures Count(a + b) == Count(a) + Count(b)
  {
    if b == [] {
      assert a + b == a;
    } else {
      assert (a + b)[..|a + b| - 1] == a + b[..|b| - 1];
      OthersSplit(a, b[..|b| - 1]);
    }
  }

  lemma {:induction false} NoPlayback(ps: seq<Payload>)
    requires forall i | 0 <= i < |ps| :: !IsPlayback(ps[i])
    ensures Others(ps) == ps && Count(ps) == 0
  {
    if ps != [] {
      NoPlayback(ps[..|ps| - 1]);
    }
  }

  lemma {:induction false} OthersAreOther(ps: seq<Payload>)
    ensures forall i | 0 <= i < |Others(ps)| :: !IsPlayback(Others(ps)[i])
    ensures |Others(ps)| + Count(ps) == |ps|
  {
    if ps != [] {
      OthersAreOther(ps[..|ps| - 1]);
    }
  }

  /**
   * Coalescing keeps every other message, in order. Past the threshold exactly one playback message is left, the
   * last of the batch, behind the same messages as before; otherwise, and only then, nothing changes.
   */
  lemma CoalescingKeeps(ps: seq<Payload>)
    ensures Others(Coalesced(ps)) == Others(ps)
    ensures Coalesced(ps) == ps <==> Count(ps) <= 12
    ensures Count(ps) > 12 ==>
              var k, n := LastPlayback(ps), LastPlayback(Coalesced(ps));
              && Count(Coalesced(ps)) == 1 && k < |ps| && n < |Coalesced(ps)|
              && Coalesced(ps)[n] == ps[k] && Others(Coalesced(ps)[..n]) == Others(ps[..k])
              && Coalesced(ps)[n..] == ps[k..]
  {
    SomePlayback(ps);
    if Count(ps) > THRESHOLD {
      var k := LastPlayback(ps);
      var before, after := Others(ps[..k]), ps[k + 1..];
      assert ps == ps[..k] + [ps[k]] + after && ps[k..] == [ps[k]] + after;
      Around(ps[..k], ps[k], after);
      OthersAreOther(ps[..k]);
      NoPlayback(before);
      Around(before, ps[k], after);
      assert Coalesced(ps) == before + [ps[k]] + after;
      assert Coalesced(ps)[..|before|] == before && Coalesced(ps)[|before|] == ps[k];
    }
  }

  /** A playback message between anything and messages of other kinds. */
  lemma {:induction false} Around(before: seq<Payload>, p: Payload, after: seq<Payload>)
    requires IsPlayback(p) && forall i | 0 <= i < |after| :: !IsPlayback(after[i])
    ensures var all := before + [p] + after;
            && Others(all) == Others(before) + after && Count(all) == Count(before) + 1
            && LastPlayback(all) == |before|
  {
    NoPlayback(after);
    OthersSplit(before, [p]);
    OthersSplit(before + [p], after);
    assert Others(before) + [] == Others(before);
    LastAround(before, p, after);
  }

  lemma {:induction false} LastAround(before: seq<Payload>, p: Payload, after: seq<Payload>)
    requires IsPlayback(p) && forall i | 0 <= i < |after| :: !IsPlayback(after[i])
    ensures LastPlayback(before + [p] + after) == |before|
  {
    var all := before + [p] + after;
    if after == [] {
      assert all == before + [p];
    } else {
      var init := after[..|after| - 1];
      LastAround(before, p, init);
      assert all[..|all| - 1] == before + [p] + init;
    }
  }

  // ------------------------------------------------------------------ what applying a batch leaves

  /** A playback message that does something when it is applied. */
  predicate Effective(self: Guid, p: Payload) {
    p.source != self && p.body.PlaybackSet?
  }

  /** A synced peer's view of the session, as far as playback messages change it. */
  datatype Peer = Peer(playback: ViewState, selected: Option<Guid>, registry: Registry)

  /** A playback message moves the active timeline when it names a sequence that is held, not a clip timeline. */
  predicate Names(self: Guid, r: Registry, p: Payload) {
    && Effective(self, p) && p.body.state.timeline.Some?
    && p.body.state.timeline.value in r.timelines && p.body.state.timeline.value !in r.clipTimelines.Values
  }

  function OnRegistry(self: Guid, r: Registry, p: Payload): Registry {
    if p.source == self then r
    else
      match p.body
      case PlaybackSet(v) => if Names(self, r, p) then r.(active := v.timeline) else r
      case AddTimeline(t, tl) => Announced(r, t, tl)
      case RemoveTimeline(t) => Removed(r, t)
      case ReplaceTimeline(t, tl) => Replaced(r, t, tl)
      case PlaybackUnknown(_) => r
      case OtherBody(_) => r
  }

  function Applied(self: Guid, s: Peer, p: Payload): Peer {
    var t := s.(registry := OnRegistry(self, s.registry, p));
    if Effective(self, p) then t.(playback := p.body.state, selected := p.body.state.clip) else t
  }

  function AppliedAll(self: Guid, s: Peer, ps: seq<Payload>): Peer {
    if ps == [] then s else Applied(self, AppliedAll(self, s, ps[..|ps| - 1]), ps[|ps| - 1])
  }

  /** The last effective message, or the length of the batch. */
  function LastEffective(self: Guid, ps: seq<Payload>): (k: nat)
    ensures k <= |ps|
    ensures k < |ps| ==> Effective(self, ps[k]) && forall i | k < i < |ps| :: !Effective(self, ps[i])
    ensures k == |ps| ==> forall i | 0 <= i < |ps| :: !Effective(self, ps[i])
  {
    if ps == [] then 0
    else if Effective(self, ps[|ps| - 1]) then |ps| - 1
    else
      var k := LastEffective(self, ps[..|ps| - 1]);
      if k == |ps| - 1 then |ps| else k
  }

  /** A batch leaves the playback state of its last effective message, or the one there was. */
  lemma {:induction false} LastEffectiveWins(self: Guid, s: Peer, ps: seq<Payload>)
    ensures var k, r := LastEffective(self, ps), AppliedAll(self, s, ps);
            && r.playback == (if k < |ps| then ps[k].body.state else s.playback)
            && r.selected == (if k < |ps| then ps[k].body.state.clip else s.selected)
  {
    if ps != [] {
      LastEffectiveWins(self, s, ps[..|ps| - 1]);
    }
  }

  /** The same playback state and selected clip, whatever the peer's state before the batch. */
  ghost predicate SameOutcome(self: Guid, a: seq<Payload>, b: seq<Payload>) {
    forall s: Peer ::
      && AppliedAll(self, s, a).playback == AppliedAll(self, s, b).playback
      && AppliedAll(self, s, a).selected == AppliedAll(self, s, b).selected
  }

  /**
   * Coalescing leaves the outcome of every batch the same, except when the playback message that survives does
   * nothing here (this peer sent it, or its event is unknown) while an effective one before it was dropped.
   */
  lemma {:induction false} CoalescingPreservesIff(self: Guid, ps: seq<Payload>)
    ensures SameOutcome(self, Coalesced(ps), ps) <==>
              || Count(ps) <= THRESHOLD
              || (LastPlayback(ps) < |ps| && Effective(self, ps[LastPlayback(ps)]))
              || forall i | 0 <= i < |ps| :: !Effective(self, ps[i])
  {
    SomePlayback(ps);
    var out, k := Coalesced(ps), LastPlayback(ps);
    if Count(ps) > THRESHOLD {
      SurvivorDecides(self, ps);
      forall s: Peer
        ensures LastEffective(self, out) < |out| || LastEffective(self, ps) == |ps| ==>
                  && AppliedAll(self, s, out).playback == AppliedAll(self, s, ps).playback
                  && AppliedAll(self, s, out).selected == AppliedAll(self, s, ps).selected
      {
        LastEffectiveWins(self, s, out);
        LastEffectiveWins(self, s, ps);
      }
      if LastEffective(self, out) == |out| && LastEffective(self, ps) < |ps| {
        var kept := ps[LastEffective(self, ps)].body.state;
        var s := Peer(kept.(data := kept.data + 1), None, EMPTY);
        LastEffectiveWins(self, s, out);
        LastEffectiveWins(self, s, ps);
        assert AppliedAll(self, s, out).playback != AppliedAll(self, s, ps).playback;
      }
    }
  }

  /** After a collapse the only message that can be effective is the survivor. */
  lemma SurvivorDecides(self: Guid, ps: seq<Payload>)
    requires Count(ps) > THRESHOLD
    ensures var out, k := Coalesced(ps), LastPlayback(ps);
            && k < |ps|
            && (Effective(self, ps[k]) ==>
                  && LastEffective(self, out) < |out| && out[LastEffective(self, out)] == ps[k]
                  && LastEffective(self, ps) == k)
            && (!Effective(self, ps[k]) ==> LastEffective(self, out) == |out|)
  {
    SomePlayback(ps);
    CoalescingKeeps(ps);
    var out, k, n := Coalesced(ps), LastPlayback(ps), LastPlayback(Coalesced(ps));
    OthersAreOther(ps[..k]);
    assert out == Others(ps[..k]) + ps[k..];
    OnlyOnePlayback(out, n);
  }

  lemma {:induction false} OnlyOnePlayback(ps: seq<Payload>, n: nat)
    requires Count(ps) == 1 && n < |ps| && IsPlayback(ps[n])
    ensures forall i | 0 <= i < |ps| && i != n :: !IsPlayback(ps[i])
  {
    var init := ps[..|ps| - 1];
    if n == |ps| - 1 {
      SomePlayback(init);
    } else {
      SomePlayback(init);
      assert init[n] == ps[n];
      OnlyOnePlayback(init, n);
      assert forall i | 0 <= i < |init| :: ps[i] == init[i];
    }
  }

  /** Such a batch: a dozen view states, and last a message of the same schema whose event nobody here knows. */
  lemma UnknownLastLosesTheView(self: Guid, other: Guid, v: ViewState, event: int)
    requires self != other
    ensures var ps := seq(THRESHOLD, i => Payload(other, PlaybackSet(v))) + [Payload(other, PlaybackUnknown(event))];
            && !SameOutcome(self, Coalesced(ps), ps)
            && forall s: Peer :: AppliedAll(self, s, ps).playback == v && AppliedAll(self, s, Coalesced(ps)).playback == s.playback
  {
    var set', last := Payload(other, PlaybackSet(v)), Payload(other, PlaybackUnknown(event));
    var sets := seq(THRESHOLD, i => Payload(other, PlaybackSet(v)));
    var ps := sets + [last];
    AllPlayback(ps);
    assert LastPlayback(ps) == THRESHOLD && ps[..THRESHOLD] == sets && ps[THRESHOLD..] == [last];
    AllPlayback(sets);
    OthersAreOther(sets);
    assert Coalesced(ps) == [last] && [last][..0] == [];
    assert Effective(self, ps[0]);
    CoalescingPreservesIff(self, ps);
    forall s: Peer
      ensures AppliedAll(self, s, ps).playback == v && AppliedAll(self, s, Coalesced(ps)).playback == s.playback
    {
      LastEffectiveWins(self, s, ps);
    }
  }

  lemma {:induction false} AllPlayback(ps: seq<Payload>)
    requires forall p | p in ps :: IsPlayback(p)
    ensures Count(ps) == |ps|
  {
    if ps != [] {
      AllPlayback(ps[..|ps| - 1]);
    }
  }

  // ------------------------------------------------------------------ the active timeline

  function RegistryAfter(self: Guid, r: Registry, ps: seq<Payload>): Registry {
    if ps == [] then r else OnRegistry(self, RegistryAfter(self, r, ps[..|ps| - 1]), ps[|ps| - 1])
  }

  lemma {:induction false} RegistryOfApplied(self: Guid, s: Peer, ps: seq<Payload>)
    ensures AppliedAll(self, s, ps).registry == RegistryAfter(self, s.registry, ps)
  {
    if ps != [] {
      RegistryOfApplied(self, s, ps[..|ps| - 1]);
    }
  }

  lemma {:induction false} RegistryInParts(self: Guid, r: Registry, a: seq<Payload>, b: seq<Payload>)
    ensures RegistryAfter(self, r, a + b) == RegistryAfter(self, RegistryAfter(self, r, a), b)
  {
    if b == [] {
      assert a + b == a;
    } else {
      assert (a + b)[..|a + b| - 1] == a + b[..|b| - 1];
      RegistryInParts(self, r, a, b[..|b| - 1]);
    }
  }

  /** The last message of the batch that names a sequence held when it arrives; the length when there is none. */
  function LastNaming(self: Guid, r: Registry, ps: seq<Payload>): (k: nat)
    ensures k <= |ps|
    ensures k < |ps| ==> Names(self, RegistryAfter(self, r, ps[..k]), ps[k])
    ensures forall i | 0 <= i < |ps| && (i > k || k == |ps|) :: !Names(self, RegistryAfter(self, r, ps[..i]), ps[i])
  {
    if ps == [] then 0
    else
      var init := ps[..|ps| - 1];
      var k := LastNaming(self, r, init);
      assert forall i | 0 <= i <= |init| :: ps[..i] == init[..i];
      if Names(self, RegistryAfter(self, r, init), ps[|ps| - 1]) then |ps| - 1
      else if k == |ps| - 1 then |ps| else k
  }

  /** Registries that differ in the active timeline at most. */
  ghost predicate SameBut(a: Registry, b: Registry) {
    a.timelines == b.timelines && a.clipTimelines == b.clipTimelines && a.index == b.index
  }

  lemma SameButStays(self: Guid, a: Registry, b: Registry, p: Payload)
    requires SameBut(a, b)
    ensures SameBut(OnRegistry(self, a, p), OnRegistry(self, b, p))
    ensures Names(self, a, p) <==> Names(self, b, p)
  {
    assert a == b.(active := a.active);
    if p.body.RemoveTimeline? && p.body.t in a.timelines {
      assert Cascade(a, p.body.t) == Cascade(b, p.body.t);
    }
  }

  /** What a batch leaves, the active timeline aside, is what its other messages leave. */
  lemma {:induction false} OthersMakeTheRest(self: Guid, r: Registry, ps: seq<Payload>)
    ensures SameBut(RegistryAfter(self, r, ps), RegistryAfter(self, r, Others(ps)))
    ensures LastNaming(self, r, ps) == |ps| ==> RegistryAfter(self, r, ps) == RegistryAfter(self, r, Others(ps))
  {
    if ps != [] {
      var init, last := ps[..|ps| - 1], ps[|ps| - 1];
      OthersMakeTheRest(self, r, init);
      if IsPlayback(last) {
        assert Others(ps) == Others(init);
      } else {
        assert Others(ps)[..|Others(init)|] == Others(init);
        SameButStays(self, RegistryAfter(self, r, init), RegistryAfter(self, r, Others(init)), last);
      }
    }
  }

  /**
   * The active timeline a batch leaves: the one its last naming message names, or the one there was when nothing
   * does, taken through the messages of other kinds that follow.
   */
  lemma {:induction false} LastNamingDecides(self: Guid, r: Registry, ps: seq<Payload>)
    ensures var j := LastNaming(self, r, ps);
            RegistryAfter(self, r, ps)
            == if j == |ps| then RegistryAfter(self, r, Others(ps))
               else RegistryAfter(self, RegistryAfter(self, r, Others(ps[..j])).(active := ps[j].body.state.timeline),
                                  Others(ps[j + 1..]))
  {
    var j := LastNaming(self, r, ps);
    OthersMakeTheRest(self, r, ps);
    if j < |ps| {
      var named := RegistryAfter(self, r, ps[..j + 1]);
      assert ps[..j + 1][..j] == ps[..j];
      OthersMakeTheRest(self, r, ps[..j]);
      assert named == RegistryAfter(self, r, Others(ps[..j])).(active := ps[j].body.state.timeline);
      assert ps == ps[..j + 1] + ps[j + 1..];
      RegistryInParts(self, r, ps[..j + 1], ps[j + 1..]);
      NoNamingBehind(self, r, ps, j);
      OthersMakeTheRest(self, named, ps[j + 1..]);
    }
  }

  lemma NamingLater(self: Guid, r: Registry, ps: seq<Payload>, from: nat, i: nat)
    requires from + i < |ps|
    ensures RegistryAfter(self, RegistryAfter(self, r, ps[..from]), ps[from..][..i]) == RegistryAfter(self, r, ps[..from + i])
    ensures ps[from..][i] == ps[from + i]
  {
    assert ps[..from + i] == ps[..from] + ps[from..][..i];
    RegistryInParts(self, r, ps[..from], ps[from..][..i]);
  }

  lemma {:induction false} NoNamingBehind(self: Guid, r: Registry, ps: seq<Payload>, j: nat)
    requires j < |ps| && LastNaming(self, r, ps) == j
    ensures LastNaming(self, RegistryAfter(self, r, ps[..j + 1]), ps[j + 1..]) == |ps| - j - 1
  {
    var named, rest := RegistryAfter(self, r, ps[..j + 1]), ps[j + 1..];
    forall i | 0 <= i < |rest| ensures !Names(self, RegistryAfter(self, named, rest[..i]), rest[i]) {
      NamingLater(self, r, ps, j + 1, i);
    }
  }

  /** What survives a collapse names a sequence exactly when it is the last of the batch to do so; nothing else can. */
  lemma {:induction false} SurvivorNaming(self: Guid, r: Registry, ps: seq<Payload>)
    requires Count(ps) > THRESHOLD
    ensures var out, j, k := Coalesced(ps), LastNaming(self, r, ps), LastPlayback(ps);
            LastNaming(self, r, out) == if j == k then LastPlayback(out) else |out|
  {
    SurvivorParts(ps);
    CoalescingKeeps(ps);
    var out, k, n := Coalesced(ps), LastPlayback(ps), LastPlayback(Coalesced(ps));
    OnlyOnePlayback(out, n);
    OthersMakeTheRest(self, r, out[..n]);
    OthersMakeTheRest(self, r, ps[..k]);
  }

  /** The active timeline that messages of other kinds leave, from the registry r with x active. */
  function Through(self: Guid, r: Registry, x: Option<Guid>, others: seq<Payload>): Option<Guid> {
    RegistryAfter(self, r.(active := x), others).active
  }

  /** The structure messages behind message j take the timeline it names and the one it replaces to the same end. */
  predicate MeetBehind(self: Guid, r: Registry, ps: seq<Payload>, j: nat)
    requires j < |ps| && ps[j].body.PlaybackSet?
  {
    var before, behind := RegistryAfter(self, r, Others(ps[..j])), Others(ps[j + 1..]);
    Through(self, before, ps[j].body.state.timeline, behind) == Through(self, before, before.active, behind)
  }

  /**
   * For every peer state and batch: coalescing leaves the active timeline the same exactly when nothing is collapsed,
   * or no message names a sequence held when it arrives, or the last that does survives, or the structure messages
   * behind it bring its timeline and the one active without it together anyway.
   */
  lemma {:induction false} ActiveTimelineKeptIff(self: Guid, s: Peer, ps: seq<Payload>)
    ensures var j := LastNaming(self, s.registry, ps);
            AppliedAll(self, s, Coalesced(ps)).registry.active == AppliedAll(self, s, ps).registry.active <==>
              || Count(ps) <= THRESHOLD || j == |ps| || j == LastPlayback(ps)
              || MeetBehind(self, s.registry, ps, j)
  {
    var r, j := s.registry, LastNaming(self, s.registry, ps);
    RegistryOfApplied(self, s, Coalesced(ps));
    RegistryOfApplied(self, s, ps);
    if Count(ps) > THRESHOLD {
      CollapsedRegistry(self, r, ps);
      LastNamingDecides(self, r, ps);
      if j < |ps| {
        OthersInParts(ps, j);
        RegistryInParts(self, r, Others(ps[..j]), Others(ps[j + 1..]));
        var before := RegistryAfter(self, r, Others(ps[..j]));
        assert before.(active := before.active) == before;
      }
    }
  }

  /** A collapse keeps the whole registry when the survivor is the last to name a sequence, else it loses every naming. */
  lemma {:induction false} CollapsedRegistry(self: Guid, r: Registry, ps: seq<Payload>)
    requires Count(ps) > THRESHOLD
    ensures RegistryAfter(self, r, Coalesced(ps))
         == if LastNaming(self, r, ps) == LastPlayback(ps) then RegistryAfter(self, r, ps) else RegistryAfter(self, r, Others(ps))
  {
    SurvivorParts(ps);
    SurvivorNaming(self, r, ps);
    SurvivorSettles(self, r, Coalesced(ps), LastPlayback(Coalesced(ps)), ps, LastPlayback(ps));
  }

  lemma {:induction false} SurvivorSettles(self: Guid, r: Registry, out: seq<Payload>, n: nat, ps: seq<Payload>, k: nat)
    requires n < |out| && k < |ps| && Others(out) == Others(ps)
    requires Others(out[..n]) == Others(ps[..k]) && out[n] == ps[k] && out[n + 1..] == ps[k + 1..]
    requires LastNaming(self, r, out) == if LastNaming(self, r, ps) == k then n else |out|
    ensures RegistryAfter(self, r, out)
         == if LastNaming(self, r, ps) == k then RegistryAfter(self, r, ps) else RegistryAfter(self, r, Others(ps))
  {
    if LastNaming(self, r, ps) == k {
      SameParts(self, r, out, ps);
    } else {
      OthersMakeTheRest(self, r, out);
    }
  }

  lemma {:induction false} SurvivorParts(ps: seq<Payload>)
    requires Count(ps) > THRESHOLD
    ensures var out, k, n := Coalesced(ps), LastPlayback(ps), LastPlayback(Coalesced(ps));
            && k < |ps| && n < |out| && out[n] == ps[k] && Others(out) == Others(ps)
            && Others(out[..n]) == Others(ps[..k]) && out[n + 1..] == ps[k + 1..]
  {
    CoalescingKeeps(ps);
    var out, k, n := Coalesced(ps), LastPlayback(ps), LastPlayback(Coalesced(ps));
    assert out[n + 1..] == out[n..][1..] && ps[k + 1..] == ps[k..][1..];
  }

  /** Batches alike before, at and behind the message that names last leave one registry. */
  lemma {:induction false} SameParts(self: Guid, r: Registry, a: seq<Payload>, b: seq<Payload>)
    requires var i, j := LastNaming(self, r, a), LastNaming(self, r, b);
             && i < |a| && j < |b| && Others(a[..i]) == Others(b[..j]) && a[i] == b[j] && a[i + 1..] == b[j + 1..]
    ensures RegistryAfter(self, r, a) == RegistryAfter(self, r, b)
  {
    LastNamingDecides(self, r, a);
    LastNamingDecides(self, r, b);
  }

  lemma {:induction false} OthersInParts(ps: seq<Payload>, j: nat)
    requires j < |ps| && IsPlayback(ps[j])
    ensures Others(ps) == Others(ps[..j]) + Others(ps[j + 1..])
  {
    OthersAround(ps[..j], ps[j], ps[j + 1..]);
    assert ps == ps[..j] + [ps[j]] + ps[j + 1..];
  }

  lemma {:induction false} OthersAround(before: seq<Payload>, p: Payload, after: seq<Payload>)
    requires IsPlayback(p)
    ensures Others(before + [p] + after) == Others(before) + Others(after)
  {
    OthersSplit(before + [p], after);
    assert (before + [p])[..|before|] == before;
  }

  /** No timeline is removed or replaced by another peer. */
  predicate OnlyGrows(self: Guid, ps: seq<Payload>) {
    forall p | p in ps :: p.source == self || !(p.body.RemoveTimeline? || p.body.ReplaceTimeline?)
  }

  lemma {:induction false} GrowingKeepsActive(self: Guid, r: Registry, ps: seq<Payload>)
    requires OnlyGrows(self, ps) && forall p | p in ps :: !IsPlayback(p)
    ensures RegistryAfter(self, r, ps).active == r.active
  {
    if ps != [] {
      GrowingKeepsActive(self, r, ps[..|ps| - 1]);
      assert ps[|ps| - 1] in ps;
    }
  }

  lemma {:induction false} OthersAmong(ps: seq<Payload>)
    ensures forall p | p in Others(ps) :: p in ps && !IsPlayback(p)
  {
    if ps != [] {
      OthersAmong(ps[..|ps| - 1]);
    }
  }

  /**
   * So in a batch that removes and replaces no timeline: exactly when nothing is collapsed, or nothing names a held
   * sequence, or the last message that does survives, or it names the timeline that was active before the batch.
   */
  lemma {:induction false} ActiveTimelineKeptWhileGrowingIff(self: Guid, s: Peer, ps: seq<Payload>)
    requires OnlyGrows(self, ps)
    ensures var j := LastNaming(self, s.registry, ps);
            AppliedAll(self, s, Coalesced(ps)).registry.active == AppliedAll(self, s, ps).registry.active <==>
              || Count(ps) <= THRESHOLD || j == |ps| || j == LastPlayback(ps)
              || ps[j].body.state.timeline == s.registry.active
  {
    ActiveTimelineKeptIff(self, s, ps);
    var r, j := s.registry, LastNaming(self, s.registry, ps);
    if j < |ps| {
      OthersAmong(ps[..j]);
      OthersAmong(ps[j + 1..]);
      var before, behind := RegistryAfter(self, r, Others(ps[..j])), Others(ps[j + 1..]);
      GrowingKeepsActive(self, r, Others(ps[..j]));
      GrowingKeepsActive(self, before, behind);
      GrowingKeepsActive(self, before.(active := ps[j].body.state.timeline), behind);
      assert before.(active := before.active) == before;
    }
  }

  /** No timeline is replaced by another peer. */
  predicate ReplacesNone(self: Guid, ps: seq<Payload>) {
    forall p | p in ps :: p.source == self || !p.body.ReplaceTimeline?
  }

  /** Another peer's removal of a timeline, when it arrives on a peer that holds the timeline. */
  predicate Takes(self: Guid, r: Registry, p: Payload, t: Guid) {
    p.source != self && p.body == RemoveTimeline(t) && t in r.timelines
  }

  /** The batch takes the timeline away, starting from the registry r. */
  ghost predicate TakenIn(self: Guid, r: Registry, ps: seq<Payload>, t: Guid) {
    exists i :: 0 <= i < |ps| && Takes(self, RegistryAfter(self, r, ps[..i]), ps[i], t)
  }

  /** What is left of an active timeline behind a batch that replaces none. */
  ghost function Outlived(self: Guid, r: Registry, ps: seq<Payload>, x: Option<Guid>): Option<Guid> {
    if x.Some? && TakenIn(self, r, ps, x.value) then None else x
  }

  lemma {:induction false} ThroughRemovals(self: Guid, r: Registry, x: Option<Guid>, ps: seq<Payload>)
    requires ReplacesNone(self, ps) && forall p | p in ps :: !IsPlayback(p)
    ensures Through(self, r, x, ps) == Outlived(self, r, ps, x)
    ensures SameBut(RegistryAfter(self, r.(active := x), ps), RegistryAfter(self, r, ps))
  {
    if ps != [] {
      var init, last := ps[..|ps| - 1], ps[|ps| - 1];
      assert ps == init + [last] && last in ps;
      ThroughRemovals(self, r, x, init);
      SameButStays(self, RegistryAfter(self, r.(active := x), init), RegistryAfter(self, r, init), last);
      TakenInParts(self, r, init, last);
    }
  }

  lemma TakenInParts(self: Guid, r: Registry, init: seq<Payload>, last: Payload)
    ensures forall t :: TakenIn(self, r, init + [last], t)
                   <==> TakenIn(self, r, init, t) || Takes(self, RegistryAfter(self, r, init), last, t)
  {
    var ps := init + [last];
    assert ps[..|init|] == init && ps[|init|] == last;
    forall t
      ensures TakenIn(self, r, ps, t) <==> TakenIn(self, r, init, t) || Takes(self, RegistryAfter(self, r, init), last, t)
    {
      if i :| 0 <= i < |init| && Takes(self, RegistryAfter(self, r, init[..i]), init[i], t) {
        assert ps[..i] == init[..i] && ps[i] == init[i];
      }
      if i :| 0 <= i < |ps| && Takes(self, RegistryAfter(self, r, ps[..i]), ps[i], t) {
        assert i < |init| ==> ps[..i] == init[..i] && ps[i] == init[i];
      }
    }
  }

  /**
   * And in a batch that replaces none: the last alternative is that the timeline named is the one active there without
   * it, or that behind it both are gone.
   */
  lemma {:induction false} ActiveTimelineKeptWithoutReplacementIff(self: Guid, s: Peer, ps: seq<Payload>)
    requires ReplacesNone(self, ps)
    ensures var j := LastNaming(self, s.registry, ps);
            AppliedAll(self, s, Coalesced(ps)).registry.active == AppliedAll(self, s, ps).registry.active <==>
              || Count(ps) <= THRESHOLD || j == |ps| || j == LastPlayback(ps)
              || var named, without := ps[j].body.state.timeline, Outlived(self, s.registry, Others(ps[..j]), s.registry.active);
                 var before, behind := RegistryAfter(self, s.registry, Others(ps[..j])), Others(ps[j + 1..]);
                 || named == without
                 || (TakenIn(self, before, behind, named.value)
                     && (without.None? || TakenIn(self, before, behind, without.value)))
  {
    ActiveTimelineKeptIff(self, s, ps);
    if LastNaming(self, s.registry, ps) < |ps| {
      MeetsBehindRemovals(self, s.registry, ps, LastNaming(self, s.registry, ps));
    }
  }

  lemma {:induction false} MeetsBehindRemovals(self: Guid, r: Registry, ps: seq<Payload>, j: nat)
    requires ReplacesNone(self, ps) && j < |ps| && ps[j].body.PlaybackSet?
    ensures var named, without := ps[j].body.state.timeline, Outlived(self, r, Others(ps[..j]), r.active);
            var before, behind := RegistryAfter(self, r, Others(ps[..j])), Others(ps[j + 1..]);
            MeetBehind(self, r, ps, j) <==> Outlived(self, before, behind, named) == Outlived(self, before, behind, without)
  {
    OthersAmong(ps[..j]);
    OthersAmong(ps[j + 1..]);
    var before, behind := RegistryAfter(self, r, Others(ps[..j])), Others(ps[j + 1..]);
    assert r.(active := r.active) == r && before.(active := before.active) == before;
    ThroughRemovals(self, r, r.active, Others(ps[..j]));
    ThroughRemovals(self, before, ps[j].body.state.timeline, behind);
    ThroughRemovals(self, before, before.active, behind);
  }

  /** A batch that loses it: one message names another held sequence, and a dozen behind it name none. */
  lemma CoalescingMayLoseTheActiveTimeline(self: Guid, other: Guid, s: Peer, g: Guid, v: ViewState)
    requires self != other && g in s.registry.timelines && g !in s.registry.clipTimelines.Values
    requires s.registry.active != Some(g)
    ensures var first := Payload(other, PlaybackSet(v.(timeline := Some(g))));
            var rest := seq(THRESHOLD, i => Payload(other, PlaybackSet(v.(timeline := None))));
            var ps := [first] + rest;
            AppliedAll(self, s, Coalesced(ps)).registry.active != AppliedAll(self, s, ps).registry.active
  {
    var first, plain := Payload(other, PlaybackSet(v.(timeline := Some(g)))), Payload(other, PlaybackSet(v.(timeline := None)));
    var rest := seq(THRESHOLD, i => Payload(other, PlaybackSet(v.(timeline := None))));
    var ps := [first] + rest;
    AllPlayback(ps);
    assert ps[0] == first && ps[..0] == [] && Names(self, RegistryAfter(self, s.registry, ps[..0]), ps[0]);
    assert forall i | 0 < i < |ps| :: ps[i] == plain;
    ActiveTimelineKeptWhileGrowingIff(self, s, ps);
  }
}
