// Orders of claims that keep each sender's own: what a channel where the earlier claim wins ends on.
// manager.py, _apply_claim; authority.py, _resolve_earlier.
module ClaimOrders {
  import opened Basics
  import opened Authority
  import opened Leases

  /** What a live unconfirmed lease holds after one more claim: a re-claim replaces, a better claim takes over. */
  function Meet(channel: Channel, held: Option<Claim>, c: Claim): Option<Claim> {
    if held.None? || held.value.guid == c.guid || Beats(channel, c, held.value) then Some(c) else held
  }

  function MeetAll(channel: Channel, held: Option<Claim>, claims: seq<Claim>): Option<Claim> {
    if claims == [] then held
    else Meet(channel, MeetAll(channel, held, claims[..|claims| - 1]), claims[|claims| - 1])
  }

  lemma {:induction false} OneMoreIsMet(channel: Channel, before: seq<Arrival>, last: Arrival)
    requires StaysLive(channel, FREE, before + [last])
    requires HeldClaim(Fold(channel, FREE, before)) == MeetAll(channel, None, ClaimsOf(before))
    ensures HeldClaim(Fold(channel, FREE, before + [last])) == MeetAll(channel, None, ClaimsOf(before) + [last.claim])
  {
    FoldLast(channel, before, last);
    FoldStaysUnconfirmed(channel, before);
  }

  lemma LastClaimOf(arrivals: seq<Arrival>)
    requires arrivals != []
    ensures arrivals[..|arrivals| - 1] + [arrivals[|arrivals| - 1]] == arrivals
    ensures ClaimsOf(arrivals) == ClaimsOf(arrivals[..|arrivals| - 1]) + [arrivals[|arrivals| - 1].claim]
  {
  }

  /** That is what folding arrivals into a free lease does, as long as it lasts. */
  lemma {:induction false} FoldMeetsAll(channel: Channel, arrivals: seq<Arrival>)
    requires StaysLive(channel, FREE, arrivals)
    ensures HeldClaim(Fold(channel, FREE, arrivals)) == MeetAll(channel, None, ClaimsOf(arrivals))
  {
    if arrivals != [] {
      var before, last := arrivals[..|arrivals| - 1], arrivals[|arrivals| - 1];
      LastClaimOf(arrivals);
      FoldLast(channel, before, last);
      FoldMeetsAll(channel, before);
      OneMoreIsMet(channel, before, last);
    }
  }

  lemma {:induction false} MeetInParts(channel: Channel, held: Option<Claim>, a: seq<Claim>, b: seq<Claim>)
    ensures MeetAll(channel, held, a + b) == MeetAll(channel, MeetAll(channel, held, a), b)
  {
    if b == [] {
      assert a + b == a;
    } else {
      assert (a + b)[..|a + b| - 1] == a + b[..|b| - 1];
      MeetInParts(channel, held, a, b[..|b| - 1]);
    }
  }

  // ------------------------------------------------------------------ keeping each sender's order

  /** The claims of one peer, in their order. */
  function Of(peer: Guid, claims: seq<Claim>): seq<Claim> {
    if claims == [] then []
    else
      var last := claims[|claims| - 1];
      Of(peer, claims[..|claims| - 1]) + if last.guid == peer then [last] else []
  }

  /** The claims of everybody else, in their order. */
  function NotOf(peer: Guid, claims: seq<Claim>): seq<Claim> {
    if claims == [] then []
    else
      var last := claims[|claims| - 1];
      NotOf(peer, claims[..|claims| - 1]) + if last.guid == peer then [] else [last]
  }

  lemma {:induction false} OfInParts(peer: Guid, a: seq<Claim>, b: seq<Claim>)
    ensures Of(peer, a + b) == Of(peer, a) + Of(peer, b)
  {
    if b == [] {
      assert a + b == a;
    } else {
      assert (a + b)[..|a + b| - 1] == a + b[..|b| - 1];
      OfInParts(peer, a, b[..|b| - 1]);
    }
  }

  lemma {:induction false} OfIsTheirs(peer: Guid, claims: seq<Claim>)
    ensures forall c :: c in Of(peer, claims) <==> c in claims && c.guid == peer
    ensures forall c :: c in NotOf(peer, claims) <==> c in claims && c.guid != peer
  {
    if claims != [] {
      OfIsTheirs(peer, claims[..|claims| - 1]);
      assert claims == claims[..|claims| - 1] + [claims[|claims| - 1]];
    }
  }

  lemma {:induction false} OneSender(peer: Guid, claims: seq<Claim>)
    ensures (forall c | c in claims :: c.guid == peer) ==> Of(peer, claims) == claims
    ensures (forall c | c in claims :: c.guid != peer) ==> Of(peer, claims) == []
  {
    if claims != [] {
      OneSender(peer, claims[..|claims| - 1]);
      assert claims == claims[..|claims| - 1] + [claims[|claims| - 1]];
    }
  }

  lemma {:induction false} OfNotOf(peer: Guid, other: Guid, claims: seq<Claim>)
    requires peer != other
    ensures Of(other, NotOf(peer, claims)) == Of(other, claims)
  {
    if claims != [] {
      var init, last := claims[..|claims| - 1], claims[|claims| - 1];
      OfNotOf(peer, other, init);
      OfInParts(other, NotOf(peer, init), if last.guid == peer then [] else [last]);
      assert [last][..0] == [];
    }
  }

  /** The arrivals bring every sender's claims in that sender's order, interleaved in some way, while the lease lasts. */
  ghost predicate IsInterleavingOf(channel: Channel, arrivals: seq<Arrival>, claims: seq<Claim>) {
    StaysLive(channel, FREE, arrivals) && forall peer: Guid :: Of(peer, ClaimsOf(arrivals)) == Of(peer, claims)
  }

  ghost predicate EveryInterleavingSettlesAlike(channel: Channel, claims: seq<Claim>) {
    forall one, other | IsInterleavingOf(channel, one, claims) && IsInterleavingOf(channel, other, claims) ::
      HeldClaim(Fold(channel, FREE, one)) == HeldClaim(Fold(channel, FREE, other))
  }

  /** No sender's stamps run back. */
  ghost predicate StampsForward(claims: seq<Claim>) {
    forall i, j | 0 <= i <= j < |claims| && claims[i].guid == claims[j].guid :: claims[i].ts <= claims[j].ts
  }

  lemma {:induction false} StampsForwardOf(peer: Guid, claims: seq<Claim>)
    requires StampsForward(claims)
    ensures StampsForward(Of(peer, claims))
  {
    if claims != [] {
      var init, last := claims[..|claims| - 1], claims[|claims| - 1];
      StampsForwardOf(peer, init);
      OfIsTheirs(peer, init);
      var mine := Of(peer, init);
      if last.guid == peer {
        forall i | 0 <= i < |mine| ensures mine[i].ts <= last.ts {
          assert mine[i] in mine;
          var k :| 0 <= k < |init| && init[k] == mine[i];
          assert claims[k] == mine[i];
        }
      }
    }
  }

  // ------------------------------------------------------------------ the theorem

  /** The last claim that the author of the best one makes. */
  function LastOfBest(channel: Channel, claims: seq<Claim>): Claim
    requires claims != []
  {
    BestClaimIsBest(channel, claims);
    OfIsTheirs(BestClaim(channel, claims).guid, claims);
    var mine := Of(BestClaim(channel, claims).guid, claims);
    assert BestClaim(channel, claims) in mine;
    mine[|mine| - 1]
  }

  /**
   * Where the earlier claim wins and no sender's stamps run back, every interleaving of the senders ends with one owner
   * and one stamp exactly when even the last claim of the best claim's author beats every claim of everybody else.
   */
  lemma {:induction false} InterleavingIrrelevantIff(channel: Channel, claims: seq<Claim>)
    requires channel != Visibility && claims != [] && StampsForward(claims)
    ensures EveryInterleavingSettlesAlike(channel, claims) <==>
              forall c | c in claims && c.guid != BestClaim(channel, claims).guid ::
                Beats(channel, LastOfBest(channel, claims), c)
    ensures EveryInterleavingSettlesAlike(channel, claims) ==>
              forall arrivals | IsInterleavingOf(channel, arrivals, claims) ::
                HeldClaim(Fold(channel, FREE, arrivals)) == Some(LastOfBest(channel, claims))
  {
    var last := LastOfBest(channel, claims);
    if c :| c in claims && c.guid != BestClaim(channel, claims).guid && !Beats(channel, last, c) {
      ReclaimLetsAnotherIn(channel, claims, c);
    } else {
      forall arrivals | IsInterleavingOf(channel, arrivals, claims)
        ensures HeldClaim(Fold(channel, FREE, arrivals)) == Some(last)
      {
        FoldMeetsAll(channel, arrivals);
        EndsOnLast(channel, claims, ClaimsOf(arrivals));
      }
    }
  }

  /** Once the author of the best claim has claimed, its latest claim is held, if nothing of the others beats its last. */
  lemma {:induction false} EndsOnLast(channel: Channel, claims: seq<Claim>, listed: seq<Claim>)
    requires channel != Visibility && claims != [] && StampsForward(claims)
    requires forall peer: Guid :: Of(peer, listed) == Of(peer, claims)
    requires forall c | c in claims && c.guid != BestClaim(channel, claims).guid ::
               Beats(channel, LastOfBest(channel, claims), c)
    ensures MeetAll(channel, None, listed) == Some(LastOfBest(channel, claims))
  {
    var p, last := BestClaim(channel, claims).guid, LastOfBest(channel, claims);
    BestClaimIsBest(channel, claims);
    OfIsTheirs(p, claims);
    OfIsTheirs(p, listed);
    StampsForwardOf(p, claims);
    var mine := Of(p, claims);
    forall a, c | a in listed && c in listed && a.guid == p && c.guid != p ensures Beats(channel, a, c) {
      assert a in mine;
      var k :| 0 <= k < |mine| && mine[k] == a;
      OfIsTheirs(c.guid, listed);
      OfIsTheirs(c.guid, claims);
      assert c in Of(c.guid, listed) && c in claims;
      assert Beats(channel, last, c);
    }
    HoldsTheirLatest(channel, listed, p);
  }

  /** Where all claims of a peer beat all others, the lease holds the peer's latest claim from its first one on. */
  lemma {:induction false} HoldsTheirLatest(channel: Channel, listed: seq<Claim>, p: Guid)
    requires forall a, c | a in listed && c in listed && a.guid == p && c.guid != p :: Beats(channel, a, c)
    ensures var mine, held := Of(p, listed), MeetAll(channel, None, listed);
            && (held.Some? ==> held.value in listed)
            && (mine != [] ==> held == Some(mine[|mine| - 1]))
  {
    if listed != [] {
      var init, c := listed[..|listed| - 1], listed[|listed| - 1];
      assert listed == init + [c];
      HoldsTheirLatest(channel, init, p);
      OfIsTheirs(p, init);
      LatestStep(channel, init, c, p);
    }
  }

  lemma LatestStep(channel: Channel, init: seq<Claim>, c: Claim, p: Guid)
    requires forall a, d | a in init + [c] && d in init + [c] && a.guid == p && d.guid != p :: Beats(channel, a, d)
    requires forall a | a in Of(p, init) :: a in init && a.guid == p
    requires var mine, held := Of(p, init), MeetAll(channel, None, init);
             (held.Some? ==> held.value in init) && (mine != [] ==> held == Some(mine[|mine| - 1]))
    ensures var mine, held := Of(p, init + [c]), MeetAll(channel, None, init + [c]);
            (held.Some? ==> held.value in init + [c]) && (mine != [] ==> held == Some(mine[|mine| - 1]))
  {
    assert (init + [c])[..|init|] == init;
    var mine := Of(p, init);
    if mine != [] {
      assert mine[|mine| - 1] in mine;
    }
  }

  /** Otherwise two interleavings part: the author of the best claim before everybody else, or behind. */
  lemma {:induction false} ReclaimLetsAnotherIn(channel: Channel, claims: seq<Claim>, c: Claim)
    requires channel != Visibility && claims != [] && StampsForward(claims)
    requires c in claims && c.guid != BestClaim(channel, claims).guid && !Beats(channel, LastOfBest(channel, claims), c)
    ensures !EveryInterleavingSettlesAlike(channel, claims)
  {
    var p := BestClaim(channel, claims).guid;
    var mine, others := Of(p, claims), NotOf(p, claims);
    SplitIsInterleaving(channel, claims, p);
    TheirsFirst(channel, claims, c);
    TheirsLast(channel, claims);
    AtOnceMeets(channel, mine + others);
    AtOnceMeets(channel, others + mine);
  }

  lemma AtOnceMeets(channel: Channel, listed: seq<Claim>)
    ensures HeldClaim(Fold(channel, FREE, AtOnce(listed))) == MeetAll(channel, None, listed)
  {
    AtOnceIsAnOrder(channel, listed, listed);
    FoldMeetsAll(channel, AtOnce(listed));
    assert ClaimsOf(AtOnce(listed)) == listed;
  }

  /** The author of the best claim before everybody else: another peer takes over and keeps the lease. */
  lemma TheirsFirst(channel: Channel, claims: seq<Claim>, c: Claim)
    requires channel != Visibility && claims != []
    requires c in claims && c.guid != BestClaim(channel, claims).guid && !Beats(channel, LastOfBest(channel, claims), c)
    ensures var p := BestClaim(channel, claims).guid;
            var end := MeetAll(channel, None, Of(p, claims) + NotOf(p, claims)); end.Some? && end.value.guid != p
  {
    var p, last := BestClaim(channel, claims).guid, LastOfBest(channel, claims);
    BestClaimIsBest(channel, claims);
    OfIsTheirs(p, claims);
    var mine, others := Of(p, claims), NotOf(p, claims);
    assert BestClaim(channel, claims) in mine && mine[|mine| - 1] in mine;
    ReclaimsStay(channel, mine, p);
    MeetInParts(channel, None, mine, others);
    TakenOver(channel, last, others, c);
  }

  /** And behind everybody else: its first claim takes over, its last one is held. */
  lemma TheirsLast(channel: Channel, claims: seq<Claim>)
    requires channel != Visibility && claims != [] && StampsForward(claims)
    ensures var p := BestClaim(channel, claims).guid;
            MeetAll(channel, None, NotOf(p, claims) + Of(p, claims)) == Some(LastOfBest(channel, claims))
    ensures LastOfBest(channel, claims).guid == BestClaim(channel, claims).guid
  {
    var p := BestClaim(channel, claims).guid;
    OfIsTheirs(p, claims);
    var mine, others := Of(p, claims), NotOf(p, claims);
    FirstIsBest(channel, claims);
    assert mine[|mine| - 1] in mine;
    MeetInParts(channel, None, others, mine);
    BestBeatsTheRest(channel, claims);
    TakesOverAndStays(channel, MeetAll(channel, None, others), mine, p);
  }

  lemma BestBeatsTheRest(channel: Channel, claims: seq<Claim>)
    requires claims != []
    ensures var best := BestClaim(channel, claims);
            var held := MeetAll(channel, None, NotOf(best.guid, claims));
            held.Some? ==> Beats(channel, best, held.value)
  {
    BestClaimIsBest(channel, claims);
    OfIsTheirs(BestClaim(channel, claims).guid, claims);
    HeldIsAmong(channel, NotOf(BestClaim(channel, claims).guid, claims));
  }

  lemma SplitIsInterleaving(channel: Channel, claims: seq<Claim>, p: Guid)
    ensures IsInterleavingOf(channel, AtOnce(Of(p, claims) + NotOf(p, claims)), claims)
    ensures IsInterleavingOf(channel, AtOnce(NotOf(p, claims) + Of(p, claims)), claims)
  {
    var mine, others := Of(p, claims), NotOf(p, claims);
    assert ClaimsOf(AtOnce(mine + others)) == mine + others && ClaimsOf(AtOnce(others + mine)) == others + mine;
    AtOnceIsAnOrder(channel, mine + others, mine + others);
    AtOnceIsAnOrder(channel, others + mine, others + mine);
    OfIsTheirs(p, claims);
    forall peer: Guid ensures Of(peer, mine + others) == Of(peer, claims) && Of(peer, others + mine) == Of(peer, claims) {
      OfInParts(peer, mine, others);
      OfInParts(peer, others, mine);
      OneSender(peer, mine);
      OneSender(peer, others);
      if peer != p {
        OfNotOf(p, peer, claims);
      }
    }
  }

  /** One peer's claims alone end on its last. */
  lemma {:induction false} ReclaimsStay(channel: Channel, mine: seq<Claim>, p: Guid)
    requires mine != [] && forall c | c in mine :: c.guid == p
    ensures MeetAll(channel, None, mine) == Some(mine[|mine| - 1])
  {
    if |mine| > 1 {
      ReclaimsStay(channel, mine[..|mine| - 1], p);
    } else {
      assert mine[..0] == [];
    }
  }

  /** Who never claims again and is beaten is not the owner in the end. */
  lemma {:induction false} TakenOver(channel: Channel, held: Claim, others: seq<Claim>, c: Claim)
    requires c in others && Beats(channel, c, held) && forall d | d in others :: d.guid != held.guid
    ensures var end := MeetAll(channel, Some(held), others); end.Some? && end.value.guid != held.guid
  {
    var init, last := others[..|others| - 1], others[|others| - 1];
    assert others == init + [last];
    if c in init {
      TakenOver(channel, held, init, c);
    } else {
      HeldOrAmong(channel, held, init);
    }
  }

  lemma {:induction false} HeldOrAmong(channel: Channel, held: Claim, claims: seq<Claim>)
    ensures var end := MeetAll(channel, Some(held), claims); end.Some? && (end.value == held || end.value in claims)
  {
    if claims != [] {
      HeldOrAmong(channel, held, claims[..|claims| - 1]);
      assert claims == claims[..|claims| - 1] + [claims[|claims| - 1]];
    }
  }

  lemma {:induction false} HeldIsAmong(channel: Channel, claims: seq<Claim>)
    ensures var end := MeetAll(channel, None, claims); end.Some? ==> end.value in claims
  {
    if claims != [] {
      HeldIsAmong(channel, claims[..|claims| - 1]);
      assert claims == claims[..|claims| - 1] + [claims[|claims| - 1]];
    }
  }

  /** The author of the best claim makes it first. */
  lemma FirstIsBest(channel: Channel, claims: seq<Claim>)
    requires channel != Visibility && claims != [] && StampsForward(claims)
    ensures var mine := Of(BestClaim(channel, claims).guid, claims); mine != [] && mine[0] == BestClaim(channel, claims)
  {
    var best := BestClaim(channel, claims);
    BestClaimIsBest(channel, claims);
    OfIsTheirs(best.guid, claims);
    StampsForwardOf(best.guid, claims);
    var mine := Of(best.guid, claims);
    assert best in mine;
    var k :| 0 <= k < |mine| && mine[k] == best;
    assert mine[0] in mine && mine[0].ts <= mine[k].ts;
  }

  lemma {:induction false} TakesOverAndStays(channel: Channel, held: Option<Claim>, mine: seq<Claim>, p: Guid)
    requires mine != [] && forall c | c in mine :: c.guid == p
    requires held.Some? ==> held.value.guid == p || Beats(channel, mine[0], held.value)
    ensures MeetAll(channel, held, mine) == Some(mine[|mine| - 1])
  {
    if |mine| > 1 {
      TakesOverAndStays(channel, held, mine[..|mine| - 1], p);
    } else {
      assert mine[..0] == [];
    }
  }
}
