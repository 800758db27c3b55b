/** Bidding one's true value per click is a dominant strategy at one query
    point, reserve, clamp, σ = 0 branch and random ties included. */
module Truthful {
  import opened Scoring
  import opened Ranking
  import opened Auction
  import opened Payment

  /** All positions of one bidder carry one price; everybody else is unchanged. */
  function Reprice(bids: seq<CoreBid>, bidder: string, price: real): (r: seq<CoreBid>)
    ensures |r| == |bids|
    ensures forall i :: 0 <= i < |bids| ==>
              r[i] == if bids[i].bidder == bidder then bids[i].(price := price) else bids[i]
  {
    seq(|bids|, i requires 0 <= i < |bids| => if bids[i].bidder == bidder then bids[i].(price := price) else bids[i])
  }

  function Higher(a: Score, b: Score): Score {
    if Above(a, b) then a else b
  }

  function Nearer(a: Distance, b: Distance): Distance {
    if a.PosInf? || (b.Dist? && b.d < a.d) then b else a
  }

  /** The best score among the other bidders' eligible bids. */
  function OthersBest(m: LogScale, bids: seq<CoreBid>, floor: real, query: seq<real>, bidder: string): (r: Score)
    ensures forall i :: 0 <= i < |bids| && Competes(bids[i], floor, bidder) ==>
              !Above(ComputeScore(m, bids[i], query), r)
    ensures r != NegInf ==> exists i :: 0 <= i < |bids| && Competes(bids[i], floor, bidder)
                                        && ComputeScore(m, bids[i], query) == r
  {
    if bids == [] then NegInf
    else
      var last := bids[|bids| - 1];
      var r := OthersBest(m, bids[..|bids| - 1], floor, query, bidder);
      if Competes(last, floor, bidder) then Higher(ComputeScore(m, last, query), r) else r
  }

  predicate Competes(b: CoreBid, floor: real, bidder: string) {
    b.bidder != bidder && b.price > 0.0 && b.price >= floor
  }

  /** The bidder's smallest distance penalty at the query point. */
  function OwnTerm(bids: seq<CoreBid>, query: seq<real>, bidder: string): (r: Distance)
    ensures forall i :: 0 <= i < |bids| && bids[i].bidder == bidder && DistanceTerm(bids[i], query).Dist? ==>
              r.Dist? && r.d <= DistanceTerm(bids[i], query).d
    ensures r.Dist? ==> exists i :: 0 <= i < |bids| && bids[i].bidder == bidder && DistanceTerm(bids[i], query) == r
  {
    if bids == [] then PosInf
    else
      var last := bids[|bids| - 1];
      var r := OwnTerm(bids[..|bids| - 1], query, bidder);
      if last.bidder == bidder then Nearer(r, DistanceTerm(last, query)) else r
  }

  /** Neither depends on the bidder's own price. */
  lemma RepricingChangesNoThreshold(m: LogScale, bids: seq<CoreBid>, floor: real, query: seq<real>, bidder: string, price: real)
    ensures OthersBest(m, Reprice(bids, bidder, price), floor, query, bidder) == OthersBest(m, bids, floor, query, bidder)
    ensures OwnTerm(Reprice(bids, bidder, price), query, bidder) == OwnTerm(bids, query, bidder)
  {
    RepricingKeepsOthersBest(m, bids, floor, query, bidder, price);
    RepricingKeepsOwnTerm(bids, query, bidder, price);
  }

  lemma RepricePrefix(bids: seq<CoreBid>, bidder: string, price: real)
    requires bids != []
    ensures Reprice(bids, bidder, price)[..|bids| - 1] == Reprice(bids[..|bids| - 1], bidder, price)
  {
  }

  lemma {:induction false} RepricingKeepsOthersBest(m: LogScale, bids: seq<CoreBid>, floor: real, query: seq<real>, bidder: string, price: real)
    ensures OthersBest(m, Reprice(bids, bidder, price), floor, query, bidder) == OthersBest(m, bids, floor, query, bidder)
  {
    if bids != [] {
      RepricePrefix(bids, bidder, price);
      RepricingKeepsOthersBest(m, bids[..|bids| - 1], floor, query, bidder, price);
    }
  }

  lemma {:induction false} RepricingKeepsOwnTerm(bids: seq<CoreBid>, query: seq<real>, bidder: string, price: real)
    ensures OwnTerm(Reprice(bids, bidder, price), query, bidder) == OwnTerm(bids, query, bidder)
  {
    if bids != [] {
      RepricePrefix(bids, bidder, price);
      RepricingKeepsOwnTerm(bids[..|bids| - 1], query, bidder, price);
      TermIgnoresPrice(bids[|bids| - 1], query, price);
    }
  }

  lemma TermIgnoresPrice(b: CoreBid, query: seq<real>, price: real)
    ensures DistanceTerm(b.(price := price), query) == DistanceTerm(b, query)
  {
  }

  /** What a click is worth to the bidder minus what it pays. */
  function Utility(m: LogScale, r: AuctionResult, floor: real, query: seq<real>, bidder: string, value: real): real
    requires Priceable(r, query)
  {
    if r.winner.Some? && r.winner.value.bidder == bidder then value - ComputeVCGPayment(m, r, query, floor) else 0.0
  }

  /** The bidder's own score when all its positions carry one price. */
  function OwnScore(m: LogScale, term: Distance, price: real, floor: real): Score {
    if price > 0.0 && price >= floor && term.Dist? then Finite(m.log(price) - term.d) else NegInf
  }

  ghost predicate OnePrice(bids: seq<CoreBid>, bidder: string, price: real) {
    forall i :: 0 <= i < |bids| && bids[i].bidder == bidder ==> bids[i].price == price
  }

  // ----- the candidates, seen from one bidder -----

  /** Every eligible bid is matched or beaten by its bidder's candidate. */
  lemma EligibleIsRepresented(m: LogScale, bids: seq<CoreBid>, floor: real, query: seq<real>, b: CoreBid) returns (e: ScoredBid)
    requires b in bids && b.price > 0.0 && b.price >= floor
    ensures e in Candidates(m, bids, floor, query) && e.bid.bidder == b.bidder
    ensures !Above(ComputeScore(m, b, query), e.score)
  {
    var s := ScoreAll(m, Eligible(bids, floor), query);
    CollapseIsFirstBest(s);
    assert b in Eligible(bids, floor);
    var i :| 0 <= i < |Eligible(bids, floor)| && Eligible(bids, floor)[i] == b;
    assert s[i].bid == b;
    var c := Candidates(m, bids, floor, query);
    e := c[Slot(c, b.bidder)];
    assert FirstBest(s, e);
  }

  /** The other bidders' candidates reach exactly OthersBest. */
  lemma OthersCandidates(m: LogScale, bids: seq<CoreBid>, floor: real, query: seq<real>, bidder: string)
    ensures var best := OthersBest(m, bids, floor, query, bidder);
            && (forall e :: e in Candidates(m, bids, floor, query) && e.bid.bidder != bidder ==> !Above(e.score, best))
            && (best != NegInf ==> exists e :: e in Candidates(m, bids, floor, query) && e.bid.bidder != bidder && e.score == best)
  {
    var best := OthersBest(m, bids, floor, query, bidder);
    CandidatesScored(m, bids, floor, query);
    forall e | e in Candidates(m, bids, floor, query) && e.bid.bidder != bidder ensures !Above(e.score, best) {
      var i :| 0 <= i < |bids| && bids[i] == e.bid;
      assert Competes(bids[i], floor, bidder);
    }
    if best != NegInf {
      var i :| 0 <= i < |bids| && Competes(bids[i], floor, bidder) && ComputeScore(m, bids[i], query) == best;
      var e := EligibleIsRepresented(m, bids, floor, query, bids[i]);
      assert !Above(e.score, best);
      EqualScores(best, e.score);
    }
  }

  lemma EqualScores(a: Score, b: Score)
    requires !Above(a, b) && !Above(b, a)
    ensures a == b
  {
  }

  /** The bidder's candidate has the score of its nearest position. */
  lemma OwnCandidate(m: LogScale, bids: seq<CoreBid>, floor: real, query: seq<real>, bidder: string, price: real)
    requires OnePrice(bids, bidder, price)
    ensures var own := OwnScore(m, OwnTerm(bids, query, bidder), price, floor);
            && (forall e :: e in Candidates(m, bids, floor, query) && e.bid.bidder == bidder ==> e.score == own)
            && (own != NegInf ==> exists e :: e in Candidates(m, bids, floor, query) && e.bid.bidder == bidder)
  {
    var term := OwnTerm(bids, query, bidder);
    var own := OwnScore(m, term, price, floor);
    if own != NegInf {
      var i :| 0 <= i < |bids| && bids[i].bidder == bidder && DistanceTerm(bids[i], query) == term;
      var e := EligibleIsRepresented(m, bids, floor, query, bids[i]);
    }
    forall e | e in Candidates(m, bids, floor, query) && e.bid.bidder == bidder ensures e.score == own {
      OwnEntryScore(m, bids, floor, query, bidder, price, e);
    }
  }

  /** At a common price a position's score is its penalty's. */
  lemma OwnPositionScore(m: LogScale, bids: seq<CoreBid>, floor: real, query: seq<real>, bidder: string, price: real, b: CoreBid)
    requires OnePrice(bids, bidder, price) && b in bids && b.bidder == bidder && b.price > 0.0 && b.price >= floor
    ensures var own := OwnScore(m, OwnTerm(bids, query, bidder), price, floor);
            && !Above(ComputeScore(m, b, query), own)
            && (DistanceTerm(b, query) == OwnTerm(bids, query, bidder) ==> ComputeScore(m, b, query) == own)
  {
    var k :| 0 <= k < |bids| && bids[k] == b;
    assert bids[k].bidder == bidder;
  }

  lemma OwnEntryScore(m: LogScale, bids: seq<CoreBid>, floor: real, query: seq<real>, bidder: string, price: real, e: ScoredBid)
    requires OnePrice(bids, bidder, price)
    requires e in Candidates(m, bids, floor, query) && e.bid.bidder == bidder
    ensures e.score == OwnScore(m, OwnTerm(bids, query, bidder), price, floor)
    ensures e.bid.price == price
  {
    CandidatesScored(m, bids, floor, query);
    var k :| 0 <= k < |bids| && bids[k] == e.bid;
    assert bids[k].bidder == bidder;
    OwnPositionScore(m, bids, floor, query, bidder, price, e.bid);
    var own := OwnScore(m, OwnTerm(bids, query, bidder), price, floor);
    if own != NegInf {
      var b := NearestPosition(bids, query, bidder);
      assert b.price == price;
      var f := EligibleIsRepresented(m, bids, floor, query, b);
      OwnPositionScore(m, bids, floor, query, bidder, price, b);
      SameBidderSameCandidate(m, bids, floor, query, e, f);
      EqualScores(e.score, own);
    }
  }

  lemma NearestPosition(bids: seq<CoreBid>, query: seq<real>, bidder: string) returns (b: CoreBid)
    requires OwnTerm(bids, query, bidder).Dist?
    ensures b in bids && b.bidder == bidder && DistanceTerm(b, query) == OwnTerm(bids, query, bidder)
    ensures exists i :: 0 <= i < |bids| && bids[i] == b
  {
    var i :| 0 <= i < |bids| && bids[i].bidder == bidder && DistanceTerm(bids[i], query) == OwnTerm(bids, query, bidder);
    b := bids[i];
  }

  lemma SameBidderSameCandidate(m: LogScale, bids: seq<CoreBid>, floor: real, query: seq<real>, e: ScoredBid, f: ScoredBid)
    requires e in Candidates(m, bids, floor, query) && f in Candidates(m, bids, floor, query)
    requires e.bid.bidder == f.bid.bidder
    ensures e == f
  {
    CollapseIsFirstBest(ScoreAll(m, Eligible(bids, floor), query));
  }

  // ----- winning and losing -----

  /** The price that decides whether the bidder wins, and that it pays if it does. */
  function BidderCriticalPrice(m: LogScale, bids: seq<CoreBid>, floor: real, query: seq<real>, bidder: string): real
    requires OwnTerm(bids, query, bidder).Dist?
  {
    CriticalPrice(m, OwnTerm(bids, query, bidder).d, OthersBest(m, bids, floor, query, bidder), floor)
  }

  /** In a ranking that the bidder heads, the rival score is the others' best. */
  lemma RivalIsOthersBest(m: LogScale, bids: seq<CoreBid>, floor: real, query: seq<real>, t: seq<ScoredBid>)
    requires IsRanking(t, Candidates(m, bids, floor, query)) && t != []
    ensures RivalScore(t) == OthersBest(m, bids, floor, query, t[0].bid.bidder)
  {
    var bidder := t[0].bid.bidder;
    var best := OthersBest(m, bids, floor, query, bidder);
    OthersCandidates(m, bids, floor, query, bidder);
    RankingMembers(t, Candidates(m, bids, floor, query));
    if |t| > 1 {
      CandidatesAreOnePerBidder(m, bids, floor, query, t);
      assert t[1] in Candidates(m, bids, floor, query);
    }
    if best != NegInf {
      var e :| e in Candidates(m, bids, floor, query) && e.bid.bidder != bidder && e.score == best;
      var k :| 0 <= k < |t| && t[k] == e;
      DescendingPairs(t, 1, k);
    }
    EqualScores(RivalScore(t), best);
  }

  lemma RankingMembers(t: seq<ScoredBid>, c: seq<ScoredBid>)
    requires IsRanking(t, c)
    ensures forall e :: e in t <==> e in c
    ensures forall i :: 0 <= i < |t| ==> t[i] in c
  {
    forall e ensures e in t <==> e in c {
      assert e in multiset(t) <==> e in multiset(c);
    }
  }

  lemma CandidatesAreOnePerBidder(m: LogScale, bids: seq<CoreBid>, floor: real, query: seq<real>, t: seq<ScoredBid>)
    requires IsRanking(t, Candidates(m, bids, floor, query)) && |t| > 1
    ensures t[0].bid.bidder != t[1].bid.bidder
  {
    CandidatesDistinct(m, bids, floor, query);
    PermutationDistinct(t, SortDescending(Candidates(m, bids, floor, query)));
    RankingMembers(t, Candidates(m, bids, floor, query));
    if t[0].bid.bidder == t[1].bid.bidder {
      SameBidderSameCandidate(m, bids, floor, query, t[0], t[1]);
    }
  }

  ghost predicate Wins(r: AuctionResult, bidder: string) {
    r.winner.Some? && r.winner.value.bidder == bidder
  }

  /** A winning bidder wins with its nearest position. */
  lemma WinnerIsNearest(m: LogScale, bids: seq<CoreBid>, floor: real, query: seq<real>, bidder: string, price: real, t: seq<ScoredBid>)
    requires OnePrice(bids, bidder, price)
    requires IsRanking(t, Candidates(m, bids, floor, query)) && Wins(Outcome(bids, floor, t), bidder)
    ensures DistanceTerm(t[0].bid, query).Dist? && DistanceTerm(t[0].bid, query) == OwnTerm(bids, query, bidder)
    ensures t[0].bid.price == price
  {
    PlacedIsInPlay(m, bids, floor, query, t, 0);
    RankingMembers(t, Candidates(m, bids, floor, query));
    OwnEntryScore(m, bids, floor, query, bidder, price, t[0]);
  }

  lemma WinnerPaysCriticalPrice(m: LogScale, bids: seq<CoreBid>, floor: real, query: seq<real>, bidder: string, price: real, t: seq<ScoredBid>)
    requires m.Lawful() && OnePrice(bids, bidder, price)
    requires IsRanking(t, Candidates(m, bids, floor, query)) && Wins(Outcome(bids, floor, t), bidder)
    ensures OwnTerm(bids, query, bidder).Dist? && Priceable(Outcome(bids, floor, t), query)
    ensures ComputeVCGPayment(m, Outcome(bids, floor, t), query, floor) == BidderCriticalPrice(m, bids, floor, query, bidder) <= price
  {
    PaymentIsCriticalPrice(m, bids, floor, query, t);
    RivalIsOthersBest(m, bids, floor, query, t);
    WinnerIsNearest(m, bids, floor, query, bidder, price, t);
  }

  /** A losing bidder does not outscore the others. */
  lemma LoserIsOutscored(m: LogScale, bids: seq<CoreBid>, floor: real, query: seq<real>, bidder: string, price: real, t: seq<ScoredBid>)
    requires OnePrice(bids, bidder, price)
    requires IsRanking(t, Candidates(m, bids, floor, query)) && !Wins(Outcome(bids, floor, t), bidder)
    ensures !Above(OwnScore(m, OwnTerm(bids, query, bidder), price, floor), OthersBest(m, bids, floor, query, bidder))
  {
    var own := OwnScore(m, OwnTerm(bids, query, bidder), price, floor);
    if own != NegInf {
      OwnCandidate(m, bids, floor, query, bidder, price);
      OthersCandidates(m, bids, floor, query, bidder);
      RankingMembers(t, Candidates(m, bids, floor, query));
      var e :| e in Candidates(m, bids, floor, query) && e.bid.bidder == bidder;
      var k :| 0 <= k < |t| && t[k] == e;
      DescendingPairs(t, 0, k);
      assert t[0] in Candidates(m, bids, floor, query);
    }
  }

  lemma OutscoredIsBelowCritical(m: LogScale, term: real, price: real, floor: real, rival: Score)
    requires m.Lawful() && !Above(OwnScore(m, Dist(term), price, floor), rival)
    ensures price <= CriticalPrice(m, term, rival, floor)
  {
    if rival.Finite? {
      m.PowOrder(term + rival.v, m.log(price));
      m.PowOrder(m.log(price), term + rival.v);
      assert m.LogInverts(price);
    }
  }

  lemma LoserIsBelowCriticalPrice(m: LogScale, bids: seq<CoreBid>, floor: real, query: seq<real>, bidder: string, price: real, t: seq<ScoredBid>)
    requires m.Lawful() && OnePrice(bids, bidder, price)
    requires IsRanking(t, Candidates(m, bids, floor, query)) && !Wins(Outcome(bids, floor, t), bidder)
    requires OwnTerm(bids, query, bidder).Dist?
    ensures price <= BidderCriticalPrice(m, bids, floor, query, bidder)
  {
    LoserIsOutscored(m, bids, floor, query, bidder, price, t);
    OutscoredIsBelowCritical(m, OwnTerm(bids, query, bidder).d, price, floor, OthersBest(m, bids, floor, query, bidder));
  }

  /** A ranking behind a result at one repriced profile, and the thresholds that do not move with the price. */
  lemma RepricedRanking(m: LogScale, bids: seq<CoreBid>, floor: real, query: seq<real>, bidder: string, price: real, r: AuctionResult)
      returns (repriced: seq<CoreBid>, t: seq<ScoredBid>)
    requires Possible(m, Reprice(bids, bidder, price), floor, query, r)
    ensures OnePrice(repriced, bidder, price)
    ensures IsRanking(t, Candidates(m, repriced, floor, query)) && r == Outcome(repriced, floor, t)
    ensures Priceable(r, query)
    ensures OwnTerm(repriced, query, bidder) == OwnTerm(bids, query, bidder)
    ensures OthersBest(m, repriced, floor, query, bidder) == OthersBest(m, bids, floor, query, bidder)
  {
    repriced := Reprice(bids, bidder, price);
    t :| IsRanking(t, Candidates(m, repriced, floor, query)) && r == Outcome(repriced, floor, t);
    RepricingChangesNoThreshold(m, bids, floor, query, bidder, price);
    OutcomePriceable(m, repriced, floor, query, t);
  }

  /** The bidder's critical price is sharp: above it the bidder wins under every
      tie-break and pays exactly it, below it the bidder loses. */
  lemma CriticalPriceDecides(m: LogScale, bids: seq<CoreBid>, floor: real, query: seq<real>, bidder: string, price: real, r: AuctionResult)
    requires m.Lawful() && OwnTerm(bids, query, bidder).Dist?
    requires Possible(m, Reprice(bids, bidder, price), floor, query, r)
    ensures Priceable(r, query)
    ensures var critical := BidderCriticalPrice(m, bids, floor, query, bidder);
            && (price > critical ==> Wins(r, bidder))
            && (price < critical ==> !Wins(r, bidder))
            && (Wins(r, bidder) ==> ComputeVCGPayment(m, r, query, floor) == critical)
  {
    var repriced, t := RepricedRanking(m, bids, floor, query, bidder, price, r);
    if Wins(r, bidder) {
      WinnerPaysCriticalPrice(m, repriced, floor, query, bidder, price, t);
    } else {
      LoserIsBelowCriticalPrice(m, repriced, floor, query, bidder, price, t);
    }
  }

  lemma OutOfReachNeverWins(m: LogScale, bids: seq<CoreBid>, floor: real, query: seq<real>, bidder: string, price: real, r: AuctionResult)
    requires OwnTerm(bids, query, bidder).PosInf?
    requires Possible(m, Reprice(bids, bidder, price), floor, query, r)
    ensures Priceable(r, query) && !Wins(r, bidder)
  {
    var repriced, t := RepricedRanking(m, bids, floor, query, bidder, price, r);
    if Wins(r, bidder) {
      WinnerIsNearest(m, repriced, floor, query, bidder, price, t);
    }
  }

  /** Whatever the others bid and however ties fall, bidding one's value does at
      least as well as any other price. */
  lemma TruthfulBiddingIsDominant(m: LogScale, bids: seq<CoreBid>, floor: real, query: seq<real>, bidder: string,
                                  value: real, price: real, honest: AuctionResult, other: AuctionResult)
    requires m.Lawful()
    requires Possible(m, Reprice(bids, bidder, value), floor, query, honest)
    requires Possible(m, Reprice(bids, bidder, price), floor, query, other)
    ensures Priceable(honest, query) && Priceable(other, query)
    ensures Utility(m, honest, floor, query, bidder, value) >= Utility(m, other, floor, query, bidder, value)
    ensures Utility(m, honest, floor, query, bidder, value) >= 0.0
  {
    if OwnTerm(bids, query, bidder).Dist? {
      CriticalPriceDecides(m, bids, floor, query, bidder, value, honest);
      CriticalPriceDecides(m, bids, floor, query, bidder, price, other);
    } else {
      OutOfReachNeverWins(m, bids, floor, query, bidder, value, honest);
      OutOfReachNeverWins(m, bids, floor, query, bidder, price, other);
    }
  }

  /** No eligible bid outscores the head of a ranking. */
  lemma HeadMatchesEligible(m: LogScale, bids: seq<CoreBid>, floor: real, query: seq<real>, t: seq<ScoredBid>, b: CoreBid)
    requires IsRanking(t, Candidates(m, bids, floor, query))
    requires b in bids && b.price > 0.0 && b.price >= floor
    ensures t != [] && !Above(ComputeScore(m, b, query), t[0].score)
  {
    var e := EligibleIsRepresented(m, bids, floor, query, b);
    RankingMembers(t, Candidates(m, bids, floor, query));
    var k :| 0 <= k < |t| && t[k] == e;
    DescendingPairs(t, 0, k);
  }

  /** The allocation is welfare-optimal: no eligible bid has a higher effective
      price B^(-term) × price than the winner. */
  lemma WinnerHasHighestEffectivePrice(m: LogScale, bids: seq<CoreBid>, floor: real, query: seq<real>, t: seq<ScoredBid>, b: CoreBid)
    requires m.Lawful() && IsRanking(t, Candidates(m, bids, floor, query))
    requires b in bids && InPlay(b, floor, query)
    ensures Placed(t, 0).Some? && DistanceTerm(t[0].bid, query).Dist?
    ensures b.price * m.pow(-DistanceTerm(b, query).d) <= t[0].bid.price * m.pow(-DistanceTerm(t[0].bid, query).d)
  {
    HeadMatchesEligible(m, bids, floor, query, t, b);
    PlacedIsInPlay(m, bids, floor, query, t, 0);
    NotOutscored(m, b, t[0].bid, floor, query);
  }

  lemma NotOutscored(m: LogScale, a: CoreBid, b: CoreBid, floor: real, query: seq<real>)
    requires m.Lawful() && InPlay(a, floor, query) && InPlay(b, floor, query)
    requires !Above(ComputeScore(m, a, query), ComputeScore(m, b, query))
    ensures a.price * m.pow(-DistanceTerm(a, query).d) <= b.price * m.pow(-DistanceTerm(b, query).d)
  {
    ScoreOrderIsEffectivePriceOrder(m, a, b, query);
  }
}
