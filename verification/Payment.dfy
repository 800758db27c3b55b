/** The price of a click (auction/vcg.go). */
module Payment {
  import opened Wrappers
  import opened Scoring
  import opened Ranking
  import opened Auction

  /** The penalties that the payment formula subtracts are finite. */
  predicate Priceable(result: AuctionResult, query: seq<real>) {
    && (result.winner.Some? ==> DistanceTerm(result.winner.value, query).Dist?)
    && (result.runnerUp.Some? ==> DistanceTerm(result.runnerUp.value, query).Dist?)
  }

  /** The runner-up's price, adjusted for the distance differential. */
  function Threshold(m: LogScale, winner: CoreBid, ru: CoreBid, query: seq<real>): real
    requires DistanceTerm(winner, query).Dist? && DistanceTerm(ru, query).Dist?
  {
    ru.price * m.pow(DistanceTerm(winner, query).d - DistanceTerm(ru, query).d)
  }

  function ComputeVCGPayment(m: LogScale, result: AuctionResult, query: seq<real>, floor: real): real
    requires Priceable(result, query)
  {
    if result.winner.None? then 0.0
    else
      var winner := result.winner.value;
      var threshold := if result.runnerUp.None? then 0.0 else Threshold(m, winner, result.runnerUp.value, query);
      var reserved := if threshold < floor then floor else threshold;
      if reserved > winner.price then winner.price else reserved
  }

  /** The second-highest bidder score. */
  function RivalScore(ranked: seq<ScoredBid>): Score {
    if |ranked| > 1 then ranked[1].score else NegInf
  }

  /** The price at which a bid with this penalty would tie with the rival
      score, or the floor if that is higher. It mentions neither the bid's
      price nor the rival's identity. */
  function CriticalPrice(m: LogScale, term: real, rival: Score, floor: real): (r: real)
    ensures r >= floor
  {
    var threshold := if rival.NegInf? then 0.0 else m.pow(term + rival.v);
    if threshold < floor then floor else threshold
  }

  /** A bid that may win or be priced against. */
  predicate InPlay(b: CoreBid, floor: real, query: seq<real>) {
    b.price > 0.0 && b.price >= floor && DistanceTerm(b, query).Dist?
  }

  /** A placed bid is in play, and ranked by its own score. */
  lemma PlacedIsInPlay(m: LogScale, bids: seq<CoreBid>, floor: real, query: seq<real>, t: seq<ScoredBid>, rank: nat)
    requires IsRanking(t, Candidates(m, bids, floor, query)) && Placed(t, rank).Some?
    ensures t[rank].bid in bids && InPlay(t[rank].bid, floor, query)
    ensures t[rank].score == ComputeScore(m, t[rank].bid, query)
  {
    CandidatesScored(m, bids, floor, query);
    assert t[rank] in multiset(t);
    assert t[rank] in Candidates(m, bids, floor, query);
  }

  lemma OutcomePriceable(m: LogScale, bids: seq<CoreBid>, floor: real, query: seq<real>, t: seq<ScoredBid>)
    requires IsRanking(t, Candidates(m, bids, floor, query))
    ensures Priceable(Outcome(bids, floor, t), query)
  {
    if Placed(t, 0).Some? {
      PlacedIsInPlay(m, bids, floor, query, t, 0);
      if Placed(t, 1).Some? {
        PlacedIsInPlay(m, bids, floor, query, t, 1);
      }
    }
  }

  /** The threshold is the winner's price that would tie with the runner-up's score. */
  lemma ThresholdTies(m: LogScale, w: CoreBid, ru: CoreBid, floor: real, query: seq<real>)
    requires m.Lawful() && InPlay(w, floor, query) && InPlay(ru, floor, query)
    ensures var x, sw, sr := Threshold(m, w, ru, query), ComputeScore(m, w, query), ComputeScore(m, ru, query);
            && x == m.pow(DistanceTerm(w, query).d + sr.v) && x > 0.0
            && (!Above(sr, sw) <==> x <= w.price) && (sr == sw <==> x == w.price)
  {
    var t, u := DistanceTerm(w, query).d, DistanceTerm(ru, query).d;
    m.TyingPrice(w.price, t, ru.price, u);
    m.PowOrder(t + (m.log(ru.price) - u), 0.0);
  }

  /** The payment of a winner against a runner-up that does not outscore it. */
  lemma PaymentOfPair(m: LogScale, r: AuctionResult, query: seq<real>, floor: real)
    requires m.Lawful() && r.winner.Some? && InPlay(r.winner.value, floor, query)
    requires r.runnerUp.Some? ==> InPlay(r.runnerUp.value, floor, query)
    requires r.runnerUp.Some? ==> !Above(ComputeScore(m, r.runnerUp.value, query), ComputeScore(m, r.winner.value, query))
    ensures var w := r.winner.value;
            var rival := if r.runnerUp.Some? then ComputeScore(m, r.runnerUp.value, query) else NegInf;
            var pay := ComputeVCGPayment(m, r, query, floor);
            && pay == CriticalPrice(m, DistanceTerm(w, query).d, rival, floor)
            && floor <= pay <= w.price && 0.0 <= pay
            && (rival == ComputeScore(m, w, query) ==> pay == w.price)
  {
    if r.runnerUp.Some? {
      ThresholdTies(m, r.winner.value, r.runnerUp.value, floor, query);
    }
  }

  /** The winner pays the critical price: the individual-rationality clamp never
      binds, and the payment lies between the floor and the winner's bid. A
      winner whose score is tied pays exactly its bid. */
  lemma PaymentIsCriticalPrice(m: LogScale, bids: seq<CoreBid>, floor: real, query: seq<real>, t: seq<ScoredBid>)
    requires m.Lawful()
    requires IsRanking(t, Candidates(m, bids, floor, query)) && Placed(t, 0).Some?
    ensures Priceable(Outcome(bids, floor, t), query) && DistanceTerm(t[0].bid, query).Dist?
    ensures var pay := ComputeVCGPayment(m, Outcome(bids, floor, t), query, floor);
            && pay == CriticalPrice(m, DistanceTerm(t[0].bid, query).d, RivalScore(t), floor)
            && floor <= pay <= t[0].bid.price && 0.0 <= pay
            && (|t| > 1 && t[0].score == t[1].score ==> pay == t[0].bid.price)
  {
    OutcomePriceable(m, bids, floor, query, t);
    PlacedIsInPlay(m, bids, floor, query, t, 0);
    if Placed(t, 1).Some? {
      PlacedIsInPlay(m, bids, floor, query, t, 1);
      DescendingPairs(t, 0, 1);
    }
    PaymentOfPair(m, Outcome(bids, floor, t), query, floor);
  }

  /** How ties below the winner fall does not change what the winner pays. */
  lemma PaymentIgnoresTiesBelowWinner(m: LogScale, bids: seq<CoreBid>, floor: real, query: seq<real>,
                                      t: seq<ScoredBid>, u: seq<ScoredBid>)
    requires m.Lawful()
    requires IsRanking(t, Candidates(m, bids, floor, query)) && IsRanking(u, Candidates(m, bids, floor, query))
    requires t != [] && u != [] && t[0] == u[0]
    ensures Priceable(Outcome(bids, floor, t), query) && Priceable(Outcome(bids, floor, u), query)
    ensures ComputeVCGPayment(m, Outcome(bids, floor, t), query, floor) ==
            ComputeVCGPayment(m, Outcome(bids, floor, u), query, floor)
  {
    OutcomePriceable(m, bids, floor, query, t);
    OutcomePriceable(m, bids, floor, query, u);
    RankingsShareScores(t, u);
    if Placed(t, 0).Some? {
      PaymentIsCriticalPrice(m, bids, floor, query, t);
      PaymentIsCriticalPrice(m, bids, floor, query, u);
    }
  }

  lemma ThresholdIsExternality(m: LogScale, w: CoreBid, ru: CoreBid, floor: real, query: seq<real>)
    requires m.Lawful() && InPlay(w, floor, query) && InPlay(ru, floor, query)
    ensures Times(Threshold(m, w, ru, query), m.pow(-DistanceTerm(w, query).d)) == Times(ru.price, m.pow(-DistanceTerm(ru, query).d))
  {
    ShiftBack(m, ru.price, DistanceTerm(w, query).d, DistanceTerm(ru, query).d);
  }

  lemma PaymentAboveFloor(m: LogScale, r: AuctionResult, query: seq<real>, floor: real)
    requires m.Lawful() && r.winner.Some? && r.runnerUp.Some?
    requires InPlay(r.winner.value, floor, query) && InPlay(r.runnerUp.value, floor, query)
    requires !Above(ComputeScore(m, r.runnerUp.value, query), ComputeScore(m, r.winner.value, query))
    requires ComputeVCGPayment(m, r, query, floor) > floor
    ensures ComputeVCGPayment(m, r, query, floor) == Threshold(m, r.winner.value, r.runnerUp.value, query)
  {
    ThresholdTies(m, r.winner.value, r.runnerUp.value, floor, query);
  }

  /** The price x, times the winner's relevance B^(-termW), is the effective
      price of the runner-up: what the winner's presence costs the others. */
  predicate CostsTheOthers(m: LogScale, x: real, w: CoreBid, ru: CoreBid, query: seq<real>) {
    && DistanceTerm(w, query).Dist? && DistanceTerm(ru, query).Dist?
    && Times(x, m.pow(-DistanceTerm(w, query).d)) == Times(ru.price, m.pow(-DistanceTerm(ru, query).d))
  }

  lemma PairExternality(m: LogScale, r: AuctionResult, query: seq<real>, floor: real)
    requires m.Lawful() && r.winner.Some? && r.runnerUp.Some?
    requires InPlay(r.winner.value, floor, query) && InPlay(r.runnerUp.value, floor, query)
    requires !Above(ComputeScore(m, r.runnerUp.value, query), ComputeScore(m, r.winner.value, query))
    requires ComputeVCGPayment(m, r, query, floor) > floor
    ensures CostsTheOthers(m, ComputeVCGPayment(m, r, query, floor), r.winner.value, r.runnerUp.value, query)
  {
    PaymentAboveFloor(m, r, query, floor);
    ThresholdIsExternality(m, r.winner.value, r.runnerUp.value, floor, query);
  }

  /** A payment above the floor is the winner's externality. */
  lemma PaymentIsExternality(m: LogScale, bids: seq<CoreBid>, floor: real, query: seq<real>, t: seq<ScoredBid>)
    requires m.Lawful()
    requires IsRanking(t, Candidates(m, bids, floor, query)) && Placed(t, 0).Some? && Placed(t, 1).Some?
    ensures Priceable(Outcome(bids, floor, t), query)
    ensures var pay := ComputeVCGPayment(m, Outcome(bids, floor, t), query, floor);
            pay > floor ==> CostsTheOthers(m, pay, t[0].bid, t[1].bid, query)
  {
    var r := Outcome(bids, floor, t);
    OutcomePriceable(m, bids, floor, query, t);
    PlacedIsInPlay(m, bids, floor, query, t, 0);
    PlacedIsInPlay(m, bids, floor, query, t, 1);
    DescendingPairs(t, 0, 1);
    if ComputeVCGPayment(m, r, query, floor) > floor {
      PairExternality(m, r, query, floor);
    }
  }

  lemma ShiftBack(m: LogScale, p: real, t: real, u: real)
    requires m.Lawful() && p > 0.0
    ensures Times(p * m.pow(t - u), m.pow(-t)) == Times(p, m.pow(-u))
  {
    var x := t - u + m.log(p);
    m.PowShift(p, t - u);
    m.PowShift(p, -u);
    assert x + -t == -u + m.log(p);
    assert m.PowAdds(x, -t);
  }

  /** At equal distances the auction is a second-price auction with a reserve. */
  lemma EqualDistanceIsSecondPrice(m: LogScale, r: AuctionResult, query: seq<real>, floor: real)
    requires m.Lawful() && r.winner.Some? && r.runnerUp.Some?
    requires InPlay(r.winner.value, floor, query) && InPlay(r.runnerUp.value, floor, query)
    requires !Above(ComputeScore(m, r.runnerUp.value, query), ComputeScore(m, r.winner.value, query))
    requires DistanceTerm(r.winner.value, query) == DistanceTerm(r.runnerUp.value, query)
    ensures ComputeVCGPayment(m, r, query, floor) == r.runnerUp.value.price
  {
    var w, ru := r.winner.value, r.runnerUp.value;
    ThresholdTies(m, w, ru, floor, query);
    assert m.LogInverts(ru.price);
    assert DistanceTerm(w, query).d + ComputeScore(m, ru, query).v == m.log(ru.price);
  }
}
