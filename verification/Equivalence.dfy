/** The adserver's and the enclave's auctions have the same outcomes. */
module Equivalence {
  import opened Wrappers
  import opened Scoring
  import opened Ranking
  import opened Auction
  import opened Sequences
  import opened Payment
  import opened EnclaveAuction

  /** What an auction means for the money: who wins, against whom, at what price. */
  datatype Sale = Sale(winner: Option<CoreBid>, runnerUp: Option<CoreBid>, payment: real)

  ghost predicate AdserverSells(m: LogScale, bids: seq<CoreBid>, floor: real, query: seq<real>, sale: Sale) {
    exists r :: Possible(m, bids, floor, query, r) && Priceable(r, query)
                && sale == Sale(r.winner, r.runnerUp, ComputeVCGPayment(m, r, query, floor))
  }

  ghost predicate EnclaveSells(m: LogScale, bids: seq<CoreBid>, floor: real, query: seq<real>, sale: Sale) {
    exists r :: EnclavePossible(m, bids, floor, query, r) && EnclavePriceable(r, query)
                && sale == Sale(r.winner, r.runnerUp, EnclaveVCGPayment(m, r, query, floor))
  }

  ghost predicate DistinctIds(bids: seq<CoreBid>) {
    forall i, j :: 0 <= i < j < |bids| ==> bids[i].id != bids[j].id
  }

  // ----- where the floors agree -----

  /** No positive price is below the floor and yet rounds to it. */
  ghost predicate FloorsCoincide(bids: seq<CoreBid>, floor: real) {
    forall b :: b in bids && b.price > 0.0 && BidMeetsFloor(b.price, floor) ==> b.price >= floor
  }

  /** The two copies let the same bids through exactly if their floors coincide on them. */
  lemma EligibleAgreeIff(bids: seq<CoreBid>, floor: real)
    ensures EnclaveEligible(bids, floor) == Eligible(bids, floor) <==> FloorsCoincide(bids, floor)
  {
    var valid := Keep(bids, Positive);
    if FloorsCoincide(bids, floor) {
      forall b | b in valid ensures AtLeast(floor)(b) == RoundedAtLeast(floor)(b) {
        FloorRoundingGap(b.price, floor);
      }
      KeepAgrees(valid, AtLeast(floor), RoundedAtLeast(floor));
    } else {
      var b :| b in bids && b.price > 0.0 && BidMeetsFloor(b.price, floor) && !(b.price >= floor);
      assert b in EnclaveEligible(bids, floor) && b !in Eligible(bids, floor);
    }
  }

  lemma EligibleDistinctIds(bids: seq<CoreBid>, floor: real)
    requires DistinctIds(bids)
    ensures DistinctIds(Eligible(bids, floor))
  {
    KeepDistinctIds(bids, Positive);
    KeepDistinctIds(Keep(bids, Positive), AtLeast(floor));
  }

  /** Distinct IDs stay distinct under filtering. */
  lemma {:induction false} KeepDistinctIds(bids: seq<CoreBid>, p: CoreBid -> bool)
    requires DistinctIds(bids)
    ensures DistinctIds(Keep(bids, p))
  {
    if bids != [] {
      var rest, last := bids[..|bids| - 1], bids[|bids| - 1];
      KeepDistinctIds(rest, p);
      var kept := Keep(rest, p);
      forall i | 0 <= i < |kept| ensures kept[i].id != last.id {
        assert kept[i] in kept;
        var k :| 0 <= k < |rest| && rest[k] == kept[i];
        assert bids[k].id != bids[|bids| - 1].id;
      }
    }
  }

  /** With distinct IDs the lookup by ID finds the entry itself. */
  lemma {:induction false} ByIdFinds(m: LogScale, bids: seq<CoreBid>, query: seq<real>, i: nat)
    requires i < |bids| && DistinctIds(bids)
    ensures var s := ScoreAll(m, bids, query);
            bids[i].id in ById(s) && ById(s)[bids[i].id] == s[i]
  {
    var s := ScoreAll(m, bids, query);
    var n := |bids| - 1;
    assert s[..n] == ScoreAll(m, bids[..n], query);
    if i < n {
      ByIdFinds(m, bids[..n], query, i);
      assert bids[i].id != bids[n].id;
    }
  }

  // ----- with a query point -----

  lemma EntriesAgree(m: LogScale, eligible: seq<CoreBid>, query: seq<real>)
    requires AllPositive(eligible)
    ensures EmbeddingScored(m, eligible, query) == ScoreAll(m, eligible, query)
  {
    forall i | 0 <= i < |eligible| ensures EmbeddingScored(m, eligible, query)[i] == ScoreAll(m, eligible, query)[i] {
      ScoresAgree(m, eligible[i], query);
    }
  }

  lemma EligiblePositive(bids: seq<CoreBid>, floor: real)
    ensures AllPositive(Eligible(bids, floor))
  {
    forall i | 0 <= i < |Eligible(bids, floor)| ensures Eligible(bids, floor)[i].price > 0.0 {
      assert Eligible(bids, floor)[i] in Eligible(bids, floor);
    }
  }

  lemma RankedIsEntry(s: seq<ScoredBid>, t: seq<ScoredBid>, rank: nat) returns (p: nat)
    requires IsRanking(t, Collapse(s)) && rank < |t|
    ensures p < |s| && s[p] == t[rank]
  {
    CollapseIsFirstBest(s);
    assert t[rank] in multiset(t);
    assert t[rank] in Collapse(s);
    var k :| 0 <= k < |Collapse(s)| && Collapse(s)[k] == t[rank];
    assert FirstBest(s, Collapse(s)[k]);
    p :| 0 <= p < |s| && s[p] == t[rank] && BeatsEarlier(s, p);
  }

  /** A bidder's entry found again by ID carries the score it was ranked by. */
  lemma LookupIsOwnScore(m: LogScale, eligible: seq<CoreBid>, query: seq<real>, t: seq<ScoredBid>, rank: nat)
    requires DistinctIds(eligible)
    requires IsRanking(t, Collapse(ScoreAll(m, eligible, query)))
    ensures EnclavePlaced(ScoreAll(m, eligible, query), t, rank) == Placed(t, rank)
  {
    if rank < |t| {
      var p := RankedIsEntry(ScoreAll(m, eligible, query), t, rank);
      ByIdFinds(m, eligible, query, p);
    }
  }

  /** With distinct IDs the entries found again by ID are those of the ranking. */
  lemma {:induction false} ScoredIsRanking(m: LogScale, eligible: seq<CoreBid>, query: seq<real>, t: seq<ScoredBid>, k: nat)
    requires DistinctIds(eligible) && k <= |t|
    requires IsRanking(t, Collapse(ScoreAll(m, eligible, query)))
    ensures SortedScored(ScoreAll(m, eligible, query), t[..k]) == t[..k]
  {
    if k > 0 {
      ScoredIsRanking(m, eligible, query, t, k - 1);
      assert t[..k][..k - 1] == t[..k - 1];
      var p := RankedIsEntry(ScoreAll(m, eligible, query), t, k - 1);
      ByIdFinds(m, eligible, query, p);
    }
  }

  /** At a query point a ranking yields the same winner, runner-up and scored
      bids on both sides. */
  lemma QueryOutcomesAgree(m: LogScale, bids: seq<CoreBid>, floor: real, query: seq<real>, t: seq<ScoredBid>)
    requires DistinctIds(bids) && FloorsCoincide(bids, floor) && |query| > 0
    ensures EnclaveCandidates(m, bids, floor, query) == Candidates(m, bids, floor, query)
    ensures IsRanking(t, Candidates(m, bids, floor, query)) ==>
              var r, e := Outcome(bids, floor, t), EnclaveOutcome(m, bids, floor, query, t);
              e.winner == r.winner && e.runnerUp == r.runnerUp && e.scored == r.scored
  {
    EligibleAgreeIff(bids, floor);
    EligiblePositive(bids, floor);
    EligibleDistinctIds(bids, floor);
    var eligible := Eligible(bids, floor);
    EntriesAgree(m, eligible, query);
    if IsRanking(t, Candidates(m, bids, floor, query)) {
      LookupIsOwnScore(m, eligible, query, t, 0);
      LookupIsOwnScore(m, eligible, query, t, 1);
      ScoredIsRanking(m, eligible, query, t, |t|);
      assert t[..|t|] == t;
    }
  }

  // ----- without a query point: price order against score order -----

  predicate AllPositive(bids: seq<CoreBid>) {
    forall i :: 0 <= i < |bids| ==> bids[i].price > 0.0
  }

  /** Comparing prices and comparing scores come to the same. */
  lemma PriceOrderIsScoreOrder(m: LogScale, a: CoreBid, b: CoreBid)
    requires m.Lawful() && a.price > 0.0 && b.price > 0.0
    ensures Above(Finite(a.price), Finite(b.price)) <==> Above(ComputeScore(m, a, []), ComputeScore(m, b, []))
  {
    m.LogOrder(b.price, a.price);
  }

  lemma {:induction false} SameBidsSameSlot(c: seq<ScoredBid>, d: seq<ScoredBid>, bidder: string)
    requires BidsOf(c) == BidsOf(d)
    ensures Slot(c, bidder) == Slot(d, bidder)
  {
    assert |c| == |BidsOf(c)| && |d| == |BidsOf(d)|;
    if c != [] {
      assert c[0].bid == BidsOf(c)[0] == BidsOf(d)[0] == d[0].bid;
      assert BidsOf(c[1..]) == BidsOf(c)[1..] && BidsOf(d[1..]) == BidsOf(d)[1..];
      SameBidsSameSlot(c[1..], d[1..], bidder);
    }
  }

  /** A keyed collection: prices on one side, scores on the other. */
  ghost predicate Twins(m: LogScale, c: seq<ScoredBid>, d: seq<ScoredBid>) {
    && BidsOf(c) == BidsOf(d)
    && forall i :: 0 <= i < |c| ==> c[i].bid.price > 0.0 && c[i].score == Finite(c[i].bid.price)
                                    && d[i].score == ComputeScore(m, d[i].bid, [])
  }

  lemma OfferTwins(m: LogScale, c: seq<ScoredBid>, d: seq<ScoredBid>, b: CoreBid)
    requires m.Lawful() && Twins(m, c, d) && b.price > 0.0
    ensures Twins(m, Offer(c, ScoredBid(b, Finite(b.price))), Offer(d, ScoredBid(b, ComputeScore(m, b, []))))
  {
    SameBidsSameSlot(c, d, b.bidder);
    assert |c| == |BidsOf(c)| == |BidsOf(d)| == |d|;
    var k := Slot(c, b.bidder);
    if k < |c| {
      assert c[k].bid == BidsOf(c)[k] == d[k].bid;
      PriceOrderIsScoreOrder(m, b, c[k].bid);
    }
    OfferTwinBids(c, d, b, Finite(b.price), ComputeScore(m, b, []));
  }

  lemma OfferTwinBids(c: seq<ScoredBid>, d: seq<ScoredBid>, b: CoreBid, x: Score, y: Score)
    requires BidsOf(c) == BidsOf(d) && Slot(c, b.bidder) == Slot(d, b.bidder)
    requires |c| == |d|
    requires var k := Slot(c, b.bidder); k < |c| ==> (Above(x, c[k].score) <==> Above(y, d[k].score))
    ensures BidsOf(Offer(c, ScoredBid(b, x))) == BidsOf(Offer(d, ScoredBid(b, y)))
  {
    var c', d' := Offer(c, ScoredBid(b, x)), Offer(d, ScoredBid(b, y));
    forall i | 0 <= i < |c'| ensures c'[i].bid == d'[i].bid {
      if i < |c| {
        assert c[i].bid == BidsOf(c)[i] == BidsOf(d)[i] == d[i].bid;
      }
    }
  }

  lemma {:induction false} CollapseTwins(m: LogScale, bids: seq<CoreBid>)
    requires m.Lawful() && AllPositive(bids)
    ensures Twins(m, Collapse(PriceKeyed(bids)), Collapse(ScoreAll(m, bids, [])))
  {
    if bids != [] {
      var n := |bids| - 1;
      assert PriceKeyed(bids)[..n] == PriceKeyed(bids[..n]);
      assert ScoreAll(m, bids, [])[..n] == ScoreAll(m, bids[..n], []);
      CollapseTwins(m, bids[..n]);
      OfferTwins(m, Collapse(PriceKeyed(bids[..n])), Collapse(ScoreAll(m, bids[..n], [])), bids[n]);
    }
  }

  function Image(f: ScoredBid -> ScoredBid, s: seq<ScoredBid>): (r: seq<ScoredBid>)
    ensures |r| == |s| && forall i :: 0 <= i < |s| ==> r[i] == f(s[i])
  {
    seq(|s|, i requires 0 <= i < |s| => f(s[i]))
  }

  lemma {:induction false} ImagePermutation(f: ScoredBid -> ScoredBid, s: seq<ScoredBid>, t: seq<ScoredBid>)
    requires multiset(s) == multiset(t)
    ensures multiset(Image(f, s)) == multiset(Image(f, t))
    decreases |s|
  {
    if s == [] {
      assert |multiset(t)| == |t|;
    } else {
      assert s[0] in multiset(s);
      var s' := ImageDrop(f, s, s[0]);
      var t' := ImageDrop(f, t, s[0]);
      ImagePermutation(f, s', t');
    }
  }

  lemma ImageDrop(f: ScoredBid -> ScoredBid, t: seq<ScoredBid>, x: ScoredBid) returns (rest: seq<ScoredBid>)
    requires x in multiset(t)
    ensures |rest| < |t| && multiset(rest) == multiset(t) - multiset{x}
    ensures multiset(Image(f, t)) == multiset(Image(f, rest)) + multiset{f(x)}
  {
    var p: nat :| p < |t| && t[p] == x;
    rest := t[..p] + t[p + 1..];
    assert t == t[..p] + ([x] + t[p + 1..]);
    ImageOfSplit(f, t[..p], x, t[p + 1..]);
  }

  lemma ImageOfSplit(f: ScoredBid -> ScoredBid, a: seq<ScoredBid>, x: ScoredBid, b: seq<ScoredBid>)
    ensures multiset(Image(f, a + ([x] + b))) == multiset(Image(f, a + b)) + multiset{f(x)}
  {
    ImageConcat(f, a, b);
    ImageConcat(f, a, [x] + b);
    ImageConcat(f, [x], b);
    assert Image(f, [x]) == [f(x)];
  }

  lemma ImageConcat(f: ScoredBid -> ScoredBid, a: seq<ScoredBid>, b: seq<ScoredBid>)
    ensures Image(f, a + b) == Image(f, a) + Image(f, b)
  {
  }

  function ToScored(m: LogScale): ScoredBid -> ScoredBid {
    (e: ScoredBid) => ScoredBid(e.bid, ComputeScore(m, e.bid, []))
  }

  function ToPriced(): ScoredBid -> ScoredBid {
    (e: ScoredBid) => ScoredBid(e.bid, Finite(e.bid.price))
  }

  lemma ImageOfTwin(m: LogScale, c: seq<ScoredBid>, d: seq<ScoredBid>)
    requires Twins(m, c, d)
    ensures Image(ToScored(m), c) == d && Image(ToPriced(), d) == c
  {
    assert |c| == |BidsOf(c)| == |BidsOf(d)| == |d|;
    forall i | 0 <= i < |c| ensures Image(ToScored(m), c)[i] == d[i] && Image(ToPriced(), d)[i] == c[i] {
      assert c[i].bid == BidsOf(c)[i] == BidsOf(d)[i] == d[i].bid;
    }
  }

  ghost predicate OrderMatches(f: ScoredBid -> ScoredBid, c: seq<ScoredBid>) {
    forall x, y :: x in c && y in c ==> (Above(f(x).score, f(y).score) <==> Above(x.score, y.score))
  }

  /** Re-keying with the same order turns rankings into rankings. */
  lemma ImageRanking(f: ScoredBid -> ScoredBid, t: seq<ScoredBid>, c: seq<ScoredBid>)
    requires IsRanking(t, c) && OrderMatches(f, c)
    ensures IsRanking(Image(f, t), Image(f, c))
  {
    ImagePermutation(f, t, c);
    forall i | 0 <= i < |t| - 1 ensures !Above(f(t[i + 1]).score, f(t[i]).score) {
      assert t[i] in multiset(t) && t[i + 1] in multiset(t);
      assert t[i] in c && t[i + 1] in c;
      assert !Above(t[i + 1].score, t[i].score);
    }
  }

  lemma TwinOrders(m: LogScale, c: seq<ScoredBid>, d: seq<ScoredBid>)
    requires m.Lawful() && Twins(m, c, d)
    ensures OrderMatches(ToScored(m), c) && OrderMatches(ToPriced(), d)
  {
    assert |c| == |BidsOf(c)| == |BidsOf(d)| == |d|;
    forall x, y | x in c && y in c ensures Above(ToScored(m)(x).score, ToScored(m)(y).score) <==> Above(x.score, y.score) {
      PriceOrderIsScoreOrder(m, x.bid, y.bid);
    }
    forall x, y | x in d && y in d ensures Above(ToPriced()(x).score, ToPriced()(y).score) <==> Above(x.score, y.score) {
      var i :| 0 <= i < |d| && d[i] == x;
      var j :| 0 <= j < |d| && d[j] == y;
      assert c[i].bid == BidsOf(c)[i] == BidsOf(d)[i] == x.bid;
      assert c[j].bid == BidsOf(c)[j] == BidsOf(d)[j] == y.bid;
      PriceOrderIsScoreOrder(m, x.bid, y.bid);
    }
  }

  /** Both sides read the same winner and runner-up off rankings with the same bids. */
  lemma PriceOnlyPlaced(m: LogScale, t: seq<ScoredBid>, u: seq<ScoredBid>)
    requires |t| == |u|
    requires forall i :: 0 <= i < |t| ==> t[i].bid == u[i].bid && u[i].score != NegInf
    ensures EnclavePlaced([], t, 0) == Placed(u, 0) && EnclavePlaced([], t, 1) == Placed(u, 1)
  {
  }

  lemma RankedScoreFinite(m: LogScale, bids: seq<CoreBid>, floor: real, u: seq<ScoredBid>)
    requires IsRanking(u, Candidates(m, bids, floor, []))
    ensures forall i :: 0 <= i < |u| ==> u[i].score != NegInf
  {
    forall i | 0 <= i < |u| ensures u[i].score != NegInf {
      RankedIsCandidate(m, bids, floor, u, i);
    }
  }

  lemma RankedIsCandidate(m: LogScale, bids: seq<CoreBid>, floor: real, u: seq<ScoredBid>, i: nat)
    requires IsRanking(u, Candidates(m, bids, floor, [])) && i < |u|
    ensures u[i].score != NegInf
  {
    CandidatesScored(m, bids, floor, []);
    assert u[i] in multiset(u);
    assert u[i] in Candidates(m, bids, floor, []);
  }

  lemma PriceOnlyTwins(m: LogScale, bids: seq<CoreBid>, floor: real)
    requires m.Lawful() && FloorsCoincide(bids, floor)
    ensures Twins(m, EnclaveCandidates(m, bids, floor, []), Candidates(m, bids, floor, []))
  {
    EligibleAgreeIff(bids, floor);
    EligiblePositive(bids, floor);
    CollapseTwins(m, Eligible(bids, floor));
  }

  /** The corresponding ranking on the other side, when there is no query point. */
  lemma PriceOnlyToScored(m: LogScale, bids: seq<CoreBid>, floor: real, t: seq<ScoredBid>) returns (u: seq<ScoredBid>)
    requires m.Lawful() && FloorsCoincide(bids, floor) && IsRanking(t, EnclaveCandidates(m, bids, floor, []))
    ensures IsRanking(u, Candidates(m, bids, floor, []))
    ensures var r, e := Outcome(bids, floor, u), EnclaveOutcome(m, bids, floor, [], t);
            e.winner == r.winner && e.runnerUp == r.runnerUp
  {
    var c, d := EnclaveCandidates(m, bids, floor, []), Candidates(m, bids, floor, []);
    PriceOnlyTwins(m, bids, floor);
    ImageOfTwin(m, c, d);
    TwinOrders(m, c, d);
    u := Image(ToScored(m), t);
    ImageRanking(ToScored(m), t, c);
    RankedScoreFinite(m, bids, floor, u);
    PriceOnlyPlaced(m, t, u);
  }

  lemma ScoredToPriceOnly(m: LogScale, bids: seq<CoreBid>, floor: real, u: seq<ScoredBid>) returns (t: seq<ScoredBid>)
    requires m.Lawful() && FloorsCoincide(bids, floor) && IsRanking(u, Candidates(m, bids, floor, []))
    ensures IsRanking(t, EnclaveCandidates(m, bids, floor, []))
    ensures var r, e := Outcome(bids, floor, u), EnclaveOutcome(m, bids, floor, [], t);
            e.winner == r.winner && e.runnerUp == r.runnerUp
  {
    var c, d := EnclaveCandidates(m, bids, floor, []), Candidates(m, bids, floor, []);
    PriceOnlyTwins(m, bids, floor);
    ImageOfTwin(m, c, d);
    TwinOrders(m, c, d);
    t := Image(ToPriced(), u);
    ImageRanking(ToPriced(), u, d);
    RankedScoreFinite(m, bids, floor, u);
    PriceOnlyPlaced(m, t, u);
  }

  // ----- main result -----

  lemma SameSale(m: LogScale, r: AuctionResult, e: AuctionResult, query: seq<real>, floor: real)
    requires e.winner == r.winner && e.runnerUp == r.runnerUp
    requires Priceable(r, query)
    ensures EnclavePriceable(e, query)
    ensures EnclaveVCGPayment(m, e, query, floor) == ComputeVCGPayment(m, r, query, floor)
  {
    if r.winner.Some? {
      ScoresAgree(m, r.winner.value, query);
    }
    if r.runnerUp.Some? {
      ScoresAgree(m, r.runnerUp.value, query);
    }
  }

  /** For bids with distinct IDs, at any floor on which the two floors coincide,
      the two implementations have exactly the same possible (winner, runner-up,
      payment) outcomes, at every query point and without one. */
  lemma ImplementationsAgreeAtFloor(m: LogScale, bids: seq<CoreBid>, floor: real, query: seq<real>, sale: Sale)
    requires m.Lawful() && DistinctIds(bids) && FloorsCoincide(bids, floor)
    ensures AdserverSells(m, bids, floor, query, sale) <==> EnclaveSells(m, bids, floor, query, sale)
  {
    if AdserverSells(m, bids, floor, query, sale) {
      AdserverSaleInEnclave(m, bids, floor, query, sale);
    }
    if EnclaveSells(m, bids, floor, query, sale) {
      EnclaveSaleInAdserver(m, bids, floor, query, sale);
    }
  }

  /** So they have at floor 0, which is what the enclave passes. */
  lemma ImplementationsAgree(m: LogScale, bids: seq<CoreBid>, query: seq<real>, sale: Sale)
    requires m.Lawful() && DistinctIds(bids)
    ensures AdserverSells(m, bids, 0.0, query, sale) <==> EnclaveSells(m, bids, 0.0, query, sale)
  {
    ImplementationsAgreeAtFloor(m, bids, 0.0, query, sale);
  }

  lemma AdserverSaleInEnclave(m: LogScale, bids: seq<CoreBid>, floor: real, query: seq<real>, sale: Sale)
    requires m.Lawful() && DistinctIds(bids) && FloorsCoincide(bids, floor) && AdserverSells(m, bids, floor, query, sale)
    ensures EnclaveSells(m, bids, floor, query, sale)
  {
    var r :| Possible(m, bids, floor, query, r) && Priceable(r, query)
             && sale == Sale(r.winner, r.runnerUp, ComputeVCGPayment(m, r, query, floor));
    var u :| IsRanking(u, Candidates(m, bids, floor, query)) && r == Outcome(bids, floor, u);
    var t := u;
    if |query| > 0 {
      QueryOutcomesAgree(m, bids, floor, query, t);
    } else {
      assert query == [];
      t := ScoredToPriceOnly(m, bids, floor, u);
    }
    var e := EnclaveOutcome(m, bids, floor, query, t);
    SameSale(m, r, e, query, floor);
    assert EnclavePossible(m, bids, floor, query, e);
  }

  lemma EnclaveSaleInAdserver(m: LogScale, bids: seq<CoreBid>, floor: real, query: seq<real>, sale: Sale)
    requires m.Lawful() && DistinctIds(bids) && FloorsCoincide(bids, floor) && EnclaveSells(m, bids, floor, query, sale)
    ensures AdserverSells(m, bids, floor, query, sale)
  {
    var e :| EnclavePossible(m, bids, floor, query, e) && EnclavePriceable(e, query)
             && sale == Sale(e.winner, e.runnerUp, EnclaveVCGPayment(m, e, query, floor));
    var t :| IsRanking(t, EnclaveCandidates(m, bids, floor, query)) && e == EnclaveOutcome(m, bids, floor, query, t);
    var u := t;
    if |query| > 0 {
      QueryOutcomesAgree(m, bids, floor, query, t);
    } else {
      assert query == [];
      u := PriceOnlyToScored(m, bids, floor, t);
    }
    var r := Outcome(bids, floor, u);
    OutcomePriceable(m, bids, floor, query, u);
    SameSale(m, r, e, query, floor);
    assert Possible(m, bids, floor, query, r);
  }

  // ----- the one known divergence: a positive floor -----

  /** At any floor the enclave's payment is above floor - 10^-4, and at most the bid. */
  lemma EnclavePaymentNearFloor(m: LogScale, bids: seq<CoreBid>, floor: real, query: seq<real>, e: AuctionResult)
    requires EnclavePossible(m, bids, floor, query, e) && EnclavePriceable(e, query) && e.winner.Some?
    ensures floor - 0.0001 < EnclaveVCGPayment(m, e, query, floor) <= e.winner.value.price
    ensures EnclaveVCGPayment(m, e, query, floor) < floor ==> EnclaveVCGPayment(m, e, query, floor) == e.winner.value.price
  {
    var t :| IsRanking(t, EnclaveCandidates(m, bids, floor, query)) && e == EnclaveOutcome(m, bids, floor, query, t);
    var eligible := EnclaveEligible(bids, floor);
    var p := RankedIsEntry(EnclaveEntries(m, eligible, query), t, 0);
    assert EnclaveEntries(m, eligible, query)[p].bid == eligible[p];
    assert eligible[p] in eligible;
    FloorRoundingGap(eligible[p].price, floor);
  }
}
