/** The enclave's own copy of the auction (enclave/auction/): floors rounded to
    four decimals, a price-only path, and winners looked up by bid ID. */
module EnclaveAuction {
  import opened Wrappers
  import opened Scoring
  import opened Ranking
  import opened Auction
  import opened Sequences

  // ----- floor.go -----

  /** math.Round: to the nearest integer, halves away from zero. */
  function Round(x: real): int {
    if x >= 0.0 then (x + 0.5).Floor else -((0.5 - x).Floor)
  }

  /** Round gives a nearest integer, of two the one farther from zero. */
  lemma RoundIsNearest(x: real)
    ensures -0.5 <= Round(x) as real - x <= 0.5
    ensures x >= 0.0 ==> Round(x) as real - x > -0.5
    ensures x < 0.0 ==> Round(x) as real - x < 0.5
  {
  }

  predicate BidMeetsFloor(price: real, floor: real) {
    Round(price * 10000.0) as real / 10000.0 >= Round(floor * 10000.0) as real / 10000.0
  }

  /** Rounding never rejects a bid that meets the floor, and every bid it lets
      through is less than 10^-4 below the floor. */
  lemma FloorRoundingGap(price: real, floor: real)
    ensures price >= floor ==> BidMeetsFloor(price, floor)
    ensures BidMeetsFloor(price, floor) ==> price > floor - 0.0001
  {
  }

  /** The gap is sharp: every smaller one occurs. */
  lemma EveryGapOccurs(gap: real)
    requires 0.0 <= gap < 0.0001
    ensures BidMeetsFloor(0.99995, 0.99995 + gap)
  {
  }

  /** The two floors do differ: a bid of 0.99995 passes a floor of 1 here only. */
  lemma FloorsDiffer()
    ensures BidMeetsFloor(0.99995, 1.0) && !AtLeast(1.0)(CoreBid("", "", 0.99995, "", [], 0.0))
  {
  }

  function RoundedAtLeast(floor: real): CoreBid -> bool {
    (b: CoreBid) => BidMeetsFloor(b.price, floor)
  }

  method EnforceBidFloor(bids: seq<CoreBid>, floor: real) returns (eligible: seq<CoreBid>, rejected: seq<string>)
    ensures eligible == Keep(bids, RoundedAtLeast(floor))
    ensures rejected == Ids(Keep(bids, Not(RoundedAtLeast(floor))))
  {
    eligible, rejected := [], [];
    for i := 0 to |bids|
      invariant eligible == Keep(bids[..i], RoundedAtLeast(floor))
      invariant rejected == Ids(Keep(bids[..i], Not(RoundedAtLeast(floor))))
    {
      KeepStep(bids, i, RoundedAtLeast(floor));
      IdsStep(bids, i, Not(RoundedAtLeast(floor)));
      if BidMeetsFloor(bids[i].price, floor) {
        eligible := eligible + [bids[i]];
      } else {
        rejected := rejected + [bids[i].id];
      }
    }
    assert bids[..|bids|] == bids;
  }

  function EnclaveEligible(bids: seq<CoreBid>, floor: real): seq<CoreBid> {
    Keep(Keep(bids, Positive), RoundedAtLeast(floor))
  }

  /** Some bid by this ID is rejected by the rounded floor. */
  predicate RoundedOut(bids: seq<CoreBid>, floor: real, id: string) {
    exists b :: b in bids && b.id == id && b.price > 0.0 && !BidMeetsFloor(b.price, floor)
  }

  ghost predicate EnclaveSorts(r: AuctionResult, bids: seq<CoreBid>, floor: real) {
    && (forall b :: b in r.eligible <==> b in bids && b.price > 0.0 && BidMeetsFloor(b.price, floor))
    && (forall id :: id in r.priceRejected <==> PricedOut(bids, id))
    && (forall id :: id in r.floorRejected <==> RoundedOut(bids, floor, id))
    && |r.eligible| + |r.priceRejected| + |r.floorRejected| == |bids|
  }

  lemma EnclaveOutcomeSorts(m: LogScale, bids: seq<CoreBid>, floor: real, query: seq<real>, t: seq<ScoredBid>)
    ensures EnclaveSorts(EnclaveOutcome(m, bids, floor, query, t), bids, floor)
  {
    var low := Keep(bids, Not(Positive));
    var under := Keep(Keep(bids, Positive), Not(RoundedAtLeast(floor)));
    KeepSplits(bids, Positive);
    KeepSplits(Keep(bids, Positive), RoundedAtLeast(floor));
    forall id ensures (id in Ids(low) <==> PricedOut(bids, id)) && (id in Ids(under) <==> RoundedOut(bids, floor, id)) {
      IdsAre(low, id);
      IdsAre(under, id);
    }
  }

  // ----- embedding.go -----

  /** Unlike the other copy, two empty vectors are at distance 0 here. */
  function EnclaveDistanceSq(a: seq<real>, b: seq<real>): Distance {
    if |a| != |b| then PosInf else Dist(SumSq(a, b, |a|))
  }

  method EnclaveSquaredEuclideanDistance(a: seq<real>, b: seq<real>) returns (r: Distance)
    ensures r == EnclaveDistanceSq(a, b)
  {
    if |a| != |b| {
      return PosInf;
    }
    var sum := 0.0;
    for i := 0 to |a|
      invariant sum == SumSq(a, b, i)
    {
      sum := sum + Square(a[i] - b[i]);
    }
    return Dist(sum);
  }

  function EnclaveTerm(embedding: seq<real>, sigma: real, query: seq<real>): Distance {
    if |embedding| == 0 || |query| == 0 then Dist(0.0)
    else
      var dist2 := EnclaveDistanceSq(embedding, query);
      if sigma == 0.0 then
        if dist2 == Dist(0.0) then Dist(0.0) else PosInf
      else if dist2.PosInf? then PosInf
      else Dist(dist2.d / Square(sigma))
  }

  function ComputeEmbeddingScore(m: LogScale, price: real, embedding: seq<real>, sigma: real, query: seq<real>): Score {
    var term := EnclaveTerm(embedding, sigma, query);
    if term.PosInf? then NegInf else Finite(m.log(price) - term.d)
  }

  /** The two copies penalise and score every positive bid alike. */
  lemma ScoresAgree(m: LogScale, b: CoreBid, query: seq<real>)
    ensures EnclaveTerm(b.embedding, b.sigma, query) == DistanceTerm(b, query)
    ensures b.price > 0.0 ==> ComputeEmbeddingScore(m, b.price, b.embedding, b.sigma, query) == ComputeScore(m, b, query)
  {
  }

  function EmbeddingScored(m: LogScale, bids: seq<CoreBid>, query: seq<real>): (r: seq<ScoredBid>)
    ensures |r| == |bids|
  {
    seq(|bids|, i requires 0 <= i < |bids| =>
      ScoredBid(bids[i], ComputeEmbeddingScore(m, bids[i].price, bids[i].embedding, bids[i].sigma, query)))
  }

  // ----- ranking.go -----

  /** Price-only ranking compares prices where the other copy compares scores. */
  function PriceKeyed(bids: seq<CoreBid>): (r: seq<ScoredBid>)
    ensures |r| == |bids| && forall i :: 0 <= i < |bids| ==> r[i] == ScoredBid(bids[i], Finite(bids[i].price))
  {
    seq(|bids|, i requires 0 <= i < |bids| => ScoredBid(bids[i], Finite(bids[i].price)))
  }

  /** The entries that the enclave ranks. */
  function EnclaveEntries(m: LogScale, eligible: seq<CoreBid>, query: seq<real>): seq<ScoredBid> {
    if |query| > 0 then EmbeddingScored(m, eligible, query) else PriceKeyed(eligible)
  }

  datatype CoreRanking = CoreRanking(ranks: map<string, nat>, highestBids: map<string, CoreBid>, sortedBidders: seq<string>)

  ghost predicate Ranks(r: CoreRanking, t: seq<ScoredBid>) {
    && |r.sortedBidders| == |t|
    && (forall i :: 0 <= i < |t| ==>
          var b := t[i].bid.bidder;
          r.sortedBidders[i] == b && b in r.highestBids && r.highestBids[b] == t[i].bid && b in r.ranks && r.ranks[b] == i + 1)
  }

  /** The per-bidder collapse, written with a seen-set beside the map. */
  method CollapseEntries(bids: seq<ScoredBid>) returns (entries: seq<ScoredBid>)
    ensures entries == Collapse(bids)
  {
    var bidderMap: map<string, ScoredBid> := map[];
    var bidderOrder: seq<string> := [];
    var seen: set<string> := {};
    ghost var c: seq<ScoredBid> := [];
    for i := 0 to |bids|
      invariant c == Collapse(bids[..i])
      invariant Represents(bidderOrder, bidderMap, c) && seen == bidderMap.Keys
    {
      var e := bids[i];
      var b := e.bid.bidder;
      CollapseOneMore(bids, i);
      if b !in seen {
        OpenRepresented(bidderOrder, bidderMap, c, e);
        bidderOrder := bidderOrder + [b];
        seen := seen + {b};
        bidderMap := bidderMap[b := e];
      } else {
        ReplaceRepresented(bidderOrder, bidderMap, c, e);
        if Above(e.score, bidderMap[b].score) {
          bidderMap := bidderMap[b := e];
        }
      }
      c := Offer(c, e);
    }
    assert bids[..|bids|] == bids;
    CollapseIsFirstBest(bids);
    entries := ReadEntries(bidderOrder, bidderMap, c);
  }

  lemma CollapseOneMore(s: seq<ScoredBid>, i: nat)
    requires i < |s|
    ensures Collapse(s[..i + 1]) == Offer(Collapse(s[..i]), s[i])
  {
    assert s[..i + 1][..i] == s[..i];
  }

  method ReadEntries(order: seq<string>, best: map<string, ScoredBid>, ghost c: seq<ScoredBid>) returns (entries: seq<ScoredBid>)
    requires Represents(order, best, c) && OneEntryPerBidder(c)
    ensures entries == c
  {
    entries := [];
    for i := 0 to |order|
      invariant |entries| == i && forall j :: 0 <= j < i ==> entries[j] == c[j]
    {
      SlotUnique(c, i);
      entries := entries + [best[order[i]]];
    }
  }

  method BuildRanking(t: seq<ScoredBid>) returns (r: CoreRanking)
    requires OneEntryPerBidder(t)
    ensures Ranks(r, t)
  {
    r := CoreRanking(map[], map[], []);
    for i := 0 to |t|
      invariant Ranks(r, t[..i])
    {
      var b := t[i].bid.bidder;
      r := CoreRanking(r.ranks[b := i + 1], r.highestBids[b := t[i].bid], r.sortedBidders + [b]);
    }
    assert t[..|t|] == t;
  }

  /** Collapse, sort, shuffle the ties. sort.Slice is not stable: sorted is
      whichever descending order of the entries it delivers. */
  method RankEntries(bids: seq<ScoredBid>, sorted: seq<ScoredBid>, draws: seq<nat>) returns (r: CoreRanking)
    requires IsRanking(sorted, Collapse(bids)) && ValidDraws(sorted, draws)
    ensures Ranks(r, Ranked(sorted, draws))
  {
    var entries := CollapseEntries(bids);
    var scored := new ScoredBid[|sorted|](i requires 0 <= i < |sorted| => sorted[i]);
    assert scored[..] == sorted;
    BreakTies(scored, draws);
    RankedIsRanking(sorted, draws);
    OneEntryInAnyOrder(bids, scored[..]);
    r := BuildRanking(scored[..]);
  }

  lemma OneEntryInAnyOrder(bids: seq<ScoredBid>, t: seq<ScoredBid>)
    requires IsRanking(t, Collapse(bids))
    ensures OneEntryPerBidder(t)
  {
    var c := Collapse(bids);
    CollapseIsFirstBest(bids);
    PermutationDistinct(t, c);
    forall i, j | 0 <= i < j < |t| ensures t[i].bid.bidder != t[j].bid.bidder {
      assert t[i] in multiset(t) && t[j] in multiset(t);
      assert t[i] in c && t[j] in c;
    }
  }

  // ----- auction.go -----

  /** scoredByID: a later entry overwrites an earlier one with the same ID. */
  function ById(scored: seq<ScoredBid>): map<string, ScoredBid> {
    if scored == [] then map[] else ById(scored[..|scored| - 1])[scored[|scored| - 1].bid.id := scored[|scored| - 1]]
  }

  /** e is the last of the entries with its ID. */
  ghost predicate LastEntry(scored: seq<ScoredBid>, id: string, e: ScoredBid) {
    exists i :: 0 <= i < |scored| && scored[i] == e && e.bid.id == id && forall j :: i < j < |scored| ==> scored[j].bid.id != id
  }

  lemma {:induction false} ByIdHoldsLast(scored: seq<ScoredBid>, id: string)
    ensures if id in ById(scored) then LastEntry(scored, id, ById(scored)[id]) else forall i :: 0 <= i < |scored| ==> scored[i].bid.id != id
  {
    if scored != [] {
      var n := |scored| - 1;
      ByIdHoldsLast(scored[..n], id);
      if scored[n].bid.id != id && id in ById(scored[..n]) {
        LastEntryKept(scored, id, ById(scored[..n])[id]);
      }
    }
  }

  lemma LastEntryKept(scored: seq<ScoredBid>, id: string, e: ScoredBid)
    requires scored != [] && scored[|scored| - 1].bid.id != id && LastEntry(scored[..|scored| - 1], id, e)
    ensures LastEntry(scored, id, e)
  {
    var n := |scored| - 1;
    var i :| 0 <= i < n && scored[..n][i] == e && e.bid.id == id && forall j :: i < j < n ==> scored[..n][j].bid.id != id;
    assert scored[i] == e && forall j :: i < j < n ==> scored[..n][j] == scored[j];
  }

  predicate HasFiniteScore(scored: seq<ScoredBid>, bid: CoreBid) {
    |scored| == 0 || (bid.id in ById(scored) && ById(scored)[bid.id].score != NegInf)
  }

  /** The scored entries in rank order, each found again by its ID. */
  function SortedScored(scored: seq<ScoredBid>, t: seq<ScoredBid>): seq<ScoredBid> {
    if t == [] then []
    else
      var id := t[|t| - 1].bid.id;
      SortedScored(scored, t[..|t| - 1]) + if id in ById(scored) then [ById(scored)[id]] else []
  }

  function EnclavePlaced(scored: seq<ScoredBid>, t: seq<ScoredBid>, rank: nat): Option<CoreBid> {
    if rank < |t| && HasFiniteScore(scored, t[rank].bid) then Some(t[rank].bid) else None
  }

  function EnclaveScored(m: LogScale, eligible: seq<CoreBid>, query: seq<real>): seq<ScoredBid> {
    if |query| > 0 then EmbeddingScored(m, eligible, query) else []
  }

  function EnclaveOutcome(m: LogScale, bids: seq<CoreBid>, floor: real, query: seq<real>, t: seq<ScoredBid>): AuctionResult {
    var eligible := EnclaveEligible(bids, floor);
    var scored := EnclaveScored(m, eligible, query);
    AuctionResult(
      EnclavePlaced(scored, t, 0),
      if EnclavePlaced(scored, t, 0).Some? then EnclavePlaced(scored, t, 1) else None,
      eligible,
      SortedScored(scored, t),
      Ids(Keep(bids, Not(Positive))),
      Ids(Keep(Keep(bids, Positive), Not(RoundedAtLeast(floor)))))
  }

  function EnclaveCandidates(m: LogScale, bids: seq<CoreBid>, floor: real, query: seq<real>): seq<ScoredBid> {
    Collapse(EnclaveEntries(m, EnclaveEligible(bids, floor), query))
  }

  method IndexById(scored: seq<ScoredBid>) returns (byId: map<string, ScoredBid>)
    ensures byId == ById(scored)
  {
    byId := map[];
    for i := 0 to |scored|
      invariant byId == ById(scored[..i])
    {
      assert scored[..i + 1][..i] == scored[..i];
      byId := byId[scored[i].bid.id := scored[i]];
    }
    assert scored[..|scored|] == scored;
  }

  method SortScored(ghost scored: seq<ScoredBid>, byId: map<string, ScoredBid>, ranking: CoreRanking, ghost t: seq<ScoredBid>)
      returns (sorted: seq<ScoredBid>)
    requires byId == ById(scored) && Ranks(ranking, t)
    ensures sorted == SortedScored(scored, t)
  {
    sorted := [];
    for i := 0 to |ranking.sortedBidders|
      invariant sorted == SortedScored(scored, t[..i])
    {
      assert t[..i + 1][..i] == t[..i];
      var bid := ranking.highestBids[ranking.sortedBidders[i]];
      if bid.id in byId {
        sorted := sorted + [byId[bid.id]];
      }
    }
    assert t[..|t|] == t;
  }

  method ScoreEligible(m: LogScale, eligible: seq<CoreBid>, query: seq<real>) returns (scored: seq<ScoredBid>)
    ensures scored == EmbeddingScored(m, eligible, query)
  {
    scored := [];
    for i := 0 to |eligible|
      invariant scored == EmbeddingScored(m, eligible, query)[..i]
    {
      var bid := eligible[i];
      scored := scored + [ScoredBid(bid, ComputeEmbeddingScore(m, bid.price, bid.embedding, bid.sigma, query))];
    }
  }

  method EnclaveRunAuction(m: LogScale, bids: seq<CoreBid>, floor: real, query: seq<real>, sorted: seq<ScoredBid>, draws: seq<nat>)
      returns (result: AuctionResult)
    requires IsRanking(sorted, EnclaveCandidates(m, bids, floor, query)) && ValidDraws(sorted, draws)
    ensures result == EnclaveOutcome(m, bids, floor, query, Ranked(sorted, draws))
    ensures EnclaveSorts(result, bids, floor)
  {
    EnclaveOutcomeSorts(m, bids, floor, query, Ranked(sorted, draws));
    var valid, priceRejected := RejectNonPositive(bids);
    var eligible, floorRejected := EnforceBidFloor(valid, floor);
    var scored: seq<ScoredBid> := [];
    var ranking: CoreRanking;
    if |query| > 0 {
      scored := ScoreEligible(m, eligible, query);
      ranking := RankEntries(scored, sorted, draws);
    } else {
      ranking := RankEntries(PriceKeyed(eligible), sorted, draws);
    }
    ghost var t := Ranked(sorted, draws);
    var byId := IndexById(scored);
    var sortedScored := SortScored(scored, byId, ranking, t);
    var winner, runnerUp := PickWinners(scored, byId, ranking, t);
    result := AuctionResult(winner, runnerUp, eligible, sortedScored, priceRejected, floorRejected);
  }

  method PickWinners(scored: seq<ScoredBid>, byId: map<string, ScoredBid>, ranking: CoreRanking, ghost t: seq<ScoredBid>)
      returns (winner: Option<CoreBid>, runnerUp: Option<CoreBid>)
    requires byId == ById(scored) && Ranks(ranking, t)
    ensures winner == EnclavePlaced(scored, t, 0)
    ensures runnerUp == if winner.Some? then EnclavePlaced(scored, t, 1) else None
  {
    winner, runnerUp := None, None;
    if |ranking.sortedBidders| > 0 {
      var bid := ranking.highestBids[ranking.sortedBidders[0]];
      if |scored| == 0 || (bid.id in byId && byId[bid.id].score != NegInf) {
        winner := Some(bid);
      }
    }
    if winner.Some? && |ranking.sortedBidders| > 1 {
      var bid := ranking.highestBids[ranking.sortedBidders[1]];
      if |scored| == 0 || (bid.id in byId && byId[bid.id].score != NegInf) {
        runnerUp := Some(bid);
      }
    }
  }

  /** r is what the enclave's auction returns for some delivery order of sort.Slice and some draws. */
  ghost predicate EnclavePossible(m: LogScale, bids: seq<CoreBid>, floor: real, query: seq<real>, r: AuctionResult) {
    exists t :: IsRanking(t, EnclaveCandidates(m, bids, floor, query)) && r == EnclaveOutcome(m, bids, floor, query, t)
  }

  ghost predicate EnclaveDrawnBy(m: LogScale, bids: seq<CoreBid>, floor: real, query: seq<real>, r: AuctionResult,
                                 sorted: seq<ScoredBid>, draws: seq<nat>) {
    && IsRanking(sorted, EnclaveCandidates(m, bids, floor, query)) && ValidDraws(sorted, draws)
    && r == EnclaveOutcome(m, bids, floor, query, Ranked(sorted, draws))
  }

  /** The unstable sort adds no outcome: those of any one sorted order already include all. */
  lemma EnclavePossibleIffDrawn(m: LogScale, bids: seq<CoreBid>, floor: real, query: seq<real>, r: AuctionResult, sorted: seq<ScoredBid>)
    requires IsRanking(sorted, EnclaveCandidates(m, bids, floor, query))
    ensures EnclavePossible(m, bids, floor, query, r) <==>
            exists draws :: EnclaveDrawnBy(m, bids, floor, query, r, sorted, draws)
  {
    var c := EnclaveCandidates(m, bids, floor, query);
    if EnclavePossible(m, bids, floor, query, r) {
      var t :| IsRanking(t, c) && r == EnclaveOutcome(m, bids, floor, query, t);
      CollapseIsFirstBest(EnclaveEntries(m, EnclaveEligible(bids, floor), query));
      PermutationDistinct(sorted, c);
      TieBreakingIsExact(sorted, t);
      var draws :| ValidDraws(sorted, draws) && Ranked(sorted, draws) == t;
      assert EnclaveDrawnBy(m, bids, floor, query, r, sorted, draws);
    }
    forall draws | EnclaveDrawnBy(m, bids, floor, query, r, sorted, draws) ensures EnclavePossible(m, bids, floor, query, r) {
      RankedIsRanking(sorted, draws);
    }
  }

  // ----- vcg.go -----

  function TermOf(b: CoreBid, query: seq<real>): Distance {
    EnclaveTerm(b.embedding, b.sigma, query)
  }

  /** The payment is a number: the penalties that it subtracts are not both infinite. */
  predicate EnclavePriceable(result: AuctionResult, query: seq<real>) {
    result.winner.Some? && result.runnerUp.Some? ==> TermOf(result.winner.value, query).Dist? || TermOf(result.runnerUp.value, query).Dist?
  }

  /** The runner-up's price times 5^(termW - termR), which an infinite penalty makes infinite or zero. */
  function EnclaveThreshold(m: LogScale, winner: CoreBid, ru: CoreBid, query: seq<real>): Distance
    requires TermOf(winner, query).Dist? || TermOf(ru, query).Dist?
  {
    match (TermOf(winner, query), TermOf(ru, query))
    case (PosInf, _) => PosInf
    case (_, PosInf) => Dist(0.0)
    case (Dist(t), Dist(u)) => Dist(ru.price * m.pow(t - u))
  }

  function EnclaveVCGPayment(m: LogScale, result: AuctionResult, query: seq<real>, floor: real): real
    requires EnclavePriceable(result, query)
  {
    if result.winner.None? then 0.0
    else
      var winner := result.winner.value;
      var threshold := if result.runnerUp.None? then Dist(0.0) else EnclaveThreshold(m, winner, result.runnerUp.value, query);
      if threshold.PosInf? then winner.price
      else
        var reserved := if threshold.d < floor then floor else threshold.d;
        if reserved > winner.price then winner.price else reserved
  }
}
