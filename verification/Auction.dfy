/** The sealed-bid auction at one query point (auction/auction.go, auction/floor.go). */
module Auction {
  import opened Wrappers
  import opened Scoring
  import opened Ranking
  import opened Sequences

  datatype AuctionResult = AuctionResult(
    winner: Option<CoreBid>,
    runnerUp: Option<CoreBid>,
    eligible: seq<CoreBid>,
    scored: seq<ScoredBid>,
    priceRejected: seq<string>,
    floorRejected: seq<string>)

  // ----- filters -----

  function Ids(bids: seq<CoreBid>): (r: seq<string>)
    ensures |r| == |bids| && forall i :: 0 <= i < |bids| ==> r[i] == bids[i].id
  {
    seq(|bids|, i requires 0 <= i < |bids| => bids[i].id)
  }

  lemma IdsStep(bids: seq<CoreBid>, i: nat, p: CoreBid -> bool)
    requires i < |bids|
    ensures Keep(bids[..i + 1], p) == Keep(bids[..i], p) + if p(bids[i]) then [bids[i]] else []
    ensures Ids(Keep(bids[..i + 1], p)) == Ids(Keep(bids[..i], p)) + if p(bids[i]) then [bids[i].id] else []
  {
    KeepStep(bids, i, p);
  }

  predicate Positive(b: CoreBid) {
    b.price > 0.0
  }

  function AtLeast(floor: real): CoreBid -> bool {
    (b: CoreBid) => b.price >= floor
  }

  function Not(p: CoreBid -> bool): CoreBid -> bool {
    (b: CoreBid) => !p(b)
  }

  function Eligible(bids: seq<CoreBid>, floor: real): seq<CoreBid> {
    Keep(Keep(bids, Positive), AtLeast(floor))
  }

  method EnforceBidFloor(bids: seq<CoreBid>, floor: real) returns (eligible: seq<CoreBid>, rejected: seq<string>)
    ensures eligible == Keep(bids, AtLeast(floor))
    ensures rejected == Ids(Keep(bids, Not(AtLeast(floor))))
  {
    eligible, rejected := [], [];
    for i := 0 to |bids|
      invariant eligible == Keep(bids[..i], AtLeast(floor))
      invariant rejected == Ids(Keep(bids[..i], Not(AtLeast(floor))))
    {
      KeepStep(bids, i, AtLeast(floor));
      IdsStep(bids, i, Not(AtLeast(floor)));
      if bids[i].price >= floor {
        eligible := eligible + [bids[i]];
      } else {
        rejected := rejected + [bids[i].id];
      }
    }
    assert bids[..|bids|] == bids;
  }

  // ----- one best bid per bidder -----

  /** The position of a bidder's entry, or |c| if it has none. */
  function Slot(c: seq<ScoredBid>, bidder: string): (r: nat)
    ensures r <= |c| && (r < |c| ==> c[r].bid.bidder == bidder)
    ensures forall i :: 0 <= i < r ==> c[i].bid.bidder != bidder
  {
    if c == [] then 0 else if c[0].bid.bidder == bidder then 0 else Slot(c[1..], bidder) + 1
  }

  /** A bidder's first bid opens its entry; a strictly better one replaces it. */
  function Offer(c: seq<ScoredBid>, e: ScoredBid): seq<ScoredBid> {
    var k := Slot(c, e.bid.bidder);
    if k == |c| then c + [e] else if Above(e.score, c[k].score) then c[k := e] else c
  }

  function Collapse(s: seq<ScoredBid>): seq<ScoredBid> {
    if s == [] then [] else Offer(Collapse(s[..|s| - 1]), s[|s| - 1])
  }

  predicate OneEntryPerBidder(c: seq<ScoredBid>) {
    forall i, j :: 0 <= i < j < |c| ==> c[i].bid.bidder != c[j].bid.bidder
  }

  predicate BeatsEarlier(s: seq<ScoredBid>, p: nat)
    requires p < |s|
  {
    forall x :: 0 <= x < p && s[x].bid.bidder == s[p].bid.bidder ==> Above(s[p].score, s[x].score)
  }

  /** e is its bidder's best entry in s, and the first one that good. */
  ghost predicate FirstBest(s: seq<ScoredBid>, e: ScoredBid) {
    && (forall x :: 0 <= x < |s| && s[x].bid.bidder == e.bid.bidder ==> !Above(s[x].score, e.score))
    && (exists p :: 0 <= p < |s| && s[p] == e && BeatsEarlier(s, p))
  }

  ghost predicate CollapseInv(s: seq<ScoredBid>, c: seq<ScoredBid>) {
    && OneEntryPerBidder(c)
    && (forall k :: 0 <= k < |c| ==> FirstBest(s, c[k]))
    && (forall x :: 0 <= x < |s| ==> Slot(c, s[x].bid.bidder) < |c|)
  }

  lemma FirstBestGrows(s: seq<ScoredBid>, e: ScoredBid, last: ScoredBid)
    requires FirstBest(s, e)
    requires last.bid.bidder == e.bid.bidder ==> !Above(last.score, e.score)
    ensures FirstBest(s + [last], e)
  {
    var p :| 0 <= p < |s| && s[p] == e && BeatsEarlier(s, p);
    assert (s + [last])[p] == e && BeatsEarlier(s + [last], p);
  }

  lemma FirstBestArrives(s: seq<ScoredBid>, e: ScoredBid)
    requires forall x :: 0 <= x < |s| && s[x].bid.bidder == e.bid.bidder ==> Above(e.score, s[x].score)
    ensures FirstBest(s + [e], e)
  {
    assert (s + [e])[|s|] == e && BeatsEarlier(s + [e], |s|);
  }

  lemma OfferKeepsInv(s: seq<ScoredBid>, c: seq<ScoredBid>, e: ScoredBid)
    requires CollapseInv(s, c)
    ensures CollapseInv(s + [e], Offer(c, e))
  {
    var k := Slot(c, e.bid.bidder);
    var c' := Offer(c, e);
    forall i | 0 <= i < |c'| ensures FirstBest(s + [e], c'[i]) {
      if i == k && (k == |c| || Above(e.score, c[k].score)) {
        if i < |c| {
          OfferReplaces(s, c[i], e);
        }
        FirstBestArrives(s, e);
      } else {
        FirstBestGrows(s, c'[i], e);
      }
    }
    OfferSlots(c, e);
  }

  lemma OfferReplaces(s: seq<ScoredBid>, old_: ScoredBid, e: ScoredBid)
    requires FirstBest(s, old_) && old_.bid.bidder == e.bid.bidder && Above(e.score, old_.score)
    ensures forall x :: 0 <= x < |s| && s[x].bid.bidder == e.bid.bidder ==> Above(e.score, s[x].score)
  {
  }

  lemma OfferSlots(c: seq<ScoredBid>, e: ScoredBid)
    requires OneEntryPerBidder(c)
    ensures OneEntryPerBidder(Offer(c, e))
    ensures forall b :: Slot(c, b) < |c| || b == e.bid.bidder ==> Slot(Offer(c, e), b) < |Offer(c, e)|
  {
    var c' := Offer(c, e);
    forall b | Slot(c, b) < |c| || b == e.bid.bidder ensures Slot(c', b) < |c'| {
      assert c'[if b == e.bid.bidder then Slot(c, e.bid.bidder) else Slot(c, b)].bid.bidder == b;
    }
  }

  /** Collapsing keeps exactly one entry for every bidder: its first best bid. */
  lemma {:induction false} CollapseIsFirstBest(s: seq<ScoredBid>)
    ensures CollapseInv(s, Collapse(s))
  {
    if s != [] {
      CollapseIsFirstBest(s[..|s| - 1]);
      OfferKeepsInv(s[..|s| - 1], Collapse(s[..|s| - 1]), s[|s| - 1]);
      assert s == s[..|s| - 1] + [s[|s| - 1]];
    }
  }

  // ----- the auction -----

  /** What competes: the best eligible bid of every bidder, scored. */
  function Candidates(m: LogScale, bids: seq<CoreBid>, floor: real, query: seq<real>): seq<ScoredBid> {
    Collapse(ScoreAll(m, Eligible(bids, floor), query))
  }

  /** The bid at a rank, if its score is finite. */
  function Placed(ranked: seq<ScoredBid>, rank: nat): Option<CoreBid> {
    if rank < |ranked| && ranked[rank].score != NegInf then Some(ranked[rank].bid) else None
  }

  function Outcome(bids: seq<CoreBid>, floor: real, ranked: seq<ScoredBid>): AuctionResult {
    AuctionResult(
      Placed(ranked, 0),
      if Placed(ranked, 0).Some? then Placed(ranked, 1) else None,
      Eligible(bids, floor),
      ranked,
      Ids(Keep(bids, Not(Positive))),
      Ids(Keep(Keep(bids, Positive), Not(AtLeast(floor)))))
  }

  /** r is what the auction returns for some random tie-breaks. */
  ghost predicate Possible(m: LogScale, bids: seq<CoreBid>, floor: real, query: seq<real>, r: AuctionResult) {
    exists t :: IsRanking(t, Candidates(m, bids, floor, query)) && r == Outcome(bids, floor, t)
  }

  /** Some bid by this ID is rejected for its price ... */
  predicate PricedOut(bids: seq<CoreBid>, id: string) {
    exists b :: b in bids && b.id == id && b.price <= 0.0
  }

  /** ... or by the floor. */
  predicate FlooredOut(bids: seq<CoreBid>, floor: real, id: string) {
    exists b :: b in bids && b.id == id && 0.0 < b.price < floor
  }

  /** What a result says of the bids that do not compete. */
  ghost predicate Sorts(r: AuctionResult, bids: seq<CoreBid>, floor: real) {
    && (forall b :: b in r.eligible <==> b in bids && b.price > 0.0 && b.price >= floor)
    && (forall id :: id in r.priceRejected <==> PricedOut(bids, id))
    && (forall id :: id in r.floorRejected <==> FlooredOut(bids, floor, id))
    && |r.eligible| + |r.priceRejected| + |r.floorRejected| == |bids|
  }

  lemma {:induction false} KeepSplits(bids: seq<CoreBid>, p: CoreBid -> bool)
    ensures |Keep(bids, p)| + |Keep(bids, Not(p))| == |bids|
  {
    if bids != [] {
      KeepSplits(bids[..|bids| - 1], p);
    }
  }

  lemma IdsAre(bids: seq<CoreBid>, id: string)
    ensures id in Ids(bids) <==> exists b :: b in bids && b.id == id
  {
    if id in Ids(bids) {
      var i :| 0 <= i < |bids| && Ids(bids)[i] == id;
      assert bids[i] in bids;
    }
    if b :| b in bids && b.id == id {
      var i :| 0 <= i < |bids| && bids[i] == b;
      assert Ids(bids)[i] == id;
    }
  }

  /** Each bid is eligible, or rejected for its price, or by the floor. */
  lemma OutcomeSorts(bids: seq<CoreBid>, floor: real, ranked: seq<ScoredBid>)
    ensures Sorts(Outcome(bids, floor, ranked), bids, floor)
  {
    var low := Keep(bids, Not(Positive));
    var under := Keep(Keep(bids, Positive), Not(AtLeast(floor)));
    KeepSplits(bids, Positive);
    KeepSplits(Keep(bids, Positive), AtLeast(floor));
    forall id ensures (id in Ids(low) <==> PricedOut(bids, id)) && (id in Ids(under) <==> FlooredOut(bids, floor, id)) {
      IdsAre(low, id);
      IdsAre(under, id);
    }
  }

  /** Every entry of the candidates carries the score of its bid. */
  lemma CandidatesScored(m: LogScale, bids: seq<CoreBid>, floor: real, query: seq<real>)
    ensures var c := Candidates(m, bids, floor, query);
            CollapseInv(ScoreAll(m, Eligible(bids, floor), query), c)
    ensures forall e :: e in Candidates(m, bids, floor, query) ==>
              e.bid in bids && e.bid.price > 0.0 && e.bid.price >= floor && e.score == ComputeScore(m, e.bid, query)
  {
    var s := ScoreAll(m, Eligible(bids, floor), query);
    CollapseIsFirstBest(s);
    forall e | e in Candidates(m, bids, floor, query)
      ensures e.bid in Eligible(bids, floor) && e.score == ComputeScore(m, e.bid, query)
    {
      var k :| 0 <= k < |Collapse(s)| && Collapse(s)[k] == e;
      assert FirstBest(s, e);
      var p :| 0 <= p < |s| && s[p] == e && BeatsEarlier(s, p);
      assert Eligible(bids, floor)[p] == e.bid;
    }
  }

  function BidsOf(c: seq<ScoredBid>): (r: seq<CoreBid>)
    ensures |r| == |c| && forall i :: 0 <= i < |c| ==> r[i] == c[i].bid
  {
    seq(|c|, i requires 0 <= i < |c| => c[i].bid)
  }

  /** The map and the bidder order of the code hold the collapsed entries. */
  ghost predicate Represents(order: seq<string>, best: map<string, ScoredBid>, c: seq<ScoredBid>) {
    && |order| == |c|
    && (forall i :: 0 <= i < |c| ==> order[i] == c[i].bid.bidder)
    && (forall b :: b in best <==> Slot(c, b) < |c|)
    && (forall b :: b in best ==> best[b] == c[Slot(c, b)])
  }

  lemma {:induction false} SlotAppend(c: seq<ScoredBid>, e: ScoredBid, b: string)
    ensures Slot(c + [e], b) ==
            if Slot(c, b) < |c| then Slot(c, b) else if b == e.bid.bidder then |c| else |c| + 1
  {
    if c != [] {
      assert (c + [e])[1..] == c[1..] + [e];
      SlotAppend(c[1..], e, b);
    }
  }

  lemma {:induction false} SlotUpdate(c: seq<ScoredBid>, k: nat, e: ScoredBid, b: string)
    requires k < |c| && c[k].bid.bidder == e.bid.bidder
    ensures Slot(c[k := e], b) == Slot(c, b)
  {
    if k > 0 {
      assert c[k := e][1..] == c[1..][k - 1 := e];
      SlotUpdate(c[1..], k - 1, e, b);
    } else {
      assert c[k := e][1..] == c[1..];
    }
  }

  lemma SlotUnique(c: seq<ScoredBid>, i: nat)
    requires OneEntryPerBidder(c) && i < |c|
    ensures Slot(c, c[i].bid.bidder) == i
  {
  }

  lemma OpenRepresented(order: seq<string>, best: map<string, ScoredBid>, c: seq<ScoredBid>, e: ScoredBid)
    requires Represents(order, best, c) && e.bid.bidder !in best
    ensures Offer(c, e) == c + [e]
    ensures Represents(order + [e.bid.bidder], best[e.bid.bidder := e], c + [e])
  {
    forall b ensures Slot(c + [e], b) ==
      if Slot(c, b) < |c| then Slot(c, b) else if b == e.bid.bidder then |c| else |c| + 1 {
      SlotAppend(c, e, b);
    }
  }

  lemma ReplaceRepresented(order: seq<string>, best: map<string, ScoredBid>, c: seq<ScoredBid>, e: ScoredBid)
    requires Represents(order, best, c) && e.bid.bidder in best
    ensures Above(e.score, best[e.bid.bidder].score) ==> Represents(order, best[e.bid.bidder := e], Offer(c, e))
    ensures !Above(e.score, best[e.bid.bidder].score) ==> Offer(c, e) == c
  {
    var k := Slot(c, e.bid.bidder);
    forall b ensures Slot(c[k := e], b) == Slot(c, b) {
      SlotUpdate(c, k, e, b);
    }
    assert forall b :: b in best && b != e.bid.bidder ==> Slot(c, b) != k;
  }

  lemma CollapseStep(m: LogScale, bids: seq<CoreBid>, i: nat, query: seq<real>)
    requires i < |bids|
    ensures Collapse(ScoreAll(m, bids[..i + 1], query)) ==
            Offer(Collapse(ScoreAll(m, bids[..i], query)), ScoredBid(bids[i], ComputeScore(m, bids[i], query)))
  {
    assert bids[..i + 1] == bids[..i] + [bids[i]];
    ScoreAllAppend(m, bids[..i], bids[i], query);
    CollapseAppend(ScoreAll(m, bids[..i], query), ScoredBid(bids[i], ComputeScore(m, bids[i], query)));
  }

  /** The collapsed bids in the order of the bidders' first appearance. */
  method ReadBest(order: seq<string>, best: map<string, ScoredBid>, ghost c: seq<ScoredBid>) returns (collapsed: seq<CoreBid>)
    requires Represents(order, best, c) && OneEntryPerBidder(c)
    ensures collapsed == BidsOf(c)
  {
    collapsed := [];
    for i := 0 to |order|
      invariant |collapsed| == i && forall j :: 0 <= j < i ==> collapsed[j] == c[j].bid
    {
      SlotUnique(c, i);
      collapsed := collapsed + [best[order[i]].bid];
    }
  }

  /** The per-bidder collapse with its map and its order of first appearance. */
  method CollapseBids(m: LogScale, eligible: seq<CoreBid>, query: seq<real>) returns (collapsed: seq<CoreBid>)
    ensures collapsed == BidsOf(Collapse(ScoreAll(m, eligible, query)))
  {
    var best: map<string, ScoredBid> := map[];
    var order: seq<string> := [];
    ghost var c: seq<ScoredBid> := [];
    for i := 0 to |eligible|
      invariant c == Collapse(ScoreAll(m, eligible[..i], query))
      invariant Represents(order, best, c)
    {
      var bid := eligible[i];
      var e := ScoredBid(bid, ComputeScore(m, bid, query));
      CollapseStep(m, eligible, i, query);
      if bid.bidder !in best {
        OpenRepresented(order, best, c, e);
        order := order + [bid.bidder];
        best := best[bid.bidder := e];
      } else {
        ReplaceRepresented(order, best, c, e);
        if Above(e.score, best[bid.bidder].score) {
          best := best[bid.bidder := e];
        }
      }
      c := Offer(c, e);
    }
    assert eligible[..|eligible|] == eligible;
    CollapseIsFirstBest(ScoreAll(m, eligible, query));
    collapsed := ReadBest(order, best, c);
  }

  lemma CollapseAppend(s: seq<ScoredBid>, e: ScoredBid)
    ensures Collapse(s + [e]) == Offer(Collapse(s), e)
  {
    assert (s + [e])[..|s|] == s;
  }

  lemma RescoringIsIdentity(m: LogScale, c: seq<ScoredBid>, query: seq<real>)
    requires forall e :: e in c ==> e.score == ComputeScore(m, e.bid, query)
    ensures ScoreAll(m, BidsOf(c), query) == c
  {
    forall i | 0 <= i < |c| ensures ScoreAll(m, BidsOf(c), query)[i] == c[i] {
      assert c[i] in c;
    }
  }

  /** Scoring the candidates' bids again ranks the candidates themselves. */
  lemma CandidatesRanked(m: LogScale, bids: seq<CoreBid>, floor: real, query: seq<real>, draws: seq<nat>)
    requires ValidDraws(SortDescending(Candidates(m, bids, floor, query)), draws)
    ensures var c := Candidates(m, bids, floor, query);
            ScoreAll(m, BidsOf(c), query) == c && IsRanking(Ranked(SortDescending(c), draws), c)
  {
    var c := Candidates(m, bids, floor, query);
    CandidatesScored(m, bids, floor, query);
    RescoringIsIdentity(m, c, query);
    RankedIsRanking(SortDescending(c), draws);
  }

  method RejectNonPositive(bids: seq<CoreBid>) returns (valid: seq<CoreBid>, rejected: seq<string>)
    ensures valid == Keep(bids, Positive)
    ensures rejected == Ids(Keep(bids, Not(Positive)))
  {
    valid, rejected := [], [];
    for i := 0 to |bids|
      invariant valid == Keep(bids[..i], Positive)
      invariant rejected == Ids(Keep(bids[..i], Not(Positive)))
    {
      KeepStep(bids, i, Positive);
      IdsStep(bids, i, Not(Positive));
      if bids[i].price <= 0.0 {
        rejected := rejected + [bids[i].id];
      } else {
        valid := valid + [bids[i]];
      }
    }
    assert bids[..|bids|] == bids;
  }

  /** The winner and the runner-up, read off a ranking. */
  method ReadRanking(ranked: seq<ScoredBid>) returns (winner: Option<CoreBid>, runnerUp: Option<CoreBid>)
    ensures winner == Placed(ranked, 0)
    ensures runnerUp == if winner.Some? then Placed(ranked, 1) else None
  {
    winner, runnerUp := None, None;
    if |ranked| > 0 && ranked[0].score != NegInf {
      winner := Some(ranked[0].bid);
    }
    if winner.Some? && |ranked| > 1 && ranked[1].score != NegInf {
      runnerUp := Some(ranked[1].bid);
    }
  }

  method RunAuction(m: LogScale, bids: seq<CoreBid>, floor: real, query: seq<real>, draws: seq<nat>) returns (result: AuctionResult)
    requires ValidDraws(SortDescending(Candidates(m, bids, floor, query)), draws)
    ensures result == Outcome(bids, floor, Ranked(SortDescending(Candidates(m, bids, floor, query)), draws))
    ensures Possible(m, bids, floor, query, result)
    ensures Sorts(result, bids, floor)
  {
    OutcomeSorts(bids, floor, Ranked(SortDescending(Candidates(m, bids, floor, query)), draws));
    var valid, priceRejected := RejectNonPositive(bids);
    var eligible, floorRejected := EnforceBidFloor(valid, floor);
    CandidatesRanked(m, bids, floor, query, draws);
    if |eligible| == 0 {
      result := AuctionResult(None, None, eligible, [], priceRejected, floorRejected);
    } else {
      var collapsed := CollapseBids(m, eligible, query);
      var ranked := RankByScore(m, collapsed, query, draws);
      var winner, runnerUp := ReadRanking(ranked);
      result := AuctionResult(winner, runnerUp, eligible, ranked, priceRejected, floorRejected);
    }
  }

  lemma CandidatesDistinct(m: LogScale, bids: seq<CoreBid>, floor: real, query: seq<real>)
    ensures Distinct(SortDescending(Candidates(m, bids, floor, query)))
  {
    CollapseIsFirstBest(ScoreAll(m, Eligible(bids, floor), query));
    PermutationDistinct(SortDescending(Candidates(m, bids, floor, query)), Candidates(m, bids, floor, query));
  }

  /** r is what the auction returns for these draws. */
  ghost predicate DrawnBy(m: LogScale, bids: seq<CoreBid>, floor: real, query: seq<real>, r: AuctionResult, draws: seq<nat>) {
    var s := SortDescending(Candidates(m, bids, floor, query));
    ValidDraws(s, draws) && r == Outcome(bids, floor, Ranked(s, draws))
  }

  /** The possible results are exactly those of some draw sequence. */
  lemma PossibleIffDrawn(m: LogScale, bids: seq<CoreBid>, floor: real, query: seq<real>, r: AuctionResult)
    ensures Possible(m, bids, floor, query, r) <==> exists draws :: DrawnBy(m, bids, floor, query, r, draws)
  {
    var c := Candidates(m, bids, floor, query);
    var s := SortDescending(c);
    if Possible(m, bids, floor, query, r) {
      CandidatesDistinct(m, bids, floor, query);
      var t :| IsRanking(t, c) && r == Outcome(bids, floor, t);
      TieBreakingIsExact(s, t);
      var draws :| ValidDraws(s, draws) && Ranked(s, draws) == t;
      assert DrawnBy(m, bids, floor, query, r, draws);
    }
    forall draws | DrawnBy(m, bids, floor, query, r, draws) ensures Possible(m, bids, floor, query, r) {
      RankedIsRanking(s, draws);
    }
  }
}
