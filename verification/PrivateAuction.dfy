/** The auction inside the enclave, after the embedding is decoded
    (enclave/process.go), and why its outcomes are the platform's. */
module PrivateAuction {
  import opened Wrappers
  import opened Scoring
  import opened Ranking
  import opened Auction
  import opened Payment
  import opened Truthful
  import opened EnclaveAuction
  import opened Equivalence
  import opened Positions
  import opened Sequences
  import opened Billing
  import opened EnclaveState

  datatype ProcessError = NoAdvertisers | NoEligible | NonePassed | NoWinner

  datatype AuctionResponse = AuctionResponse(winnerId: string, payment: real, currency: string, bidCount: nat)

  function SnapshotBid(p: PositionSnapshot): CoreBid {
    CoreBid(p.id, SnapshotKey(p), p.bidPrice, p.currency, p.embedding, p.sigma)
  }

  function CanPay(budgets: map<string, BudgetSnapshot>): PositionSnapshot -> bool {
    (p: PositionSnapshot) => BudgetCovers(budgets, SnapshotKey(p), p.bidPrice)
  }

  function BidsOfSnapshots(ps: seq<PositionSnapshot>): (r: seq<CoreBid>)
    ensures |r| == |ps| && forall i :: 0 <= i < |ps| ==> r[i] == SnapshotBid(ps[i])
  {
    seq(|ps|, i requires 0 <= i < |ps| => SnapshotBid(ps[i]))
  }

  /** The bids of the positions whose budget covers their price. */
  function AffordableBids(ps: seq<PositionSnapshot>, budgets: map<string, BudgetSnapshot>): seq<CoreBid> {
    BidsOfSnapshots(Keep(ps, CanPay(budgets)))
  }

  lemma AffordableOneMore(ps: seq<PositionSnapshot>, i: nat, budgets: map<string, BudgetSnapshot>)
    requires i < |ps|
    ensures AffordableBids(ps[..i + 1], budgets) ==
            AffordableBids(ps[..i], budgets) + if CanPay(budgets)(ps[i]) then [SnapshotBid(ps[i])] else []
  {
    KeepStep(ps, i, CanPay(budgets));
  }

  function WithinTau(query: seq<real>, tau: real): CoreBid -> bool {
    (b: CoreBid) => var dist := EnclaveDistanceSq(b.embedding, query); dist.Dist? && dist.d <= tau
  }

  /** A threshold of zero or less switches the relevance filter off. */
  function InReach(bids: seq<CoreBid>, query: seq<real>, tau: real): seq<CoreBid> {
    if tau > 0.0 then Keep(bids, WithinTau(query, tau)) else bids
  }

  function ReachingBids(ps: seq<PositionSnapshot>, budgets: map<string, BudgetSnapshot>, query: seq<real>, tau: real): seq<CoreBid> {
    InReach(AffordableBids(ps, budgets), query, tau)
  }

  /** What a sale is answered with. */
  function Reply(sale: Sale, bidCount: nat): Result<AuctionResponse, ProcessError> {
    if sale.winner.None? then Err(NoWinner)
    else Ok(AuctionResponse(sale.winner.value.id, sale.payment, sale.winner.value.currency, bidCount))
  }

  /** The bids are filed under different IDs, so a winner found again by its ID is the winner. */
  lemma EnclaveOutcomePriceable(m: LogScale, bids: seq<CoreBid>, query: seq<real>, t: seq<ScoredBid>)
    requires DistinctIds(bids) && IsRanking(t, EnclaveCandidates(m, bids, 0.0, query))
    ensures EnclavePriceable(EnclaveOutcome(m, bids, 0.0, query, t), query)
  {
    if |query| > 0 {
      QueryOutcomesAgree(m, bids, 0.0, query, t);
      OutcomePriceable(m, bids, 0.0, query, t);
      SameSale(m, Outcome(bids, 0.0, t), EnclaveOutcome(m, bids, 0.0, query, t), query, 0.0);
    }
  }

  function SaleOf(m: LogScale, bids: seq<CoreBid>, query: seq<real>, t: seq<ScoredBid>): Sale
    requires EnclavePriceable(EnclaveOutcome(m, bids, 0.0, query, t), query)
  {
    var e := EnclaveOutcome(m, bids, 0.0, query, t);
    Sale(e.winner, e.runnerUp, EnclaveVCGPayment(m, e, query, 0.0))
  }

  /** The randomness of one auction: the order sort.Slice delivers and the draws. */
  ghost predicate Randomness(m: LogScale, bids: seq<CoreBid>, query: seq<real>, sorted: seq<ScoredBid>, draws: seq<nat>) {
    IsRanking(sorted, EnclaveCandidates(m, bids, 0.0, query)) && ValidDraws(sorted, draws)
  }

  lemma AffordableStep(table: map<string, PositionSnapshot>, budgets: map<string, BudgetSnapshot>, ids: seq<string>)
    requires ids != [] && (forall id :: id in ids ==> id in table)
    ensures var n := |ids| - 1;
            AffordableBids(ListAll(table, ids), budgets) ==
            AffordableBids(ListAll(table, ids[..n]), budgets) + if CanPay(budgets)(table[ids[n]]) then [SnapshotBid(table[ids[n]])] else []
  {
    var n := |ids| - 1;
    var ps := ListAll(table, ids);
    assert ps[..n] == ListAll(table, ids[..n]) && ps[..n + 1] == ps;
    AffordableOneMore(ps, n, budgets);
  }

  /** Bids listed from the store have different IDs. */
  lemma {:induction false} ListedBidsDistinct(table: map<string, PositionSnapshot>, ids: seq<string>, budgets: map<string, BudgetSnapshot>)
    requires KeyedSnapshots(table) && (forall id :: id in ids ==> id in table) && Distinct(ids)
    ensures DistinctIds(AffordableBids(ListAll(table, ids), budgets))
    ensures forall b :: b in AffordableBids(ListAll(table, ids), budgets) ==> b.id in ids
  {
    if ids != [] {
      var n := |ids| - 1;
      assert ids[n] in ids;
      ListedBidsDistinct(table, ids[..n], budgets);
      var rest := AffordableBids(ListAll(table, ids[..n]), budgets);
      AffordableStep(table, budgets, ids);
      forall i | 0 <= i < |rest| ensures rest[i].id != ids[n] {
        assert rest[i] in rest;
      }
    }
  }

  lemma ReachingBidsDistinct(table: map<string, PositionSnapshot>, ids: seq<string>, budgets: map<string, BudgetSnapshot>,
                             query: seq<real>, tau: real)
    requires KeyedSnapshots(table) && Listing(ids, table.Keys)
    ensures DistinctIds(ReachingBids(ListAll(table, ids), budgets, query, tau))
  {
    ListedBidsDistinct(table, ids, budgets);
    KeepDistinctIds(AffordableBids(ListAll(table, ids), budgets), WithinTau(query, tau));
  }

  /** What the enclave answers from its stores when it iterates them in the order ids. */
  ghost function Process(m: LogScale, table: map<string, PositionSnapshot>, ids: seq<string>, budgets: map<string, BudgetSnapshot>,
                         query: seq<real>, tau: real, sorted: seq<ScoredBid>, draws: seq<nat>): Result<AuctionResponse, ProcessError>
    requires KeyedSnapshots(table) && Listing(ids, table.Keys)
    requires Randomness(m, ReachingBids(ListAll(table, ids), budgets, query, tau), query, sorted, draws)
  {
    var ps := ListAll(table, ids);
    var bids := ReachingBids(ps, budgets, query, tau);
    if ps == [] then Err(NoAdvertisers)
    else if AffordableBids(ps, budgets) == [] then Err(NoEligible)
    else if bids == [] then Err(NonePassed)
    else
      ReachingBidsDistinct(table, ids, budgets, query, tau);
      RankedIsRanking(sorted, draws);
      EnclaveOutcomePriceable(m, bids, query, Ranked(sorted, draws));
      Reply(SaleOf(m, bids, query, Ranked(sorted, draws)), |bids|)
  }

  // ----- the answer, read from the stores alone -----

  /** The budget of the position covers its price. */
  predicate Afford(budgets: map<string, BudgetSnapshot>, p: PositionSnapshot) {
    var key := if p.budgetId == "" then p.id else p.budgetId;
    key in budgets && budgets[key].spent + p.bidPrice <= budgets[key].total
  }

  /** The position is relevant: with a positive threshold, of the query's
      dimension and at most that squared distance away. */
  predicate Relevant(p: PositionSnapshot, query: seq<real>, tau: real) {
    tau > 0.0 ==> |p.embedding| == |query| && SumSq(p.embedding, query, |query|) <= tau
  }

  /** What may be sold: the affordable, relevant positions. */
  function Competing(table: map<string, PositionSnapshot>, budgets: map<string, BudgetSnapshot>, query: seq<real>, tau: real): set<string> {
    set id | id in table && Afford(budgets, table[id]) && Relevant(table[id], query, tau)
  }

  /** b is what the position bids, on behalf of the holder of its budget. */
  predicate SnapshotBids(b: CoreBid, p: PositionSnapshot) {
    && b.id == p.id && b.bidder == (if p.budgetId == "" then p.id else p.budgetId) && b.price == p.bidPrice
    && b.currency == p.currency && b.embedding == p.embedding && b.sigma == p.sigma
  }

  /** bids are those of the competing positions, one each. */
  ghost predicate BidsOfCompeting(table: map<string, PositionSnapshot>, budgets: map<string, BudgetSnapshot>, query: seq<real>, tau: real, bids: seq<CoreBid>) {
    && DistinctIds(bids) && |bids| == |Competing(table, budgets, query, tau)|
    && (forall b :: b in bids ==> b.id in Competing(table, budgets, query, tau) && b.id in table && SnapshotBids(b, table[b.id]))
    && (forall id :: id in Competing(table, budgets, query, tau) ==> HasBid(bids, id))
  }

  predicate HasBid(bids: seq<CoreBid>, id: string) {
    exists b :: b in bids && b.id == id
  }

  /** The response sells to the head of this ranking, at its critical price. */
  ghost predicate SoldTo(m: LogScale, bids: seq<CoreBid>, query: seq<real>, t: seq<ScoredBid>, resp: AuctionResponse) {
    && IsRanking(t, Candidates(m, bids, 0.0, query)) && t != [] && t[0].score != NegInf
    && DistanceTerm(t[0].bid, query).Dist?
    && resp.winnerId == t[0].bid.id && resp.currency == t[0].bid.currency
    && resp.payment == CriticalPrice(m, DistanceTerm(t[0].bid, query).d, RivalScore(t), 0.0)
    && resp.bidCount == |bids|
  }

  ghost predicate NobodyScores(m: LogScale, bids: seq<CoreBid>, query: seq<real>) {
    forall b :: b in bids && b.price > 0.0 ==> ComputeScore(m, b, query) == NegInf
  }

  ghost predicate Sold(m: LogScale, table: map<string, PositionSnapshot>, budgets: map<string, BudgetSnapshot>, query: seq<real>, tau: real,
                       bids: seq<CoreBid>, t: seq<ScoredBid>, resp: AuctionResponse) {
    BidsOfCompeting(table, budgets, query, tau, bids) && SoldTo(m, bids, query, t, resp)
  }

  ghost predicate Unsold(m: LogScale, table: map<string, PositionSnapshot>, budgets: map<string, BudgetSnapshot>, query: seq<real>, tau: real, bids: seq<CoreBid>) {
    BidsOfCompeting(table, budgets, query, tau, bids) && bids != [] && NobodyScores(m, bids, query)
  }

  /** The errors in the order of the stages. */
  ghost predicate Answered(m: LogScale, table: map<string, PositionSnapshot>, budgets: map<string, BudgetSnapshot>, query: seq<real>, tau: real,
                           r: Result<AuctionResponse, ProcessError>) {
    match r
    case Err(NoAdvertisers) => table == map[]
    case Err(NoEligible) => table != map[] && forall id :: id in table ==> !Afford(budgets, table[id])
    case Err(NonePassed) =>
      && tau > 0.0 && (exists id :: id in table && Afford(budgets, table[id])) && Competing(table, budgets, query, tau) == {}
    case Err(NoWinner) => exists bids :: Unsold(m, table, budgets, query, tau, bids)
    case Ok(resp) => exists bids, t :: Sold(m, table, budgets, query, tau, bids, t, resp)
  }

  /** The filters of the code, one position at a time. */
  lemma FiltersMean(table: map<string, PositionSnapshot>, budgets: map<string, BudgetSnapshot>, query: seq<real>, tau: real, id: string)
    requires id in table
    ensures CanPay(budgets)(table[id]) <==> Afford(budgets, table[id])
    ensures tau > 0.0 ==> (WithinTau(query, tau)(SnapshotBid(table[id])) <==> Relevant(table[id], query, tau))
    ensures SnapshotBids(SnapshotBid(table[id]), table[id])
  {
  }

  /** The bids that reach the auction are those of the listed competing positions. */
  ghost predicate ReachAs(bids: seq<CoreBid>, table: map<string, PositionSnapshot>, budgets: map<string, BudgetSnapshot>,
                          query: seq<real>, tau: real, ids: seq<string>) {
    && (forall b :: b in bids ==> b.id in ids && b.id in Competing(table, budgets, query, tau) && SnapshotBids(b, table[b.id]))
    && (forall id :: id in ids && id in Competing(table, budgets, query, tau) ==> HasBid(bids, id))
  }

  lemma ReachingStep(table: map<string, PositionSnapshot>, budgets: map<string, BudgetSnapshot>, query: seq<real>, tau: real, ids: seq<string>)
    requires ids != [] && (forall id :: id in ids ==> id in table)
    ensures var n := |ids| - 1;
            var id := ids[n];
            ReachingBids(ListAll(table, ids), budgets, query, tau) ==
            ReachingBids(ListAll(table, ids[..n]), budgets, query, tau) +
              if id in Competing(table, budgets, query, tau) then [SnapshotBid(table[id])] else []
  {
    var n := |ids| - 1;
    var rest := AffordableBids(ListAll(table, ids[..n]), budgets);
    assert ids[n] in ids;
    AffordableStep(table, budgets, ids);
    FiltersMean(table, budgets, query, tau, ids[n]);
    var added := if CanPay(budgets)(table[ids[n]]) then [SnapshotBid(table[ids[n]])] else [];
    if tau > 0.0 {
      KeepConcat(rest, added, WithinTau(query, tau));
      KeepAtMostOne(added, WithinTau(query, tau));
    }
  }

  lemma KeepAtMostOne(bids: seq<CoreBid>, p: CoreBid -> bool)
    requires |bids| <= 1
    ensures Keep(bids, p) == if bids != [] && p(bids[0]) then bids else []
  {
    if bids != [] {
      KeepStep(bids, 0, p);
      assert bids[..1] == bids == [bids[0]] && bids[..0] == [];
    }
  }

  lemma ReachOneMore(bids: seq<CoreBid>, table: map<string, PositionSnapshot>, budgets: map<string, BudgetSnapshot>,
                     query: seq<real>, tau: real, ids: seq<string>)
    requires ids != [] && ids[|ids| - 1] in table && KeyedSnapshots(table)
    requires ReachAs(bids, table, budgets, query, tau, ids[..|ids| - 1])
    ensures var id := ids[|ids| - 1];
            ReachAs(bids + if id in Competing(table, budgets, query, tau) then [SnapshotBid(table[id])] else [], table, budgets, query, tau, ids)
  {
    var id := ids[|ids| - 1];
    var more := bids + if id in Competing(table, budgets, query, tau) then [SnapshotBid(table[id])] else [];
    PutBackLast(ids);
    FiltersMean(table, budgets, query, tau, id);
    forall x | x in ids && x in Competing(table, budgets, query, tau) ensures HasBid(more, x) {
      if x in ids[..|ids| - 1] {
        assert HasBid(bids, x);
        var b :| b in bids && b.id == x;
        assert b in more;
      } else {
        assert SnapshotBid(table[id]) in more;
      }
    }
  }

  lemma {:induction false} ReachingBidsReach(table: map<string, PositionSnapshot>, budgets: map<string, BudgetSnapshot>,
                                             query: seq<real>, tau: real, ids: seq<string>)
    requires KeyedSnapshots(table) && (forall id :: id in ids ==> id in table)
    ensures ReachAs(ReachingBids(ListAll(table, ids), budgets, query, tau), table, budgets, query, tau, ids)
  {
    if ids != [] {
      var n := |ids| - 1;
      assert ids[n] in ids;
      ReachingBidsReach(table, budgets, query, tau, ids[..n]);
      ReachingStep(table, budgets, query, tau, ids);
      ReachOneMore(ReachingBids(ListAll(table, ids[..n]), budgets, query, tau), table, budgets, query, tau, ids);
    }
  }

  lemma {:induction false} BidsCountIds(bids: seq<CoreBid>, keys: set<string>)
    requires DistinctIds(bids) && (forall b :: b in bids ==> b.id in keys) && (forall id :: id in keys ==> HasBid(bids, id))
    ensures |bids| == |keys|
  {
    if bids == [] {
      forall id ensures id !in keys {
        assert id in keys ==> HasBid(bids, id);
      }
      assert keys == {};
    } else {
      var n := |bids| - 1;
      var id := bids[n].id;
      assert bids[n] in bids;
      forall b | b in bids[..n] ensures b.id in keys - {id} {
        assert b in bids;
      }
      forall x | x in keys - {id} ensures HasBid(bids[..n], x) {
        assert HasBid(bids, x);
        var b :| b in bids && b.id == x;
        PutBackLast(bids);
        assert b in bids[..n];
      }
      BidsCountIds(bids[..n], keys - {id});
    }
  }

  /** The bids that reach the auction are those of the competing positions. */
  lemma ReachingBidsCompete(table: map<string, PositionSnapshot>, budgets: map<string, BudgetSnapshot>, query: seq<real>, tau: real, ids: seq<string>)
    requires KeyedSnapshots(table) && Listing(ids, table.Keys)
    ensures BidsOfCompeting(table, budgets, query, tau, ReachingBids(ListAll(table, ids), budgets, query, tau))
  {
    var bids := ReachingBids(ListAll(table, ids), budgets, query, tau);
    ReachingBidsReach(table, budgets, query, tau, ids);
    ReachingBidsDistinct(table, ids, budgets, query, tau);
    BidsCountIds(bids, Competing(table, budgets, query, tau));
  }

  lemma ReachedIsNone(bids: seq<CoreBid>, table: map<string, PositionSnapshot>, budgets: map<string, BudgetSnapshot>,
                      query: seq<real>, tau: real, ids: seq<string>)
    requires ReachAs(bids, table, budgets, query, tau, ids) && (forall id :: id in Competing(table, budgets, query, tau) ==> id in ids)
    ensures bids == [] <==> Competing(table, budgets, query, tau) == {}
  {
    if bids != [] {
      assert bids[0] in bids;
    }
    forall id | id in Competing(table, budgets, query, tau) ensures bids != [] {
      assert HasBid(bids, id);
    }
  }

  /** Nothing is affordable exactly if the unfiltered bids are none. */
  lemma AffordableMeans(table: map<string, PositionSnapshot>, budgets: map<string, BudgetSnapshot>, query: seq<real>, ids: seq<string>)
    requires KeyedSnapshots(table) && Listing(ids, table.Keys)
    ensures AffordableBids(ListAll(table, ids), budgets) == [] <==> forall id :: id in table ==> !Afford(budgets, table[id])
  {
    var competing := Competing(table, budgets, query, 0.0);
    ReachingBidsReach(table, budgets, query, 0.0, ids);
    ReachedIsNone(AffordableBids(ListAll(table, ids), budgets), table, budgets, query, 0.0, ids);
    assert forall id :: id in table ==> (Afford(budgets, table[id]) <==> id in competing);
  }

  /** A sale of distinct bids is to the head of a ranking, at its critical price. */
  lemma SaleIsToHead(m: LogScale, bids: seq<CoreBid>, query: seq<real>, sale: Sale, resp: AuctionResponse) returns (t: seq<ScoredBid>)
    requires m.Lawful() && DistinctIds(bids) && EnclaveSells(m, bids, 0.0, query, sale) && Reply(sale, |bids|) == Ok(resp)
    ensures SoldTo(m, bids, query, t, resp)
  {
    ImplementationsAgree(m, bids, query, sale);
    var r :| Possible(m, bids, 0.0, query, r) && Priceable(r, query)
             && sale == Sale(r.winner, r.runnerUp, ComputeVCGPayment(m, r, query, 0.0));
    t :| IsRanking(t, Candidates(m, bids, 0.0, query)) && r == Outcome(bids, 0.0, t);
    PaymentIsCriticalPrice(m, bids, 0.0, query, t);
  }

  /** If the head of a ranking has no finite score, nobody has. */
  lemma UnplacedHead(m: LogScale, bids: seq<CoreBid>, query: seq<real>, t: seq<ScoredBid>)
    requires IsRanking(t, Candidates(m, bids, 0.0, query)) && Placed(t, 0).None?
    ensures NobodyScores(m, bids, query)
  {
    forall b | b in bids && b.price > 0.0 ensures ComputeScore(m, b, query) == NegInf {
      HeadMatchesEligible(m, bids, 0.0, query, t, b);
    }
  }

  lemma NoSaleMeansNobodyScores(m: LogScale, bids: seq<CoreBid>, query: seq<real>, sale: Sale)
    requires m.Lawful() && DistinctIds(bids) && EnclaveSells(m, bids, 0.0, query, sale) && sale.winner.None?
    ensures NobodyScores(m, bids, query)
  {
    ImplementationsAgree(m, bids, query, sale);
    var r :| Possible(m, bids, 0.0, query, r) && Priceable(r, query)
             && sale == Sale(r.winner, r.runnerUp, ComputeVCGPayment(m, r, query, 0.0));
    var t :| IsRanking(t, Candidates(m, bids, 0.0, query)) && r == Outcome(bids, 0.0, t);
    UnplacedHead(m, bids, query, t);
  }

  /** The enclave answers right by its stores alone, whatever their order. */
  lemma ProcessIsRight(m: LogScale, table: map<string, PositionSnapshot>, ids: seq<string>, budgets: map<string, BudgetSnapshot>,
                       query: seq<real>, tau: real, sorted: seq<ScoredBid>, draws: seq<nat>)
    requires m.Lawful() && KeyedSnapshots(table) && Listing(ids, table.Keys)
    requires Randomness(m, ReachingBids(ListAll(table, ids), budgets, query, tau), query, sorted, draws)
    ensures Answered(m, table, budgets, query, tau, Process(m, table, ids, budgets, query, tau, sorted, draws))
  {
    var bids := ReachingBids(ListAll(table, ids), budgets, query, tau);
    ReachingBidsCompete(table, budgets, query, tau, ids);
    AffordableMeans(table, budgets, query, ids);
    if ids != [] && AffordableBids(ListAll(table, ids), budgets) != [] && bids != [] {
      DrawnIsSale(m, bids, query, sorted, draws);
      var sale := SaleOf(m, bids, query, Ranked(sorted, draws));
      if sale.winner.None? {
        NoSaleMeansNobodyScores(m, bids, query, sale);
        assert Unsold(m, table, budgets, query, tau, bids);
      } else {
        var resp := Reply(sale, |bids|).value;
        var t := SaleIsToHead(m, bids, query, sale, resp);
        assert Sold(m, table, budgets, query, tau, bids, t, resp);
      }
    } else if ids == [] {
      assert table.Keys == {};
    } else {
      assert ids[0] in table;
      if bids == [] {
        forall id ensures id !in Competing(table, budgets, query, tau) {
          assert id in Competing(table, budgets, query, tau) ==> HasBid(bids, id);
        }
      }
    }
  }

  // ----- the code -----

  method BuildBids(ps: seq<PositionSnapshot>, budgets: BudgetStore) returns (bids: seq<CoreBid>)
    ensures bids == AffordableBids(ps, budgets.budgets)
  {
    bids := [];
    for i := 0 to |ps|
      invariant bids == AffordableBids(ps[..i], budgets.budgets)
    {
      AffordableOneMore(ps, i, budgets.budgets);
      var ok := budgets.CanAfford(SnapshotKey(ps[i]), ps[i].bidPrice);
      if !ok {
        continue;
      }
      bids := bids + [SnapshotBid(ps[i])];
    }
    assert ps[..|ps|] == ps;
  }

  method FilterByTau(bids: seq<CoreBid>, query: seq<real>, tau: real) returns (filtered: seq<CoreBid>)
    ensures filtered == Keep(bids, WithinTau(query, tau))
  {
    filtered := [];
    for i := 0 to |bids|
      invariant filtered == Keep(bids[..i], WithinTau(query, tau))
    {
      KeepStep(bids, i, WithinTau(query, tau));
      var dist := EnclaveSquaredEuclideanDistance(bids[i].embedding, query);
      if dist.Dist? && dist.d <= tau {
        filtered := filtered + [bids[i]];
      }
    }
    assert bids[..|bids|] == bids;
  }

  method RunAndPrice(m: LogScale, bids: seq<CoreBid>, query: seq<real>, sorted: seq<ScoredBid>, draws: seq<nat>)
      returns (r: Result<AuctionResponse, ProcessError>)
    requires DistinctIds(bids) && Randomness(m, bids, query, sorted, draws)
    ensures IsRanking(Ranked(sorted, draws), EnclaveCandidates(m, bids, 0.0, query))
    ensures EnclavePriceable(EnclaveOutcome(m, bids, 0.0, query, Ranked(sorted, draws)), query)
    ensures r == Reply(SaleOf(m, bids, query, Ranked(sorted, draws)), |bids|)
  {
    var result := EnclaveRunAuction(m, bids, 0.0, query, sorted, draws);
    RankedIsRanking(sorted, draws);
    EnclaveOutcomePriceable(m, bids, query, Ranked(sorted, draws));
    if result.winner.None? {
      return Err(NoWinner);
    }
    var payment := EnclaveVCGPayment(m, result, query, 0.0);
    return Ok(AuctionResponse(result.winner.value.id, payment, result.winner.value.currency, |bids|));
  }

  method Decide(m: LogScale, query: seq<real>, tau: real, positions: PositionStore, budgets: BudgetStore,
                ids: seq<string>, sorted: seq<ScoredBid>, draws: seq<nat>) returns (r: Result<AuctionResponse, ProcessError>)
    requires KeyedSnapshots(positions.positions) && Listing(ids, positions.positions.Keys)
    requires Randomness(m, ReachingBids(ListAll(positions.positions, ids), budgets.budgets, query, tau), query, sorted, draws)
    ensures r == Process(m, positions.positions, ids, budgets.budgets, query, tau, sorted, draws)
  {
    var all := positions.GetAll(ids);
    if |all| == 0 {
      return Err(NoAdvertisers);
    }
    var bids := BuildBids(all, budgets);
    if |bids| == 0 {
      return Err(NoEligible);
    }
    if tau > 0.0 {
      bids := FilterByTau(bids, query, tau);
      if |bids| == 0 {
        return Err(NonePassed);
      }
    }
    ReachingBidsDistinct(positions.positions, ids, budgets.budgets, query, tau);
    r := RunAndPrice(m, bids, query, sorted, draws);
  }

  /** The embedding is zeroed in place, whatever the answer. */
  method ProcessPrivateAuction(m: LogScale, query: array<real>, tau: real, positions: PositionStore, budgets: BudgetStore,
                               ids: seq<string>, sorted: seq<ScoredBid>, draws: seq<nat>)
      returns (r: Result<AuctionResponse, ProcessError>)
    requires KeyedSnapshots(positions.positions) && Listing(ids, positions.positions.Keys)
    requires Randomness(m, ReachingBids(ListAll(positions.positions, ids), budgets.budgets, query[..], tau), query[..], sorted, draws)
    modifies query
    ensures r == Process(m, old(positions.positions), ids, old(budgets.budgets), old(query[..]), tau, sorted, draws)
    ensures m.Lawful() ==> Answered(m, old(positions.positions), old(budgets.budgets), old(query[..]), tau, r)
    ensures forall i :: 0 <= i < query.Length ==> query[i] == 0.0
  {
    if m.Lawful() {
      ProcessIsRight(m, positions.positions, ids, budgets.budgets, query[..], tau, sorted, draws);
    }
    r := Decide(m, query[..], tau, positions, budgets, ids, sorted, draws);
    for i := 0 to query.Length
      invariant forall j :: 0 <= j < i ==> query[j] == 0.0
    {
      query[i] := 0.0;
    }
  }

  // ----- the platform's own state -----

  function AffordableBy(mem: Memory): Position -> bool {
    (p: Position) => Affords(mem, BudgetKey(p), p.bidPrice)
  }

  function PlatformBids(registry: map<string, Position>, mem: Memory, ids: seq<string>): seq<CoreBid>
    requires forall id :: id in ids ==> id in registry
  {
    BidsOfPositions(Keep(ListAll(registry, ids), AffordableBy(mem)))
  }

  /** The bid is of the query's dimension and at most that squared distance away. */
  function Near(query: seq<real>, tau: real): CoreBid -> bool {
    (b: CoreBid) => |b.embedding| == |query| && SumSq(b.embedding, query, |query|) <= tau
  }

  /** The affordable positions' bids, with a positive threshold those within it. */
  function PlatformReach(registry: map<string, Position>, mem: Memory, ids: seq<string>, query: seq<real>, tau: real): seq<CoreBid>
    requires forall id :: id in ids ==> id in registry
  {
    if tau > 0.0 then Keep(PlatformBids(registry, mem, ids), Near(query, tau)) else PlatformBids(registry, mem, ids)
  }

  /** The stores hold what a sync of the registry and the budgets has left there. */
  ghost predicate InSync(registry: map<string, Position>, mem: Memory, table: map<string, PositionSnapshot>, budgets: map<string, BudgetSnapshot>) {
    && KeyedById(registry) && table == Synced(registry)
    && exists ids :: Listing(ids, registry.Keys) && Mirrors(budgets, ListAll(registry, ids), mem)
  }

  lemma SyncedFilter(registry: map<string, Position>, mem: Memory, table: map<string, PositionSnapshot>, budgets: map<string, BudgetSnapshot>, id: string)
    requires InSync(registry, mem, table, budgets) && id in registry
    ensures id in table && SnapshotBid(table[id]) == BidOf(registry[id])
    ensures BudgetCovers(budgets, SnapshotKey(table[id]), table[id].bidPrice) <==> AffordableBy(mem)(registry[id])
  {
    var ids :| Listing(ids, registry.Keys) && Mirrors(budgets, ListAll(registry, ids), mem);
    assert id in ids;
    var i :| 0 <= i < |ids| && ids[i] == id;
    assert ListAll(registry, ids)[i] == registry[id];
    FilterMirrorsPlatform(budgets, ListAll(registry, ids), mem, registry[id]);
  }

  /** After a sync the enclave's budget-filtered bids are exactly those of the
      platform's affordable positions. */
  lemma {:induction false} SyncedBidsMirrorPlatform(registry: map<string, Position>, mem: Memory,
                                   table: map<string, PositionSnapshot>, budgets: map<string, BudgetSnapshot>, ids: seq<string>)
    requires InSync(registry, mem, table, budgets) && (forall id :: id in ids ==> id in registry && id in table)
    ensures AffordableBids(ListAll(table, ids), budgets) == PlatformBids(registry, mem, ids)
  {
    if ids != [] {
      var n := |ids| - 1;
      assert ids[n] in ids;
      SyncedBidsMirrorPlatform(registry, mem, table, budgets, ids[..n]);
      SyncedFilter(registry, mem, table, budgets, ids[n]);
      AffordableStep(table, budgets, ids);
      PlatformStep(registry, mem, ids);
    }
  }

  lemma PlatformStep(registry: map<string, Position>, mem: Memory, ids: seq<string>)
    requires ids != [] && (forall id :: id in ids ==> id in registry)
    ensures var n := |ids| - 1;
            PlatformBids(registry, mem, ids) == PlatformBids(registry, mem, ids[..n]) +
              if AffordableBy(mem)(registry[ids[n]]) then [BidOf(registry[ids[n]])] else []
  {
    var n := |ids| - 1;
    var ps := ListAll(registry, ids);
    assert ps[..n] == ListAll(registry, ids[..n]) && ps[..n + 1] == ps;
    BidsStep(ps, n, AffordableBy(mem));
  }

  /** The platform would sell to resp from its own state, iterating it in the order ids. */
  ghost predicate PlatformResponds(m: LogScale, registry: map<string, Position>, mem: Memory, ids: seq<string>, query: seq<real>, tau: real, resp: AuctionResponse) {
    && Listing(ids, registry.Keys)
    && exists sale :: AdserverSells(m, PlatformReach(registry, mem, ids, query, tau), 0.0, query, sale)
                      && Reply(sale, |PlatformReach(registry, mem, ids, query, tau)|) == Ok(resp)
  }

  ghost predicate EnclaveResponds(m: LogScale, table: map<string, PositionSnapshot>, budgets: map<string, BudgetSnapshot>, ids: seq<string>,
                                  query: seq<real>, tau: real, resp: AuctionResponse) {
    && KeyedSnapshots(table) && Listing(ids, table.Keys)
    && exists sorted, draws :: Randomness(m, ReachingBids(ListAll(table, ids), budgets, query, tau), query, sorted, draws)
                               && Process(m, table, ids, budgets, query, tau, sorted, draws) == Ok(resp)
  }

  // ----- main results -----

  /** The enclave's sales are those of its sort orders and draws. */
  lemma SalesAreDrawn(m: LogScale, bids: seq<CoreBid>, query: seq<real>, sale: Sale) returns (sorted: seq<ScoredBid>, draws: seq<nat>)
    requires DistinctIds(bids) && EnclaveSells(m, bids, 0.0, query, sale)
    ensures Randomness(m, bids, query, sorted, draws)
    ensures EnclavePriceable(EnclaveOutcome(m, bids, 0.0, query, Ranked(sorted, draws)), query)
    ensures SaleOf(m, bids, query, Ranked(sorted, draws)) == sale
  {
    var e :| EnclavePossible(m, bids, 0.0, query, e) && EnclavePriceable(e, query)
             && sale == Sale(e.winner, e.runnerUp, EnclaveVCGPayment(m, e, query, 0.0));
    sorted :| IsRanking(sorted, EnclaveCandidates(m, bids, 0.0, query)) && e == EnclaveOutcome(m, bids, 0.0, query, sorted);
    EnclavePossibleIffDrawn(m, bids, 0.0, query, e, sorted);
    draws :| EnclaveDrawnBy(m, bids, 0.0, query, e, sorted, draws);
  }

  lemma DrawnIsSale(m: LogScale, bids: seq<CoreBid>, query: seq<real>, sorted: seq<ScoredBid>, draws: seq<nat>)
    requires DistinctIds(bids) && Randomness(m, bids, query, sorted, draws)
    ensures EnclavePriceable(EnclaveOutcome(m, bids, 0.0, query, Ranked(sorted, draws)), query)
    ensures EnclaveSells(m, bids, 0.0, query, SaleOf(m, bids, query, Ranked(sorted, draws)))
  {
    RankedIsRanking(sorted, draws);
    EnclaveOutcomePriceable(m, bids, query, Ranked(sorted, draws));
    assert EnclavePossible(m, bids, 0.0, query, EnclaveOutcome(m, bids, 0.0, query, Ranked(sorted, draws)));
  }

  /** Nothing is sold without bids. */
  lemma SaleNeedsBids(m: LogScale, query: seq<real>, sale: Sale)
    requires EnclaveSells(m, [], 0.0, query, sale)
    ensures sale.winner.None?
  {
    var e :| EnclavePossible(m, [], 0.0, query, e) && sale.winner == e.winner;
    var t :| IsRanking(t, EnclaveCandidates(m, [], 0.0, query)) && e == EnclaveOutcome(m, [], 0.0, query, t);
    assert EnclaveEligible([], 0.0) == [];
    assert |multiset(t)| == |t|;
  }

  lemma ResponseOfSale(m: LogScale, table: map<string, PositionSnapshot>, ids: seq<string>, budgets: map<string, BudgetSnapshot>,
                       query: seq<real>, tau: real, sale: Sale, resp: AuctionResponse)
    requires KeyedSnapshots(table) && Listing(ids, table.Keys)
    requires var bids := ReachingBids(ListAll(table, ids), budgets, query, tau);
             EnclaveSells(m, bids, 0.0, query, sale) && Reply(sale, |bids|) == Ok(resp)
    ensures EnclaveResponds(m, table, budgets, ids, query, tau, resp)
  {
    var bids := ReachingBids(ListAll(table, ids), budgets, query, tau);
    ReachingBidsDistinct(table, ids, budgets, query, tau);
    var sorted, draws := SalesAreDrawn(m, bids, query, sale);
    if bids == [] {
      SaleNeedsBids(m, query, sale);
    }
    assert Process(m, table, ids, budgets, query, tau, sorted, draws) == Ok(resp);
  }

  lemma SaleOfResponse(m: LogScale, table: map<string, PositionSnapshot>, ids: seq<string>, budgets: map<string, BudgetSnapshot>,
                       query: seq<real>, tau: real, resp: AuctionResponse) returns (sale: Sale)
    requires EnclaveResponds(m, table, budgets, ids, query, tau, resp)
    ensures KeyedSnapshots(table) && Listing(ids, table.Keys)
    ensures var bids := ReachingBids(ListAll(table, ids), budgets, query, tau);
            EnclaveSells(m, bids, 0.0, query, sale) && Reply(sale, |bids|) == Ok(resp)
  {
    var bids := ReachingBids(ListAll(table, ids), budgets, query, tau);
    var sorted, draws :| Randomness(m, bids, query, sorted, draws)
                         && Process(m, table, ids, budgets, query, tau, sorted, draws) == Ok(resp);
    ReachingBidsDistinct(table, ids, budgets, query, tau);
    DrawnIsSale(m, bids, query, sorted, draws);
    sale := SaleOf(m, bids, query, Ranked(sorted, draws));
  }

  /** With and without a relevance threshold, the enclave's possible responses
      right after a sync are exactly those of running the auction on the
      platform's own state, among the affordable positions within the threshold
      and without a currency filter, over every iteration order and every
      tie-break on either side. */
  lemma SyncedOutcomesAgree(m: LogScale, registry: map<string, Position>, mem: Memory, table: map<string, PositionSnapshot>,
                            budgets: map<string, BudgetSnapshot>, query: seq<real>, tau: real, resp: AuctionResponse)
    requires m.Lawful() && InSync(registry, mem, table, budgets)
    ensures (exists ids :: PlatformResponds(m, registry, mem, ids, query, tau, resp)) <==>
            (exists ids :: EnclaveResponds(m, table, budgets, ids, query, tau, resp))
  {
    assert table.Keys == registry.Keys;
    forall ids | Listing(ids, registry.Keys)
      ensures PlatformResponds(m, registry, mem, ids, query, tau, resp) <==> EnclaveResponds(m, table, budgets, ids, query, tau, resp)
    {
      if PlatformResponds(m, registry, mem, ids, query, tau, resp) {
        PlatformToEnclave(m, registry, mem, table, budgets, ids, query, tau, resp);
      }
      if EnclaveResponds(m, table, budgets, ids, query, tau, resp) {
        EnclaveToPlatform(m, registry, mem, table, budgets, ids, query, tau, resp);
      }
    }
  }

  lemma SyncedReach(registry: map<string, Position>, mem: Memory, table: map<string, PositionSnapshot>,
                    budgets: map<string, BudgetSnapshot>, ids: seq<string>, query: seq<real>, tau: real)
    requires InSync(registry, mem, table, budgets) && Listing(ids, registry.Keys)
    ensures KeyedSnapshots(table) && table.Keys == registry.Keys
    ensures ReachingBids(ListAll(table, ids), budgets, query, tau) == PlatformReach(registry, mem, ids, query, tau)
    ensures DistinctIds(PlatformReach(registry, mem, ids, query, tau))
  {
    assert table.Keys == registry.Keys;
    SyncedBidsMirrorPlatform(registry, mem, table, budgets, ids);
    ReachingBidsDistinct(table, ids, budgets, query, tau);
    FiltersAgree(PlatformBids(registry, mem, ids), query, tau);
  }

  lemma FiltersAgree(bids: seq<CoreBid>, query: seq<real>, tau: real)
    ensures Keep(bids, WithinTau(query, tau)) == Keep(bids, Near(query, tau))
  {
    KeepAgrees(bids, WithinTau(query, tau), Near(query, tau));
  }

  lemma PlatformToEnclave(m: LogScale, registry: map<string, Position>, mem: Memory, table: map<string, PositionSnapshot>,
                          budgets: map<string, BudgetSnapshot>, ids: seq<string>, query: seq<real>, tau: real, resp: AuctionResponse)
    requires m.Lawful() && InSync(registry, mem, table, budgets)
    requires PlatformResponds(m, registry, mem, ids, query, tau, resp)
    ensures EnclaveResponds(m, table, budgets, ids, query, tau, resp)
  {
    SyncedReach(registry, mem, table, budgets, ids, query, tau);
    var bids := PlatformReach(registry, mem, ids, query, tau);
    var sale :| AdserverSells(m, bids, 0.0, query, sale) && Reply(sale, |bids|) == Ok(resp);
    ImplementationsAgree(m, bids, query, sale);
    ResponseOfSale(m, table, ids, budgets, query, tau, sale, resp);
  }

  lemma EnclaveToPlatform(m: LogScale, registry: map<string, Position>, mem: Memory, table: map<string, PositionSnapshot>,
                          budgets: map<string, BudgetSnapshot>, ids: seq<string>, query: seq<real>, tau: real, resp: AuctionResponse)
    requires m.Lawful() && InSync(registry, mem, table, budgets) && Listing(ids, registry.Keys)
    requires EnclaveResponds(m, table, budgets, ids, query, tau, resp)
    ensures PlatformResponds(m, registry, mem, ids, query, tau, resp)
  {
    SyncedReach(registry, mem, table, budgets, ids, query, tau);
    var sale := SaleOfResponse(m, table, ids, budgets, query, tau, resp);
    ImplementationsAgree(m, PlatformReach(registry, mem, ids, query, tau), query, sale);
  }

  /** The relevance filter of the enclave and the adserver's distance agree on a
      bid unless both its embedding and the query are empty. */
  lemma TauFiltersAgree(b: CoreBid, query: seq<real>, tau: real)
    requires tau > 0.0
    ensures (WithinTau(query, tau)(b) <==> DistanceSq(b.embedding, query).Dist? && DistanceSq(b.embedding, query).d <= tau) <==>
            !(b.embedding == [] && query == [])
  {
  }
}
