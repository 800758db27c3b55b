/** Advertiser positions in embedding space (platform/registry.go). */
module Positions {
  import opened Scoring
  import opened Sequences

  datatype Position = Position(
    id: string,
    name: string,
    intent: string,
    embedding: seq<real>,
    sigma: real,
    bidPrice: real,
    currency: string,
    url: string,
    budgetId: string)

  /** The ID whose budget the position draws down. */
  function BudgetKey(p: Position): string {
    if p.budgetId != "" then p.budgetId else p.id
  }

  /** A position's bid; its bidder is the owner of the budget. */
  function BidOf(p: Position): CoreBid {
    CoreBid(p.id, BudgetKey(p), p.bidPrice, p.currency, p.embedding, p.sigma)
  }

  function BidsOfPositions(ps: seq<Position>): (r: seq<CoreBid>)
    ensures |r| == |ps| && forall i :: 0 <= i < |ps| ==> r[i] == BidOf(ps[i])
  {
    seq(|ps|, i requires 0 <= i < |ps| => BidOf(ps[i]))
  }

  lemma BidsStep(ps: seq<Position>, i: nat, p: Position -> bool)
    requires i < |ps|
    ensures BidsOfPositions(Keep(ps[..i + 1], p)) ==
            BidsOfPositions(Keep(ps[..i], p)) + if p(ps[i]) then [BidOf(ps[i])] else []
  {
    KeepStep(ps, i, p);
  }
}
