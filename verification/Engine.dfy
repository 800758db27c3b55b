/** The live auction over several query points (platform/engine.go). */
module Engine {
  import opened Wrappers
  import opened Scoring
  import opened Ranking
  import opened Auction
  import opened Payment
  import opened Truthful
  import opened Billing
  import opened Positions
  import opened Sequences
  import opened Settlement

  datatype Request = Request(texts: seq<string>, embedding: seq<real>, floor: real, currencies: seq<string>, test: bool)

  datatype OrtbError = NoQuery | EmbedFailed(text: string) | NoBid | LogFailed

  /** What a request is answered from: a snapshot of the registry in the order
      in which its map was iterated, the budgets if any are tracked, and the
      embedder, which may fail on a text. */
  datatype Market = Market(positions: seq<Position>, budgets: Option<Memory>, embed: string -> Option<seq<real>>)

  /** The auction that takes the impression, with its query point and price. */
  datatype Served = Served(result: AuctionResult, point: seq<real>, payment: real, bidCount: nat)

  // ----- the query points -----

  /** The texts' embeddings, or the first text that could not be embedded. */
  function EmbedAll(texts: seq<string>, embed: string -> Option<seq<real>>): Result<seq<seq<real>>, OrtbError> {
    if texts == [] then Ok([])
    else
      var last := texts[|texts| - 1];
      match EmbedAll(texts[..|texts| - 1], embed)
      case Err(e) => Err(e)
      case Ok(points) => if embed(last).None? then Err(EmbedFailed(last)) else Ok(points + [embed(last).value])
  }

  function QueryPoints(req: Request, embed: string -> Option<seq<real>>): Result<seq<seq<real>>, OrtbError> {
    if |req.embedding| > 0 then Ok([req.embedding])
    else if req.texts == [] then Err(NoQuery)
    else EmbedAll(req.texts, embed)
  }

  /** The points of a request: its embedding, if it has one, and otherwise one
      for each text, in order. */
  predicate PointsOf(req: Request, embed: string -> Option<seq<real>>, points: seq<seq<real>>) {
    if req.embedding != [] then points == [req.embedding]
    else req.texts != [] && |points| == |req.texts| && forall i :: 0 <= i < |points| ==> embed(req.texts[i]) == Some(points[i])
  }

  /** A text that cannot be embedded, all texts before which can. */
  predicate FirstUnread(texts: seq<string>, embed: string -> Option<seq<real>>, text: string) {
    exists n :: 0 <= n < |texts| && texts[n] == text && embed(text).None? && forall i :: 0 <= i < n ==> embed(texts[i]).Some?
  }

  lemma {:induction false} EmbedAllReads(texts: seq<string>, embed: string -> Option<seq<real>>)
    ensures match EmbedAll(texts, embed)
            case Ok(points) => |points| == |texts| && forall i :: 0 <= i < |texts| ==> embed(texts[i]) == Some(points[i])
            case Err(e) => e.EmbedFailed? && FirstUnread(texts, embed, e.text)
  {
    if texts != [] {
      var n := |texts| - 1;
      EmbedAllReads(texts[..n], embed);
      match EmbedAll(texts[..n], embed)
      case Err(e) =>
        var k :| 0 <= k < n && texts[..n][k] == e.text && embed(e.text).None? && forall i :: 0 <= i < k ==> embed(texts[..n][i]).Some?;
        assert texts[k] == e.text && forall i :: 0 <= i < k ==> texts[..n][i] == texts[i];
      case Ok(points) =>
        assert forall i :: 0 <= i < n ==> texts[..n][i] == texts[i];
    }
  }

  /** How a request is read. */
  lemma QueryIsRead(req: Request, embed: string -> Option<seq<real>>)
    ensures match QueryPoints(req, embed)
            case Ok(points) => PointsOf(req, embed, points)
            case Err(NoQuery) => req.embedding == [] && req.texts == []
            case Err(EmbedFailed(text)) => req.embedding == [] && FirstUnread(req.texts, embed, text)
            case Err(_) => false
  {
    EmbedAllReads(req.texts, embed);
  }

  lemma {:induction false} EmbedAllStops(texts: seq<string>, n: nat, embed: string -> Option<seq<real>>)
    requires n <= |texts| && EmbedAll(texts[..n], embed).Err?
    ensures EmbedAll(texts, embed) == EmbedAll(texts[..n], embed)
  {
    if n < |texts| {
      assert texts[..|texts| - 1][..n] == texts[..n];
      EmbedAllStops(texts[..|texts| - 1], n, embed);
    } else {
      assert texts[..n] == texts;
    }
  }

  method EmbedQuery(req: Request, embed: string -> Option<seq<real>>) returns (r: Result<seq<seq<real>>, OrtbError>)
    ensures r == QueryPoints(req, embed)
  {
    if |req.embedding| > 0 {
      return Ok([req.embedding]);
    }
    if |req.texts| == 0 {
      return Err(NoQuery);
    }
    var points := [];
    for i := 0 to |req.texts|
      invariant EmbedAll(req.texts[..i], embed) == Ok(points)
    {
      assert req.texts[..i + 1][..i] == req.texts[..i];
      var text := req.texts[i];
      var embedding := embed(text);
      if embedding.None? {
        EmbedAllStops(req.texts, i + 1, embed);
        return Err(EmbedFailed(text));
      }
      points := points + [embedding.value];
    }
    assert req.texts[..|req.texts|] == req.texts;
    return Ok(points);
  }

  // ----- the live bids -----

  /** No currency means USD, on both sides. */
  predicate CurrencyAllowed(currencies: seq<string>, currency: string) {
    (if currency == "" then "USD" else currency) in (if currencies == [] then ["USD"] else currencies)
  }

  predicate CanBid(budgets: Option<Memory>, p: Position) {
    budgets.Some? ==> Affords(budgets.value, BudgetKey(p), p.bidPrice)
  }

  function Live(currencies: seq<string>, budgets: Option<Memory>): Position -> bool {
    (p: Position) => CurrencyAllowed(currencies, p.currency) && CanBid(budgets, p)
  }

  function LiveBids(req: Request, market: Market): seq<CoreBid> {
    BidsOfPositions(Keep(market.positions, Live(req.currencies, market.budgets)))
  }

  /** A position asks for a currency of the request, or for dollars if either
      names none, and what is left of its budget covers its price, if budgets
      are tracked. */
  predicate MayBid(req: Request, market: Market, p: Position) {
    var dollars := req.currencies == [] || "USD" in req.currencies;
    && (if p.currency == "" then dollars else p.currency in req.currencies || (p.currency == "USD" && dollars))
    && (market.budgets.Some? ==> HasRoom(market.budgets.value, if p.budgetId == "" then p.id else p.budgetId, p.bidPrice))
  }

  /** b is what the position bids, on behalf of the holder of its budget. */
  predicate BidFor(b: CoreBid, p: Position) {
    && b.id == p.id && b.bidder == (if p.budgetId == "" then p.id else p.budgetId) && b.price == p.bidPrice
    && b.currency == p.currency && b.embedding == p.embedding && b.sigma == p.sigma
  }

  lemma LiveExactly(req: Request, market: Market, p: Position)
    ensures Live(req.currencies, market.budgets)(p) <==> MayBid(req, market, p)
    ensures BidFor(BidOf(p), p)
  {
  }

  function Bidding(req: Request, market: Market): Position -> bool {
    (p: Position) => MayBid(req, market, p)
  }

  /** bids are those of the positions that may bid, one each, in order. */
  predicate BidsIn(req: Request, market: Market, bids: seq<CoreBid>) {
    var ps := Keep(market.positions, Bidding(req, market));
    |bids| == |ps| && forall i :: 0 <= i < |ps| ==> BidFor(bids[i], ps[i])
  }

  lemma LiveBidsAreIn(req: Request, market: Market)
    ensures BidsIn(req, market, LiveBids(req, market))
  {
    var live := Live(req.currencies, market.budgets);
    forall p | p in market.positions ensures live(p) == Bidding(req, market)(p) {
      LiveExactly(req, market, p);
    }
    KeepAgrees(market.positions, live, Bidding(req, market));
    var ps := Keep(market.positions, live);
    forall i | 0 <= i < |ps| ensures BidFor(LiveBids(req, market)[i], ps[i]) {
      LiveExactly(req, market, ps[i]);
    }
  }

  method BuildBids(req: Request, market: Market) returns (bids: seq<CoreBid>)
    ensures bids == LiveBids(req, market)
  {
    ghost var live := Live(req.currencies, market.budgets);
    var currencies := if |req.currencies| == 0 then ["USD"] else req.currencies;
    bids := [];
    for i := 0 to |market.positions|
      invariant bids == BidsOfPositions(Keep(market.positions[..i], live))
    {
      var pos := market.positions[i];
      BidsStep(market.positions, i, live);
      if (if pos.currency == "" then "USD" else pos.currency) !in currencies {
        continue;
      }
      if market.budgets.Some? && !Affords(market.budgets.value, BudgetKey(pos), pos.bidPrice) {
        continue;
      }
      bids := bids + [BidOf(pos)];
    }
    assert market.positions[..|market.positions|] == market.positions;
  }

  // ----- the best point -----

  function TopScore(r: AuctionResult): Score {
    if r.winner.Some? && |r.scored| > 0 then r.scored[0].score else NegInf
  }

  /** The first auction whose winner's score no other auction's winner exceeds. */
  function Best(rs: seq<AuctionResult>): (k: Option<nat>)
    ensures k.Some? ==> k.value < |rs| && rs[k.value].winner.Some? && |rs[k.value].scored| > 0
  {
    if rs == [] then None
    else
      var n := |rs| - 1;
      var k := Best(rs[..n]);
      if Above(TopScore(rs[n]), if k.Some? then TopScore(rs[k.value]) else NegInf) then Some(n) else k
  }

  lemma {:induction false} BestIsMaximal(rs: seq<AuctionResult>)
    ensures Best(rs).Some? ==> TopScore(rs[Best(rs).value]) != NegInf
    ensures Best(rs).Some? ==> forall j :: 0 <= j < |rs| ==> !Above(TopScore(rs[j]), TopScore(rs[Best(rs).value]))
    ensures Best(rs).Some? ==> forall j :: 0 <= j < Best(rs).value ==> Above(TopScore(rs[Best(rs).value]), TopScore(rs[j]))
    ensures Best(rs).None? <==> forall j :: 0 <= j < |rs| ==> TopScore(rs[j]) == NegInf
  {
    if rs != [] {
      var n := |rs| - 1;
      BestIsMaximal(rs[..n]);
      assert forall j :: 0 <= j < n ==> rs[..n][j] == rs[j];
    }
  }

  /** The draws at a query point are valid for the auction there. */
  predicate DrawsFit(m: LogScale, bids: seq<CoreBid>, floor: real, point: seq<real>, draws: seq<nat>) {
    ValidDraws(SortDescending(Candidates(m, bids, floor, point)), draws)
  }

  predicate AllDrawsFit(m: LogScale, bids: seq<CoreBid>, floor: real, points: seq<seq<real>>, draws: seq<seq<nat>>) {
    |draws| == |points| && forall k :: 0 <= k < |points| ==> DrawsFit(m, bids, floor, points[k], draws[k])
  }

  function ResultAt(m: LogScale, bids: seq<CoreBid>, floor: real, point: seq<real>, draws: seq<nat>): AuctionResult
    requires DrawsFit(m, bids, floor, point, draws)
  {
    Outcome(bids, floor, Ranked(SortDescending(Candidates(m, bids, floor, point)), draws))
  }

  /** The auctions at all query points, tie-breaks included. */
  function Results(m: LogScale, bids: seq<CoreBid>, floor: real, points: seq<seq<real>>, draws: seq<seq<nat>>): (rs: seq<AuctionResult>)
    requires AllDrawsFit(m, bids, floor, points, draws)
    ensures |rs| == |points|
  {
    seq(|points|, k requires 0 <= k < |points| => ResultAt(m, bids, floor, points[k], draws[k]))
  }

  method AuctionAt(m: LogScale, bids: seq<CoreBid>, floor: real, point: seq<real>, draws: seq<nat>) returns (r: AuctionResult)
    requires DrawsFit(m, bids, floor, point, draws)
    ensures r == ResultAt(m, bids, floor, point, draws)
  {
    r := RunAuction(m, bids, floor, point, draws);
  }

  /** The auction chosen among the points, with its point. */
  function Choice(rs: seq<AuctionResult>, points: seq<seq<real>>): Option<(AuctionResult, seq<real>)>
    requires |rs| <= |points|
  {
    if Best(rs).None? then None else Some((rs[Best(rs).value], points[Best(rs).value]))
  }

  /** The best so far, after the auction at the next point. */
  lemma ChoiceStep(rs: seq<AuctionResult>, i: nat, points: seq<seq<real>>, best: Option<(AuctionResult, seq<real>)>)
    requires i < |rs| <= |points| && best == Choice(rs[..i], points)
    ensures var bestScore := if best.Some? then TopScore(best.value.0) else NegInf;
            Choice(rs[..i + 1], points) == if Above(TopScore(rs[i]), bestScore) then Some((rs[i], points[i])) else best
  {
    assert rs[..i + 1][..i] == rs[..i];
  }

  method AuctionPerPoint(m: LogScale, bids: seq<CoreBid>, floor: real, points: seq<seq<real>>, draws: seq<seq<nat>>)
      returns (best: Option<(AuctionResult, seq<real>)>)
    requires AllDrawsFit(m, bids, floor, points, draws)
    ensures best == Choice(Results(m, bids, floor, points, draws), points)
  {
    ghost var rs := Results(m, bids, floor, points, draws);
    best := None;
    var bestScore := NegInf;
    for i := 0 to |points|
      invariant best == Choice(rs[..i], points)
      invariant bestScore == if best.Some? then TopScore(best.value.0) else NegInf
    {
      var r := AuctionAt(m, bids, floor, points[i], draws[i]);
      ChoiceStep(rs, i, points, best);
      if r.winner.None? || |r.scored| == 0 {
        continue;
      }
      if Above(r.scored[0].score, bestScore) {
        bestScore := r.scored[0].score;
        best := Some((r, points[i]));
      }
    }
    assert rs[..|points|] == rs;
  }

  // ----- the answer -----

  /** The draws fit the auctions that the request will run. */
  predicate Servable(m: LogScale, req: Request, market: Market, draws: seq<seq<nat>>) {
    var points := QueryPoints(req, market.embed);
    points.Ok? ==> AllDrawsFit(m, LiveBids(req, market), req.floor, points.value, draws)
  }

  lemma ResultPossible(m: LogScale, bids: seq<CoreBid>, floor: real, point: seq<real>, draws: seq<nat>)
    requires DrawsFit(m, bids, floor, point, draws)
    ensures Possible(m, bids, floor, point, ResultAt(m, bids, floor, point, draws))
    ensures Priceable(ResultAt(m, bids, floor, point, draws), point)
  {
    var c := Candidates(m, bids, floor, point);
    RankedIsRanking(SortDescending(c), draws);
    OutcomePriceable(m, bids, floor, point, Ranked(SortDescending(c), draws));
  }

  function Price(m: LogScale, bids: seq<CoreBid>, floor: real, point: seq<real>, draws: seq<nat>): real
    requires DrawsFit(m, bids, floor, point, draws)
  {
    ResultPossible(m, bids, floor, point, draws);
    ComputeVCGPayment(m, ResultAt(m, bids, floor, point, draws), point, floor)
  }

  function Serve(m: LogScale, req: Request, market: Market, draws: seq<seq<nat>>): (r: Result<Served, OrtbError>)
    requires Servable(m, req, market, draws)
    ensures r.Ok? ==> r.value.result.winner.Some? && |r.value.result.scored| > 0
  {
    match QueryPoints(req, market.embed)
    case Err(e) => Err(e)
    case Ok(points) =>
      var bids := LiveBids(req, market);
      var k := Best(Results(m, bids, req.floor, points, draws));
      if |bids| == 0 || k.None? then Err(NoBid)
      else
        var point := points[k.value];
        Ok(Served(ResultAt(m, bids, req.floor, point, draws[k.value]), point,
                  Price(m, bids, req.floor, point, draws[k.value]), |bids|))
  }

  /** b may take the impression at some query point. */
  predicate InMarket(b: CoreBid, bids: seq<CoreBid>, floor: real) {
    b in bids && b.price > 0.0 && b.price >= floor
  }

  /** At one point: the auction's top score is the best score of all bids in the market. */
  lemma TopScoreIsBest(m: LogScale, bids: seq<CoreBid>, floor: real, point: seq<real>, r: AuctionResult)
    requires Possible(m, bids, floor, point, r)
    ensures forall b :: InMarket(b, bids, floor) ==> !Above(ComputeScore(m, b, point), TopScore(r))
    ensures TopScore(r) != NegInf ==> InMarket(r.winner.value, bids, floor) && ComputeScore(m, r.winner.value, point) == TopScore(r)
  {
    var t :| IsRanking(t, Candidates(m, bids, floor, point)) && r == Outcome(bids, floor, t);
    forall b | InMarket(b, bids, floor) ensures !Above(ComputeScore(m, b, point), TopScore(r)) {
      HeadMatchesEligible(m, bids, floor, point, t, b);
    }
    if Placed(t, 0).Some? {
      PlacedIsInPlay(m, bids, floor, point, t, 0);
    }
  }

  /** The winning score is the maximum over all pairs of a bid in the market and a query point. */
  ghost predicate IsArgmax(m: LogScale, bids: seq<CoreBid>, floor: real, points: seq<seq<real>>, w: CoreBid, point: seq<real>) {
    && InMarket(w, bids, floor) && point in points && ComputeScore(m, w, point) != NegInf
    && forall b, j :: InMarket(b, bids, floor) && 0 <= j < |points| ==>
                        !Above(ComputeScore(m, b, points[j]), ComputeScore(m, w, point))
  }

  lemma BestIsArgmax(m: LogScale, bids: seq<CoreBid>, floor: real, points: seq<seq<real>>, draws: seq<seq<nat>>)
    requires AllDrawsFit(m, bids, floor, points, draws)
    ensures var k := Best(Results(m, bids, floor, points, draws));
            && (k.Some? ==> ResultAt(m, bids, floor, points[k.value], draws[k.value]).winner.Some?
                            && IsArgmax(m, bids, floor, points, ResultAt(m, bids, floor, points[k.value], draws[k.value]).winner.value, points[k.value]))
            && (k.None? ==> NothingCompetes(m, bids, floor, points))
  {
    var rs := Results(m, bids, floor, points, draws);
    BestIsMaximal(rs);
    var k := Best(rs);
    var top := if k.Some? then TopScore(rs[k.value]) else NegInf;
    forall j | 0 <= j < |points| ensures PointTopped(m, bids, floor, points[j], top) {
      ResultPossible(m, bids, floor, points[j], draws[j]);
      TopScoreIsBest(m, bids, floor, points[j], rs[j]);
      PointIsTopped(m, bids, floor, points[j], rs[j], top);
    }
    if k.Some? {
      ResultPossible(m, bids, floor, points[k.value], draws[k.value]);
      TopScoreIsBest(m, bids, floor, points[k.value], rs[k.value]);
    }
    forall b, j | InMarket(b, bids, floor) && 0 <= j < |points| ensures !Above(ComputeScore(m, b, points[j]), top) {
      assert PointTopped(m, bids, floor, points[j], top);
    }
  }

  /** No bid in the market scores above top at the point. */
  ghost predicate PointTopped(m: LogScale, bids: seq<CoreBid>, floor: real, point: seq<real>, top: Score) {
    forall b :: InMarket(b, bids, floor) ==> !Above(ComputeScore(m, b, point), top)
  }

  lemma PointIsTopped(m: LogScale, bids: seq<CoreBid>, floor: real, point: seq<real>, r: AuctionResult, top: Score)
    requires forall b :: InMarket(b, bids, floor) ==> !Above(ComputeScore(m, b, point), TopScore(r))
    requires !Above(TopScore(r), top)
    ensures PointTopped(m, bids, floor, point, top)
  {
  }

  // ----- main results -----

  /** The winning bid is that of a position that may bid, whose budget covers
      what it pays. */
  ghost predicate Funded(req: Request, market: Market, w: CoreBid, payment: real) {
    exists p :: p in market.positions && BidFor(w, p) && MayBid(req, market, p)
                && (market.budgets.Some? ==> HasRoom(market.budgets.value, w.bidder, payment))
  }

  lemma LiveBidIsCovered(req: Request, market: Market, w: CoreBid, payment: real)
    requires w in LiveBids(req, market) && payment <= w.price
    ensures Funded(req, market, w, payment)
  {
    var selected := Keep(market.positions, Live(req.currencies, market.budgets));
    var i :| 0 <= i < |selected| && BidOf(selected[i]) == w;
    assert selected[i] in selected;
    LiveExactly(req, market, selected[i]);
  }

  /** The best pair of a live bid and a query point, at a price that the bid,
      the floor and the budget allow. */
  ghost predicate WellServed(m: LogScale, req: Request, market: Market, points: seq<seq<real>>, s: Served)
    requires s.result.winner.Some?
  {
    var w := s.result.winner.value;
    && IsArgmax(m, LiveBids(req, market), req.floor, points, w, s.point)
    && req.floor <= s.payment <= w.price && 0.0 <= s.payment
    && Funded(req, market, w, s.payment)
  }

  /** A served request goes to the best (live bid, query point) pair, at a price
      between the floor and the bid that the winner's budget covers. */
  lemma ServedIsArgmax(m: LogScale, req: Request, market: Market, draws: seq<seq<nat>>)
    requires m.Lawful() && Servable(m, req, market, draws) && Serve(m, req, market, draws).Ok?
    ensures var points, s := QueryPoints(req, market.embed), Serve(m, req, market, draws).value;
            points.Ok? && s.result.winner.Some? && WellServed(m, req, market, points.value, s)
  {
    var points, bids := QueryPoints(req, market.embed).value, LiveBids(req, market);
    BestIsArgmax(m, bids, req.floor, points, draws);
    var k := Best(Results(m, bids, req.floor, points, draws)).value;
    PriceBounds(m, bids, req.floor, points[k], draws[k]);
    LiveBidIsCovered(req, market, Serve(m, req, market, draws).value.result.winner.value, Serve(m, req, market, draws).value.payment);
  }

  lemma PriceBounds(m: LogScale, bids: seq<CoreBid>, floor: real, point: seq<real>, draws: seq<nat>)
    requires m.Lawful() && DrawsFit(m, bids, floor, point, draws)
    requires ResultAt(m, bids, floor, point, draws).winner.Some?
    ensures floor <= Price(m, bids, floor, point, draws) <= ResultAt(m, bids, floor, point, draws).winner.value.price
    ensures 0.0 <= Price(m, bids, floor, point, draws)
  {
    var c := Candidates(m, bids, floor, point);
    RankedIsRanking(SortDescending(c), draws);
    PaymentIsCriticalPrice(m, bids, floor, point, Ranked(SortDescending(c), draws));
  }

  ghost predicate NothingCompetes(m: LogScale, bids: seq<CoreBid>, floor: real, points: seq<seq<real>>) {
    forall b, j :: InMarket(b, bids, floor) && 0 <= j < |points| ==> ComputeScore(m, b, points[j]) == NegInf
  }

  /** Once the query could be read, no-bid means exactly that no live bid that
      meets the floor has a finite score at any query point. */
  lemma NoBidExactly(m: LogScale, req: Request, market: Market, draws: seq<seq<nat>>)
    requires Servable(m, req, market, draws) && QueryPoints(req, market.embed).Ok?
    ensures Serve(m, req, market, draws) == Err(NoBid) <==>
            NothingCompetes(m, LiveBids(req, market), req.floor, QueryPoints(req, market.embed).value)
  {
    var points, bids := QueryPoints(req, market.embed).value, LiveBids(req, market);
    BestIsArgmax(m, bids, req.floor, points, draws);
    var k := Best(Results(m, bids, req.floor, points, draws));
    if k.Some? {
      var w := ResultAt(m, bids, req.floor, points[k.value], draws[k.value]).winner.value;
      assert InMarket(w, bids, req.floor) && ComputeScore(m, w, points[k.value]) != NegInf;
    }
  }

  /** A σ = 0 position with an embedding is served at a point equal to that
      embedding, or at an empty point, where distances do not count. */
  lemma ExactMatchIsServed(m: LogScale, req: Request, market: Market, draws: seq<seq<nat>>)
    requires m.Lawful() && Servable(m, req, market, draws) && Serve(m, req, market, draws).Ok?
    ensures var s := Serve(m, req, market, draws).value;
            s.result.winner.Some? && (s.result.winner.value.sigma == 0.0 && s.result.winner.value.embedding != [] ==>
              s.point == s.result.winner.value.embedding || s.point == [])
  {
    ServedIsArgmax(m, req, market, draws);
    var s := Serve(m, req, market, draws).value;
    var w := s.result.winner.value;
    if w.sigma == 0.0 && w.embedding != [] {
      KeywordReach(m, w, s.point);
    }
  }

  /** Where a σ = 0 keyword can compete at all. */
  lemma KeywordReach(m: LogScale, b: CoreBid, point: seq<real>)
    requires b.sigma == 0.0 && b.embedding != []
    ensures ComputeScore(m, b, point) != NegInf <==> b.price > 0.0 && (point == b.embedding || point == [])
  {
  }

  // ----- the answer, read from the request alone -----

  /** The response, with the ID under which a click on it will be settled. */
  datatype OrtbResult = OrtbResult(auctionId: nat, winner: CoreBid, score: Score, payment: real, bidCount: nat)

  /** o sells the impression at this point to the head of this ranking, whose
      score nobody exceeds at any point, for its critical price. */
  ghost predicate Sells(m: LogScale, bids: seq<CoreBid>, floor: real, points: seq<seq<real>>, point: seq<real>, t: seq<ScoredBid>, o: OrtbResult) {
    && point in points && IsRanking(t, Candidates(m, bids, floor, point)) && t != []
    && o.winner == t[0].bid && o.score == t[0].score && o.score != NegInf
    && (forall b, j :: InMarket(b, bids, floor) && 0 <= j < |points| ==> !Above(ComputeScore(m, b, points[j]), o.score))
    && DistanceTerm(o.winner, point).Dist?
    && o.payment == CriticalPrice(m, DistanceTerm(o.winner, point).d, RivalScore(t), floor)
    && o.bidCount == |bids|
  }

  ghost predicate Sold(m: LogScale, req: Request, market: Market, points: seq<seq<real>>, bids: seq<CoreBid>,
                       point: seq<real>, t: seq<ScoredBid>, o: OrtbResult) {
    && PointsOf(req, market.embed, points) && BidsIn(req, market, bids) && Sells(m, bids, req.floor, points, point, t, o)
    && Funded(req, market, o.winner, o.payment)
  }

  /** Nobody can be sold the impression. */
  ghost predicate Unsold(m: LogScale, req: Request, market: Market, points: seq<seq<real>>, bids: seq<CoreBid>) {
    PointsOf(req, market.embed, points) && BidsIn(req, market, bids) && NothingCompetes(m, bids, req.floor, points)
  }

  /** Only requests that are logged get an ID, and only they can fail on it. */
  ghost predicate Answered(m: LogScale, req: Request, market: Market, hasDb: bool, logFails: bool, nextId: nat, r: Result<OrtbResult, OrtbError>) {
    var logs := hasDb && !req.test;
    match r
    case Ok(o) =>
      !(logs && logFails) && o.auctionId == (if logs then nextId else 0)
      && exists points, bids, point, t :: Sold(m, req, market, points, bids, point, t, o)
    case Err(NoQuery) => req.embedding == [] && req.texts == []
    case Err(EmbedFailed(text)) => req.embedding == [] && FirstUnread(req.texts, market.embed, text)
    case Err(NoBid) => exists points, bids :: Unsold(m, req, market, points, bids)
    case Err(LogFailed) =>
      logs && logFails && (exists points :: PointsOf(req, market.embed, points))
      && !exists points, bids :: Unsold(m, req, market, points, bids)
  }

  /** What is served is sold at its critical price. */
  lemma ServedIsSold(m: LogScale, req: Request, market: Market, draws: seq<seq<nat>>, o: OrtbResult) returns (t: seq<ScoredBid>)
    requires m.Lawful() && Servable(m, req, market, draws) && Serve(m, req, market, draws).Ok?
    requires var s := Serve(m, req, market, draws).value;
             o.winner == s.result.winner.value && o.score == s.result.scored[0].score && o.payment == s.payment && o.bidCount == s.bidCount
    ensures var points := QueryPoints(req, market.embed);
            points.Ok? && Sold(m, req, market, points.value, LiveBids(req, market), Serve(m, req, market, draws).value.point, t, o)
  {
    var points, bids := QueryPoints(req, market.embed).value, LiveBids(req, market);
    var k := Best(Results(m, bids, req.floor, points, draws)).value;
    QueryIsRead(req, market.embed);
    LiveBidsAreIn(req, market);
    ServedIsArgmax(m, req, market, draws);
    t := HeadIsSold(m, bids, req.floor, points[k], draws[k]);
  }

  lemma HeadIsSold(m: LogScale, bids: seq<CoreBid>, floor: real, point: seq<real>, draws: seq<nat>) returns (t: seq<ScoredBid>)
    requires m.Lawful() && DrawsFit(m, bids, floor, point, draws) && ResultAt(m, bids, floor, point, draws).winner.Some?
    ensures IsRanking(t, Candidates(m, bids, floor, point)) && t == ResultAt(m, bids, floor, point, draws).scored && t != []
    ensures t[0].bid == ResultAt(m, bids, floor, point, draws).winner.value && t[0].score == ComputeScore(m, t[0].bid, point) != NegInf
    ensures DistanceTerm(t[0].bid, point).Dist?
    ensures Price(m, bids, floor, point, draws) == CriticalPrice(m, DistanceTerm(t[0].bid, point).d, RivalScore(t), floor)
  {
    var c := SortDescending(Candidates(m, bids, floor, point));
    t := Ranked(c, draws);
    RankedIsRanking(c, draws);
    PaymentIsCriticalPrice(m, bids, floor, point, t);
    PlacedIsInPlay(m, bids, floor, point, t, 0);
  }

  function Answer(m: LogScale, req: Request, market: Market, draws: seq<seq<nat>>, hasDb: bool, logFails: bool, nextId: nat)
      : Result<OrtbResult, OrtbError>
    requires Servable(m, req, market, draws)
  {
    match Serve(m, req, market, draws)
    case Err(e) => Err(e)
    case Ok(s) =>
      if hasDb && !req.test && logFails then Err(LogFailed)
      else Ok(OrtbResult(if hasDb && !req.test then nextId else 0, s.result.winner.value, s.result.scored[0].score, s.payment, s.bidCount))
  }

  lemma ServedIsNotUnsold(m: LogScale, req: Request, market: Market, draws: seq<seq<nat>>, points: seq<seq<real>>, bids: seq<CoreBid>)
    requires m.Lawful() && Servable(m, req, market, draws) && Serve(m, req, market, draws).Ok?
    ensures !Unsold(m, req, market, points, bids)
  {
    if PointsOf(req, market.embed, points) && BidsIn(req, market, bids) {
      QueryIsRead(req, market.embed);
      LiveBidsAreIn(req, market);
      assert bids == LiveBids(req, market);
      assert points == QueryPoints(req, market.embed).value;
      NoBidExactly(m, req, market, draws);
    }
  }

  /** The answer is right by the request alone. */
  lemma AnswerIsRight(m: LogScale, req: Request, market: Market, draws: seq<seq<nat>>, hasDb: bool, logFails: bool, nextId: nat)
    requires m.Lawful() && Servable(m, req, market, draws)
    ensures Answered(m, req, market, hasDb, logFails, nextId, Answer(m, req, market, draws, hasDb, logFails, nextId))
  {
    QueryIsRead(req, market.embed);
    match Serve(m, req, market, draws)
    case Ok(s) =>
      if hasDb && !req.test && logFails {
        forall points, bids ensures !Unsold(m, req, market, points, bids) {
          ServedIsNotUnsold(m, req, market, draws, points, bids);
        }
        assert PointsOf(req, market.embed, QueryPoints(req, market.embed).value);
      } else {
        var o := Answer(m, req, market, draws, hasDb, logFails, nextId).value;
        var t := ServedIsSold(m, req, market, draws, o);
        assert Sold(m, req, market, QueryPoints(req, market.embed).value, LiveBids(req, market), s.point, t, o);
      }
    case Err(NoBid) =>
      LiveBidsAreIn(req, market);
      NoBidExactly(m, req, market, draws);
      assert Unsold(m, req, market, QueryPoints(req, market.embed).value, LiveBids(req, market));
    case Err(_) =>
  }

  // ----- the engine -----

  /** Logged auctions take consecutive IDs. A test request, or an engine
      without a database, logs nothing and can never be billed. */
  class AuctionEngine {
    var auctions: map<nat, AuctionRow>
    var nextId: nat
    const hasDb: bool

    constructor (hasDb: bool)
      ensures auctions == map[] && nextId == 1 && this.hasDb == hasDb
    {
      auctions, nextId, this.hasDb := map[], 1, hasDb;
    }

    method RunORTBAuction(m: LogScale, req: Request, market: Market, draws: seq<seq<nat>>, logFails: bool)
        returns (r: Result<OrtbResult, OrtbError>)
      requires Servable(m, req, market, draws) && nextId > 0
      modifies this
      ensures r == Answer(m, req, market, draws, hasDb, logFails, old(nextId))
      ensures m.Lawful() ==> Answered(m, req, market, hasDb, logFails, old(nextId), r)
      ensures if r.Ok? && r.value.auctionId > 0
              then auctions == old(auctions)[old(nextId) := AuctionRow(r.value.winner.id, r.value.payment)] && nextId == old(nextId) + 1
              else auctions == old(auctions) && nextId == old(nextId)
    {
      if m.Lawful() {
        AnswerIsRight(m, req, market, draws, hasDb, logFails, nextId);
      }
      var s := FindWinner(m, req, market, draws);
      if s.Err? {
        return Err(s.error);
      }
      var winner := s.value.result.winner.value;
      var id := 0;
      if hasDb && !req.test {
        if logFails {
          return Err(LogFailed);
        }
        id := nextId;
        auctions := auctions[id := AuctionRow(winner.id, s.value.payment)];
        nextId := nextId + 1;
      }
      return Ok(OrtbResult(id, winner, s.value.result.scored[0].score, s.value.payment, s.value.bidCount));
    }

    method FindWinner(m: LogScale, req: Request, market: Market, draws: seq<seq<nat>>) returns (r: Result<Served, OrtbError>)
      requires Servable(m, req, market, draws)
      ensures r == Serve(m, req, market, draws)
    {
      var points := EmbedQuery(req, market.embed);
      if points.Err? {
        return Err(points.error);
      }
      if |market.positions| == 0 {
        return Err(NoBid);
      }
      var bids := BuildBids(req, market);
      if |bids| == 0 {
        return Err(NoBid);
      }
      var best := AuctionPerPoint(m, bids, req.floor, points.value, draws);
      if best.None? {
        return Err(NoBid);
      }
      var result, point := best.value.0, best.value.1;
      ghost var k := Best(Results(m, bids, req.floor, points.value, draws)).value;
      ResultPossible(m, bids, req.floor, point, draws[k]);
      var payment := ComputeVCGPayment(m, result, point, req.floor);
      return Ok(Served(result, point, payment, |bids|));
    }
  }
}
