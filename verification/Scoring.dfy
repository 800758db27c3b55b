/** Bids, distances and scores (auction/embedding.go and its enclave twin).

    Floating-point numbers are exact reals. The infinities that the code
    tests for are kept as separate constructors: a distance is finite or
    +Inf, a score is finite or -Inf. */
module Scoring {

  datatype CoreBid = CoreBid(
    id: string,
    bidder: string,
    price: real,
    currency: string,
    embedding: seq<real>,
    sigma: real)

  /** A distance or a distance penalty. */
  datatype Distance = Dist(d: real) | PosInf

  datatype Score = NegInf | Finite(v: real)

  datatype ScoredBid = ScoredBid(bid: CoreBid, score: Score)

  /** a > b in the order of the code's float64 scores. */
  predicate Above(a: Score, b: Score) {
    match (a, b)
    case (NegInf, _) => false
    case (Finite(_), NegInf) => true
    case (Finite(x), Finite(y)) => x > y
  }

  /** The base-5 logarithm and the power function that undoes it. Every result
      below holds for any pair that obeys these laws. */
  datatype LogScale = LogScale(log: real -> real, pow: real -> real) {
    ghost predicate PowAdds(x: real, y: real) {
      pow(x + y) == pow(x) * pow(y)
    }

    ghost predicate PowGrows(x: real, y: real) {
      pow(x) > 0.0 && (x < y ==> pow(x) < pow(y))
    }

    ghost predicate LogInverts(p: real) {
      (p > 0.0 ==> pow(log(p)) == p) && log(pow(p)) == p
    }

    ghost predicate Lawful() {
      && (forall x: real, y: real :: PowAdds(x, y))
      && (forall x: real, y: real :: PowGrows(x, y))
      && (forall p: real :: LogInverts(p))
    }

    lemma LogOrder(p: real, q: real)
      requires Lawful() && p > 0.0 && q > 0.0
      ensures log(p) < log(q) <==> p < q
      ensures log(p) == log(q) <==> p == q
    {
      assert LogInverts(p) && LogInverts(q);
      assert PowGrows(log(p), log(q)) && PowGrows(log(q), log(p));
    }

    /** A price scaled by a penalty difference is the price whose log is shifted by it. */
    lemma PowShift(p: real, t: real)
      requires Lawful() && p > 0.0
      ensures p * pow(t) == pow(t + log(p))
    {
      assert LogInverts(p);
      assert PowAdds(t, log(p));
    }

    lemma EffectivePriceOrder(p: real, t: real, q: real, u: real)
      requires Lawful() && p > 0.0 && q > 0.0
      ensures log(p) - t > log(q) - u <==> p * pow(-t) > q * pow(-u)
    {
      PowShift(p, -t);
      PowShift(q, -u);
      PowOrder(-t + log(p), -u + log(q));
    }

    /** The price p at penalty t that would tie with price q at penalty u. */
    lemma TyingPrice(p: real, t: real, q: real, u: real)
      requires Lawful() && p > 0.0 && q > 0.0
      ensures q * pow(t - u) == pow(t + (log(q) - u))
      ensures pow(t + (log(q) - u)) <= p <==> log(q) - u <= log(p) - t
      ensures pow(t + (log(q) - u)) == p <==> log(q) - u == log(p) - t
    {
      PowShift(q, t - u);
      assert t - u + log(q) == t + (log(q) - u);
      PowOrder(t + (log(q) - u), log(p));
      PowOrder(log(p), t + (log(q) - u));
      assert LogInverts(p);
    }

    lemma PowOrder(x: real, y: real)
      requires Lawful()
      ensures pow(x) <= pow(y) <==> x <= y
      ensures pow(x) > 0.0
    {
      assert PowGrows(x, y) && PowGrows(y, x);
    }
  }

  function Times(x: real, y: real): real {
    x * y
  }

  lemma TimesSign(x: real, y: real)
    ensures x > 0.0 && y > 0.0 ==> Times(x, y) > 0.0
    ensures x < 0.0 && y < 0.0 ==> Times(x, y) > 0.0
    ensures x == 0.0 ==> Times(x, y) == 0.0
  {
  }

  function Square(d: real): (r: real)
    ensures r >= 0.0
    ensures r == 0.0 <==> d == 0.0
  {
    TimesSign(d, d);
    Times(d, d)
  }

  /** Sum of squared coordinate differences over the first n coordinates. */
  function SumSq(a: seq<real>, b: seq<real>, n: nat): (r: real)
    requires n <= |a| && n <= |b|
    ensures r >= 0.0
    ensures r == 0.0 <==> a[..n] == b[..n]
  {
    if n == 0 then 0.0
    else
      assert a[..n] == a[..n - 1] + [a[n - 1]] && b[..n] == b[..n - 1] + [b[n - 1]];
      SumSq(a, b, n - 1) + Square(a[n - 1] - b[n - 1])
  }

  function DistanceSq(a: seq<real>, b: seq<real>): (r: Distance)
    ensures r == Dist(0.0) <==> a == b && a != []
  {
    if |a| != |b| || |a| == 0 then PosInf
    else
      assert a[..|a|] == a && b[..|a|] == b;
      Dist(SumSq(a, b, |a|))
  }

  method SquaredEuclideanDistance(a: seq<real>, b: seq<real>) returns (r: Distance)
    ensures r == DistanceSq(a, b)
  {
    if |a| != |b| || |a| == 0 {
      return PosInf;
    }
    var sum := 0.0;
    for i := 0 to |a|
      invariant sum == SumSq(a, b, i)
    {
      var d := a[i] - b[i];
      sum := sum + Square(d);
    }
    return Dist(sum);
  }

  /** ||x - c||² / σ²; σ = 0 is the exact-match keyword limit. */
  function DistanceTerm(bid: CoreBid, query: seq<real>): (r: Distance)
    ensures r.Dist? ==> r.d >= 0.0
    ensures bid.embedding == [] || query == [] ==> r == Dist(0.0)
    ensures bid.sigma == 0.0 && bid.embedding != [] && query != [] ==>
              (r == Dist(0.0) <==> bid.embedding == query) && (r == PosInf <==> bid.embedding != query)
  {
    if |bid.embedding| == 0 || |query| == 0 then Dist(0.0)
    else
      var distSq := DistanceSq(bid.embedding, query);
      if bid.sigma == 0.0 then
        if distSq == Dist(0.0) then Dist(0.0) else PosInf
      else if distSq.PosInf? then PosInf
      else
        QuotientSign(distSq.d, Square(bid.sigma));
        Dist(distSq.d / Square(bid.sigma))
  }

  lemma QuotientSign(n: real, d: real)
    requires n >= 0.0 && d > 0.0
    ensures n / d >= 0.0
  {
  }

  /** log_B(price) - term, or -Inf. */
  function ComputeScore(m: LogScale, bid: CoreBid, query: seq<real>): Score {
    if bid.price <= 0.0 then NegInf
    else
      var term := DistanceTerm(bid, query);
      if term.PosInf? then NegInf else Finite(m.log(bid.price) - term.d)
  }

  /** Competing at a query point is competing on price × B^(-term): the score
      order is the order of these effective prices. */
  lemma ScoreOrderIsEffectivePriceOrder(m: LogScale, a: CoreBid, b: CoreBid, query: seq<real>)
    requires m.Lawful()
    requires a.price > 0.0 && DistanceTerm(a, query).Dist?
    requires b.price > 0.0 && DistanceTerm(b, query).Dist?
    ensures var ta, tb := DistanceTerm(a, query).d, DistanceTerm(b, query).d;
            Above(ComputeScore(m, a, query), ComputeScore(m, b, query)) <==>
            a.price * m.pow(-ta) > b.price * m.pow(-tb)
  {
    m.EffectivePriceOrder(a.price, DistanceTerm(a, query).d, b.price, DistanceTerm(b, query).d);
  }

  // ----- what the distances mean -----

  /** The inner product of the first n coordinates. */
  function Dot(a: seq<real>, b: seq<real>, n: nat): real
    requires n <= |a| && n <= |b|
  {
    if n == 0 then 0.0 else Dot(a, b, n - 1) + Times(a[n - 1], b[n - 1])
  }

  lemma SquareOfDifference(x: real, y: real)
    ensures Square(x - y) == Times(x, x) + Times(y, y) - 2.0 * Times(x, y)
  {
  }

  /** ||a - b||² = ||a||² + ||b||² - 2⟨a, b⟩. */
  lemma {:induction false} DistanceByInnerProducts(a: seq<real>, b: seq<real>, n: nat)
    requires n <= |a| && n <= |b|
    ensures SumSq(a, b, n) == Dot(a, a, n) + Dot(b, b, n) - 2.0 * Dot(a, b, n)
  {
    if n > 0 {
      DistanceByInnerProducts(a, b, n - 1);
      SquareOfDifference(a[n - 1], b[n - 1]);
    }
  }

  /** A positive σ is the unit of distance: the penalty times σ² is the squared
      distance; different dimensions are infinitely far apart. */
  lemma PenaltyIsDistanceInSigmas(bid: CoreBid, query: seq<real>)
    requires bid.sigma != 0.0 && bid.embedding != [] && query != []
    ensures DistanceTerm(bid, query).Dist? <==> |bid.embedding| == |query|
    ensures |bid.embedding| == |query| ==>
              Times(DistanceTerm(bid, query).d, Square(bid.sigma)) == SumSq(bid.embedding, query, |query|)
  {
    if |bid.embedding| == |query| {
      QuotientTimes(SumSq(bid.embedding, query, |query|), Square(bid.sigma));
    }
  }

  lemma QuotientTimes(n: real, d: real)
    requires d != 0.0
    ensures Times(n / d, d) == n
  {
  }

  /** In base 5, a position one σ away from the query competes as if it bid a
      fifth of its price. */
  lemma OneSigmaCostsAFactorOfFive(m: LogScale, bid: CoreBid, query: seq<real>)
    requires m.Lawful() && m.log(5.0) == 1.0
    requires bid.price > 0.0 && bid.sigma != 0.0 && bid.embedding != [] && |bid.embedding| == |query|
    requires SumSq(bid.embedding, query, |query|) == Square(bid.sigma)
    ensures ComputeScore(m, bid, query) == Finite(m.log(bid.price / 5.0))
  {
    QuotientIsOne(Square(bid.sigma));
    assert DistanceTerm(bid, query) == Dist(1.0);
    assert m.LogInverts(5.0) && m.LogInverts(bid.price / 5.0);
    assert m.PowAdds(m.log(bid.price / 5.0), 1.0);
    assert m.pow(m.log(bid.price / 5.0) + 1.0) == bid.price;
    assert m.LogInverts(m.log(bid.price / 5.0) + 1.0);
  }

  lemma QuotientIsOne(d: real)
    requires d != 0.0
    ensures d / d == 1.0
  {
  }
}
