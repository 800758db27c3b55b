/** Ranking with random tie-breaks (auction/ranking.go): sort by descending
    score, then a Fisher-Yates shuffle of every block of equal scores.

    The randomness is an explicit sequence of draws, one per array position:
    the shuffle of the block [lo, hi) swaps position k, for k = hi-1 down to
    lo+1, with position lo + draws[k]. A draw that the random source fails to
    deliver skips the swap; that is the outcome of drawing k - lo. */
module Ranking {
  import opened Scoring
  import opened Sequences

  predicate Descending(s: seq<ScoredBid>) {
    forall i :: 0 <= i < |s| - 1 ==> !Above(s[i + 1].score, s[i].score)
  }

  lemma {:induction false} DescendingPairs(s: seq<ScoredBid>, i: nat, j: nat)
    requires Descending(s) && i <= j < |s|
    ensures !Above(s[j].score, s[i].score)
  {
    if i < j {
      DescendingPairs(s, i, j - 1);
      assert !Above(s[j - 1 + 1].score, s[j - 1].score);
    }
  }

  /** t lists exactly the bids of c, best score first. */
  ghost predicate IsRanking(t: seq<ScoredBid>, c: seq<ScoredBid>) {
    Descending(t) && multiset(t) == multiset(c)
  }

  // ----- sorting -----

  /** Insert after every entry whose score is at least as high. */
  function Insert(x: ScoredBid, s: seq<ScoredBid>): (r: seq<ScoredBid>)
    ensures multiset(r) == multiset(s) + multiset{x}
    ensures |r| == |s| + 1 && (r[0] == x || (s != [] && r[0] == s[0]))
  {
    if s == [] || Above(x.score, s[0].score) then [x] + s
    else
      assert s == [s[0]] + s[1..];
      [s[0]] + Insert(x, s[1..])
  }

  lemma {:induction false} InsertDescending(x: ScoredBid, s: seq<ScoredBid>)
    requires Descending(s)
    ensures Descending(Insert(x, s))
  {
    if s != [] && !Above(x.score, s[0].score) {
      forall i | 0 <= i < |s[1..]| - 1 ensures !Above(s[1..][i + 1].score, s[1..][i].score) {
        assert !Above(s[i + 1 + 1].score, s[i + 1].score);
      }
      InsertDescending(x, s[1..]);
      var r := Insert(x, s[1..]);
      if |s| > 1 {
        assert !Above(s[0 + 1].score, s[0].score);
      }
      forall i | 0 <= i < |r| ensures !Above(([s[0]] + r)[i + 1].score, ([s[0]] + r)[i].score) {
        if i > 0 {
          assert !Above(r[i - 1 + 1].score, r[i - 1].score);
        }
      }
    }
  }

  /** A stable sort, highest score first. */
  function SortDescending(s: seq<ScoredBid>): (r: seq<ScoredBid>)
    ensures IsRanking(r, s)
  {
    if s == [] then []
    else
      assert s == s[..|s| - 1] + [s[|s| - 1]];
      var r := SortDescending(s[..|s| - 1]);
      InsertDescending(s[|s| - 1], r);
      Insert(s[|s| - 1], r)
  }

  // ----- blocks of equal scores -----

  /** The end of the run of equal scores that starts at i. */
  function RunEnd(s: seq<ScoredBid>, i: nat, j: nat): (r: nat)
    requires i < j <= |s|
    ensures j <= r <= |s|
    ensures forall x :: j <= x < r ==> s[x].score == s[i].score
    ensures r < |s| ==> s[r].score != s[i].score
    decreases |s| - j
  {
    if j < |s| && s[j].score == s[i].score then RunEnd(s, i, j + 1) else j
  }

  /** The start of the run of equal scores that contains k. */
  function RunStart(s: seq<ScoredBid>, k: nat): (r: nat)
    requires k < |s|
    ensures r <= k
    ensures forall x :: r <= x <= k ==> s[x].score == s[k].score
    ensures r > 0 ==> s[r - 1].score != s[k].score
  {
    if k > 0 && s[k - 1].score == s[k].score then RunStart(s, k - 1) else k
  }

  /** One draw per position, reaching no further than the tie block allows. */
  predicate ValidDraws(s: seq<ScoredBid>, draws: seq<nat>) {
    |draws| == |s| && forall k :: 0 <= k < |s| ==> draws[k] <= k - RunStart(s, k)
  }

  // ----- Fisher-Yates -----

  function Swap<T>(s: seq<T>, i: nat, j: nat): (r: seq<T>)
    requires i < |s| && j < |s|
    ensures |r| == |s|
    ensures forall x :: 0 <= x < |s| ==> r[x] == if x == i then s[j] else if x == j then s[i] else s[x]
  {
    s[i := s[j]][j := s[i]]
  }

  /** The draws of the block [lo, hi). */
  predicate BlockDraws(lo: nat, hi: nat, draws: seq<nat>) {
    hi <= |draws| && forall k :: lo <= k < hi ==> draws[k] <= k - lo
  }

  /** s after the shuffle of its block [lo, hi). */
  function Shuffled<T>(s: seq<T>, lo: nat, hi: nat, draws: seq<nat>): (r: seq<T>)
    requires lo <= hi <= |s| && BlockDraws(lo, hi, draws)
    ensures |r| == |s|
    ensures forall x :: 0 <= x < lo || hi <= x < |s| ==> r[x] == s[x]
    decreases hi - lo
  {
    if hi - lo <= 1 then s
    else Shuffled(Swap(s, hi - 1, lo + draws[hi - 1]), lo, hi - 1, draws)
  }

  lemma SwapPermutes<T>(s: seq<T>, i: nat, j: nat)
    requires i < |s| && j < |s|
    ensures multiset(Swap(s, i, j)) == multiset(s)
  {
  }

  lemma {:induction false} ShuffledPermutes<T>(s: seq<T>, lo: nat, hi: nat, draws: seq<nat>)
    requires lo <= hi <= |s| && BlockDraws(lo, hi, draws)
    ensures multiset(Shuffled(s, lo, hi, draws)) == multiset(s)
    decreases hi - lo
  {
    if hi - lo > 1 {
      var n := lo + draws[hi - 1];
      SwapPermutes(s, hi - 1, n);
      ShuffledPermutes(Swap(s, hi - 1, n), lo, hi - 1, draws);
    }
  }

  /** Only the draws of the block itself are used. */
  lemma {:induction false} ShuffledFrame<T>(s: seq<T>, lo: nat, hi: nat, d: seq<nat>, e: seq<nat>)
    requires lo <= hi <= |s| && BlockDraws(lo, hi, d) && BlockDraws(lo, hi, e)
    requires forall k :: lo < k < hi ==> d[k] == e[k]
    ensures Shuffled(s, lo, hi, d) == Shuffled(s, lo, hi, e)
    decreases hi - lo
  {
    if hi - lo > 1 {
      ShuffledFrame(Swap(s, hi - 1, lo + d[hi - 1]), lo, hi - 1, d, e);
    }
  }

  /** u holds the elements of s in some order; no two of them are equal. */
  ghost predicate Rearranges<T(!new)>(u: seq<T>, s: seq<T>) {
    |u| == |s| && multiset(u) == multiset(s) && Distinct(u)
  }

  lemma SwapRearranges<T(!new)>(u: seq<T>, s: seq<T>, i: nat, j: nat)
    requires i < |s| && j < |s| && Rearranges(u, s)
    ensures Rearranges(u, Swap(s, i, j))
  {
    assert multiset(s[i := s[j]][j := s[i]]) == multiset(s);
  }

  /** Where a rearrangement that agrees with s outside the block got its last block element. */
  lemma SourceIndex<T(!new)>(s: seq<T>, lo: nat, hi: nat, u: seq<T>) returns (p: nat)
    requires lo < hi <= |s| && Rearranges(u, s)
    requires forall x :: 0 <= x < lo || hi <= x < |s| ==> u[x] == s[x]
    ensures lo <= p < hi && s[p] == u[hi - 1]
  {
    assert u[hi - 1] in multiset(s);
    p :| 0 <= p < |s| && s[p] == u[hi - 1];
  }

  /** Brings the last block element of u into place. */
  lemma SwapIntoPlace<T(!new)>(s: seq<T>, lo: nat, hi: nat, u: seq<T>) returns (p: nat)
    requires lo < hi <= |s| && Rearranges(u, s)
    requires forall x :: 0 <= x < lo || hi <= x < |s| ==> u[x] == s[x]
    ensures lo <= p < hi && Rearranges(u, Swap(s, hi - 1, p))
    ensures forall x :: 0 <= x < lo || hi - 1 <= x < |s| ==> u[x] == Swap(s, hi - 1, p)[x]
  {
    p := SourceIndex(s, lo, hi, u);
    SwapRearranges(u, s, hi - 1, p);
  }

  ghost predicate ShufflesTo<T(!new)>(s: seq<T>, lo: nat, hi: nat, draws: seq<nat>, u: seq<T>)
    requires lo <= hi <= |s|
  {
    BlockDraws(lo, hi, draws) && Shuffled(s, lo, hi, draws) == u
  }

  lemma ShuffleNothing<T(!new)>(s: seq<T>, lo: nat, hi: nat, u: seq<T>)
    requires lo <= hi <= |s| && hi - lo <= 1 && Rearranges(u, s)
    requires forall x :: 0 <= x < lo || hi <= x < |s| ==> u[x] == s[x]
    ensures ShufflesTo(s, lo, hi, seq(|s|, _ => 0), u)
  {
    if lo < hi {
      var p := SourceIndex(s, lo, hi, u);
    }
    assert u == s;
  }

  lemma ShuffleOneMore<T(!new)>(s: seq<T>, lo: nat, hi: nat, p: nat, rest: seq<nat>, u: seq<T>)
    requires lo + 1 < hi <= |s| && lo <= p < hi && |rest| == |s|
    requires ShufflesTo(Swap(s, hi - 1, p), lo, hi - 1, rest, u)
    ensures ShufflesTo(s, lo, hi, rest[hi - 1 := p - lo], u)
  {
    ShuffledFrame(Swap(s, hi - 1, p), lo, hi - 1, rest[hi - 1 := p - lo], rest);
  }

  /** Every order of a block is the outcome of some draws ... */
  lemma {:induction false} ShuffleReaches<T(!new)>(s: seq<T>, lo: nat, hi: nat, u: seq<T>) returns (draws: seq<nat>)
    requires lo <= hi <= |s| && Rearranges(u, s)
    requires forall x :: 0 <= x < lo || hi <= x < |s| ==> u[x] == s[x]
    ensures |draws| == |s| && ShufflesTo(s, lo, hi, draws, u)
    decreases hi - lo
  {
    if hi - lo <= 1 {
      draws := seq(|s|, _ => 0);
      ShuffleNothing(s, lo, hi, u);
    } else {
      var p := SwapIntoPlace(s, lo, hi, u);
      var rest := ShuffleReaches(Swap(s, hi - 1, p), lo, hi - 1, u);
      ShuffleOneMore(s, lo, hi, p, rest, u);
      draws := rest[hi - 1 := p - lo];
    }
  }

  /** ... and of no other draws. */
  lemma {:induction false} ShuffleInjective<T(!new)>(s: seq<T>, lo: nat, hi: nat, d: seq<nat>, e: seq<nat>)
    requires lo <= hi <= |s| && BlockDraws(lo, hi, d) && BlockDraws(lo, hi, e)
    requires Distinct(s)
    requires Shuffled(s, lo, hi, d) == Shuffled(s, lo, hi, e)
    ensures forall k :: lo <= k < hi ==> d[k] == e[k]
    decreases hi - lo
  {
    if hi - lo > 1 {
      LastDraw(s, lo, hi, d, e);
      ShuffleInjective(Swap(s, hi - 1, lo + d[hi - 1]), lo, hi - 1, d, e);
    }
  }

  lemma LastDraw<T(!new)>(s: seq<T>, lo: nat, hi: nat, d: seq<nat>, e: seq<nat>)
    requires lo + 1 < hi <= |s| && BlockDraws(lo, hi, d) && BlockDraws(lo, hi, e)
    requires Distinct(s)
    requires Shuffled(s, lo, hi, d) == Shuffled(s, lo, hi, e)
    ensures d[hi - 1] == e[hi - 1]
    ensures Distinct(Swap(s, hi - 1, lo + d[hi - 1]))
  {
    var last := hi - 1;
    var t, t' := Swap(s, last, lo + d[last]), Swap(s, last, lo + e[last]);
    assert Shuffled(t, lo, last, d)[last] == s[lo + d[last]];
    assert Shuffled(t', lo, last, e)[last] == s[lo + e[last]];
  }

  // ----- all tie blocks -----

  /** The ranking from position i on, shuffled block by block. */
  function TiesBroken(s: seq<ScoredBid>, i: nat, draws: seq<nat>): (r: seq<ScoredBid>)
    requires i <= |s| && ValidDraws(s, draws)
    requires i == |s| || RunStart(s, i) == i
    ensures |r| == |s|
    decreases |s| - i
  {
    if i == |s| then s
    else
      var j := RunEnd(s, i, i + 1);
      RunDraws(s, i, j, draws);
      var t := Shuffled(s, i, j, draws);
      ShuffleKeepsScores(s, i, j, draws);
      ScoresFixRuns(s, t, draws, j);
      TiesBroken(t, j, draws)
  }

  predicate SameScores(s: seq<ScoredBid>, t: seq<ScoredBid>) {
    |s| == |t| && forall i :: 0 <= i < |s| ==> s[i].score == t[i].score
  }

  lemma {:induction false} RunStartInRun(s: seq<ScoredBid>, i: nat, k: nat)
    requires i <= k < |s| && RunStart(s, i) == i
    requires forall x :: i <= x <= k ==> s[x].score == s[i].score
    ensures RunStart(s, k) == i
  {
    if i < k {
      RunStartInRun(s, i, k - 1);
    }
  }

  lemma RunDraws(s: seq<ScoredBid>, i: nat, j: nat, draws: seq<nat>)
    requires i < |s| && RunStart(s, i) == i && j == RunEnd(s, i, i + 1)
    requires ValidDraws(s, draws)
    ensures BlockDraws(i, j, draws)
    ensures j < |s| ==> RunStart(s, j) == j
  {
    forall k | i <= k < j ensures draws[k] <= k - i {
      RunStartInRun(s, i, k);
    }
    if j < |s| {
      assert s[j - 1].score == s[i].score;
    }
  }

  lemma {:induction false} ShuffleKeepsScores(s: seq<ScoredBid>, lo: nat, hi: nat, draws: seq<nat>)
    requires lo < hi <= |s| && BlockDraws(lo, hi, draws)
    requires forall x :: lo <= x < hi ==> s[x].score == s[lo].score
    ensures SameScores(s, Shuffled(s, lo, hi, draws))
    decreases hi - lo
  {
    if hi - lo > 1 {
      ShuffleKeepsScores(Swap(s, hi - 1, lo + draws[hi - 1]), lo, hi - 1, draws);
    }
  }

  lemma {:induction false} ScoresFixRunStart(s: seq<ScoredBid>, t: seq<ScoredBid>, k: nat)
    requires SameScores(s, t) && k < |s|
    ensures RunStart(s, k) == RunStart(t, k)
  {
    if k > 0 {
      ScoresFixRunStart(s, t, k - 1);
    }
  }

  lemma ScoresFixRuns(s: seq<ScoredBid>, t: seq<ScoredBid>, draws: seq<nat>, i: nat)
    requires SameScores(s, t) && i <= |s|
    requires ValidDraws(s, draws)
    requires i == |s| || RunStart(s, i) == i
    ensures ValidDraws(t, draws)
    ensures i == |t| || RunStart(t, i) == i
  {
    forall k | 0 <= k < |s| ensures RunStart(s, k) == RunStart(t, k) {
      ScoresFixRunStart(s, t, k);
    }
  }

  /** The ranking that the draws produce from a sorted sequence. */
  function Ranked(s: seq<ScoredBid>, draws: seq<nat>): (r: seq<ScoredBid>)
    requires ValidDraws(s, draws)
  {
    TiesBroken(s, 0, draws)
  }

  // ----- what tie-breaking can and cannot do -----

  lemma {:induction false} TiesBrokenKeeps(s: seq<ScoredBid>, i: nat, draws: seq<nat>)
    requires i <= |s| && ValidDraws(s, draws)
    requires i == |s| || RunStart(s, i) == i
    ensures var r := TiesBroken(s, i, draws);
            multiset(r) == multiset(s) && SameScores(s, r) && forall x :: 0 <= x < i ==> r[x] == s[x]
    decreases |s| - i
  {
    if i < |s| {
      var j := RunEnd(s, i, i + 1);
      RunDraws(s, i, j, draws);
      var t := Shuffled(s, i, j, draws);
      ShuffleKeepsScores(s, i, j, draws);
      ScoresFixRuns(s, t, draws, j);
      ShuffledPermutes(s, i, j, draws);
      TiesBrokenKeeps(t, j, draws);
    }
  }

  lemma SameScoresDescending(s: seq<ScoredBid>, t: seq<ScoredBid>)
    requires SameScores(s, t) && Descending(s)
    ensures Descending(t)
  {
  }

  /** For every draw sequence the result is a ranking of the same bids. */
  lemma RankedIsRanking(s: seq<ScoredBid>, draws: seq<nat>)
    requires Descending(s) && ValidDraws(s, draws)
    ensures IsRanking(Ranked(s, draws), s)
  {
    TiesBrokenKeeps(s, 0, draws);
    SameScoresDescending(s, Ranked(s, draws));
  }

  lemma PermutationDistinct<T(!new)>(t: seq<T>, s: seq<T>)
    requires multiset(t) == multiset(s) && Distinct(s)
    ensures Distinct(t) && |t| == |s|
  {
    assert |multiset(t)| == |t| && |multiset(s)| == |s|;
    forall i, j | 0 <= i < j < |t| ensures t[i] != t[j] {
      assert t == t[..j] + t[j..];
      if t[i] == t[j] {
        assert t[i] == t[..j][i] && t[j] == t[j..][0];
        assert multiset(t)[t[i]] >= 2;
        DistinctOnce(s, t[i]);
      }
    }
  }

  lemma {:induction false} DistinctOnce<T(!new)>(s: seq<T>, x: T)
    requires Distinct(s)
    ensures multiset(s)[x] <= 1
  {
    if s != [] {
      assert s == [s[0]] + s[1..];
      DistinctOnce(s[1..], x);
      if x == s[0] {
        assert x !in s[1..];
      }
    }
  }

  /** Different draws give different rankings. */
  lemma {:induction false} TiesBrokenInjective(s: seq<ScoredBid>, i: nat, d: seq<nat>, e: seq<nat>)
    requires i <= |s| && ValidDraws(s, d) && ValidDraws(s, e)
    requires i == |s| || RunStart(s, i) == i
    requires Distinct(s)
    requires TiesBroken(s, i, d) == TiesBroken(s, i, e)
    ensures forall k :: i <= k < |s| ==> d[k] == e[k]
    decreases |s| - i
  {
    if i < |s| {
      var j := RunEnd(s, i, i + 1);
      var t := FirstBlockAgrees(s, i, j, d, e);
      ShuffleInjective(s, i, j, d, e);
      ShuffledPermutes(s, i, j, d);
      PermutationDistinct(t, s);
      TiesBrokenInjective(t, j, d, e);
    }
  }

  /** Equal rankings have equal first blocks: later blocks do not disturb it. */
  lemma FirstBlockAgrees(s: seq<ScoredBid>, i: nat, j: nat, d: seq<nat>, e: seq<nat>) returns (t: seq<ScoredBid>)
    requires i < |s| && RunStart(s, i) == i && j == RunEnd(s, i, i + 1)
    requires ValidDraws(s, d) && ValidDraws(s, e)
    requires TiesBroken(s, i, d) == TiesBroken(s, i, e)
    ensures BlockDraws(i, j, d) && BlockDraws(i, j, e)
    ensures t == Shuffled(s, i, j, d) == Shuffled(s, i, j, e)
    ensures ValidDraws(t, d) && ValidDraws(t, e) && (j == |t| || RunStart(t, j) == j)
    ensures TiesBroken(t, j, d) == TiesBroken(t, j, e)
  {
    t := FirstBlockFinal(s, i, j, d);
    var t' := FirstBlockFinal(s, i, j, e);
    assert t == t';
    ShuffleKeepsScores(s, i, j, d);
    ScoresFixRuns(s, t, d, j);
    ScoresFixRuns(s, t, e, j);
  }

  lemma FirstBlockFinal(s: seq<ScoredBid>, i: nat, j: nat, d: seq<nat>) returns (t: seq<ScoredBid>)
    requires i < |s| && RunStart(s, i) == i && j == RunEnd(s, i, i + 1) && ValidDraws(s, d)
    ensures BlockDraws(i, j, d) && t == Shuffled(s, i, j, d) && (j == |s| || RunStart(s, j) == j)
    ensures forall x :: 0 <= x < |s| ==> t[x] == if x < j then TiesBroken(s, i, d)[x] else s[x]
    ensures ValidDraws(t, d) && (j == |t| || RunStart(t, j) == j) && TiesBroken(s, i, d) == TiesBroken(t, j, d)
  {
    RunDraws(s, i, j, d);
    t := Shuffled(s, i, j, d);
    ShuffleKeepsScores(s, i, j, d);
    ScoresFixRuns(s, t, d, j);
    TiesBrokenKeeps(t, j, d);
  }

  // ----- every ranking is reached -----

  lemma {:induction false} TiesBrokenFrame(s: seq<ScoredBid>, i: nat, d: seq<nat>, e: seq<nat>)
    requires i <= |s| && ValidDraws(s, d) && ValidDraws(s, e)
    requires i == |s| || RunStart(s, i) == i
    requires forall k :: i <= k < |s| ==> d[k] == e[k]
    ensures TiesBroken(s, i, d) == TiesBroken(s, i, e)
    decreases |s| - i
  {
    if i < |s| {
      var j := RunEnd(s, i, i + 1);
      RunDraws(s, i, j, d);
      RunDraws(s, i, j, e);
      ShuffledFrame(s, i, j, d, e);
      var t := Shuffled(s, i, j, d);
      ShuffleKeepsScores(s, i, j, d);
      ScoresFixRuns(s, t, d, j);
      ScoresFixRuns(s, t, e, j);
      TiesBrokenFrame(t, j, d, e);
    }
  }

  /** All occurrences of a bid lie in the block of its score. */
  lemma BlockCount(s: seq<ScoredBid>, i: nat, j: nat, c: Score, x: ScoredBid)
    requires i <= j <= |s|
    requires forall k :: 0 <= k < |s| ==> (s[k].score == c <==> i <= k < j)
    ensures multiset(s[i..j])[x] == if x.score == c then multiset(s)[x] else 0
  {
    assert s == s[..i] + s[i..j] + s[j..];
    if x.score == c {
      assert x !in s[..i] && x !in s[j..];
    } else {
      assert x !in s[i..j];
    }
  }

  /** Two orders of the same bids with the same scores hold the same bids in each tie block. */
  lemma BlockMultiset(s: seq<ScoredBid>, t: seq<ScoredBid>, i: nat, j: nat)
    requires multiset(s) == multiset(t) && SameScores(s, t) && i < j <= |s|
    requires forall x :: 0 <= x < |s| ==> (s[x].score == s[i].score <==> i <= x < j)
    ensures multiset(t[i..j]) == multiset(s[i..j])
  {
    forall x: ScoredBid ensures multiset(t[i..j])[x] == multiset(s[i..j])[x] {
      BlockCount(s, i, j, s[i].score, x);
      BlockCount(t, i, j, s[i].score, x);
    }
  }

  lemma ScoresDrop(s: seq<ScoredBid>, x: nat, i: nat, y: nat)
    requires Descending(s) && x < i <= y < |s|
    requires s[i - 1].score != s[i].score
    ensures s[x].score != s[y].score
  {
    DescendingPairs(s, x, i - 1);
    DescendingPairs(s, i - 1, i);
    DescendingPairs(s, i, y);
    NotAboveTwice(s[x].score, s[i - 1].score, s[i].score, s[y].score);
  }

  lemma NotAboveTwice(a: Score, b: Score, c: Score, d: Score)
    requires !Above(b, a) && !Above(c, b) && !Above(d, c) && b != c
    ensures Above(a, d)
  {
  }

  lemma BlockIsScoreClass(s: seq<ScoredBid>, i: nat, j: nat)
    requires Descending(s) && i < |s| && RunStart(s, i) == i && j == RunEnd(s, i, i + 1)
    ensures forall x :: 0 <= x < |s| ==> (s[x].score == s[i].score <==> i <= x < j)
  {
    forall x | 0 <= x < i ensures s[x].score != s[i].score {
      ScoresDrop(s, x, i, i);
    }
    forall x | j <= x < |s| ensures s[x].score != s[i].score {
      ScoresDrop(s, i, j, x);
    }
  }

  /** s with its block [i, j) in t's order. */
  lemma TakeBlock(s: seq<ScoredBid>, i: nat, j: nat, t: seq<ScoredBid>) returns (u: seq<ScoredBid>)
    requires Descending(s) && i < |s| && RunStart(s, i) == i && j == RunEnd(s, i, i + 1)
    requires SameScores(s, t) && Rearranges(t, s)
    requires forall x :: 0 <= x < i ==> t[x] == s[x]
    ensures |u| == |s| && Rearranges(u, s) && Rearranges(t, u) && SameScores(s, u)
    ensures forall x :: 0 <= x < |s| ==> u[x] == if x < j then t[x] else s[x]
  {
    u := t[..j] + s[j..];
    assert multiset(u) == multiset(s) by {
      BlockIsScoreClass(s, i, j);
      BlockMultiset(s, t, i, j);
      ReplaceBlock(s, i, j, t, u);
    }
    PermutationDistinct(s, t);
    PermutationDistinct(u, s);
  }

  lemma ReplaceBlock(s: seq<ScoredBid>, i: nat, j: nat, t: seq<ScoredBid>, u: seq<ScoredBid>)
    requires i <= j <= |s| == |t| && u == t[..j] + s[j..]
    requires multiset(t[i..j]) == multiset(s[i..j])
    requires forall x :: 0 <= x < i ==> t[x] == s[x]
    ensures multiset(u) == multiset(s)
  {
    assert t[..j] == s[..i] + t[i..j] && s[..j] == s[..i] + s[i..j] && s == s[..j] + s[j..];
  }

  ghost predicate BreaksTo(s: seq<ScoredBid>, i: nat, draws: seq<nat>, t: seq<ScoredBid>)
    requires i <= |s| && (i == |s| || RunStart(s, i) == i)
  {
    ValidDraws(s, draws) && TiesBroken(s, i, draws) == t
  }

  /** Draws of a block followed by draws of the rest. */
  lemma JoinDraws(s: seq<ScoredBid>, i: nat, j: nat, u: seq<ScoredBid>, t: seq<ScoredBid>, block: seq<nat>, rest: seq<nat>)
      returns (draws: seq<nat>)
    requires i < |s| && RunStart(s, i) == i && j == RunEnd(s, i, i + 1)
    requires SameScores(s, u) && (j == |u| || RunStart(u, j) == j)
    requires |block| == |s| && ShufflesTo(s, i, j, block, u)
    requires BreaksTo(u, j, rest, t)
    ensures BreaksTo(s, i, draws, t)
  {
    draws := rest[..i] + block[i..j] + rest[j..];
    JoinedDrawsValid(s, i, j, u, block, rest, draws);
    ShuffledFrame(s, i, j, block, draws);
    ScoresFixRuns(s, u, draws, i);
    TiesBrokenFrame(u, j, rest, draws);
  }

  lemma JoinedDrawsValid(s: seq<ScoredBid>, i: nat, j: nat, u: seq<ScoredBid>, block: seq<nat>, rest: seq<nat>, draws: seq<nat>)
    requires i < |s| && RunStart(s, i) == i && j == RunEnd(s, i, i + 1)
    requires SameScores(s, u) && |block| == |s| && BlockDraws(i, j, block) && ValidDraws(u, rest)
    requires draws == rest[..i] + block[i..j] + rest[j..]
    ensures ValidDraws(s, draws)
    ensures forall k :: i <= k < j ==> draws[k] == block[k]
    ensures forall k :: j <= k < |s| ==> draws[k] == rest[k]
  {
    SpliceAt(rest, block, i, j);
    forall k | 0 <= k < |s| ensures draws[k] <= k - RunStart(s, k) {
      DrawFits(s, i, j, u, block, rest, k);
    }
  }

  lemma SpliceAt(rest: seq<nat>, block: seq<nat>, i: nat, j: nat)
    requires i <= j <= |rest| == |block|
    ensures var d := rest[..i] + block[i..j] + rest[j..];
            |d| == |rest| && forall k :: 0 <= k < |d| ==> d[k] == if i <= k < j then block[k] else rest[k]
  {
  }

  lemma DrawFits(s: seq<ScoredBid>, i: nat, j: nat, u: seq<ScoredBid>, block: seq<nat>, rest: seq<nat>, k: nat)
    requires i < |s| && RunStart(s, i) == i && j == RunEnd(s, i, i + 1) && k < |s|
    requires SameScores(s, u) && |block| == |s| && BlockDraws(i, j, block) && ValidDraws(u, rest)
    ensures (if i <= k < j then block[k] else rest[k]) <= k - RunStart(s, k)
  {
    if i <= k < j {
      RunStartInRun(s, i, k);
    } else {
      ScoresFixRunStart(s, u, k);
    }
  }

  /** A block taken over, the next one starts where it ends. */
  lemma NextBlock(s: seq<ScoredBid>, i: nat, j: nat, u: seq<ScoredBid>)
    requires Descending(s) && SameScores(s, u) && i < |s| && RunStart(s, i) == i && j == RunEnd(s, i, i + 1)
    ensures Descending(u) && i < j <= |u| == |s| && (j == |u| || RunStart(u, j) == j)
  {
    RunDraws(s, i, j, seq(|s|, _ => 0));
    ScoresFixRuns(s, u, seq(|s|, _ => 0), j);
    SameScoresDescending(s, u);
  }

  lemma {:induction false} TiesBrokenReaches(s: seq<ScoredBid>, i: nat, t: seq<ScoredBid>) returns (draws: seq<nat>)
    requires Descending(s) && SameScores(s, t) && Rearranges(t, s)
    requires i <= |s| && (i == |s| || RunStart(s, i) == i)
    requires forall x :: 0 <= x < i ==> t[x] == s[x]
    ensures BreaksTo(s, i, draws, t)
    decreases |s| - i
  {
    if i == |s| {
      draws := seq(|s|, _ => 0);
      assert s == t;
    } else {
      var j := RunEnd(s, i, i + 1);
      var u := TakeBlock(s, i, j, t);
      var block := ShuffleReaches(s, i, j, u);
      NextBlock(s, i, j, u);
      var rest := TiesBrokenReaches(u, j, t);
      draws := JoinDraws(s, i, j, u, t, block, rest);
    }
  }

  // ----- rankings of the same bids have the same scores -----

  function CountAbove(s: seq<ScoredBid>, c: Score): nat {
    if s == [] then 0 else CountAbove(s[1..], c) + if Above(s[0].score, c) then 1 else 0
  }

  lemma {:induction false} CountAboveConcat(a: seq<ScoredBid>, b: seq<ScoredBid>, c: Score)
    ensures CountAbove(a + b, c) == CountAbove(a, c) + CountAbove(b, c)
  {
    if a == [] {
      assert a + b == b;
    } else {
      assert (a + b)[1..] == a[1..] + b;
      CountAboveConcat(a[1..], b, c);
    }
  }

  lemma DropOccurrence(t: seq<ScoredBid>, x: ScoredBid, c: Score) returns (rest: seq<ScoredBid>)
    requires x in multiset(t)
    ensures |rest| < |t| && multiset(rest) == multiset(t) - multiset{x}
    ensures CountAbove(t, c) == CountAbove(rest, c) + CountAbove([x], c)
  {
    var p: nat :| p < |t| && t[p] == x;
    rest := t[..p] + t[p + 1..];
    assert t == t[..p] + ([x] + t[p + 1..]);
    CountAboveConcat(t[..p], t[p + 1..], c);
    CountAboveConcat(t[..p], [x] + t[p + 1..], c);
    CountAboveConcat([x], t[p + 1..], c);
  }

  lemma {:induction false} CountAbovePermutation(s: seq<ScoredBid>, t: seq<ScoredBid>, c: Score)
    requires multiset(s) == multiset(t)
    ensures CountAbove(s, c) == CountAbove(t, c)
    decreases |s|
  {
    if s == [] {
      assert |multiset(t)| == |t|;
    } else {
      assert s[0] in multiset(s);
      var s' := DropOccurrence(s, s[0], c);
      var t' := DropOccurrence(t, s[0], c);
      CountAbovePermutation(s', t', c);
    }
  }

  /** In a descending sequence the entries above c are exactly a prefix. */
  lemma {:induction false} AbovePrefix(s: seq<ScoredBid>, c: Score, k: nat)
    requires Descending(s) && k < |s|
    ensures Above(s[k].score, c) <==> k < CountAbove(s, c)
  {
    if !Above(s[0].score, c) {
      NoneAbove(s, c);
      DescendingPairs(s, 0, k);
    } else if k > 0 {
      TailDescending(s);
      AbovePrefix(s[1..], c, k - 1);
    }
  }

  lemma TailDescending(s: seq<ScoredBid>)
    requires Descending(s) && s != []
    ensures Descending(s[1..])
  {
    forall i | 0 <= i < |s[1..]| - 1 ensures !Above(s[1..][i + 1].score, s[1..][i].score) {
      assert !Above(s[i + 1 + 1].score, s[i + 1].score);
    }
  }

  lemma {:induction false} NoneAbove(s: seq<ScoredBid>, c: Score)
    requires Descending(s) && s != [] && !Above(s[0].score, c)
    ensures CountAbove(s, c) == 0
  {
    if |s| > 1 {
      TailDescending(s);
      DescendingPairs(s, 0, 1);
      NoneAbove(s[1..], c);
    }
  }

  lemma RankingsShareScores(s: seq<ScoredBid>, t: seq<ScoredBid>)
    requires Descending(s) && IsRanking(t, s)
    ensures SameScores(s, t)
  {
    assert |multiset(s)| == |s| && |multiset(t)| == |t|;
    forall k | 0 <= k < |s| ensures s[k].score == t[k].score {
      CountAbovePermutation(s, t, s[k].score);
      CountAbovePermutation(s, t, t[k].score);
      AbovePrefix(s, s[k].score, k);
      AbovePrefix(t, s[k].score, k);
      AbovePrefix(s, t[k].score, k);
      AbovePrefix(t, t[k].score, k);
    }
  }

  // ----- main results -----

  /** Tie-breaking is exact: from sorted, pairwise different bids the draws
      produce precisely the descending orders of those bids, each from exactly
      one draw sequence. */
  lemma TieBreakingIsExact(s: seq<ScoredBid>, t: seq<ScoredBid>)
    requires Descending(s) && Distinct(s)
    ensures IsRanking(t, s) <==> exists draws :: ValidDraws(s, draws) && Ranked(s, draws) == t
    ensures forall d, e :: ValidDraws(s, d) && ValidDraws(s, e) && Ranked(s, d) == Ranked(s, e) ==> d == e
  {
    if IsRanking(t, s) {
      RankingsShareScores(s, t);
      PermutationDistinct(t, s);
      var draws := TiesBrokenReaches(s, 0, t);
      assert Ranked(s, draws) == t;
    }
    forall draws | ValidDraws(s, draws) && Ranked(s, draws) == t ensures IsRanking(t, s) {
      RankedIsRanking(s, draws);
    }
    forall d, e | ValidDraws(s, d) && ValidDraws(s, e) && Ranked(s, d) == Ranked(s, e) ensures d == e {
      TiesBrokenInjective(s, 0, d, e);
    }
  }

  // ----- the in-place code -----

  /** Fisher-Yates on scored[lo..hi), from the last position down. */
  method ShuffleRange(scored: array<ScoredBid>, lo: nat, hi: nat, draws: seq<nat>)
    requires lo <= hi <= scored.Length && BlockDraws(lo, hi, draws)
    modifies scored
    ensures scored[..] == Shuffled(old(scored[..]), lo, hi, draws)
  {
    var k: int := hi - 1;
    while k > lo
      invariant lo - 1 <= k < hi && (k == lo - 1 ==> lo == hi)
      invariant Shuffled(scored[..], lo, k + 1, draws) == Shuffled(old(scored[..]), lo, hi, draws)
    {
      ghost var before := scored[..];
      var swap := lo + draws[k];
      scored[k], scored[swap] := scored[swap], scored[k];
      assert scored[..] == Swap(before, k, swap);
      k := k - 1;
    }
  }

  /** Shuffles every block of equal scores, left to right. */
  method BreakTies(scored: array<ScoredBid>, draws: seq<nat>)
    requires ValidDraws(scored[..], draws)
    modifies scored
    ensures scored[..] == Ranked(old(scored[..]), draws)
  {
    var i := 0;
    while i < scored.Length
      invariant i <= scored.Length && ValidDraws(scored[..], draws)
      invariant i == scored.Length || RunStart(scored[..], i) == i
      invariant TiesBroken(scored[..], i, draws) == Ranked(old(scored[..]), draws)
    {
      ghost var s := scored[..];
      var j := i + 1;
      while j < scored.Length && scored[j].score == scored[i].score
        invariant i < j <= scored.Length && scored[..] == s
        invariant RunEnd(s, i, j) == RunEnd(s, i, i + 1)
      {
        j := j + 1;
      }
      RunDraws(s, i, j, draws);
      if j - i > 1 {
        ShuffleRange(scored, i, j, draws);
      }
      ShuffleKeepsScores(s, i, j, draws);
      ScoresFixRuns(s, scored[..], draws, j);
      i := j;
    }
  }

  /** Scores every bid at the query point, sorts, and breaks ties. */
  method RankByScore(m: LogScale, bids: seq<CoreBid>, query: seq<real>, draws: seq<nat>) returns (ranked: seq<ScoredBid>)
    requires ValidDraws(SortDescending(ScoreAll(m, bids, query)), draws)
    ensures ranked == Ranked(SortDescending(ScoreAll(m, bids, query)), draws)
    ensures IsRanking(ranked, ScoreAll(m, bids, query))
  {
    var entries: seq<ScoredBid> := [];
    for i := 0 to |bids|
      invariant entries == ScoreAll(m, bids[..i], query)
    {
      assert bids[..i + 1] == bids[..i] + [bids[i]];
      ScoreAllAppend(m, bids[..i], bids[i], query);
      entries := entries + [ScoredBid(bids[i], ComputeScore(m, bids[i], query))];
    }
    assert bids[..|bids|] == bids;
    var sorted := SortDescending(entries);
    var scored := new ScoredBid[|sorted|](i requires 0 <= i < |sorted| => sorted[i]);
    assert scored[..] == sorted;
    BreakTies(scored, draws);
    RankedIsRanking(sorted, draws);
    ranked := scored[..];
  }

  function ScoreAll(m: LogScale, bids: seq<CoreBid>, query: seq<real>): (r: seq<ScoredBid>)
    ensures |r| == |bids|
    ensures forall i :: 0 <= i < |bids| ==> r[i] == ScoredBid(bids[i], ComputeScore(m, bids[i], query))
  {
    seq(|bids|, i requires 0 <= i < |bids| => ScoredBid(bids[i], ComputeScore(m, bids[i], query)))
  }

  lemma ScoreAllAppend(m: LogScale, bids: seq<CoreBid>, bid: CoreBid, query: seq<real>)
    ensures ScoreAll(m, bids + [bid], query) ==
            ScoreAll(m, bids, query) + [ScoredBid(bid, ComputeScore(m, bid, query))]
  {
  }
}
