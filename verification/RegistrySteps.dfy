/** The registry's lock-sized steps (platform/registry.go) in any interleaving:
    when every member keeps its head, and when the cached version stays that of
    the positions. */
module RegistrySteps {
  import opened Positions
  import opened Registry
  import opened Versions

  // ----- heads -----

  predicate Spends(positions: map<string, Position>, id: string, other: string) {
    other in positions && other != id && positions[other].budgetId == id
  }

  ghost predicate Unspent(positions: map<string, Position>, id: string) {
    forall other :: !Spends(positions, id, other)
  }

  /** A member may only be written while its head is there and nobody spends
      the member's own budget; a position may only be removed alone if nobody
      spends its budget; a delete is always fine. */
  ghost predicate Safe(positions: map<string, Position>, step: Step) {
    match step
    case Put(p) => MayWrite(positions, p)
    case SecondWrite(p) => MayWrite(positions, p)
    case Remove(id) => id !in positions || Unspent(positions, id)
    case Drop(_) => true
    case Ask => true
  }

  ghost predicate MayWrite(positions: map<string, Position>, p: Position) {
    p.budgetId == "" ||
    (p.budgetId != p.id && p.budgetId in positions && positions[p.budgetId].budgetId == "" && Unspent(positions, p.id))
  }

  lemma WriteKeepsHeadsIff(positions: map<string, Position>, p: Position)
    requires Headed(positions) && p.id != ""
    ensures Headed(positions[p.id := p]) <==> MayWrite(positions, p)
  {
    var after := positions[p.id := p];
    if MayWrite(positions, p) {
      forall id | id in after ensures HasHead(after, id) {
        if id != p.id {
          assert HasHead(positions, id);
          assert !Spends(positions, p.id, id) || p.budgetId == "";
        }
      }
    }
    forall other | Spends(positions, p.id, other) ensures other in after && (p.budgetId == "" || !HasHead(after, other)) {
    }
    if p.budgetId != "" && Headed(after) {
      assert HasHead(after, p.id);
    }
  }

  lemma RemoveKeepsHeadsIff(positions: map<string, Position>, id: string)
    requires Headed(positions) && id != ""
    ensures Headed(positions - {id}) <==> Safe(positions, Remove(id))
  {
    var after := positions - {id};
    if Safe(positions, Remove(id)) {
      forall x | x in after ensures HasHead(after, x) {
        assert HasHead(positions, x);
        assert id !in positions || !Spends(positions, id, x);
      }
    }
    forall other | Spends(positions, id, other) ensures other in after && !HasHead(after, other) {
    }
  }

  lemma DropKeepsHeads(positions: map<string, Position>, id: string)
    requires Headed(positions) && id != ""
    ensures Headed(Apply(positions, Drop(id)))
  {
    var after := Apply(positions, Drop(id));
    forall x | x in after ensures HasHead(after, x) {
      assert HasHead(positions, x);
    }
  }

  predicate Named(step: Step) {
    match step
    case Put(p) => p.id != ""
    case SecondWrite(p) => p.id != ""
    case Remove(id) => id != ""
    case Drop(id) => id != ""
    case Ask => true
  }

  /** One step keeps every budget ID naming a present head exactly if it is safe. */
  lemma StepKeepsHeadsIff(positions: map<string, Position>, step: Step)
    requires Headed(positions) && Named(step)
    ensures Headed(Apply(positions, step)) <==> Safe(positions, step)
  {
    match step
    case Put(p) => WriteKeepsHeadsIff(positions, p);
    case SecondWrite(p) => WriteKeepsHeadsIff(positions, p);
    case Remove(id) => RemoveKeepsHeadsIff(positions, id);
    case Drop(id) => DropKeepsHeads(positions, id);
    case Ask =>
  }

  function After(start: map<string, Position>, steps: seq<Step>): map<string, Position> {
    if steps == [] then start else Apply(After(start, steps[..|steps| - 1]), steps[|steps| - 1])
  }

  ghost predicate HeadedAfter(start: map<string, Position>, steps: seq<Step>, n: nat)
    requires n <= |steps|
  {
    Headed(After(start, steps[..n]))
  }

  ghost predicate SafeAt(start: map<string, Position>, steps: seq<Step>, k: nat)
    requires k < |steps|
  {
    Safe(After(start, steps[..k]), steps[k])
  }

  lemma NextIsApply(start: map<string, Position>, steps: seq<Step>, k: nat)
    requires k < |steps|
    ensures After(start, steps[..k + 1]) == Apply(After(start, steps[..k]), steps[k])
  {
    assert steps[..k + 1][..k] == steps[..k];
  }

  lemma {:induction false} SafeStepsKeepHeads(start: map<string, Position>, steps: seq<Step>, n: nat)
    requires Headed(start) && n <= |steps| && (forall k :: 0 <= k < |steps| ==> Named(steps[k]))
    requires forall k: nat :: k < n ==> SafeAt(start, steps, k)
    ensures HeadedAfter(start, steps, n)
  {
    if n > 0 {
      var k: nat := n - 1;
      SafeStepsKeepHeads(start, steps, k);
      NextIsApply(start, steps, k);
      assert SafeAt(start, steps, k) && HeadedAfter(start, steps, k);
      StepKeepsHeadsIff(After(start, steps[..k]), steps[k]);
    }
  }

  /** Over any interleaving of lock-sized steps, the heads survive throughout
      exactly if every step was safe when it was taken. */
  lemma HeadsSurviveIff(start: map<string, Position>, steps: seq<Step>)
    requires Headed(start) && forall k :: 0 <= k < |steps| ==> Named(steps[k])
    ensures (forall n: nat :: n <= |steps| ==> HeadedAfter(start, steps, n)) <==>
            (forall k: nat :: k < |steps| ==> SafeAt(start, steps, k))
  {
    if forall k: nat :: k < |steps| ==> SafeAt(start, steps, k) {
      forall n: nat | n <= |steps| ensures HeadedAfter(start, steps, n) {
        SafeStepsKeepHeads(start, steps, n);
      }
    }
    if forall n: nat :: n <= |steps| ==> HeadedAfter(start, steps, n) {
      forall k: nat | k < |steps| ensures SafeAt(start, steps, k) {
        assert HeadedAfter(start, steps, k) && HeadedAfter(start, steps, k + 1);
        NextIsApply(start, steps, k);
        StepKeepsHeadsIff(After(start, steps[..k]), steps[k]);
      }
    }
  }

  // ----- the interleavings that break it -----

  /** A member's write, by its group or by an update, may go before the delete
      of its head and not after it. */
  lemma WriteAfterDeleteStrands(positions: map<string, Position>, p: Position, write: Step)
    requires write == Put(p) || write == SecondWrite(p)
    requires Headed(positions) && p.id != "" && p.budgetId != "" && Safe(positions, write)
    ensures Headed(Apply(Apply(positions, write), Drop(p.budgetId)))
    ensures !Headed(Apply(Apply(positions, Drop(p.budgetId)), write))
  {
    WriteKeepsHeadsIff(positions, p);
    DropKeepsHeads(Apply(positions, write), p.budgetId);
    DropKeepsHeads(positions, p.budgetId);
    WriteKeepsHeadsIff(Apply(positions, Drop(p.budgetId)), p);
  }

  /** A rollback removes the head first, so while it lasts the members stand
      without a head. */
  lemma RollbackStrandsMeanwhile(positions: map<string, Position>, head: string, member: string)
    requires Headed(positions) && head != "" && head in positions && Spends(positions, head, member)
    ensures !Headed(Apply(positions, Remove(head)))
  {
    RemoveKeepsHeadsIff(positions, head);
  }

  // ----- the cached version -----

  /** Issued IDs, one dimension, and no collision of the digest. */
  ghost predicate Comparable(h: Digest, p: map<string, seq<real>>, q: map<string, seq<real>>, d: nat) {
    h.floats.Lawful() && OneDimension(h, p, d) && OneDimension(h, q, d) && NoCollision(h, p, q)
  }

  /** Only a second write can leave a version that is out of date: it must find
      no cached version, or the embedding that it writes already there. */
  predicate KeepsCache(x: Index, step: Step) {
    step.SecondWrite? ==>
      x.version == "" || (step.p.id in x.positions && x.positions[step.p.id].embedding == step.p.embedding)
  }

  lemma SameEmbeddingsIff(positions: map<string, Position>, p: Position)
    ensures EmbeddingsOf(positions[p.id := p]) == EmbeddingsOf(positions) <==>
            p.id in positions && positions[p.id].embedding == p.embedding
  {
    var before, after := EmbeddingsOf(positions), EmbeddingsOf(positions[p.id := p]);
    assert after == before[p.id := p.embedding];
    if p.id in positions && positions[p.id].embedding == p.embedding {
      assert before == before[p.id := p.embedding];
    }
    assert after == before ==> p.id in before && before[p.id] == p.embedding;
  }

  /** One step keeps the cached version that of the positions exactly if it is
      not a second write that changes what an existing version stands for. */
  lemma StepKeepsCacheIff(h: Digest, x: Index, step: Step, d: nat)
    requires Coherent(h, x)
    requires Comparable(h, EmbeddingsOf(x.positions), EmbeddingsOf(Apply(x.positions, step)), d)
    ensures Coherent(h, Stepped(h, x, step)) <==> KeepsCache(x, step)
  {
    if step.SecondWrite? {
      SameEmbeddingsIff(x.positions, step.p);
      VersionIdentifiesEmbeddings(h, EmbeddingsOf(x.positions), EmbeddingsOf(Apply(x.positions, step)), d);
    }
  }

  ghost function IndexAfter(h: Digest, start: Index, steps: seq<Step>): Index {
    if steps == [] then start else Stepped(h, IndexAfter(h, start, steps[..|steps| - 1]), steps[|steps| - 1])
  }

  ghost predicate CoherentAfter(h: Digest, start: Index, steps: seq<Step>, n: nat)
    requires n <= |steps|
  {
    Coherent(h, IndexAfter(h, start, steps[..n]))
  }

  ghost predicate KeepsCacheAt(h: Digest, start: Index, steps: seq<Step>, k: nat)
    requires k < |steps|
  {
    KeepsCache(IndexAfter(h, start, steps[..k]), steps[k])
  }

  /** What was registered before and after step k can be told apart by version. */
  ghost predicate ComparableAt(h: Digest, start: Index, steps: seq<Step>, k: nat, d: nat)
    requires k < |steps|
  {
    var x := IndexAfter(h, start, steps[..k]);
    Comparable(h, EmbeddingsOf(x.positions), EmbeddingsOf(Apply(x.positions, steps[k])), d)
  }

  lemma CacheStep(h: Digest, start: Index, steps: seq<Step>, k: nat, d: nat)
    requires k < |steps| && CoherentAfter(h, start, steps, k) && ComparableAt(h, start, steps, k, d)
    ensures CoherentAfter(h, start, steps, k + 1) <==> KeepsCacheAt(h, start, steps, k)
  {
    assert steps[..k + 1][..k] == steps[..k];
    StepKeepsCacheIff(h, IndexAfter(h, start, steps[..k]), steps[k], d);
  }

  lemma {:induction false} KeepingStepsStayCoherent(h: Digest, start: Index, steps: seq<Step>, n: nat, d: nat)
    requires Coherent(h, start) && n <= |steps|
    requires forall k: nat :: k < n ==> ComparableAt(h, start, steps, k, d) && KeepsCacheAt(h, start, steps, k)
    ensures CoherentAfter(h, start, steps, n)
  {
    if n > 0 {
      var k: nat := n - 1;
      KeepingStepsStayCoherent(h, start, steps, k, d);
      assert KeepsCacheAt(h, start, steps, k);
      CacheStep(h, start, steps, k, d);
    }
  }

  /** Over any interleaving of lock-sized steps, the cached version is never out
      of date exactly if no second write changes what it stands for. */
  lemma CacheSurvivesIff(h: Digest, start: Index, steps: seq<Step>, d: nat)
    requires Coherent(h, start) && forall k: nat :: k < |steps| ==> ComparableAt(h, start, steps, k, d)
    ensures (forall n: nat :: n <= |steps| ==> CoherentAfter(h, start, steps, n)) <==>
            (forall k: nat :: k < |steps| ==> KeepsCacheAt(h, start, steps, k))
  {
    if forall k: nat :: k < |steps| ==> KeepsCacheAt(h, start, steps, k) {
      forall n: nat | n <= |steps| ensures CoherentAfter(h, start, steps, n) {
        KeepingStepsStayCoherent(h, start, steps, n, d);
      }
    }
    if forall n: nat :: n <= |steps| ==> CoherentAfter(h, start, steps, n) {
      forall k: nat | k < |steps| ensures KeepsCacheAt(h, start, steps, k) {
        assert CoherentAfter(h, start, steps, k) && CoherentAfter(h, start, steps, k + 1);
        CacheStep(h, start, steps, k, d);
      }
    }
  }

  /** The digest is never empty, as the 32 hexadecimal digits of the code are not. */
  ghost predicate NeverEmpty(h: Digest) {
    forall stream :: h.hash(stream) != ""
  }

  /** A group member that is deleted, or moved by an update, between its two
      writes, with the version asked for before the second. */
  function Overtaken(p: Position, between: Step): seq<Step> {
    [Put(p.(budgetId := ""))] + [between] + [Ask] + [SecondWrite(p)]
  }

  predicate Overtakes(between: Step, p: Position) {
    between == Drop(p.id) || (between.Put? && between.p.id == p.id && between.p.embedding != p.embedding)
  }

  lemma OvertakenRuns(h: Digest, start: Index, p: Position, between: Step)
    requires Overtakes(between, p)
    ensures var s := Overtaken(p, between);
            && s[..4] == s && IndexAfter(h, start, s) == Stepped(h, IndexAfter(h, start, s[..3]), SecondWrite(p))
            && IndexAfter(h, start, s[..3]) == Stepped(h, Stepped(h, Stepped(h, start, s[0]), between), Ask)
  {
    var s := Overtaken(p, between);
    assert s[..4] == s && s[..3][..2] == s[..2] && s[..2][..1] == s[..1] && s[..1][..0] == [];
    assert IndexAfter(h, start, s[..1]) == Stepped(h, start, s[0]);
    assert IndexAfter(h, start, s[..2]) == Stepped(h, Stepped(h, start, s[0]), between);
  }

  /** The version is then out of date. */
  lemma OvertakenSecondWriteIsStale(h: Digest, start: Index, p: Position, between: Step, d: nat)
    requires NeverEmpty(h) && Overtakes(between, p) && ComparableAt(h, start, Overtaken(p, between), 3, d)
    ensures !Coherent(h, IndexAfter(h, start, Overtaken(p, between)))
  {
    OvertakenRuns(h, start, p, between);
    StepKeepsCacheIff(h, IndexAfter(h, start, Overtaken(p, between)[..3]), SecondWrite(p), d);
  }
}
