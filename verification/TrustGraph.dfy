/** The two aggregations over the trust edges (trust/ledger.go): one node by its
    address, and the allowlist of all addresses that meet thresholds. */
module TrustGraph {
  import opened Sequences
  import opened TrustLedger

  datatype TrustNode = TrustNode(addr: string, edgeCount: nat, bilateralCount: nat, unilateralCount: nat)

  /** Which edges a count looks at. */
  datatype Which = All | Only(kind: Kind)

  predicate Counts(e: Edge, which: Which) {
    which.All? || e.kind == which.kind
  }

  // ----- GetNode: edges that touch the address, each once -----

  function Touching(es: seq<Edge>, addr: string, which: Which): nat {
    if es == [] then 0
    else
      var e := es[|es| - 1];
      Touching(es[..|es| - 1], addr, which) + One(Touches(e, addr, which))
  }

  function GetNode(es: seq<Edge>, addr: string): TrustNode {
    TrustNode(addr, Touching(es, addr, All), Touching(es, addr, Only(Bilateral)), Touching(es, addr, Only(Unilateral)))
  }

  // ----- GetTrustedAddrs: both ends of every edge, grouped by address -----

  function Ends(es: seq<Edge>, addr: string, which: Which): nat {
    if es == [] then 0
    else
      var e := es[|es| - 1];
      Ends(es[..|es| - 1], addr, which) + One(Counts(e, which) && e.from == addr) + One(Counts(e, which) && e.to == addr)
  }

  function SelfEdges(es: seq<Edge>, addr: string, which: Which): nat {
    if es == [] then 0
    else
      var e := es[|es| - 1];
      SelfEdges(es[..|es| - 1], addr, which) + One(Counts(e, which) && e.from == addr && e.to == addr)
  }

  function Group(es: seq<Edge>, addr: string): TrustNode {
    TrustNode(addr, Ends(es, addr, All), Ends(es, addr, Only(Bilateral)), Ends(es, addr, Only(Unilateral)))
  }

  function AddNew(addrs: seq<string>, addr: string): seq<string> {
    if addr in addrs then addrs else addrs + [addr]
  }

  /** The addresses of the graph, each once. */
  function Addrs(es: seq<Edge>): (r: seq<string>)
    ensures Distinct(r)
  {
    if es == [] then []
    else AddNew(AddNew(Addrs(es[..|es| - 1]), es[|es| - 1].from), es[|es| - 1].to)
  }

  predicate Meets(n: TrustNode, minEdges: int, minBilateral: int) {
    n.edgeCount >= minEdges && n.bilateralCount >= minBilateral
  }

  function Grouped(es: seq<Edge>, addrs: seq<string>): (r: seq<TrustNode>)
    ensures |r| == |addrs|
  {
    if addrs == [] then [] else Grouped(es, addrs[..|addrs| - 1]) + [Group(es, addrs[|addrs| - 1])]
  }

  function Meeting(minEdges: int, minBilateral: int): TrustNode -> bool {
    (n: TrustNode) => Meets(n, minEdges, minBilateral)
  }

  function Groups(es: seq<Edge>, addrs: seq<string>, minEdges: int, minBilateral: int): seq<TrustNode> {
    Keep(Grouped(es, addrs), Meeting(minEdges, minBilateral))
  }

  function InsertByCount(n: TrustNode, ns: seq<TrustNode>): seq<TrustNode> {
    if ns == [] || n.edgeCount > ns[0].edgeCount then [n] + ns else [ns[0]] + InsertByCount(n, ns[1..])
  }

  /** The order among equal counts is the database's choice; this is one of them. */
  function OrderByCount(ns: seq<TrustNode>): seq<TrustNode> {
    if ns == [] then [] else InsertByCount(ns[|ns| - 1], OrderByCount(ns[..|ns| - 1]))
  }

  function GetTrustedAddrs(es: seq<Edge>, minEdges: int, minBilateral: int): seq<TrustNode> {
    OrderByCount(Groups(es, Addrs(es), minEdges, minBilateral))
  }

  function SumCounts(ns: seq<TrustNode>): nat {
    if ns == [] then 0 else SumCounts(ns[..|ns| - 1]) + ns[|ns| - 1].edgeCount
  }

  // ----- what the list contains -----

  lemma {:induction false} EndsPositive(es: seq<Edge>, addr: string)
    ensures addr in Addrs(es) <==> Ends(es, addr, All) >= 1
  {
    if es != [] {
      EndsPositive(es[..|es| - 1], addr);
    }
  }

  lemma {:induction false} GroupedContains(es: seq<Edge>, addrs: seq<string>, n: TrustNode)
    ensures n in Grouped(es, addrs) <==> n.addr in addrs && n == Group(es, n.addr)
  {
    if addrs != [] {
      GroupedContains(es, addrs[..|addrs| - 1], n);
    }
  }

  lemma {:induction false} InsertContains(n: TrustNode, ns: seq<TrustNode>)
    ensures multiset(InsertByCount(n, ns)) == multiset(ns) + multiset{n}
  {
    if ns != [] {
      assert ns == [ns[0]] + ns[1..];
      if n.edgeCount <= ns[0].edgeCount {
        InsertContains(n, ns[1..]);
      }
    }
  }

  lemma {:induction false} OrderContains(ns: seq<TrustNode>)
    ensures multiset(OrderByCount(ns)) == multiset(ns)
  {
    if ns != [] {
      assert ns == ns[..|ns| - 1] + [ns[|ns| - 1]];
      OrderContains(ns[..|ns| - 1]);
      InsertContains(ns[|ns| - 1], OrderByCount(ns[..|ns| - 1]));
    }
  }

  predicate ByCount(ns: seq<TrustNode>) {
    forall i :: 0 <= i < |ns| - 1 ==> ns[i].edgeCount >= ns[i + 1].edgeCount
  }

  lemma {:induction false} InsertOrders(n: TrustNode, ns: seq<TrustNode>)
    requires ByCount(ns)
    ensures ByCount(InsertByCount(n, ns))
    ensures var r := InsertByCount(n, ns); r != [] && (r[0] == n || (ns != [] && r[0] == ns[0]))
  {
    if ns != [] && n.edgeCount <= ns[0].edgeCount {
      InsertOrders(n, ns[1..]);
    }
  }

  lemma {:induction false} OrderOrders(ns: seq<TrustNode>)
    ensures ByCount(OrderByCount(ns))
  {
    if ns != [] {
      OrderOrders(ns[..|ns| - 1]);
      InsertOrders(ns[|ns| - 1], OrderByCount(ns[..|ns| - 1]));
    }
  }

  /** The list holds exactly the addresses of the graph that meet the
      thresholds, with their grouped counts, most edges first. */
  lemma TrustedAddrsExactly(es: seq<Edge>, minEdges: int, minBilateral: int, n: TrustNode)
    ensures n in GetTrustedAddrs(es, minEdges, minBilateral) <==>
            n == Group(es, n.addr) && n.edgeCount >= 1 && Meets(n, minEdges, minBilateral)
    ensures ByCount(GetTrustedAddrs(es, minEdges, minBilateral))
  {
    var gs := Groups(es, Addrs(es), minEdges, minBilateral);
    GroupedContains(es, Addrs(es), n);
    EndsPositive(es, n.addr);
    OrderContains(gs);
    OrderOrders(gs);
    assert n in OrderByCount(gs) <==> n in multiset(OrderByCount(gs));
    assert n in gs <==> n in multiset(gs);
  }

  // ----- the handshake law -----

  /** The ends of all edges at the listed addresses. */
  function EndsAt(es: seq<Edge>, addrs: seq<string>): nat {
    if addrs == [] then 0 else EndsAt(es, addrs[..|addrs| - 1]) + Ends(es, addrs[|addrs| - 1], All)
  }

  function Hits(addrs: seq<string>, addr: string): nat {
    if addrs == [] then 0 else Hits(addrs[..|addrs| - 1], addr) + One(addrs[|addrs| - 1] == addr)
  }

  lemma {:induction false} HitsOnce(addrs: seq<string>, addr: string)
    requires Distinct(addrs)
    ensures Hits(addrs, addr) == One(addr in addrs)
  {
    if addrs != [] {
      HitsOnce(addrs[..|addrs| - 1], addr);
    }
  }

  lemma {:induction false} EndsAtSplit(es: seq<Edge>, addrs: seq<string>)
    requires es != []
    ensures EndsAt(es, addrs) == EndsAt(es[..|es| - 1], addrs) + Hits(addrs, es[|es| - 1].from) + Hits(addrs, es[|es| - 1].to)
  {
    if addrs != [] {
      EndsAtSplit(es, addrs[..|addrs| - 1]);
    }
  }

  lemma {:induction false} EndsAtNone(addrs: seq<string>)
    ensures EndsAt([], addrs) == 0
  {
    if addrs != [] {
      EndsAtNone(addrs[..|addrs| - 1]);
    }
  }

  /** Each edge has its two ends among the addresses. */
  lemma {:induction false} EndsAtAll(es: seq<Edge>, addrs: seq<string>)
    requires Distinct(addrs)
    requires forall i :: 0 <= i < |es| ==> es[i].from in addrs && es[i].to in addrs
    ensures EndsAt(es, addrs) == 2 * |es|
  {
    if es == [] {
      EndsAtNone(addrs);
    } else {
      var e := es[|es| - 1];
      EndsAtAll(es[..|es| - 1], addrs);
      EndsAtSplit(es, addrs);
      HitsOnce(addrs, e.from);
      HitsOnce(addrs, e.to);
    }
  }

  lemma {:induction false} AddrsCover(es: seq<Edge>, i: nat)
    requires i < |es|
    ensures es[i].from in Addrs(es) && es[i].to in Addrs(es)
  {
    if i < |es| - 1 {
      AddrsCover(es[..|es| - 1], i);
    }
  }

  lemma {:induction false} SumOfGroups(es: seq<Edge>, addrs: seq<string>)
    requires forall i :: 0 <= i < |addrs| ==> Ends(es, addrs[i], All) >= 1
    ensures SumCounts(Groups(es, addrs, 1, 0)) == EndsAt(es, addrs)
  {
    if addrs != [] {
      SumOfGroups(es, addrs[..|addrs| - 1]);
      var rest, n := Groups(es, addrs[..|addrs| - 1], 1, 0), Group(es, addrs[|addrs| - 1]);
      assert Grouped(es, addrs)[..|addrs| - 1] == Grouped(es, addrs[..|addrs| - 1]);
      assert (rest + [n])[..|rest|] == rest;
    }
  }

  lemma SumCons(n: TrustNode, ns: seq<TrustNode>)
    ensures SumCounts([n] + ns) == SumCounts(ns) + n.edgeCount
  {
    if ns != [] {
      SumCons(n, ns[..|ns| - 1]);
      assert ([n] + ns)[..|ns|] == [n] + ns[..|ns| - 1];
    }
  }

  lemma {:induction false} SumInsert(n: TrustNode, ns: seq<TrustNode>)
    ensures SumCounts(InsertByCount(n, ns)) == SumCounts(ns) + n.edgeCount
  {
    SumCons(n, ns);
    if ns != [] && n.edgeCount <= ns[0].edgeCount {
      SumInsert(n, ns[1..]);
      SumCons(ns[0], ns[1..]);
      SumCons(ns[0], InsertByCount(n, ns[1..]));
      assert ns == [ns[0]] + ns[1..];
    }
  }

  lemma {:induction false} SumOrder(ns: seq<TrustNode>)
    ensures SumCounts(OrderByCount(ns)) == SumCounts(ns)
  {
    if ns != [] {
      SumOrder(ns[..|ns| - 1]);
      SumInsert(ns[|ns| - 1], OrderByCount(ns[..|ns| - 1]));
    }
  }

  /** The edge counts of the full allowlist add up to twice the number of edges. */
  lemma Handshake(es: seq<Edge>)
    ensures SumCounts(GetTrustedAddrs(es, 1, 0)) == 2 * |es|
  {
    var addrs := Addrs(es);
    forall i | 0 <= i < |es| ensures es[i].from in addrs && es[i].to in addrs {
      AddrsCover(es, i);
    }
    forall i | 0 <= i < |addrs| ensures Ends(es, addrs[i], All) >= 1 {
      EndsPositive(es, addrs[i]);
    }
    EndsAtAll(es, addrs);
    SumOfGroups(es, addrs);
    SumOrder(Groups(es, addrs, 1, 0));
  }

  // ----- the two aggregations compared -----

  /** A grouped count is the node's count plus its self-edges. */
  lemma {:induction false} EndsAreTouchesPlusSelf(es: seq<Edge>, addr: string, which: Which)
    ensures Ends(es, addr, which) == Touching(es, addr, which) + SelfEdges(es, addr, which)
  {
    if es != [] {
      EndsAreTouchesPlusSelf(es[..|es| - 1], addr, which);
    }
  }

  /** Every edge is of one kind or the other, in both aggregations. */
  lemma {:induction false} KindsAddUp(es: seq<Edge>, addr: string)
    ensures GetNode(es, addr).edgeCount == GetNode(es, addr).bilateralCount + GetNode(es, addr).unilateralCount
    ensures Group(es, addr).edgeCount == Group(es, addr).bilateralCount + Group(es, addr).unilateralCount
  {
    if es != [] {
      KindsAddUp(es[..|es| - 1], addr);
    }
  }

  predicate Listed(es: seq<Edge>, minEdges: int, minBilateral: int, addr: string) {
    exists n :: n in GetTrustedAddrs(es, minEdges, minBilateral) && n.addr == addr
  }

  /** An address is listed exactly when its node's counts, each raised by its
      self-edges of that kind, meet the thresholds; so with no self-edges at
      the address, exactly when GetNode meets them. */
  lemma ListedIffNodeMeets(es: seq<Edge>, minEdges: int, minBilateral: int, addr: string)
    requires minEdges >= 1
    ensures var n := GetNode(es, addr);
            Listed(es, minEdges, minBilateral, addr) <==>
            n.edgeCount + SelfEdges(es, addr, All) >= minEdges
            && n.bilateralCount + SelfEdges(es, addr, Only(Bilateral)) >= minBilateral
    ensures SelfEdges(es, addr, All) == 0 ==>
              (Listed(es, minEdges, minBilateral, addr) <==> Meets(GetNode(es, addr), minEdges, minBilateral))
  {
    EndsAreTouchesPlusSelf(es, addr, All);
    EndsAreTouchesPlusSelf(es, addr, Only(Bilateral));
    SelfEdgesOfKind(es, addr);
    TrustedAddrsExactly(es, minEdges, minBilateral, Group(es, addr));
    forall n | n in GetTrustedAddrs(es, minEdges, minBilateral) && n.addr == addr ensures n == Group(es, addr) {
      TrustedAddrsExactly(es, minEdges, minBilateral, n);
    }
  }

  lemma {:induction false} SelfEdgesOfKind(es: seq<Edge>, addr: string)
    ensures SelfEdges(es, addr, Only(Bilateral)) <= SelfEdges(es, addr, All)
  {
    if es != [] {
      SelfEdgesOfKind(es[..|es| - 1], addr);
    }
  }

  // ----- in every reachable state -----

  predicate Touches(e: Edge, addr: string, which: Which) {
    Counts(e, which) && (e.from == addr || e.to == addr)
  }

  lemma TouchingAppend(es: seq<Edge>, e: Edge, addr: string, which: Which)
    ensures Touching(es + [e], addr, which) == Touching(es, addr, which) + One(Touches(e, addr, which))
  {
    assert (es + [e])[..|es|] == es;
  }

  lemma TouchingPair(e: Edge, f: Edge, addr: string, which: Which)
    ensures Touching([e, f], addr, which) == One(Touches(e, addr, which)) + One(Touches(f, addr, which))
  {
    assert [e, f] == [e] + [f] && [e] == [] + [e];
    TouchingAppend([e], f, addr, which);
    TouchingAppend([], e, addr, which);
  }

  lemma {:induction false} TouchingConcat(a: seq<Edge>, b: seq<Edge>, addr: string, which: Which)
    ensures Touching(a + b, addr, which) == Touching(a, addr, which) + Touching(b, addr, which)
  {
    if b == [] {
      assert a + b == a;
    } else {
      assert (a + b)[..|a + b| - 1] == a + b[..|b| - 1];
      TouchingConcat(a, b[..|b| - 1], addr, which);
    }
  }

  lemma {:induction false} TouchingSplits(es: seq<Edge>, id: string, addr: string, which: Which)
    ensures Touching(es, addr, which) == Touching(EdgesOf(es, id, false), addr, which) + Touching(EdgesOf(es, id, true), addr, which)
  {
    if es != [] {
      var rest, last := es[..|es| - 1], es[|es| - 1];
      TouchingSplits(rest, id, addr, which);
      TouchingAppend(EdgesOf(rest, id, last.attestation == id), last, addr, which);
      assert EdgesOf(es, id, last.attestation != id) == EdgesOf(rest, id, last.attestation != id);
    }
  }

  predicate Even(n: nat) {
    n % 2 == 0
  }

  lemma MutualTouchEvenly(next: nat, id: string, a: Attestation, addr: string)
    ensures Even(Touching(MutualEdges(next, id, a), addr, Only(Bilateral)))
  {
    var es := MutualEdges(next, id, a);
    PairTouchesEvenly(es[0], es[1], addr);
  }

  lemma ProperEdgesTouchEvenly(id: string, v: View, addr: string)
    requires Edged(id, v)
    ensures Even(Touching(v.edges, addr, Only(Bilateral)))
  {
    var es := v.edges;
    if |es| == 2 {
      PairTouchesEvenly(es[0], es[1], addr);
      assert es == [es[0], es[1]];
    } else if |es| == 1 {
      TouchingAppend([], es[0], addr, Only(Bilateral));
      assert es == [] + [es[0]];
    }
  }

  lemma PairTouchesEvenly(e: Edge, f: Edge, addr: string)
    requires e.from == f.to && e.to == f.from && e.kind == f.kind
    ensures Even(Touching([e, f], addr, Only(Bilateral)))
  {
    TouchingPair(e, f, addr, Only(Bilateral));
  }

  lemma RecordKeepsEven(t: Tables, id: string, payload: Payload, sender: string, dkimValid: bool, addr: string)
    requires Even(Touching(t.edges, addr, Only(Bilateral)))
    ensures Even(Touching(Record(t, id, Received(payload, sender, dkimValid)).edges, addr, Only(Bilateral)))
  {
    var es := RecordEdges(t, id, Received(payload, sender, dkimValid));
    if es != [] {
      TouchingAppend(t.edges, es[0], addr, Only(Bilateral));
    } else {
      assert t.edges + es == t.edges;
    }
  }

  lemma ConfirmKeepsEven(t: Tables, id: string, sender: string, addr: string)
    requires Even(Touching(t.edges, addr, Only(Bilateral)))
    ensures Even(Touching(Confirm(t, id, sender).edges, addr, Only(Bilateral)))
  {
    if ConfirmError(t, id, sender).None? {
      var es := MutualEdges(t.nextEdge, id, t.atts[id]);
      TouchingConcat(t.edges, es, addr, Only(Bilateral));
      MutualTouchEvenly(t.nextEdge, id, t.atts[id], addr);
    }
  }

  lemma OthersTouchEvenly(es: seq<Edge>, id: string, addr: string)
    requires Even(Touching(es, addr, Only(Bilateral))) && Even(Touching(EdgesOf(es, id, true), addr, Only(Bilateral)))
    ensures Even(Touching(EdgesOf(es, id, false), addr, Only(Bilateral)))
  {
    TouchingSplits(es, id, addr, Only(Bilateral));
  }

  lemma RevokeKeepsEven(t: Tables, id: string, sender: string, reason: string, addr: string)
    requires Even(Touching(t.edges, addr, Only(Bilateral))) && Edged(id, ViewOf(t, id))
    ensures Even(Touching(Revoke(t, id, sender, reason).edges, addr, Only(Bilateral)))
  {
    ProperEdgesTouchEvenly(id, ViewOf(t, id), addr);
    OthersTouchEvenly(t.edges, id, addr);
  }

  lemma HandleKeepsEven(t: Tables, m: Message, requireDkim: bool, addr: string)
    requires var id := StringField(m.payload, "attestation_id"); Edged(id, ViewOf(t, id))
    requires Even(Touching(t.edges, addr, Only(Bilateral)))
    ensures Even(Touching(Handle(t, m, requireDkim).edges, addr, Only(Bilateral)))
  {
    var id, action := StringField(m.payload, "attestation_id"), StringField(m.payload, "action");
    if action == "confirm" {
      ConfirmKeepsEven(t, id, m.sender, addr);
    } else if action == "revoke" {
      RevokeKeepsEven(t, id, m.sender, StringField(m.payload, "reason"), addr);
    } else {
      RecordKeepsEven(t, id, m.payload, m.sender, m.dkimValid, addr);
    }
  }

  /** In every reachable state each address touches an even number of bilateral edges. */
  lemma {:induction false} BilateralCountsAreEven(messages: seq<Message>, requireDkim: bool, addr: string)
    ensures Even(GetNode(Run(messages, requireDkim).edges, addr).bilateralCount)
  {
    if messages != [] {
      var last := messages[|messages| - 1];
      BilateralCountsAreEven(messages[..|messages| - 1], requireDkim, addr);
      RunKeeps(messages[..|messages| - 1], requireDkim, StringField(last.payload, "attestation_id"));
      HandleKeepsEven(Run(messages[..|messages| - 1], requireDkim), last, requireDkim, addr);
    }
  }

  function AttestMessage(id: string, me: string, typ: string): Message {
    Message(map["attestation_id" := JString(id), "attestation_type" := JString(typ), "subject" := JString(me)], me, true, false)
  }

  function ConfirmMessage(id: string, me: string): Message {
    Message(map["attestation_id" := JString(id), "action" := JString("confirm")], me, true, false)
  }

  lemma SelfAttestationEdges(id: string, me: string, typ: string)
    requires id != "" && me != "" && typ != "" && typ != "platform_rating"
    ensures Run([AttestMessage(id, me, typ), ConfirmMessage(id, me)], true).edges ==
            MutualEdges(1, id, Received(AttestMessage(id, me, typ).payload, me, true))
  {
    var attest, confirm := AttestMessage(id, me, typ), ConfirmMessage(id, me);
    assert [attest, confirm][..1] == [attest] && [attest][..0] == [];
    var payload := attest.payload;
    assert StringField(payload, "attestation_id") == id && StringField(payload, "attestation_type") == typ
           && StringField(payload, "subject") == me && StringField(payload, "action") == "";
    assert StringField(confirm.payload, "attestation_id") == id && StringField(confirm.payload, "action") == "confirm";
    assert Run([attest], true) == Record(EMPTY, id, Received(payload, me, true));
  }

  /** The two aggregations do differ on reachable ledgers: one person who
      attests to itself and confirms has two edges, and is listed with four. */
  lemma SelfAttestationCountsDouble(id: string, me: string, typ: string)
    requires id != "" && me != "" && typ != "" && typ != "platform_rating"
    ensures var es := Run([AttestMessage(id, me, typ), ConfirmMessage(id, me)], true).edges;
            GetNode(es, me).edgeCount == 2 && Group(es, me).edgeCount == 4
  {
    SelfAttestationEdges(id, me, typ);
    var es := MutualEdges(1, id, Received(AttestMessage(id, me, typ).payload, me, true));
    TouchingPair(es[0], es[1], me, All);
    EndsAreTouchesPlusSelf(es, me, All);
    assert es[..1] == [es[0]] && es[..1][..0] == [];
    assert SelfEdges(es[..1], me, All) == 1;
  }
}
