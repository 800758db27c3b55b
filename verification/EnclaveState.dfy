/** The enclave's snapshots of positions and budgets (enclave/state.go) and how
    the platform fills them (tee/sync.go). */
module EnclaveState {
  import opened Wrappers
  import opened Positions
  import opened Sequences
  import opened Billing

  datatype PositionSnapshot = PositionSnapshot(
    id: string, name: string, embedding: seq<real>, sigma: real, bidPrice: real, currency: string, url: string, budgetId: string)

  datatype BudgetSnapshot = BudgetSnapshot(advertiserId: string, total: real, spent: real, currency: string)

  function SnapshotKey(p: PositionSnapshot): string {
    if p.budgetId != "" then p.budgetId else p.id
  }

  function SnapshotOf(p: Position): PositionSnapshot {
    PositionSnapshot(p.id, p.name, p.embedding, p.sigma, p.bidPrice, p.currency, p.url, p.budgetId)
  }

  // ----- iterating a map -----

  /** An order in which a map with these keys may be iterated. */
  ghost predicate Listing(ids: seq<string>, keys: set<string>) {
    && Distinct(ids)
    && (forall id :: id in ids <==> id in keys)
  }

  function ListAll<T>(m: map<string, T>, ids: seq<string>): (r: seq<T>)
    requires forall id :: id in ids ==> id in m
    ensures |r| == |ids| && forall i :: 0 <= i < |ids| ==> r[i] == m[ids[i]]
  {
    seq(|ids|, i requires 0 <= i < |ids| => m[ids[i]])
  }

  // ----- the stores -----

  function PositionTable(ps: seq<PositionSnapshot>): map<string, PositionSnapshot> {
    if ps == [] then map[] else PositionTable(ps[..|ps| - 1])[ps[|ps| - 1].id := ps[|ps| - 1]]
  }

  function BudgetTable(bs: seq<BudgetSnapshot>): map<string, BudgetSnapshot> {
    if bs == [] then map[] else BudgetTable(bs[..|bs| - 1])[bs[|bs| - 1].advertiserId := bs[|bs| - 1]]
  }

  /** p is the last of the snapshots with its ID. */
  ghost predicate LastSnapshot(ps: seq<PositionSnapshot>, id: string, p: PositionSnapshot) {
    exists i :: 0 <= i < |ps| && ps[i] == p && p.id == id && forall j :: i < j < |ps| ==> ps[j].id != id
  }

  ghost predicate LastBudget(bs: seq<BudgetSnapshot>, id: string, b: BudgetSnapshot) {
    exists i :: 0 <= i < |bs| && bs[i] == b && b.advertiserId == id && forall j :: i < j < |bs| ==> bs[j].advertiserId != id
  }

  lemma {:induction false} TableHoldsLast(ps: seq<PositionSnapshot>, id: string)
    ensures var m := PositionTable(ps);
            if id in m then LastSnapshot(ps, id, m[id]) else forall i :: 0 <= i < |ps| ==> ps[i].id != id
  {
    if ps != [] {
      var n := |ps| - 1;
      TableHoldsLast(ps[..n], id);
      if ps[n].id != id && id in PositionTable(ps[..n]) {
        LastSnapshotKept(ps, id, PositionTable(ps[..n])[id]);
      }
    }
  }

  lemma LastSnapshotKept(ps: seq<PositionSnapshot>, id: string, p: PositionSnapshot)
    requires ps != [] && ps[|ps| - 1].id != id && LastSnapshot(ps[..|ps| - 1], id, p)
    ensures LastSnapshot(ps, id, p)
  {
    var n := |ps| - 1;
    var i :| 0 <= i < n && ps[..n][i] == p && p.id == id && forall j :: i < j < n ==> ps[..n][j].id != id;
    assert ps[i] == p && forall j :: i < j < n ==> ps[..n][j] == ps[j];
  }

  lemma {:induction false} BudgetsHoldLast(bs: seq<BudgetSnapshot>, id: string)
    ensures var m := BudgetTable(bs);
            if id in m then LastBudget(bs, id, m[id]) else forall i :: 0 <= i < |bs| ==> bs[i].advertiserId != id
  {
    if bs != [] {
      var n := |bs| - 1;
      BudgetsHoldLast(bs[..n], id);
      if bs[n].advertiserId != id && id in BudgetTable(bs[..n]) {
        LastBudgetKept(bs, id, BudgetTable(bs[..n])[id]);
      }
    }
  }

  lemma LastBudgetKept(bs: seq<BudgetSnapshot>, id: string, b: BudgetSnapshot)
    requires bs != [] && bs[|bs| - 1].advertiserId != id && LastBudget(bs[..|bs| - 1], id, b)
    ensures LastBudget(bs, id, b)
  {
    var n := |bs| - 1;
    var i :| 0 <= i < n && bs[..n][i] == b && b.advertiserId == id && forall j :: i < j < n ==> bs[..n][j].advertiserId != id;
    assert bs[i] == b && forall j :: i < j < n ==> bs[..n][j] == bs[j];
  }

  predicate BudgetCovers(budgets: map<string, BudgetSnapshot>, id: string, amount: real) {
    id in budgets && budgets[id].total - budgets[id].spent >= amount
  }

  ghost predicate KeyedSnapshots(table: map<string, PositionSnapshot>) {
    forall id :: id in table ==> table[id].id == id
  }

  class PositionStore {
    var positions: map<string, PositionSnapshot>

    constructor ()
      ensures positions == map[]
    {
      positions := map[];
    }

    method ReplaceAll(ps: seq<PositionSnapshot>)
      modifies this
      ensures positions == PositionTable(ps) && KeyedSnapshots(positions)
      ensures forall id :: if id in positions then LastSnapshot(ps, id, positions[id]) else forall i :: 0 <= i < |ps| ==> ps[i].id != id
    {
      var m: map<string, PositionSnapshot> := map[];
      for i := 0 to |ps|
        invariant m == PositionTable(ps[..i]) && KeyedSnapshots(m)
      {
        assert ps[..i + 1][..i] == ps[..i];
        m := m[ps[i].id := ps[i]];
      }
      assert ps[..|ps|] == ps;
      forall id ensures if id in m then LastSnapshot(ps, id, m[id]) else forall i :: 0 <= i < |ps| ==> ps[i].id != id {
        TableHoldsLast(ps, id);
      }
      positions := m;
    }

    method GetAll(ids: seq<string>) returns (ps: seq<PositionSnapshot>)
      requires Listing(ids, positions.Keys)
      ensures ps == ListAll(positions, ids)
    {
      ps := [];
      for i := 0 to |ids|
        invariant ps == ListAll(positions, ids)[..i]
      {
        assert ids[i] in ids;
        ps := ps + [positions[ids[i]]];
      }
    }
  }

  class BudgetStore {
    var budgets: map<string, BudgetSnapshot>

    constructor ()
      ensures budgets == map[]
    {
      budgets := map[];
    }

    method ReplaceAll(bs: seq<BudgetSnapshot>)
      modifies this
      ensures budgets == BudgetTable(bs)
      ensures forall id :: if id in budgets then LastBudget(bs, id, budgets[id]) else forall i :: 0 <= i < |bs| ==> bs[i].advertiserId != id
    {
      var m: map<string, BudgetSnapshot> := map[];
      for i := 0 to |bs|
        invariant m == BudgetTable(bs[..i])
      {
        assert bs[..i + 1][..i] == bs[..i];
        m := m[bs[i].advertiserId := bs[i]];
      }
      assert bs[..|bs|] == bs;
      forall id ensures if id in m then LastBudget(bs, id, m[id]) else forall i :: 0 <= i < |bs| ==> bs[i].advertiserId != id {
        BudgetsHoldLast(bs, id);
      }
      budgets := m;
    }

    method CanAfford(id: string, amount: real) returns (ok: bool)
      ensures ok <==> BudgetCovers(budgets, id, amount)
      ensures ok <==> id in budgets && budgets[id].spent + amount <= budgets[id].total
    {
      if id !in budgets {
        return false;
      }
      return budgets[id].total - budgets[id].spent >= amount;
    }
  }

  // ----- the sync -----

  function SnapshotsOf(ps: seq<Position>): (r: seq<PositionSnapshot>)
    ensures |r| == |ps| && forall i :: 0 <= i < |ps| ==> r[i] == SnapshotOf(ps[i])
  {
    seq(|ps|, i requires 0 <= i < |ps| => SnapshotOf(ps[i]))
  }

  predicate KeyIn(ps: seq<Position>, key: string) {
    exists i :: 0 <= i < |ps| && BudgetKey(ps[i]) == key
  }

  function BudgetSnapshotOf(mem: Memory, key: string): BudgetSnapshot
    requires key in mem.budgets
  {
    BudgetSnapshot(key, mem.budgets[key], Spent(mem, key), if key in mem.currency then mem.currency[key] else "")
  }

  /** One snapshot for every known budget that a position spends from. */
  ghost predicate Mirrors(table: map<string, BudgetSnapshot>, ps: seq<Position>, mem: Memory) {
    && (forall key :: key in table <==> KeyIn(ps, key) && key in mem.budgets)
    && (forall key :: key in table && key in mem.budgets ==> table[key] == BudgetSnapshotOf(mem, key))
  }

  predicate OnePerKey(bs: seq<BudgetSnapshot>) {
    forall i, j :: 0 <= i < j < |bs| ==> bs[i].advertiserId != bs[j].advertiserId
  }

  ghost predicate Collected(bs: seq<BudgetSnapshot>, seen: set<string>, ps: seq<Position>, mem: Memory) {
    && (forall key :: key in seen <==> KeyIn(ps, key))
    && (forall b :: b in bs ==> b.advertiserId in seen)
    && OnePerKey(bs) && Mirrors(BudgetTable(bs), ps, mem)
  }

  lemma KeyInStep(ps: seq<Position>, i: nat, key: string)
    requires i < |ps|
    ensures KeyIn(ps[..i + 1], key) <==> KeyIn(ps[..i], key) || key == BudgetKey(ps[i])
  {
    if KeyIn(ps[..i], key) {
      var k :| 0 <= k < i && BudgetKey(ps[..i][k]) == key;
      assert BudgetKey(ps[..i + 1][k]) == key;
    }
    if key == BudgetKey(ps[i]) {
      assert BudgetKey(ps[..i + 1][i]) == key;
    }
    if KeyIn(ps[..i + 1], key) && key != BudgetKey(ps[i]) {
      var k :| 0 <= k < i + 1 && BudgetKey(ps[..i + 1][k]) == key;
      assert BudgetKey(ps[..i][k]) == key;
    }
  }

  /** more has the keys of ps and one more. */
  ghost predicate OneKeyMore(more: seq<Position>, ps: seq<Position>, key: string) {
    forall k :: KeyIn(more, k) <==> KeyIn(ps, k) || k == key
  }

  lemma CollectSkip(bs: seq<BudgetSnapshot>, seen: set<string>, ps: seq<Position>, more: seq<Position>, key: string, mem: Memory)
    requires Collected(bs, seen, ps, mem) && OneKeyMore(more, ps, key) && (key in seen || key !in mem.budgets)
    ensures Collected(bs, seen + {key}, more, mem)
  {
  }

  lemma OneMorePerKey(bs: seq<BudgetSnapshot>, b: BudgetSnapshot)
    requires OnePerKey(bs) && forall c :: c in bs ==> c.advertiserId != b.advertiserId
    ensures OnePerKey(bs + [b])
  {
    forall i, j | 0 <= i < j < |bs + [b]| ensures (bs + [b])[i].advertiserId != (bs + [b])[j].advertiserId {
      assert (bs + [b])[i] in bs;
    }
  }

  lemma MirrorsOneMore(table: map<string, BudgetSnapshot>, ps: seq<Position>, more: seq<Position>, key: string, mem: Memory)
    requires Mirrors(table, ps, mem) && OneKeyMore(more, ps, key) && key in mem.budgets
    ensures Mirrors(table[key := BudgetSnapshotOf(mem, key)], more, mem)
  {
  }

  lemma CollectAdd(bs: seq<BudgetSnapshot>, seen: set<string>, ps: seq<Position>, more: seq<Position>, key: string, mem: Memory)
    requires Collected(bs, seen, ps, mem) && OneKeyMore(more, ps, key) && key !in seen && key in mem.budgets
    ensures Collected(bs + [BudgetSnapshotOf(mem, key)], seen + {key}, more, mem)
  {
    var b := BudgetSnapshotOf(mem, key);
    assert (bs + [b])[..|bs|] == bs;
    OneMorePerKey(bs, b);
    MirrorsOneMore(BudgetTable(bs), ps, more, key, mem);
  }

  lemma CollectStep(bs: seq<BudgetSnapshot>, seen: set<string>, ps: seq<Position>, i: nat, mem: Memory)
    requires i < |ps| && Collected(bs, seen, ps[..i], mem)
    ensures var key := BudgetKey(ps[i]);
            if key in seen || key !in mem.budgets then Collected(bs, seen + {key}, ps[..i + 1], mem)
            else Collected(bs + [BudgetSnapshotOf(mem, key)], seen + {key}, ps[..i + 1], mem)
  {
    var key := BudgetKey(ps[i]);
    forall k ensures KeyIn(ps[..i + 1], k) <==> KeyIn(ps[..i], k) || k == key {
      KeyInStep(ps, i, k);
    }
    if key in seen || key !in mem.budgets {
      CollectSkip(bs, seen, ps[..i], ps[..i + 1], key, mem);
    } else {
      CollectAdd(bs, seen, ps[..i], ps[..i + 1], key, mem);
    }
  }

  method CollectBudgets(ps: seq<Position>, tracker: BudgetTracker) returns (bs: seq<BudgetSnapshot>)
    ensures OnePerKey(bs) && Mirrors(BudgetTable(bs), ps, tracker.Mem())
  {
    bs := [];
    var seen: set<string> := {};
    for i := 0 to |ps|
      invariant Collected(bs, seen, ps[..i], tracker.Mem())
    {
      var key := BudgetKey(ps[i]);
      CollectStep(bs, seen, ps, i, tracker.Mem());
      if key in seen {
        assert seen + {key} == seen;
        continue;
      }
      seen := seen + {key};
      var info := tracker.GetInfo(key);
      if info.None? {
        continue;
      }
      bs := bs + [BudgetSnapshot(key, info.value.total, info.value.spent, info.value.currency)];
    }
    assert ps[..|ps|] == ps;
  }

  /** The registry files every position under its own ID. */
  ghost predicate KeyedById(registry: map<string, Position>) {
    forall id :: id in registry ==> registry[id].id == id
  }

  function Synced(registry: map<string, Position>): map<string, PositionSnapshot> {
    map id | id in registry :: SnapshotOf(registry[id])
  }

  /** table files the listed positions' snapshots. */
  ghost predicate Files(table: map<string, PositionSnapshot>, registry: map<string, Position>, ids: seq<string>) {
    forall id :: (id in table <==> id in ids) && (id in table && id in registry ==> table[id] == SnapshotOf(registry[id]))
  }

  lemma {:induction false} TableOfListing(registry: map<string, Position>, ids: seq<string>)
    requires KeyedById(registry) && (forall id :: id in ids ==> id in registry)
    ensures Files(PositionTable(SnapshotsOf(ListAll(registry, ids))), registry, ids)
  {
    if ids != [] {
      var n := |ids| - 1;
      var rest := SnapshotsOf(ListAll(registry, ids[..n]));
      var s := SnapshotsOf(ListAll(registry, ids));
      assert ids[n] in ids;
      TableOfListing(registry, ids[..n]);
      assert s[..n] == rest;
      FileOne(PositionTable(rest), registry, ids, s[n]);
    }
  }

  lemma FileOne(table: map<string, PositionSnapshot>, registry: map<string, Position>, ids: seq<string>, last: PositionSnapshot)
    requires ids != [] && Files(table, registry, ids[..|ids| - 1])
    requires ids[|ids| - 1] == last.id && last.id in registry && last == SnapshotOf(registry[last.id])
    ensures Files(table[last.id := last], registry, ids)
  {
    assert ids == ids[..|ids| - 1] + [last.id];
  }

  method CollectPositions(registry: map<string, Position>, ids: seq<string>) returns (snaps: seq<PositionSnapshot>)
    requires KeyedById(registry) && Listing(ids, registry.Keys)
    ensures PositionTable(snaps) == Synced(registry)
  {
    var positions := ListAll(registry, ids);
    snaps := [];
    for i := 0 to |positions|
      invariant snaps == SnapshotsOf(positions)[..i]
    {
      snaps := snaps + [SnapshotOf(positions[i])];
    }
    assert snaps == SnapshotsOf(positions);
    TableOfListing(registry, ids);
  }

  /** s says of the position what the enclave auctions it by. */
  predicate Copies(s: PositionSnapshot, p: Position) {
    && s.id == p.id && s.name == p.name && s.embedding == p.embedding && s.sigma == p.sigma && s.bidPrice == p.bidPrice
    && s.currency == p.currency && s.url == p.url && s.budgetId == p.budgetId
  }

  /** b says of a budget what the tracker knows of it. */
  predicate CopiesBudget(b: BudgetSnapshot, mem: Memory, key: string) {
    && b.advertiserId == key && key in mem.budgets && b.total == mem.budgets[key]
    && b.spent == (if key in mem.spent then mem.spent[key] else 0.0) && b.currency == if key in mem.currency then mem.currency[key] else ""
  }

  /** After a sync the stores mirror the registry and the budgets, whatever the
      order in which the registry was iterated. */
  method SyncFromPlatform(positionStore: PositionStore, budgetStore: BudgetStore,
                          registry: map<string, Position>, ids: seq<string>, tracker: BudgetTracker)
    requires KeyedById(registry) && Listing(ids, registry.Keys)
    modifies positionStore, budgetStore
    ensures positionStore.positions == Synced(registry)
    ensures Mirrors(budgetStore.budgets, ListAll(registry, ids), old(tracker.Mem()))
    ensures positionStore.positions.Keys == registry.Keys && forall id :: id in registry ==> Copies(positionStore.positions[id], registry[id])
    ensures forall key :: key in budgetStore.budgets ==> CopiesBudget(budgetStore.budgets[key], old(tracker.Mem()), key)
  {
    var snaps := CollectPositions(registry, ids);
    positionStore.ReplaceAll(snaps);
    var budgetSnaps := CollectBudgets(ListAll(registry, ids), tracker);
    budgetStore.ReplaceAll(budgetSnaps);
  }

  /** The enclave lets a synced position bid exactly when the platform would. */
  lemma FilterMirrorsPlatform(table: map<string, BudgetSnapshot>, ps: seq<Position>, mem: Memory, p: Position)
    requires Mirrors(table, ps, mem) && p in ps
    ensures BudgetCovers(table, SnapshotKey(SnapshotOf(p)), p.bidPrice) <==> Affords(mem, BudgetKey(p), p.bidPrice)
  {
    var i :| 0 <= i < |ps| && ps[i] == p;
    assert KeyIn(ps, BudgetKey(p));
  }
}
