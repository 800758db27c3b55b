/** Budgets in memory and in the advertisers table (platform/billing.go, platform/db.go).

    A database call may fail; a failed call has no effect on the tables. */
module Billing {
  import opened Wrappers

  /** The budget columns of an advertisers row. */
  datatype BudgetRow = BudgetRow(total: real, spent: real, currency: string)

  /** The in-memory maps of the tracker. */
  datatype Memory = Memory(budgets: map<string, real>, spent: map<string, real>, currency: map<string, string>)

  datatype BudgetInfo = BudgetInfo(advertiserId: string, total: real, spent: real, remaining: real, currency: string)

  /** A missing map key reads as zero. */
  function Spent(mem: Memory, id: string): real {
    if id in mem.spent then mem.spent[id] else 0.0
  }

  predicate Affords(mem: Memory, id: string, amount: real) {
    id in mem.budgets && mem.budgets[id] - Spent(mem, id) >= amount
  }

  /** What was spent of a budget and the amount together fit into its total. */
  predicate HasRoom(mem: Memory, key: string, amount: real) {
    key in mem.budgets && (if key in mem.spent then mem.spent[key] + amount else amount) <= mem.budgets[key]
  }

  function Info(mem: Memory, id: string): Option<BudgetInfo> {
    if id !in mem.budgets then None
    else
      Some(BudgetInfo(id, mem.budgets[id], Spent(mem, id), mem.budgets[id] - Spent(mem, id),
                      if id in mem.currency then mem.currency[id] else ""))
  }

  // ----- one charge -----

  /** What DB.Charge reports: charged, refused without an error, or an error. */
  datatype DbReply = Charged | Refused | Failed

  /** A missing row is an error of the query, like a failed call. */
  function DbReplyTo(rows: map<string, BudgetRow>, id: string, amount: real, fails: bool): DbReply {
    if fails || id !in rows then Failed
    else if rows[id].total - rows[id].spent < amount then Refused
    else Charged
  }

  function DbAfter(rows: map<string, BudgetRow>, id: string, amount: real, fails: bool): map<string, BudgetRow> {
    if DbReplyTo(rows, id, amount, fails).Charged?
    then rows[id := rows[id].(spent := rows[id].spent + amount)]
    else rows
  }

  function MemAfter(mem: Memory, id: string, amount: real): Memory {
    mem.(spent := mem.spent[id := Spent(mem, id) + amount])
  }

  /** The result of BudgetTracker.Charge: it drops the boolean of DB.Charge and
      looks only at its error. */
  predicate ChargeSucceeds(mem: Memory, rows: map<string, BudgetRow>, id: string, amount: real, fails: bool) {
    Affords(mem, id, amount) && !DbReplyTo(rows, id, amount, fails).Failed?
  }

  class DB {
    var budgets: map<string, BudgetRow>

    constructor ()
      ensures budgets == map[]
    {
      budgets := map[];
    }

    method Charge(id: string, amount: real, fails: bool) returns (ok: bool, err: bool)
      modifies this
      ensures budgets == DbAfter(old(budgets), id, amount, fails)
      ensures err == DbReplyTo(old(budgets), id, amount, fails).Failed?
      ensures ok == DbReplyTo(old(budgets), id, amount, fails).Charged?
      ensures err <==> fails || id !in old(budgets)
      ensures ok <==> !err && old(budgets)[id].spent + amount <= old(budgets)[id].total
      ensures budgets == if ok then old(budgets)[id := old(budgets)[id].(spent := old(budgets)[id].spent + amount)] else old(budgets)
    {
      if fails || id !in budgets {
        return false, true;
      }
      var row := budgets[id];
      if row.total - row.spent < amount {
        return false, false;
      }
      budgets := budgets[id := row.(spent := row.spent + amount)];
      return true, false;
    }

    /** Changes the total only; the spent column keeps its value. */
    method UpdateBudget(id: string, total: real, fails: bool) returns (err: bool)
      modifies this
      ensures err <==> fails || id !in old(budgets)
      ensures budgets == if err then old(budgets) else old(budgets)[id := old(budgets)[id].(total := total)]
    {
      if fails || id !in budgets {
        return true;
      }
      budgets := budgets[id := budgets[id].(total := total)];
      return false;
    }
  }

  class BudgetTracker {
    var budgets: map<string, real>
    var spent: map<string, real>
    var currency: map<string, string>
    var db: DB?

    function Mem(): Memory
      reads this
    {
      Memory(budgets, spent, currency)
    }

    constructor ()
      ensures Mem() == Memory(map[], map[], map[]) && db == null
    {
      budgets, spent, currency, db := map[], map[], map[], null;
    }

    /** Loads the budgets of the listed advertisers; an unreadable or missing row
        is skipped. If the listing fails, the table is attached all the same. */
    method SetDB(store: DB, ids: seq<string>, listFails: bool, unreadable: set<string>) returns (err: bool)
      modifies this
      ensures db == store && err == listFails
      ensures Mem() == if listFails then old(Mem()) else Loaded(old(Mem()), store.budgets, ids, unreadable)
      ensures !listFails ==> forall id :: LoadedAt(old(Mem()), Mem(), store.budgets, ids, unreadable, id)
    {
      db := store;
      if listFails {
        return true;
      }
      for i := 0 to |ids|
        invariant db == store
        invariant Mem() == Loaded(old(Mem()), store.budgets, ids[..i], unreadable)
      {
        var id := ids[i];
        assert ids[..i + 1][..i] == ids[..i];
        if id !in unreadable && id in store.budgets {
          var row := store.budgets[id];
          budgets := budgets[id := row.total];
          spent := spent[id := row.spent];
          currency := currency[id := row.currency];
        }
      }
      assert ids[..|ids|] == ids;
      forall id ensures LoadedAt(old(Mem()), Mem(), store.budgets, ids, unreadable, id) {
        LoadedExactly(old(Mem()), store.budgets, ids, unreadable, id);
      }
      return false;
    }

    method Set(id: string, total: real, cur: string)
      modifies `budgets, `spent, `currency
      ensures Mem() == AfterSet(old(Mem()), id, total, cur)
      ensures budgets == old(budgets)[id := total] && spent == old(spent)[id := 0.0] && currency == old(currency)[id := cur]
    {
      budgets := budgets[id := total];
      spent := spent[id := 0.0];
      currency := currency[id := cur];
    }

    method CanAfford(id: string, amount: real) returns (ok: bool)
      ensures ok <==> Affords(Mem(), id, amount)
      ensures ok <==> HasRoom(Mem(), id, amount)
    {
      if id !in budgets {
        return false;
      }
      return budgets[id] - (if id in spent then spent[id] else 0.0) >= amount;
    }

    /** Charges memory first and takes the charge back when the database reports an error. */
    method Charge(id: string, amount: real, fails: bool) returns (ok: bool)
      modifies `spent, db
      ensures db != null ==>
                && ok == ChargeSucceeds(old(Mem()), old(db.budgets), id, amount, fails)
                && db.budgets == (if Affords(old(Mem()), id, amount) then DbAfter(old(db.budgets), id, amount, fails) else old(db.budgets))
      ensures db == null ==> ok == Affords(old(Mem()), id, amount)
      ensures ok ==> Mem() == MemAfter(old(Mem()), id, amount)
      ensures var already := if id in old(spent) then old(spent)[id] else 0.0;
              var room := HasRoom(old(Mem()), id, amount);
              && (db == null ==> (ok <==> room)) && (db != null ==> (ok <==> room && !fails && id in old(db.budgets)))
              && (ok ==> spent == old(spent)[id := already + amount])
              && (db != null ==>
                    db.budgets ==
                    if ok && old(db.budgets)[id].spent + amount <= old(db.budgets)[id].total
                    then old(db.budgets)[id := old(db.budgets)[id].(spent := old(db.budgets)[id].spent + amount)] else old(db.budgets))
      ensures !ok ==> Mem() == old(Mem()) || (id in old(budgets) && id !in old(spent) && Mem() == MemAfter(old(Mem()), id, 0.0))
    {
      if id !in budgets {
        return false;
      }
      var already := if id in spent then spent[id] else 0.0;
      if budgets[id] - already < amount {
        return false;
      }
      spent := spent[id := already + amount];
      if db != null {
        var _, err := db.Charge(id, amount, fails);
        if err {
          spent := spent[id := already + amount - amount];
          return false;
        }
      }
      return true;
    }

    method GetInfo(id: string) returns (info: Option<BudgetInfo>)
      ensures info == Info(Mem(), id)
      ensures info.Some? <==> id in budgets
      ensures info.Some? ==>
                && info.value.advertiserId == id && info.value.total == budgets[id] && info.value.remaining + info.value.spent == budgets[id]
                && info.value.spent == (if id in spent then spent[id] else 0.0)
                && info.value.currency == if id in currency then currency[id] else ""
    {
      if id !in budgets {
        return None;
      }
      var already := if id in spent then spent[id] else 0.0;
      return Some(BudgetInfo(id, budgets[id], already, budgets[id] - already,
                             if id in currency then currency[id] else ""));
    }

    method Delete(id: string)
      modifies `budgets, `spent, `currency
      ensures Mem() == AfterDelete(old(Mem()), id)
    {
      budgets := budgets - {id};
      spent := spent - {id};
      currency := currency - {id};
    }
  }

  /** What a load leaves of one budget: the row's values if it was listed and
      could be read, and what was there before otherwise. */
  predicate LoadedAt(before: Memory, after: Memory, rows: map<string, BudgetRow>, ids: seq<string>, unreadable: set<string>, id: string) {
    if id in ids && id !in unreadable && id in rows then
      && id in after.budgets && after.budgets[id] == rows[id].total
      && id in after.spent && after.spent[id] == rows[id].spent
      && id in after.currency && after.currency[id] == rows[id].currency
    else
      && (id in after.budgets <==> id in before.budgets) && (id in after.budgets ==> after.budgets[id] == before.budgets[id])
      && (id in after.spent <==> id in before.spent) && (id in after.spent ==> after.spent[id] == before.spent[id])
      && (id in after.currency <==> id in before.currency) && (id in after.currency ==> after.currency[id] == before.currency[id])
  }

  lemma {:induction false} LoadedExactly(mem: Memory, rows: map<string, BudgetRow>, ids: seq<string>, unreadable: set<string>, id: string)
    ensures LoadedAt(mem, Loaded(mem, rows, ids, unreadable), rows, ids, unreadable, id)
  {
    if ids != [] {
      var n := |ids| - 1;
      LoadedExactly(mem, rows, ids[..n], unreadable, id);
      assert ids == ids[..n] + [ids[n]];
    }
  }

  function AfterSet(mem: Memory, id: string, total: real, cur: string): Memory {
    Memory(mem.budgets[id := total], mem.spent[id := 0.0], mem.currency[id := cur])
  }

  function AfterDelete(mem: Memory, id: string): Memory {
    Memory(mem.budgets - {id}, mem.spent - {id}, mem.currency - {id})
  }

  function LoadRow(mem: Memory, rows: map<string, BudgetRow>, id: string, unreadable: set<string>): Memory {
    if id in unreadable || id !in rows then mem
    else Memory(mem.budgets[id := rows[id].total], mem.spent[id := rows[id].spent], mem.currency[id := rows[id].currency])
  }

  function Loaded(mem: Memory, rows: map<string, BudgetRow>, ids: seq<string>, unreadable: set<string>): Memory {
    if ids == [] then mem
    else LoadRow(Loaded(mem, rows, ids[..|ids| - 1], unreadable), rows, ids[|ids| - 1], unreadable)
  }

  // ----- agreement of memory and table -----

  /** Every budget has its spent and currency entries. */
  ghost predicate Coherent(mem: Memory) {
    mem.spent.Keys == mem.budgets.Keys && mem.currency.Keys == mem.budgets.Keys
  }

  /** Where both know an advertiser, they hold the same total and spent. */
  ghost predicate Agree(mem: Memory, rows: map<string, BudgetRow>) {
    forall id :: id in mem.budgets && id in rows ==> AgreeOn(mem, rows, id)
  }

  predicate AgreeOn(mem: Memory, rows: map<string, BudgetRow>, id: string)
    requires id in mem.budgets && id in rows
  {
    mem.budgets[id] == rows[id].total && Spent(mem, id) == rows[id].spent
  }

  ghost predicate WithinBudget(mem: Memory) {
    forall id :: id in mem.budgets ==> 0.0 <= Spent(mem, id) <= mem.budgets[id]
  }

  /** The memory that a charge leaves behind. */
  function ChargeMem(mem: Memory, rows: map<string, BudgetRow>, id: string, amount: real, fails: bool): Memory {
    if ChargeSucceeds(mem, rows, id, amount, fails) then MemAfter(mem, id, amount) else mem
  }

  function ChargeRows(mem: Memory, rows: map<string, BudgetRow>, id: string, amount: real, fails: bool): map<string, BudgetRow> {
    if Affords(mem, id, amount) then DbAfter(rows, id, amount, fails) else rows
  }

  /** From agreeing books a charge is all or nothing: on success the amount is
      booked on both sides, otherwise neither moves; they agree again, and no
      budget is overspent. */
  lemma ChargeKeepsAgreement(mem: Memory, rows: map<string, BudgetRow>, id: string, amount: real, fails: bool)
    requires Agree(mem, rows) && WithinBudget(mem) && amount >= 0.0
    ensures var mem', rows' := ChargeMem(mem, rows, id, amount, fails), ChargeRows(mem, rows, id, amount, fails);
            && Agree(mem', rows') && WithinBudget(mem')
            && (if ChargeSucceeds(mem, rows, id, amount, fails)
                then id in rows && rows' == rows[id := rows[id].(spent := rows[id].spent + amount)] && Spent(mem', id) == Spent(mem, id) + amount
                else mem' == mem && rows' == rows)
  {
  }

  /** The boolean that the tracker drops is false without an error exactly when
      memory has room that the table does not have ... */
  lemma SilentRefusal(mem: Memory, rows: map<string, BudgetRow>, id: string, amount: real)
    requires id in mem.budgets && id in rows
    ensures ChargeSucceeds(mem, rows, id, amount, false) && DbReplyTo(rows, id, amount, false).Refused? <==>
            rows[id].total - rows[id].spent < amount <= mem.budgets[id] - Spent(mem, id)
    ensures AgreeOn(mem, rows, id) ==> !(ChargeSucceeds(mem, rows, id, amount, false) && DbReplyTo(rows, id, amount, false).Refused?)
  {
  }

  /** ... which a budget update brings about: it resets the memory's spent but
      not the table's, so agreement survives it exactly when nothing was spent. */
  lemma BudgetUpdateAgreesIffUnspent(mem: Memory, rows: map<string, BudgetRow>, id: string, total: real, cur: string)
    requires Agree(mem, rows) && id in rows
    ensures Agree(AfterSet(mem, id, total, cur), rows[id := rows[id].(total := total)]) <==> rows[id].spent == 0.0
  {
    var mem', rows' := AfterSet(mem, id, total, cur), rows[id := rows[id].(total := total)];
    assert AgreeOn(mem', rows', id) <==> rows[id].spent == 0.0;
    forall k | k in mem'.budgets && k in rows' && k != id ensures AgreeOn(mem', rows', k) {
      assert AgreeOn(mem, rows, k);
    }
  }

  /** Loading the table from scratch restores agreement. */
  lemma {:induction false} LoadAgrees(mem: Memory, rows: map<string, BudgetRow>, ids: seq<string>, unreadable: set<string>)
    requires Agree(mem, rows)
    ensures Agree(Loaded(mem, rows, ids, unreadable), rows)
    ensures forall id :: id in ids && id in rows && id !in unreadable ==>
              id in Loaded(mem, rows, ids, unreadable).budgets
  {
    if ids != [] {
      var before := Loaded(mem, rows, ids[..|ids| - 1], unreadable);
      LoadAgrees(mem, rows, ids[..|ids| - 1], unreadable);
      var after := Loaded(mem, rows, ids, unreadable);
      forall k | k in after.budgets && k in rows ensures AgreeOn(after, rows, k) {
        if k in before.budgets {
          assert AgreeOn(before, rows, k);
        }
      }
    }
  }
}
