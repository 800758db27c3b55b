/** The click handlers run alone (handler/events.go), and how one of their runs
    appears among the interleaved steps of the settlement machine. */
module Clicks {
  import opened Billing
  import opened Positions
  import opened Settlement
  import opened Wrappers

  /** Which database calls of one settlement fail. */
  datatype Faults = Faults(check: bool, payment: bool, lookup: bool, charge: bool, insert: bool)

  datatype Settled = Settled(status: nat, clicks: seq<nat>, books: Books)

  function Logged(clicks: seq<nat>, books: Books, a: nat, fails: bool): Settled {
    if fails then Settled(500, clicks, books) else Settled(200, clicks + [a], books)
  }

  /** A tracked, unclicked auction whose payment could be read and is positive. */
  predicate Chargeable(tracked: bool, clicks: seq<nat>, log: AuctionLog, a: nat, f: Faults) {
    tracked && !f.check && !f.payment && a !in clicks && Payable(log, a)
  }

  /** The click charge of an auction. */
  function Charge(dir: Directory, log: AuctionLog, a: nat, w: string, f: Faults): Entry
    requires Payable(log, a)
  {
    Click(a, w, ResolveKey(dir, w, f.lookup), log.rows[a].payment)
  }

  /** Check, charge, log. */
  function Settle(tracked: bool, clicks: seq<nat>, books: Books, dir: Directory, log: AuctionLog, a: nat, w: string, f: Faults): Settled {
    if !Chargeable(tracked, clicks, log, a, f) then Logged(clicks, books, a, f.insert)
    else
      var entry := Charge(dir, log, a, w, f);
      if Succeeds(books, entry.key, entry.amount, f.charge)
      then Logged(clicks, Book(books, entry, f.charge), a, f.insert)
      else Settled(402, clicks, books)
  }

  // ----- one request of the machine, uninterrupted -----

  lemma RunAppend(s: State, actions: seq<Action>, act: Action)
    ensures Run(s, actions + [act]) == Next(Run(s, actions), act)
  {
    assert (actions + [act])[..|actions|] == actions;
  }

  /** s has advanced request tid to p, and moved nothing but the desk. */
  predicate Reached(s: State, actions: seq<Action>, tid: nat, p: Progress, clicks: seq<nat>, books: Books) {
    var t := Run(s, actions);
    && tid in t.desk.threads && t.desk.threads[tid] == p
    && t.desk.clicks == clicks && t.books == books && t.log == s.log && t.dir == s.dir && t.tracked == s.tracked
  }

  predicate AllSteps(actions: seq<Action>, tid: nat) {
    forall i :: 0 <= i < |actions| ==> actions[i].Step? && actions[i].tid == tid
  }

  lemma Advance(s: State, actions: seq<Action>, tid: nat, fails: bool, p: Progress, clicks: seq<nat>, books: Books) returns (next: seq<Action>)
    requires AllSteps(actions, tid) && Reached(s, actions, tid, p, clicks, books)
    ensures AllSteps(next, tid) && next == actions + [Step(tid, fails)]
    ensures Run(s, next) == StepThread(Run(s, actions), tid, fails)
  {
    next := actions + [Step(tid, fails)];
    RunAppend(s, actions, Step(tid, fails));
  }

  /** From the mutex to the charge. */
  lemma RunToCharge(s: State, tid: nat, a: nat, w: string, f: Faults) returns (actions: seq<Action>)
    requires s.desk.lock.None? && tid in s.desk.threads && s.desk.threads[tid] == Waiting(a, w)
    requires Chargeable(s.tracked, s.desk.clicks, s.log, a, f)
    ensures AllSteps(actions, tid)
    ensures Reached(s, actions, tid, Keyed(a, w, s.log.rows[a].payment, ResolveKey(s.dir, w, f.lookup)), s.desk.clicks, s.books)
  {
    actions := Advance(s, [], tid, false, Waiting(a, w), s.desk.clicks, s.books);
    actions := Advance(s, actions, tid, f.check, Checking(a, w), s.desk.clicks, s.books);
    actions := Advance(s, actions, tid, f.payment, Unclicked(a, w), s.desk.clicks, s.books);
    actions := Advance(s, actions, tid, f.lookup, Due(a, w, s.log.rows[a].payment), s.desk.clicks, s.books);
  }

  /** From the mutex to the click log, past a charge that is not made. */
  lemma RunToLog(s: State, tid: nat, a: nat, w: string, f: Faults) returns (actions: seq<Action>)
    requires s.desk.lock.None? && tid in s.desk.threads && s.desk.threads[tid] == Waiting(a, w)
    requires !Chargeable(s.tracked, s.desk.clicks, s.log, a, f)
    ensures AllSteps(actions, tid)
    ensures Reached(s, actions, tid, Logging(a, w, false), s.desk.clicks, s.books)
  {
    actions := Advance(s, [], tid, false, Waiting(a, w), s.desk.clicks, s.books);
    actions := Advance(s, actions, tid, f.check, Checking(a, w), s.desk.clicks, s.books);
    if !f.check && a !in s.desk.clicks {
      actions := Advance(s, actions, tid, f.payment, Unclicked(a, w), s.desk.clicks, s.books);
      if !f.payment && Payable(s.log, a) {
        actions := Advance(s, actions, tid, f.lookup, Due(a, w, s.log.rows[a].payment), s.desk.clicks, s.books);
      }
    }
  }

  /** A request that holds the mutex without interruption does what the
      sequential settlement does: same response, same click log, same books. */
  lemma UninterruptedRunSettles(s: State, tid: nat, a: nat, w: string, f: Faults) returns (actions: seq<Action>)
    requires s.desk.lock.None? && tid in s.desk.threads && s.desk.threads[tid] == Waiting(a, w)
    ensures AllSteps(actions, tid)
    ensures var r := Settle(s.tracked, s.desk.clicks, s.books, s.dir, s.log, a, w, f);
            Reached(s, actions, tid, Finished(r.status), r.clicks, r.books)
  {
    var books := s.books;
    if Chargeable(s.tracked, s.desk.clicks, s.log, a, f) {
      actions := RunToCharge(s, tid, a, w, f);
      var key, payment := ResolveKey(s.dir, w, f.lookup), s.log.rows[a].payment;
      actions := Advance(s, actions, tid, f.charge, Keyed(a, w, payment, key), s.desk.clicks, s.books);
      if Succeeds(s.books, key, payment, f.charge) {
        books := Book(s.books, Click(a, w, key, payment), f.charge);
        actions := Advance(s, actions, tid, f.insert, Logging(a, w, true), s.desk.clicks, books);
      }
    } else {
      actions := RunToLog(s, tid, a, w, f);
      actions := Advance(s, actions, tid, f.insert, Logging(a, w, false), s.desk.clicks, books);
    }
  }

  // ----- what a click is answered -----

  /** The click is charged: budgets are tracked, nothing was clicked yet, and a
      positive payment could be read. */
  predicate ShouldCharge(tracked: bool, clicks: seq<nat>, log: AuctionLog, a: nat, f: Faults) {
    tracked && !(f.check || f.payment || a in clicks) && a in log.rows && log.rows[a].payment > 0.0
  }

  /** The charge goes through: the budget has room and the table's row is there. */
  predicate CanCharge(books: Books, key: string, amount: real, fails: bool) {
    HasRoom(books.mem, key, amount) && !fails && key in books.rows
  }

  /** The answer to a click whose charge, if it is due, goes to this key: 402,
      nothing logged and nothing moved if the charge is due and cannot be made;
      otherwise the click is logged, unless that fails, and a due charge made. */
  predicate AnsweredFor(r: Settled, tracked: bool, clicks: seq<nat>, books: Books, log: AuctionLog, a: nat, w: string, f: Faults, key: string) {
    var due := ShouldCharge(tracked, clicks, log, a, f);
    if due && !CanCharge(books, key, log.rows[a].payment, f.charge) then r == Settled(402, clicks, books)
    else
      && (if f.insert then r.status == 500 && r.clicks == clicks else r.status == 200 && r.clicks == clicks + [a])
      && if due then Charged(r.books, books, Click(a, w, key, log.rows[a].payment)) else r.books == books
  }

  /** The books after a charge: spent in memory, and in the table if it has room. */
  predicate Charged(after: Books, books: Books, e: Entry)
    requires e.key in books.mem.budgets && e.key in books.rows
  {
    var already, row := if e.key in books.mem.spent then books.mem.spent[e.key] else 0.0, books.rows[e.key];
    && after.mem == books.mem.(spent := books.mem.spent[e.key := already + e.amount])
    && after.rows == (if row.spent + e.amount <= row.total then books.rows[e.key := row.(spent := row.spent + e.amount)] else books.rows)
    && after.charges == books.charges + [e]
  }

  lemma SettlementIsAnswered(tracked: bool, clicks: seq<nat>, books: Books, dir: Directory, log: AuctionLog, a: nat, w: string, f: Faults)
    ensures AnsweredFor(Settle(tracked, clicks, books, dir, log, a, w, f), tracked, clicks, books, log, a, w, f, ResolveKey(dir, w, f.lookup))
  {
  }

  /** On every run, a click on an auction whose winner is in the registry, or
      has a row that can be read, is settled on the budget under which the
      winner's ID was registered last: refused exactly if a charge is due that
      this budget has no room for, or that the table fails. */
  lemma ClickIsSettledOnRegisteredBudget(tracked: bool, actions: seq<Action>, a: nat, w: string, f: Faults)
    requires var dir := Run(Init(tracked), actions).dir; w in dir.registry || (!f.lookup && w in dir.stored)
    ensures KeyGiven(tracked, actions, w).Some?
    ensures var s, key := Run(Init(tracked), actions), KeyGiven(tracked, actions, w).value;
            AnsweredFor(Settle(tracked, s.desk.clicks, s.books, s.dir, s.log, a, w, f),
                        tracked, s.desk.clicks, s.books, s.log, a, w, f, key)
  {
    var s := Run(Init(tracked), actions);
    RunIsRooted(tracked, actions);
    IssuedIsGiven(tracked, actions, w);
    SettlementIsAnswered(tracked, s.desk.clicks, s.books, s.dir, s.log, a, w, f);
  }

  // ----- what failures cost -----

  /** An accepted first click on a payable auction is charged exactly when
      budgets are tracked and both the click check and the payment could be read. */
  lemma AcceptedClickIsChargedIffRead(tracked: bool, clicks: seq<nat>, books: Books, dir: Directory, log: AuctionLog, a: nat, w: string, f: Faults)
    requires a !in clicks && Payable(log, a)
    requires Settle(tracked, clicks, books, dir, log, a, w, f).status == 200
    ensures ChargesOf(Settle(tracked, clicks, books, dir, log, a, w, f).books.charges, a) ==
            ChargesOf(books.charges, a) + if tracked && !f.check && !f.payment then 1 else 0
  {
    if Chargeable(tracked, clicks, log, a, f) {
      ChargesAppend(books.charges, Charge(dir, log, a, w, f), a);
    }
  }

  const NO_FAULTS := Faults(false, false, false, false, false)

  /** One click whose only possible fault is its insert. */
  function ClickOnce(clicks: seq<nat>, books: Books, dir: Directory, log: AuctionLog, a: nat, w: string, lost: bool): Settled {
    Settle(true, clicks, books, dir, log, a, w, NO_FAULTS.(insert := lost))
  }

  /** Once an auction was charged, the next faultless click charges it again
      exactly if the first click's insert was lost and memory still has room
      for twice the payment, whatever the table says. */
  lemma ChargedAgainIffLost(clicks: seq<nat>, books: Books, dir: Directory, log: AuctionLog, a: nat, w: string, lost: bool)
    requires a !in clicks && Payable(log, a)
    requires var e := Charge(dir, log, a, w, NO_FAULTS); Succeeds(books, e.key, e.amount, false)
    ensures var first := ClickOnce(clicks, books, dir, log, a, w, lost);
            var second := ClickOnce(first.clicks, first.books, dir, log, a, w, false);
            ChargesOf(second.books.charges, a) == ChargesOf(books.charges, a) + 2 <==>
            lost && Affords(books.mem, ResolveKey(dir, w, false), 2.0 * log.rows[a].payment)
  {
    var e := Charge(dir, log, a, w, NO_FAULTS);
    ChargesAppend(books.charges, e, a);
    ChargesAppend(books.charges + [e], e, a);
    SecondChargeNeedsRoom(books, e);
  }

  lemma SecondChargeNeedsRoom(books: Books, e: Entry)
    requires e.amount > 0.0 && Succeeds(books, e.key, e.amount, false)
    ensures Book(books, e, false).charges == books.charges + [e]
    ensures Succeeds(Book(books, e, false), e.key, e.amount, false) <==> Affords(books.mem, e.key, 2.0 * e.amount)
  {
  }

  // ----- the bound on charges is reached -----

  /** One auction, won by a position that holds a budget; n of its clicks were
      charged and lost, and everybody is done. */
  predicate LostSoFar(s: State, w: string, total: real, n: nat) {
    && w != "" && s.tracked && s.desk.lock.None? && s.desk.clicks == [] && |s.desk.lost| == n && Occurrences(s.desk.lost, 1) == n
    && (0 in s.desk.threads ==> s.desk.threads[0].Finished?)
    && s.log.rows == map[1 := AuctionRow(w, 1.0)]
    && w in s.dir.registry && s.dir.registry[w] == w
    && BudgetIs(s.books, w, total, n as real) && ChargesOf(s.books.charges, 1) == n
  }

  predicate BudgetIs(b: Books, w: string, total: real, spent: real) {
    && w in b.mem.budgets && b.mem.budgets[w] == total && Spent(b.mem, w) == spent
    && w in b.rows && b.rows[w].total == total && b.rows[w].spent == spent
  }

  function StartActions(w: string, total: real): seq<Action> {
    [] + [Register(w, w, total, false)] + [SetBudget(w, "")] + [LogAuction(w, 1.0, false)]
  }

  lemma StartIsReady(w: string, total: real)
    requires w != "" && total >= 0.0
    ensures LostSoFar(Run(Init(true), StartActions(w, total)), w, total, 0)
  {
    var first := [] + [Register(w, w, total, false)];
    RunAppend(Init(true), [], Register(w, w, total, false));
    RunAppend(Init(true), first, SetBudget(w, ""));
    RunAppend(Init(true), first + [SetBudget(w, "")], LogAuction(w, 1.0, false));
  }

  /** The state after a click request that is charged, just before its insert. */
  function BeforeInsert(s: State): State {
    Next(Next(Next(Next(Next(Next(s, BeginRedirect(0, 1, false)), Step(0, false)), Step(0, false)), Step(0, false)), Step(0, false)), Step(0, false))
  }

  predicate Inserting(s': State, s: State, w: string) {
    && s'.tracked && s'.desk.clicks == [] && s'.desk.lost == s.desk.lost
    && 0 in s'.desk.threads && s'.desk.threads[0] == Logging(1, w, true) && s'.log == s.log && s'.dir == s.dir
    && s'.books == Book(s.books, Click(1, w, w, 1.0), false)
  }

  lemma ClickReachesInsert(s: State, w: string, total: real, n: nat)
    requires LostSoFar(s, w, total, n) && total >= n as real + 1.0
    ensures Inserting(BeforeInsert(s), s, w)
  {
    var t := Next(s, BeginRedirect(0, 1, false));
    assert t.desk.threads[0] == Waiting(1, w) && t.desk.lock.None?;
    t := Next(t, Step(0, false));
    assert t.desk.threads[0] == Checking(1, w) && t.desk.clicks == [];
    t := Next(t, Step(0, false));
    assert t.desk.threads[0] == Unclicked(1, w);
    t := Next(t, Step(0, false));
    assert t.desk.threads[0] == Due(1, w, 1.0);
    t := Next(t, Step(0, false));
    assert t.desk.threads[0] == Keyed(1, w, 1.0, w);
  }

  lemma ChargeOfOne(b: Books, w: string, total: real, n: nat)
    requires BudgetIs(b, w, total, n as real) && ChargesOf(b.charges, 1) == n && total >= n as real + 1.0
    ensures var b' := Book(b, Click(1, w, w, 1.0), false);
            BudgetIs(b', w, total, (n + 1) as real) && ChargesOf(b'.charges, 1) == n + 1
  {
    ChargesAppend(b.charges, Click(1, w, w, 1.0), 1);
  }

  /** One more click is charged and lost, or logged. */
  lemma OneMoreClick(s: State, w: string, total: real, n: nat, lost: bool)
    requires LostSoFar(s, w, total, n) && total >= n as real + 1.0
    ensures var s' := Next(BeforeInsert(s), Step(0, lost));
            && ChargesOf(s'.books.charges, 1) == n + 1
            && (lost ==> LostSoFar(s', w, total, n + 1))
            && (!lost ==> s'.desk.lost == s.desk.lost) && s'.log == s.log
  {
    ClickReachesInsert(s, w, total, n);
    ChargeOfOne(s.books, w, total, n);
    OccurrencesAppend(s.desk.lost, 1, 1);
  }

  function ClickActions(actions: seq<Action>, lost: bool): seq<Action> {
    actions + [BeginRedirect(0, 1, false)] + [Step(0, false)] + [Step(0, false)] + [Step(0, false)] + [Step(0, false)] + [Step(0, false)] + [Step(0, lost)]
  }

  lemma RunOfClick(actions: seq<Action>, lost: bool)
    ensures Run(Init(true), ClickActions(actions, lost)) == Next(BeforeInsert(Run(Init(true), actions)), Step(0, lost))
  {
    var s := Init(true);
    RunAppend(s, actions, BeginRedirect(0, 1, false));
    var x := actions + [BeginRedirect(0, 1, false)];
    FiveSteps(x);
    RunAppend(s, x + [Step(0, false)] + [Step(0, false)] + [Step(0, false)] + [Step(0, false)] + [Step(0, false)], Step(0, lost));
  }

  lemma FiveSteps(x: seq<Action>)
    ensures Run(Init(true), x + [Step(0, false)] + [Step(0, false)] + [Step(0, false)] + [Step(0, false)] + [Step(0, false)]) ==
            Next(Next(Next(Next(Next(Run(Init(true), x), Step(0, false)), Step(0, false)), Step(0, false)), Step(0, false)), Step(0, false))
  {
    var s, e := Init(true), Step(0, false);
    RunAppend(s, x, e);
    RunAppend(s, x + [e], e);
    RunAppend(s, x + [e] + [e], e);
    RunAppend(s, x + [e] + [e] + [e], e);
    RunAppend(s, x + [e] + [e] + [e] + [e], e);
  }

  lemma {:induction false} LostClicks(w: string, total: real, n: nat) returns (actions: seq<Action>)
    requires w != "" && total >= n as real
    ensures LostSoFar(Run(Init(true), actions), w, total, n)
  {
    if n == 0 {
      StartIsReady(w, total);
      actions := StartActions(w, total);
    } else {
      actions := LostClicks(w, total, n - 1);
      OneMoreClick(Run(Init(true), actions), w, total, n - 1, true);
      RunOfClick(actions, true);
      actions := ClickActions(actions, true);
    }
  }

  /** The bound on charges is sharp for every number of losses: some run charges
      an auction n + 1 times while n of its attempts lost their click. */
  lemma ChargeBoundIsReached(n: nat) returns (actions: seq<Action>)
    ensures var s := Run(Init(true), actions);
            Occurrences(s.desk.lost, 1) == n && ChargesOf(s.books.charges, 1) == n + 1
  {
    actions := LostClicks("adv-1", (n + 1) as real, n);
    OneMoreClick(Run(Init(true), actions), "adv-1", (n + 1) as real, n, false);
    RunOfClick(actions, false);
    actions := ClickActions(actions, false);
  }

  // ----- an ID issued again -----

  /** w wins an auction and is deleted, the server restarts ... */
  function DeletedActions(w: string, total: real): seq<Action> {
    StartActions(w, total) + [Unregister(w, false)] + [DropBudget(w)] + [Restart([], {}, {w})]
  }

  /** ... and another position is registered under the ID of w. */
  function ReissueActions(w: string, total: real): seq<Action> {
    DeletedActions(w, total) + [Register(w, w, total, false)] + [SetBudget(w, "")]
  }

  predicate Vacant(s: State, w: string) {
    && s.tracked && s.desk == Desk(None, map[], [], []) && s.log.rows == map[1 := AuctionRow(w, 1.0)]
    && s.books.charges == [] && w !in s.dir.issued
  }

  lemma DeletedIsVacant(w: string, total: real)
    requires w != "" && total >= 0.0
    ensures Vacant(Run(Init(true), DeletedActions(w, total)), w)
  {
    var s, actions := Init(true), StartActions(w, total);
    StartIsReady(w, total);
    StartHasNoCharges(w, total);
    RunAppend(s, actions, Unregister(w, false));
    RunAppend(s, actions + [Unregister(w, false)], DropBudget(w));
    RunAppend(s, actions + [Unregister(w, false)] + [DropBudget(w)], Restart([], {}, {w}));
  }

  lemma StartHasNoCharges(w: string, total: real)
    ensures var s := Run(Init(true), StartActions(w, total));
            s.books.charges == [] && s.dir.stored.Keys <= {w} && s.books.rows.Keys <= {w}
  {
    var first := [] + [Register(w, w, total, false)];
    RunAppend(Init(true), [], Register(w, w, total, false));
    RunAppend(Init(true), first, SetBudget(w, ""));
    RunAppend(Init(true), first + [SetBudget(w, "")], LogAuction(w, 1.0, false));
  }

  lemma VacancyIsFilled(s: State, w: string, total: real)
    requires w != "" && total >= 0.0 && Vacant(s, w)
    ensures LostSoFar(Next(Next(s, Register(w, w, total, false)), SetBudget(w, "")), w, total, 0)
  {
  }

  /** The first click on that old auction then charges the new position. */
  lemma ReissuedIdIsCharged(w: string, total: real)
    requires w != "" && total >= 1.0
    ensures var s := Run(Init(true), ReissueActions(w, total));
            var charged := Run(Init(true), ClickActions(ReissueActions(w, total), false));
            charged.log == s.log && ChargesOf(s.books.charges, 1) == 0 && ChargesOf(charged.books.charges, 1) == 1
  {
    var s, actions := Init(true), DeletedActions(w, total);
    DeletedIsVacant(w, total);
    RunAppend(s, actions, Register(w, w, total, false));
    RunAppend(s, actions + [Register(w, w, total, false)], SetBudget(w, ""));
    VacancyIsFilled(Run(s, actions), w, total);
    OneMoreClick(Run(s, ReissueActions(w, total)), w, total, 0, false);
    RunOfClick(ReissueActions(w, total), false);
  }

  // ----- the handler -----

  /** A response status, with the address of a redirect. */
  datatype Reply = Reply(status: nat, location: Option<string>)

  class EventHandler {
    var auctions: map<nat, AuctionRow>
    var clicks: seq<nat>
    var registry: map<string, Position>
    var stored: map<string, Position>
    const budgets: BudgetTracker?
    const db: DB

    constructor (budgets: BudgetTracker?, db: DB)
      ensures this.budgets == budgets && this.db == db
      ensures auctions == map[] && clicks == [] && registry == map[] && stored == map[]
    {
      this.budgets, this.db := budgets, db;
      auctions, clicks, registry, stored := map[], [], map[], map[];
    }

    ghost predicate Valid()
      reads this, budgets
    {
      budgets != null ==> budgets.db == db && Coherent(budgets.Mem())
    }

    ghost function Log(): AuctionLog
      reads this
    {
      AuctionLog(auctions, 0)
    }

    ghost function Dir(): Directory
      reads this
    {
      Directory(Keys(registry), Keys(stored), map[], map[])
    }

    /** The books, with the charges of earlier clicks, a history that the code does not keep. */
    ghost function BooksWith(charges: seq<Entry>): Books
      reads this, budgets, db
    {
      Books(if budgets != null then budgets.Mem() else Memory(map[], map[], map[]), db.budgets, charges)
    }

    /** The budget of the position by that ID in the registry, or else in the
        table, or else of the ID itself. */
    method KeyOf(advertiserId: string, fails: bool) returns (key: string)
      ensures key == ResolveKey(Dir(), advertiserId, fails)
      ensures advertiserId in registry ==> Pays(registry[advertiserId], key)
      ensures advertiserId !in registry && !fails && advertiserId in stored ==> Pays(stored[advertiserId], key)
      ensures advertiserId !in registry && (fails || advertiserId !in stored) ==> key == advertiserId
    {
      if advertiserId in registry {
        return BudgetKey(registry[advertiserId]);
      }
      if !fails && advertiserId in stored {
        return BudgetKey(stored[advertiserId]);
      }
      return advertiserId;
    }

    ghost predicate SettledAs(r: Settled, status: nat, charges: seq<Entry>)
      reads this, budgets, db
    {
      status == r.status && clicks == r.clicks
      && BooksWith(charges).mem == r.books.mem && BooksWith(charges).rows == r.books.rows
    }

    method SettleClick(auction: nat, winner: string, f: Faults, ghost charges: seq<Entry>) returns (status: nat)
      requires Valid()
      modifies this`clicks, budgets, db
      ensures Valid()
      ensures SettledAs(Settle(budgets != null, old(clicks), old(BooksWith(charges)), old(Dir()), old(Log()), auction, winner, f), status, charges)
    {
      if !f.check && auction !in clicks {
        if !f.payment && auction in auctions && auctions[auction].payment > 0.0 {
          if budgets != null {
            var key := KeyOf(winner, f.lookup);
            var ok := budgets.Charge(key, auctions[auction].payment, f.charge);
            if !ok {
              return 402;
            }
          }
        }
      }
      if f.insert {
        return 500;
      }
      clicks := clicks + [auction];
      return 200;
    }

    /** The click must name the recorded winner of an existing auction. */
    method HandleClick(auction: int, advertiser: string, unread: bool, f: Faults, ghost charges: seq<Entry>) returns (status: nat)
      requires Valid()
      modifies this`clicks, budgets, db
      ensures Valid()
      ensures if auction > 0 && !unread && auction in old(auctions) && advertiser != "" && old(auctions[auction]).winner == advertiser
              then SettledAs(Settle(budgets != null, old(clicks), old(BooksWith(charges)), old(Dir()), old(Log()), auction, advertiser, f), status, charges)
              else SettledAs(Settled(400, old(clicks), old(BooksWith(charges))), status, charges)
    {
      if advertiser == "" || auction <= 0 || unread || auction !in auctions || auctions[auction].winner != advertiser {
        return 400;
      }
      status := SettleClick(auction, advertiser, f, charges);
    }

    /** The redirect charges the recorded winner, whoever asks, and sends a
        settled click on to the winner's address if the registry knows one. */
    method HandleClickRedirect(auction: int, unread: bool, f: Faults, ghost charges: seq<Entry>) returns (reply: Reply)
      requires Valid()
      modifies this`clicks, budgets, db
      ensures Valid()
      ensures if auction > 0 && !unread && auction in old(auctions) && old(auctions[auction]).winner != ""
              then
                var w := old(auctions[auction]).winner;
                var r := Settle(budgets != null, old(clicks), old(BooksWith(charges)), old(Dir()), old(Log()), auction, w, f);
                && SettledAs(r, r.status, charges)
                && reply == (if r.status == 200 && w in old(registry) && old(registry)[w].url != ""
                             then Reply(302, Some(old(registry)[w].url)) else Reply(r.status, None))
              else
                SettledAs(Settled(0, old(clicks), old(BooksWith(charges))), 0, charges)
                && reply == Reply(if auction <= 0 then 400 else 404, None)
    {
      if auction <= 0 {
        return Reply(400, None);
      }
      if unread || auction !in auctions || auctions[auction].winner == "" {
        return Reply(404, None);
      }
      var winner := auctions[auction].winner;
      var status := SettleClick(auction, winner, f, charges);
      if status != 200 {
        return Reply(status, None);
      }
      if winner in registry && registry[winner].url != "" {
        return Reply(302, Some(registry[winner].url));
      }
      return Reply(200, None);
    }
  }

  /** The position spends the budget under this key. */
  predicate Pays(p: Position, key: string) {
    if p.budgetId == "" then key == p.id else key == p.budgetId
  }

  function Keys(positions: map<string, Position>): map<string, string> {
    map id | id in positions :: BudgetKey(positions[id])
  }
}
