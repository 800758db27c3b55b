/** Where the money went: budgets against the charges made on them, on every
    run of the settlement machine (which has no budget updates). */
module Conservation {
  import opened Billing
  import opened Settlement
  import opened Wrappers

  // ----- what is owed -----

  /** Who owes an entry, and how much, by the record of its auction. */
  function Debtor(e: Entry, log: AuctionLog): string {
    if e.Fee? then e.position else if e.auction in log.rows then log.rows[e.auction].winner else ""
  }

  function Due(e: Entry, log: AuctionLog): real {
    if e.Fee? then e.amount else if e.auction in log.rows then log.rows[e.auction].payment else 0.0
  }

  /** What an action adds to a key: the recorded payment of a settled click, or
      a relocation fee, of a debtor who was then registered under that key. */
  function OwedFor(tracked: bool, rest: seq<Action>, act: Action, key: string): real {
    var s := Run(Init(tracked), rest);
    var e := NewEntry(s, act);
    if e.Some? && KeyGiven(tracked, rest, Debtor(e.value, s.log)) == Some(key) then Due(e.value, s.log) else 0.0
  }

  /** What has become due under a key since it was last registered. */
  function Owed(tracked: bool, actions: seq<Action>, key: string): real {
    if actions == [] || KeyGiven(tracked, actions, key).None? then 0.0
    else
      var rest, last := actions[..|actions| - 1], actions[|actions| - 1];
      Owed(tracked, rest, key) + OwedFor(tracked, rest, last, key)
  }

  // ----- one account -----

  predicate InRange(spent: real, total: real) {
    0.0 <= spent <= total
  }

  /** sum is what was spent under a key, in memory and in the table. */
  ghost predicate Accounted(b: Books, dir: Directory, key: string, sum: real) {
    && (key in b.mem.budgets ==> Spent(b.mem, key) == sum && InRange(sum, b.mem.budgets[key]))
    && (key in b.rows ==> b.rows[key].spent == sum && InRange(sum, b.rows[key].total))
    && (key in b.mem.budgets && key in b.rows ==> b.mem.budgets[key] == b.rows[key].total)
    && (key in dir.awaiting ==> sum == 0.0 && key !in b.mem.budgets && dir.awaiting[key] >= 0.0
                                && (key in b.rows ==> b.rows[key].total == dir.awaiting[key]))
    && (key !in dir.issued ==> sum == 0.0 && key !in b.mem.budgets && key !in b.rows && key !in dir.awaiting)
  }

  /** What a charge adds to the sum of a key. */
  function Added(b: Books, e: Entry, fails: bool, key: string): real {
    if e.key == key && Succeeds(b, e.key, e.amount, fails) then e.amount else 0.0
  }

  /** A charge on an accounted key leaves that key accounted ... */
  lemma BookKeepsOwnAccount(b: Books, dir: Directory, e: Entry, fails: bool, sum: real)
    requires Accounted(b, dir, e.key, sum) && e.amount > 0.0
    ensures Accounted(Book(b, e, fails), dir, e.key, sum + Added(b, e, fails, e.key))
  {
  }

  /** One key has the same budget and row in both books. */
  predicate SameAccount(b: Books, c: Books, key: string) {
    && (key in b.mem.budgets <==> key in c.mem.budgets) && (key in b.mem.budgets ==> b.mem.budgets[key] == c.mem.budgets[key])
    && Spent(b.mem, key) == Spent(c.mem, key)
    && (key in b.rows <==> key in c.rows) && (key in b.rows ==> b.rows[key] == c.rows[key])
  }

  /** ... and every other key as it was. */
  lemma BookKeepsOtherAccounts(b: Books, e: Entry, fails: bool, key: string)
    requires key != e.key
    ensures SameAccount(b, Book(b, e, fails), key)
  {
  }

  lemma SameAccountAccounted(b: Books, c: Books, dir: Directory, key: string, sum: real)
    requires SameAccount(b, c, key) && Accounted(b, dir, key, sum)
    ensures Accounted(c, dir, key, sum)
  {
  }

  lemma BookKeepsAccount(b: Books, dir: Directory, e: Entry, fails: bool, key: string, sum: real)
    requires Accounted(b, dir, key, sum) && e.amount > 0.0
    ensures Accounted(Book(b, e, fails), dir, key, sum + Added(b, e, fails, key))
  {
    if key == e.key {
      BookKeepsOwnAccount(b, dir, e, fails, sum);
    } else {
      BookKeepsOtherAccounts(b, e, fails, key);
      SameAccountAccounted(b, Book(b, e, fails), dir, key, sum);
    }
  }

  // ----- every step -----

  /** What an action adds to the sum of a key. */
  function Gained(s: State, act: Action, key: string): real {
    var e := NewEntry(s, act);
    if e.Some? && e.value.key == key then e.value.amount else 0.0
  }

  lemma RestartKeepsAccount(s: State, listing: seq<string>, unreadable: set<string>, freed: set<string>, key: string, sum: real)
    requires Accounted(s.books, s.dir, key, sum)
    ensures var s' := Restarted(s, listing, unreadable, freed);
            Accounted(s'.books, s'.dir, key, if key in s'.dir.issued then sum else 0.0)
  {
    LoadedFromRows(s.books.rows, listing, unreadable, key);
  }

  lemma AttemptKeepsAccount(s: State, act: Action, key: string, sum: real)
    requires Accounted(s.books, s.dir, key, sum) && Attempt(s, act).Some? && Attempt(s, act).value.amount > 0.0
    ensures Accounted(Book(s.books, Attempt(s, act).value, act.fails), s.dir, key, sum + Gained(s, act, key))
  {
    BookKeepsAccount(s.books, s.dir, Attempt(s, act).value, act.fails, key, sum);
  }

  /** Only attempts move the books of requests, and nothing their directory. */
  lemma RequestsOnlyAttempt(s: State, act: Action)
    requires OfRequests(act)
    ensures Next(s, act).dir == s.dir
    ensures Next(s, act).books == if Attempt(s, act).Some? then Book(s.books, Attempt(s, act).value, act.fails) else s.books
  {
  }

  lemma RequestKeepsAccount(s: State, act: Action, key: string, sum: real)
    requires Genuine(s) && Accounted(s.books, s.dir, key, sum) && OfRequests(act)
    ensures Accounted(Next(s, act).books, Next(s, act).dir, key, sum + Gained(s, act, key))
  {
    RequestsOnlyAttempt(s, act);
    if Attempt(s, act).Some? {
      assert Faithful(s.desk.threads[act.tid], s.log);
      AttemptKeepsAccount(s, act, key, sum);
    }
  }

  lemma WorldKeepsAccount(s: State, act: Action, key: string, sum: real)
    requires Accounted(s.books, s.dir, key, sum) && !OfRequests(act) && !act.Restart?
    ensures Accounted(World(s, act).books, World(s, act).dir, key, sum + Gained(s, act, key))
  {
    if Attempt(s, act).Some? {
      AttemptKeepsAccount(s, act, key, sum);
    }
  }

  lemma StepKeepsAccount(s: State, act: Action, key: string, sum: real)
    requires Genuine(s) && Accounted(s.books, s.dir, key, sum)
    ensures var s' := Next(s, act);
            Accounted(s'.books, s'.dir, key, if key in s'.dir.issued then sum + Gained(s, act, key) else 0.0)
  {
    if act.Restart? {
      RestartKeepsAccount(s, act.listing, act.unreadable, act.freed, key, sum);
    } else if OfRequests(act) {
      RequestKeepsAccount(s, act, key, sum);
    } else {
      WorldKeepsAccount(s, act, key, sum);
    }
  }

  /** What an action adds is what it makes due. */
  lemma GainIsOwed(tracked: bool, rest: seq<Action>, act: Action, key: string)
    ensures Gained(Run(Init(tracked), rest), act, key) == OwedFor(tracked, rest, act, key)
  {
    var s := Run(Init(tracked), rest);
    var e := NewEntry(s, act);
    if e.Some? {
      RunIsGenuine(tracked, rest);
      RunIsRooted(tracked, rest);
      NewEntryIsProper(s, act);
      IssuedIsGiven(tracked, rest, Owner(e.value));
    }
  }

  lemma {:induction false} RunIsAccounted(tracked: bool, actions: seq<Action>, key: string)
    ensures var s := Run(Init(tracked), actions); Accounted(s.books, s.dir, key, Owed(tracked, actions, key))
  {
    if actions != [] {
      var rest, last := actions[..|actions| - 1], actions[|actions| - 1];
      RunIsAccounted(tracked, rest, key);
      RunIsGenuine(tracked, rest);
      StepKeepsAccount(Run(Init(tracked), rest), last, key, Owed(tracked, rest, key));
      GainIsOwed(tracked, rest, last, key);
      IssuedIsGiven(tracked, actions, key);
    }
  }

  /** After every step of every run, whatever database calls failed and whenever
      the server restarted: a budget's spent is the sum, since its key was last
      registered, of the recorded payments of the settled clicks whose winners
      were registered under the key, and of the relocation fees of such
      positions; it lies between zero and the total, and memory and table agree. */
  lemma BudgetsAreConserved(tracked: bool, actions: seq<Action>, key: string)
    ensures var s := Run(Init(tracked), actions);
            && (key in s.books.mem.budgets ==>
                  Spent(s.books.mem, key) == Owed(tracked, actions, key)
                  && 0.0 <= Spent(s.books.mem, key) <= s.books.mem.budgets[key])
            && Agree(s.books.mem, s.books.rows)
  {
    var s := Run(Init(tracked), actions);
    RunIsAccounted(tracked, actions, key);
    forall k | k in s.books.mem.budgets && k in s.books.rows ensures AgreeOn(s.books.mem, s.books.rows, k) {
      RunIsAccounted(tracked, actions, k);
    }
  }

  /** The boolean that the tracker drops therefore never hides a refusal. */
  lemma NoSilentRefusal(tracked: bool, actions: seq<Action>, key: string, amount: real)
    ensures var b := Run(Init(tracked), actions).books;
            !(ChargeSucceeds(b.mem, b.rows, key, amount, false) && DbReplyTo(b.rows, key, amount, false).Refused?)
  {
    BudgetsAreConserved(tracked, actions, key);
    var b := Run(Init(tracked), actions).books;
    if key in b.mem.budgets && key in b.rows {
      SilentRefusal(b.mem, b.rows, key, amount);
    }
  }
}
