/** Click settlement as interleaved steps (handler/events.go).

    Each action is one atomic step of one request, or of another part of the
    server that moves money: a database call that may fail, a budget charge
    (atomic under the tracker's own mutex), or taking the settlement mutex.
    A restart cuts off whatever is under way and loads the tables again.
    charges, lost and issued record the history that the claims are about. */
module Settlement {
  import opened Wrappers
  import opened Billing

  datatype AuctionRow = AuctionRow(winner: string, payment: real)

  /** Money that left a budget: a settled click, or a relocation fee. */
  datatype Entry =
    | Click(auction: nat, winner: string, key: string, amount: real)
    | Fee(position: string, key: string, amount: real)

  /** Where a click or redirect request stands. */
  datatype Progress =
    | Waiting(auction: nat, winner: string)
    | Checking(auction: nat, winner: string)
    | Unclicked(auction: nat, winner: string)
    | Due(auction: nat, winner: string, payment: real)
    | Keyed(auction: nat, winner: string, payment: real, key: string)
    | Logging(auction: nat, winner: string, charged: bool)
    | Finished(status: nat)

  /** The settlement mutex, the requests, the click events, and the auctions of
      the attempts that charged and then did not get to log their click. */
  datatype Desk = Desk(lock: Option<nat>, threads: map<nat, Progress>, clicks: seq<nat>, lost: seq<nat>)

  /** The budgets in memory and in the table, and every charge made on them. */
  datatype Books = Books(mem: Memory, rows: map<string, BudgetRow>, charges: seq<Entry>)

  /** Position IDs with their budget keys, in the registry and in the table;
      heads whose budget is not in memory yet; every ID issued and not free to
      be issued again, with the key it was registered under. */
  datatype Directory = Directory(registry: map<string, string>, stored: map<string, string>,
                                 awaiting: map<string, real>, issued: map<string, string>)

  /** The auctions table with its autoincrement counter. */
  datatype AuctionLog = AuctionLog(rows: map<nat, AuctionRow>, next: nat)

  /** tracked says whether the handler was given a budget tracker at all. */
  datatype State = State(desk: Desk, books: Books, dir: Directory, log: AuctionLog, tracked: bool)

  datatype Action =
    | BeginClick(tid: nat, auction: nat, advertiser: string, fails: bool)
    | BeginRedirect(tid: nat, auction: nat, fails: bool)
    | Step(tid: nat, fails: bool)
    | LogAuction(winner: string, payment: real, fails: bool)
    | Register(id: string, key: string, total: real, fails: bool)
    | SetBudget(id: string, cur: string)
    | Relocate(id: string, fee: real, fails: bool)
    | Unregister(id: string, fails: bool)
    | DropBudget(id: string)
    | Restart(listing: seq<string>, unreadable: set<string>, freed: set<string>)

  function Init(tracked: bool): State {
    State(Desk(None, map[], [], []), Books(Memory(map[], map[], map[]), map[], []),
          Directory(map[], map[], map[], map[]), AuctionLog(map[], 1), tracked)
  }

  // ----- the steps of one request -----

  function Goto(d: Desk, tid: nat, p: Progress): Desk {
    d.(threads := d.threads[tid := p])
  }

  /** Leaves the critical section with a response status. */
  function Leave(d: Desk, tid: nat, status: nat): Desk {
    Goto(d, tid, Finished(status)).(lock := None)
  }

  predicate Idle(d: Desk, tid: nat) {
    tid !in d.threads || d.threads[tid].Finished?
  }

  /** The winner comes from the auction record, never from the request. */
  function Begin(d: Desk, log: AuctionLog, tid: nat, auction: nat, fails: bool, accepts: string -> bool, unknown: nat): Desk {
    if !Idle(d, tid) then d
    else if auction == 0 then Goto(d, tid, Finished(400))
    else if fails || auction !in log.rows || !accepts(log.rows[auction].winner) then Goto(d, tid, Finished(unknown))
    else Goto(d, tid, Waiting(auction, log.rows[auction].winner))
  }

  /** settleMu.Lock: blocked while another request holds it. */
  function Acquire(d: Desk, tid: nat, a: nat, w: string): Desk {
    if d.lock.Some? then d else Goto(d, tid, Checking(a, w)).(lock := Some(tid))
  }

  /** HasClickEvent: a failed check skips the charge like an existing click. */
  function CheckClick(d: Desk, tid: nat, a: nat, w: string, fails: bool): Desk {
    Goto(d, tid, if fails || a in d.clicks then Logging(a, w, false) else Unclicked(a, w))
  }

  /** GetAuctionPayment: an unreadable or non-positive payment is not charged. */
  function ReadPayment(d: Desk, log: AuctionLog, tid: nat, a: nat, w: string, fails: bool): Desk {
    Goto(d, tid,
      if fails || a !in log.rows || log.rows[a].payment <= 0.0 then Logging(a, w, false)
      else Due(a, w, log.rows[a].payment))
  }

  /** budgetKey: the registry, then the stored position, then the ID itself. */
  function ResolveKey(dir: Directory, id: string, fails: bool): string {
    if id in dir.registry then dir.registry[id]
    else if !fails && id in dir.stored then dir.stored[id]
    else id
  }

  predicate Succeeds(b: Books, key: string, amount: real, fails: bool) {
    ChargeSucceeds(b.mem, b.rows, key, amount, fails)
  }

  function Book(b: Books, entry: Entry, fails: bool): Books {
    Books(ChargeMem(b.mem, b.rows, entry.key, entry.amount, fails),
          ChargeRows(b.mem, b.rows, entry.key, entry.amount, fails),
          if Succeeds(b, entry.key, entry.amount, fails) then b.charges + [entry] else b.charges)
  }

  function InsertClick(d: Desk, tid: nat, a: nat, charged: bool, fails: bool): Desk {
    if fails then Leave(d.(lost := if charged then d.lost + [a] else d.lost), tid, 500)
    else Leave(d.(clicks := d.clicks + [a]), tid, 200)
  }

  function StepThread(s: State, tid: nat, fails: bool): State
    requires tid in s.desk.threads
  {
    match s.desk.threads[tid]
    case Waiting(a, w) => s.(desk := Acquire(s.desk, tid, a, w))
    case Checking(a, w) => s.(desk := CheckClick(s.desk, tid, a, w, fails))
    case Unclicked(a, w) => s.(desk := ReadPayment(s.desk, s.log, tid, a, w, fails))
    case Due(a, w, payment) =>
      s.(desk := Goto(s.desk, tid, if s.tracked then Keyed(a, w, payment, ResolveKey(s.dir, w, fails)) else Logging(a, w, false)))
    case Keyed(a, w, payment, key) =>
      s.(desk := if Succeeds(s.books, key, payment, fails) then Goto(s.desk, tid, Logging(a, w, true)) else Leave(s.desk, tid, 402),
         books := Book(s.books, Click(a, w, key, payment), fails))
    case Logging(a, w, charged) => s.(desk := InsertClick(s.desk, tid, a, charged, fails))
    case Finished(_) => s
  }

  // ----- the rest of the server -----

  /** InsertAdvertiser and the registry entry. A position under its own key
      holds a budget, which a later step sets in memory; any other spends the
      budget of its key. A failed insert leaves the registry entry. */
  function Registered(s: State, id: string, key: string, total: real, fails: bool): State {
    var dir := s.dir;
    if id in dir.issued || (key == id && total < 0.0) then s
    else if fails then s.(dir := dir.(registry := dir.registry[id := key], issued := dir.issued[id := key]))
    else s.(dir := Directory(dir.registry[id := key], dir.stored[id := key],
                             if key == id then dir.awaiting[id := total] else dir.awaiting, dir.issued[id := key]),
            books := s.books.(rows := s.books.rows[id := BudgetRow(if key == id then total else 0.0, 0.0, "")]))
  }

  predicate OfRequests(a: Action) {
    a.BeginClick? || a.BeginRedirect? || a.Step?
  }

  function World(s: State, a: Action): State
    requires !OfRequests(a) && !a.Restart?
  {
    match a
    case LogAuction(winner, payment, fails) =>
      if fails then s
      else s.(log := AuctionLog(s.log.rows[s.log.next := AuctionRow(winner, payment)], s.log.next + 1))
    case Register(id, key, total, fails) => Registered(s, id, key, total, fails)
    case SetBudget(id, cur) =>
      if id !in s.dir.awaiting then s
      else s.(books := s.books.(mem := AfterSet(s.books.mem, id, s.dir.awaiting[id], cur)),
              dir := s.dir.(awaiting := s.dir.awaiting - {id}))
    // An update charges the key that it read at its beginning, when the
    // position was there; that key never changes.
    case Relocate(id, fee, fails) =>
      if id !in s.dir.issued || fee <= 0.0 || !s.tracked then s
      else s.(books := Book(s.books, Fee(id, s.dir.issued[id], fee), fails))
    case Unregister(id, fails) =>
      if fails then s.(dir := s.dir.(registry := s.dir.registry - {id}))
      else s.(dir := s.dir.(registry := s.dir.registry - {id}, stored := s.dir.stored - {id}),
              books := s.books.(rows := s.books.rows - {id}))
    case DropBudget(id) =>
      s.(books := s.books.(mem := AfterDelete(s.books.mem, id)))
  }

  /** The auction that the request inside the section has charged for, if its
      click is not logged yet. */
  function CutOff(d: Desk): Option<nat> {
    if d.lock.Some? && d.lock.value in d.threads && d.threads[d.lock.value].Logging? && d.threads[d.lock.value].charged
    then Some(d.threads[d.lock.value].auction)
    else None
  }

  predicate HasRow(s: State, id: string) {
    id in s.dir.stored || id in s.books.rows
  }

  /** The IDs that stay taken; any other may have a number above the highest
      that has a row, and is then issued again. */
  function Taken(s: State, freed: set<string>): map<string, string> {
    map id | id in s.dir.issued && (HasRow(s, id) || id !in freed) :: s.dir.issued[id]
  }

  /** Requests are gone, and registry and budgets are what the tables hold. */
  function Restarted(s: State, listing: seq<string>, unreadable: set<string>, freed: set<string>): State {
    var cut := CutOff(s.desk);
    State(Desk(None, map[], s.desk.clicks, if cut.Some? then s.desk.lost + [cut.value] else s.desk.lost),
          Books(Loaded(Memory(map[], map[], map[]), s.books.rows, listing, unreadable), s.books.rows, s.books.charges),
          Directory(s.dir.stored, s.dir.stored, map[], Taken(s, freed)), s.log, s.tracked)
  }

  /** One step; an action that is not enabled changes nothing. */
  function Next(s: State, a: Action): State {
    match a
    case BeginClick(tid, auction, advertiser, fails) =>
      s.(desk := Begin(s.desk, s.log, tid, auction, fails, w => advertiser != "" && w == advertiser, 400))
    case BeginRedirect(tid, auction, fails) =>
      s.(desk := Begin(s.desk, s.log, tid, auction, fails, w => w != "", 404))
    case Step(tid, fails) =>
      if tid in s.desk.threads then StepThread(s, tid, fails) else s
    case Restart(listing, unreadable, freed) => Restarted(s, listing, unreadable, freed)
    case _ => World(s, a)
  }

  function Run(s: State, actions: seq<Action>): State {
    if actions == [] then s else Next(Run(s, actions[..|actions| - 1]), actions[|actions| - 1])
  }

  // ----- mutual exclusion and the charge count -----

  predicate InSection(p: Progress) {
    !p.Waiting? && !p.Finished?
  }

  /** Only the holder of the mutex is inside the section. */
  ghost predicate Exclusive(d: Desk) {
    && (forall tid :: tid in d.threads && InSection(d.threads[tid]) ==> d.lock == Some(tid))
    && (d.lock.Some? ==> d.lock.value in d.threads && InSection(d.threads[d.lock.value]))
  }

  /** A request on its way to a charge has found no click for its auction. */
  predicate Charging(p: Progress) {
    p.Unclicked? || p.Due? || p.Keyed?
  }

  ghost predicate FirstClick(d: Desk) {
    forall tid :: tid in d.threads && Charging(d.threads[tid]) ==> d.threads[tid].auction !in d.clicks
  }

  ghost predicate Orderly(d: Desk) {
    Exclusive(d) && FirstClick(d)
  }

  predicate Pending(d: Desk, a: nat) {
    CutOff(d) == Some(a)
  }

  function ChargesOf(es: seq<Entry>, a: nat): nat {
    if es == [] then 0
    else ChargesOf(es[..|es| - 1], a) + if es[|es| - 1].Click? && es[|es| - 1].auction == a then 1 else 0
  }

  function Occurrences(xs: seq<nat>, a: nat): nat {
    if xs == [] then 0 else Occurrences(xs[..|xs| - 1], a) + if xs[|xs| - 1] == a then 1 else 0
  }

  lemma ChargesAppend(es: seq<Entry>, e: Entry, a: nat)
    ensures ChargesOf(es + [e], a) == ChargesOf(es, a) + if e.Click? && e.auction == a then 1 else 0
  {
    assert (es + [e])[..|es|] == es;
  }

  lemma OccurrencesAppend(xs: seq<nat>, x: nat, a: nat)
    ensures Occurrences(xs + [x], a) == Occurrences(xs, a) + if x == a then 1 else 0
  {
    assert (xs + [x])[..|xs|] == xs;
  }

  ghost predicate CountOk(d: Desk, charges: seq<Entry>, a: nat) {
    ChargesOf(charges, a) <= Occurrences(d.lost, a) + if a in d.clicks || Pending(d, a) then 1 else 0
  }

  lemma BeginKeepsCount(d: Desk, log: AuctionLog, tid: nat, auction: nat, fails: bool, accepts: string -> bool, unknown: nat, charges: seq<Entry>, a: nat)
    requires Orderly(d) && CountOk(d, charges, a)
    ensures var d' := Begin(d, log, tid, auction, fails, accepts, unknown); Orderly(d') && CountOk(d', charges, a)
  {
  }

  lemma AcquireKeepsCount(d: Desk, tid: nat, x: nat, w: string, charges: seq<Entry>, a: nat)
    requires Orderly(d) && CountOk(d, charges, a) && tid in d.threads && d.threads[tid].Waiting?
    ensures var d' := Acquire(d, tid, x, w); Orderly(d') && CountOk(d', charges, a)
  {
  }

  /** Moves inside the section that neither charge nor log. */
  lemma AdvanceKeepsCount(d: Desk, tid: nat, p: Progress, charges: seq<Entry>, a: nat)
    requires Orderly(d) && CountOk(d, charges, a)
    requires tid in d.threads && InSection(d.threads[tid]) && !d.threads[tid].Logging?
    requires InSection(p) && (Charging(p) ==> p.auction !in d.clicks) && (p.Logging? ==> !p.charged)
    ensures Orderly(Goto(d, tid, p)) && CountOk(Goto(d, tid, p), charges, a)
  {
  }

  lemma ChargedKeepsCount(d: Desk, tid: nat, x: nat, w: string, entry: Entry, charges: seq<Entry>, a: nat)
    requires Orderly(d) && CountOk(d, charges, a)
    requires tid in d.threads && d.threads[tid].Keyed? && d.threads[tid].auction == x
    requires entry.Click? && entry.auction == x
    ensures var d' := Goto(d, tid, Logging(x, w, true)); Orderly(d') && CountOk(d', charges + [entry], a)
  {
    ChargesAppend(charges, entry, a);
  }

  lemma LeaveKeepsCount(d: Desk, tid: nat, status: nat, charges: seq<Entry>, a: nat)
    requires Orderly(d) && CountOk(d, charges, a) && !Pending(d, a)
    requires tid in d.threads && InSection(d.threads[tid])
    ensures Orderly(Leave(d, tid, status)) && CountOk(Leave(d, tid, status), charges, a)
  {
  }

  lemma LoggedKeepsCount(d: Desk, tid: nat, x: nat, charges: seq<Entry>, a: nat)
    requires Orderly(d) && CountOk(d, charges, a)
    requires tid in d.threads && d.threads[tid].Logging? && d.threads[tid].auction == x
    ensures var d' := Leave(d.(clicks := d.clicks + [x]), tid, 200); Orderly(d') && CountOk(d', charges, a)
  {
  }

  lemma LostKeepsCount(d: Desk, tid: nat, x: nat, charges: seq<Entry>, a: nat)
    requires Orderly(d) && CountOk(d, charges, a)
    requires tid in d.threads && d.threads[tid].Logging? && d.threads[tid].auction == x && d.threads[tid].charged
    ensures var d' := Leave(d.(lost := d.lost + [x]), tid, 500); Orderly(d') && CountOk(d', charges, a)
  {
    OccurrencesAppend(d.lost, x, a);
  }

  lemma ThreadKeepsCount(s: State, tid: nat, fails: bool, a: nat)
    requires Orderly(s.desk) && CountOk(s.desk, s.books.charges, a) && tid in s.desk.threads
    ensures var s' := StepThread(s, tid, fails); Orderly(s'.desk) && CountOk(s'.desk, s'.books.charges, a)
  {
    var d, cs := s.desk, s.books.charges;
    match d.threads[tid]
    case Waiting(x, w) => AcquireKeepsCount(d, tid, x, w, cs, a);
    case Keyed(x, w, payment, key) =>
      if Succeeds(s.books, key, payment, fails) {
        ChargedKeepsCount(d, tid, x, w, Click(x, w, key, payment), cs, a);
      } else {
        LeaveKeepsCount(d, tid, 402, cs, a);
      }
    case Logging(x, w, charged) =>
      if !fails {
        LoggedKeepsCount(d, tid, x, cs, a);
      } else if charged {
        LostKeepsCount(d, tid, x, cs, a);
      } else {
        LeaveKeepsCount(d, tid, 500, cs, a);
      }
    case Finished(_) =>
    case _ => AdvanceKeepsCount(d, tid, StepThread(s, tid, fails).desk.threads[tid], cs, a);
  }

  lemma WorldKeepsCount(s: State, act: Action, a: nat)
    requires !OfRequests(act) && !act.Restart?
    ensures World(s, act).desk == s.desk
    ensures ChargesOf(World(s, act).books.charges, a) == ChargesOf(s.books.charges, a)
  {
    if act.Relocate? && act.id in s.dir.issued {
      ChargesAppend(s.books.charges, Fee(act.id, s.dir.issued[act.id], act.fee), a);
    }
  }

  lemma RestartKeepsCount(s: State, listing: seq<string>, unreadable: set<string>, freed: set<string>, a: nat)
    requires CountOk(s.desk, s.books.charges, a)
    ensures var s' := Restarted(s, listing, unreadable, freed);
            Orderly(s'.desk) && CountOk(s'.desk, s'.books.charges, a)
  {
    var cut := CutOff(s.desk);
    if cut.Some? {
      OccurrencesAppend(s.desk.lost, cut.value, a);
    }
  }

  lemma StepKeepsCount(s: State, act: Action, a: nat)
    requires Orderly(s.desk) && CountOk(s.desk, s.books.charges, a)
    ensures Orderly(Next(s, act).desk) && CountOk(Next(s, act).desk, Next(s, act).books.charges, a)
  {
    match act
    case BeginClick(tid, auction, advertiser, fails) =>
      BeginKeepsCount(s.desk, s.log, tid, auction, fails, w => advertiser != "" && w == advertiser, 400, s.books.charges, a);
    case BeginRedirect(tid, auction, fails) =>
      BeginKeepsCount(s.desk, s.log, tid, auction, fails, w => w != "", 404, s.books.charges, a);
    case Step(tid, fails) =>
      if tid in s.desk.threads {
        ThreadKeepsCount(s, tid, fails, a);
      }
    case Restart(listing, unreadable, freed) => RestartKeepsCount(s, listing, unreadable, freed, a);
    case _ => WorldKeepsCount(s, act, a);
  }

  lemma {:induction false} RunKeepsCount(tracked: bool, actions: seq<Action>, a: nat)
    ensures var s := Run(Init(tracked), actions); Orderly(s.desk) && CountOk(s.desk, s.books.charges, a)
  {
    if actions != [] {
      RunKeepsCount(tracked, actions[..|actions| - 1], a);
      StepKeepsCount(Run(Init(tracked), actions[..|actions| - 1]), actions[|actions| - 1], a);
    }
  }

  /** In every interleaving, an auction is charged at most once more than it has
      attempts that had charged when their click insert failed or a restart cut
      them off. */
  lemma ChargesAreBounded(tracked: bool, actions: seq<Action>, a: nat)
    ensures var s := Run(Init(tracked), actions);
            ChargesOf(s.books.charges, a) <= 1 + Occurrences(s.desk.lost, a)
  {
    RunKeepsCount(tracked, actions, a);
  }

  // ----- every charge is the recorded payment of a recorded auction -----

  /** What a request carries was read from the auction's record. */
  predicate Faithful(p: Progress, log: AuctionLog) {
    p.Finished? ||
    (p.auction in log.rows && p.winner == log.rows[p.auction].winner
     && (p.Due? || p.Keyed? ==> p.payment == log.rows[p.auction].payment && p.payment > 0.0))
  }

  predicate Recorded(e: Entry, log: AuctionLog) {
    e.Click? ==> e.auction in log.rows && log.rows[e.auction] == AuctionRow(e.winner, e.amount) && e.amount > 0.0
  }

  ghost predicate Genuine(s: State) {
    && (forall a :: a in s.log.rows ==> a < s.log.next)
    && (forall tid :: tid in s.desk.threads ==> Faithful(s.desk.threads[tid], s.log))
    && (forall i :: 0 <= i < |s.books.charges| ==> Recorded(s.books.charges[i], s.log))
    && (forall a :: a in s.desk.clicks ==> a in s.log.rows)
  }

  lemma DeskKeepsGenuine(s: State, desk: Desk)
    requires Genuine(s)
    requires forall tid :: tid in desk.threads ==> Faithful(desk.threads[tid], s.log)
    requires forall a :: a in desk.clicks ==> a in s.log.rows
    ensures Genuine(s.(desk := desk))
  {
  }

  lemma ChargeKeepsGenuine(s: State, e: Entry, fails: bool)
    requires Genuine(s) && Recorded(e, s.log)
    ensures Genuine(s.(books := Book(s.books, e, fails)))
  {
  }

  lemma ThreadKeepsGenuine(s: State, tid: nat, fails: bool)
    requires Genuine(s) && tid in s.desk.threads
    ensures Genuine(StepThread(s, tid, fails))
  {
    var s' := StepThread(s, tid, fails);
    assert Faithful(s.desk.threads[tid], s.log);
    match s.desk.threads[tid]
    case Keyed(a, w, payment, key) =>
      ChargeKeepsGenuine(s, Click(a, w, key, payment), fails);
      DeskKeepsGenuine(s.(books := s'.books), s'.desk);
    case _ => DeskKeepsGenuine(s, s'.desk);
  }

  lemma StepKeepsGenuine(s: State, act: Action)
    requires Genuine(s)
    ensures Genuine(Next(s, act))
  {
    if act.LogAuction? {
      LoggingKeepsGenuine(s, act);
    } else if act.Step? && act.tid in s.desk.threads {
      ThreadKeepsGenuine(s, act.tid, act.fails);
    }
  }

  lemma LoggingKeepsGenuine(s: State, act: Action)
    requires Genuine(s) && act.LogAuction?
    ensures Genuine(Next(s, act))
  {
  }

  // ----- exactly once, when no database call fails -----

  predicate NoFailure(act: Action) {
    match act
    case SetBudget(_, _) => true
    case DropBudget(_) => true
    case Restart(_, _, _) => true
    case _ => !act.fails
  }

  predicate Payable(log: AuctionLog, a: nat) {
    a in log.rows && log.rows[a].payment > 0.0
  }

  /** The request skips a charge that is due and was not made. */
  predicate SkipsDue(p: Progress, clicks: seq<nat>, log: AuctionLog, a: nat) {
    p.Logging? && !p.charged && p.auction == a && a !in clicks && Payable(log, a)
  }

  /** No due charge is skipped, and a logged or pending click was charged. */
  ghost predicate Settled(d: Desk, log: AuctionLog, charges: seq<Entry>, a: nat) {
    && d.lost == []
    && (forall tid :: tid in d.threads ==> !SkipsDue(d.threads[tid], d.clicks, log, a))
    && (Payable(log, a) && (a in d.clicks || Pending(d, a)) ==> ChargesOf(charges, a) >= 1)
  }

  lemma BeginKeepsSettled(d: Desk, log: AuctionLog, tid: nat, auction: nat, accepts: string -> bool, unknown: nat, charges: seq<Entry>, a: nat)
    requires Orderly(d) && Settled(d, log, charges, a)
    ensures Settled(Begin(d, log, tid, auction, false, accepts, unknown), log, charges, a)
  {
  }

  lemma AcquireKeepsSettled(d: Desk, log: AuctionLog, tid: nat, x: nat, w: string, charges: seq<Entry>, a: nat)
    requires Orderly(d) && Settled(d, log, charges, a) && tid in d.threads && d.threads[tid].Waiting?
    ensures Settled(Acquire(d, tid, x, w), log, charges, a)
  {
  }

  lemma AdvanceKeepsSettled(d: Desk, log: AuctionLog, tid: nat, p: Progress, charges: seq<Entry>, a: nat)
    requires Orderly(d) && Settled(d, log, charges, a)
    requires tid in d.threads && InSection(d.threads[tid])
    requires !SkipsDue(p, d.clicks, log, a) && (p.Logging? ==> !p.charged)
    ensures Settled(Goto(d, tid, p), log, charges, a)
  {
  }

  lemma ChargedKeepsSettled(d: Desk, log: AuctionLog, tid: nat, x: nat, w: string, entry: Entry, charges: seq<Entry>, a: nat)
    requires Orderly(d) && Settled(d, log, charges, a)
    requires tid in d.threads && d.threads[tid].Keyed? && entry.Click? && entry.auction == x
    ensures Settled(Goto(d, tid, Logging(x, w, true)), log, charges + [entry], a)
  {
    ChargesAppend(charges, entry, a);
  }

  lemma LeaveKeepsSettled(d: Desk, log: AuctionLog, tid: nat, status: nat, charges: seq<Entry>, a: nat)
    requires Orderly(d) && Settled(d, log, charges, a)
    requires tid in d.threads && InSection(d.threads[tid])
    ensures Settled(Leave(d, tid, status), log, charges, a)
  {
  }

  lemma LoggedKeepsSettled(d: Desk, log: AuctionLog, tid: nat, charges: seq<Entry>, a: nat)
    requires Orderly(d) && Settled(d, log, charges, a)
    requires tid in d.threads && d.threads[tid].Logging?
    ensures Settled(Leave(d.(clicks := d.clicks + [d.threads[tid].auction]), tid, 200), log, charges, a)
  {
    assert !SkipsDue(d.threads[tid], d.clicks, log, a);
  }

  lemma ThreadKeepsSettled(s: State, tid: nat, a: nat)
    requires s.tracked && Orderly(s.desk) && Genuine(s) && tid in s.desk.threads
    requires Settled(s.desk, s.log, s.books.charges, a)
    ensures var s' := StepThread(s, tid, false); Settled(s'.desk, s.log, s'.books.charges, a)
  {
    var d, cs := s.desk, s.books.charges;
    match d.threads[tid]
    case Waiting(x, w) => AcquireKeepsSettled(d, s.log, tid, x, w, cs, a);
    case Keyed(x, w, payment, key) =>
      if Succeeds(s.books, key, payment, false) {
        ChargedKeepsSettled(d, s.log, tid, x, w, Click(x, w, key, payment), cs, a);
      } else {
        LeaveKeepsSettled(d, s.log, tid, 402, cs, a);
      }
    case Logging(_, _, _) => LoggedKeepsSettled(d, s.log, tid, cs, a);
    case Finished(_) =>
    case _ => AdvanceKeepsSettled(d, s.log, tid, StepThread(s, tid, false).desk.threads[tid], cs, a);
  }

  lemma LoggingKeepsSettled(s: State, act: Action, a: nat)
    requires Genuine(s) && Settled(s.desk, s.log, s.books.charges, a) && act.LogAuction?
    ensures Settled(s.desk, Next(s, act).log, s.books.charges, a)
  {
    if a == s.log.next {
      assert a !in s.desk.clicks && !Pending(s.desk, a);
    }
  }

  lemma RestartKeepsSettled(s: State, act: Action, a: nat)
    requires act.Restart? && Settled(s.desk, s.log, s.books.charges, a) && Next(s, act).desk.lost == []
    ensures Settled(Next(s, act).desk, s.log, s.books.charges, a)
  {
  }

  lemma StepKeepsSettled(s: State, act: Action, a: nat)
    requires s.tracked && Orderly(s.desk) && Genuine(s) && Settled(s.desk, s.log, s.books.charges, a) && NoFailure(act)
    requires Next(s, act).desk.lost == []
    ensures var s' := Next(s, act); Settled(s'.desk, s'.log, s'.books.charges, a)
  {
    match act
    case BeginClick(tid, auction, advertiser, _) =>
      BeginKeepsSettled(s.desk, s.log, tid, auction, w => advertiser != "" && w == advertiser, 400, s.books.charges, a);
    case BeginRedirect(tid, auction, _) =>
      BeginKeepsSettled(s.desk, s.log, tid, auction, w => w != "", 404, s.books.charges, a);
    case Step(tid, _) =>
      if tid in s.desk.threads {
        ThreadKeepsSettled(s, tid, a);
      }
    case LogAuction(_, _, _) => LoggingKeepsSettled(s, act, a);
    case Restart(_, _, _) => RestartKeepsSettled(s, act, a);
    case _ => WorldKeepsCount(s, act, a);
  }

  lemma {:induction false} RunIsGenuine(tracked: bool, actions: seq<Action>)
    ensures Genuine(Run(Init(tracked), actions))
  {
    if actions != [] {
      RunIsGenuine(tracked, actions[..|actions| - 1]);
      StepKeepsGenuine(Run(Init(tracked), actions[..|actions| - 1]), actions[|actions| - 1]);
    }
  }

  lemma {:induction false} RunKeepsTracker(tracked: bool, actions: seq<Action>)
    ensures Run(Init(tracked), actions).tracked == tracked
  {
    if actions != [] {
      RunKeepsTracker(tracked, actions[..|actions| - 1]);
    }
  }

  lemma LostStaysLost(s: State, act: Action)
    ensures Next(s, act).desk.lost == [] ==> s.desk.lost == []
  {
    if !OfRequests(act) && !act.Restart? {
      WorldKeepsCount(s, act, 0);
    }
  }

  lemma {:induction false} RunIsSettled(actions: seq<Action>, a: nat)
    requires forall i :: 0 <= i < |actions| ==> NoFailure(actions[i])
    requires Run(Init(true), actions).desk.lost == []
    ensures var s := Run(Init(true), actions); Settled(s.desk, s.log, s.books.charges, a)
  {
    if actions != [] {
      var rest := actions[..|actions| - 1];
      LostStaysLost(Run(Init(true), rest), actions[|actions| - 1]);
      RunIsSettled(rest, a);
      RunKeepsCount(true, rest, a);
      RunIsGenuine(true, rest);
      RunKeepsTracker(true, rest);
      StepKeepsSettled(Run(Init(true), rest), actions[|actions| - 1], a);
    }
  }

  /** Without a tracker no request ever reaches a charge. */
  ghost predicate Uncharged(s: State) {
    s.books.charges == [] && forall tid :: tid in s.desk.threads ==> !s.desk.threads[tid].Keyed?
  }

  lemma {:induction false} UntrackedChargesNothing(actions: seq<Action>)
    ensures Uncharged(Run(Init(false), actions))
  {
    if actions != [] {
      UntrackedChargesNothing(actions[..|actions| - 1]);
      RunKeepsTracker(false, actions[..|actions| - 1]);
    }
  }

  /** If no database call fails, and no restart cuts a request off between its
      charge and its click, every auction with a positive payment and a logged
      click has been charged exactly once, or never if the handler has no budget
      tracker. */
  lemma SettledExactlyOnce(tracked: bool, actions: seq<Action>, a: nat)
    requires forall i :: 0 <= i < |actions| ==> NoFailure(actions[i])
    requires Run(Init(tracked), actions).desk.lost == []
    ensures var s := Run(Init(tracked), actions);
            Payable(s.log, a) && a in s.desk.clicks ==> ChargesOf(s.books.charges, a) == if tracked then 1 else 0
  {
    if tracked {
      RunKeepsCount(tracked, actions, a);
      RunIsSettled(actions, a);
    } else {
      UntrackedChargesNothing(actions);
    }
  }

  // ----- every charge is made on the registered budget -----

  /** The key under which an ID was last registered, unless it is free again. */
  function KeyGiven(tracked: bool, actions: seq<Action>, id: string): Option<string> {
    if actions == [] then None
    else
      var rest, last := actions[..|actions| - 1], actions[|actions| - 1];
      var earlier := KeyGiven(tracked, rest, id);
      if earlier.None? then if Gives(last, id) then Some(last.key) else None
      else if Frees(Run(Init(tracked), rest), last, id) then None
      else earlier
  }

  predicate Gives(act: Action, id: string) {
    act.Register? && act.id == id && !(act.key == id && act.total < 0.0)
  }

  predicate Frees(s: State, act: Action, id: string) {
    act.Restart? && id in act.freed && !HasRow(s, id)
  }

  lemma IssuedStep(s: State, act: Action, id: string)
    ensures var issued, issued' := s.dir.issued, Next(s, act).dir.issued;
            && (id in issued' <==> if id in issued then !Frees(s, act, id) else Gives(act, id))
            && (id in issued' ==> issued'[id] == if id in issued then issued[id] else act.key)
  {
    match act
    case Register(_, _, _, _) =>
    case Restart(_, _, _) =>
    case Step(_, _) =>
    case _ => assert Next(s, act).dir.issued == s.dir.issued;
  }

  lemma {:induction false} IssuedIsGiven(tracked: bool, actions: seq<Action>, id: string)
    ensures var issued := Run(Init(tracked), actions).dir.issued;
            KeyGiven(tracked, actions, id) == if id in issued then Some(issued[id]) else None
  {
    if actions != [] {
      IssuedIsGiven(tracked, actions[..|actions| - 1], id);
      IssuedStep(Run(Init(tracked), actions[..|actions| - 1]), actions[|actions| - 1], id);
    }
  }

  /** m gives issued IDs the keys they were issued with. */
  ghost predicate Within(m: map<string, string>, issued: map<string, string>) {
    forall id :: id in m ==> id in issued && m[id] == issued[id]
  }

  /** Only positions under their own key hold money: after a restart the others
      have budgets, too, with nothing in them. */
  predicate MayHold(id: string, total: real, spent: real, issued: map<string, string>) {
    id in issued && (issued[id] == id || total <= spent)
  }

  ghost predicate HoldersOf(mem: Memory, issued: map<string, string>) {
    forall id :: id in mem.budgets ==> MayHold(id, mem.budgets[id], Spent(mem, id), issued)
  }

  ghost predicate RowHolders(rows: map<string, BudgetRow>, issued: map<string, string>) {
    forall id :: id in rows ==> MayHold(id, rows[id].total, rows[id].spent, issued)
  }

  function Owner(e: Entry): string {
    if e.Click? then e.winner else e.position
  }

  predicate OnOwnersKey(e: Entry, issued: map<string, string>) {
    Owner(e) in issued && e.key == issued[Owner(e)]
  }

  /** A request ready to charge has its winner's key, or fell back on the winner's ID. */
  predicate Directed(p: Progress, issued: map<string, string>) {
    p.Keyed? ==> p.key == p.winner || (p.winner in issued && p.key == issued[p.winner])
  }

  ghost predicate BooksRooted(b: Books, issued: map<string, string>) {
    HoldersOf(b.mem, issued) && RowHolders(b.rows, issued)
  }

  ghost predicate DirRooted(dir: Directory) {
    && Within(dir.registry, dir.issued) && Within(dir.stored, dir.issued)
    && forall id :: id in dir.awaiting ==> id in dir.issued && dir.issued[id] == id
  }

  ghost predicate DeskRooted(d: Desk, issued: map<string, string>) {
    forall tid :: tid in d.threads ==> Directed(d.threads[tid], issued)
  }

  ghost predicate Rooted(s: State) {
    BooksRooted(s.books, s.dir.issued) && DirRooted(s.dir) && DeskRooted(s.desk, s.dir.issued)
  }

  /** A charge succeeds only on a key that holds money, so a request that fell
      back on its winner's ID charges the right budget or none. */
  lemma SuccessIsOnOwnersKey(b: Books, issued: map<string, string>, e: Entry, fails: bool)
    requires BooksRooted(b, issued) && e.amount > 0.0 && Succeeds(b, e.key, e.amount, fails)
    requires e.key == Owner(e) || OnOwnersKey(e, issued)
    ensures OnOwnersKey(e, issued)
  {
    assert MayHold(e.key, b.mem.budgets[e.key], Spent(b.mem, e.key), issued);
  }

  lemma ChargeKeepsRooted(b: Books, issued: map<string, string>, e: Entry, fails: bool)
    requires BooksRooted(b, issued) && e.amount > 0.0
    ensures BooksRooted(Book(b, e, fails), issued)
  {
    if Affords(b.mem, e.key, e.amount) {
      assert MayHold(e.key, b.mem.budgets[e.key], Spent(b.mem, e.key), issued);
    }
  }

  /** Issuing one more ID leaves what was issued before. */
  lemma IssueKeepsRooted(s: State, id: string, key: string)
    requires Rooted(s) && id !in s.dir.issued
    ensures var issued := s.dir.issued[id := key];
            && BooksRooted(s.books, issued) && DeskRooted(s.desk, issued)
            && DirRooted(s.dir.(registry := s.dir.registry[id := key], issued := issued))
  {
    var issued := s.dir.issued[id := key];
    forall x | x in s.books.mem.budgets ensures MayHold(x, s.books.mem.budgets[x], Spent(s.books.mem, x), issued) {
      assert MayHold(x, s.books.mem.budgets[x], Spent(s.books.mem, x), s.dir.issued);
    }
    forall x | x in s.books.rows ensures MayHold(x, s.books.rows[x].total, s.books.rows[x].spent, issued) {
      assert MayHold(x, s.books.rows[x].total, s.books.rows[x].spent, s.dir.issued);
    }
    forall tid | tid in s.desk.threads ensures Directed(s.desk.threads[tid], issued) {
      assert Directed(s.desk.threads[tid], s.dir.issued);
    }
  }

  lemma RegisterKeepsRooted(s: State, id: string, key: string, total: real, fails: bool)
    requires Rooted(s)
    ensures Rooted(Registered(s, id, key, total, fails))
  {
    if id !in s.dir.issued && !(key == id && total < 0.0) {
      IssueKeepsRooted(s, id, key);
    }
  }

  lemma {:induction false} LoadedFromRows(rows: map<string, BudgetRow>, listing: seq<string>, unreadable: set<string>, id: string)
    ensures var mem := Loaded(Memory(map[], map[], map[]), rows, listing, unreadable);
            id in mem.budgets ==> id in rows && mem.budgets[id] == rows[id].total && Spent(mem, id) == rows[id].spent
  {
    if listing != [] {
      LoadedFromRows(rows, listing[..|listing| - 1], unreadable, id);
    }
  }

  lemma RestartKeepsRooted(s: State, listing: seq<string>, unreadable: set<string>, freed: set<string>)
    requires Rooted(s)
    ensures Rooted(Restarted(s, listing, unreadable, freed))
  {
    var b, issued := Restarted(s, listing, unreadable, freed).books, Taken(s, freed);
    forall x | x in b.rows ensures MayHold(x, b.rows[x].total, b.rows[x].spent, issued) {
      assert MayHold(x, b.rows[x].total, b.rows[x].spent, s.dir.issued);
    }
    forall x | x in b.mem.budgets ensures MayHold(x, b.mem.budgets[x], Spent(b.mem, x), issued) {
      LoadedFromRows(b.rows, listing, unreadable, x);
      assert MayHold(x, b.rows[x].total, b.rows[x].spent, issued);
    }
  }

  lemma ThreadKeepsRooted(s: State, tid: nat, fails: bool)
    requires Rooted(s) && Genuine(s) && tid in s.desk.threads
    ensures Rooted(StepThread(s, tid, fails))
  {
    assert Faithful(s.desk.threads[tid], s.log) && Directed(s.desk.threads[tid], s.dir.issued);
    if s.desk.threads[tid].Keyed? {
      var p := s.desk.threads[tid];
      ChargeKeepsRooted(s.books, s.dir.issued, Click(p.auction, p.winner, p.key, p.payment), fails);
    }
  }

  lemma WorldKeepsRooted(s: State, act: Action)
    requires Rooted(s) && !OfRequests(act) && !act.Restart?
    ensures Rooted(World(s, act))
  {
    if act.Register? {
      RegisterKeepsRooted(s, act.id, act.key, act.total, act.fails);
    } else if act.Relocate? && act.id in s.dir.issued && act.fee > 0.0 {
      ChargeKeepsRooted(s.books, s.dir.issued, Fee(act.id, s.dir.issued[act.id], act.fee), act.fails);
    }
  }

  lemma StepKeepsRooted(s: State, act: Action)
    requires Rooted(s) && Genuine(s)
    ensures Rooted(Next(s, act))
  {
    match act
    case BeginClick(_, _, _, _) =>
    case BeginRedirect(_, _, _) =>
    case Step(tid, fails) =>
      if tid in s.desk.threads {
        ThreadKeepsRooted(s, tid, fails);
      }
    case Restart(listing, unreadable, freed) => RestartKeepsRooted(s, listing, unreadable, freed);
    case _ => WorldKeepsRooted(s, act);
  }

  lemma {:induction false} RunIsRooted(tracked: bool, actions: seq<Action>)
    ensures Rooted(Run(Init(tracked), actions))
  {
    if actions != [] {
      RunIsRooted(tracked, actions[..|actions| - 1]);
      RunIsGenuine(tracked, actions[..|actions| - 1]);
      StepKeepsRooted(Run(Init(tracked), actions[..|actions| - 1]), actions[|actions| - 1]);
    }
  }

  // ----- a due charge goes where it belongs -----

  /** On every run: a request that is due to charge a winner who is registered
      goes on with the key under which the winner's ID was registered last, if
      the winner is in the registry or its row can be read. */
  lemma DueIsKeyed(tracked: bool, actions: seq<Action>, tid: nat, fails: bool)
    requires var s := Run(Init(tracked), actions);
             tid in s.desk.threads && s.desk.threads[tid].Due? && tracked
             && (s.desk.threads[tid].winner in s.dir.registry || (!fails && s.desk.threads[tid].winner in s.dir.stored))
    ensures var s := Run(Init(tracked), actions);
            var p, given := s.desk.threads[tid], KeyGiven(tracked, actions, s.desk.threads[tid].winner);
            given.Some? && Next(s, Step(tid, fails)).desk.threads[tid] == Keyed(p.auction, p.winner, p.payment, given.value)
  {
    RunKeepsTracker(tracked, actions);
    RunIsRooted(tracked, actions);
    IssuedIsGiven(tracked, actions, Run(Init(tracked), actions).desk.threads[tid].winner);
  }

  /** A click request gets in exactly if it names the recorded winner of a
      recorded auction, and a redirect if the auction has one. */
  lemma AdmittedIff(s: State, tid: nat, auction: nat, advertiser: string, fails: bool)
    requires Idle(s.desk, tid)
    ensures var p := Next(s, BeginClick(tid, auction, advertiser, fails)).desk.threads[tid];
            if auction > 0 && !fails && auction in s.log.rows && advertiser != "" && s.log.rows[auction].winner == advertiser
            then p == Waiting(auction, advertiser) else p == Finished(400)
    ensures var p := Next(s, BeginRedirect(tid, auction, fails)).desk.threads[tid];
            if auction > 0 && !fails && auction in s.log.rows && s.log.rows[auction].winner != ""
            then p == Waiting(auction, s.log.rows[auction].winner) else p == Finished(if auction == 0 then 400 else 404)
  {
  }

  /** A relocation is charged exactly if its position was registered, its budget
      has room for the fee, and the budget's row can be read and written. */
  lemma RelocationIsChargedIff(tracked: bool, actions: seq<Action>, id: string, fee: real, fails: bool)
    requires tracked && fee > 0.0
    ensures var s, given := Run(Init(tracked), actions), KeyGiven(tracked, actions, id);
            Next(s, Relocate(id, fee, fails)).books.charges ==
            if given.Some? && HasRoom(s.books.mem, given.value, fee) && !fails && given.value in s.books.rows
            then s.books.charges + [Fee(id, given.value, fee)] else s.books.charges
  {
    RunKeepsTracker(tracked, actions);
    IssuedIsGiven(tracked, actions, id);
  }

  /** A position that is deleted with its budget can no longer be charged, in
      memory as in the table, nor does a restart bring it back. */
  lemma DeletedIsUncharged(s: State, id: string, amount: real, fails: bool, listing: seq<string>, unreadable: set<string>, freed: set<string>)
    ensures var t := Next(Next(s, Unregister(id, false)), DropBudget(id));
            var u := Next(t, Restart(listing, unreadable, freed));
            && id !in t.dir.registry && id !in t.dir.stored && id !in t.books.mem.budgets && id !in t.books.rows
            && !Succeeds(t.books, id, amount, fails)
            && id !in u.dir.registry && id !in u.dir.stored && !Succeeds(u.books, id, amount, fails)
  {
    var t := Next(Next(s, Unregister(id, false)), DropBudget(id));
    LoadedFromRows(t.books.rows, listing, unreadable, id);
  }

  // ----- when a charge was made -----

  /** The charge that an action attempts, if any ... */
  function Attempt(s: State, act: Action): (r: Option<Entry>)
    ensures r.Some? ==> act.Step? || act.Relocate?
  {
    if act.Step? && act.tid in s.desk.threads && s.desk.threads[act.tid].Keyed? then
      var p := s.desk.threads[act.tid];
      Some(Click(p.auction, p.winner, p.key, p.payment))
    else if act.Relocate? && act.id in s.dir.issued && act.fee > 0.0 && s.tracked then
      Some(Fee(act.id, s.dir.issued[act.id], act.fee))
    else None
  }

  /** ... and makes. */
  function NewEntry(s: State, act: Action): Option<Entry> {
    var e := Attempt(s, act);
    if e.Some? && Succeeds(s.books, e.value.key, e.value.amount, act.fails) then e else None
  }

  lemma ChargesGrow(s: State, act: Action)
    ensures var e := NewEntry(s, act);
            Next(s, act).books.charges == s.books.charges + if e.Some? then [e.value] else []
  {
  }

  lemma NewEntryIsProper(s: State, act: Action)
    requires Rooted(s) && Genuine(s) && NewEntry(s, act).Some?
    ensures var e := NewEntry(s, act).value; OnOwnersKey(e, s.dir.issued) && Recorded(e, s.log) && e.amount > 0.0
  {
    if act.Step? {
      var p := s.desk.threads[act.tid];
      assert Faithful(p, s.log) && Directed(p, s.dir.issued);
      SuccessIsOnOwnersKey(s.books, s.dir.issued, Click(p.auction, p.winner, p.key, p.payment), act.fails);
    }
  }

  /** Action n made charge i. */
  predicate MadeAt(tracked: bool, actions: seq<Action>, i: nat, n: nat)
    requires i < |Run(Init(tracked), actions).books.charges|
  {
    && n < |actions| && |Run(Init(tracked), actions[..n]).books.charges| == i
    && NewEntry(Run(Init(tracked), actions[..n]), actions[n]) == Some(Run(Init(tracked), actions).books.charges[i])
  }

  lemma {:induction false} EveryChargeWasMade(tracked: bool, actions: seq<Action>, i: nat) returns (n: nat)
    requires i < |Run(Init(tracked), actions).books.charges|
    ensures MadeAt(tracked, actions, i, n)
  {
    var k: nat := |actions| - 1;
    ChargesGrow(Run(Init(tracked), actions[..k]), actions[k]);
    if i < |Run(Init(tracked), actions[..k]).books.charges| {
      n := EveryChargeWasMade(tracked, actions[..k], i);
      assert actions[..k][..n] == actions[..n];
    } else {
      n := k;
    }
  }

  /** With or without failures and restarts, every click charge is for exactly
      the payment that its auction's record states, and to that auction's
      winner; and every charge, fee or click, is made on the key under which its
      winner's or its position's ID was registered last when the charge was
      made, even when the key could not be looked up. */
  lemma ChargesAreRecordedPayments(tracked: bool, actions: seq<Action>, i: nat) returns (n: nat)
    requires i < |Run(Init(tracked), actions).books.charges|
    ensures MadeAt(tracked, actions, i, n)
    ensures var s := Run(Init(tracked), actions);
            var e := s.books.charges[i];
            Recorded(e, s.log) && KeyGiven(tracked, actions[..n], Owner(e)) == Some(e.key)
  {
    n := EveryChargeWasMade(tracked, actions, i);
    RunIsGenuine(tracked, actions);
    RunIsGenuine(tracked, actions[..n]);
    RunIsRooted(tracked, actions[..n]);
    NewEntryIsProper(Run(Init(tracked), actions[..n]), actions[n]);
    IssuedIsGiven(tracked, actions[..n], Owner(Run(Init(tracked), actions).books.charges[i]));
  }
}
