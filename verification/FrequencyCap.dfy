/** The impression frequency cap (platform/db.go, handler/events.go): a counter
    per advertiser and user over a window that starts with the impression that
    opened it. Times are clock readings in some unit. */
module FrequencyCap {
  import opened Wrappers
  import opened Sequences

  /** A row of the frequency_caps table. */
  datatype Cap = Cap(count: int, start: int)

  /** Whether the window lies too far back. */
  predicate Expired(cap: Cap, now: int, window: int) {
    cap.start < now - window
  }

  predicate UnderCap(row: Option<Cap>, max: int, now: int, window: int) {
    row.None? || Expired(row.value, now, window) || row.value.count < max
  }

  /** The counter update reads the clock twice: for the cutoff, then for the
      new start. If its read of the row fails, the start that it holds is still
      the zero time, which lies before every cutoff. */
  function Incremented(row: Option<Cap>, cutoff: int, now: int, window: int, readFails: bool): Cap {
    if readFails || row.None? || Expired(row.value, cutoff, window) then Cap(1, now) else Cap(row.value.count + 1, row.value.start)
  }

  /** One impression request: the clock readings of the check, of the logged
      event and of the counter update, and which calls fail. */
  datatype Request = Request(check: int, at: int, cutoff: int, now: int,
                             checkFails: bool, logFails: bool, readFails: bool, writeFails: bool)

  predicate Accepts(row: Option<Cap>, max: int, window: int, r: Request) {
    !r.checkFails && UnderCap(row, max, r.check, window) && !r.logFails
  }

  /** A failed counter update is ignored: the impression stays accepted. */
  function After(row: Option<Cap>, max: int, window: int, r: Request): Option<Cap> {
    if Accepts(row, max, window, r) && !r.writeFails then Some(Incremented(row, r.cutoff, r.now, window, r.readFails)) else row
  }

  class Database {
    var caps: map<(string, string), Cap>
    var impressions: seq<(string, string)>

    constructor ()
      ensures caps == map[] && impressions == []
    {
      caps, impressions := map[], [];
    }

    function Row(advertiser: string, user: string): Option<Cap>
      reads this
    {
      if (advertiser, user) in caps then Some(caps[(advertiser, user)]) else None
    }

    method CheckFrequencyCap(advertiser: string, user: string, max: int, window: int, now: int) returns (ok: bool)
      ensures ok <==> UnderCap(Row(advertiser, user), max, now, window)
      ensures var key := (advertiser, user);
              ok <==> key in caps && caps[key].start + window >= now ==> caps[key].count < max
    {
      var cutoff := now - window;
      if (advertiser, user) !in caps {
        return true;
      }
      var row := caps[(advertiser, user)];
      if row.start < cutoff {
        return true;
      }
      return row.count < max;
    }

    /** A failed read is reported only if the write after it fails, too. */
    method IncrementFrequencyCap(advertiser: string, user: string, window: int, first: int, second: int, readFails: bool, writeFails: bool)
        returns (err: bool)
      modifies `caps
      ensures err == writeFails
      ensures caps == if err then old(caps)
                      else old(caps)[(advertiser, user) := Incremented(old(Row(advertiser, user)), first, second, window, readFails)]
      ensures !writeFails ==>
                var key := (advertiser, user);
                key in caps && caps[key] ==
                if !readFails && key in old(caps) && old(caps)[key].start + window >= first
                then Cap(old(caps)[key].count + 1, old(caps)[key].start) else Cap(1, second)
    {
      var cutoff := first - window;
      var start := None;
      if !readFails && (advertiser, user) in caps {
        start := Some(caps[(advertiser, user)].start);
      }
      if writeFails {
        return true;
      }
      if start.None? || start.value < cutoff {
        caps := caps[(advertiser, user) := Cap(1, second)];
      } else {
        var row := caps[(advertiser, user)];
        caps := caps[(advertiser, user) := row.(count := row.count + 1)];
      }
      return false;
    }

    /** Anonymous impressions are not capped. */
    method HandleImpression(advertiser: string, user: string, max: int, window: int, r: Request) returns (status: nat)
      modifies this
      ensures var row := old(Row(advertiser, user));
              var accepted := advertiser != "" && if user == "" then !r.logFails else Accepts(row, max, window, r);
              && (status == 200 <==> accepted)
              && impressions == old(impressions) + (if accepted then [(advertiser, user)] else [])
              && Row(advertiser, user) == (if advertiser == "" || user == "" then row else After(row, max, window, r))
      ensures forall k :: k != (advertiser, user) ==> (k in caps <==> k in old(caps)) && (k in caps ==> caps[k] == old(caps)[k])
      ensures status in {200, 400, 429, 500} && (status == 400 <==> advertiser == "")
      ensures status == 429 <==> advertiser != "" && user != "" && !r.checkFails && !UnderCap(old(Row(advertiser, user)), max, r.check, window)
    {
      if advertiser == "" {
        return 400;
      }
      if user != "" {
        if r.checkFails {
          return 500;
        }
        var ok := CheckFrequencyCap(advertiser, user, max, window, r.check);
        if !ok {
          return 429;
        }
      }
      if r.logFails {
        return 500;
      }
      impressions := impressions + [(advertiser, user)];
      if user != "" {
        var _ := IncrementFrequencyCap(advertiser, user, window, r.cutoff, r.now, r.readFails, r.writeFails);
      }
      return 200;
    }
  }

  // ----- runs for one advertiser and user -----

  function RowAfter(rs: seq<Request>, max: int, window: int): Option<Cap> {
    if rs == [] then None else After(RowAfter(rs[..|rs| - 1], max, window), max, window, rs[|rs| - 1])
  }

  /** The impressions accepted at times in [a, b]. */
  function AcceptedIn(rs: seq<Request>, max: int, window: int, a: int, b: int): nat {
    if rs == [] then 0
    else
      var rest, r := rs[..|rs| - 1], rs[|rs| - 1];
      AcceptedIn(rest, max, window, a, b) + One(Accepts(RowAfter(rest, max, window), max, window, r) && a <= r.at <= b)
  }

  /** The requests are handled one at a time under a monotone clock. */
  predicate InOrder(rs: seq<Request>) {
    && (forall i :: 0 <= i < |rs| ==> rs[i].check <= rs[i].at <= rs[i].cutoff <= rs[i].now)
    && (forall i :: 0 <= i < |rs| - 1 ==> rs[i].now <= rs[i + 1].check)
  }

  function AtLeastOne(max: int): int {
    if max < 1 then 1 else max
  }

  /** A counter update that starts over, although the row may be current. */
  predicate Resets(r: Request) {
    r.readFails && !r.writeFails
  }

  /** The accepted impressions at times in [a, b] whose counter update started
      over after a failed read, and those whose update was not written. */
  function ResetsIn(rs: seq<Request>, max: int, window: int, a: int, b: int): nat {
    if rs == [] then 0
    else
      var rest, r := rs[..|rs| - 1], rs[|rs| - 1];
      ResetsIn(rest, max, window, a, b) + One(Accepts(RowAfter(rest, max, window), max, window, r) && a <= r.at <= b && Resets(r))
  }

  function LostIn(rs: seq<Request>, max: int, window: int, a: int, b: int): nat {
    if rs == [] then 0
    else
      var rest, r := rs[..|rs| - 1], rs[|rs| - 1];
      LostIn(rest, max, window, a, b) + One(Accepts(RowAfter(rest, max, window), max, window, r) && a <= r.at <= b && r.writeFails)
  }

  /** How many more impressions one failing counter update lets through. */
  function Allowance(max: int, r: Request): nat {
    if r.writeFails then 1 else if r.readFails then AtLeastOne(max) - 1 else 0
  }

  function AllowedIn(rs: seq<Request>, max: int, window: int, a: int, b: int): nat {
    if rs == [] then 0
    else
      var rest, r := rs[..|rs| - 1], rs[|rs| - 1];
      AllowedIn(rest, max, window, a, b)
      + if Accepts(RowAfter(rest, max, window), max, window, r) && a <= r.at <= b then Allowance(max, r) else 0
  }

  lemma {:induction false} AllowedPerFailure(rs: seq<Request>, max: int, window: int, a: int, b: int)
    ensures AllowedIn(rs, max, window, a, b) ==
            ResetsIn(rs, max, window, a, b) * (AtLeastOne(max) - 1) + LostIn(rs, max, window, a, b)
  {
    if rs != [] {
      var m := AtLeastOne(max) - 1;
      AllowedPerFailure(rs[..|rs| - 1], max, window, a, b);
      assert (ResetsIn(rs[..|rs| - 1], max, window, a, b) + 1) * m == ResetsIn(rs[..|rs| - 1], max, window, a, b) * m + m;
    }
  }

  /** How many impressions of [a, a + window] may have been accepted, by where
      the current window starts; more lets in those that failures allow. */
  predicate Bounded(row: Option<Cap>, n: nat, more: nat, last: int, max: int, window: int, a: int) {
    (n > 0 ==> a <= last) &&
    match row
    case None => n <= more
    case Some(cap) =>
      && 1 <= cap.count <= AtLeastOne(max) && cap.start <= last
      && if cap.start < a then n <= cap.count - 1 + more
         else if cap.start <= a + window then n <= AtLeastOne(max) - 1 + cap.count + more
         else n <= 2 * AtLeastOne(max) - 1 + more
  }

  lemma StepKeepsBound(row: Option<Cap>, n: nat, more: nat, last: int, max: int, window: int, a: int, r: Request)
    requires window >= 0 && Bounded(row, n, more, last, max, window, a)
    requires row.Some? || n > 0 ==> last <= r.check
    requires r.check <= r.at <= r.cutoff <= r.now
    ensures var counted := Accepts(row, max, window, r) && a <= r.at <= a + window;
            Bounded(After(row, max, window, r), n + One(counted), more + if counted then Allowance(max, r) else 0, r.now, max, window, a)
  {
  }

  lemma {:induction false} RunIsBounded(rs: seq<Request>, max: int, window: int, a: int)
    requires window >= 0 && InOrder(rs)
    ensures Bounded(RowAfter(rs, max, window), AcceptedIn(rs, max, window, a, a + window), AllowedIn(rs, max, window, a, a + window),
                    if rs == [] then 0 else rs[|rs| - 1].now, max, window, a)
  {
    if rs != [] {
      var n := |rs| - 1;
      var rest := rs[..n];
      RunIsBounded(rest, max, window, a);
      assert n > 0 ==> rest[n - 1].now <= rs[n - 1 + 1].check;
      StepKeepsBound(RowAfter(rest, max, window), AcceptedIn(rest, max, window, a, a + window), AllowedIn(rest, max, window, a, a + window),
                     if rest == [] then 0 else rest[n - 1].now, max, window, a, rs[n]);
    }
  }

  /** Whatever calls fail: any closed interval as long as the window holds at
      most 2M - 1 accepted impressions, plus M - 1 for each of them whose counter
      update could not read the row and started over, plus one for each whose
      update was not written; a cap below one acts as a cap of one. */
  lemma SlidingWindowBound(rs: seq<Request>, max: int, window: int, a: int)
    requires window >= 0 && InOrder(rs)
    ensures var b, m := a + window, AtLeastOne(max);
            AcceptedIn(rs, max, window, a, b) <=
            2 * m - 1 + ResetsIn(rs, max, window, a, b) * (m - 1) + LostIn(rs, max, window, a, b)
  {
    RunIsBounded(rs, max, window, a);
    AllowedPerFailure(rs, max, window, a, a + window);
  }

  // ----- the bound is sharp -----

  /** A request handled within one instant. */
  function At(t: int, readFails: bool, writeFails: bool): Request {
    Request(t, t, t, t, false, false, readFails, writeFails)
  }

  /** rs, then k times r. */
  function Burst(rs: seq<Request>, r: Request, k: nat): seq<Request> {
    if k == 0 then rs else Burst(rs, r, k - 1) + [r]
  }

  /** After rs the row is row, and of [a, a + window] n impressions were
      accepted, with so many resets and lost updates among them. */
  predicate Stands(rs: seq<Request>, max: int, window: int, a: int, row: Option<Cap>, n: nat, resets: nat, lost: nat) {
    && RowAfter(rs, max, window) == row && AcceptedIn(rs, max, window, a, a + window) == n
    && ResetsIn(rs, max, window, a, a + window) == resets && LostIn(rs, max, window, a, a + window) == lost
  }

  lemma OneMore(rs: seq<Request>, r: Request, max: int, window: int, a: int, row: Option<Cap>, n: nat, resets: nat, lost: nat)
    requires Stands(rs, max, window, a, row, n, resets, lost)
    ensures var counted := Accepts(row, max, window, r) && a <= r.at <= a + window;
            Stands(rs + [r], max, window, a, After(row, max, window, r),
                   n + One(counted), resets + One(counted && Resets(r)), lost + One(counted && r.writeFails))
  {
    assert (rs + [r])[..|rs|] == rs;
  }

  /** A faultless burst within the window and the cap is accepted whole ... */
  lemma {:induction false} BurstCounted(rs: seq<Request>, t: int, k: nat, max: int, window: int, a: int, cap: Cap, n: nat, resets: nat, lost: nat)
    requires Stands(rs, max, window, a, Some(cap), n, resets, lost) && a <= t <= a + window
    requires !Expired(cap, t, window) && cap.count + k <= max
    ensures Stands(Burst(rs, At(t, false, false), k), max, window, a, Some(Cap(cap.count + k, cap.start)), n + k, resets, lost)
  {
    if k > 0 {
      var j: nat := k - 1;
      BurstCounted(rs, t, j, max, window, a, cap, n, resets, lost);
      OneMore(Burst(rs, At(t, false, false), j), At(t, false, false), max, window, a, Some(Cap(cap.count + j, cap.start)), n + j, resets, lost);
    }
  }

  /** ... and so is a burst of lost updates once the window is over. */
  lemma {:induction false} BurstLost(rs: seq<Request>, t: int, k: nat, max: int, window: int, a: int, cap: Cap, n: nat)
    requires Stands(rs, max, window, a, Some(cap), n, 0, 0) && a <= t <= a + window && Expired(cap, t, window)
    ensures Stands(Burst(rs, At(t, false, true), k), max, window, a, Some(cap), n + k, 0, k)
  {
    if k > 0 {
      BurstLost(rs, t, k - 1, max, window, a, cap, n);
      OneMore(Burst(rs, At(t, false, true), k - 1), At(t, false, true), max, window, a, Some(cap), n + (k - 1), 0, k - 1);
    }
  }

  /** k times over, fills the window up to its last impression and then starts over. */
  function Cycles(rs: seq<Request>, t: int, max: int, k: nat): seq<Request>
    requires max >= 2
  {
    if k == 0 then rs else Burst(Cycles(rs, t, max, k - 1), At(t, false, false), max - 2) + [At(t, true, false)]
  }

  /** What k cycles let through. */
  function CycleGain(max: int, k: nat): (r: nat)
    requires max >= 2
    ensures r == k * (max - 1)
  {
    if k == 0 then 0 else CycleGain(max, k - 1) + (max - 1)
  }

  lemma {:induction false} CyclesStand(rs: seq<Request>, t: int, k: nat, max: int, window: int, a: int, n: nat, lost: nat)
    requires max >= 2 && window >= 0 && a <= t <= a + window
    requires Stands(rs, max, window, a, Some(Cap(1, t)), n, 0, lost)
    ensures Stands(Cycles(rs, t, max, k), max, window, a, Some(Cap(1, t)), n + CycleGain(max, k), k, lost)
  {
    if k > 0 {
      var j: nat := k - 1;
      CyclesStand(rs, t, j, max, window, a, n, lost);
      OneCycle(Cycles(rs, t, max, j), t, max, window, a, n + CycleGain(max, j), j, lost);
    }
  }

  lemma OneCycle(rs: seq<Request>, t: int, max: int, window: int, a: int, n: nat, resets: nat, lost: nat)
    requires max >= 2 && window >= 0 && a <= t <= a + window
    requires Stands(rs, max, window, a, Some(Cap(1, t)), n, resets, lost)
    ensures Stands(Burst(rs, At(t, false, false), max - 2) + [At(t, true, false)], max, window, a,
                   Some(Cap(1, t)), n + (max - 1), resets + 1, lost)
  {
    var k: nat := max - 2;
    BurstCounted(rs, t, k, max, window, a, Cap(1, t), n, resets, lost);
    OneMore(Burst(rs, At(t, false, false), k), At(t, true, false), max, window, a, Some(Cap(1 + k, t)), n + k, resets, lost);
  }

  /** In order, and ended by time t. */
  predicate EndsBy(rs: seq<Request>, t: int) {
    InOrder(rs) && (rs != [] ==> rs[|rs| - 1].now <= t)
  }

  lemma EndsByOneMore(rs: seq<Request>, t: int, readFails: bool, writeFails: bool)
    requires EndsBy(rs, t)
    ensures EndsBy(rs + [At(t, readFails, writeFails)], t)
  {
  }

  lemma {:induction false} BurstEndsBy(rs: seq<Request>, t: int, writeFails: bool, k: nat)
    requires EndsBy(rs, t)
    ensures EndsBy(Burst(rs, At(t, false, writeFails), k), t)
  {
    if k > 0 {
      BurstEndsBy(rs, t, writeFails, k - 1);
      EndsByOneMore(Burst(rs, At(t, false, writeFails), k - 1), t, false, writeFails);
    }
  }

  lemma {:induction false} CyclesEndBy(rs: seq<Request>, t: int, max: int, k: nat)
    requires max >= 2 && EndsBy(rs, t)
    ensures EndsBy(Cycles(rs, t, max, k), t)
  {
    if k > 0 {
      CyclesEndBy(rs, t, max, k - 1);
      BurstEndsBy(Cycles(rs, t, max, k - 1), t, false, max - 2);
      EndsByOneMore(Burst(Cycles(rs, t, max, k - 1), At(t, false, false), max - 2), t, true, false);
    }
  }

  lemma FirstImpression(max: int, window: int)
    requires max >= 1 && window >= 1
    ensures Stands([At(0, false, false)], max, window, 1, Some(Cap(1, 0)), 0, 0, 0) && EndsBy([At(0, false, false)], window)
  {
    OneMore([], At(0, false, false), max, window, 1, None, 0, 0, 0);
    assert [] + [At(0, false, false)] == [At(0, false, false)];
  }

  /** One impression at 0, and the rest of its window at the very end. */
  lemma LateWindow(max: int, window: int) returns (rs: seq<Request>)
    requires max >= 1 && window >= 1
    ensures Stands(rs, max, window, 1, Some(Cap(max, 0)), max - 1, 0, 0) && EndsBy(rs, window)
  {
    var first := [At(0, false, false)];
    FirstImpression(max, window);
    BurstEndsBy(first, window, false, max - 1);
    BurstCounted(first, window, max - 1, max, window, 1, Cap(1, 0), 0, 0, 0);
    rs := Burst(first, At(window, false, false), max - 1);
  }

  /** One tick later the window is over, and some updates are lost ... */
  lemma LateLosses(max: int, window: int, lost: nat) returns (rs: seq<Request>)
    requires max >= 1 && window >= 1
    ensures Stands(rs, max, window, 1, Some(Cap(max, 0)), max - 1 + lost, 0, lost) && EndsBy(rs, window + 1)
  {
    var late := LateWindow(max, window);
    BurstLost(late, window + 1, lost, max, window, 1, Cap(max, 0), max - 1);
    BurstEndsBy(late, window + 1, true, lost);
    rs := Burst(late, At(window + 1, false, true), lost);
  }

  /** ... before the next impression opens another window. */
  lemma Reopened(max: int, window: int, lost: nat) returns (rs: seq<Request>)
    requires max >= 1 && window >= 1
    ensures Stands(rs, max, window, 1, Some(Cap(1, window + 1)), max + lost, 0, lost) && EndsBy(rs, window + 1)
  {
    var late := LateLosses(max, window, lost);
    OneMore(late, At(window + 1, false, false), max, window, 1, Some(Cap(max, 0)), max - 1 + lost, 0, lost);
    EndsByOneMore(late, window + 1, false, false);
    rs := late + [At(window + 1, false, false)];
  }

  /** The bound is sharp: for every cap and window, and every number of resets
      and lost updates, there is a run that reaches it. (Under a cap of one no
      reset lets anything through.) */
  lemma BoundIsReached(max: int, window: int, resets: nat, lost: nat) returns (rs: seq<Request>)
    requires max >= 1 && window >= 1 && (max >= 2 || resets == 0)
    ensures InOrder(rs)
    ensures ResetsIn(rs, max, window, 1, 1 + window) == resets && LostIn(rs, max, window, 1, 1 + window) == lost
    ensures AcceptedIn(rs, max, window, 1, 1 + window) == 2 * max - 1 + resets * (max - 1) + lost
  {
    var t := window + 1;
    rs := Reopened(max, window, lost);
    if max >= 2 {
      CyclesStand(rs, t, resets, max, window, 1, max + lost, lost);
      CyclesEndBy(rs, t, max, resets);
      rs := Cycles(rs, t, max, resets);
    }
    BurstCounted(rs, t, max - 1, max, window, 1, Cap(1, t), max + lost + if max >= 2 then CycleGain(max, resets) else 0, resets, lost);
    BurstEndsBy(rs, t, false, max - 1);
    rs := Burst(rs, At(t, false, false), max - 1);
  }

  /** The bound rests on the counter updates: if each of them is lost, or starts
      over under a cap of two or more, every impression is accepted. */
  lemma {:induction false} UncountedNeverCapped(rs: seq<Request>, max: int, window: int, a: int, b: int)
    requires forall i :: 0 <= i < |rs| ==>
               !rs[i].checkFails && !rs[i].logFails && a <= rs[i].at <= b && (rs[i].writeFails || (rs[i].readFails && max >= 2))
    ensures RowAfter(rs, max, window).Some? ==> max >= 2 && RowAfter(rs, max, window).value.count == 1
    ensures AcceptedIn(rs, max, window, a, b) == |rs|
  {
    if rs != [] {
      UncountedNeverCapped(rs[..|rs| - 1], max, window, a, b);
    }
  }
}
