/** One user's billing state and the transactions on it, as values (db/billing_atomic.go,
    db/billing.go). Instants are nanoseconds; a table is a sequence of rows; every SQL
    transaction is one step. */
module Ledger {
  import opened Common
  import opened Money
  import opened Windows
  import opened Sorting

  const SECOND: int := 1_000_000_000

  /** A row of budget_windows as the query returns it: positive duration and budget. */
  datatype BudgetWindow = BudgetWindow(id: string, name: string, durationSeconds: int, budget: int)

  datatype Topup = Topup(id: string, amount: int, used: int, createdAt: int, expiresAt: Option<int>, deleted: bool)

  datatype LogRow = LogRow(id: string, cost: int, createdAt: int, status: int)

  datatype Ledger = Ledger(
    windows: seq<BudgetWindow>, assignedAt: int, resetAt: Option<int>,
    rows: seq<LogRow>, topups: seq<Topup>)

  /** The part of a request log that billing reads. */
  datatype Entry = Entry(id: string, cost: int, ceiling: int, createdAt: int, status: int)

  predicate ValidTopup(t: Topup) {
    0 <= t.used <= t.amount
  }

  predicate ValidLedger(l: Ledger) {
    && (forall i | 0 <= i < |l.windows| :: l.windows[i].durationSeconds > 0 && l.windows[i].budget > 0)
    && (forall i | 0 <= i < |l.rows| :: l.rows[i].cost >= 0)
    && (forall i | 0 <= i < |l.topups| :: ValidTopup(l.topups[i]))
  }

  predicate Succeeded(status: int) {
    200 <= status < 300
  }

  // ---- Budget periods ----

  function PeriodStart(assignedAt: int, durationSeconds: int, now: int): int {
    if durationSeconds <= 0 || assignedAt == ZERO_TIME || now < assignedAt then assignedAt
    else
      var duration := durationSeconds * SECOND;
      assignedAt + (now - assignedAt) / duration * duration
  }

  function EffectiveFloor(periodStart: int, resetAt: Option<int>): int {
    if resetAt.Some? && resetAt.value > periodStart then resetAt.value else periodStart
  }

  /** The instant from which spending counts against a window. */
  function Floor(l: Ledger, w: BudgetWindow, at: int): int {
    EffectiveFloor(PeriodStart(l.assignedAt, w.durationSeconds, at), l.resetAt)
  }

  /** The period is the one that contains `now`: it starts a whole number of durations after
      the assignment, not after `now`, and ends later than `now`. */
  lemma PeriodContainsNow(assignedAt: int, durationSeconds: int, now: int)
    requires durationSeconds > 0 && assignedAt != ZERO_TIME && assignedAt <= now
    ensures var start, duration := PeriodStart(assignedAt, durationSeconds, now), durationSeconds * SECOND;
            && assignedAt <= start <= now < start + duration
            && exists k: nat :: start == assignedAt + k * duration
  {
    var duration := durationSeconds * SECOND;
    var k := (now - assignedAt) / duration;
    assert now - assignedAt == k * duration + (now - assignedAt) % duration;
    assert k >= 0;
    assert 0 * duration <= k * duration;
  }

  /** Budget periods only move forward in time. */
  lemma PeriodStartIsMonotone(assignedAt: int, durationSeconds: int, t: int, t': int)
    requires t <= t'
    ensures PeriodStart(assignedAt, durationSeconds, t) <= PeriodStart(assignedAt, durationSeconds, t')
  {
    if durationSeconds > 0 && assignedAt != ZERO_TIME && assignedAt <= t' {
      PeriodContainsNow(assignedAt, durationSeconds, t');
      if assignedAt <= t {
        var duration := durationSeconds * SECOND;
        QuotientIsMonotone(t - assignedAt, t' - assignedAt, duration);
      }
    }
  }

  lemma QuotientIsMonotone(a: int, b: int, d: int)
    requires 0 <= a <= b && 0 < d
    ensures a / d * d <= b / d * d
  {
    if a / d >= b / d + 1 {
      assert a / d * d >= (b / d + 1) * d;
    }
  }

  /** A later instant or a later reset never lowers the floor. */
  lemma FloorIsMonotone(l: Ledger, l': Ledger, w: BudgetWindow, t: int, t': int)
    requires t <= t' && l.assignedAt == l'.assignedAt
    requires l.resetAt.Some? ==> l'.resetAt.Some? && l.resetAt.value <= l'.resetAt.value
    ensures Floor(l, w, t) <= Floor(l', w, t')
  {
    PeriodStartIsMonotone(l.assignedAt, w.durationSeconds, t, t');
  }

  // ---- Spending and balances ----

  predicate Counts(row: LogRow, floor: int) {
    row.createdAt >= floor && Succeeded(row.status)
  }

  function SpentSince(rows: seq<LogRow>, floor: int): int {
    if rows == [] then 0
    else SpentSince(rows[..|rows| - 1], floor) + (if Counts(rows[|rows| - 1], floor) then rows[|rows| - 1].cost else 0)
  }

  lemma {:induction false} SpentFallsWithFloor(rows: seq<LogRow>, floor: int, floor': int)
    requires floor <= floor' && forall i | 0 <= i < |rows| :: rows[i].cost >= 0
    ensures 0 <= SpentSince(rows, floor') <= SpentSince(rows, floor)
  {
    if rows != [] {
      SpentFallsWithFloor(rows[..|rows| - 1], floor, floor');
    }
  }

  lemma SpentOfAppended(rows: seq<LogRow>, row: LogRow, floor: int)
    ensures SpentSince(rows + [row], floor) == SpentSince(rows, floor) + (if Counts(row, floor) then row.cost else 0)
  {
    assert (rows + [row])[..|rows|] == rows;
  }

  predicate IsActive(t: Topup, now: int) {
    !t.deleted && (t.expiresAt.None? || t.expiresAt.value > now)
  }

  function Remainder(t: Topup, now: int): int {
    if IsActive(t, now) then t.amount - t.used else 0
  }

  function ActiveBalance(topups: seq<Topup>, now: int): int {
    if topups == [] then 0
    else ActiveBalance(topups[..|topups| - 1], now) + Remainder(topups[|topups| - 1], now)
  }

  function TotalUsed(topups: seq<Topup>): int {
    if topups == [] then 0 else TotalUsed(topups[..|topups| - 1]) + topups[|topups| - 1].used
  }

  lemma {:induction false} BalanceAfterUpdate(topups: seq<Topup>, i: nat, t: Topup, now: int)
    requires i < |topups|
    ensures ActiveBalance(topups[i := t], now) == ActiveBalance(topups, now) - Remainder(topups[i], now) + Remainder(t, now)
    ensures TotalUsed(topups[i := t]) == TotalUsed(topups) - topups[i].used + t.used
  {
    var n := |topups| - 1;
    if i < n {
      BalanceAfterUpdate(topups[..n], i, t, now);
      assert topups[i := t][..n] == topups[..n][i := t];
    } else {
      assert topups[i := t][..n] == topups[..n];
    }
  }

  lemma BalanceOfAppended(topups: seq<Topup>, t: Topup, now: int)
    ensures ActiveBalance(topups + [t], now) == ActiveBalance(topups, now) + Remainder(t, now)
    ensures TotalUsed(topups + [t]) == TotalUsed(topups) + t.used
  {
    assert (topups + [t])[..|topups|] == topups;
  }

  lemma {:induction false} BalanceShrinksWithTime(topups: seq<Topup>, t: int, t': int)
    requires t <= t' && forall i | 0 <= i < |topups| :: ValidTopup(topups[i])
    ensures 0 <= ActiveBalance(topups, t') <= ActiveBalance(topups, t)
  {
    if topups != [] {
      BalanceShrinksWithTime(topups[..|topups| - 1], t, t');
    }
  }

  // ---- Availability ----

  /** What one window leaves: its unspent budget and all active top-ups, never below zero. */
  function WindowAvailable(l: Ledger, w: BudgetWindow, now: int): int {
    Max(0, w.budget - SpentSince(l.rows, Floor(l, w, now)) + ActiveBalance(l.topups, now))
  }

  /** The fold over the first n windows: the least availability and the first window that has it. */
  function LimitingWindow(l: Ledger, now: int, n: nat): (int, Option<nat>)
    requires n <= |l.windows|
  {
    if n == 0 then (MAX_INT64, None)
    else
      var best := LimitingWindow(l, now, n - 1);
      var candidate := WindowAvailable(l, l.windows[n - 1], now);
      if candidate < best.0 then (candidate, Some(n - 1)) else best
  }

  function Availability(l: Ledger, now: int): int {
    LimitingWindow(l, now, |l.windows|).0
  }

  lemma {:induction false} LimitingWindowIsLeast(l: Ledger, now: int, n: nat)
    requires n <= |l.windows|
    ensures var (available, limiting) := LimitingWindow(l, now, n);
            && available >= 0
            && (forall i | 0 <= i < n :: available <= WindowAvailable(l, l.windows[i], now))
            && (limiting.None? ==> available == MAX_INT64)
            && (limiting.Some? ==>
                && limiting.value < n && available == WindowAvailable(l, l.windows[limiting.value], now)
                && forall i | 0 <= i < limiting.value :: available < WindowAvailable(l, l.windows[i], now))
  {
    if n > 0 {
      LimitingWindowIsLeast(l, now, n - 1);
    }
  }

  // ---- The marginal top-up charge ----

  function Overage(spent: int, budget: int): int {
    Max(0, spent - budget)
  }

  function WindowDelta(l: Ledger, w: BudgetWindow, createdAt: int, cost: int): int {
    var spent := SpentSince(l.rows, Floor(l, w, createdAt));
    Overage(spent + cost, w.budget) - Overage(spent, w.budget)
  }

  function ChargeOver(l: Ledger, createdAt: int, cost: int, n: nat): int
    requires n <= |l.windows|
  {
    if n == 0 then 0
    else Max(ChargeOver(l, createdAt, cost, n - 1), WindowDelta(l, l.windows[n - 1], createdAt, cost))
  }

  /** What a settlement must take from the top-ups: the largest overage growth of any window. */
  function MarginalCharge(l: Ledger, createdAt: int, cost: int): int {
    ChargeOver(l, createdAt, cost, |l.windows|)
  }

  lemma {:induction false} ChargeBounds(l: Ledger, createdAt: int, cost: int, n: nat)
    requires n <= |l.windows| && cost >= 0
    ensures 0 <= ChargeOver(l, createdAt, cost, n) <= cost
    ensures forall i | 0 <= i < n :: 0 <= WindowDelta(l, l.windows[i], createdAt, cost) <= ChargeOver(l, createdAt, cost, n)
    ensures ChargeOver(l, createdAt, cost, n) == 0
            || exists i :: 0 <= i < n && ChargeOver(l, createdAt, cost, n) == WindowDelta(l, l.windows[i], createdAt, cost)
  {
    if n > 0 {
      ChargeBounds(l, createdAt, cost, n - 1);
    }
  }

  /** A cost that every window covers, up to a reserve beyond its budget, charges at most
      that reserve: this is where admission pays for settlement. */
  lemma ChargeWithinReserve(l: Ledger, createdAt: int, cost: int, reserve: int)
    requires 0 <= cost && 0 <= reserve && ValidLedger(l)
    requires forall w | w in l.windows :: cost <= w.budget - SpentSince(l.rows, Floor(l, w, createdAt)) + reserve
    ensures 0 <= MarginalCharge(l, createdAt, cost) <= reserve
  {
    ChargeBounds(l, createdAt, cost, |l.windows|);
  }

  // ---- Whether the availability is all that could be charged ----

  function Spent(l: Ledger, w: BudgetWindow, at: int): int {
    SpentSince(l.rows, Floor(l, w, at))
  }

  /** The top-ups held at `now` cover an entry created at another instant exactly when, for
      every window, its unspent budget, none if it is overdrawn, and the top-ups together do. */
  lemma CoveredExactly(l: Ledger, createdAt: int, now: int, cost: nat)
    requires ValidLedger(l)
    ensures MarginalCharge(l, createdAt, cost) <= ActiveBalance(l.topups, now)
            <==> forall w | w in l.windows :: cost <= Max(0, w.budget - Spent(l, w, createdAt)) + ActiveBalance(l.topups, now)
  {
    hide ActiveBalance, SpentSince;
    BalanceShrinksWithTime(l.topups, now, now);
    ChargeBounds(l, createdAt, cost, |l.windows|);
    forall i | 0 <= i < |l.windows|
      ensures WindowDelta(l, l.windows[i], createdAt, cost) <= ActiveBalance(l.topups, now)
              <==> cost <= Max(0, l.windows[i].budget - Spent(l, l.windows[i], createdAt)) + ActiveBalance(l.topups, now)
    {
    }
    forall w | w in l.windows ensures exists i :: 0 <= i < |l.windows| && l.windows[i] == w {
    }
  }

  /** The availability is exactly what one generation may cost without an uncovered charge,
      unless a window is overdrawn while top-ups are left: what top-ups paid for earlier counts
      there once as spent and once as used. */
  lemma AvailabilityIsExact(l: Ledger, now: int)
    requires ValidLedger(l) && Availability(l, now) < MAX_INT64
    ensures (forall cost: nat :: cost <= Availability(l, now) <==> MarginalCharge(l, now, cost) <= ActiveBalance(l.topups, now))
            <==> ActiveBalance(l.topups, now) == 0 || forall w | w in l.windows :: Spent(l, w, now) <= w.budget
    ensures forall cost: nat | cost <= Availability(l, now) :: MarginalCharge(l, now, cost) <= ActiveBalance(l.topups, now)
  {
    hide MarginalCharge, LimitingWindow, ActiveBalance, SpentSince;
    var balance := ActiveBalance(l.topups, now);
    BalanceShrinksWithTime(l.topups, now, now);
    LimitingWindowIsLeast(l, now, |l.windows|);
    forall cost: nat ensures MarginalCharge(l, now, cost) <= balance
                             <==> forall w | w in l.windows :: cost <= Max(0, w.budget - Spent(l, w, now)) + balance
    {
      CoveredExactly(l, now, now, cost);
    }
    forall w | w in l.windows ensures Availability(l, now) <= WindowAvailable(l, w, now) {
      var i :| 0 <= i < |l.windows| && l.windows[i] == w;
    }
    var limiting := l.windows[LimitingWindow(l, now, |l.windows|).1.value];
    if balance > 0 && exists w :: w in l.windows && Spent(l, w, now) > w.budget {
      assert MarginalCharge(l, now, balance) <= balance;
      assert Availability(l, now) < balance;
    } else {
      assert Availability(l, now) == Max(0, limiting.budget - Spent(l, limiting, now)) + balance;
    }
  }

  /** A budget of 10 with 15 spent, 5 of them from a top-up of 10: nothing is available,
      and yet a cost of 5 would be covered. */
  lemma OverageCountsTwice()
    ensures var l := Ledger([BudgetWindow("w", "hour", 3600, 10)], 0, None, [LogRow("old", 15, 0, 200)],
                            [Topup("t", 10, 5, 0, None, false)]);
            Availability(l, 0) == 0 && MarginalCharge(l, 0, 5) == ActiveBalance(l.topups, 0) == 5
  {
    var w, rows, topups := BudgetWindow("w", "hour", 3600, 10), [LogRow("old", 15, 0, 200)], [Topup("t", 10, 5, 0, None, false)];
    var l := Ledger([w], 0, None, rows, topups);
    assert rows[..0] == [] && topups[..0] == [];
    assert SpentSince(rows, 0) == 15 && ActiveBalance(topups, 0) == 5;
    assert Floor(l, w, 0) == 0;
    assert LimitingWindow(l, 0, 0) == (MAX_INT64, None) && ChargeOver(l, 0, 5, 0) == 0;
  }

  // ---- Draining top-ups, earliest expiry first ----

  /** A row of the drain query, with its place in the table. */
  datatype Candidate = Candidate(index: nat, topup: Topup)

  function Candidates(topups: seq<Topup>, now: int, n: nat): (cs: seq<Candidate>)
    requires n <= |topups|
    ensures forall c | c in cs :: c.index < n && c.topup == topups[c.index]
  {
    if n == 0 then []
    else
      var before := Candidates(topups, now, n - 1);
      if IsActive(topups[n - 1], now) && topups[n - 1].used < topups[n - 1].amount
      then before + [Candidate(n - 1, topups[n - 1])] else before
  }

  /** ORDER BY expires_at ASC NULLS LAST, created_at ASC. */
  predicate DrainsBefore(a: Candidate, b: Candidate) {
    || ExpiresBefore(a.topup.expiresAt, b.topup.expiresAt)
    || (a.topup.expiresAt == b.topup.expiresAt && a.topup.createdAt < b.topup.createdAt)
  }

  predicate ExpiresBefore(a: Option<int>, b: Option<int>) {
    a.Some? && (b.None? || a.value < b.value)
  }

  /** Any answer the database may give to the drain query. */
  ghost predicate IsDrainQueue(queue: seq<Candidate>, topups: seq<Topup>, now: int) {
    IsSortOf(queue, Candidates(topups, now, |topups|), DrainsBefore)
  }

  function DrainQueue(topups: seq<Topup>, now: int): seq<Candidate> {
    SortBy(Candidates(topups, now, |topups|), DrainsBefore)
  }

  function Room(c: Candidate): int {
    c.topup.amount - c.topup.used
  }

  /** How much the loop takes from each queued top-up. */
  function Takes(queue: seq<Candidate>, amount: int): (takes: seq<int>)
    ensures |takes| == |queue|
  {
    if queue == [] then []
    else
      var consume := Min(amount, Room(queue[0]));
      [consume] + Takes(queue[1..], amount - consume)
  }

  function Apply(topups: seq<Topup>, queue: seq<Candidate>, takes: seq<int>): (result: seq<Topup>)
    requires |takes| == |queue|
    requires forall c | c in queue :: c.index < |topups|
    ensures |result| == |topups|
    decreases |queue|
  {
    if queue == [] then topups
    else
      var i := queue[0].index;
      Apply(topups[i := topups[i].(used := topups[i].used + takes[0])], queue[1..], takes[1..])
  }

  function Drained(topups: seq<Topup>, now: int, amount: int): seq<Topup> {
    if amount <= 0 then topups
    else
      QueueIsDrainQueue(topups, now);
      Apply(topups, DrainQueue(topups, now), Takes(DrainQueue(topups, now), amount))
  }

  lemma DrainOrder()
    ensures StrictWeakOrder(DrainsBefore)
  {
  }

  lemma QueueIsDrainQueue(topups: seq<Topup>, now: int)
    ensures IsDrainQueue(DrainQueue(topups, now), topups, now)
    ensures forall c | c in DrainQueue(topups, now) :: c.index < |topups| && c.topup == topups[c.index]
  {
    DrainOrder();
    SortBySorts(Candidates(topups, now, |topups|), DrainsBefore);
    QueueMembers(DrainQueue(topups, now), topups, now);
  }

  lemma QueueMembers(queue: seq<Candidate>, topups: seq<Topup>, now: int)
    requires IsDrainQueue(queue, topups, now)
    ensures forall c | c in queue :: c.index < |topups| && c.topup == topups[c.index]
    ensures forall c | c in queue :: IsActive(c.topup, now) && c.topup.used < c.topup.amount
    ensures forall i, j | 0 <= i < j < |queue| :: queue[i].index != queue[j].index
  {
    var all := Candidates(topups, now, |topups|);
    forall c | c in queue ensures c in all {
      assert c in multiset(queue);
    }
    CandidateFacts(topups, now, |topups|);
    var byIndex := (a: Candidate, b: Candidate) => a.index < b.index;
    forall i, j | 0 <= i < j < |queue| ensures queue[i].index != queue[j].index {
      assert queue[i] in all;
      var k :| 0 <= k < |all| && all[k] == queue[i];
      CountedOnce(all, k, byIndex);
      CountedTwice(queue, i, j);
    }
  }

  lemma {:induction false} CandidateFacts(topups: seq<Topup>, now: int, n: nat)
    requires n <= |topups|
    ensures var cs := Candidates(topups, now, n);
            && (forall c | c in cs :: IsActive(c.topup, now) && c.topup.used < c.topup.amount)
            && (forall i, j | 0 <= i < j < |cs| :: cs[i].index < cs[j].index)
  {
    if n > 0 {
      CandidateFacts(topups, now, n - 1);
      var before := Candidates(topups, now, n - 1);
      forall c | c in before ensures c.index < n - 1 {}
    }
  }
}
