/** The billing database of one user and the outbox in front of it, as the program updates
    them: row by row, under the transaction lock (db/billing_atomic.go, db/billing.go,
    proxy/outbox.go). Every method is held to the step functions on ledgers. */
module BillingStore {
  import opened Common
  import opened Money
  import opened Ledger
  import opened Settlement
  import opened Sorting
  import opened RequestLogs
  import opened Protocol
  import Drain

  datatype BudgetAvailability =
    | Found(available: int, windowId: string, windowName: string, windowStartedAt: int, windowResetAt: int)
    | NoActiveUser
    | NoBudgetWindow

  /** The answer for the window that limits the user, or for none. */
  function Limited(l: Ledger, now: int, available: int, limiting: Option<nat>): BudgetAvailability
    requires limiting.Some? ==> limiting.value < |l.windows|
  {
    if limiting.None? then Found(available, "", "", 0, 0)
    else
      var w := l.windows[limiting.value];
      Found(available, w.id, w.name, Floor(l, w, now),
            PeriodStart(l.assignedAt, w.durationSeconds, now) + w.durationSeconds * SECOND)
  }

  class Store {
    var active: bool
    var windows: seq<BudgetWindow>
    var assignedAt: int
    var resetAt: Option<int>
    var rows: seq<LogRow>
    var topups: seq<Topup>

    function Contents(): Ledger
      reads this
    {
      Ledger(windows, assignedAt, resetAt, rows, topups)
    }

    predicate Valid()
      reads this
    {
      ValidLedger(Contents()) && UniqueRowIds(rows)
    }

    constructor (l: Ledger)
      requires ValidLedger(l) && UniqueRowIds(l.rows)
      ensures Valid() && Contents() == l && active
    {
      active, windows, assignedAt, resetAt, rows, topups := true, l.windows, l.assignedAt, l.resetAt, l.rows, l.topups;
    }

    /** The least of the windows' availabilities, with the first window that has it. */
    method GetBudgetAvailability(now: int) returns (result: BudgetAvailability)
      ensures !active ==> result == NoActiveUser
      ensures active && windows == [] ==> result == NoBudgetWindow
      ensures active && windows != [] ==>
                && result.Found? && result.available == Availability(Contents(), now)
                && (forall i | 0 <= i < |windows| :: result.available <= WindowAvailable(Contents(), windows[i], now))
                && (result.available < MAX_INT64 ==>
                    exists i :: 0 <= i < |windows|
                      && result == Limited(Contents(), now, WindowAvailable(Contents(), windows[i], now), Some(i))
                      && forall j | 0 <= j < i :: result.available < WindowAvailable(Contents(), windows[j], now))
    {
      if !active {
        return NoActiveUser;
      }
      if windows == [] {
        return NoBudgetWindow;
      }
      var balance := ActiveBalance(topups, now);
      result := Found(MAX_INT64, "", "", 0, 0);
      ghost var limiting: Option<nat> := None;
      for i := 0 to |windows|
        invariant result.Found?
        invariant (result.available, limiting) == LimitingWindow(Contents(), now, i)
        invariant limiting.Some? ==> limiting.value < i
        invariant result == Limited(Contents(), now, result.available, limiting)
      {
        var window := windows[i];
        var periodStart := PeriodStart(assignedAt, window.durationSeconds, now);
        var startedAt := EffectiveFloor(periodStart, resetAt);
        var spent := SpentSince(rows, startedAt);
        var candidate := window.budget - spent + balance;
        if candidate < 0 {
          candidate := 0;
        }
        if candidate < result.available {
          result := Found(candidate, window.id, window.name, startedAt, periodStart + window.durationSeconds * SECOND);
          limiting := Some(i);
        }
      }
      LimitingWindowIsLeast(Contents(), now, |windows|);
    }

    method MarginalTopupCharge(createdAt: int, cost: int) returns (maximum: int)
      ensures maximum == MarginalCharge(Contents(), createdAt, cost)
    {
      maximum := 0;
      for i := 0 to |windows|
        invariant maximum == ChargeOver(Contents(), createdAt, cost, i)
      {
        var floor := EffectiveFloor(PeriodStart(assignedAt, windows[i].durationSeconds, createdAt), resetAt);
        var spent := SpentSince(rows, floor);
        var before := Max(0, spent - windows[i].budget);
        var after := Max(0, spent + cost - windows[i].budget);
        if after - before > maximum {
          maximum := after - before;
        }
      }
    }

    /** Updates the queued rows one after the other and stops when nothing remains to be taken. */
    method ConsumeQueue(queue: seq<Candidate>, amount: int) returns (remaining: int)
      requires amount > 0 && forall c | c in queue :: c.index < |topups| && 0 <= Room(c)
      modifies `topups
      ensures topups == Apply(old(topups), queue, Takes(queue, amount))
      ensures remaining == amount - Drain.Sum(Takes(queue, amount))
    {
      ghost var goal, total := Apply(topups, queue, Takes(queue, amount)), Drain.Sum(Takes(queue, amount));
      hide Takes, Apply, Drain.Sum;
      remaining := amount;
      var k := 0;
      assert queue[0..] == queue;
      while k < |queue|
        invariant 0 <= k <= |queue| && 0 < remaining && |topups| == |goal|
        invariant Apply(topups, queue[k..], Takes(queue[k..], remaining)) == goal
        invariant amount - remaining + Drain.Sum(Takes(queue[k..], remaining)) == total
      {
        var current := queue[k];
        assert current in queue && queue[k..][0] == current && queue[k..][1..] == queue[k + 1..];
        DrainStep(topups, queue[k..], remaining);
        var consume := Min(remaining, current.topup.amount - current.topup.used);
        topups := topups[current.index := topups[current.index].(used := topups[current.index].used + consume)];
        remaining := remaining - consume;
        k := k + 1;
        if remaining == 0 {
          NothingMoreToTake(topups, queue[k..]);
          return;
        }
      }
      assert queue[k..] == [];
      DrainEnds(topups, remaining);
    }

    /** Consumes the active top-ups, earliest expiry first; what they do not reach remains. */
    method DeductFromTopups(now: int, amount: int) returns (remaining: int)
      requires Valid()
      modifies `topups
      ensures Valid() && topups == Drained(old(topups), now, amount)
      ensures remaining == if amount <= 0 then 0 else amount - Min(amount, ActiveBalance(old(topups), now))
    {
      if amount <= 0 {
        return 0;
      }
      hide DrainQueue, Drained, Takes, Apply, ActiveBalance, ValidTopup;
      DrainPlan(Contents(), now, amount);
      remaining := ConsumeQueue(DrainQueue(topups, now), amount);
    }

    /** One atomic transaction: the entry is normalised, a known id is left alone, and the
        marginal charge is drawn before the row is inserted. */
    method SettleUsageAndLog(log: Entry, now: int) returns (ok: bool)
      requires Valid()
      modifies this
      ensures Valid()
      ensures ok <==> Settled(old(Contents()), log, now).Some?
      ensures Contents() == if ok then Settled(old(Contents()), log, now).value.ledger else old(Contents())
      ensures active == old(active)
    {
      SettledMeans(Contents(), log, now);
      hide Settled, Drained, MarginalCharge, ActiveBalance, ValidLedger;
      var entry := new RequestLog(log);
      ok := entry.NormalizeSettledEntry();
      if !ok {
        return;
      }
      if Recorded(rows, entry.id) {
        return;
      }
      if entry.cost > 0 {
        var charge := MarginalTopupCharge(entry.createdAt, entry.cost);
        var _ := DeductFromTopups(now, charge);
      }
      rows := rows + [LogRow(entry.id, entry.cost, entry.createdAt, entry.status)];
    }

    /** The path of entries without a ceiling: no cap and no charge. */
    method InsertRequestLog(log: Entry) returns (ok: bool)
      requires Valid()
      modifies this
      ensures Valid()
      ensures ok <==> Inserted(old(Contents()), log).Some?
      ensures Contents() == if ok then Inserted(old(Contents()), log).value.ledger else old(Contents())
      ensures active == old(active)
    {
      if log.cost < 0 {
        return false;
      }
      if !Recorded(rows, log.id) {
        rows := rows + [LogRow(log.id, log.cost, log.createdAt, log.status)];
      }
      return true;
    }

    method Persist(log: Entry, now: int) returns (ok: bool)
      requires Valid()
      modifies this
      ensures Valid()
      ensures ok <==> Persisted(old(Contents()), log, now).Some?
      ensures Contents() == if ok then Persisted(old(Contents()), log, now).value.ledger else old(Contents())
      ensures active == old(active)
    {
      if log.ceiling <= 0 {
        ok := InsertRequestLog(log);
      } else {
        ok := SettleUsageAndLog(log, now);
      }
    }

    /** Usage before the reset no longer counts against any window; the rows stay. */
    method ResetUserUsage(now: int)
      requires Valid()
      modifies this`resetAt
      ensures Valid() && Contents() == old(Contents()).(resetAt := Some(now))
      ensures forall i | 0 <= i < |windows| && PeriodStart(assignedAt, windows[i].durationSeconds, now) <= now ::
                Floor(Contents(), windows[i], now) == now
    {
      resetAt := Some(now);
    }
  }

  /** The ledger a settlement leaves, spelled out. */
  lemma SettledMeans(l: Ledger, e: Entry, now: int)
    requires ValidLedger(l) && UniqueRowIds(l.rows)
    ensures var cost, o := NormalizedCost(e), Settled(l, e, now);
            && (o.Some? <==> cost.Some?)
            && (o.Some? ==> ValidLedger(o.value.ledger) && UniqueRowIds(o.value.ledger.rows))
            && (o.Some? && Recorded(l.rows, e.id) ==> o.value.ledger == l)
            && (o.Some? && !Recorded(l.rows, e.id) ==>
                  o.value.ledger == l.(rows := l.rows + [LogRow(e.id, cost.value, e.createdAt, e.status)],
                                       topups := if cost.value > 0 then Drained(l.topups, now, MarginalCharge(l, e.createdAt, cost.value))
                                                 else l.topups))
  {
    if Settled(l, e, now).Some? {
      SettledStaysValid(l, e, now);
    }
  }

  lemma DrainPlan(l: Ledger, now: int, amount: int)
    requires ValidLedger(l) && amount > 0
    ensures forall c | c in DrainQueue(l.topups, now) :: c.index < |l.topups| && 0 <= Room(c)
    ensures Drained(l.topups, now, amount) == Apply(l.topups, DrainQueue(l.topups, now), Takes(DrainQueue(l.topups, now), amount))
    ensures Drain.Sum(Takes(DrainQueue(l.topups, now), amount)) == Min(amount, ActiveBalance(l.topups, now))
    ensures ValidLedger(l.(topups := Drained(l.topups, now, amount)))
  {
    hide SortBy, DrainQueue, IsDrainQueue, Takes, Apply, Drain.Sum, ActiveBalance, TotalUsed;
    var queue := DrainQueue(l.topups, now);
    QueueIsDrainQueue(l.topups, now);
    Drain.QueueBalance(queue, l.topups, now);
    Drain.DrainIsExact(queue, l.topups, now, amount);
    DrainedBalance(l, now, amount);
  }

  lemma DrainStep(topups: seq<Topup>, queue: seq<Candidate>, remaining: int)
    requires queue != [] && forall c | c in queue :: c.index < |topups|
    ensures var consume := Min(remaining, Room(queue[0]));
            var topups' := topups[queue[0].index := topups[queue[0].index].(used := topups[queue[0].index].used + consume)];
            && Apply(topups, queue, Takes(queue, remaining)) == Apply(topups', queue[1..], Takes(queue[1..], remaining - consume))
            && Drain.Sum(Takes(queue, remaining)) == consume + Drain.Sum(Takes(queue[1..], remaining - consume))
  {
  }

  lemma DrainEnds(topups: seq<Topup>, remaining: int)
    ensures Apply(topups, [], Takes([], remaining)) == topups && Drain.Sum(Takes([], remaining)) == 0
  {
  }

  lemma {:induction false} NothingMoreToTake(topups: seq<Topup>, queue: seq<Candidate>)
    requires forall c | c in queue :: c.index < |topups| && 0 <= Room(c)
    ensures Apply(topups, queue, Takes(queue, 0)) == topups
    ensures Drain.Sum(Takes(queue, 0)) == 0
    decreases |queue|
  {
    if queue != [] {
      assert Takes(queue, 0)[1..] == Takes(queue[1..], 0);
      var i := queue[0].index;
      assert topups[i := topups[i].(used := topups[i].used + 0)] == topups;
      NothingMoreToTake(topups, queue[1..]);
    }
  }

  // ---- The outbox ----

  /** The ledger after a ladder of attempts at the given instants, and whether one was seen to succeed. */
  function AfterAttempts(l: Ledger, e: Entry, attempts: seq<Attempt>, times: seq<int>): (Ledger, bool)
    requires |attempts| == |times|
    decreases |attempts|
  {
    if attempts == [] then (l, false)
    else
      var tried := if attempts[0].NotCommitted? || Persisted(l, e, times[0]).None? then l
                   else Persisted(l, e, times[0]).value.ledger;
      if attempts[0].Committed? && Persisted(l, e, times[0]).Some? then (tried, true)
      else AfterAttempts(tried, e, attempts[1..], times[1..])
  }

  /** However many attempts commit unseen, the ledger is charged as by the first that commits. */
  lemma {:induction false} RetriesChargeOnce(l: Ledger, e: Entry, attempts: seq<Attempt>, times: seq<int>, first: nat)
    requires ValidLedger(l) && |attempts| == |times| && e.cost >= 0
    requires first <= |attempts| && forall k | 0 <= k < first :: attempts[k].NotCommitted?
    requires first < |attempts| ==> !attempts[first].NotCommitted?
    ensures AfterAttempts(l, e, attempts, times).0
         == if first == |attempts| then l else Persisted(l, e, times[first]).value.ledger
    ensures AfterAttempts(l, e, attempts, times).1 <==> exists k :: 0 <= k < |attempts| && attempts[k].Committed?
    decreases |attempts|
  {
    hide Persisted, Recorded, ActiveBalance, TotalUsed, MarginalCharge;
    if attempts != [] {
      PersistedEffect(l, e, times[0]);
      if first > 0 {
        RetriesChargeOnce(l, e, attempts[1..], times[1..], first - 1);
      } else if !attempts[0].Committed? {
        var l' := Persisted(l, e, times[0]).value.ledger;
        RetriesOfRecorded(l', e, attempts[1..], times[1..]);
      }
      assert forall k | 0 < k < |attempts| :: attempts[k] == attempts[1..][k - 1];
    }
  }

  lemma {:induction false} RetriesOfRecorded(l: Ledger, e: Entry, attempts: seq<Attempt>, times: seq<int>)
    requires |attempts| == |times| && e.cost >= 0 && Recorded(l.rows, e.id)
    ensures AfterAttempts(l, e, attempts, times).0 == l
    ensures AfterAttempts(l, e, attempts, times).1 <==> exists k :: 0 <= k < |attempts| && attempts[k].Committed?
    decreases |attempts|
  {
    if attempts != [] {
      RetriesOfRecorded(l, e, attempts[1..], times[1..]);
      assert forall k | 0 < k < |attempts| :: attempts[k] == attempts[1..][k - 1];
    }
  }

  class LogOutbox {
    const store: Store
    var queue: seq<Entry>
    var lossCount: nat

    constructor (store: Store)
      ensures this.store == store && queue == [] && lossCount == 0
    {
      this.store := store;
      queue, lossCount := [], 0;
    }

    /** Never blocks: a full buffer counts the entry as lost at once. */
    method Enqueue(e: Entry)
      modifies this
      ensures if old(|queue|) < OUTBOX_CAPACITY then queue == old(queue) + [e] && lossCount == old(lossCount)
              else queue == old(queue) && lossCount == old(lossCount) + 1
    {
      if |queue| < OUTBOX_CAPACITY {
        queue := queue + [e];
      } else {
        lossCount := lossCount + 1;
      }
    }

    /** Direct save by the handler; the attempt's end is the database's to choose. */
    method SaveRequestLog(e: Entry, attempt: Attempt, now: int)
      requires store.Valid()
      modifies this, store
      ensures store.Valid()
      ensures store.Contents() == AfterAttempts(old(store.Contents()), e, [attempt], [now]).0
      ensures AfterAttempts(old(store.Contents()), e, [attempt], [now]).1 ==> queue == old(queue) && lossCount == old(lossCount)
      ensures !AfterAttempts(old(store.Contents()), e, [attempt], [now]).1 ==>
                if old(|queue|) < OUTBOX_CAPACITY then queue == old(queue) + [e] && lossCount == old(lossCount)
                else queue == old(queue) && lossCount == old(lossCount) + 1
    {
      var ok := false;
      if !attempt.NotCommitted? {
        ok := store.Persist(e, now);
      }
      if !(ok && attempt.Committed?) {
        Enqueue(e);
      }
    }

    /** The retry ladder: at once, then after each delay; only exhaustion counts a loss. */
    method Retry(e: Entry, attempts: seq<Attempt>, times: seq<int>)
      requires store.Valid() && |attempts| == |times| == ATTEMPTS
      modifies this, store
      ensures store.Valid() && queue == old(queue)
      ensures store.Contents() == AfterAttempts(old(store.Contents()), e, attempts, times).0
      ensures lossCount == if AfterAttempts(old(store.Contents()), e, attempts, times).1 then old(lossCount) else old(lossCount) + 1
    {
      ghost var goal := AfterAttempts(store.Contents(), e, attempts, times);
      var k := 0;
      while k < ATTEMPTS
        invariant 0 <= k <= ATTEMPTS && store.Valid() && queue == old(queue) && lossCount == old(lossCount)
        invariant AfterAttempts(store.Contents(), e, attempts[k..], times[k..]) == goal
      {
        assert attempts[k..][1..] == attempts[k + 1..] && times[k..][1..] == times[k + 1..];
        var ok := false;
        if !attempts[k].NotCommitted? {
          ok := store.Persist(e, times[k]);
        }
        if ok && attempts[k].Committed? {
          return;
        }
        k := k + 1;
      }
      lossCount := lossCount + 1;
    }
  }
}
