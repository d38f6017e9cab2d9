/** Settling one request log against the ledger (SettleUsageAndLog, normalizeSettledEntry,
    InsertRequestLog in db/), and what sequences of settlements add up to. */
module Settlement {
  import opened Common
  import opened Money
  import opened Ledger
  import Drain

  /** The cost as it will be recorded: none for a failed request, at most a positive
      ceiling, and refused outright when negative. */
  function NormalizedCost(e: Entry): (cost: Option<int>)
    ensures cost.None? <==> e.cost < 0
    ensures cost.Some? ==> 0 <= cost.value <= e.cost && (e.ceiling > 0 ==> cost.value <= e.ceiling)
    ensures cost.Some? && Succeeded(e.status) && (e.ceiling <= 0 || e.cost <= e.ceiling) ==> cost.value == e.cost
  {
    if e.cost < 0 then None
    else
      var billable := if Succeeded(e.status) then e.cost else 0;
      Some(if e.ceiling > 0 && billable > e.ceiling then e.ceiling else billable)
  }

  predicate Recorded(rows: seq<LogRow>, id: string) {
    exists i :: 0 <= i < |rows| && rows[i].id == id
  }

  datatype Outcome = Outcome(ledger: Ledger, charge: int, deducted: int)

  /** SettleUsageAndLog as one transaction; None is the refusal of a negative cost. */
  function Settled(l: Ledger, e: Entry, now: int): Option<Outcome> {
    var cost := NormalizedCost(e);
    if cost.None? then None
    else if Recorded(l.rows, e.id) then Some(Outcome(l, 0, 0))
    else
      var charge := if cost.value > 0 then MarginalCharge(l, e.createdAt, cost.value) else 0;
      var topups := Drained(l.topups, now, charge);
      var ledger := l.(rows := l.rows + [LogRow(e.id, cost.value, e.createdAt, e.status)], topups := topups);
      Some(Outcome(ledger, charge, TotalUsed(topups) - TotalUsed(l.topups)))
  }

  /** InsertRequestLog: no cap, no top-up charge, and nothing on an id that is already there. */
  function Inserted(l: Ledger, e: Entry): Option<Outcome> {
    if e.cost < 0 then None
    else if Recorded(l.rows, e.id) then Some(Outcome(l, 0, 0))
    else Some(Outcome(l.(rows := l.rows + [LogRow(e.id, e.cost, e.createdAt, e.status)]), 0, 0))
  }

  /** saveRequestLog and the outbox choose by the sign of the ceiling. */
  function Persisted(l: Ledger, e: Entry, now: int): Option<Outcome> {
    if e.ceiling > 0 then Settled(l, e, now) else Inserted(l, e)
  }

  /** The cost column of the row an entry leaves. */
  function RecordedCost(e: Entry): (cost: int)
    ensures e.cost >= 0 ==> 0 <= cost <= e.cost
    ensures e.cost >= 0 && e.ceiling > 0 ==> cost <= e.ceiling
  {
    if e.ceiling > 0 && e.cost >= 0 then NormalizedCost(e).value else e.cost
  }

  predicate UniqueRowIds(rows: seq<LogRow>) {
    forall i, j | 0 <= i < j < |rows| :: rows[i].id != rows[j].id
  }

  lemma DrainedBalance(l: Ledger, now: int, charge: int)
    requires ValidLedger(l) && 0 <= charge
    ensures var topups := Drained(l.topups, now, charge);
            && |topups| == |l.topups|
            && (forall i | 0 <= i < |topups| :: ValidTopup(topups[i]) && topups[i] == l.topups[i].(used := topups[i].used)
                                               && l.topups[i].used <= topups[i].used)
            && TotalUsed(topups) - TotalUsed(l.topups) == Min(charge, ActiveBalance(l.topups, now))
            && ActiveBalance(topups, now) == ActiveBalance(l.topups, now) - Min(charge, ActiveBalance(l.topups, now))
  {
    BalanceShrinksWithTime(l.topups, now, now);
    QueueIsDrainQueue(l.topups, now);
    Drain.DrainIsExact(DrainQueue(l.topups, now), l.topups, now, charge);
  }

  /** What one persisted entry does to the ledger: at most one new row, exactly the marginal
      charge taken from the top-ups as far as they reach, everything else untouched. */
  lemma PersistedEffect(l: Ledger, e: Entry, now: int)
    requires ValidLedger(l)
    ensures Persisted(l, e, now).None? <==> e.cost < 0
    ensures Persisted(l, e, now).Some? ==>
              var o := Persisted(l, e, now).value;
              && ValidLedger(o.ledger)
              && o.ledger == l.(rows := o.ledger.rows, topups := o.ledger.topups)
              && Recorded(o.ledger.rows, e.id)
              && (UniqueRowIds(l.rows) ==> UniqueRowIds(o.ledger.rows))
              && 0 <= o.charge && o.deducted == Min(o.charge, ActiveBalance(l.topups, now))
              && TotalUsed(o.ledger.topups) == TotalUsed(l.topups) + o.deducted
              && ActiveBalance(o.ledger.topups, now) == ActiveBalance(l.topups, now) - o.deducted
              && |o.ledger.topups| == |l.topups|
              && (forall i | 0 <= i < |l.topups| ::
                    o.ledger.topups[i] == l.topups[i].(used := o.ledger.topups[i].used)
                    && l.topups[i].used <= o.ledger.topups[i].used)
              && (Recorded(l.rows, e.id) ==> o == Outcome(l, 0, 0))
              && (!Recorded(l.rows, e.id) ==>
                  && o.charge <= RecordedCost(e)
                  && o.charge == (if e.ceiling > 0 then MarginalCharge(l, e.createdAt, RecordedCost(e)) else 0)
                  && o.ledger.rows == l.rows + [LogRow(e.id, RecordedCost(e), e.createdAt, e.status)])
  {
    if e.cost >= 0 {
      BalanceShrinksWithTime(l.topups, now, now);
      if !Recorded(l.rows, e.id) {
        var cost := RecordedCost(e);
        ChargeBounds(l, e.createdAt, cost, |l.windows|);
        var charge := if e.ceiling > 0 then MarginalCharge(l, e.createdAt, cost) else 0;
        DrainedBalance(l, now, charge);
        var rows := l.rows + [LogRow(e.id, cost, e.createdAt, e.status)];
        assert Persisted(l, e, now).value.ledger.rows == rows;
        assert rows[|l.rows|].id == e.id;
      }
    }
  }

  /** Exactly when a settlement is drawn from the top-ups in full: the entry has nothing to
      charge, or every window's unspent budget at its creation and the top-ups at its
      settlement together reach its recorded cost. */
  lemma DrawnInFullExactly(l: Ledger, e: Entry, now: int)
    requires ValidLedger(l) && Persisted(l, e, now).Some?
    ensures var o := Persisted(l, e, now).value;
            o.deducted == o.charge
            <==> Recorded(l.rows, e.id) || e.ceiling <= 0
                 || forall w | w in l.windows ::
                      RecordedCost(e) <= Max(0, w.budget - Spent(l, w, e.createdAt)) + ActiveBalance(l.topups, now)
  {
    hide Persisted, MarginalCharge, Recorded, ActiveBalance, Spent;
    PersistedEffect(l, e, now);
    BalanceShrinksWithTime(l.topups, now, now);
    CoveredExactly(l, e.createdAt, now, RecordedCost(e));
  }

  /** Persisting an entry again changes nothing: a retry never charges twice. */
  lemma PersistingIsIdempotent(l: Ledger, e: Entry, now: int, later: int)
    requires ValidLedger(l) && Persisted(l, e, now).Some?
    ensures Persisted(Persisted(l, e, now).value.ledger, e, later) == Some(Outcome(Persisted(l, e, now).value.ledger, 0, 0))
  {
    PersistedEffect(l, e, now);
  }

  // ---- Sequences of settlements ----

  /** Settle entries in order, each at its own instant; a refused entry leaves no trace. The
      second part is the sum of charges. */
  function SettleAll(l: Ledger, entries: seq<Entry>, times: seq<int>): (Ledger, int)
    requires |times| == |entries|
  {
    if entries == [] then (l, 0)
    else
      var n := |entries| - 1;
      var (before, charged) := SettleAll(l, entries[..n], times[..n]);
      match Settled(before, entries[n], times[n])
      case None => (before, charged)
      case Some(o) => (o.ledger, charged + o.charge)
  }

  /** What entries created before the floor are charged, although no window counts them. */
  function StaleCharges(l: Ledger, entries: seq<Entry>, times: seq<int>, floor: int): int
    requires |times| == |entries|
  {
    if entries == [] then 0
    else
      var n := |entries| - 1;
      var before := SettleAll(l, entries[..n], times[..n]).0;
      StaleCharges(l, entries[..n], times[..n], floor) + StaleCharge(before, entries[n], times[n], floor)
  }

  function StaleCharge(l: Ledger, e: Entry, now: int, floor: int): int {
    match Settled(l, e, now)
    case None => 0
    case Some(o) => if e.createdAt < floor then o.charge else 0
  }

  function SumOfCosts(entries: seq<Entry>): int {
    if entries == [] then 0
    else SumOfCosts(entries[..|entries| - 1])
         + (if NormalizedCost(entries[|entries| - 1]).None? then 0 else NormalizedCost(entries[|entries| - 1]).value)
  }

  function OverageAt(l: Ledger, i: nat, floor: int): int
    requires i < |l.windows|
  {
    Overage(SpentSince(l.rows, floor), l.windows[i].budget)
  }

  /** Every entry is charged from the same instant on, window by window: the start of one
      period, or a reset, which may come after the entry's creation. */
  predicate WithinOneFloor(l: Ledger, entries: seq<Entry>, floors: seq<int>) {
    && |floors| == |l.windows|
    && forall e, i | e in entries && 0 <= i < |floors| :: Floor(l, l.windows[i], e.createdAt) == floors[i]
  }

  lemma SettledGrowth(l: Ledger, e: Entry, now: int, floors: seq<int>)
    requires ValidLedger(l) && WithinOneFloor(l, [e], floors) && NormalizedCost(e).Some? && !Recorded(l.rows, e.id)
    ensures var o := Settled(l, e, now).value;
            && 0 <= o.charge <= NormalizedCost(e).value
            && o.ledger.windows == l.windows
            && (forall i | 0 <= i < |floors| ::
                  OverageAt(o.ledger, i, floors[i]) - OverageAt(l, i, floors[i]) + StaleCharge(l, e, now, floors[i]) <= o.charge)
            && (|floors| == 1 ==>
                  OverageAt(o.ledger, 0, floors[0]) - OverageAt(l, 0, floors[0]) + StaleCharge(l, e, now, floors[0]) == o.charge)
  {
    hide Drained, SpentSince, Floor, TotalUsed;
    var cost := NormalizedCost(e).value;
    var row := LogRow(e.id, cost, e.createdAt, e.status);
    ChargeBounds(l, e.createdAt, cost, |l.windows|);
    forall i | 0 <= i < |floors|
      ensures OverageAt(Settled(l, e, now).value.ledger, i, floors[i]) - OverageAt(l, i, floors[i])
           == if e.createdAt < floors[i] then 0 else WindowDelta(l, l.windows[i], e.createdAt, cost)
    {
      assert e in [e];
      assert Floor(l, l.windows[i], e.createdAt) == floors[i];
      SpentOfAppended(l.rows, row, floors[i]);
    }
  }

  /** Marginal charges telescope. Under one floor per window the charges add up to at most the
      costs and to at least each window's growth in overage and what stale entries are charged;
      with a single window they are exactly that. */
  lemma {:induction false} ChargesTelescope(l: Ledger, entries: seq<Entry>, times: seq<int>, floors: seq<int>)
    requires ValidLedger(l) && WithinOneFloor(l, entries, floors) && |times| == |entries|
    ensures var (l', charged) := SettleAll(l, entries, times);
            && ValidLedger(l') && l'.windows == l.windows && l'.assignedAt == l.assignedAt && l'.resetAt == l.resetAt
            && 0 <= charged <= SumOfCosts(entries)
            && (forall i | 0 <= i < |floors| ::
                  0 <= StaleCharges(l, entries, times, floors[i])
                  && OverageAt(l', i, floors[i]) - OverageAt(l, i, floors[i]) + StaleCharges(l, entries, times, floors[i]) <= charged)
            && (|floors| == 1 ==>
                  charged == OverageAt(l', 0, floors[0]) - OverageAt(l, 0, floors[0]) + StaleCharges(l, entries, times, floors[0]))
  {
    hide Settled, Recorded, OverageAt, StaleCharge, Floor;
    if entries != [] {
      var n := |entries| - 1;
      ChargesTelescope(l, entries[..n], times[..n], floors);
      var before := SettleAll(l, entries[..n], times[..n]).0;
      assert forall i | 0 <= i < |floors| :: Floor(before, l.windows[i], entries[n].createdAt) == floors[i] by {
        SameFloors(l, before, entries[n].createdAt);
      }
      SettledStep(before, entries[n], times[n], floors);
    }
  }

  lemma SameFloors(l: Ledger, l': Ledger, at: int)
    requires l'.assignedAt == l.assignedAt && l'.resetAt == l.resetAt
    ensures forall w :: Floor(l', w, at) == Floor(l, w, at)
  {
  }

  /** One settlement, refused, known or new. */
  lemma SettledStep(l: Ledger, e: Entry, now: int, floors: seq<int>)
    requires ValidLedger(l) && WithinOneFloor(l, [e], floors)
    ensures var l' := if Settled(l, e, now).None? then l else Settled(l, e, now).value.ledger;
            var charge := if Settled(l, e, now).None? then 0 else Settled(l, e, now).value.charge;
            && ValidLedger(l') && l'.windows == l.windows && l'.assignedAt == l.assignedAt && l'.resetAt == l.resetAt
            && 0 <= charge <= (if NormalizedCost(e).None? then 0 else NormalizedCost(e).value)
            && (forall i | 0 <= i < |floors| ::
                  0 <= StaleCharge(l, e, now, floors[i])
                  && OverageAt(l', i, floors[i]) - OverageAt(l, i, floors[i]) + StaleCharge(l, e, now, floors[i]) <= charge)
            && (|floors| == 1 ==>
                  charge == OverageAt(l', 0, floors[0]) - OverageAt(l, 0, floors[0]) + StaleCharge(l, e, now, floors[0]))
  {
    if NormalizedCost(e).Some? {
      SettledStaysValid(l, e, now);
      if !Recorded(l.rows, e.id) {
        SettledGrowth(l, e, now, floors);
      }
    }
  }

  // ---- Exactly when the growth is all that is charged ----

  /** A new entry from before the floor fits what the window has left when it is settled. */
  predicate FitsIfStale(before: Ledger, w: BudgetWindow, e: Entry, floor: int) {
    NormalizedCost(e).Some? && !Recorded(before.rows, e.id) && e.createdAt < floor ==>
      NormalizedCost(e).value <= Max(0, w.budget - SpentSince(before.rows, floor))
  }

  predicate StaleEntriesFit(l: Ledger, w: BudgetWindow, entries: seq<Entry>, times: seq<int>, floor: int)
    requires |times| == |entries|
  {
    forall k | 0 <= k < |entries| :: FitsIfStale(SettleAll(l, entries[..k], times[..k]).0, w, entries[k], floor)
  }

  lemma StaleChargeExactly(l: Ledger, w: BudgetWindow, e: Entry, now: int, floor: int)
    requires ValidLedger(l) && l.windows == [w] && Floor(l, w, e.createdAt) == floor
    ensures StaleCharge(l, e, now, floor) >= 0
    ensures StaleCharge(l, e, now, floor) == 0 <==> FitsIfStale(l, w, e, floor)
  {
    hide Drained, SpentSince, Floor, TotalUsed;
    if NormalizedCost(e).Some? && !Recorded(l.rows, e.id) {
      var cost := NormalizedCost(e).value;
      ChargeBounds(l, e.createdAt, cost, 1);
      assert ChargeOver(l, e.createdAt, cost, 0) == 0;
      assert MarginalCharge(l, e.createdAt, cost) == WindowDelta(l, w, e.createdAt, cost);
    }
  }

  lemma {:induction false} StaleChargesExactly(l: Ledger, w: BudgetWindow, entries: seq<Entry>, times: seq<int>, floor: int)
    requires ValidLedger(l) && l.windows == [w] && WithinOneFloor(l, entries, [floor]) && |times| == |entries|
    ensures StaleCharges(l, entries, times, floor) >= 0
    ensures StaleCharges(l, entries, times, floor) == 0 <==> StaleEntriesFit(l, w, entries, times, floor)
  {
    hide Settled, StaleCharge, FitsIfStale, SettleAll, Floor;
    if entries != [] {
      var n := |entries| - 1;
      StaleChargesExactly(l, w, entries[..n], times[..n], floor);
      ChargesTelescope(l, entries[..n], times[..n], [floor]);
      var before := SettleAll(l, entries[..n], times[..n]).0;
      SameFloors(l, before, entries[n].createdAt);
      StaleChargeExactly(before, w, entries[n], times[n], floor);
      forall k | 0 <= k < n ensures entries[..n][..k] == entries[..k] && times[..n][..k] == times[..k] {
      }
    }
  }

  /** With a single window the charges are exactly its growth in overage if and only if every
      new entry from before the floor fits what the window has left at its settlement. */
  lemma ChargesAreGrowthExactly(l: Ledger, w: BudgetWindow, entries: seq<Entry>, times: seq<int>, floor: int)
    requires ValidLedger(l) && l.windows == [w] && WithinOneFloor(l, entries, [floor]) && |times| == |entries|
    ensures var (l', charged) := SettleAll(l, entries, times);
            && l'.windows == [w]
            && (charged == OverageAt(l', 0, floor) - OverageAt(l, 0, floor) <==> StaleEntriesFit(l, w, entries, times, floor))
  {
    hide SettleAll, StaleCharges, StaleEntriesFit, OverageAt;
    ChargesTelescope(l, entries, times, [floor]);
    StaleChargesExactly(l, w, entries, times, floor);
  }

  /** Usage is reset between an entry's creation and its settlement, within one period: the
      entry counts against no window any more, and yet its excess is taken from the top-up. */
  lemma StaleEntryIsChargedAnyway()
    ensures var l := Ledger([BudgetWindow("w", "hour", 3600, 10)], 0, Some(5), [], [Topup("t", 10, 0, 0, None, false)]);
            var e := Entry("late", 15, 15, 3, 200);
            var o := Settled(l, e, 8);
            && ValidLedger(l) && WithinOneFloor(l, [e], [5]) && PeriodStart(0, 3600, 3) == PeriodStart(0, 3600, 8)
            && o.Some? && o.value.charge == o.value.deducted == 5
            && OverageAt(l, 0, 5) == OverageAt(o.value.ledger, 0, 5) == 0
  {
    var w, topups := BudgetWindow("w", "hour", 3600, 10), [Topup("t", 10, 0, 0, None, false)];
    var l := Ledger([w], 0, Some(5), [], topups);
    var e := Entry("late", 15, 15, 3, 200);
    ResetLedger(l, w, topups, e);
    SettledAnew(l, e, 8);
    SpentOfAppended([], LogRow("late", 15, 3, 200), 5);
    assert [] + [LogRow("late", 15, 3, 200)] == [LogRow("late", 15, 3, 200)];
    hide Floor, Settled, SpentSince, ActiveBalance, PeriodStart, MarginalCharge, Recorded;
  }

  /** An uncapped success under a new id, in the terms of its ledger. */
  lemma SettledAnew(l: Ledger, e: Entry, now: int)
    requires ValidLedger(l) && !Recorded(l.rows, e.id) && 0 <= e.cost == e.ceiling && e.ceiling > 0 && e.status == 200
    ensures var o, charge := Settled(l, e, now), MarginalCharge(l, e.createdAt, e.cost);
            && o.Some? && o.value.charge == charge && o.value.deducted == Min(charge, ActiveBalance(l.topups, now))
            && o.value.ledger.rows == l.rows + [LogRow(e.id, e.cost, e.createdAt, 200)]
            && o.value.ledger.windows == l.windows
  {
    hide Settled, ActiveBalance, MarginalCharge, Recorded;
    PersistedEffect(l, e, now);
  }

  lemma ResetLedger(l: Ledger, w: BudgetWindow, topups: seq<Topup>, e: Entry)
    requires w == BudgetWindow("w", "hour", 3600, 10) && topups == [Topup("t", 10, 0, 0, None, false)]
    requires l == Ledger([w], 0, Some(5), [], topups) && e == Entry("late", 15, 15, 3, 200)
    ensures Floor(l, w, 3) == 5 && PeriodStart(0, 3600, 3) == PeriodStart(0, 3600, 8) == 0
    ensures SpentSince([], 5) == 0 && ActiveBalance(topups, 8) == 10 && MarginalCharge(l, 3, 15) == 5
    ensures ValidLedger(l) && WithinOneFloor(l, [e], [5]) && !Recorded(l.rows, e.id)
  {
    assert topups[..0] == [] && Remainder(topups[0], 8) == 10;
    assert ChargeOver(l, 3, 15, 0) == 0;
  }

  lemma SettledStaysValid(l: Ledger, e: Entry, now: int)
    requires ValidLedger(l) && Settled(l, e, now).Some?
    ensures var l' := Settled(l, e, now).value.ledger;
            ValidLedger(l') && l' == l.(rows := l'.rows, topups := l'.topups)
  {
    if !Recorded(l.rows, e.id) {
      var cost := NormalizedCost(e).value;
      ChargeBounds(l, e.createdAt, cost, |l.windows|);
      DrainedBalance(l, now, if cost > 0 then MarginalCharge(l, e.createdAt, cost) else 0);
    }
  }
}
