/** Runs that miss one hypothesis of Runs.NoOverdraft each, and overdraw: the exposure
    recorded with the uncovered charge says which. */
module Overdrafts {
  import opened Common
  import opened Money
  import opened Usage
  import opened Rules
  import opened Receipts
  import opened Allowance
  import opened Ledger
  import opened Settlement
  import opened Protocol
  import opened Runs

  /** One nano-USD per output token, prompts free. */
  const FLAT: RuleSet := RuleSet("flat", Rates(0, 1_000_000, 0, 0, 0, 0, 0), [], [], Inclusive)

  lemma FlatPrice(n: Int64, at: int)
    requires 0 <= n
    ensures ValidRules(FLAT) && !InputUsage(0).IsNegative() && CostWith(FLAT, InputUsage(0), n, at) == n
  {
    InputUsageSign(0);
    OutputKeepsSign(InputUsage(0), n);
    QuotedTotal(0, n, FLAT.base, None, 1, 1, 7);
    ExactCostIsLeast(0, 0, 1, 1, 0);
    ExactCostIsLeast(n, 1_000_000, 1, 1, n);
    ExactCostIsLeast(n, 1_000_000, 1, 1, n - 1);
  }

  /** Whatever is available is granted to a request for as many tokens. */
  lemma AdmissionGranted(s: State, id: string, n: Int64, at: int, batch: bool)
    requires s.active && s.ledger.windows != [] && (batch || s.guard.None?) && 0 <= n <= Availability(s.ledger, s.now)
    ensures Next(s, Admit(id, FLAT, 0, n, at, batch))
         == s.(flights := s.flights[s.nextFlight := Flight(id, n, s.now, 0, 0, true)],
               guard := if batch then s.guard else Some(s.nextFlight), nextFlight := s.nextFlight + 1)
  {
    FlatPrice(n, at);
    assert n <= AvailableTo(s);
    hide CostWith, ValidRules;
    QuoteMeansCost(FLAT, InputUsage(0), n, at);
    hide Quotes.QuoteOf, AvailableTo;
    assert AffordableGeneration(FLAT, 0, n, AvailableTo(s), at) == Granted(n, n);
  }

  /** A full-priced commit under one window: the growth in overage is charged, and the
      top-ups give what they hold. */
  lemma CommitCharges(s: State, job: Job, w: BudgetWindow)
    requires ValidLedger(s.ledger) && s.ledger.windows == [w] && !Recorded(s.ledger.rows, job.entry.id)
    requires 0 < job.entry.cost == job.entry.ceiling && job.entry.status == 200
    requires job.flight.Some? && job.flight.value in s.flights
    ensures var e, h, l, s' := job.entry, job.flight.value, s.ledger, Commit(s, job);
            var amount, own := WindowDelta(l, w, e.createdAt, e.cost), s.flights[h];
            var deducted := Min(amount, Balance(s));
            && s' == s.(ledger := s'.ledger, flights := s'.flights, charges := s'.charges)
            && s'.ledger == l.(rows := l.rows + [LogRow(e.id, e.cost, e.createdAt, 200)], topups := s'.ledger.topups)
            && ValidLedger(s'.ledger) && |s'.ledger.topups| == |l.topups|
            && s'.flights == (map k | k in s.flights && k != h :: s.flights[k].(crowd := s.flights[k].crowd + (e.cost + deducted)))
            && s'.charges == s.charges + [Charge(e.id, amount, deducted, own.crowd, own.lapsed, own.planKept,
                                                 InPeriod(l, own.admittedAt, e.createdAt))]
  {
    var e := job.entry;
    PersistedEffect(s.ledger, e, s.now);
    ChargeBounds(s.ledger, e.createdAt, e.cost, 1);
    assert ChargeOver(s.ledger, e.createdAt, e.cost, 0) == 0;
    assert RecordedCost(e) == e.cost;
  }

  /** In any state, overdrawn or not: a commit of a new entry is drawn in full exactly when it
      has no ceiling, or every window's unspent budget and the top-ups held reach its cost. */
  lemma ChargeCoveredExactly(s: State, job: Job)
    requires ValidLedger(s.ledger) && job.entry.cost >= 0 && !Recorded(s.ledger.rows, job.entry.id)
    ensures var e, l, charges := job.entry, s.ledger, Commit(s, job).charges;
            && |charges| == |s.charges| + 1
            && (charges[|s.charges|].deducted == charges[|s.charges|].amount
                <==> e.ceiling <= 0
                     || forall w | w in l.windows ::
                          RecordedCost(e) <= Max(0, w.budget - Spent(l, w, e.createdAt)) + Balance(s))
  {
    hide ActiveBalance, Spent, Recorded, Persisted, InPeriod;
    PersistedEffect(s.ledger, job.entry, s.now);
    DrawnInFullExactly(s.ledger, job.entry, s.now);
  }

  lemma RunOfTwo(s: State, a: Step, b: Step)
    ensures Run(s, [a, b]) == Next(Next(s, a), b)
  {
    hide Next;
    assert [a, b][..1] == [a] && [a][..0] == [];
    assert Run(s, [a]) == Next(s, a);
  }

  lemma RunOfThree(s: State, a: Step, b: Step, c: Step)
    ensures Run(s, [a, b, c]) == Next(Next(Next(s, a), b), c)
  {
    hide Next;
    assert [a, b, c][..2] == [a, b];
    RunOfTwo(s, a, b);
  }

  lemma RunOfFour(s: State, a: Step, b: Step, c: Step, d: Step)
    ensures Run(s, [a, b, c, d]) == Next(Next(Next(Next(s, a), b), c), d)
  {
    hide Next;
    assert [a, b, c, d][..3] == [a, b, c];
    RunOfThree(s, a, b, c);
  }

  lemma RunOfSix(s: State, a: Step, b: Step, c: Step, d: Step, e: Step, f: Step)
    ensures Run(s, [a, b, c, d, e, f]) == Next(Next(Next(Next(Next(Next(s, a), b), c), d), e), f)
  {
    hide Next;
    assert [a, b, c, d, e, f][..5] == [a, b, c, d, e];
    assert [a, b, c, d, e][..4] == [a, b, c, d];
    RunOfFour(s, a, b, c, d);
  }

  lemma AvailabilityOfOneWindow(l: Ledger, w: BudgetWindow, now: int)
    requires l.windows == [w]
    ensures Availability(l, now) == Min(MAX_INT64, WindowAvailable(l, w, now))
  {
    assert LimitingWindow(l, now, 0) == (MAX_INT64, None);
  }

  lemma SaveCommits(s: State, entry: Entry, h: nat)
    requires Settles(s, entry, Some(h)) && entry.cost >= 0
    ensures Next(s, Save(entry, Some(h), Committed)) == Commit(Release(s, Some(h)), Job(entry, Some(h), ATTEMPTS))
  {
    hide Commit;
  }

  /** A save that does not reach the database leaves the guard free and its entry queued. */
  lemma SaveDefers(s: State, entry: Entry, h: nat)
    requires Settles(s, entry, Some(h)) && s.queue == []
    ensures Next(s, Save(entry, Some(h), NotCommitted))
         == Release(s, Some(h)).(queue := [Job(entry, Some(h), ATTEMPTS)], given := s.given + [entry])
  {
    hide Commit;
  }

  lemma WorkerCommits(s: State, job: Job)
    requires s.queue == [job] && s.workers == [] && job.entry.cost >= 0
    ensures var taken := s.(queue := [], workers := [job]);
            Next(s, TakeJob) == taken && Next(taken, Work(0, Committed)).charges == Commit(taken, job).charges
  {
    hide Commit;
  }

  // ---- Entries created before their admission ----

  lemma EarlyLedger(l: Ledger, w: BudgetWindow)
    requires w == BudgetWindow("w", "second", 1, 10) && l == Ledger([w], 0, None, [LogRow("old", 10, 0, 200)], [])
    ensures CanStart(l, SECOND) && Availability(l, SECOND) == 10 && !Recorded(l.rows, "new")
    ensures WindowDelta(l, w, 500_000_000, 10) == 10 && !InPeriod(l, SECOND, 500_000_000)
  {
    assert l.rows[..0] == [];
    assert SpentSince(l.rows, SECOND) == 0 && SpentSince(l.rows, 0) == 10;
    assert Floor(l, w, SECOND) == SECOND && Floor(l, w, 500_000_000) == 0;
    AvailabilityOfOneWindow(l, w, SECOND);
    assert w in l.windows;
  }

  /** An entry created before its admission, as in the agent loop and in transcription, may
      be charged to the previous period, where nothing was left for it. */
  lemma EarlyCreationOverdraws()
    ensures var l := Ledger([BudgetWindow("w", "second", 1, 10)], 0, None, [LogRow("old", 10, 0, 200)], []);
            var steps := [Admit("new", FLAT, 0, 10, 0, false),
                          Save(Entry("new", 10, 10, 500_000_000, 200), Some(0), Committed)];
            && CanStart(l, SECOND)
            && Run(Start(l, SECOND), steps).charges == [Charge("new", 10, 0, 0, 0, true, false)]
  {
    hide Commit, Next, Availability, WindowDelta, InPeriod, Recorded;
    var w := BudgetWindow("w", "second", 1, 10);
    var l := Ledger([w], 0, None, [LogRow("old", 10, 0, 200)], []);
    var e := Entry("new", 10, 10, 500_000_000, 200);
    EarlyLedger(l, w);
    RunOfTwo(Start(l, SECOND), Admit("new", FLAT, 0, 10, 0, false), Save(e, Some(0), Committed));
    AdmissionGranted(Start(l, SECOND), "new", 10, 0, false);
    var s := Next(Start(l, SECOND), Admit("new", FLAT, 0, 10, 0, false));
    SaveCommits(s, e, 0);
    CommitCharges(Release(s, Some(0)), Job(e, Some(0), ATTEMPTS), w);
  }

  // ---- Admissions side by side, and commits after the guard ----

  /** One window, no top-ups, and something left of the budget. */
  predicate OpenBudget(l: Ledger, w: BudgetWindow, now: int) {
    CanStart(l, now) && l.windows == [w] && l.topups == [] && Floor(l, w, now) <= now && 0 < Availability(l, now) < MAX_INT64
  }

  function Whole(l: Ledger, id: string, now: int): Entry {
    Entry(id, Availability(l, now), Availability(l, now), now, 200)
  }

  /** Two requests for all that is left: the first committed fills the budget, and the
      second is charged in full and finds nothing. */
  lemma SecondFindsNothing(s: State, l: Ledger, w: BudgetWindow, first: Job, second: Job)
    requires OpenBudget(l, w, s.now) && s.ledger == l
    requires first.entry == Whole(l, first.entry.id, s.now) && second.entry == Whole(l, second.entry.id, s.now)
    requires first.entry.id != second.entry.id && !Recorded(l.rows, first.entry.id) && !Recorded(l.rows, second.entry.id)
    requires first.flight.Some? && second.flight.Some? && first.flight != second.flight
    requires first.flight.value in s.flights && second.flight.value in s.flights
    requires forall h | h in s.flights :: s.flights[h].admittedAt == s.now && s.flights[h].crowd == s.flights[h].lapsed == 0 && s.flights[h].planKept
    ensures var s1, n := Commit(s, first), Availability(l, s.now);
            && s1 == s.(ledger := s1.ledger, flights := s1.flights, charges := s1.charges)
            && second.flight.value in s1.flights
            && s1.flights[second.flight.value] == s.flights[second.flight.value].(crowd := n)
            && s1.charges == s.charges + [Charge(first.entry.id, 0, 0, 0, 0, true, true)]
            && forall s2: State | s2.ledger == s1.ledger && s2.now == s1.now && s2.flights == s1.flights && s2.charges == s1.charges ::
                 Commit(s2, second).charges == s1.charges + [Charge(second.entry.id, n, 0, n, 0, true, true)]
  {
    hide Commit;
    var n := Availability(l, s.now);
    var row := LogRow(first.entry.id, n, s.now, 200);
    AvailabilityOfOneWindow(l, w, s.now);
    CommitCharges(s, first, w);
    CreatedLaterIsInPeriod(l, s.now, s.now);
    var s1 := Commit(s, first);
    assert s1.ledger.topups == [];
    SpentOfAppended(l.rows, row, Floor(l, w, s.now));
    CreatedLaterIsInPeriod(s1.ledger, s.now, s.now);
    forall s2: State | s2.ledger == s1.ledger && s2.now == s1.now && s2.flights == s1.flights && s2.charges == s1.charges
      ensures Commit(s2, second).charges == s1.charges + [Charge(second.entry.id, n, 0, n, 0, true, true)]
    {
      CommitCharges(s2, second, w);
    }
  }

  /** Two requests admitted against one balance, as batch clients are: each ceiling was
      available, and the second charge goes uncovered to its last nano-USD. */
  lemma SharedBalanceOverdraws(l: Ledger, w: BudgetWindow, a: string, b: string, now: int)
    requires OpenBudget(l, w, now) && a != b && !Recorded(l.rows, a) && !Recorded(l.rows, b)
    ensures var n := Availability(l, now);
            var steps := [Admit(a, FLAT, 0, n, now, true), Admit(b, FLAT, 0, n, now, true),
                          Save(Whole(l, a, now), Some(0), Committed), Save(Whole(l, b, now), Some(1), Committed)];
            Run(Start(l, now), steps).charges
            == [Charge(a, 0, 0, 0, 0, true, true), Charge(b, n, 0, n, 0, true, true)]
  {
    hide Commit, Next, Availability, WindowDelta, InPeriod, Recorded;
    var n, s := Availability(l, now), Start(l, now);
    var first, second := Job(Whole(l, a, now), Some(0), ATTEMPTS), Job(Whole(l, b, now), Some(1), ATTEMPTS);
    RunOfFour(s, Admit(a, FLAT, 0, n, now, true), Admit(b, FLAT, 0, n, now, true),
              Save(first.entry, Some(0), Committed), Save(second.entry, Some(1), Committed));
    AdmissionGranted(s, a, n, now, true);
    var s1 := Next(s, Admit(a, FLAT, 0, n, now, true));
    AdmissionGranted(s1, b, n, now, true);
    var s2 := Next(s1, Admit(b, FLAT, 0, n, now, true));
    SaveCommits(s2, first.entry, 0);
    SecondFindsNothing(s2, l, w, first, second);
    SaveCommits(Commit(s2, first), second.entry, 1);
  }

  /** A commit deferred to the outbox after its guard was released: the next request is
      admitted against the same balance, and the deferred charge goes uncovered. */
  lemma DeferredCommitOverdraws(l: Ledger, w: BudgetWindow, a: string, b: string, now: int)
    requires OpenBudget(l, w, now) && a != b && !Recorded(l.rows, a) && !Recorded(l.rows, b)
    ensures var n := Availability(l, now);
            var steps := [Admit(a, FLAT, 0, n, now, false), Save(Whole(l, a, now), Some(0), NotCommitted),
                          Admit(b, FLAT, 0, n, now, false), Save(Whole(l, b, now), Some(1), Committed),
                          TakeJob, Work(0, Committed)];
            Run(Start(l, now), steps).charges
            == [Charge(b, 0, 0, 0, 0, true, true), Charge(a, n, 0, n, 0, true, true)]
  {
    hide Commit, Next, Availability, WindowDelta, InPeriod, Recorded;
    var n, s := Availability(l, now), Start(l, now);
    var first, second := Job(Whole(l, b, now), Some(1), ATTEMPTS), Job(Whole(l, a, now), Some(0), ATTEMPTS);
    RunOfSix(s, Admit(a, FLAT, 0, n, now, false), Save(second.entry, Some(0), NotCommitted),
             Admit(b, FLAT, 0, n, now, false), Save(first.entry, Some(1), Committed), TakeJob, Work(0, Committed));
    AdmissionGranted(s, a, n, now, false);
    var s1 := Next(s, Admit(a, FLAT, 0, n, now, false));
    SaveDefers(s1, second.entry, 0);
    var s2 := Next(s1, Save(second.entry, Some(0), NotCommitted));
    AdmissionGranted(s2, b, n, now, false);
    var s3 := Next(s2, Admit(b, FLAT, 0, n, now, false));
    SaveCommits(s3, first.entry, 1);
    SecondFindsNothing(Release(s3, Some(1)), l, w, first, second);
    WorkerCommits(Commit(Release(s3, Some(1)), first), second);
  }

  lemma UncappedCommit(s: State, e: Entry)
    requires ValidLedger(s.ledger) && e.ceiling <= 0 <= e.cost && e.status == 200 && !Recorded(s.ledger.rows, e.id)
    ensures Next(s, Save(e, None, Committed))
         == s.(ledger := s.ledger.(rows := s.ledger.rows + [LogRow(e.id, e.cost, e.createdAt, 200)]),
               flights := map h | h in s.flights :: s.flights[h].(crowd := s.flights[h].crowd + e.cost),
               charges := s.charges + [Charge(e.id, 0, 0, 0, 0, true, InPeriod(s.ledger, s.now, e.createdAt))])
  {
  }

  /** A successful row without a ceiling, saved while a request is open, spends its budget. */
  lemma UncappedRowOverdraws(l: Ledger, w: BudgetWindow, a: string, b: string, now: int)
    requires OpenBudget(l, w, now) && a != b && !Recorded(l.rows, a) && !Recorded(l.rows, b)
    ensures var n := Availability(l, now);
            var steps := [Admit(a, FLAT, 0, n, now, false), Save(Whole(l, b, now).(ceiling := 0), None, Committed),
                          Save(Whole(l, a, now), Some(0), Committed)];
            Run(Start(l, now), steps).charges
            == [Charge(b, 0, 0, 0, 0, true, true), Charge(a, n, 0, n, 0, true, true)]
  {
    hide Commit, Next, Availability, InPeriod, Recorded;
    var n, s := Availability(l, now), Start(l, now);
    var free, job := Whole(l, b, now).(ceiling := 0), Job(Whole(l, a, now), Some(0), ATTEMPTS);
    RunOfThree(s, Admit(a, FLAT, 0, n, now, false), Save(free, None, Committed), Save(job.entry, Some(0), Committed));
    AdmissionGranted(s, a, n, now, false);
    var s1 := Next(s, Admit(a, FLAT, 0, n, now, false));
    UncappedCommit(s1, free);
    var s2 := Next(s1, Save(free, None, Committed));
    AvailabilityOfOneWindow(l, w, now);
    SpentOfAppended(l.rows, LogRow(b, n, now, 200), Floor(l, w, now));
    CreatedLaterIsInPeriod(l, now, now);
    CreatedLaterIsInPeriod(s2.ledger, now, now);
    NotRecordedYet(l.rows, LogRow(b, n, now, 200), a);
    SaveCommits(s2, job.entry, 0);
    CommitCharges(Release(s2, Some(0)), job, w);
  }

  lemma NotRecordedYet(rows: seq<LogRow>, row: LogRow, id: string)
    requires !Recorded(rows, id) && row.id != id
    ensures !Recorded(rows + [row], id)
  {
  }

  // ---- Top-ups that lapse and plans that change ----

  lemma LapsingLedger(l: Ledger, w: BudgetWindow)
    requires w == BudgetWindow("w", "hour", 3600, 10)
    requires l == Ledger([w], 0, None, [LogRow("old", 10, 0, 200)], [Topup("t", 10, 0, 0, Some(2), false)])
    ensures CanStart(l, 1) && Availability(l, 1) == 10 && !Recorded(l.rows, "new")
    ensures ActiveBalance(l.topups, 1) == 10 && ActiveBalance(l.topups, 2) == 0
    ensures WindowDelta(l, w, 1, 10) == 10
  {
    assert l.rows[..0] == [] && l.topups[..0] == [];
    assert SpentSince(l.rows, 0) == 10;
    assert Floor(l, w, 1) == 0;
    assert Remainder(l.topups[0], 1) == 10;
    AvailabilityOfOneWindow(l, w, 1);
  }

  /** A top-up that expires between admission and commit leaves its charge uncovered. */
  lemma LapsedTopupOverdraws()
    ensures var l := Ledger([BudgetWindow("w", "hour", 3600, 10)], 0, None, [LogRow("old", 10, 0, 200)],
                            [Topup("t", 10, 0, 0, Some(2), false)]);
            var steps := [Admit("new", FLAT, 0, 10, 0, false), Tick(2),
                          Save(Entry("new", 10, 10, 1, 200), Some(0), Committed)];
            && CanStart(l, 1)
            && Run(Start(l, 1), steps).charges == [Charge("new", 10, 0, 0, 10, true, true)]
  {
    hide Commit, Next, Availability, ActiveBalance, WindowDelta, InPeriod, Recorded;
    var w := BudgetWindow("w", "hour", 3600, 10);
    var l := Ledger([w], 0, None, [LogRow("old", 10, 0, 200)], [Topup("t", 10, 0, 0, Some(2), false)]);
    var e := Entry("new", 10, 10, 1, 200);
    LapsingLedger(l, w);
    RunOfThree(Start(l, 1), Admit("new", FLAT, 0, 10, 0, false), Tick(2), Save(e, Some(0), Committed));
    AdmissionGranted(Start(l, 1), "new", 10, 0, false);
    var s1 := Next(Start(l, 1), Admit("new", FLAT, 0, 10, 0, false));
    Ticked(s1, 2);
    var s2 := Next(s1, Tick(2));
    SaveCommits(s2, e, 0);
    CreatedLaterIsInPeriod(l, 1, 1);
    CommitCharges(Release(s2, Some(0)), Job(e, Some(0), ATTEMPTS), w);
  }

  lemma Ticked(s: State, to: int)
    requires s.now <= to
    ensures Next(s, Tick(to)) == Shifted(s, s.ledger.topups, to)
  {
    hide Shifted;
  }

  /** A plan edited to a smaller budget between admission and commit does too. */
  lemma EditedPlanOverdraws()
    ensures var l := Ledger([BudgetWindow("w", "hour", 3600, 10)], 0, None, [], []);
            var steps := [Admit("new", FLAT, 0, 10, 0, false), EditPlan([BudgetWindow("w", "hour", 3600, 1)]),
                          Save(Entry("new", 10, 10, 1, 200), Some(0), Committed)];
            && CanStart(l, 1)
            && Run(Start(l, 1), steps).charges == [Charge("new", 9, 0, 0, 0, false, true)]
  {
    hide Commit, Next, Availability, WindowDelta, InPeriod, Recorded;
    var w, w' := BudgetWindow("w", "hour", 3600, 10), BudgetWindow("w", "hour", 3600, 1);
    var l := Ledger([w], 0, None, [], []);
    var l' := l.(windows := [w']);
    var e := Entry("new", 10, 10, 1, 200);
    EditedLedger(l, w, l', w');
    RunOfThree(Start(l, 1), Admit("new", FLAT, 0, 10, 0, false), EditPlan([w']), Save(e, Some(0), Committed));
    AdmissionGranted(Start(l, 1), "new", 10, 0, false);
    var s1 := Next(Start(l, 1), Admit("new", FLAT, 0, 10, 0, false));
    PlanEdited(s1, [w']);
    var s2 := Next(s1, EditPlan([w']));
    SaveCommits(s2, e, 0);
    CreatedLaterIsInPeriod(l', 1, 1);
    CommitCharges(Release(s2, Some(0)), Job(e, Some(0), ATTEMPTS), w');
  }

  lemma PlanEdited(s: State, windows: seq<BudgetWindow>)
    ensures Next(s, EditPlan(windows)) == Replanned(s, s.ledger.(windows := windows))
  {
    hide Replanned;
  }

  lemma EditedLedger(l: Ledger, w: BudgetWindow, l': Ledger, w': BudgetWindow)
    requires w == BudgetWindow("w", "hour", 3600, 10) && w' == BudgetWindow("w", "hour", 3600, 1)
    requires l == Ledger([w], 0, None, [], []) && l' == l.(windows := [w'])
    ensures CanStart(l, 1) && Availability(l, 1) == 10 && !Recorded(l.rows, "new")
    ensures WindowDelta(l', w', 1, 10) == 9
  {
    AvailabilityOfOneWindow(l, w, 1);
    assert Floor(l, w, 1) == 0;
  }
}
