/** Whole runs of the protocol: no overdraft, charged at most once, nothing lost silently. */
module Runs {
  import opened Common
  import opened Money
  import opened Ledger
  import opened Settlement
  import opened Allowance
  import opened Protocol

  /** A run may start from any consistent ledger. */
  predicate CanStart(l: Ledger, now: int) {
    ValidLedger(l) && UniqueRowIds(l.rows) && (l.resetAt.Some? ==> l.resetAt.value <= now)
  }

  function Start(l: Ledger, now: int): State {
    State(l, now, true, None, map[], 0, [], [], 0, [], [], [], [])
  }

  lemma {:induction false} RunKeepsInv(l: Ledger, now: int, steps: seq<Step>)
    requires CanStart(l, now)
    ensures Inv(Run(Start(l, now), steps), TotalUsed(l.topups))
  {
    if steps != [] {
      RunKeepsInv(l, now, steps[..|steps| - 1]);
      StepKeepsInv(Run(Start(l, now), steps[..|steps| - 1]), steps[|steps| - 1], TotalUsed(l.topups));
    }
  }

  /** In any run whatsoever, with requests admitted side by side, commits deferred and
      top-ups lapsing, a charge misses the top-ups by at most what others spent and drew plus
      what lapsed between its admission and its commit, as long as the plan was kept and the
      entry was not charged to an earlier period than it was admitted in. */
  lemma ShortfallIsBoundedByExposure(l: Ledger, now: int, steps: seq<Step>)
    requires CanStart(l, now)
    ensures forall c | c in Run(Start(l, now), steps).charges ::
              0 <= c.deducted <= c.amount && (c.planKept && c.inPeriod ==> c.amount - c.deducted <= c.crowd + c.lapsed)
  {
    RunKeepsInv(l, now, steps);
    var s := Run(Start(l, now), steps);
    forall c | c in s.charges ensures ValidCharge(c) {
      var i :| 0 <= i < |s.charges| && s.charges[i] == c;
    }
  }

  /** Over any run of saves, commits reported as failures, retries and replays, a request id
      has at most one row and one charge, and the top-ups have lost exactly the sum of the
      deductions. */
  lemma ChargedAtMostOnce(l: Ledger, now: int, steps: seq<Step>)
    requires CanStart(l, now)
    ensures var s := Run(Start(l, now), steps);
            && UniqueRowIds(s.ledger.rows)
            && (forall i, j | 0 <= i < j < |s.charges| :: s.charges[i].id != s.charges[j].id)
            && (forall c | c in s.charges :: Recorded(s.ledger.rows, c.id))
            && TotalUsed(s.ledger.topups) - TotalUsed(l.topups) == SumDeducted(s.charges)
  {
    RunKeepsInv(l, now, steps);
    var s := Run(Start(l, now), steps);
    forall c | c in s.charges ensures Recorded(s.ledger.rows, c.id) {
      var i :| 0 <= i < |s.charges| && s.charges[i] == c;
    }
  }

  /** Every entry given to the outbox is queued, with a worker, counted lost, or has its id
      recorded; FirstEntryKeepsItsRow says under which entry's row. */
  lemma NothingLostSilently(l: Ledger, now: int, steps: seq<Step>)
    requires CanStart(l, now)
    ensures var s := Run(Start(l, now), steps);
            && |s.given| == |s.queue| + |s.workers| + |s.done| + s.lossCount
            && (forall e | e in s.given ::
                  e in Entries(s.queue) || e in Entries(s.workers) || Recorded(s.ledger.rows, e.id) || e in s.lost)
  {
    RunKeepsInv(l, now, steps);
    var s := Run(Start(l, now), steps);
    var parts := multiset(Entries(s.queue)) + multiset(Entries(s.workers)) + multiset(s.done) + multiset(s.lost);
    assert |multiset(s.given)| == |parts|;
    forall e | e in s.given
      ensures e in Entries(s.queue) || e in Entries(s.workers) || Recorded(s.ledger.rows, e.id) || e in s.lost
    {
      assert e in multiset(s.given) && e in parts;
      if e in s.done {
        var i :| 0 <= i < |s.done| && s.done[i] == e;
      }
    }
  }

  // ---- Whose row is recorded ----

  function RowOf(e: Entry): LogRow {
    LogRow(e.id, RecordedCost(e), e.createdAt, e.status)
  }

  /** Rows are only ever appended. */
  predicate Extends(rows: seq<LogRow>, rows': seq<LogRow>) {
    |rows| <= |rows'| && rows'[..|rows|] == rows
  }

  /** The entry that a step commits to the database, seen or unseen. */
  function CommittedEntry(s: State, step: Step): Option<Entry> {
    match step
    case Save(entry, flight, attempt) =>
      if Settles(s, entry, flight) && CommitsIn(Job(entry, flight, ATTEMPTS), attempt) then Some(entry) else None
    case Work(i, attempt) =>
      if i < |s.workers| && CommitsIn(s.workers[i], attempt) then Some(s.workers[i].entry) else None
    case _ => None
  }

  lemma CommittedLedger(s: State, job: Job)
    requires ValidLedger(s.ledger) && job.entry.cost >= 0
    ensures var l' := Commit(s, job).ledger;
            if Recorded(s.ledger.rows, job.entry.id) then l' == s.ledger
            else l'.rows == s.ledger.rows + [RowOf(job.entry)]
  {
    hide Persisted, ActiveBalance, TotalUsed, MarginalCharge;
    PersistedEffect(s.ledger, job.entry, s.now);
  }

  /** A committed entry leaves its own row exactly when its id was new; under a known id it
      changes nothing, however costly it is, and no other step touches the rows. */
  lemma StepRows(s: State, step: Step)
    requires ValidLedger(s.ledger)
    ensures var e, s' := CommittedEntry(s, step), Next(s, step);
            && s'.ledger.rows == (if e.Some? && !Recorded(s.ledger.rows, e.value.id) then s.ledger.rows + [RowOf(e.value)]
                                  else s.ledger.rows)
            && (e.Some? && Recorded(s.ledger.rows, e.value.id) ==> s'.ledger == s.ledger)
  {
    hide Commit, AvailableTo, AffordableGeneration, Recorded, RowOf, ActiveBalance, ValidLedger;
    match step
    case Save(entry, flight, attempt) =>
      if CommittedEntry(s, step).Some? {
        CommittedLedger(Release(s, flight), Job(entry, flight, ATTEMPTS));
      }
    case Work(i, attempt) =>
      if CommittedEntry(s, step).Some? {
        CommittedLedger(s, s.workers[i]);
      }
    case _ =>
  }

  lemma {:induction false} RunExtendsRows(s: State, steps: seq<Step>, usedBefore: int)
    requires Inv(s, usedBefore)
    ensures Inv(Run(s, steps), usedBefore)
    ensures Extends(s.ledger.rows, Run(s, steps).ledger.rows)
  {
    hide Inv, Next;
    if steps != [] {
      var before := Run(s, steps[..|steps| - 1]);
      RunExtendsRows(s, steps[..|steps| - 1], usedBefore);
      StepKeepsInv(before, steps[|steps| - 1], usedBefore);
      InvParts(before, usedBefore);
      StepRows(before, steps[|steps| - 1]);
    }
  }

  /** The first entry committed under an id owns its row. Whatever step commits an entry in
      whatever run, every continuation holds exactly one row of its id: the entry's own, as
      it was recorded then, if the id was new, and otherwise the row that was already there. */
  lemma FirstEntryKeepsItsRow(l: Ledger, now: int, steps: seq<Step>, step: Step, more: seq<Step>)
    requires CanStart(l, now) && CommittedEntry(Run(Start(l, now), steps), step).Some?
    ensures var s := Run(Start(l, now), steps);
            var e, rows, rows' := CommittedEntry(s, step).value, s.ledger.rows, Run(Next(s, step), more).ledger.rows;
            && UniqueRowIds(rows') && Extends(rows, rows') && Recorded(rows', e.id)
            && (Recorded(rows, e.id) ==> Next(s, step).ledger == s.ledger)
            && (!Recorded(rows, e.id) ==> |rows| < |rows'| && rows'[|rows|] == RowOf(e))
  {
    hide Inv, Next, UniqueRowIds, Run, CommittedEntry;
    var s, used := Run(Start(l, now), steps), TotalUsed(l.topups);
    RunKeepsInv(l, now, steps);
    InvParts(s, used);
    StepRows(s, step);
    StepKeepsInv(s, step, used);
    RunExtendsRows(Next(s, step), more, used);
    InvRows(Run(Next(s, step), more), used);
    RowKept(s.ledger.rows, Next(s, step).ledger.rows, Run(Next(s, step), more).ledger.rows, CommittedEntry(s, step).value);
  }

  lemma RowKept(rows: seq<LogRow>, next: seq<LogRow>, rows': seq<LogRow>, e: Entry)
    requires next == (if Recorded(rows, e.id) then rows else rows + [RowOf(e)]) && Extends(next, rows')
    ensures Extends(rows, rows') && Recorded(rows', e.id)
    ensures !Recorded(rows, e.id) ==> |rows| < |rows'| && rows'[|rows|] == RowOf(e)
  {
    assert forall i | 0 <= i < |next| :: rows'[i] == next[i];
    if Recorded(rows, e.id) {
      var i :| 0 <= i < |rows| && rows[i].id == e.id;
      assert rows'[i].id == e.id;
    } else {
      assert rows'[|rows|].id == e.id;
    }
  }

  lemma InvRows(s: State, usedBefore: int)
    requires Inv(s, usedBefore)
    ensures UniqueRowIds(s.ledger.rows)
  {
  }

  // ---- Serial runs ----

  /** The hypotheses of the guard: admissions take the user's scope, a billable row is
      committed before the guard is released and not charged to an earlier period than it was
      admitted in, and while a request is open the plan stays and no top-up balance lapses.
      Resets, new top-ups and rolling periods are free. */
  predicate SerialStep(s: State, step: Step) {
    match step
    case Admit(_, _, _, _, _, batch) => !batch
    case AssignPlan(_) => s.flights == map[]
    case EditPlan(_) => s.flights == map[]
    case Tick(_) => s.flights == map[] || Balance(Next(s, step)) >= Balance(s)
    case DeleteTopup(_) => s.flights == map[] || Balance(Next(s, step)) >= Balance(s)
    case SetTopupExpiry(_, _) => s.flights == map[] || Balance(Next(s, step)) >= Balance(s)
    case Save(entry, flight, attempt) =>
      && attempt.Committed? && entry.cost >= 0
      && (flight.Some? && flight.value in s.flights ==>
            InPeriod(s.ledger, s.flights[flight.value].admittedAt, entry.createdAt))
      && (flight.None? ==> s.flights == map[] || !Succeeded(entry.status) || entry.cost == 0)
    case _ => true
  }

  predicate SerialRun(s: State, steps: seq<Step>) {
    steps == [] || (SerialRun(s, steps[..|steps| - 1]) && SerialStep(Run(s, steps[..|steps| - 1]), steps[|steps| - 1]))
  }

  /** At most the guard's holder is open, unexposed; the outbox is idle; nothing was missed. */
  predicate Serial(s: State) {
    && s.flights.Keys == (if s.guard.Some? then {s.guard.value} else {})
    && s.queue == [] && s.workers == []
    && (forall h | h in s.flights :: s.flights[h].crowd == 0 && s.flights[h].lapsed == 0 && s.flights[h].planKept)
    && (forall i | 0 <= i < |s.charges| :: s.charges[i].deducted == s.charges[i].amount)
  }

  /** The commit of a job whose exposure is zero misses nothing; without an admission it
      charges nothing. */
  lemma CommitMissesNothing(s: State, job: Job, usedBefore: int)
    requires LedgerInv(s, usedBefore) && ValidJob(s, job)
    requires forall i | 0 <= i < |s.charges| :: s.charges[i].deducted == s.charges[i].amount
    requires job.flight.None? ==> job.entry.ceiling <= 0
    requires job.flight.Some? ==> job.flight.value in s.flights && s.flights[job.flight.value].crowd == 0
                                  && s.flights[job.flight.value].lapsed == 0 && s.flights[job.flight.value].planKept
                                  && InPeriod(s.ledger, s.flights[job.flight.value].admittedAt, job.entry.createdAt)
    ensures var s' := Commit(s, job);
            forall i | 0 <= i < |s'.charges| :: s'.charges[i].deducted == s'.charges[i].amount
  {
    CommitChargesWithinExposure(s, job, usedBefore);
    PersistedEffect(s.ledger, job.entry, s.now);
  }

  /** What a commit leaves of the open flights. */
  lemma CommitFlights(s: State, job: Job)
    requires ValidLedger(s.ledger) && job.entry.cost >= 0
    ensures var s' := Commit(s, job);
            && s'.guard == s.guard && s'.queue == s.queue && s'.workers == s.workers
            && s'.flights.Keys == s.flights.Keys - (if job.flight.Some? then {job.flight.value} else {})
            && (job.flight.None? && job.entry.ceiling <= 0 && (!Succeeded(job.entry.status) || job.entry.cost == 0) ==>
                forall h | h in s'.flights :: s'.flights[h] == s.flights[h])
  {
    PersistedEffect(s.ledger, job.entry, s.now);
    BalanceShrinksWithTime(s.ledger.topups, s.now, s.now);
  }

  lemma SerialSave(s: State, step: Step, usedBefore: int)
    requires Serial(s) && Inv(s, usedBefore) && step.Save? && SerialStep(s, step)
    ensures Serial(Next(s, step))
  {
    hide Commit, Inv, LedgerInv, ValidJob, Covered;
    if Settles(s, step.entry, step.flight) {
      var job := Job(step.entry, step.flight, ATTEMPTS);
      var released := Release(s, step.flight);
      ReleaseKeepsInv(s, step.flight, usedBefore);
      SavedJobIsValid(s, step.entry, step.flight, usedBefore);
      InvParts(released, usedBefore);
      CommitMissesNothing(released, job, usedBefore);
      CommitFlights(released, job);
      assert Next(s, step) == Commit(released, job);
    }
  }

  lemma InvParts(s: State, usedBefore: int)
    requires Inv(s, usedBefore)
    ensures LedgerInv(s, usedBefore) && ValidLedger(s.ledger)
  {
  }

  lemma SerialShift(s: State, topups: seq<Topup>, now: int)
    requires Serial(s) && (s.flights == map[] || ActiveBalance(topups, now) >= Balance(s))
    ensures Serial(Shifted(s, topups, now))
  {
  }

  lemma SerialTopupStep(s: State, step: Step)
    requires Serial(s) && SerialStep(s, step)
    requires step.Tick? || step.AddTopup? || step.DeleteTopup? || step.SetTopupExpiry?
    ensures Serial(Next(s, step))
  {
    hide Serial, Shifted, ActiveBalance;
    var topups := s.ledger.topups;
    match step
    case Tick(to) =>
      if to >= s.now {
        ShiftedBalance(s, topups, to);
        SerialShift(s, topups, to);
      }
    case AddTopup(id, amount, expiresAt) =>
      var t := Topup(id, amount, 0, s.now, expiresAt, false);
      BalanceOfAppended(topups, t, s.now);
      SerialShift(s, topups + [t], s.now);
    case DeleteTopup(i) =>
      if i < |topups| {
        ShiftedBalance(s, topups[i := topups[i].(deleted := true)], s.now);
        SerialShift(s, topups[i := topups[i].(deleted := true)], s.now);
      }
    case SetTopupExpiry(i, expiresAt) =>
      if i < |topups| {
        ShiftedBalance(s, topups[i := topups[i].(expiresAt := expiresAt)], s.now);
        SerialShift(s, topups[i := topups[i].(expiresAt := expiresAt)], s.now);
      }
  }

  lemma ShiftedBalance(s: State, topups: seq<Topup>, now: int)
    ensures Balance(Shifted(s, topups, now)) == ActiveBalance(topups, now)
  {
  }

  lemma SerialStepKeeps(s: State, step: Step, usedBefore: int)
    requires Serial(s) && Inv(s, usedBefore) && SerialStep(s, step)
    ensures Serial(Next(s, step))
  {
    hide Inv, Commit, Shifted, AvailableTo, AffordableGeneration;
    match step
    case Save(_, _, _) => SerialSave(s, step, usedBefore);
    case Tick(_) => SerialTopupStep(s, step);
    case AddTopup(_, _, _) => SerialTopupStep(s, step);
    case DeleteTopup(_) => SerialTopupStep(s, step);
    case SetTopupExpiry(_, _) => SerialTopupStep(s, step);
    case Work(_, _) =>
    case TakeJob =>
    case _ =>
  }

  /** No overdraft over whole runs: when a user's generations are serialised from admission
      to committed settlement and nothing lapses in between, every charge is drawn from the
      top-ups in full, even across period rollovers and usage resets. */
  lemma {:induction false} NoOverdraft(l: Ledger, now: int, steps: seq<Step>)
    requires CanStart(l, now) && SerialRun(Start(l, now), steps)
    ensures Serial(Run(Start(l, now), steps))
    ensures forall c | c in Run(Start(l, now), steps).charges :: c.deducted == c.amount
  {
    if steps != [] {
      var before := steps[..|steps| - 1];
      NoOverdraft(l, now, before);
      RunKeepsInv(l, now, before);
      SerialStepKeeps(Run(Start(l, now), before), steps[|steps| - 1], TotalUsed(l.topups));
    }
  }
}
