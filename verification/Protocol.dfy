/** The admit, serve, settle protocol around one user's ledger, as a state machine over its
    atomic steps: serveOpenAIClient, serveAnthropicClient and saveRequestLog in
    proxy/handler.go, proxy/outbox.go, and the administrative changes of db/. */
module Protocol {
  import opened Common
  import opened Money
  import opened Rules
  import opened Allowance
  import opened Ledger
  import opened Settlement

  const OUTBOX_CAPACITY: nat := 4096
  const OUTBOX_WORKERS: nat := 8
  /** One immediate attempt and one after each of the four delays. */
  const ATTEMPTS: nat := 5

  /** An admitted generation until its row is committed. `crowd` is what others spent and
      drew since its admission, `lapsed` the top-up balance that expired or was withdrawn. */
  datatype Flight = Flight(id: string, ceiling: int, admittedAt: int, crowd: int, lapsed: int, planKept: bool)

  /** A request log on its way to the database, with the admission it settles, if any. */
  datatype Job = Job(entry: Entry, flight: Option<nat>, attempts: nat)

  /** One committed charge, with the exposure its admission had gathered by then, and whether
      its entry was charged to the budget periods it was admitted in, or to later ones. */
  datatype Charge = Charge(id: string, amount: int, deducted: int, crowd: int, lapsed: int, planKept: bool, inPeriod: bool)

  datatype State = State(
    ledger: Ledger, now: int, active: bool,
    guard: Option<nat>, flights: map<nat, Flight>, nextFlight: nat,
    queue: seq<Job>, workers: seq<Job>, lossCount: nat,
    given: seq<Entry>, done: seq<Entry>, lost: seq<Entry>,
    charges: seq<Charge>)

  /** How one attempt to persist ends: committed and seen, committed but reported as failed, or not at all. */
  datatype Attempt = Committed | CommittedUnseen | NotCommitted

  datatype Step =
    | Tick(to: int)
    | ResetUsage
    | AddTopup(id: string, amount: nat, expiresAt: Option<int>)
    | DeleteTopup(index: nat)
    | SetTopupExpiry(index: nat, expiresAt: Option<int>)
    | AssignPlan(windows: seq<BudgetWindow>)
    | EditPlan(windows: seq<BudgetWindow>)
    | SetActive(active: bool)
    | Admit(request: string, rules: RuleSet, bound: Int64, requested: Int64, pricedAt: int, batch: bool)
    | Abandon(holder: nat)
    | Save(entry: Entry, flight: Option<nat>, attempt: Attempt)
    | TakeJob
    | Work(worker: nat, attempt: Attempt)

  function Balance(s: State): int {
    ActiveBalance(s.ledger.topups, s.now)
  }

  /** Move to another clock or top-up table, charging what the balance lost to every flight. */
  function Shifted(s: State, topups: seq<Topup>, now: int): State {
    var lapse := Max(0, Balance(s) - ActiveBalance(topups, now));
    s.(ledger := s.ledger.(topups := topups), now := now,
       flights := map h | h in s.flights :: s.flights[h].(lapsed := s.flights[h].lapsed + lapse))
  }

  /** Another plan, or the same plan edited in place: what was admitted before was not measured by it. */
  function Replanned(s: State, ledger: Ledger): State {
    if forall w | w in ledger.windows :: w.durationSeconds > 0 && w.budget > 0 then
      s.(ledger := ledger, flights := map h | h in s.flights :: s.flights[h].(planKept := false))
    else s
  }

  /** No window charges an entry to an earlier period than the one its admission was measured in. */
  predicate InPeriod(l: Ledger, admittedAt: int, createdAt: int) {
    forall w | w in l.windows :: Floor(l, w, admittedAt) <= Floor(l, w, createdAt)
  }

  /** An entry created at its admission or later is never charged to an earlier period. */
  lemma CreatedLaterIsInPeriod(l: Ledger, admittedAt: int, createdAt: int)
    requires admittedAt <= createdAt
    ensures InPeriod(l, admittedAt, createdAt)
  {
    forall w | w in l.windows ensures Floor(l, w, admittedAt) <= Floor(l, w, createdAt) {
      FloorIsMonotone(l, l, w, admittedAt, createdAt);
    }
  }

  /** One entry persisted: its flight ends, and every other flight sees what it spent and drew. */
  function Commit(s: State, job: Job): State {
    match Persisted(s.ledger, job.entry, s.now)
    case None => s
    case Some(o) =>
      var isNew := !Recorded(s.ledger.rows, job.entry.id);
      var spent := (if isNew && Succeeded(job.entry.status) then RecordedCost(job.entry) else 0) + o.deducted;
      var own := if job.flight.Some? && job.flight.value in s.flights then s.flights[job.flight.value]
                 else Flight(job.entry.id, 0, s.now, 0, 0, true);
      var charge := Charge(job.entry.id, o.charge, o.deducted, own.crowd, own.lapsed, own.planKept,
                           InPeriod(s.ledger, own.admittedAt, job.entry.createdAt));
      s.(ledger := o.ledger,
         flights := map h | h in s.flights && job.flight != Some(h) :: s.flights[h].(crowd := s.flights[h].crowd + spent),
         charges := if isNew then s.charges + [charge] else s.charges)
  }

  predicate CommitsIn(job: Job, attempt: Attempt) {
    !attempt.NotCommitted? && job.entry.cost >= 0
  }

  predicate Seen(job: Job, attempt: Attempt) {
    attempt.Committed? && job.entry.cost >= 0
  }

  /** The non-blocking enqueue: a full buffer counts a loss. */
  function Enqueue(s: State, job: Job): State {
    var s' := s.(given := s.given + [job.entry]);
    if |s.queue| < OUTBOX_CAPACITY then s'.(queue := s.queue + [job])
    else s'.(lossCount := s.lossCount + 1, lost := s.lost + [job.entry])
  }

  function Release(s: State, flight: Option<nat>): State {
    if flight.Some? && s.guard == flight then s.(guard := None) else s
  }

  /** An entry settles an open admission under its ceiling, or has no ceiling. */
  predicate Settles(s: State, entry: Entry, flight: Option<nat>) {
    if flight.None? then entry.ceiling <= 0
    else
      flight.value in s.flights && s.flights[flight.value].id == entry.id
      && s.flights[flight.value].ceiling == entry.ceiling
  }

  function AvailableTo(s: State): (a: Int64)
    ensures 0 <= a <= MAX_INT64
  {
    LimitingWindowIsLeast(s.ledger, s.now, |s.ledger.windows|);
    LimitingWindowIsCapped(s.ledger, s.now, |s.ledger.windows|);
    Availability(s.ledger, s.now)
  }

  lemma {:induction false} LimitingWindowIsCapped(l: Ledger, now: int, n: nat)
    requires n <= |l.windows|
    ensures LimitingWindow(l, now, n).0 <= MAX_INT64
  {
    if n > 0 {
      LimitingWindowIsCapped(l, now, n - 1);
    }
  }

  /** A step that is not enabled leaves the state as it is. */
  function Next(s: State, step: Step): State {
    match step
    case Tick(to) => if to >= s.now then Shifted(s, s.ledger.topups, to) else s
    case ResetUsage => s.(ledger := s.ledger.(resetAt := Some(s.now)))
    case AddTopup(id, amount, expiresAt) =>
      Shifted(s, s.ledger.topups + [Topup(id, amount, 0, s.now, expiresAt, false)], s.now)
    case DeleteTopup(i) =>
      if i < |s.ledger.topups| then Shifted(s, s.ledger.topups[i := s.ledger.topups[i].(deleted := true)], s.now) else s
    case SetTopupExpiry(i, expiresAt) =>
      if i < |s.ledger.topups| then Shifted(s, s.ledger.topups[i := s.ledger.topups[i].(expiresAt := expiresAt)], s.now) else s
    case AssignPlan(windows) => Replanned(s, s.ledger.(windows := windows, assignedAt := s.now, resetAt := None))
    case EditPlan(windows) => Replanned(s, s.ledger.(windows := windows))
    case SetActive(active) => s.(active := active)
    case Admit(request, rules, bound, requested, pricedAt, batch) =>
      if !s.active || s.ledger.windows == [] || (!batch && s.guard.Some?) then s
      else
        (match AffordableGeneration(rules, bound, requested, AvailableTo(s), pricedAt)
         case Granted(_, ceiling) =>
           s.(flights := s.flights[s.nextFlight := Flight(request, ceiling, s.now, 0, 0, true)],
              guard := if batch then s.guard else Some(s.nextFlight), nextFlight := s.nextFlight + 1)
         case _ => s)
    case Abandon(h) =>
      if s.guard == Some(h) then s.(guard := None, flights := s.flights - {h}) else s
    case Save(entry, flight, attempt) =>
      if !Settles(s, entry, flight) then s
      else
        // the handler's deferred release and the write it waits for are one step
        var job := Job(entry, flight, ATTEMPTS);
        var tried := Tried(Release(s, flight), job, attempt);
        if Seen(job, attempt) then tried else Enqueue(tried, job)
    case TakeJob =>
      if s.queue != [] && |s.workers| < OUTBOX_WORKERS
      then s.(queue := s.queue[1..], workers := s.workers + [s.queue[0]]) else s
    case Work(i, attempt) =>
      if i < |s.workers| then Retire(Tried(s, s.workers[i], attempt), i, attempt) else s
  }

  function Tried(s: State, job: Job, attempt: Attempt): (s': State)
    ensures s'.workers == s.workers && s'.queue == s.queue
  {
    if CommitsIn(job, attempt) then Commit(s, job) else s
  }

  /** What a worker does with its job once the attempt is over. */
  function Retire(s: State, i: nat, attempt: Attempt): State
    requires i < |s.workers|
  {
    var job := s.workers[i];
    if Seen(job, attempt) then s.(workers := Without(s.workers, i), done := s.done + [job.entry])
    else if job.attempts > 1 then s.(workers := s.workers[i := job.(attempts := job.attempts - 1)])
    else s.(workers := Without(s.workers, i), lost := s.lost + [job.entry], lossCount := s.lossCount + 1)
  }

  function Without<T>(s: seq<T>, i: nat): seq<T>
    requires i < |s|
  {
    s[..i] + s[i + 1..]
  }

  function Run(s: State, steps: seq<Step>): State {
    if steps == [] then s else Next(Run(s, steps[..|steps| - 1]), steps[|steps| - 1])
  }

  // ---- What every step keeps ----

  /** The ceiling of an open admission is still paid for: by every window's unspent budget
      since its admission and the top-ups, up to the exposure gathered meanwhile. */
  predicate Covered(l: Ledger, now: int, f: Flight) {
    f.planKept && f.ceiling > 0 ==>
      forall w | w in l.windows ::
        f.ceiling <= w.budget - SpentSince(l.rows, Floor(l, w, f.admittedAt)) + ActiveBalance(l.topups, now) + f.crowd + f.lapsed
  }

  predicate ValidFlight(s: State, h: nat)
    requires h in s.flights
  {
    var f := s.flights[h];
    h < s.nextFlight && f.ceiling >= 0 && f.crowd >= 0 && f.lapsed >= 0 && f.admittedAt <= s.now
    && Covered(s.ledger, s.now, f)
  }

  /** A pending entry with a ceiling is either recorded already or still has its admission. */
  predicate ValidJob(s: State, job: Job) {
    && (job.flight.Some? ==>
          && job.flight.value < s.nextFlight && s.guard != job.flight
          && (job.flight.value in s.flights ==> s.flights[job.flight.value].id == job.entry.id))
    && (job.entry.ceiling > 0 && !Recorded(s.ledger.rows, job.entry.id) ==>
          && job.flight.Some? && job.flight.value in s.flights
          && s.flights[job.flight.value].ceiling == job.entry.ceiling)
  }

  /** A charge draws what the top-ups hold, and misses at most its admission's exposure. */
  predicate ValidCharge(c: Charge) {
    0 <= c.deducted <= c.amount && (c.planKept && c.inPeriod ==> c.amount - c.deducted <= c.crowd + c.lapsed)
  }

  function SumDeducted(charges: seq<Charge>): int {
    if charges == [] then 0 else SumDeducted(charges[..|charges| - 1]) + charges[|charges| - 1].deducted
  }

  predicate ChargedOnce(s: State) {
    && (forall i, j | 0 <= i < j < |s.charges| :: s.charges[i].id != s.charges[j].id)
    && (forall i | 0 <= i < |s.charges| :: Recorded(s.ledger.rows, s.charges[i].id))
  }

  /** The money part of the invariant; usedBefore is the top-up use at the start of the run. */
  predicate LedgerInv(s: State, usedBefore: int) {
    && ValidLedger(s.ledger) && UniqueRowIds(s.ledger.rows)
    && (s.ledger.resetAt.Some? ==> s.ledger.resetAt.value <= s.now)
    && (forall h | h in s.flights :: ValidFlight(s, h))
    && (forall i | 0 <= i < |s.charges| :: ValidCharge(s.charges[i]))
    && ChargedOnce(s)
    && TotalUsed(s.ledger.topups) == usedBefore + SumDeducted(s.charges)
  }

  predicate JobsInv(s: State) {
    && (forall i | 0 <= i < |s.queue| :: ValidJob(s, s.queue[i]))
    && (forall i | 0 <= i < |s.workers| :: ValidJob(s, s.workers[i]))
  }

  function Entries(jobs: seq<Job>): (es: seq<Entry>)
    ensures |es| == |jobs| && forall i | 0 <= i < |jobs| :: es[i] == jobs[i].entry
  {
    seq(|jobs|, i requires 0 <= i < |jobs| => jobs[i].entry)
  }

  /** Every entry handed to the outbox is queued, with a worker, persisted or counted as lost. */
  predicate OutboxInv(s: State) {
    && multiset(s.given) == multiset(Entries(s.queue)) + multiset(Entries(s.workers)) + multiset(s.done) + multiset(s.lost)
    && s.lossCount == |s.lost|
    && |s.queue| <= OUTBOX_CAPACITY && |s.workers| <= OUTBOX_WORKERS
    && forall i | 0 <= i < |s.done| :: Recorded(s.ledger.rows, s.done[i].id)
  }

  predicate Inv(s: State, usedBefore: int) {
    LedgerInv(s, usedBefore) && JobsInv(s) && OutboxInv(s)
  }

  // ---- Coverage moves with the ledger ----

  /** A later reset or clock only frees budget. */
  lemma CoveredAfterReset(l: Ledger, now: int, f: Flight)
    requires ValidLedger(l) && Covered(l, now, f) && (l.resetAt.Some? ==> l.resetAt.value <= now)
    ensures Covered(l.(resetAt := Some(now)), now, f)
  {
    var l' := l.(resetAt := Some(now));
    forall w | w in l.windows ensures SpentSince(l.rows, Floor(l', w, f.admittedAt)) <= SpentSince(l.rows, Floor(l, w, f.admittedAt)) {
      FloorIsMonotone(l, l', w, f.admittedAt, f.admittedAt);
      SpentFallsWithFloor(l.rows, Floor(l, w, f.admittedAt), Floor(l', w, f.admittedAt));
    }
  }

  lemma CoveredAfterShift(l: Ledger, now: int, f: Flight, topups: seq<Topup>, now': int, lapse: int)
    requires Covered(l, now, f) && lapse >= ActiveBalance(l.topups, now) - ActiveBalance(topups, now')
    ensures Covered(l.(topups := topups), now', f.(lapsed := f.lapsed + lapse))
  {
    var l' := l.(topups := topups);
    forall w | w in l.windows ensures Floor(l', w, f.admittedAt) == Floor(l, w, f.admittedAt) {}
  }

  /** Another request's row and deduction are what `crowd` grows by. */
  lemma CoveredAfterRow(l: Ledger, now: int, f: Flight, row: LogRow, topups: seq<Topup>, deducted: int)
    requires Covered(l, now, f) && row.cost >= 0
    requires ActiveBalance(topups, now) == ActiveBalance(l.topups, now) - deducted
    ensures Covered(l.(rows := l.rows + [row], topups := topups), now,
                    f.(crowd := f.crowd + ((if Succeeded(row.status) then row.cost else 0) + deducted)))
  {
    var l' := l.(rows := l.rows + [row], topups := topups);
    forall w | w in l.windows
      ensures SpentSince(l'.rows, Floor(l', w, f.admittedAt))
           <= SpentSince(l.rows, Floor(l, w, f.admittedAt)) + (if Succeeded(row.status) then row.cost else 0)
    {
      SpentOfAppended(l.rows, row, Floor(l, w, f.admittedAt));
    }
  }

  lemma ReserveOfCovered(l: Ledger, now: int, f: Flight, createdAt: int, cost: int)
    requires ValidLedger(l) && f.planKept && f.ceiling > 0 && f.crowd >= 0 && f.lapsed >= 0
    requires Covered(l, now, f) && InPeriod(l, f.admittedAt, createdAt) && 0 <= cost <= f.ceiling
    ensures 0 <= MarginalCharge(l, createdAt, cost) <= ActiveBalance(l.topups, now) + f.crowd + f.lapsed
  {
    BalanceShrinksWithTime(l.topups, now, now);
    forall w | w in l.windows
      ensures cost <= w.budget - SpentSince(l.rows, Floor(l, w, createdAt)) + (ActiveBalance(l.topups, now) + f.crowd + f.lapsed)
    {
      SpentFallsWithFloor(l.rows, Floor(l, w, f.admittedAt), Floor(l, w, createdAt));
    }
    ChargeWithinReserve(l, createdAt, cost, ActiveBalance(l.topups, now) + f.crowd + f.lapsed);
  }

  /** What admission grants is covered at once. */
  lemma CoveredAtAdmission(s: State, request: string, ceiling: int)
    requires 0 <= ceiling <= AvailableTo(s)
    ensures Covered(s.ledger, s.now, Flight(request, ceiling, s.now, 0, 0, true))
  {
    LimitingWindowIsLeast(s.ledger, s.now, |s.ledger.windows|);
    forall w | w in s.ledger.windows
      ensures ceiling > 0 ==> ceiling <= w.budget - SpentSince(s.ledger.rows, Floor(s.ledger, w, s.now)) + Balance(s)
    {
      var i :| 0 <= i < |s.ledger.windows| && s.ledger.windows[i] == w;
      assert Availability(s.ledger, s.now) <= WindowAvailable(s.ledger, s.ledger.windows[i], s.now);
    }
  }

  // ---- The invariant, step by step ----

  lemma RecordedStays(rows: seq<LogRow>, row: LogRow, id: string)
    requires Recorded(rows, id)
    ensures Recorded(rows + [row], id)
  {
    var i :| 0 <= i < |rows| && rows[i].id == id;
    assert (rows + [row])[i].id == id;
  }

  lemma ShiftKeepsLedgerInv(s: State, topups: seq<Topup>, now: int, usedBefore: int)
    requires LedgerInv(s, usedBefore) && s.now <= now
    requires forall i | 0 <= i < |topups| :: ValidTopup(topups[i])
    requires TotalUsed(topups) == TotalUsed(s.ledger.topups)
    ensures LedgerInv(Shifted(s, topups, now), usedBefore)
  {
    assert ValidLedger(s.ledger) && forall h | h in s.flights :: ValidFlight(s, h);
    hide LedgerInv, ValidLedger, ValidFlight;
    var s' := Shifted(s, topups, now);
    forall h | h in s'.flights ensures ValidFlight(s', h) {
      ShiftKeepsFlight(s, topups, now, h);
    }
    BooksAfterShift(s, s', topups, usedBefore);
  }

  lemma BooksAfterShift(s: State, s': State, topups: seq<Topup>, usedBefore: int)
    requires LedgerInv(s, usedBefore) && s.now <= s'.now && s'.charges == s.charges
    requires s'.ledger == s.ledger.(topups := topups) && forall h | h in s'.flights :: ValidFlight(s', h)
    requires forall i | 0 <= i < |topups| :: ValidTopup(topups[i])
    requires TotalUsed(topups) == TotalUsed(s.ledger.topups)
    ensures LedgerInv(s', usedBefore)
  {
    hide ValidFlight, ValidCharge, Recorded, TotalUsed, SumDeducted;
  }

  lemma ShiftKeepsFlight(s: State, topups: seq<Topup>, now: int, h: nat)
    requires ValidLedger(s.ledger) && s.now <= now && h in s.flights && ValidFlight(s, h)
    requires forall i | 0 <= i < |topups| :: ValidTopup(topups[i])
    ensures ValidFlight(Shifted(s, topups, now), h)
  {
    hide Covered;
    CoveredAfterShift(s.ledger, s.now, s.flights[h], topups, now, Max(0, Balance(s) - ActiveBalance(topups, now)));
  }

  lemma ShiftKeepsInv(s: State, topups: seq<Topup>, now: int, usedBefore: int)
    requires Inv(s, usedBefore) && s.now <= now
    requires forall i | 0 <= i < |topups| :: ValidTopup(topups[i])
    requires TotalUsed(topups) == TotalUsed(s.ledger.topups)
    ensures Inv(Shifted(s, topups, now), usedBefore)
  {
    hide LedgerInv, ValidJob;
    ShiftKeepsLedgerInv(s, topups, now, usedBefore);
    JobsAfter(s, Shifted(s, topups, now));
  }

  /** Steps that keep rows, guard, handles and the flights' fixed parts keep every pending job. */
  lemma JobsAfter(s: State, s': State)
    requires JobsInv(s) && s'.queue == s.queue && s'.workers == s.workers
    requires s'.ledger.rows == s.ledger.rows && s'.flights.Keys == s.flights.Keys
    requires s.nextFlight <= s'.nextFlight && (s'.guard == s.guard || s'.guard.None?)
    requires forall h | h in s.flights :: s'.flights[h].id == s.flights[h].id && s'.flights[h].ceiling == s.flights[h].ceiling
                                         && s'.flights[h].admittedAt == s.flights[h].admittedAt
    ensures JobsInv(s')
  {
    forall i | 0 <= i < |s.queue| ensures ValidJob(s', s'.queue[i]) {
      assert ValidJob(s, s.queue[i]);
    }
    forall i | 0 <= i < |s.workers| ensures ValidJob(s', s'.workers[i]) {
      assert ValidJob(s, s.workers[i]);
    }
  }

  /** Steps that touch only the plan, the reset instant, the status and the flights' tallies. */
  lemma RulesStepKeepsInv(s: State, s': State, usedBefore: int)
    requires Inv(s, usedBefore)
    requires s' == s.(ledger := s'.ledger, flights := s'.flights, active := s'.active)
    requires s'.ledger.rows == s.ledger.rows && s'.ledger.topups == s.ledger.topups && ValidLedger(s'.ledger)
    requires s'.ledger.resetAt.Some? ==> s'.ledger.resetAt.value <= s.now
    requires s'.flights.Keys == s.flights.Keys
    requires forall h | h in s.flights :: s'.flights[h] == s.flights[h].(planKept := s'.flights[h].planKept)
    requires forall h | h in s.flights :: Covered(s'.ledger, s.now, s'.flights[h])
    ensures Inv(s', usedBefore)
  {
    forall h | h in s'.flights ensures ValidFlight(s', h) {
      assert ValidFlight(s, h);
    }
    JobsAfter(s, s');
  }

  lemma PlanStepKeepsInv(s: State, step: Step, usedBefore: int)
    requires Inv(s, usedBefore) && (step.ResetUsage? || step.AssignPlan? || step.EditPlan? || step.SetActive?)
    ensures Inv(Next(s, step), usedBefore)
  {
    hide Inv, Replanned;
    match step
    case ResetUsage => ResetKeepsInv(s, usedBefore);
    case AssignPlan(windows) =>
      ReplannedKeepsInv(s, s.ledger.(windows := windows, assignedAt := s.now, resetAt := None), usedBefore);
    case EditPlan(windows) => ReplannedKeepsInv(s, s.ledger.(windows := windows), usedBefore);
    case SetActive(active) => StatusKeepsInv(s, active, usedBefore);
  }

  lemma ResetKeepsInv(s: State, usedBefore: int)
    requires Inv(s, usedBefore)
    ensures Inv(s.(ledger := s.ledger.(resetAt := Some(s.now))), usedBefore)
  {
    InvMeans(s, usedBefore);
    hide Inv, Covered;
    var s' := s.(ledger := s.ledger.(resetAt := Some(s.now)));
    forall h | h in s.flights ensures Covered(s'.ledger, s.now, s.flights[h]) {
      CoveredAfterReset(s.ledger, s.now, s.flights[h]);
    }
    RulesStepKeepsInv(s, s', usedBefore);
  }

  lemma StatusKeepsInv(s: State, active: bool, usedBefore: int)
    requires Inv(s, usedBefore)
    ensures Inv(s.(active := active), usedBefore)
  {
    InvMeans(s, usedBefore);
    hide Inv, Covered;
    RulesStepKeepsInv(s, s.(active := active), usedBefore);
  }

  lemma ReplannedKeepsInv(s: State, ledger: Ledger, usedBefore: int)
    requires Inv(s, usedBefore) && ledger.rows == s.ledger.rows && ledger.topups == s.ledger.topups
    requires ledger.resetAt == None || ledger.resetAt == s.ledger.resetAt
    ensures Inv(Replanned(s, ledger), usedBefore)
  {
    InvMeans(s, usedBefore);
    hide Inv, Covered;
    var s' := Replanned(s, ledger);
    if s' != s {
      forall h | h in s'.flights ensures Covered(s'.ledger, s.now, s'.flights[h]) {
        NotKept(s'.ledger, s.now, s'.flights[h]);
      }
      RulesStepKeepsInv(s, s', usedBefore);
    }
  }

  lemma InvMeans(s: State, usedBefore: int)
    requires Inv(s, usedBefore)
    ensures ValidLedger(s.ledger) && (s.ledger.resetAt.Some? ==> s.ledger.resetAt.value <= s.now)
    ensures forall h | h in s.flights :: h < s.nextFlight && Covered(s.ledger, s.now, s.flights[h])
  {
    forall h | h in s.flights ensures h < s.nextFlight && Covered(s.ledger, s.now, s.flights[h]) {
      assert ValidFlight(s, h);
    }
  }

  lemma NotKept(l: Ledger, now: int, f: Flight)
    ensures !f.planKept ==> Covered(l, now, f)
  {
  }

  lemma TopupStepKeepsInv(s: State, step: Step, usedBefore: int)
    requires Inv(s, usedBefore) && (step.Tick? || step.AddTopup? || step.DeleteTopup? || step.SetTopupExpiry?)
    ensures Inv(Next(s, step), usedBefore)
  {
    assert ValidLedger(s.ledger);
    hide LedgerInv, JobsInv, OutboxInv, Shifted;
    var topups := s.ledger.topups;
    match step
    case Tick(to) =>
      if to >= s.now {
        ShiftKeepsInv(s, topups, to, usedBefore);
      }
    case AddTopup(id, amount, expiresAt) =>
      var t := Topup(id, amount, 0, s.now, expiresAt, false);
      BalanceOfAppended(topups, t, s.now);
      ShiftKeepsInv(s, topups + [t], s.now, usedBefore);
    case DeleteTopup(i) =>
      if i < |topups| {
        BalanceAfterUpdate(topups, i, topups[i].(deleted := true), s.now);
        ShiftKeepsInv(s, topups[i := topups[i].(deleted := true)], s.now, usedBefore);
      }
    case SetTopupExpiry(i, expiresAt) =>
      if i < |topups| {
        BalanceAfterUpdate(topups, i, topups[i].(expiresAt := expiresAt), s.now);
        ShiftKeepsInv(s, topups[i := topups[i].(expiresAt := expiresAt)], s.now, usedBefore);
      }
  }

  lemma AdmitKeepsInv(s: State, step: Step, usedBefore: int)
    requires Inv(s, usedBefore) && (step.Admit? || step.Abandon?)
    ensures Inv(Next(s, step), usedBefore)
  {
    InvMeans(s, usedBefore);
    hide Inv, Covered, AffordableGeneration, AvailableTo;
    var s' := Next(s, step);
    if s' != s {
      if step.Admit? {
        GrantedIsCovered(step.rules, step.bound, step.requested, AvailableTo(s), step.pricedAt);
        CoveredAtAdmission(s, step.request, s'.flights[s.nextFlight].ceiling);
      }
      FlightSetKeepsInv(s, s', usedBefore);
    }
  }

  /** One more covered admission, or one fewer, and the guard that goes with it. */
  lemma FlightSetKeepsInv(s: State, s': State, usedBefore: int)
    requires Inv(s, usedBefore) && s' == s.(flights := s'.flights, guard := s'.guard, nextFlight := s'.nextFlight)
    requires s.nextFlight <= s'.nextFlight && (s'.guard == s.guard || s'.guard.None? || s'.guard == Some(s.nextFlight))
    requires forall h | h in s.flights && h !in s'.flights :: s.guard == Some(h)
    requires forall h | h in s'.flights && h in s.flights :: s'.flights[h] == s.flights[h]
    requires forall h | h in s'.flights && h !in s.flights ::
               s.nextFlight == h < s'.nextFlight && s'.flights[h].ceiling >= 0 && s'.flights[h].crowd >= 0
               && s'.flights[h].lapsed >= 0 && s'.flights[h].admittedAt <= s.now && Covered(s.ledger, s.now, s'.flights[h])
    ensures Inv(s', usedBefore)
  {
    hide Covered;
    forall h | h in s'.flights ensures ValidFlight(s', h) {
      assert h in s.flights ==> ValidFlight(s, h);
    }
    hide ValidFlight;
    forall i | 0 <= i < |s.queue| ensures ValidJob(s', s'.queue[i]) {
      assert ValidJob(s, s.queue[i]);
    }
    forall i | 0 <= i < |s.workers| ensures ValidJob(s', s'.workers[i]) {
      assert ValidJob(s, s.workers[i]);
    }
  }

  // ---- Committing an entry ----

  /** The flights another request's commit leaves behind are still covered. */
  lemma CommitKeepsFlights(s: State, job: Job, usedBefore: int)
    requires LedgerInv(s, usedBefore)
    ensures forall h | h in Commit(s, job).flights :: ValidFlight(Commit(s, job), h)
  {
    var s' := Commit(s, job);
    PersistedEffect(s.ledger, job.entry, s.now);
    BalanceShrinksWithTime(s.ledger.topups, s.now, s.now);
    forall h | h in s'.flights ensures ValidFlight(s', h) {
      assert ValidFlight(s, h);
      if job.entry.cost >= 0 && !Recorded(s.ledger.rows, job.entry.id) {
        var o := Persisted(s.ledger, job.entry, s.now).value;
        var row := LogRow(job.entry.id, RecordedCost(job.entry), job.entry.createdAt, job.entry.status);
        CoveredAfterRow(s.ledger, s.now, s.flights[h], row, o.ledger.topups, o.deducted);
      }
    }
  }

  /** The charge itself: never more than the top-ups hold plus the admission's exposure. */
  lemma CommitChargesWithinExposure(s: State, job: Job, usedBefore: int)
    requires LedgerInv(s, usedBefore) && ValidJob(s, job)
    ensures var s' := Commit(s, job);
            s'.charges == s.charges
            || (!Recorded(s.ledger.rows, job.entry.id) && |s'.charges| == |s.charges| + 1
                && s'.charges == s.charges + [s'.charges[|s.charges|]]
                && s'.charges[|s.charges|].id == job.entry.id && ValidCharge(s'.charges[|s.charges|]))
  {
    PersistedEffect(s.ledger, job.entry, s.now);
    BalanceShrinksWithTime(s.ledger.topups, s.now, s.now);
    if job.entry.cost >= 0 && !Recorded(s.ledger.rows, job.entry.id) && job.entry.ceiling > 0 {
      var f := s.flights[job.flight.value];
      assert ValidFlight(s, job.flight.value);
      if f.planKept && InPeriod(s.ledger, f.admittedAt, job.entry.createdAt) {
        ReserveOfCovered(s.ledger, s.now, f, job.entry.createdAt, RecordedCost(job.entry));
      }
    }
  }

  lemma CommitKeepsLedgerInv(s: State, job: Job, usedBefore: int)
    requires LedgerInv(s, usedBefore) && ValidJob(s, job)
    ensures LedgerInv(Commit(s, job), usedBefore)
    ensures job.entry.cost >= 0 ==> Recorded(Commit(s, job).ledger.rows, job.entry.id)
    ensures forall id | Recorded(s.ledger.rows, id) :: Recorded(Commit(s, job).ledger.rows, id)
  {
    hide ValidFlight, ValidCharge, ActiveBalance, TotalUsed;
    var s' := Commit(s, job);
    PersistedEffect(s.ledger, job.entry, s.now);
    CommitKeepsFlights(s, job, usedBefore);
    CommitChargesWithinExposure(s, job, usedBefore);
    forall id | Recorded(s.ledger.rows, id) ensures Recorded(s'.ledger.rows, id) {
      if s'.ledger.rows != s.ledger.rows {
        RecordedStays(s.ledger.rows, s'.ledger.rows[|s.ledger.rows|], id);
      }
    }
    if s'.charges != s.charges {
      assert s'.charges[..|s.charges|] == s.charges;
    }
  }

  /** Every pending job survives a commit: its own request is now recorded, another keeps its flight. */
  lemma CommitKeepsJob(s: State, job: Job, other: Job, usedBefore: int)
    requires LedgerInv(s, usedBefore) && ValidJob(s, job) && ValidJob(s, other)
    ensures ValidJob(Commit(s, job), other)
  {
    CommitKeepsLedgerInv(s, job, usedBefore);
  }

  lemma CommitKeepsInv(s: State, job: Job, usedBefore: int)
    requires Inv(s, usedBefore) && ValidJob(s, job)
    ensures Inv(Commit(s, job), usedBefore)
    ensures ValidJob(Commit(s, job), job)
    ensures job.entry.cost >= 0 ==> Recorded(Commit(s, job).ledger.rows, job.entry.id)
  {
    CommitKeepsLedgerInv(s, job, usedBefore);
    CommitKeepsJob(s, job, job, usedBefore);
    forall i | 0 <= i < |s.queue| ensures ValidJob(Commit(s, job), s.queue[i]) {
      CommitKeepsJob(s, job, s.queue[i], usedBefore);
    }
    forall i | 0 <= i < |s.workers| ensures ValidJob(Commit(s, job), s.workers[i]) {
      CommitKeepsJob(s, job, s.workers[i], usedBefore);
    }
  }

  lemma EntriesAppend(jobs: seq<Job>, job: Job)
    ensures Entries(jobs + [job]) == Entries(jobs) + [job.entry]
  {
  }

  lemma EntriesWithout(jobs: seq<Job>, i: nat)
    requires i < |jobs|
    ensures multiset(Entries(jobs)) == multiset(Entries(Without(jobs, i))) + multiset{jobs[i].entry}
  {
    var all := Entries(jobs);
    assert all == all[..i] + [all[i]] + all[i + 1..];
    assert Entries(Without(jobs, i)) == all[..i] + all[i + 1..];
  }

  /** Moving entries through the outbox leaves the money part of the invariant alone. */
  lemma OutboxStepKeepsLedgerInv(s: State, s': State, usedBefore: int)
    requires LedgerInv(s, usedBefore)
    requires s' == s.(guard := s'.guard, queue := s'.queue, workers := s'.workers, lossCount := s'.lossCount,
                      given := s'.given, done := s'.done, lost := s'.lost)
    ensures LedgerInv(s', usedBefore)
    ensures forall job | ValidJob(s, job) && (s'.guard == s.guard || s'.guard.None?) :: ValidJob(s', job)
  {
    forall h | h in s'.flights ensures ValidFlight(s', h) {
      assert ValidFlight(s, h);
    }
  }

  lemma EnqueueKeepsOutbox(s: State, job: Job)
    requires OutboxInv(s)
    ensures OutboxInv(Enqueue(s, job))
  {
    EntriesAppend(s.queue, job);
  }

  lemma EnqueueKeepsInv(s: State, job: Job, usedBefore: int)
    requires Inv(s, usedBefore) && ValidJob(s, job)
    ensures Inv(Enqueue(s, job), usedBefore)
  {
    hide LedgerInv, ValidJob, OutboxInv;
    var s' := Enqueue(s, job);
    OutboxStepKeepsLedgerInv(s, s', usedBefore);
    EnqueueKeepsOutbox(s, job);
    forall i | 0 <= i < |s'.queue| ensures ValidJob(s', s'.queue[i]) {
      assert i < |s.queue| ==> ValidJob(s, s.queue[i]);
    }
    forall i | 0 <= i < |s.workers| ensures ValidJob(s', s'.workers[i]) {
      assert ValidJob(s, s.workers[i]);
    }
  }

  lemma ReleaseKeepsInv(s: State, flight: Option<nat>, usedBefore: int)
    requires Inv(s, usedBefore)
    ensures Inv(Release(s, flight), usedBefore)
  {
    OutboxStepKeepsLedgerInv(s, Release(s, flight), usedBefore);
    JobsAfter(s, Release(s, flight));
  }

  /** An entry about to be saved is a valid job once its request holds no guard. */
  lemma SavedJobIsValid(s: State, entry: Entry, flight: Option<nat>, usedBefore: int)
    requires Inv(s, usedBefore) && Settles(s, entry, flight)
    ensures ValidJob(Release(s, flight), Job(entry, flight, ATTEMPTS))
  {
    if flight.Some? {
      assert ValidFlight(s, flight.value);
    }
  }

  lemma SaveKeepsInv(s: State, step: Step, usedBefore: int)
    requires Inv(s, usedBefore) && step.Save?
    ensures Inv(Next(s, step), usedBefore)
  {
    hide Inv, Commit, Enqueue, Release, ValidJob;
    if Settles(s, step.entry, step.flight) {
      var job := Job(step.entry, step.flight, ATTEMPTS);
      var released := Release(s, step.flight);
      ReleaseKeepsInv(s, step.flight, usedBefore);
      SavedJobIsValid(s, step.entry, step.flight, usedBefore);
      CommitKeepsInv(released, job, usedBefore);
      EnqueueKeepsInv(Tried(released, job, step.attempt), job, usedBefore);
    }
  }

  lemma TakeJobKeepsOutbox(s: State)
    requires OutboxInv(s) && s.queue != [] && |s.workers| < OUTBOX_WORKERS
    ensures OutboxInv(s.(queue := s.queue[1..], workers := s.workers + [s.queue[0]]))
  {
    hide Entries;
    EntriesWithout(s.queue, 0);
    assert Without(s.queue, 0) == s.queue[1..];
    EntriesAppend(s.workers, s.queue[0]);
  }

  lemma TakeJobKeepsInv(s: State, usedBefore: int)
    requires Inv(s, usedBefore)
    ensures Inv(Next(s, TakeJob), usedBefore)
  {
    hide LedgerInv, ValidJob, OutboxInv;
    var s' := Next(s, TakeJob);
    if s' != s {
      OutboxStepKeepsLedgerInv(s, s', usedBefore);
      TakeJobKeepsOutbox(s);
      forall i | 0 <= i < |s'.queue| ensures ValidJob(s', s'.queue[i]) {
        assert ValidJob(s, s.queue[i + 1]);
      }
      assert ValidJob(s, s.queue[0]);
      forall i | 0 <= i < |s'.workers| ensures ValidJob(s', s'.workers[i]) {
        assert i < |s.workers| ==> ValidJob(s, s.workers[i]);
      }
    }
  }

  lemma RetireKeepsOutbox(s: State, i: nat, attempt: Attempt)
    requires OutboxInv(s) && i < |s.workers|
    requires Seen(s.workers[i], attempt) ==> Recorded(s.ledger.rows, s.workers[i].entry.id)
    ensures OutboxInv(Retire(s, i, attempt))
  {
    var s' := Retire(s, i, attempt);
    EntriesWithout(s.workers, i);
    if s.workers[i].attempts > 1 && !Seen(s.workers[i], attempt) {
      assert Entries(s'.workers) == Entries(s.workers);
    }
  }

  lemma RetireKeepsInv(s: State, i: nat, attempt: Attempt, usedBefore: int)
    requires Inv(s, usedBefore) && i < |s.workers|
    requires Seen(s.workers[i], attempt) ==> Recorded(s.ledger.rows, s.workers[i].entry.id)
    ensures Inv(Retire(s, i, attempt), usedBefore)
  {
    hide LedgerInv, OutboxInv;
    var s' := Retire(s, i, attempt);
    OutboxStepKeepsLedgerInv(s, s', usedBefore);
    RetireKeepsOutbox(s, i, attempt);
    forall k | 0 <= k < |s'.queue| ensures ValidJob(s', s'.queue[k]) {
      assert ValidJob(s, s.queue[k]);
    }
    forall k | 0 <= k < |s'.workers| ensures ValidJob(s', s'.workers[k]) {
      assert ValidJob(s, s.workers[k]);
      assert k + 1 < |s.workers| ==> ValidJob(s, s.workers[k + 1]);
    }
  }

  lemma WorkKeepsInv(s: State, step: Step, usedBefore: int)
    requires Inv(s, usedBefore) && step.Work?
    ensures Inv(Next(s, step), usedBefore)
  {
    hide Inv, Commit, Retire;
    if step.worker < |s.workers| {
      var job := s.workers[step.worker];
      WorkerJob(s, step.worker, usedBefore);
      CommitKeepsInv(s, job, usedBefore);
      RetireKeepsInv(Tried(s, job, step.attempt), step.worker, step.attempt, usedBefore);
    }
  }

  lemma WorkerJob(s: State, i: nat, usedBefore: int)
    requires Inv(s, usedBefore) && i < |s.workers|
    ensures ValidJob(s, s.workers[i])
  {
  }

  lemma StepKeepsInv(s: State, step: Step, usedBefore: int)
    requires Inv(s, usedBefore)
    ensures Inv(Next(s, step), usedBefore)
  {
    hide Inv, Next;
    match step
    case ResetUsage => PlanStepKeepsInv(s, step, usedBefore);
    case AssignPlan(_) => PlanStepKeepsInv(s, step, usedBefore);
    case EditPlan(_) => PlanStepKeepsInv(s, step, usedBefore);
    case SetActive(_) => PlanStepKeepsInv(s, step, usedBefore);
    case Admit(_, _, _, _, _, _) => AdmitKeepsInv(s, step, usedBefore);
    case Abandon(_) => AdmitKeepsInv(s, step, usedBefore);
    case Save(_, _, _) => SaveKeepsInv(s, step, usedBefore);
    case TakeJob => TakeJobKeepsInv(s, usedBefore);
    case Work(_, _) => WorkKeepsInv(s, step, usedBefore);
    case _ => TopupStepKeepsInv(s, step, usedBefore);
  }
}
