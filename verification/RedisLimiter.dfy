/** The atomic Redis script of the distributed limiter: a sliding window cut at whole
    milliseconds, and exactly when it gives the in-memory limiter's verdicts (atomicLimitScript
    and checkRedisLimits in proxy/limiter.go). A sorted set is a sequence without repeated
    members; Redis and the gateway share a clock. */
module RedisLimiter {
  import opened Money
  import opened SlidingWindow

  const NANOS_PER_MILLI: int := 1_000_000
  const WINDOW_MS: int := 60_000
  const EXPIRE_MS: int := 75_000

  /** A member is the text "nanos" or "nanos:tokens"; the score is in milliseconds. */
  datatype Member = Member(nanos: int, tokens: int, score: int)

  /** A key with the instant after which Redis drops it. */
  datatype Key = Key(members: seq<Member>, expiresAt: int)

  datatype Redis = Redis(rpm: Key, tpm: Key)

  function Live(key: Key, nowMs: int): seq<Member> {
    if nowMs > key.expiresAt then [] else key.members
  }

  /** ZREMRANGEBYSCORE key 0 upTo. */
  function RemoveByScore(ms: seq<Member>, upTo: int): seq<Member> {
    if ms == [] then []
    else
      var before := RemoveByScore(ms[..|ms| - 1], upTo);
      if 0 <= ms[|ms| - 1].score <= upTo then before else before + [ms[|ms| - 1]]
  }

  predicate SameMember(a: Member, b: Member) {
    a.nanos == b.nanos && a.tokens == b.tokens
  }

  function Other(ms: seq<Member>, m: Member): seq<Member> {
    if ms == [] then []
    else
      var before := Other(ms[..|ms| - 1], m);
      if SameMember(ms[|ms| - 1], m) then before else before + [ms[|ms| - 1]]
  }

  /** ZADD: a member that is already there only gets the new score. */
  function Add(ms: seq<Member>, m: Member): seq<Member> {
    Other(ms, m) + [m]
  }

  function SumOfMembers(ms: seq<Member>): int {
    if ms == [] then 0 else SumOfMembers(ms[..|ms| - 1]) + ms[|ms| - 1].tokens
  }

  /** The script: prune both sets, check the count, check the sum, and only then write. */
  function Script(s: Redis, nowMs: int, r: Request, reqMember: Member, tokMember: Member): (Redis, Verdict) {
    var rpm := RemoveByScore(Live(s.rpm, nowMs), nowMs - WINDOW_MS);
    var tpm := RemoveByScore(Live(s.tpm, nowMs), nowMs - WINDOW_MS);
    var pruned := Redis(s.rpm.(members := rpm), s.tpm.(members := tpm));
    if r.rpm > 0 && |rpm| >= r.rpm then (pruned, RpmExceeded)
    else if r.tpm > 0 && SumOfMembers(tpm) + r.prompt > r.tpm then (pruned, TpmExceeded)
    else
      var counted := Key(Add(rpm, reqMember), nowMs + EXPIRE_MS);
      var weighed := if r.prompt > 0 then Key(Add(tpm, tokMember), nowMs + EXPIRE_MS) else pruned.tpm;
      (Redis(counted, weighed), Allowed)
  }

  function CheckRedis(s: Redis, r: Request): (Redis, Verdict) {
    var nowMs := r.time / NANOS_PER_MILLI;
    Script(s, nowMs, r, Member(r.time, 0, nowMs), Member(r.time, r.prompt, nowMs))
  }

  const EMPTY: Redis := Redis(Key([], 0), Key([], 0))

  /** The state after a sequence of requests; the verdict of the next one is CheckRedis on it. */
  function RedisAfter(rs: seq<Request>): Redis {
    if rs == [] then EMPTY else CheckRedis(RedisAfter(rs[..|rs| - 1]), rs[|rs| - 1]).0
  }

  // ---- What the script means ----

  /** The last instant whose score the script removes at `now`: scores are whole milliseconds. */
  function MilliCutoff(now: int): int {
    (now / NANOS_PER_MILLI - WINDOW_MS + 1) * NANOS_PER_MILLI - 1
  }

  /** The verdict of a limiter that remembers every admission and cuts at whole milliseconds. */
  function DecideByMillis(h: seq<Admission>, r: Request): Verdict {
    VerdictOn(Recent(h, MilliCutoff(r.time)), r)
  }

  function MillisHistory(rs: seq<Request>): seq<Admission> {
    if rs == [] then []
    else
      var before, r := MillisHistory(rs[..|rs| - 1]), rs[|rs| - 1];
      Recorded(before, r, DecideByMillis(before, r))
  }

  function CountMembers(h: seq<Admission>): (ms: seq<Member>)
    ensures |ms| == |h| && forall i | 0 <= i < |h| :: ms[i] == Member(h[i].time, 0, h[i].time / NANOS_PER_MILLI)
  {
    seq(|h|, i requires 0 <= i < |h| => Member(h[i].time, 0, h[i].time / NANOS_PER_MILLI))
  }

  function TokenMembers(h: seq<Admission>): seq<Member> {
    if h == [] then []
    else
      var before := TokenMembers(h[..|h| - 1]);
      var a := h[|h| - 1];
      if a.tokens > 0 then before + [Member(a.time, a.tokens, a.time / NANOS_PER_MILLI)] else before
  }

  /** Distinct instants since the epoch, in order. */
  predicate Rising(rs: seq<Request>) {
    && (forall i | 0 <= i < |rs| :: 0 <= rs[i].time)
    && (forall i, j | 0 <= i < j < |rs| :: rs[i].time < rs[j].time)
  }

  /** Admissions since the epoch and before `next`. */
  predicate Earlier(h: seq<Admission>, next: int) {
    forall i | 0 <= i < |h| :: 0 <= h[i].time < next
  }

  /** A key holds the given members, none written later than its expiry allows. */
  predicate Holds(key: Key, members: seq<Member>) {
    key.members == members && forall m | m in members :: m.score + EXPIRE_MS <= key.expiresAt
  }

  /** Both sets are the history filtered to the minute before the last request. */
  predicate Mirrors(s: Redis, h: seq<Admission>, last: int) {
    && Holds(s.rpm, CountMembers(Recent(h, MilliCutoff(last))))
    && Holds(s.tpm, TokenMembers(Recent(h, MilliCutoff(last))))
  }

  /** Comparing scores is comparing instants with the cutoff, which never falls. */
  lemma MillisCompare(t: int, now: int)
    ensures t / NANOS_PER_MILLI <= now / NANOS_PER_MILLI - WINDOW_MS <==> t <= MilliCutoff(now)
    ensures now - SPAN <= MilliCutoff(now) < now - SPAN + NANOS_PER_MILLI
    ensures t <= now ==> MilliCutoff(t) <= MilliCutoff(now)
  {
  }

  lemma {:induction false} CountsAfterRemoval(h: seq<Admission>, next: int, now: int)
    requires Earlier(h, next)
    ensures RemoveByScore(CountMembers(h), now / NANOS_PER_MILLI - WINDOW_MS) == CountMembers(Recent(h, MilliCutoff(now)))
  {
    if h != [] {
      var init := h[..|h| - 1];
      CountsAfterRemoval(init, next, now);
      assert CountMembers(h)[..|h| - 1] == CountMembers(init);
      MillisCompare(h[|h| - 1].time, now);
      assert CountMembers(Recent(init, MilliCutoff(now)) + [h[|h| - 1]])
          == CountMembers(Recent(init, MilliCutoff(now))) + [CountMembers(h)[|h| - 1]];
    }
  }

  lemma {:induction false} TokensAfterRemoval(h: seq<Admission>, next: int, now: int)
    requires Earlier(h, next)
    ensures RemoveByScore(TokenMembers(h), now / NANOS_PER_MILLI - WINDOW_MS) == TokenMembers(Recent(h, MilliCutoff(now)))
  {
    if h != [] {
      var init, a := h[..|h| - 1], h[|h| - 1];
      TokensAfterRemoval(init, next, now);
      MillisCompare(a.time, now);
      RemoveAppend(TokenMembers(init), Member(a.time, a.tokens, a.time / NANOS_PER_MILLI), now / NANOS_PER_MILLI - WINDOW_MS);
      TokenMembersAppend(Recent(init, MilliCutoff(now)), a);
    }
  }

  lemma RemoveAppend(ms: seq<Member>, m: Member, upTo: int)
    ensures RemoveByScore(ms + [m], upTo) == if 0 <= m.score <= upTo then RemoveByScore(ms, upTo) else RemoveByScore(ms, upTo) + [m]
  {
    assert (ms + [m])[..|ms|] == ms;
  }

  lemma TokenMembersAppend(h: seq<Admission>, a: Admission)
    ensures TokenMembers(h + [a])
         == if a.tokens > 0 then TokenMembers(h) + [Member(a.time, a.tokens, a.time / NANOS_PER_MILLI)] else TokenMembers(h)
  {
    assert (h + [a])[..|h|] == h;
  }

  /** Expiry only drops members the removal would drop anyway: seventy-five seconds outlast sixty. */
  lemma {:induction false} ExpiryIsHarmless(key: Key, members: seq<Member>, nowMs: int)
    requires Holds(key, members) && forall i | 0 <= i < |members| :: 0 <= members[i].score
    ensures RemoveByScore(Live(key, nowMs), nowMs - WINDOW_MS) == RemoveByScore(members, nowMs - WINDOW_MS)
  {
    if nowMs > key.expiresAt {
      AllRemoved(members, nowMs - WINDOW_MS);
    }
  }

  lemma {:induction false} AllRemoved(members: seq<Member>, upTo: int)
    requires forall i | 0 <= i < |members| :: 0 <= members[i].score <= upTo
    ensures RemoveByScore(members, upTo) == []
  {
    if members != [] {
      AllRemoved(members[..|members| - 1], upTo);
    }
  }

  lemma {:induction false} RemovalKeepsOnly(members: seq<Member>, upTo: int)
    ensures forall m | m in RemoveByScore(members, upTo) :: m in members
  {
    if members != [] {
      RemovalKeepsOnly(members[..|members| - 1], upTo);
    }
  }

  lemma {:induction false} TokenMemberFacts(h: seq<Admission>, next: int)
    requires Earlier(h, next)
    ensures SumOfMembers(TokenMembers(h)) == Tokens(h)
    ensures forall m | m in TokenMembers(h) :: 0 <= m.score && m.nanos < next
  {
    if h != [] {
      TokenMemberFacts(h[..|h| - 1], next);
      var before, ms := TokenMembers(h[..|h| - 1]), TokenMembers(h);
      assert ms == before || ms[..|before|] == before;
    }
  }

  /** A member later than all others is a new member. */
  lemma {:induction false} AddNew(ms: seq<Member>, m: Member)
    requires forall x | x in ms :: x.nanos < m.nanos
    ensures Other(ms, m) == ms && Add(ms, m) == ms + [m]
  {
    if ms != [] {
      AddNew(ms[..|ms| - 1], m);
      assert ms == ms[..|ms| - 1] + [ms[|ms| - 1]];
    }
  }

  /** What the script sees after its two removals: the admissions of the last minute. */
  lemma PrunedSets(s: Redis, h: seq<Admission>, last: int, now: int)
    requires Mirrors(s, h, last) && Earlier(h, now) && Ordered(h, last) && last <= now
    ensures var nowMs, recent := now / NANOS_PER_MILLI, Recent(h, MilliCutoff(now));
            && RemoveByScore(Live(s.rpm, nowMs), nowMs - WINDOW_MS) == CountMembers(recent)
            && RemoveByScore(Live(s.tpm, nowMs), nowMs - WINDOW_MS) == TokenMembers(recent)
            && Mirrors(Redis(s.rpm.(members := CountMembers(recent)), s.tpm.(members := TokenMembers(recent))), h, now)
            && Earlier(recent, now)
  {
    hide Recent, CountMembers, TokenMembers, RemoveByScore, Live, MilliCutoff;
    var nowMs := now / NANOS_PER_MILLI;
    var recent := Recent(h, MilliCutoff(last));
    MillisCompare(last, now);
    RecentMembers(h, MilliCutoff(last), last);
    RecentMembers(h, MilliCutoff(now), last);
    RecentOfRecent(h, MilliCutoff(last), MilliCutoff(now));
    TokenMemberFacts(recent, now);
    ExpiryIsHarmless(s.rpm, CountMembers(recent), nowMs);
    ExpiryIsHarmless(s.tpm, TokenMembers(recent), nowMs);
    CountsAfterRemoval(recent, now, now);
    TokensAfterRemoval(recent, now, now);
    RemovalKeepsOnly(CountMembers(recent), nowMs - WINDOW_MS);
    RemovalKeepsOnly(TokenMembers(recent), nowMs - WINDOW_MS);
  }

  /** One request: the script's verdict is the one by milliseconds, and the mirror is kept. */
  lemma StepRefines(s: Redis, h: seq<Admission>, last: int, r: Request)
    requires Mirrors(s, h, last) && Earlier(h, r.time) && Ordered(h, last) && last <= r.time
    ensures CheckRedis(s, r).1 == DecideByMillis(h, r)
    ensures Mirrors(CheckRedis(s, r).0, Recorded(h, r, DecideByMillis(h, r)), r.time)
  {
    hide Recent, RemoveByScore, Live, CountMembers, TokenMembers, Add, MilliCutoff;
    var recent := Recent(h, MilliCutoff(r.time));
    PrunedSets(s, h, last, r.time);
    TokenMemberFacts(recent, r.time);
    if DecideByMillis(h, r).Allowed? {
      AdmissionMirrors(h, r);
    }
  }

  /** The two writes of an admitted request. */
  lemma AdmissionMirrors(h: seq<Admission>, r: Request)
    requires Earlier(Recent(h, MilliCutoff(r.time)), r.time)
    ensures var nowMs, recent := r.time / NANOS_PER_MILLI, Recent(h, MilliCutoff(r.time));
            var recent' := Recent(h + [Admission(r.time, Max(0, r.prompt))], MilliCutoff(r.time));
            && Holds(Key(Add(CountMembers(recent), Member(r.time, 0, nowMs)), nowMs + EXPIRE_MS), CountMembers(recent'))
            && (r.prompt > 0 ==>
                Holds(Key(Add(TokenMembers(recent), Member(r.time, r.prompt, nowMs)), nowMs + EXPIRE_MS), TokenMembers(recent')))
            && (r.prompt <= 0 ==> TokenMembers(recent') == TokenMembers(recent))
  {
    hide Recent;
    var nowMs, recent := r.time / NANOS_PER_MILLI, Recent(h, MilliCutoff(r.time));
    var a := Admission(r.time, Max(0, r.prompt));
    MillisCompare(r.time, r.time);
    hide MilliCutoff;
    RecentAppend(h, a, MilliCutoff(r.time));
    TokenMemberFacts(recent, r.time);
    TokenMembersAppend(recent, a);
    assert CountMembers(recent + [a]) == CountMembers(recent) + [Member(r.time, 0, nowMs)];
    AddNew(CountMembers(recent), Member(r.time, 0, nowMs));
    AddNew(TokenMembers(recent), Member(r.time, r.prompt, nowMs));
    ScoresBelow(recent, r.time);
  }

  lemma {:induction false} ScoresBelow(h: seq<Admission>, next: int)
    requires Earlier(h, next)
    ensures forall m | m in TokenMembers(h) :: m.score <= next / NANOS_PER_MILLI
    ensures forall m | m in CountMembers(h) :: m.score <= next / NANOS_PER_MILLI
  {
    if h != [] {
      ScoresBelow(h[..|h| - 1], next);
    }
  }

  lemma NothingYet(last: int)
    ensures Mirrors(EMPTY, [], last)
  {
  }

  lemma OneMoreRequest(before: seq<Request>, r: Request)
    ensures RedisAfter(before + [r]) == CheckRedis(RedisAfter(before), r).0
    ensures MillisHistory(before + [r]) == Recorded(MillisHistory(before), r, DecideByMillis(MillisHistory(before), r))
    ensures History(before + [r]) == After(History(before), r)
  {
    hide CheckRedis, DecideByMillis, After;
    assert (before + [r])[..|before|] == before;
  }

  lemma RecordedInOrder(h: seq<Admission>, r: Request, v: Verdict, last: int, next: int)
    requires Earlier(h, r.time) && Ordered(h, last) && 0 <= last <= r.time < next
    ensures Earlier(Recorded(h, r, v), next) && Ordered(Recorded(h, r, v), r.time)
  {
  }

  function LastInstant(rs: seq<Request>, next: int): int {
    if rs == [] then next else rs[|rs| - 1].time
  }

  lemma {:induction false} RedisMirrorsHistory(rs: seq<Request>, now: int)
    requires Rising(rs) && 0 <= now && forall i | 0 <= i < |rs| :: rs[i].time < now
    ensures Mirrors(RedisAfter(rs), MillisHistory(rs), LastInstant(rs, now))
    ensures Earlier(MillisHistory(rs), now) && Ordered(MillisHistory(rs), LastInstant(rs, now))
  {
    hide Recent, CheckRedis, DecideByMillis, Mirrors, MilliCutoff, VerdictOn, Recorded;
    if rs == [] {
      NothingYet(now);
    } else {
      var before, r := rs[..|rs| - 1], rs[|rs| - 1];
      RedisMirrorsHistory(before, r.time);
      var h, last := MillisHistory(before), LastInstant(before, r.time);
      assert rs == before + [r];
      OneMoreRequest(before, r);
      hide RedisAfter, MillisHistory, Earlier, Ordered;
      StepRefines(RedisAfter(before), h, last, r);
      RecordedInOrder(h, r, DecideByMillis(h, r), last, now);
    }
  }

  /** The script is a sliding window cut at whole milliseconds: on every sequence of distinct
      instants in order, limits changing at will, its verdict is that of the full history. */
  lemma RedisDecidesByMillis(rs: seq<Request>, r: Request)
    requires Rising(rs + [r])
    ensures CheckRedis(RedisAfter(rs), r).1 == DecideByMillis(MillisHistory(rs), r)
  {
    hide CheckRedis, DecideByMillis, Mirrors;
    assert 0 <= r.time && Rising(rs) && forall i | 0 <= i < |rs| :: rs[i].time < r.time by {
      assert (rs + [r])[|rs|] == r;
      forall i | 0 <= i < |rs| ensures (rs + [r])[i] == rs[i] {}
    }
    RedisMirrorsHistory(rs, r.time);
    StepRefines(RedisAfter(rs), MillisHistory(rs), LastInstant(rs, r.time), r);
  }

  // ---- Safety of its own ----

  /** What sixty seconds are worth when scores are truncated. */
  const SAFE_SPAN: int := SPAN - NANOS_PER_MILLI

  /** Any 59.999 seconds hold at most a limit that stays fixed, at every instant. */
  lemma {:induction false} RedisLimitsHold(rs: seq<Request>, rpm: int, tpm: int, t: int)
    requires Rising(rs)
    ensures var span := InSpan(MillisHistory(rs), t - SAFE_SPAN, t);
            && ((forall i | 0 <= i < |rs| :: rs[i].rpm == rpm) ==> WithinRequests(span, rpm))
            && ((forall i | 0 <= i < |rs| :: rs[i].tpm == tpm) ==> WithinTokens(span, tpm))
  {
    hide InSpan, Recent, Tokens, VerdictOn, WithinRequests, WithinTokens, Recorded;
    if rs == [] {
      NothingCounted(t - SAFE_SPAN, t, rpm, tpm);
    } else {
      var before, r := rs[..|rs| - 1], rs[|rs| - 1];
      RedisLimitsHold(before, rpm, tpm, t);
      MillisCompare(r.time, r.time);
      AdmissionKeepsLimits(MillisHistory(before), r, MilliCutoff(r.time), t - SAFE_SPAN, t);
    }
  }

  // ---- Against the in-memory limiter ----

  /** Both limiters agree at `now` on whether an admission at t still counts. */
  predicate SameCut(t: int, now: int) {
    t <= MilliCutoff(now) <==> t <= now - SPAN
  }

  /** They disagree only on an admission whose score is exactly a minute old and whose
      fraction of a millisecond is the larger one: Redis has already forgotten it. */
  lemma CutsDiffer(t: int, now: int)
    ensures !SameCut(t, now) <==>
              t / NANOS_PER_MILLI == now / NANOS_PER_MILLI - WINDOW_MS && t % NANOS_PER_MILLI > now % NANOS_PER_MILLI
  {
  }

  function InstantsOf(rs: seq<Request>): (ts: seq<int>)
    ensures |ts| == |rs| && forall i | 0 <= i < |rs| :: ts[i] == rs[i].time
  {
    seq(|rs|, i requires 0 <= i < |rs| => rs[i].time)
  }

  predicate SameCuts(ts: seq<int>) {
    forall i, j | 0 <= i < j < |ts| :: SameCut(ts[i], ts[j])
  }

  lemma {:induction false} SameRecent(h: seq<Admission>, now: int)
    requires forall i | 0 <= i < |h| :: SameCut(h[i].time, now)
    ensures Recent(h, MilliCutoff(now)) == Recent(h, now - SPAN)
  {
    hide MilliCutoff;
    if h != [] {
      SameRecent(h[..|h| - 1], now);
    }
  }

  predicate RequestedAt(rs: seq<Request>, t: int) {
    exists k :: 0 <= k < |rs| && rs[k].time == t
  }

  /** Every admission is made at the instant of some request. */
  lemma {:induction false} AdmittedAtRequests(rs: seq<Request>)
    ensures forall a | a in History(rs) :: RequestedAt(rs, a.time)
  {
    if rs != [] {
      hide Decide;
      var before, r := rs[..|rs| - 1], rs[|rs| - 1];
      AdmittedAtRequests(before);
      forall a | a in History(rs) ensures RequestedAt(rs, a.time) {
        if a in History(before) {
          var k :| 0 <= k < |before| && before[k].time == a.time;
          assert rs[k].time == a.time;
        } else {
          assert rs[|rs| - 1].time == a.time;
        }
      }
    }
  }

  /** Where no cut differs, the two histories are one. */
  lemma {:induction false} SameHistory(rs: seq<Request>)
    requires SameCuts(InstantsOf(rs))
    ensures MillisHistory(rs) == History(rs)
  {
    if rs != [] {
      var before, r := rs[..|rs| - 1], rs[|rs| - 1];
      assert InstantsOf(before) == InstantsOf(rs)[..|rs| - 1];
      SameHistory(before);
      SameDecision(before, r);
    }
  }

  lemma SameDecision(before: seq<Request>, r: Request)
    requires forall k | 0 <= k < |before| :: SameCut(before[k].time, r.time)
    ensures DecideByMillis(History(before), r) == Decide(History(before), r)
  {
    hide SameCut;
    AdmittedAtRequests(before);
    SameRecent(History(before), r.time);
  }

  /** Both limiters give the same verdict at every step. */
  predicate Agree(rs: seq<Request>) {
    forall k | 0 <= k < |rs| :: CheckRedis(RedisAfter(rs[..k]), rs[k]).1 == Decide(History(rs[..k]), rs[k])
  }

  /** The script refines the in-memory limiter wherever no cut differs, limits changing at will. */
  lemma RedisRefinesMemory(rs: seq<Request>)
    requires Rising(rs) && SameCuts(InstantsOf(rs))
    ensures Agree(rs)
  {
    hide CheckRedis, Decide, RedisAfter, History, SameCuts, Rising;
    forall k | 0 <= k < |rs| ensures CheckRedis(RedisAfter(rs[..k]), rs[k]).1 == Decide(History(rs[..k]), rs[k]) {
      PrefixOfRun(rs, k);
      AgreeNext(rs[..k], rs[k]);
    }
  }

  lemma PrefixOfRun(rs: seq<Request>, k: nat)
    requires k < |rs| && Rising(rs) && SameCuts(InstantsOf(rs))
    ensures rs[..k] + [rs[k]] == rs[..k + 1] && Rising(rs[..k + 1]) && SameCuts(InstantsOf(rs[..k + 1]))
  {
    hide SameCut;
    assert InstantsOf(rs[..k + 1]) == InstantsOf(rs)[..k + 1];
  }

  lemma AgreeNext(before: seq<Request>, r: Request)
    requires Rising(before + [r]) && SameCuts(InstantsOf(before + [r]))
    ensures CheckRedis(RedisAfter(before), r).1 == Decide(History(before), r)
  {
    hide CheckRedis, RedisAfter, Decide, DecideByMillis, History, MillisHistory, SameCut, Rising;
    var ts := InstantsOf(before + [r]);
    RedisDecidesByMillis(before, r);
    assert InstantsOf(before) == ts[..|before|] && ts[|before|] == r.time;
    assert forall k | 0 <= k < |before| :: ts[k] == before[k].time;
    SameHistory(before);
    SameDecision(before, r);
  }

  /** A run in which only request i is admitted before request j, and j asks for the last place. */
  function Telling(ts: seq<int>, i: int, j: int): (rs: seq<Request>)
    ensures |rs| == |ts| && forall k | 0 <= k < |ts| :: rs[k].time == ts[k]
  {
    seq(|ts|, k requires 0 <= k < |ts| =>
      if k == i then Request(ts[k], 0, 0, 0) else if k == j then Request(ts[k], 1, 0, 0) else Request(ts[k], 0, 1, 2))
  }

  lemma {:induction false} TellingHistory(ts: seq<int>, i: int, j: int, n: nat)
    requires 0 <= i < j < |ts| && n <= j
    ensures var h := if i < n then [Admission(ts[i], 0)] else [];
            History(Telling(ts, i, j)[..n]) == h == MillisHistory(Telling(ts, i, j)[..n])
  {
    hide *;
    var rs := Telling(ts, i, j);
    if n == 0 {
      assert rs[..0] == [];
      NoHistory();
    } else {
      TellingHistory(ts, i, j, n - 1);
      TellingAt(ts, i, j, n - 1);
      assert rs[..n] == rs[..n - 1] + [rs[n - 1]];
      OneMoreRequest(rs[..n - 1], rs[n - 1]);
      TellingStep(rs[n - 1], History(rs[..n - 1]), n - 1 == i);
      assert i == n - 1 ==> [] + [Admission(ts[i], 0)] == [Admission(ts[i], 0)];
    }
  }

  lemma NoHistory()
    ensures RedisAfter([]) == EMPTY && History([]) == [] && MillisHistory([]) == []
  {
  }

  lemma TellingAt(ts: seq<int>, i: int, j: int, k: nat)
    requires k < |ts| && k < j
    ensures Telling(ts, i, j)[k] == if k == i then Request(ts[k], 0, 0, 0) else Request(ts[k], 0, 1, 2)
  {
  }

  lemma TellingStep(r: Request, h: seq<Admission>, admitted: bool)
    requires r == if admitted then Request(r.time, 0, 0, 0) else Request(r.time, 0, 1, 2)
    ensures var h' := if admitted then h + [Admission(r.time, 0)] else h;
            After(h, r) == h' == Recorded(h, r, DecideByMillis(h, r))
  {
    hide Recent, Tokens, MilliCutoff;
  }

  lemma TellingVerdicts(ts: seq<int>, i: int, j: int)
    requires Rising(Telling(ts, i, j)) && 0 <= i < j < |ts| && !SameCut(ts[i], ts[j])
    ensures !Agree(Telling(ts, i, j))
  {
    hide CheckRedis, RedisAfter, History, MillisHistory, SameCut, MilliCutoff;
    var rs, h := Telling(ts, i, j), [Admission(ts[i], 0)];
    assert rs[..j] + [rs[j]] == rs[..j + 1];
    TellingHistory(ts, i, j, j);
    RedisDecidesByMillis(rs[..j], rs[j]);
    OneAdmission(h[0], MilliCutoff(ts[j]));
    OneAdmission(h[0], ts[j] - SPAN);
    CutsDisagree(ts[i], ts[j]);
    assert DecideByMillis(h, rs[j]) != Decide(h, rs[j]);
  }

  lemma OneAdmission(a: Admission, cutoff: int)
    ensures Recent([a], cutoff) == if a.time > cutoff then [a] else []
  {
    assert [a][..0] == [];
  }

  lemma CutsDisagree(t: int, now: int)
    requires !SameCut(t, now)
    ensures t > now - SPAN && t <= MilliCutoff(now)
  {
  }

  /** The condition is exact: the two limiters agree on every sequence of requests at given
      instants, whatever the limits and prompts, if and only if no two of them are cut apart. */
  lemma RedisAgreesExactly(ts: seq<int>)
    requires forall i | 0 <= i < |ts| :: 0 <= ts[i]
    requires forall i, j | 0 <= i < j < |ts| :: ts[i] < ts[j]
    ensures (forall rs: seq<Request> | InstantsOf(rs) == ts :: Agree(rs)) <==> SameCuts(ts)
  {
    hide SameCut, Agree;
    if SameCuts(ts) {
      forall rs: seq<Request> | InstantsOf(rs) == ts ensures Agree(rs) {
        assert forall i | 0 <= i < |rs| :: rs[i].time == ts[i];
        RedisRefinesMemory(rs);
      }
    } else {
      var i, j :| 0 <= i < j < |ts| && !SameCut(ts[i], ts[j]);
      assert InstantsOf(Telling(ts, i, j)) == ts;
      TellingVerdicts(ts, i, j);
    }
  }

  /** At any millisecond: an admission 59.999 seconds and some fraction old still counts in
      memory, but its truncated score is already a minute old in Redis. */
  lemma UnalignedInstantsDiffer(milli: nat, early: nat, late: nat)
    requires early < late < NANOS_PER_MILLI
    ensures var first := Request(milli * NANOS_PER_MILLI + late, 1, 0, 0);
            var second := Request((milli + WINDOW_MS) * NANOS_PER_MILLI + early, 1, 0, 0);
            && Decide(History([first]), second) == RpmExceeded
            && CheckRedis(RedisAfter([first]), second).1 == Allowed
  {
    var first := Request(milli * NANOS_PER_MILLI + late, 1, 0, 0);
    var second := Request((milli + WINDOW_MS) * NANOS_PER_MILLI + early, 1, 0, 0);
    hide History, MillisHistory, CheckRedis, RedisAfter, Recent, MilliCutoff;
    RisingPair(first, second);
    OnlyAdmission(first);
    RedisDecidesByMillis([first], second);
    UnalignedCut(milli, early, late);
    OneAdmission(Admission(first.time, 0), MilliCutoff(second.time));
    OneAdmission(Admission(first.time, 0), second.time - SPAN);
  }

  lemma RisingPair(first: Request, second: Request)
    requires 0 <= first.time < second.time
    ensures Rising([first] + [second])
  {
  }

  lemma OnlyAdmission(first: Request)
    requires first == Request(first.time, 1, 0, 0)
    ensures History([first]) == MillisHistory([first]) == [Admission(first.time, 0)]
  {
    assert [first][..0] == [];
    assert History([]) == [] && MillisHistory([]) == [];
    assert Recent([], first.time - SPAN) == [] && Recent([], MilliCutoff(first.time)) == [];
  }

  lemma UnalignedCut(milli: nat, early: nat, late: nat)
    requires early < late < NANOS_PER_MILLI
    ensures var t, now := milli * NANOS_PER_MILLI + late, (milli + WINDOW_MS) * NANOS_PER_MILLI + early;
            t < now && now - SPAN < t <= MilliCutoff(now)
  {
  }

  /** Instants must be distinct: Redis keeps one member for requests at the same nanosecond,
      and admits a third where memory has counted two. */
  lemma EqualInstantsMerge(t: nat)
    ensures var q := Request(t, 2, 0, 0);
            Decide(History([q, q]), q) == RpmExceeded && CheckRedis(RedisAfter([q, q]), q).1 == Allowed
  {
    var q := Request(t, 2, 0, 0);
    var a, m, nowMs := Admission(t, 0), Member(t, 0, t / NANOS_PER_MILLI), t / NANOS_PER_MILLI;
    assert [q, q] == [q] + [q] && [q] == [] + [q];
    OneMoreRequest([], q);
    OneMoreRequest([q], q);
    NoHistory();
    RecentAppend([], a, t - SPAN);
    RecentAppend([a], a, t - SPAN);
    assert [] + [a] == [a];
    OneMember(m, nowMs - WINDOW_MS);
    var once := Redis(Key([m], nowMs + EXPIRE_MS), Key([], 0));
    hide RedisAfter, History, Recent, RemoveByScore, Other, Tokens;
    assert CheckRedis(EMPTY, q) == (once, Allowed) && CheckRedis(once, q) == (once, Allowed);
  }

  lemma OneMember(m: Member, upTo: int)
    requires m.score > upTo
    ensures RemoveByScore([], upTo) == [] && RemoveByScore([m], upTo) == [m]
    ensures Other([], m) == [] && Other([m], m) == [] && [] + [m] == [m]
  {
    RemoveAppend([], m, upTo);
    assert [m][..0] == [];
  }
}
