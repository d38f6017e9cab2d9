/** The in-memory limiter as the program runs it: pruned lists per key, and a sweep that
    drops idle keys (proxy/limiter.go). Each check is one critical section; the clock never
    runs backwards. */
module RateLimiter {
  import opened SlidingWindow
  import Windows

  const IDLE_AFTER: int := 300_000_000_000

  datatype TokenRecord = TokenRecord(time: int, tokens: int)

  function Times(h: seq<Admission>): (times: seq<int>)
    ensures |times| == |h| && forall i | 0 <= i < |h| :: times[i] == h[i].time
  {
    seq(|h|, i requires 0 <= i < |h| => h[i].time)
  }

  /** Only prompts with tokens are kept in the token list. */
  function TokenRecords(h: seq<Admission>): seq<TokenRecord> {
    if h == [] then []
    else
      var before := TokenRecords(h[..|h| - 1]);
      if h[|h| - 1].tokens > 0 then before + [TokenRecord(h[|h| - 1].time, h[|h| - 1].tokens)] else before
  }

  function RecordTimes(rs: seq<TokenRecord>): (times: seq<int>)
    ensures |times| == |rs| && forall i | 0 <= i < |rs| :: times[i] == rs[i].time
  {
    seq(|rs|, i requires 0 <= i < |rs| => rs[i].time)
  }

  function SumTokens(rs: seq<TokenRecord>): int {
    if rs == [] then 0 else SumTokens(rs[..|rs| - 1]) + rs[|rs| - 1].tokens
  }

  /** Record times never decrease and none lies after `last`. */
  predicate OrderedRecords(rs: seq<TokenRecord>, last: int) {
    && (forall i, j | 0 <= i < j < |rs| :: rs[i].time <= rs[j].time)
    && (forall i | 0 <= i < |rs| :: rs[i].time <= last)
  }

  lemma {:induction false} TokenRecordFacts(h: seq<Admission>, last: int)
    requires Ordered(h, last)
    ensures SumTokens(TokenRecords(h)) == Tokens(h)
    ensures OrderedRecords(TokenRecords(h), if h == [] then last else h[|h| - 1].time)
  {
    hide *;
    if h == [] {
      NoRecords(last);
    } else {
      var init, a := h[..|h| - 1], h[|h| - 1];
      InitOrdered(h, last);
      TokenRecordFacts(init, a.time);
      OneMoreRecord(init, a, if init == [] then a.time else init[|init| - 1].time);
      assert h == init + [a];
    }
  }

  lemma NoRecords(last: int)
    ensures SumTokens(TokenRecords([])) == Tokens([]) && OrderedRecords(TokenRecords([]), last)
  {
  }

  lemma OneMoreRecord(h: seq<Admission>, a: Admission, last: int)
    requires SumTokens(TokenRecords(h)) == Tokens(h) && OrderedRecords(TokenRecords(h), last) && last <= a.time
    ensures SumTokens(TokenRecords(h + [a])) == Tokens(h + [a]) && OrderedRecords(TokenRecords(h + [a]), a.time)
  {
    hide TokenRecords, Tokens, SumTokens;
    RecordsAppend(h, a);
    TokensAppend(h, a);
    SumAppend(TokenRecords(h), TokenRecord(a.time, a.tokens));
    LaterLast(TokenRecords(h), last, TokenRecord(a.time, a.tokens));
    hide OrderedRecords;
  }

  lemma InitOrdered(h: seq<Admission>, last: int)
    requires Ordered(h, last) && h != []
    ensures var init, a := h[..|h| - 1], h[|h| - 1];
            Ordered(init, a.time) && (init != [] ==> init[|init| - 1].time <= a.time)
  {
  }

  lemma LaterLast(rs: seq<TokenRecord>, last: int, r: TokenRecord)
    requires OrderedRecords(rs, last) && last <= r.time
    ensures OrderedRecords(rs, r.time) && OrderedRecords(rs + [r], r.time)
  {
  }

  lemma SumAppend(rs: seq<TokenRecord>, r: TokenRecord)
    ensures SumTokens(rs + [r]) == SumTokens(rs) + r.tokens
  {
    assert (rs + [r])[..|rs|] == rs;
  }

  function LateRecords(rs: seq<TokenRecord>, cutoff: int): seq<TokenRecord> {
    if rs == [] then []
    else
      var before := LateRecords(rs[..|rs| - 1], cutoff);
      if rs[|rs| - 1].time > cutoff then before + [rs[|rs| - 1]] else before
  }

  lemma {:induction false} LateRecordsAreSuffix(rs: seq<TokenRecord>, n: nat, cutoff: int)
    requires n <= |rs|
    requires forall i | 0 <= i < n :: rs[i].time <= cutoff
    requires forall i | n <= i < |rs| :: rs[i].time > cutoff
    ensures LateRecords(rs, cutoff) == rs[n..]
  {
    if rs != [] {
      var init := rs[..|rs| - 1];
      LateRecordsAreSuffix(init, if n < |rs| then n else n - 1, cutoff);
      if n < |rs| {
        assert rs[n..] == init[n..] + [rs[|rs| - 1]];
      }
    }
  }

  /** Dropping the old records of a list is recording the recent admissions. */
  lemma {:induction false} RecordsOfRecent(h: seq<Admission>, cutoff: int)
    ensures LateRecords(TokenRecords(h), cutoff) == TokenRecords(Recent(h, cutoff))
  {
    if h != [] {
      var last := h[|h| - 1];
      RecordsOfRecent(h[..|h| - 1], cutoff);
      RecordsAppend(Recent(h[..|h| - 1], cutoff), last);
      LateAppend(TokenRecords(h[..|h| - 1]), TokenRecord(last.time, last.tokens), cutoff);
    }
  }

  lemma LateAppend(rs: seq<TokenRecord>, r: TokenRecord, cutoff: int)
    ensures LateRecords(rs + [r], cutoff) == if r.time > cutoff then LateRecords(rs, cutoff) + [r] else LateRecords(rs, cutoff)
  {
    assert (rs + [r])[..|rs|] == rs;
  }

  /** Cutting both lists at the first entry after the cutoff filters the history. */
  lemma PrunedLists(h: seq<Admission>, last: int, now: int, reqIdx: nat, tokIdx: nat)
    requires Ordered(h, last) && last <= now
    requires var recent := Recent(h, last - SPAN);
             && reqIdx <= |recent| && tokIdx <= |TokenRecords(recent)|
             && (forall i | 0 <= i < reqIdx :: Times(recent)[i] <= now - SPAN)
             && (forall i | reqIdx <= i < |recent| :: Times(recent)[i] > now - SPAN)
             && (forall i | 0 <= i < tokIdx :: RecordTimes(TokenRecords(recent))[i] <= now - SPAN)
             && (forall i | tokIdx <= i < |TokenRecords(recent)| :: RecordTimes(TokenRecords(recent))[i] > now - SPAN)
    ensures Times(Recent(h, last - SPAN))[reqIdx..] == Times(Recent(h, now - SPAN))
    ensures TokenRecords(Recent(h, last - SPAN))[tokIdx..] == TokenRecords(Recent(h, now - SPAN))
  {
    hide TokenRecords;
    var recent := Recent(h, last - SPAN);
    RecentOfRecent(h, last - SPAN, now - SPAN);
    forall i | 0 <= i < |recent| ensures i < reqIdx <==> recent[i].time <= now - SPAN {
      assert Times(recent)[i] == recent[i].time;
    }
    forall i | 0 <= i < |TokenRecords(recent)| ensures i < tokIdx <==> TokenRecords(recent)[i].time <= now - SPAN {
      assert RecordTimes(TokenRecords(recent))[i] == TokenRecords(recent)[i].time;
    }
    RecentIsSuffix(recent, reqIdx, now - SPAN);
    RecordsOfRecent(recent, now - SPAN);
    LateRecordsAreSuffix(TokenRecords(recent), tokIdx, now - SPAN);
    assert Times(recent)[reqIdx..] == Times(recent[reqIdx..]);
  }

  /** The lists a limiter holds are ordered by time, and the token list sums to the tokens. */
  lemma ListFacts(h: seq<Admission>, last: int, cutoff: int)
    requires Ordered(h, last)
    ensures var times, rs := Times(Recent(h, cutoff)), TokenRecords(Recent(h, cutoff));
            && (forall i, j | 0 <= i < j < |times| :: times[i] <= times[j])
            && (forall i, j | 0 <= i < j < |rs| :: RecordTimes(rs)[i] <= RecordTimes(rs)[j])
            && SumTokens(rs) == Tokens(Recent(h, cutoff))
  {
    RecentMembers(h, cutoff, last);
    TokenRecordFacts(Recent(h, cutoff), last);
  }

  /** Recording an admission at the end of both lists records it in the filtered history. */
  lemma RecordedLists(h: seq<Admission>, a: Admission)
    ensures Times(Recent(h + [a], a.time - SPAN)) == Times(Recent(h, a.time - SPAN)) + [a.time]
    ensures TokenRecords(Recent(h + [a], a.time - SPAN))
         == if a.tokens > 0 then TokenRecords(Recent(h, a.time - SPAN)) + [TokenRecord(a.time, a.tokens)]
            else TokenRecords(Recent(h, a.time - SPAN))
  {
    RecentAppend(h, a, a.time - SPAN);
    RecordsAppend(Recent(h, a.time - SPAN), a);
  }

  lemma RecordsAppend(h: seq<Admission>, a: Admission)
    ensures TokenRecords(h + [a])
         == if a.tokens > 0 then TokenRecords(h) + [TokenRecord(a.time, a.tokens)] else TokenRecords(h)
  {
    assert (h + [a])[..|h|] == h;
  }

  class KeyLimiter {
    var requests: seq<int>
    var tokens: seq<TokenRecord>
    /** The key served, every admission ever made for it, and the instant of the last pruning. */
    ghost const key: string
    ghost var history: seq<Admission>
    ghost var prunedAt: int

    /** The two lists are the whole history filtered to the sixty seconds before the last check. */
    ghost predicate Valid()
      reads this
    {
      && Ordered(history, prunedAt)
      && requests == Times(Recent(history, prunedAt - SPAN))
      && tokens == TokenRecords(Recent(history, prunedAt - SPAN))
    }

    /** A fresh limiter is right for a key whose past admissions are all too old to count. */
    constructor (ghost key: string, ghost past: seq<Admission>, ghost now: int)
      requires Ordered(past, now) && Recent(past, now - SPAN) == []
      ensures Valid() && this.key == key && history == past && prunedAt == now
    {
      this.key := key;
      requests, tokens := [], [];
      history, prunedAt := past, now;
    }

    /** The pruning scan: the index of the first entry after the cutoff, or the length. */
    static method FirstAfter(times: seq<int>, cutoff: int) returns (idx: nat)
      requires forall i, j | 0 <= i < j < |times| :: times[i] <= times[j]
      ensures idx <= |times|
      ensures forall i | 0 <= i < idx :: times[i] <= cutoff
      ensures forall i | idx <= i < |times| :: times[i] > cutoff
    {
      idx := 0;
      for i := 0 to |times|
        invariant forall k | 0 <= k < i :: times[k] <= cutoff
        invariant idx == if i == |times| then |times| else 0
      {
        if times[i] > cutoff {
          idx := i;
          break;
        }
        if i == |times| - 1 {
          idx := |times|;
        }
      }
    }

    method Prune(now: int)
      requires Valid() && prunedAt <= now
      modifies this
      ensures Valid() && prunedAt == now && history == old(history)
    {
      hide Recent, TokenRecords, Times, Tokens, SumTokens;
      ListFacts(history, prunedAt, prunedAt - SPAN);
      var reqIdx := FirstAfter(requests, now - SPAN);
      var tokIdx := FirstAfter(RecordTimes(tokens), now - SPAN);
      PrunedLists(history, prunedAt, now, reqIdx, tokIdx);
      requests := requests[reqIdx..];
      tokens := tokens[tokIdx..];
      prunedAt := now;
    }

    /** Prune, check the request count, check the token sum, record: the verdict is that of
        the unpruned history, and an admission extends that history. */
    method Check(now: int, rpm: int, tpm: int, prompt: int) returns (verdict: Verdict)
      requires Valid() && prunedAt <= now
      modifies this
      ensures Valid() && prunedAt == now
      ensures verdict == Decide(old(history), Request(now, rpm, tpm, prompt))
      ensures history == After(old(history), Request(now, rpm, tpm, prompt))
    {
      hide Recent, TokenRecords, Tokens;
      Prune(now);
      ListFacts(history, now, now - SPAN);
      if rpm > 0 && |requests| >= rpm {
        return RpmExceeded;
      }
      var currentTpm := 0;
      for i := 0 to |tokens|
        invariant currentTpm == SumTokens(tokens[..i])
      {
        assert tokens[..i + 1][..i] == tokens[..i];
        currentTpm := currentTpm + tokens[i].tokens;
      }
      assert tokens[..|tokens|] == tokens;
      if tpm > 0 && currentTpm + prompt > tpm {
        return TpmExceeded;
      }
      requests := requests + [now];
      if prompt > 0 {
        tokens := tokens + [TokenRecord(now, prompt)];
      }
      ghost var a := Admission(now, if prompt > 0 then prompt else 0);
      RecordedLists(history, a);
      history := history + [a];
      return Allowed;
    }
  }

  class RateLimiter {
    var limiters: map<string, KeyLimiter>
    /** The full admission history of every key, swept or not, and the latest instant seen. */
    ghost var histories: map<string, seq<Admission>>
    ghost var clock: int

    ghost function HistoryOf(key: string): seq<Admission>
      reads this
    {
      if key in histories then histories[key] else []
    }

    /** A listed key has a limiter that holds its history; an unlisted one has nothing recent. */
    ghost predicate Tracks(key: string)
      reads this, limiters.Values
    {
      if key in limiters then
        var limiter := limiters[key];
        limiter.Valid() && limiter.key == key && limiter.prunedAt <= clock && limiter.history == HistoryOf(key)
      else
        Ordered(HistoryOf(key), clock) && Recent(HistoryOf(key), clock - SPAN) == []
    }

    ghost predicate Valid()
      reads this, limiters.Values
    {
      forall key :: Tracks(key)
    }

    constructor (ghost now: int)
      ensures Valid() && clock == now && histories == map[]
    {
      limiters := map[];
      histories := map[];
      clock := now;
    }

    /** Time passes: limiters stay as they are, and what was too old to count stays too old. */
    ghost method Advance(now: int)
      requires Valid() && clock <= now
      modifies `clock
      ensures Valid() && clock == now
    {
      forall key ensures key !in limiters ==> Ordered(HistoryOf(key), now) && Recent(HistoryOf(key), now - SPAN) == [] {
        assert Tracks(key);
        RecentOfRecent(HistoryOf(key), clock - SPAN, now - SPAN);
      }
      hide Recent, Ordered, KeyLimiter.Valid;
      assert forall key :: old(Tracks(key));
      clock := now;
      forall key ensures Tracks(key) {
        assert old(Tracks(key));
      }
    }

    /** Finds or creates the limiter of a key. */
    method GetLimiter(key: string) returns (limiter: KeyLimiter)
      requires Valid()
      modifies `limiters
      ensures Valid() && key in limiters && limiters[key] == limiter
      ensures fresh(limiters.Values - old(limiters.Values))
    {
      hide Recent, Ordered, KeyLimiter.Valid;
      assert Tracks(key);
      if key !in limiters {
        limiter := new KeyLimiter(key, HistoryOf(key), clock);
        limiters := limiters[key := limiter];
        forall k ensures Tracks(k) {
          assert old(Tracks(k));
        }
      }
      limiter := limiters[key];
    }

    /** For any key the verdict is that of its full history, whatever was swept before. */
    method CheckInMemoryLimits(key: string, now: int, rpm: int, tpm: int, prompt: int) returns (verdict: Verdict)
      requires Valid() && clock <= now
      modifies this, limiters.Values
      ensures Valid() && clock == now
      ensures verdict == Decide(old(HistoryOf(key)), Request(now, rpm, tpm, prompt))
      ensures histories == old(histories)[key := After(old(HistoryOf(key)), Request(now, rpm, tpm, prompt))]
      ensures fresh(limiters.Values - old(limiters.Values))
    {
      hide Recent, Ordered, Decide, After, KeyLimiter.Valid;
      Advance(now);
      var limiter := GetLimiter(key);
      assert Tracks(key) && limiter in limiters.Values;
      label located:
      verdict := limiter.Check(now, rpm, tpm, prompt);
      histories := histories[key := limiter.history];
      forall k ensures Tracks(k) {
        assert old@located(Tracks(k));
      }
    }

    /** No listed admission in the last five minutes; an empty limiter counts as never active. */
    ghost predicate Idle(limiter: KeyLimiter, now: int)
      reads limiter
    {
      (limiter.requests == [] ==> Windows.ZERO_TIME < now - IDLE_AFTER)
      && forall i | 0 <= i < |limiter.requests| :: limiter.requests[i] < now - IDLE_AFTER
    }

    method IsIdle(limiter: KeyLimiter, now: int) returns (idle: bool)
      requires limiter.Valid() && limiter.prunedAt <= now
      ensures idle <==> Idle(limiter, now)
      ensures idle ==> Ordered(limiter.history, now) && Recent(limiter.history, now - SPAN) == []
    {
      hide Recent, Ordered;
      ListedTimes(limiter);
      var lastActivity := Windows.ZERO_TIME;
      if |limiter.requests| > 0 {
        lastActivity := limiter.requests[|limiter.requests| - 1];
      }
      if |limiter.tokens| > 0 {
        var t := limiter.tokens[|limiter.tokens| - 1].time;
        if t > lastActivity {
          lastActivity := t;
        }
      }
      idle := lastActivity < now - IDLE_AFTER;
      if idle {
        IdleMeansNothingRecent(limiter.history, limiter.prunedAt, now);
      }
    }

    /** The lists are in order, and no token record is newer than the newest request. */
    lemma ListedTimes(limiter: KeyLimiter)
      requires limiter.Valid()
      ensures forall i | 0 <= i < |limiter.requests| :: limiter.requests[i] <= limiter.requests[|limiter.requests| - 1]
      ensures limiter.requests == [] ==> limiter.tokens == [] && Recent(limiter.history, limiter.prunedAt - SPAN) == []
      ensures |limiter.tokens| > 0 && |limiter.requests| > 0 ==>
                limiter.tokens[|limiter.tokens| - 1].time <= limiter.requests[|limiter.requests| - 1]
      ensures |limiter.requests| > 0 ==>
                var recent := Recent(limiter.history, limiter.prunedAt - SPAN);
                |recent| > 0 && recent[|recent| - 1].time == limiter.requests[|limiter.requests| - 1]
    {
      hide Recent, TokenRecords, SumTokens, Tokens;
      RecentMembers(limiter.history, limiter.prunedAt - SPAN, limiter.prunedAt);
      TokenRecordFacts(Recent(limiter.history, limiter.prunedAt - SPAN), limiter.prunedAt);
      NothingRecorded();
    }

    lemma NothingRecorded()
      ensures TokenRecords([]) == []
    {
    }

    /** When the newest listed admission is five minutes old, none is within a minute. */
    lemma IdleMeansNothingRecent(h: seq<Admission>, last: int, now: int)
      requires Ordered(h, last) && last <= now
      requires var recent := Recent(h, last - SPAN);
               recent == [] || recent[|recent| - 1].time < now - IDLE_AFTER
      ensures Ordered(h, now) && Recent(h, now - SPAN) == []
    {
      hide Recent;
      RecentMembers(h, last - SPAN, last);
      RecentOfRecent(h, last - SPAN, now - SPAN);
      NoneRecent(Recent(h, last - SPAN), now - SPAN);
    }

    /** The sweep forgets exactly the idle keys, and no history with them: every later verdict
        is unchanged. */
    method Sweep(now: int)
      requires Valid() && clock <= now
      modifies this
      ensures Valid() && clock == now && histories == old(histories)
      ensures forall key :: key in limiters <==> key in old(limiters) && !Idle(old(limiters)[key], now)
      ensures forall key | key in limiters :: limiters[key] == old(limiters)[key]
    {
      hide Recent, Ordered, KeyLimiter.Valid, Idle;
      Advance(now);
      var pending := limiters.Keys;
      while pending != {}
        modifies `limiters
        invariant pending <= limiters.Keys <= old(limiters.Keys)
        invariant forall key | key in limiters :: limiters[key] == old(limiters)[key]
        invariant forall key | key in old(limiters) && key !in pending :: key in limiters <==> !Idle(old(limiters)[key], now)
        invariant Valid()
        decreases pending
      {
        var id :| id in pending;
        assert Tracks(id);
        var idle := IsIdle(limiters[id], now);
        label judged:
        if idle {
          limiters := limiters - {id};
          forall k ensures Tracks(k) {
            assert old@judged(Tracks(k));
          }
        }
        pending := pending - {id};
      }
    }
  }
}
