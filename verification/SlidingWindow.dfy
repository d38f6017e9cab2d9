/** What the rate limiter means: a verdict over the admissions of the last sixty seconds
    (proxy/limiter.go), for one key. Instants are nanoseconds. */
module SlidingWindow {
  import opened Money

  const SPAN: int := 60_000_000_000

  /** An admitted request; a prompt without tokens weighs nothing. */
  datatype Admission = Admission(time: int, tokens: nat)

  datatype Verdict = Allowed | RpmExceeded | TpmExceeded

  /** One call of the limiter; a limit of zero or less is no limit. */
  datatype Request = Request(time: int, rpm: int, tpm: int, prompt: int)

  function Recent(h: seq<Admission>, cutoff: int): seq<Admission> {
    if h == [] then []
    else
      var before := Recent(h[..|h| - 1], cutoff);
      if h[|h| - 1].time > cutoff then before + [h[|h| - 1]] else before
  }

  function Tokens(h: seq<Admission>): nat {
    if h == [] then 0 else Tokens(h[..|h| - 1]) + h[|h| - 1].tokens
  }

  /** The verdict on a request, given the admissions that still count. */
  function VerdictOn(counted: seq<Admission>, r: Request): Verdict {
    if r.rpm > 0 && |counted| >= r.rpm then RpmExceeded
    else if r.tpm > 0 && Tokens(counted) + r.prompt > r.tpm then TpmExceeded
    else Allowed
  }

  function Recorded(h: seq<Admission>, r: Request, v: Verdict): seq<Admission> {
    if v.Allowed? then h + [Admission(r.time, Max(0, r.prompt))] else h
  }

  /** The verdict of a limiter that remembers every admission. */
  function Decide(h: seq<Admission>, r: Request): Verdict {
    VerdictOn(Recent(h, r.time - SPAN), r)
  }

  function After(h: seq<Admission>, r: Request): seq<Admission> {
    Recorded(h, r, Decide(h, r))
  }

  function History(rs: seq<Request>): seq<Admission> {
    if rs == [] then [] else After(History(rs[..|rs| - 1]), rs[|rs| - 1])
  }

  predicate InOrder(rs: seq<Request>) {
    forall i, j | 0 <= i < j < |rs| :: rs[i].time <= rs[j].time
  }

  /** Admission times never decrease and none lies after `last`. */
  predicate Ordered(h: seq<Admission>, last: int) {
    && (forall i, j | 0 <= i < j < |h| :: h[i].time <= h[j].time)
    && (forall i | 0 <= i < |h| :: h[i].time <= last)
  }

  /** The admissions after `from` and up to `until`. */
  function InSpan(h: seq<Admission>, from: int, until: int): seq<Admission> {
    if h == [] then []
    else
      var before := InSpan(h[..|h| - 1], from, until);
      if from < h[|h| - 1].time <= until then before + [h[|h| - 1]] else before
  }

  /** The admissions in the window (t - 60s, t], for any instant t. */
  function InWindow(h: seq<Admission>, t: int): seq<Admission> {
    InSpan(h, t - SPAN, t)
  }

  lemma {:induction false} HistoryIsOrdered(rs: seq<Request>, last: int)
    requires InOrder(rs) && forall i | 0 <= i < |rs| :: rs[i].time <= last
    ensures Ordered(History(rs), last)
  {
    if rs != [] {
      HistoryIsOrdered(rs[..|rs| - 1], rs[|rs| - 1].time);
    }
  }

  lemma {:induction false} SpanIsPartOfRecent(h: seq<Admission>, from: int, until: int, cutoff: int)
    requires cutoff <= from
    ensures |InSpan(h, from, until)| <= |Recent(h, cutoff)| && Tokens(InSpan(h, from, until)) <= Tokens(Recent(h, cutoff))
  {
    if h != [] {
      SpanIsPartOfRecent(h[..|h| - 1], from, until, cutoff);
      var last := h[|h| - 1];
      TokensAppend(InSpan(h[..|h| - 1], from, until), last);
      TokensAppend(Recent(h[..|h| - 1], cutoff), last);
    }
  }

  lemma TokensAppend(h: seq<Admission>, a: Admission)
    ensures Tokens(h + [a]) == Tokens(h) + a.tokens
  {
    assert (h + [a])[..|h|] == h;
  }

  lemma RecentAppend(h: seq<Admission>, a: Admission, cutoff: int)
    ensures Recent(h + [a], cutoff) == if a.time > cutoff then Recent(h, cutoff) + [a] else Recent(h, cutoff)
  {
    assert (h + [a])[..|h|] == h;
  }

  lemma InSpanAppend(h: seq<Admission>, a: Admission, from: int, until: int)
    ensures InSpan(h + [a], from, until) == if from < a.time <= until then InSpan(h, from, until) + [a] else InSpan(h, from, until)
  {
    assert (h + [a])[..|h|] == h;
  }

  /** A limit that is not positive limits nothing. */
  predicate WithinRequests(counted: seq<Admission>, rpm: int) {
    rpm > 0 ==> |counted| <= rpm
  }

  predicate WithinTokens(counted: seq<Admission>, tpm: int) {
    tpm > 0 ==> Tokens(counted) <= tpm
  }

  /** Sliding-window safety at every instant, not only when requests arrive: while a limit
      stays fixed, no minute ever holds more than it, whatever the other limit does. */
  lemma {:induction false} LimitsHoldAtEveryInstant(rs: seq<Request>, rpm: int, tpm: int, t: int)
    requires InOrder(rs)
    ensures (forall i | 0 <= i < |rs| :: rs[i].rpm == rpm) ==> WithinRequests(InWindow(History(rs), t), rpm)
    ensures (forall i | 0 <= i < |rs| :: rs[i].tpm == tpm) ==> WithinTokens(InWindow(History(rs), t), tpm)
  {
    hide InSpan, Recent, Tokens, VerdictOn, WithinRequests, WithinTokens, Recorded;
    if rs == [] {
      NothingCounted(t - SPAN, t, rpm, tpm);
    } else {
      var before, r := rs[..|rs| - 1], rs[|rs| - 1];
      LimitsHoldAtEveryInstant(before, rpm, tpm, t);
      AdmissionKeepsLimits(History(before), r, r.time - SPAN, t - SPAN, t);
    }
  }

  lemma NothingCounted(from: int, until: int, rpm: int, tpm: int)
    ensures WithinRequests(InSpan([], from, until), rpm) && WithinTokens(InSpan([], from, until), tpm)
  {
  }

  /** One more request: whatever lies in a span with it was counted by its verdict. */
  lemma AdmissionKeepsLimits(h: seq<Admission>, r: Request, cutoff: int, from: int, until: int)
    requires from < r.time <= until ==> cutoff <= from
    ensures var h' := Recorded(h, r, VerdictOn(Recent(h, cutoff), r));
            && (WithinRequests(InSpan(h, from, until), r.rpm) ==> WithinRequests(InSpan(h', from, until), r.rpm))
            && (WithinTokens(InSpan(h, from, until), r.tpm) ==> WithinTokens(InSpan(h', from, until), r.tpm))
  {
    hide InSpan, Recent, Tokens;
    var a := Admission(r.time, Max(0, r.prompt));
    InSpanAppend(h, a, from, until);
    TokensAppend(InSpan(h, from, until), a);
    if from < r.time <= until {
      SpanIsPartOfRecent(h, from, until, cutoff);
    }
  }

  /** When nothing lies in the future, the window that ends now is what the verdict counts. */
  lemma {:induction false} WindowIsRecent(h: seq<Admission>, now: int)
    requires Ordered(h, now)
    ensures InWindow(h, now) == Recent(h, now - SPAN)
  {
    if h != [] {
      WindowIsRecent(h[..|h| - 1], now);
    }
  }

  /** A request is admitted exactly when admitting it keeps the minute that ends with it
      within the limits: nothing is refused needlessly. */
  lemma AdmittedExactlyWhenItFits(h: seq<Admission>, r: Request)
    requires Ordered(h, r.time) && 0 <= r.prompt
    ensures var h' := h + [Admission(r.time, r.prompt)];
            Decide(h, r).Allowed? <==> WithinRequests(InWindow(h', r.time), r.rpm) && WithinTokens(InWindow(h', r.time), r.tpm)
  {
    hide InSpan, Recent, Tokens;
    var a := Admission(r.time, r.prompt);
    WindowIsRecent(h, r.time);
    InSpanAppend(h, a, r.time - SPAN, r.time);
    TokensAppend(InWindow(h, r.time), a);
  }

  // ---- Pruning ----

  lemma {:induction false} RecentOfRecent(h: seq<Admission>, c: int, c': int)
    requires c <= c'
    ensures Recent(Recent(h, c), c') == Recent(h, c')
  {
    if h != [] {
      RecentOfRecent(h[..|h| - 1], c, c');
      RecentAppend(Recent(h[..|h| - 1], c), h[|h| - 1], c');
    }
  }

  /** In an ordered history the recent admissions are the suffix after the old ones. */
  lemma {:induction false} RecentIsSuffix(h: seq<Admission>, n: nat, cutoff: int)
    requires n <= |h|
    requires forall i | 0 <= i < n :: h[i].time <= cutoff
    requires forall i | n <= i < |h| :: h[i].time > cutoff
    ensures Recent(h, cutoff) == h[n..]
  {
    if n == |h| {
      NoneRecent(h, cutoff);
    } else {
      RecentIsSuffix(h[..|h| - 1], n, cutoff);
      assert h[n..] == h[..|h| - 1][n..] + [h[|h| - 1]];
    }
  }

  lemma {:induction false} NoneRecent(h: seq<Admission>, cutoff: int)
    requires forall i | 0 <= i < |h| :: h[i].time <= cutoff
    ensures Recent(h, cutoff) == []
  {
    if h != [] {
      NoneRecent(h[..|h| - 1], cutoff);
    }
  }

  /** Filtering finds members of the history, and only recent ones. */
  lemma {:induction false} RecentMembers(h: seq<Admission>, cutoff: int, last: int)
    requires Ordered(h, last)
    ensures Ordered(Recent(h, cutoff), last)
    ensures forall i | 0 <= i < |Recent(h, cutoff)| :: Recent(h, cutoff)[i].time > cutoff && Recent(h, cutoff)[i] in h
    ensures Recent(h, cutoff) == [] ==> forall i | 0 <= i < |h| :: h[i].time <= cutoff
  {
    if h != [] {
      var init, a := h[..|h| - 1], h[|h| - 1];
      assert h == init + [a];
      RecentMembers(init, cutoff, a.time);
      RecentAppend(init, a, cutoff);
      hide Recent;
      if a.time > cutoff {
        MembersAppend(Recent(init, cutoff), init, a, cutoff, last);
      }
    }
  }

  lemma MembersAppend(recent: seq<Admission>, h: seq<Admission>, a: Admission, cutoff: int, last: int)
    requires Ordered(recent, a.time) && a.time > cutoff && a.time <= last
    requires forall i | 0 <= i < |recent| :: recent[i].time > cutoff && recent[i] in h
    ensures Ordered(recent + [a], last)
    ensures forall i | 0 <= i < |recent + [a]| :: (recent + [a])[i].time > cutoff && (recent + [a])[i] in h + [a]
  {
    forall i | 0 <= i < |recent + [a]| ensures (recent + [a])[i].time > cutoff && (recent + [a])[i] in h + [a] {
      if i < |recent| {
        assert (recent + [a])[i] == recent[i];
      }
    }
  }
}
