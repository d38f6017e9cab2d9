/** What draining the top-ups achieves, for any order the database may return among equal
    keys (deductNanoFromTopupsTx in db/billing_atomic.go). */
module Drain {
  import opened Money
  import opened Sorting
  import opened Ledger

  function Sum(s: seq<int>): int {
    if s == [] then 0 else s[0] + Sum(s[1..])
  }

  function Prefix(s: seq<int>, n: nat): int
    requires n <= |s|
  {
    if n == 0 then 0 else s[0] + Prefix(s[1..], n - 1)
  }

  function Rooms(queue: seq<Candidate>): (rooms: seq<int>)
    ensures |rooms| == |queue|
    ensures forall k | 0 <= k < |queue| :: rooms[k] == Room(queue[k])
  {
    if queue == [] then [] else [Room(queue[0])] + Rooms(queue[1..])
  }

  predicate Fits(takes: seq<int>, queue: seq<Candidate>) {
    |takes| == |queue| && forall k | 0 <= k < |queue| :: 0 <= takes[k] <= Room(queue[k])
  }

  lemma {:induction false} PrefixOfAll(s: seq<int>)
    ensures Prefix(s, |s|) == Sum(s)
  {
    if s != [] {
      PrefixOfAll(s[1..]);
    }
  }

  /** The greedy takes are maximal on every prefix of the queue, and a later top-up is
      touched only when every earlier one is exhausted. */
  lemma {:induction false} GreedyPrefix(queue: seq<Candidate>, amount: int, n: nat)
    requires 0 <= amount && n <= |queue| && forall c | c in queue :: 0 <= Room(c)
    ensures Prefix(Takes(queue, amount), n) == Min(amount, Prefix(Rooms(queue), n))
    ensures 0 <= Prefix(Rooms(queue), n)
  {
    if n > 0 {
      GreedyPrefix(queue[1..], amount - Min(amount, Room(queue[0])), n - 1);
      assert Rooms(queue)[1..] == Rooms(queue[1..]);
    }
  }

  lemma {:induction false} GreedyFits(queue: seq<Candidate>, amount: int)
    requires 0 <= amount && forall c | c in queue :: 0 <= Room(c)
    ensures Fits(Takes(queue, amount), queue)
    ensures forall j, k | 0 <= j < k < |queue| && Takes(queue, amount)[k] > 0 :: Takes(queue, amount)[j] == Room(queue[j])
  {
    if queue != [] {
      var consume := Min(amount, Room(queue[0]));
      GreedyFits(queue[1..], amount - consume);
      if amount == consume {
        NothingLeft(queue[1..]);
      }
    }
  }

  lemma {:induction false} NothingLeft(queue: seq<Candidate>)
    requires forall c | c in queue :: 0 <= Room(c)
    ensures forall k | 0 <= k < |queue| :: Takes(queue, 0)[k] == 0
  {
    if queue != [] {
      NothingLeft(queue[1..]);
    }
  }

  lemma {:induction false} PrefixAtMost(takes: seq<int>, queue: seq<Candidate>, n: nat)
    requires Fits(takes, queue) && n <= |queue|
    ensures Prefix(takes, n) <= Prefix(Rooms(queue), n)
    ensures Prefix(takes, n) <= Sum(takes)
    ensures 0 <= Sum(takes)
  {
    if queue != [] {
      assert Rooms(queue)[1..] == Rooms(queue[1..]);
      PrefixAtMost(takes[1..], queue[1..], if n > 0 then n - 1 else 0);
    }
  }

  // ---- Balances after a deduction ----

  /** The part of the takes that comes from top-ups still active at t. */
  function LateTakes(queue: seq<Candidate>, takes: seq<int>, t: int): int
    requires |takes| == |queue|
  {
    if queue == [] then 0
    else (if IsActive(queue[0].topup, t) then takes[0] else 0) + LateTakes(queue[1..], takes[1..], t)
  }

  predicate Describes(queue: seq<Candidate>, topups: seq<Topup>) {
    forall c | c in queue ::
      c.index < |topups| && topups[c.index].expiresAt == c.topup.expiresAt && topups[c.index].deleted == c.topup.deleted
  }

  lemma {:induction false} BalanceAfterApply(topups: seq<Topup>, queue: seq<Candidate>, takes: seq<int>, t: int)
    requires |takes| == |queue| && Describes(queue, topups)
    ensures ActiveBalance(Apply(topups, queue, takes), t) == ActiveBalance(topups, t) - LateTakes(queue, takes, t)
    ensures TotalUsed(Apply(topups, queue, takes)) == TotalUsed(topups) + Sum(takes)
    decreases |queue|
  {
    if queue != [] {
      var i := queue[0].index;
      var t' := topups[i].(used := topups[i].used + takes[0]);
      BalanceAfterUpdate(topups, i, t', t);
      hide ActiveBalance, TotalUsed;
      BalanceAfterApply(topups[i := t'], queue[1..], takes[1..], t);
    }
  }

  /** Each queued top-up is charged its own take and no other row changes. */
  lemma {:induction false} RowsAfterApply(topups: seq<Topup>, queue: seq<Candidate>, takes: seq<int>)
    requires |takes| == |queue| && forall c | c in queue :: c.index < |topups|
    requires forall i, j | 0 <= i < j < |queue| :: queue[i].index != queue[j].index
    ensures var result := Apply(topups, queue, takes);
            && (forall k | 0 <= k < |queue| ::
                  result[queue[k].index] == topups[queue[k].index].(used := topups[queue[k].index].used + takes[k]))
            && (forall i | 0 <= i < |topups| && (forall c | c in queue :: c.index != i) :: result[i] == topups[i])
    decreases |queue|
  {
    if queue != [] {
      var i := queue[0].index;
      var topups' := topups[i := topups[i].(used := topups[i].used + takes[0])];
      RowsAfterApply(topups', queue[1..], takes[1..]);
      var result := Apply(topups, queue, takes);
      forall c | c in queue[1..] ensures c.index != i {
      }
      assert result == Apply(topups', queue[1..], takes[1..]);
      hide Apply;
      assert queue[0] in queue && forall c | c in queue[1..] :: c in queue;
      forall k | 0 <= k < |queue|
        ensures result[queue[k].index] == topups[queue[k].index].(used := topups[queue[k].index].used + takes[k])
      {
        if k > 0 {
          assert queue[1..][k - 1] == queue[k] && takes[1..][k - 1] == takes[k];
          assert queue[0].index != queue[k].index;
          assert topups'[queue[k].index] == topups[queue[k].index];
        } else {
          assert result[i] == topups'[i];
        }
      }
      forall n | 0 <= n < |topups| && (forall c | c in queue :: c.index != n) ensures result[n] == topups[n] {
        assert n != i && topups'[n] == topups[n];
      }
    }
  }

  // ---- The queue lists exactly the active balance ----

  lemma {:induction false} SumAppend(s: seq<int>, x: int)
    ensures Sum(s + [x]) == Sum(s) + x
  {
    if s != [] {
      SumAppend(s[1..], x);
      assert (s + [x])[1..] == s[1..] + [x];
    }
  }

  lemma {:induction false} CandidateBalance(topups: seq<Topup>, now: int, n: nat)
    requires n <= |topups| && forall i | 0 <= i < |topups| :: ValidTopup(topups[i])
    ensures Sum(Rooms(Candidates(topups, now, n))) == ActiveBalance(topups[..n], now)
  {
    if n > 0 {
      CandidateBalance(topups, now, n - 1);
      assert topups[..n] == topups[..n - 1] + [topups[n - 1]];
      BalanceOfAppended(topups[..n - 1], topups[n - 1], now);
      assert ValidTopup(topups[n - 1]);
      var before, c := Candidates(topups, now, n - 1), Candidate(n - 1, topups[n - 1]);
      RoomsAppend(before, c);
      hide ActiveBalance, Rooms, Sum;
    }
  }

  lemma RoomsAppend(queue: seq<Candidate>, c: Candidate)
    ensures Sum(Rooms(queue + [c])) == Sum(Rooms(queue)) + Room(c)
  {
    assert Rooms(queue + [c]) == Rooms(queue) + [Room(c)];
    SumAppend(Rooms(queue), Room(c));
  }

  lemma TakeOut(a: seq<Candidate>, b: seq<Candidate>) returns (k: nat)
    requires multiset(a) == multiset(b) && a != []
    ensures k < |b| && b[k] == a[0]
    ensures multiset(a[1..]) == multiset(b[..k] + b[k + 1..])
  {
    assert a[0] in multiset(b);
    k :| 0 <= k < |b| && b[k] == a[0];
    assert b == b[..k] + [b[k]] + b[k + 1..];
    assert a == [a[0]] + a[1..];
    assert multiset(b) == multiset(b[..k]) + multiset{b[k]} + multiset(b[k + 1..]);
    assert multiset(a) == multiset{a[0]} + multiset(a[1..]);
    assert multiset(b[..k] + b[k + 1..]) == multiset(b[..k]) + multiset(b[k + 1..]) == multiset(b) - multiset{b[k]};
    assert multiset(a[1..]) == multiset(a) - multiset{a[0]};
  }

  lemma {:induction false} RoomsOfPermutation(a: seq<Candidate>, b: seq<Candidate>)
    requires multiset(a) == multiset(b)
    ensures Sum(Rooms(a)) == Sum(Rooms(b))
  {
    if a == [] {
      assert |multiset(b)| == |b|;
    } else {
      var k := TakeOut(a, b);
      RoomsOfPermutation(a[1..], b[..k] + b[k + 1..]);
      RoomsWithout(b, k);
      assert Rooms(a)[1..] == Rooms(a[1..]);
    }
  }

  lemma SumOfRooms(queue: seq<Candidate>)
    requires queue != []
    ensures Sum(Rooms(queue)) == Room(queue[0]) + Sum(Rooms(queue[1..]))
  {
    assert Rooms(queue)[1..] == Rooms(queue[1..]);
  }

  lemma {:induction false} RoomsWithout(b: seq<Candidate>, k: nat)
    requires k < |b|
    ensures Sum(Rooms(b)) == Sum(Rooms(b[..k] + b[k + 1..])) + Room(b[k])
  {
    hide Room, Sum, Rooms;
    SumOfRooms(b);
    var rest := b[..k] + b[k + 1..];
    if k == 0 {
      assert rest == b[1..];
    } else {
      RoomsWithout(b[1..], k - 1);
      assert rest[0] == b[0] && rest[1..] == b[1..][..k - 1] + b[1..][k..];
      SumOfRooms(rest);
    }
  }

  lemma QueueBalance(queue: seq<Candidate>, topups: seq<Topup>, now: int)
    requires IsDrainQueue(queue, topups, now) && forall i | 0 <= i < |topups| :: ValidTopup(topups[i])
    ensures Sum(Rooms(queue)) == ActiveBalance(topups, now)
    ensures forall c | c in queue :: 0 <= Room(c)
  {
    RoomsOfPermutation(queue, Candidates(topups, now, |topups|));
    CandidateBalance(topups, now, |topups|);
    assert topups[..|topups|] == topups;
    QueueMembers(queue, topups, now);
  }

  /** The deduction is exact: it takes min(amount, active balance), keeps every top-up within
      its amount, leaves every other row alone, and goes on to a later top-up only after
      exhausting all earlier ones. */
  lemma DrainIsExact(queue: seq<Candidate>, topups: seq<Topup>, now: int, amount: int)
    requires IsDrainQueue(queue, topups, now) && 0 <= amount
    requires forall i | 0 <= i < |topups| :: ValidTopup(topups[i])
    ensures forall c | c in queue :: c.index < |topups| && c.topup == topups[c.index]
    ensures var takes := Takes(queue, amount);
            var result := Apply(topups, queue, takes);
            && Sum(takes) == Min(amount, ActiveBalance(topups, now))
            && TotalUsed(result) == TotalUsed(topups) + Sum(takes)
            && ActiveBalance(result, now) == ActiveBalance(topups, now) - Sum(takes)
            && (forall i | 0 <= i < |topups| ::
                  ValidTopup(result[i]) && result[i] == topups[i].(used := result[i].used) && topups[i].used <= result[i].used)
            && (forall j, k | 0 <= j < k < |queue| && takes[k] > 0 :: result[queue[j].index].used == queue[j].topup.amount)
  {
    hide Takes, Apply, Sum, ActiveBalance, TotalUsed;
    QueueMembers(queue, topups, now);
    QueueBalance(queue, topups, now);
    DrainedAmount(queue, topups, now, amount);
    GreedyFits(queue, amount);
    DrainedRows(queue, topups, Takes(queue, amount));
  }

  lemma DrainedAmount(queue: seq<Candidate>, topups: seq<Topup>, now: int, amount: int)
    requires IsDrainQueue(queue, topups, now) && 0 <= amount
    requires forall i | 0 <= i < |topups| :: ValidTopup(topups[i])
    ensures forall c | c in queue :: c.index < |topups|
    ensures var takes := Takes(queue, amount);
            && Sum(takes) == Min(amount, ActiveBalance(topups, now))
            && TotalUsed(Apply(topups, queue, takes)) == TotalUsed(topups) + Sum(takes)
            && ActiveBalance(Apply(topups, queue, takes), now) == ActiveBalance(topups, now) - Sum(takes)
  {
    hide Apply, ActiveBalance, IsDrainQueue;
    var takes := Takes(queue, amount);
    QueueMembers(queue, topups, now);
    QueueBalance(queue, topups, now);
    GreedyPrefix(queue, amount, |queue|);
    PrefixOfAll(takes);
    PrefixOfAll(Rooms(queue));
    BalanceAfterApply(topups, queue, takes, now);
    AllTakesAreLate(queue, takes, now);
  }

  lemma DrainedRows(queue: seq<Candidate>, topups: seq<Topup>, takes: seq<int>)
    requires Fits(takes, queue)
    requires forall c | c in queue :: c.index < |topups| && c.topup == topups[c.index]
    requires forall i, j | 0 <= i < j < |queue| :: queue[i].index != queue[j].index
    requires forall i | 0 <= i < |topups| :: ValidTopup(topups[i])
    ensures var result := Apply(topups, queue, takes);
            && (forall i | 0 <= i < |topups| ::
                  ValidTopup(result[i]) && result[i] == topups[i].(used := result[i].used) && topups[i].used <= result[i].used)
            && (forall k | 0 <= k < |queue| && takes[k] == Room(queue[k]) :: result[queue[k].index].used == queue[k].topup.amount)
  {
    hide Apply;
    RowsAfterApply(topups, queue, takes);
    var result := Apply(topups, queue, takes);
    forall i | 0 <= i < |topups|
      ensures ValidTopup(result[i]) && result[i] == topups[i].(used := result[i].used) && topups[i].used <= result[i].used
    {
      if c :| c in queue && c.index == i {
        var k :| 0 <= k < |queue| && queue[k] == c;
        assert 0 <= takes[k] <= Room(queue[k]);
      }
    }
    forall k | 0 <= k < |queue| && takes[k] == Room(queue[k]) ensures result[queue[k].index].used == queue[k].topup.amount {
      assert queue[k] in queue;
    }
  }

  lemma {:induction false} AllTakesAreLate(queue: seq<Candidate>, takes: seq<int>, t: int)
    requires |takes| == |queue| && forall c | c in queue :: IsActive(c.topup, t)
    ensures LateTakes(queue, takes, t) == Sum(takes)
  {
    if queue != [] {
      AllTakesAreLate(queue[1..], takes[1..], t);
    }
  }

  // ---- Optimality ----

  /** How many queued top-ups are gone by t; they come first. */
  function Expired(queue: seq<Candidate>, t: int): (n: nat)
    ensures n <= |queue|
  {
    if queue == [] || IsActive(queue[0].topup, t) then 0 else 1 + Expired(queue[1..], t)
  }

  lemma {:induction false} LateTakesAreSuffix(queue: seq<Candidate>, takes: seq<int>, t: int)
    requires |takes| == |queue| && Sorted(queue, DrainsBefore) && forall c | c in queue :: !c.topup.deleted
    ensures LateTakes(queue, takes, t) == Sum(takes) - Prefix(takes, Expired(queue, t))
  {
    if queue != [] {
      if IsActive(queue[0].topup, t) {
        forall c | c in queue ensures IsActive(c.topup, t) {
          var k :| 0 <= k < |queue| && queue[k] == c;
          assert k > 0 ==> !DrainsBefore(queue[k], queue[0]);
        }
        AllTakesAreLate(queue, takes, t);
      } else {
        LateTakesAreSuffix(queue[1..], takes[1..], t);
      }
    }
  }

  /** Earliest-expiry-first is optimal: at every later instant it leaves at least the
      balance that any other way of taking the same amount leaves. */
  lemma DrainIsOptimal(queue: seq<Candidate>, topups: seq<Topup>, now: int, amount: int, other: seq<int>, t: int)
    requires IsDrainQueue(queue, topups, now) && 0 <= amount && now <= t
    requires forall i | 0 <= i < |topups| :: ValidTopup(topups[i])
    requires Fits(other, queue) && Sum(other) == Sum(Takes(queue, amount))
    ensures forall c | c in queue :: c.index < |topups|
    ensures ActiveBalance(Apply(topups, queue, other), t) <= ActiveBalance(Apply(topups, queue, Takes(queue, amount)), t)
  {
    var takes := Takes(queue, amount);
    QueueMembers(queue, topups, now);
    QueueBalance(queue, topups, now);
    BalanceAfterApply(topups, queue, takes, t);
    BalanceAfterApply(topups, queue, other, t);
    LateTakesAreSuffix(queue, takes, t);
    LateTakesAreSuffix(queue, other, t);
    var n := Expired(queue, t);
    GreedyPrefix(queue, amount, n);
    GreedyPrefix(queue, amount, |queue|);
    PrefixOfAll(takes);
    PrefixAtMost(other, queue, n);
  }
}
