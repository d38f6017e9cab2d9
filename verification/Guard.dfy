/** The generation guard: one open generation per scope, in memory and as a Redis lease
    (AcquireGeneration and its helpers in proxy/limiter.go). */
module Guard {
  import opened Common

  /** The release closure of one acquisition; `released` is its sync.Once. */
  class Lease {
    const scope: string
    const requestId: string
    var released: bool

    constructor (scope: string, requestId: string)
      ensures this.scope == scope && this.requestId == requestId && !released
    {
      this.scope, this.requestId := scope, requestId;
      released := false;
    }
  }

  class GenerationGuard {
    var active: map<string, string>
    /** Every lease ever granted, and the open one of each active scope. */
    ghost var granted: set<Lease>
    ghost var holders: map<string, Lease>

    /** The open leases are exactly the holders, one for each active scope. */
    ghost predicate Valid()
      reads this, granted
    {
      && holders.Keys == active.Keys
      && (forall scope | scope in holders ::
            holders[scope] in granted && !holders[scope].released
            && holders[scope].scope == scope && active[scope] == holders[scope].requestId)
      && (forall lease | lease in granted && !lease.released :: lease.scope in holders && holders[lease.scope] == lease)
    }

    constructor ()
      ensures Valid() && granted == {} && active == map[]
    {
      active := map[];
      granted, holders := {}, map[];
    }

    /** Acquisition succeeds exactly when no lease of the scope is open, whatever the request id. */
    method TryInMemoryGeneration(scope: string, requestId: string) returns (lease: Lease?)
      requires Valid()
      modifies this
      ensures Valid()
      ensures lease == null <==> exists open :: open in old(granted) && !open.released && open.scope == scope
      ensures lease == null ==> granted == old(granted) && active == old(active)
      ensures lease != null ==>
                && fresh(lease) && !lease.released && lease.scope == scope && lease.requestId == requestId
                && granted == old(granted) + {lease} && active == old(active)[scope := requestId]
    {
      if scope in active {
        assert holders[scope] in granted;
        return null;
      }
      lease := new Lease(scope, requestId);
      active := active[scope := requestId];
      granted := granted + {lease};
      holders := holders[scope := lease];
    }

    /** The first release frees the scope; a repeated one does nothing, even when the scope
        has meanwhile been acquired again under the same request id. */
    method Release(lease: Lease)
      requires Valid() && lease in granted
      modifies this, lease
      ensures Valid() && lease.released && granted == old(granted)
      ensures old(lease.released) ==> active == old(active)
      ensures !old(lease.released) ==> active == old(active) - {lease.scope}
      ensures forall other | other in granted && other != lease :: other.released == old(other.released)
    {
      if lease.released {
        return;
      }
      lease.released := true;
      if lease.scope in active && active[lease.scope] == lease.requestId {
        active := active - {lease.scope};
        holders := holders - {lease.scope};
      }
    }

    /** In every reachable state a scope has at most one open lease. */
    lemma AtMostOneHolder(a: Lease, b: Lease)
      requires Valid() && a in granted && b in granted && !a.released && !b.released && a.scope == b.scope
      ensures a == b
    {
    }
  }

  // ---- Redis leases ----

  const LEASE_TTL: int := 120_000

  /** One scope's key in Redis, and the holders that have not released. */
  datatype LeaseState = LeaseState(value: Option<string>, deadline: int, now: int, holders: map<nat, string>, next: nat)

  datatype LeaseStep =
    | Wait(to: int)
    | Acquire(requestId: string)
    | Renew(holder: nat)
    | Release(holder: nat)
    | ReleaseUnsent(holder: nat)

  /** What a GET sees: a lapsed key is gone. */
  function Stored(s: LeaseState): Option<string> {
    if s.now <= s.deadline then s.value else None
  }

  function LeaseNext(s: LeaseState, step: LeaseStep): LeaseState {
    match step
    case Wait(to) => if to >= s.now then s.(now := to) else s
    case Acquire(id) =>
      if Stored(s).Some? then s
      else s.(value := Some(id), deadline := s.now + LEASE_TTL, holders := s.holders[s.next := id], next := s.next + 1)
    case Renew(h) =>
      if h in s.holders && Stored(s) == Some(s.holders[h]) then s.(deadline := s.now + LEASE_TTL) else s
    case Release(h) =>
      if h !in s.holders then s
      else if Stored(s) == Some(s.holders[h]) then s.(value := None, holders := s.holders - {h})
      else s.(holders := s.holders - {h})
    case ReleaseUnsent(h) => s.(holders := s.holders - {h})
  }

  function LeaseRun(s: LeaseState, steps: seq<LeaseStep>): LeaseState {
    if steps == [] then s else LeaseNext(LeaseRun(s, steps[..|steps| - 1]), steps[|steps| - 1])
  }

  const FREE: LeaseState := LeaseState(None, 0, 0, map[], 0)

  /** Every holder renews or releases before its lease lapses. */
  predicate Diligent(s: LeaseState, steps: seq<LeaseStep>) {
    steps == [] ||
    (Diligent(s, steps[..|steps| - 1]) &&
     (steps[|steps| - 1].Wait? ==>
        var before := LeaseRun(s, steps[..|steps| - 1]);
        before.holders == map[] || steps[|steps| - 1].to <= before.deadline))
  }

  /** A holder is alone and its id is what Redis stores. */
  predicate Exclusive(s: LeaseState) {
    && (forall h | h in s.holders :: h < s.next)
    && (forall h | h in s.holders :: s.holders.Keys == {h} && Stored(s) == Some(s.holders[h]))
  }

  /** While holders are diligent, at most one holds the scope in every reachable state. */
  lemma {:induction false} DiligentHoldersExclude(steps: seq<LeaseStep>)
    requires Diligent(FREE, steps)
    ensures Exclusive(LeaseRun(FREE, steps))
    ensures |LeaseRun(FREE, steps).holders| <= 1
  {
    if steps != [] {
      DiligentHoldersExclude(steps[..|steps| - 1]);
      ExclusiveStep(LeaseRun(FREE, steps[..|steps| - 1]), steps[|steps| - 1]);
    }
    var s := LeaseRun(FREE, steps);
    if h :| h in s.holders {
      assert |s.holders| == |s.holders.Keys| == |{h}|;
    }
  }

  lemma ExclusiveStep(s: LeaseState, step: LeaseStep)
    requires Exclusive(s)
    requires step.Wait? ==> s.holders == map[] || step.to <= s.deadline
    ensures Exclusive(LeaseNext(s, step))
  {
    var s' := LeaseNext(s, step);
    forall h | h in s'.holders ensures h < s'.next && s'.holders.Keys == {h} && Stored(s') == Some(s'.holders[h]) {
      if h in s.holders {
        assert s.holders.Keys == {h} && Stored(s) == Some(s.holders[h]);
      }
    }
  }

  /** The stored lease is h's. */
  predicate Owns(s: LeaseState, h: nat) {
    h in s.holders && Stored(s) == Some(s.holders[h])
  }

  /** h owns the stored lease, and no other holder, lapsed or not, has its request id. */
  predicate OwnsAlone(s: LeaseState, h: nat) {
    Owns(s, h) && forall o | o in s.holders && o != h :: s.holders[o] != s.holders[h]
  }

  /** Steps that are not h's own, none waiting past the deadline. */
  predicate OthersBefore(steps: seq<LeaseStep>, h: nat, deadline: int) {
    forall i | 0 <= i < |steps| ::
      steps[i] != Renew(h) && steps[i] != Release(h) && steps[i] != ReleaseUnsent(h)
      && (steps[i].Wait? ==> steps[i].to <= deadline)
  }

  /** While h's lease is live and its request id its own, nothing that others do, lapsed holders
      included, changes what is stored or until when, or lets anyone in. */
  lemma {:induction false} LapsedHolderIsPowerless(s: LeaseState, h: nat, steps: seq<LeaseStep>)
    requires OwnsAlone(s, h) && OthersBefore(steps, h, s.deadline)
    ensures var s' := LeaseRun(s, steps);
            && OwnsAlone(s', h) && Stored(s') == Stored(s) && s'.deadline == s.deadline
            && s'.holders.Keys <= s.holders.Keys && forall o | o in s'.holders :: s'.holders[o] == s.holders[o]
  {
    if steps != [] {
      LapsedHolderIsPowerless(s, h, steps[..|steps| - 1]);
    }
  }

  /** The condition is exact: a holder's step disturbs another's stored lease if and only if
      the two share their request id. */
  lemma DisturbedExactlyByTheSameId(s: LeaseState, h: nat, owner: nat)
    requires h in s.holders && Owns(s, owner) && h != owner
    ensures Stored(LeaseNext(s, Release(h))) != Stored(s) <==> s.holders[h] == s.holders[owner]
    ensures LeaseNext(s, Renew(h)) == if s.holders[h] == s.holders[owner] then s.(deadline := s.now + LEASE_TTL) else s
  {
  }

  /** Every acquisition attempt of a run carries a request id of its own. */
  predicate FreshIds(steps: seq<LeaseStep>) {
    forall i, j | 0 <= i < j < |steps| && steps[i].Acquire? && steps[j].Acquire? :: steps[i].requestId != steps[j].requestId
  }

  /** In every run with request ids of their own, lapses included, whoever owns the stored lease
      owns it alone. */
  lemma OwnersAreAlone(steps: seq<LeaseStep>, h: nat)
    requires FreshIds(steps) && Owns(LeaseRun(FREE, steps), h)
    ensures OwnsAlone(LeaseRun(FREE, steps), h)
  {
    HolderIds(steps);
  }

  predicate Acquires(steps: seq<LeaseStep>, id: string) {
    exists i :: 0 <= i < |steps| && steps[i] == Acquire(id)
  }

  predicate DistinctIds(s: LeaseState) {
    forall h, o | h in s.holders && o in s.holders && h != o :: s.holders[h] != s.holders[o]
  }

  lemma {:induction false} HolderIds(steps: seq<LeaseStep>)
    requires FreshIds(steps)
    ensures DistinctIds(LeaseRun(FREE, steps))
    ensures forall h | h in LeaseRun(FREE, steps).holders ::
              h < LeaseRun(FREE, steps).next && Acquires(steps, LeaseRun(FREE, steps).holders[h])
  {
    if steps != [] {
      var init, step := steps[..|steps| - 1], steps[|steps| - 1];
      HolderIds(init);
      var before, s := LeaseRun(FREE, init), LeaseRun(FREE, steps);
      forall h | h in s.holders ensures h < s.next && Acquires(steps, s.holders[h]) {
        if h in before.holders {
          AcquiresMore(init, step, before.holders[h]);
          assert steps == init + [step];
        } else {
          assert steps[|steps| - 1] == Acquire(s.holders[h]);
        }
      }
      if step.Acquire? {
        assert !Acquires(init, step.requestId);
      }
    }
  }

  lemma AcquiresMore(steps: seq<LeaseStep>, step: LeaseStep, id: string)
    requires Acquires(steps, id)
    ensures Acquires(steps + [step], id)
  {
    var i :| 0 <= i < |steps| && steps[i] == Acquire(id);
    assert (steps + [step])[i] == Acquire(id);
  }

  /** With one id for two requests: the first holder lapses, a second acquires with the same
      request id, the first releases, and a third gets in beside the second. */
  lemma SameIdLetsALapsedHolderIn(a: string, b: string)
    ensures var s := LeaseRun(FREE, [Acquire(a), Wait(LEASE_TTL + 1), Acquire(a), Release(0), Acquire(b)]);
            s.holders == map[1 := a, 2 := b]
  {
    var s1 := FREE.(value := Some(a), deadline := LEASE_TTL, holders := map[0 := a], next := 1);
    var s2 := s1.(now := LEASE_TTL + 1);
    var s3 := s2.(deadline := 2 * LEASE_TTL + 1, holders := map[0 := a, 1 := a], next := 2);
    var s4 := s3.(value := None, holders := map[1 := a]);
    var steps := [Acquire(a), Wait(LEASE_TTL + 1), Acquire(a), Release(0), Acquire(b)];
    assert steps[..4] == [Acquire(a), Wait(LEASE_TTL + 1), Acquire(a), Release(0)];
    assert steps[..4][..3] == [Acquire(a), Wait(LEASE_TTL + 1), Acquire(a)];
    assert steps[..4][..3][..2] == [Acquire(a), Wait(LEASE_TTL + 1)];
    assert steps[..4][..3][..2][..1] == [Acquire(a)];
    assert steps[..4][..3][..2][..1][..0] == [];
    assert LeaseRun(FREE, steps[..4][..3][..2][..1]) == s1;
    assert LeaseRun(FREE, steps[..4][..3][..2]) == s2;
    assert LeaseRun(FREE, steps[..4][..3]) == s3;
    assert s3.holders - {0} == map[1 := a];
    assert LeaseRun(FREE, steps[..4]) == s4;
  }
}
