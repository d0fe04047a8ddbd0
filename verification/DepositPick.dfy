/** Which address an allocation receives, and why a user does not meet the same one twice in a window. */
module DepositPick {
  import opened Wrappers
  import opened DepositPool

  lemma BeforeIsTransitive(p: Pool, user: UserId, amount: int, network: Network, i: nat, j: nat, k: nat)
    requires Live(p.addresses, i) && Live(p.addresses, j) && Live(p.addresses, k)
    requires Before(p, user, amount, network, i, j) && Before(p, user, amount, network, j, k)
    ensures Before(p, user, amount, network, i, k)
  {
  }

  ghost predicate IsLeast(p: Pool, user: UserId, amount: int, network: Network, n: nat, id: nat)
    requires n <= |p.addresses|
  {
    && id < n && Fits(p.addresses[id], amount, network)
    && forall j :: 0 <= j < n && j != id && Fits(p.addresses[j], amount, network) ==>
         Before(p, user, amount, network, id, j)
  }

  /** The pick is the least fitting row under (used by this user, sortOrder, createdAt, table order). */
  lemma {:induction false} PickIsLeast(p: Pool, user: UserId, amount: int, network: Network, n: nat)
    requires n <= |p.addresses|
    ensures var picked := Pick(p, user, amount, network, n);
      && (picked.None? <==> forall j :: 0 <= j < n ==> !Fits(p.addresses[j], amount, network))
      && (picked.Some? ==> IsLeast(p, user, amount, network, n, picked.value))
  {
    if n > 0 {
      PickIsLeast(p, user, amount, network, n - 1);
      var best := Pick(p, user, amount, network, n - 1);
      if best.Some? && Fits(p.addresses[n - 1], amount, network) && Before(p, user, amount, network, n - 1, best.value) {
        forall j | 0 <= j < n - 1 && Fits(p.addresses[j], amount, network)
          ensures Before(p, user, amount, network, n - 1, j)
        {
          if j != best.value {
            BeforeIsTransitive(p, user, amount, network, n - 1, best.value, j);
          }
        }
      }
    }
  }

  /** Only one row can be least, so the pick is determined by the comparator alone. */
  lemma LeastIsThePick(p: Pool, user: UserId, amount: int, network: Network, id: nat)
    requires IsLeast(p, user, amount, network, |p.addresses|, id)
    ensures Pick(p, user, amount, network, |p.addresses|) == Some(id)
  {
    PickIsLeast(p, user, amount, network, |p.addresses|);
    var picked := Pick(p, user, amount, network, |p.addresses|);
    assert picked.Some?;
    if picked.value != id {
      BeforeIsTransitive(p, user, amount, network, id, picked.value, id);
      assert false;
    }
  }

  /** The pick was used by the user only if every fitting address was. */
  lemma UsedOnlyWhenAllAre(p: Pool, user: UserId, amount: int, network: Network, j: nat)
    requires j < |p.addresses| && Fits(p.addresses[j], amount, network) && !UsedBy(p, user, amount, network, j)
    ensures var picked := Pick(p, user, amount, network, |p.addresses|);
            picked.Some? && !UsedBy(p, user, amount, network, picked.value)
  {
    PickIsLeast(p, user, amount, network, |p.addresses|);
  }

  /** No user holds two unconsumed, unexpired allocations on one address. */
  ghost predicate DistinctActive(p: Pool) {
    forall i, j, user: UserId, id: nat ::
      0 <= i < j < |p.allocations| && HoldsActive(p.allocations[i], user, id, p.now)
      ==> !HoldsActive(p.allocations[j], user, id, p.now)
  }

  /** Some fitting address has not been used by this user. */
  ghost predicate FreshRemains(p: Pool, user: UserId, amount: int, network: Network) {
    exists j :: 0 <= j < |p.addresses| && Fits(p.addresses[j], amount, network) && !UsedBy(p, user, amount, network, j)
  }

  /** An allocation goes to an address on which its user already holds an active one. */
  predicate DoublesUp(p: Pool, e: PoolEvent) {
    match e
    case DoAllocate(user, amount, network) =>
      var r := Allocate(p, user, amount, network).1;
      r.Ok? && HasActive(p, user, r.value)
    case DoReserve(user, amount, id) => amount > 0 && Live(p.addresses, id) && HasActive(p, user, id)
    case _ => false
  }

  lemma ReservedTwice(p: Pool, user: UserId, amount: int, id: nat)
    requires Live(p.addresses, id) && HasActive(p, user, id)
    ensures !DistinctActive(Reserve(p, user, amount, id))
  {
    var i :| 0 <= i < |p.allocations| && HoldsActive(p.allocations[i], user, id, p.now);
    var p' := Reserve(p, user, amount, id);
    assert HoldsActive(p'.allocations[i], user, id, p'.now);
    assert HoldsActive(p'.allocations[|p.allocations|], user, id, p'.now);
  }

  /** A step keeps a user's active allocations on different addresses exactly when it does not double up. */
  lemma DistinctStep(p: Pool, e: PoolEvent)
    requires DistinctActive(p)
    ensures DistinctActive(PoolStep(p, e)) <==> !DoublesUp(p, e)
  {
    var p' := PoolStep(p, e);
    if DoublesUp(p, e) {
      ReservedTwice(p, e.user, e.amount, if e.DoReserve? then e.id else Allocate(p, e.user, e.amount, e.network).1.value);
    } else {
      forall i, j, user: UserId, id: nat |
        0 <= i < j < |p'.allocations| && HoldsActive(p'.allocations[i], user, id, p'.now)
        ensures !HoldsActive(p'.allocations[j], user, id, p'.now)
      {
        if i < |p.allocations| {
          ActiveBefore(p, e, i, user, id);
          if j < |p.allocations| && HoldsActive(p'.allocations[j], user, id, p'.now) {
            ActiveBefore(p, e, j, user, id);
            assert false;
          }
        }
      }
    }
  }

  /** While some fitting address is unused, an allocation does not double up. */
  lemma FreshIsSingle(p: Pool, user: UserId, amount: int, network: Network)
    requires FreshRemains(p, user, amount, network)
    ensures !DoublesUp(p, DoAllocate(user, amount, network))
  {
    var unused :| 0 <= unused < |p.addresses| && Fits(p.addresses[unused], amount, network)
                  && !UsedBy(p, user, amount, network, unused);
    UsedOnlyWhenAllAre(p, user, amount, network, unused);
  }

  /** A step never revives an allocation: what is active after it was active before it. */
  lemma ActiveBefore(p: Pool, e: PoolEvent, i: nat, user: UserId, id: nat)
    requires i < |p.allocations|
    requires i < |PoolStep(p, e).allocations|
    requires HoldsActive(PoolStep(p, e).allocations[i], user, id, PoolStep(p, e).now)
    ensures HoldsActive(p.allocations[i], user, id, p.now)
  {
  }

  ghost predicate NeverDoublesUp(p: Pool, events: seq<PoolEvent>) {
    events != [] ==>
      var init := events[..|events| - 1];
      NeverDoublesUp(p, init) && !DoublesUp(PoolRun(p, init), events[|init|])
  }

  ghost predicate AlwaysDistinct(p: Pool, events: seq<PoolEvent>) {
    DistinctActive(PoolRun(p, events)) && (events != [] ==> AlwaysDistinct(p, events[..|events| - 1]))
  }

  /** The allocations a user holds are on different addresses throughout a run exactly when it never doubles up. */
  lemma {:induction false} DistinctOverRuns(events: seq<PoolEvent>)
    ensures AlwaysDistinct(EMPTY_POOL, events) <==> NeverDoublesUp(EMPTY_POOL, events)
  {
    if events != [] {
      var init := events[..|events| - 1];
      DistinctOverRuns(init);
      if NeverDoublesUp(EMPTY_POOL, init) {
        assert DistinctActive(PoolRun(EMPTY_POOL, init));
        DistinctStep(PoolRun(EMPTY_POOL, init), events[|init|]);
      }
    }
  }

  /** Every accepted allocation found an unused fitting address; one that reads and writes apart does not double up. */
  ghost predicate AlwaysFresh(p: Pool, events: seq<PoolEvent>) {
    events != [] ==>
      var init, e := events[..|events| - 1], events[|events| - 1];
      AlwaysFresh(p, init) && FindsFresh(PoolRun(p, init), e)
  }

  ghost predicate FindsFresh(p: Pool, e: PoolEvent) {
    && (e.DoAllocate? && Allocate(p, e.user, e.amount, e.network).1.Ok? ==> FreshRemains(p, e.user, e.amount, e.network))
    && (e.DoReserve? ==> !DoublesUp(p, e))
  }

  lemma {:induction false} FreshNeverDoublesUp(p: Pool, events: seq<PoolEvent>)
    requires AlwaysFresh(p, events)
    ensures NeverDoublesUp(p, events)
  {
    if events != [] {
      var m, e := PoolRun(p, events[..|events| - 1]), events[|events| - 1];
      FreshNeverDoublesUp(p, events[..|events| - 1]);
      if e.DoAllocate? && Allocate(m, e.user, e.amount, e.network).1.Ok? {
        FreshIsSingle(m, e.user, e.amount, e.network);
      }
    }
  }

  /**
   While an unused fitting address remains at each accepted allocation, the allocations a user holds at any
   moment are on pairwise different addresses, whatever else happens in between.
  */
  lemma NoRepeatInWindow(events: seq<PoolEvent>)
    requires AlwaysFresh(EMPTY_POOL, events)
    ensures DistinctActive(PoolRun(EMPTY_POOL, events))
  {
    FreshNeverDoublesUp(EMPTY_POOL, events);
    DistinctOverRuns(events);
  }
}
