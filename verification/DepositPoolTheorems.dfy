/** Statements about every run of the deposit pool, and about the order in which its passes may work. */
module DepositPoolTheorems {
  import opened Wrappers
  import opened Tally
  import opened DepositPool
  import opened DepositPoolLaws

  // ---------- quota over whole runs ----------

  /**
   Every unit ever allocated at an address is in exactly one place, and the two running totals are the
   sums of the places they stand for: PENDING work in `pendingAmount`, approved deposits in `usedAmount`.
  */
  lemma QuotaOverRuns(events: seq<PoolEvent>, id: nat)
    requires Live(PoolRun(EMPTY_POOL, events).addresses, id)
    ensures var p := PoolRun(EMPTY_POOL, events);
            var row := p.addresses[id].value;
            && row.pendingAmount == SumBy(p.allocations, UnconsumedAt(id)) + SumBy(p.records, PendingTo(row.address))
            && row.pendingAmount == SumBy(p.trail, HeldAt(id)) + SumBy(p.trail, AwaitingAt(id))
            && row.usedAmount == SumBy(p.trail, ApprovedAt(id))
            && SumBy(p.trail, AllocatedAt(id))
                 == row.pendingAmount + row.usedAmount + SumBy(p.trail, ReleasedAt(id)) + SumBy(p.trail, RejectedAt(id))
  {
    EmptyPoolInv();
    RunKeepsInv(EMPTY_POOL, events);
    var p := PoolRun(EMPTY_POOL, events);
    assert Totals(p, id);
    forall i | 0 <= i < |p.trail| ensures HeldAt(id)(p.trail[i]) == UnconsumedAt(id)(p.allocations[i]) {
      assert RowAgrees(p.allocations[i], p.trail[i], p.now);
    }
    SumSame(p.trail, p.allocations, HeldAt(id), UnconsumedAt(id));
    EachUnitOnce(p.trail, id);
  }

  lemma {:induction false} EachUnitOnce(trail: seq<Trail>, id: nat)
    ensures SumBy(trail, AllocatedAt(id))
         == SumBy(trail, HeldAt(id)) + SumBy(trail, ReleasedAt(id)) + SumBy(trail, AwaitingAt(id))
          + SumBy(trail, ApprovedAt(id)) + SumBy(trail, RejectedAt(id))
  {
    if trail != [] {
      EachUnitOnce(trail[..|trail| - 1], id);
    }
  }

  lemma TotalsNonNegative(p: Pool, id: nat)
    requires Inv(p) && Live(p.addresses, id)
    ensures p.addresses[id].value.pendingAmount >= 0 && p.addresses[id].value.usedAmount >= 0
  {
    assert Totals(p, id);
    SumBounds(p.allocations, UnconsumedAt(id));
    SumBounds(p.records, PendingTo(p.addresses[id].value.address));
    SumBounds(p.trail, ApprovedAt(id));
  }

  // ---------- capacity ----------

  ghost predicate WithinCapacity(p: Pool) {
    forall id: nat :: Live(p.addresses, id) && p.addresses[id].value.capacity.Some? ==>
      p.addresses[id].value.usedAmount + p.addresses[id].value.pendingAmount <= p.addresses[id].value.capacity.value
  }

  /** An accepted update sets the capacity below the current use. */
  predicate CutsBelowUse(p: Pool, e: PoolEvent) {
    && e.DoUpdate?
    && UpdateAddress(p, e.id, e.patch).1.Ok?
    && e.patch.capacity.Some? && e.patch.capacity.value.Some?
    && e.patch.capacity.value.value < p.addresses[e.id].value.usedAmount + p.addresses[e.id].value.pendingAmount
  }

  /** The cap was checked against an address row that has filled up since. */
  predicate ReservesBeyondCap(p: Pool, e: PoolEvent) {
    && e.DoReserve? && e.amount > 0 && Live(p.addresses, e.id)
    && var row := p.addresses[e.id].value;
       row.capacity.Some? && row.usedAmount + row.pendingAmount + e.amount > row.capacity.value
  }

  predicate BreaksCap(p: Pool, e: PoolEvent) {
    CutsBelowUse(p, e) || ReservesBeyondCap(p, e)
  }

  lemma CapacityReserved(p: Pool, user: UserId, amount: int, id: nat)
    requires Inv(p) && WithinCapacity(p) && amount > 0 && Live(p.addresses, id)
    ensures WithinCapacity(Reserve(p, user, amount, id)) <==> !ReservesBeyondCap(p, DoReserve(user, amount, id))
  {
    var p' := Reserve(p, user, amount, id);
    if ReservesBeyondCap(p, DoReserve(user, amount, id)) {
      assert Live(p'.addresses, id);
    }
  }

  lemma CapacityReleased(p: Pool)
    requires Inv(p) && WithinCapacity(p)
    ensures WithinCapacity(ReleaseExpired(p))
  {
    var p' := ReleaseExpired(p);
    forall id: nat | Live(p'.addresses, id)
      ensures p'.addresses[id].value.pendingAmount <= p.addresses[id].value.pendingAmount
    {
      SumBounds(p.allocations, ExpiredAt(id, p.now));
    }
  }

  lemma CapacityDecided(p: Pool, k: nat, approve: bool, applied: bool, before: Option<int>, after: Option<int>)
    requires Inv(p) && WithinCapacity(p) && k < |p.records| && p.records[k].status == PENDING
    ensures WithinCapacity(Decide(p, k, approve, applied, before, after))
  {
    if p.records[k].kind == DEPOSIT {
      PendingDepositFindsItsRow(p, k);
    }
  }

  lemma CapacityUpdated(p: Pool, id: nat, patch: AddressPatch)
    requires Inv(p) && WithinCapacity(p)
    ensures WithinCapacity(UpdateAddress(p, id, patch).0) <==> !CutsBelowUse(p, DoUpdate(id, patch))
  {
    var p' := UpdateAddress(p, id, patch).0;
    if CutsBelowUse(p, DoUpdate(id, patch)) {
      assert Live(p'.addresses, id);
    }
  }

  /** The two ways to break the cap. */
  lemma CapacityStep(p: Pool, e: PoolEvent)
    requires Inv(p) && WithinCapacity(p)
    ensures WithinCapacity(PoolStep(p, e)) <==> !BreaksCap(p, e)
  {
    match e
    case DoReserve(u, a, id) => if a > 0 && Live(p.addresses, id) { CapacityReserved(p, u, a, id); }
    case DoRelease => CapacityReleased(p);
    case DoUpdate(id, patch) => CapacityUpdated(p, id, patch);
    case DoDecide(k, approve, applied, before, after) =>
      if k < |p.records| && p.records[k].status == PENDING {
        CapacityDecided(p, k, approve, applied, before, after);
      }
    case _ =>
  }

  ghost predicate NeverBreaksCap(p: Pool, events: seq<PoolEvent>) {
    events != [] ==>
      var init := events[..|events| - 1];
      NeverBreaksCap(p, init) && !BreaksCap(PoolRun(p, init), events[|init|])
  }

  ghost predicate AlwaysWithinCapacity(p: Pool, events: seq<PoolEvent>) {
    WithinCapacity(PoolRun(p, events)) && (events != [] ==> AlwaysWithinCapacity(p, events[..|events| - 1]))
  }

  /** Every cap holds throughout a run exactly when no step of it is one of those two. */
  lemma {:induction false} CapacityOverRuns(events: seq<PoolEvent>)
    ensures AlwaysWithinCapacity(EMPTY_POOL, events) <==> NeverBreaksCap(EMPTY_POOL, events)
  {
    if events != [] {
      var init, e := events[..|events| - 1], events[|events| - 1];
      var m := PoolRun(EMPTY_POOL, init);
      assert AlwaysWithinCapacity(EMPTY_POOL, init) <==> NeverBreaksCap(EMPTY_POOL, init) by { CapacityOverRuns(init); }
      assert PoolRun(EMPTY_POOL, events) == PoolStep(m, e);
      if NeverBreaksCap(EMPTY_POOL, init) {
        assert Inv(m) by { EmptyPoolInv(); RunKeepsInv(EMPTY_POOL, init); }
        assert WithinCapacity(m);
        assert WithinCapacity(PoolStep(m, e)) <==> !BreaksCap(m, e) by { CapacityStep(m, e); }
      }
    }
  }

  // ---------- removal ----------

  /** An address can be removed exactly when nothing unconsumed and no PENDING deposit refers to it. */
  lemma RemovalIsReferentiallySafe(p: Pool, id: nat)
    requires Inv(p) && Live(p.addresses, id)
    ensures RemoveAddress(p, id).1.Ok? <==>
      && (forall i :: 0 <= i < |p.allocations| && p.allocations[i].Some? && p.allocations[i].value.addressId == id
            ==> p.allocations[i].value.consumed)
      && (forall k :: 0 <= k < |p.records| && p.records[k].kind == DEPOSIT && p.records[k].status == PENDING
            ==> p.records[k].toAddress != p.addresses[id].value.address)
  {
    assert Totals(p, id);
    if p.addresses[id].value.pendingAmount == 0 {
      NothingPending(p, id);
    } else if (forall i :: 0 <= i < |p.allocations| && p.allocations[i].Some? && p.allocations[i].value.addressId == id
                 ==> p.allocations[i].value.consumed)
           && (forall k :: 0 <= k < |p.records| && p.records[k].kind == DEPOSIT && p.records[k].status == PENDING
                 ==> p.records[k].toAddress != p.addresses[id].value.address) {
      SumZero(p.allocations, UnconsumedAt(id));
      SumZero(p.records, PendingTo(p.addresses[id].value.address));
      assert false;
    }
  }

  // ---------- the fate of an allocation is decided once ----------

  /** Over any number of steps held may become anything, awaiting may be decided, everything else is final. */
  predicate MayBecome(f: Fate, f': Fate) {
    || f' == f
    || (f.Held? && (f'.Released? || f'.Awaiting? || f'.Approved? || f'.Rejected?))
    || (f.Awaiting? && (f' == Approved(f.record) || f' == Rejected(f.record)))
  }

  /** In one step: a claim and its decision are two. */
  predicate MayStep(f: Fate, f': Fate) {
    || f' == f
    || (f.Held? && (f'.Released? || f'.Awaiting?))
    || (f.Awaiting? && (f' == Approved(f.record) || f' == Rejected(f.record)))
  }

  lemma FateStep(p: Pool, e: PoolEvent, i: nat)
    requires Inv(p) && i < |p.trail|
    ensures var p' := PoolStep(p, e);
            && |p.trail| <= |p'.trail|
            && p'.trail[i] == p.trail[i].(fate := p'.trail[i].fate)
            && MayStep(p.trail[i].fate, p'.trail[i].fate)
  {
    assert RowAgrees(p.allocations[i], p.trail[i], p.now);
    if e.DoDecide? && e.k < |p.records| && p.records[e.k].status == PENDING {
      assert RecordAgrees(p, e.k);
    }
  }

  /** So no allocation is ever both released and consumed by a deposit, in either order. */
  lemma {:induction false} FateIsFinal(p: Pool, events: seq<PoolEvent>, i: nat)
    requires Inv(p) && i < |p.trail|
    ensures var p' := PoolRun(p, events);
            && |p.trail| <= |p'.trail|
            && p'.trail[i] == p.trail[i].(fate := p'.trail[i].fate)
            && MayBecome(p.trail[i].fate, p'.trail[i].fate)
            && (p.trail[i].fate.Released? ==> forall k :: 0 <= k < |p'.claims| ==> p'.claims[k] != Some(i))
  {
    RunKeepsInv(p, events);
    var p' := PoolRun(p, events);
    if events != [] {
      var init := events[..|events| - 1];
      FateIsFinal(p, init, i);
      RunKeepsInv(p, init);
      FateStep(PoolRun(p, init), events[|events| - 1], i);
    }
    forall k | 0 <= k < |p'.claims| && p.trail[i].fate.Released? ensures p'.claims[k] != Some(i) {
      assert RecordAgrees(p', k);
    }
  }

  // ---------- the release pass ----------

  function ReleaseOne(p: Pool, i: nat): Pool {
    if i < |p.allocations| && i < |p.trail| && p.allocations[i].Some? && Live(p.addresses, p.allocations[i].value.addressId)
    then p.(allocations := p.allocations[i := Consume(p.allocations[i])],
            addresses := AddPending(p.addresses, p.allocations[i].value.addressId, -p.allocations[i].value.amount),
            trail := p.trail[i := p.trail[i].(fate := Released(p.now))])
    else p
  }

  function ReleaseInOrder(p: Pool, order: seq<nat>): Pool {
    if order == [] then p else ReleaseOne(ReleaseInOrder(p, order[..|order| - 1]), order[|order| - 1])
  }

  ghost predicate AllExpired(p: Pool, order: seq<nat>) {
    && (forall n :: 0 <= n < |order| ==> order[n] < |p.allocations| && IsExpired(p.allocations[order[n]], p.now))
    && (forall m, n :: 0 <= m < n < |order| ==> order[m] != order[n])
  }

  /** `q` is `p` after the rows in `done` were released. */
  ghost predicate RowsReleased(p: Pool, q: Pool, done: seq<nat>) {
    && |q.allocations| == |p.allocations| && |q.trail| == |p.trail|
    && q.records == p.records && q.claims == p.claims && q.now == p.now
    && (forall i :: 0 <= i < |p.allocations| ==>
          q.allocations[i] == (if i in done then Consume(p.allocations[i]) else p.allocations[i]))
    && (forall i :: 0 <= i < |p.trail| ==>
          q.trail[i] == if i in done then p.trail[i].(fate := Released(p.now)) else p.trail[i])
  }

  ghost predicate TotalsReleased(p: Pool, q: Pool) {
    && |q.addresses| == |p.addresses|
    && (forall id :: 0 <= id < |p.addresses| ==> q.addresses[id] == TakeBack(p.addresses[id], TakenAt(p, q, id)))
  }

  ghost function TakenAt(p: Pool, q: Pool, id: nat): int {
    SumBy(p.allocations, ExpiredAt(id, p.now)) - SumBy(q.allocations, ExpiredAt(id, p.now))
  }

  lemma ReleasedOneMoreRow(p: Pool, m: Pool, done: seq<nat>, i: nat)
    requires Keys(p) && RowsReleased(p, m, done) && TotalsReleased(p, m)
    requires i < |p.allocations| && IsExpired(p.allocations[i], p.now) && i !in done
    ensures RowsReleased(p, ReleaseOne(m, i), done + [i])
    ensures TotalsReleased(p, ReleaseOne(m, i))
  {
    var q := ReleaseOne(m, i);
    var at := p.allocations[i].value.addressId;
    assert m.allocations[i] == p.allocations[i] && Live(p.addresses, at) && Live(m.addresses, at);
    assert RowsReleased(p, q, done + [i]);
    forall id | 0 <= id < |p.addresses| ensures q.addresses[id] == TakeBack(p.addresses[id], TakenAt(p, q, id)) {
      ReleasedOneMoreTotal(p, m, i, id);
    }
  }

  lemma ReleasedOneMoreTotal(p: Pool, m: Pool, i: nat, id: nat)
    requires Keys(p) && TotalsReleased(p, m) && id < |p.addresses|
    requires i < |p.allocations| == |m.allocations| && |m.trail| == |p.trail|
    requires IsExpired(p.allocations[i], p.now) && m.allocations[i] == p.allocations[i]
    ensures var q := ReleaseOne(m, i);
            |q.addresses| == |p.addresses| && q.addresses[id] == TakeBack(p.addresses[id], TakenAt(p, q, id))
  {
    var row := p.allocations[i].value;
    assert Live(p.addresses, row.addressId) && Live(m.addresses, row.addressId);
    SumUpdate(m.allocations, i, Consume(m.allocations[i]), ExpiredAt(id, p.now));
  }

  lemma AllExpiredParts(p: Pool, order: seq<nat>)
    requires order != [] && AllExpired(p, order)
    ensures var init, i := order[..|order| - 1], order[|order| - 1];
            AllExpired(p, init) && i < |p.allocations| && IsExpired(p.allocations[i], p.now) && i !in init
  {
  }

  lemma {:induction false} ReleasedSoFar(p: Pool, order: seq<nat>)
    requires Keys(p) && AllExpired(p, order)
    ensures RowsReleased(p, ReleaseInOrder(p, order), order) && TotalsReleased(p, ReleaseInOrder(p, order))
  {
    if order != [] {
      var init, i := order[..|order| - 1], order[|order| - 1];
      var m := ReleaseInOrder(p, init);
      assert ReleaseInOrder(p, order) == ReleaseOne(m, i);
      AllExpiredParts(p, order);
      assert RowsReleased(p, m, init) && TotalsReleased(p, m) by { ReleasedSoFar(p, init); }
      ReleasedOneMoreRow(p, m, init, i);
      assert order == init + [i];
    }
  }

  /** Grouping the decrements by address gives what releasing the same rows one at a time gives, in any order. */
  lemma ReleaseOrderIrrelevant(p: Pool, order: seq<nat>)
    requires Keys(p) && AllExpired(p, order)
    requires forall i :: 0 <= i < |p.allocations| && IsExpired(p.allocations[i], p.now) ==> i in order
    ensures ReleaseInOrder(p, order) == ReleaseExpired(p)
  {
    ReleasedSoFar(p, order);
    var q, r := ReleaseInOrder(p, order), ReleaseExpired(p);
    forall id | 0 <= id < |p.addresses| ensures q.addresses[id] == r.addresses[id] {
      SumZero(q.allocations, ExpiredAt(id, p.now));
    }
    assert q.addresses == r.addresses;
    assert q.allocations == r.allocations;
    assert q.trail == r.trail;
  }

  /** After the pass, whatever is unconsumed is unexpired; before it, exactly the expired rows are taken. */
  lemma ReleaseIsComplete(p: Pool, i: nat)
    requires i < |p.allocations| && p.allocations[i].Some?
    ensures var row, row' := p.allocations[i].value, PoolStep(p, DoRelease).allocations[i];
            && row'.Some?
            && (!row'.value.consumed <==> !row.consumed && row.expiresAt >= p.now)
            && row' == Some(row.(consumed := row'.value.consumed))
  {
  }

  // ---------- from allocation to deposit ----------

  /** The text and the network of an address never change, and a deleted address never comes back. */
  lemma AddressStep(p: Pool, e: PoolEvent, id: nat)
    requires id < |p.addresses| && Live(PoolStep(p, e).addresses, id)
    ensures var p' := PoolStep(p, e);
            && Live(p.addresses, id)
            && p'.addresses[id].value.address == p.addresses[id].value.address
            && p'.addresses[id].value.network == p.addresses[id].value.network
  {
  }

  lemma {:induction false} AddressOver(p: Pool, events: seq<PoolEvent>, id: nat)
    requires Inv(p) && id < |p.addresses| && Live(PoolRun(p, events).addresses, id)
    ensures var p' := PoolRun(p, events);
            && Live(p.addresses, id)
            && p'.addresses[id].value.address == p.addresses[id].value.address
            && p'.addresses[id].value.network == p.addresses[id].value.network
  {
    if events != [] {
      var init := events[..|events| - 1];
      AddressesStay(p, init);
      AddressStep(PoolRun(p, init), events[|events| - 1], id);
      AddressOver(p, init, id);
    }
  }

  lemma {:induction false} AddressesStay(p: Pool, events: seq<PoolEvent>)
    ensures |p.addresses| <= |PoolRun(p, events).addresses|
  {
    if events != [] {
      AddressesStay(p, events[..|events| - 1]);
      TableGrows(PoolRun(p, events[..|events| - 1]), events[|events| - 1]);
    }
  }

  lemma TableGrows(p: Pool, e: PoolEvent)
    ensures |p.addresses| <= |PoolStep(p, e).addresses|
  {
  }

  ghost predicate AllFormed(p: Pool) {
    forall id: nat :: Live(p.addresses, id) ==> WellFormed(p.addresses[id].value.address, p.addresses[id].value.network)
  }

  lemma FormedStep(p: Pool, e: PoolEvent)
    requires AllFormed(p)
    ensures AllFormed(PoolStep(p, e))
  {
    forall id: nat | Live(PoolStep(p, e).addresses, id)
      ensures WellFormed(PoolStep(p, e).addresses[id].value.address, PoolStep(p, e).addresses[id].value.network)
    {
      if id < |p.addresses| { AddressStep(p, e, id); }
    }
  }

  /** Both services check the same pattern, so the deposit form never rejects the text of a pool address. */
  lemma FormedOverRuns(events: seq<PoolEvent>)
    ensures AllFormed(PoolRun(EMPTY_POOL, events))
  {
    FormedOver(EMPTY_POOL, events);
  }

  /** Some allocation of the user fits a deposit of this amount to this address. */
  ghost predicate HasClaimable(p: Pool, user: UserId, id: nat, amount: int) {
    exists i :: 0 <= i < |p.allocations| && Claimable(p.allocations[i], user, id, amount, p.now)
  }

  /** What a deposit of a held allocation's amount to its address comes to. */
  lemma HeldDeposit(r: Pool, i: nat, id: nat, currency: Currency, txHash: string, original: int)
    requires Inv(r) && AllFormed(r) && i < |r.trail| && r.trail[i].fate.Held? && r.trail[i].addressId == id
    requires Live(r.addresses, id) ==> r.addresses[id].value.network == NetworkOf(currency)
    requires original > 0 && txHash != "" && !HashTaken(r.records, NetworkOf(currency), txHash)
    ensures Live(r.addresses, id)
    ensures var t, row := r.trail[i], r.addresses[id].value;
            var (d, outcome) := SubmitDeposit(r, t.userId, currency, NetworkOf(currency), txHash, row.address, t.amount, original);
            && (outcome == if !row.enabled || row.risk == RISKY then Err(DepositAddressUnavailable)
                           else if r.now <= t.expiresAt || HasClaimable(r, t.userId, id, t.amount) then Ok(|r.records|)
                           else Err(DepositAllocationExpired))
            && (outcome.Ok? && r.now > t.expiresAt ==> |d.claims| > 0 && d.claims[|d.claims| - 1] != Some(i))
  {
    var t := r.trail[i];
    assert RowAgrees(r.allocations[i], t, r.now);
    assert Live(r.addresses, id);
    assert r.now <= t.expiresAt ==> Claimable(r.allocations[i], t.userId, id, t.amount, r.now);
    assert FindByAddress(r.addresses, r.addresses[id].value.address) == Some(id);
  }

  /**
   From allocation on, whatever happens in between: for thirty minutes the units are not taken back. As long as
   they are held, the user's deposit to that address succeeds within the thirty minutes unless an administrator
   or the risk checker took the address out of use; afterwards it needs another allocation.
  */
  lemma AllocationWindow(p: Pool, user: UserId, amount: int, currency: Currency, events: seq<PoolEvent>, txHash: string, original: int)
    requires Inv(p) && AllFormed(p) && Allocate(p, user, amount, NetworkOf(currency)).1.Ok?
    requires original > 0 && txHash != ""
    requires !HashTaken(PoolRun(Allocate(p, user, amount, NetworkOf(currency)).0, events).records, NetworkOf(currency), txHash)
    ensures var network, i := NetworkOf(currency), |p.trail|;
            var (q, picked) := Allocate(p, user, amount, network);
            var r, id := PoolRun(q, events), picked.value;
            && i < |r.trail|
            && (r.now <= p.now + ALLOCATION_TTL ==> !r.trail[i].fate.Released?)
            && (r.trail[i].fate.Held? ==>
                  && Live(r.addresses, id) && r.addresses[id].value.address == q.addresses[id].value.address
                  && var row := r.addresses[id].value;
                     var (d, outcome) := SubmitDeposit(r, user, currency, network, txHash, row.address, amount, original);
                     && (outcome == if !row.enabled || row.risk == RISKY then Err(DepositAddressUnavailable)
                                    else if r.now <= p.now + ALLOCATION_TTL || HasClaimable(r, user, id, amount) then Ok(|r.records|)
                                    else Err(DepositAllocationExpired))
                     && (outcome.Ok? && r.now > p.now + ALLOCATION_TTL ==> |d.claims| > 0 && d.claims[|d.claims| - 1] != Some(i)))
  {
    var network, i := NetworkOf(currency), |p.trail|;
    var (q, picked) := Allocate(p, user, amount, network);
    var r := PoolRun(q, events);
    AfterAllocation(p, user, amount, network, events);
    if r.trail[i].fate.Held? {
      HeldDeposit(r, i, picked.value, currency, txHash, original);
    }
  }

  /** What survives of an allocation whatever happens after it. */
  lemma AfterAllocation(p: Pool, user: UserId, amount: int, network: Network, events: seq<PoolEvent>)
    requires Inv(p) && AllFormed(p) && Allocate(p, user, amount, network).1.Ok?
    ensures var i := |p.trail|;
            var (q, picked) := Allocate(p, user, amount, network);
            var r, id := PoolRun(q, events), picked.value;
            && Inv(r) && AllFormed(r) && i < |r.trail|
            && r.trail[i] == Trail(id, user, amount, p.now + ALLOCATION_TTL, r.trail[i].fate)
            && (r.now <= p.now + ALLOCATION_TTL ==> !r.trail[i].fate.Released?)
            && (Live(r.addresses, id) ==> r.addresses[id].value.address == q.addresses[id].value.address
                                          && r.addresses[id].value.network == network)
  {
    JustAllocated(p, user, amount, network);
    var (q, picked) := Allocate(p, user, amount, network);
    LongAfter(q, events, |p.trail|, picked.value);
  }

  lemma JustAllocated(p: Pool, user: UserId, amount: int, network: Network)
    requires Inv(p) && AllFormed(p) && Allocate(p, user, amount, network).1.Ok?
    ensures var i := |p.trail|;
            var (q, picked) := Allocate(p, user, amount, network);
            && Inv(q) && AllFormed(q) && i < |q.trail|
            && q.trail[i] == Trail(picked.value, user, amount, p.now + ALLOCATION_TTL, Held)
            && Live(q.addresses, picked.value) && q.addresses[picked.value].value.network == network
  {
    AllocateKeepsInv(p, user, amount, network);
    FormedStep(p, DoAllocate(user, amount, network));
  }

  lemma LongAfter(q: Pool, events: seq<PoolEvent>, i: nat, id: nat)
    requires Inv(q) && AllFormed(q) && i < |q.trail| && Live(q.addresses, id)
    ensures var r := PoolRun(q, events);
            && Inv(r) && AllFormed(r) && i < |r.trail|
            && r.trail[i] == q.trail[i].(fate := r.trail[i].fate)
            && (r.now <= q.trail[i].expiresAt ==> !r.trail[i].fate.Released?)
            && (Live(r.addresses, id) ==> r.addresses[id].value.address == q.addresses[id].value.address
                                          && r.addresses[id].value.network == q.addresses[id].value.network)
  {
    RunKeepsInv(q, events);
    FormedOver(q, events);
    NotReleasedEarly(q, events, i);
    if Live(PoolRun(q, events).addresses, id) {
      AddressOver(q, events, id);
    }
  }

  lemma NotReleasedEarly(q: Pool, events: seq<PoolEvent>, i: nat)
    requires Inv(q) && Inv(PoolRun(q, events)) && i < |q.trail|
    ensures var r := PoolRun(q, events);
            && i < |r.trail| && r.trail[i] == q.trail[i].(fate := r.trail[i].fate)
            && (r.now <= q.trail[i].expiresAt ==> !r.trail[i].fate.Released?)
  {
    FateIsFinal(q, events, i);
    assert RowAgrees(PoolRun(q, events).allocations[i], PoolRun(q, events).trail[i], PoolRun(q, events).now);
  }

  lemma {:induction false} FormedOver(p: Pool, events: seq<PoolEvent>)
    requires AllFormed(p)
    ensures AllFormed(PoolRun(p, events))
  {
    if events != [] {
      FormedOver(p, events[..|events| - 1]);
      FormedStep(PoolRun(p, events[..|events| - 1]), events[|events| - 1]);
    }
  }

  /** With nothing but time in between, the deposit consumes that very allocation. */
  lemma UndisturbedDeposit(p: Pool, user: UserId, amount: int, currency: Currency, txHash: string, original: int, ms: nat)
    requires Inv(p) && AllFormed(p) && original > 0 && txHash != "" && !HashTaken(p.records, NetworkOf(currency), txHash)
    requires Allocate(p, user, amount, NetworkOf(currency)).1.Ok?
    ensures var network := NetworkOf(currency);
            var (q, r) := Allocate(p, user, amount, network);
            var (d, outcome) := SubmitDeposit(PoolStep(q, Tick(ms)), user, currency, network, txHash,
                                              q.addresses[r.value].value.address, amount, original);
            && (outcome == if ms <= ALLOCATION_TTL then Ok(|p.records|) else Err(DepositAllocationExpired))
            && (outcome.Ok? ==> d.claims == p.claims + [Some(|p.allocations|)])
  {
    var network := NetworkOf(currency);
    var (q, r) := Allocate(p, user, amount, network);
    AllocateKeepsInv(p, user, amount, network);
    var later := PoolStep(q, Tick(ms));
    forall i | 0 <= i < |later.allocations| && ms > ALLOCATION_TTL
      ensures !Claimable(later.allocations[i], user, r.value, amount, later.now)
    {
      assert RowAgrees(q.allocations[i], q.trail[i], q.now);
    }
    assert FindByAddress(later.addresses, q.addresses[r.value].value.address) == Some(r.value);
  }
}
