/** The deposit address service as it runs: tables updated in place, proved against the atomic steps. */
module DepositAddressService {
  import opened Wrappers
  import opened Tally
  import opened DepositPool
  import opened DepositPoolLaws
  import opened DepositPick

  /** The rows both services read and write. */
  class Database {
    var addresses: seq<Option<Address>>
    var allocations: seq<Option<Allocation>>
    var records: seq<FundingRecord>
    var now: int
    ghost var trail: seq<Trail>
    ghost var claims: seq<Option<nat>>

    ghost function State(): Pool
      reads this
    {
      Pool(addresses, allocations, records, now, trail, claims)
    }

    constructor ()
      ensures State() == EMPTY_POOL
    {
      addresses, allocations, records, now := [], [], [], 0;
      trail, claims := [], [];
    }
  }

  class Service {
    const db: Database

    constructor (db: Database)
      ensures this.db == db
    {
      this.db := db;
    }

    method Create(network: Network, text: string, minAmount: nat, maxAmount: Option<nat>, capacity: Option<nat>,
                  enabled: bool, sortOrder: int) returns (r: Result<nat, PoolError>)
      modifies db
      ensures (db.State(), r) == CreateAddress(old(db.State()), network, text, minAmount, maxAmount, capacity, enabled, sortOrder)
    {
      if maxAmount.Some? && maxAmount.value < minAmount {
        return Err(InvalidDepositRange);
      }
      if !WellFormed(text, network) {
        return Err(InvalidDepositAddress);
      }
      if FindByAddress(db.addresses, text).Some? {
        return Err(DepositAddressExists);
      }
      r := Ok(|db.addresses|);
      db.addresses := db.addresses
        + [Some(Address(network, text, minAmount, maxAmount, capacity, 0, 0, enabled, UNKNOWN, sortOrder, db.now))];
    }

    method Update(id: nat, patch: AddressPatch) returns (r: Result<nat, PoolError>)
      modifies db
      ensures (db.State(), r) == UpdateAddress(old(db.State()), id, patch)
    {
      if id >= |db.addresses| || db.addresses[id].None? {
        return Err(DepositAddressNotFound);
      }
      var existing := db.addresses[id].value;
      var nextMin := if patch.minAmount.Some? then patch.minAmount.value else existing.minAmount;
      var nextMax := if patch.maxAmount.Some? then patch.maxAmount.value else existing.maxAmount;
      if nextMax.Some? && nextMax.value < nextMin {
        return Err(InvalidDepositRange);
      }
      var updated := existing.(minAmount := nextMin, maxAmount := nextMax);
      if patch.capacity.Some? {
        updated := updated.(capacity := patch.capacity.value);
      }
      if patch.enabled.Some? {
        updated := updated.(enabled := patch.enabled.value);
      }
      if patch.sortOrder.Some? {
        updated := updated.(sortOrder := patch.sortOrder.value);
      }
      db.addresses := db.addresses[id := Some(updated)];
      r := Ok(id);
    }

    method Remove(id: nat) returns (r: Result<nat, PoolError>)
      modifies db
      ensures (db.State(), r) == RemoveAddress(old(db.State()), id)
    {
      ghost var p := db.State();
      if id >= |db.addresses| || db.addresses[id].None? {
        return Err(DepositAddressNotFound);
      }
      if db.addresses[id].value.pendingAmount != 0 {
        return Err(DepositAddressHasPending);
      }
      db.addresses := db.addresses[id := None];
      var n := 0;
      while n < |db.allocations|
        invariant 0 <= n <= |db.allocations| == |p.allocations|
        invariant forall i :: 0 <= i < |p.allocations| ==>
          db.allocations[i] == if i < n then DropAllocations(p.allocations, id)[i] else p.allocations[i]
        invariant db.addresses == p.addresses[id := None] && db.records == p.records && db.now == p.now
        invariant db.trail == p.trail && db.claims == p.claims
      {
        if db.allocations[n].Some? && db.allocations[n].value.addressId == id {
          db.allocations := db.allocations[n := None];
        }
        n := n + 1;
      }
      assert db.allocations == DropAllocations(p.allocations, id);
      r := Ok(id);
    }

    method AllocateForUser(user: UserId, amount: int, network: Network) returns (r: Result<nat, PoolError>)
      modifies db
      ensures (db.State(), r) == Allocate(old(db.State()), user, amount, network)
      ensures r.Ok? ==> IsLeast(old(db.State()), user, amount, network, |old(db.addresses)|, r.value)
      ensures r == Err(NoAvailableDepositAddress) <==>
                amount > 0 && forall j :: 0 <= j < |old(db.addresses)| ==> !Fits(old(db.addresses)[j], amount, network)
    {
      if amount <= 0 {
        return Err(InvalidAmount);
      }
      ghost var p := db.State();
      PickIsLeast(p, user, amount, network, |p.addresses|);
      var fits := FittingRows(amount, network);
      if fits == [] {
        return Err(NoAvailableDepositAddress);
      }
      var among := set id | id in fits :: db.addresses[id].value.address;
      assert among == FittingTexts(p.addresses, amount, network);
      var recent := RecentlyUsed(user, among);
      var active := ActivelyHeld(user);
      var picked := FirstSorted(user, amount, network, fits, recent, active);
      LeastIsThePick(p, user, amount, network, picked);
      ReserveAt(user, amount, picked);
      r := Ok(picked);
    }

    /** The two writes of an allocation. */
    method ReserveAt(user: UserId, amount: int, id: nat)
      requires Live(db.addresses, id)
      modifies db
      ensures db.State() == Reserve(old(db.State()), user, amount, id)
    {
      var row := db.addresses[id].value;
      db.addresses := db.addresses[id := Some(row.(pendingAmount := row.pendingAmount + amount))];
      db.allocations := db.allocations + [Some(Allocation(id, user, amount, db.now + ALLOCATION_TTL, false))];
      db.trail := db.trail + [Trail(id, user, amount, db.now + ALLOCATION_TTL, Held)];
    }

    /** The candidate query and the capacity filter, in table order. */
    method FittingRows(amount: int, network: Network) returns (fits: seq<nat>)
      ensures forall x: nat :: x in fits <==> x < |db.addresses| && Fits(db.addresses[x], amount, network)
      ensures forall a, b :: 0 <= a < b < |fits| ==> fits[a] < fits[b]
    {
      fits := [];
      for i := 0 to |db.addresses|
        invariant forall x: nat :: x in fits <==> x < i && Fits(db.addresses[x], amount, network)
        invariant forall a :: 0 <= a < |fits| ==> fits[a] < i
        invariant forall a, b :: 0 <= a < b < |fits| ==> fits[a] < fits[b]
      {
        if Fits(db.addresses[i], amount, network) {
          assert forall x: nat :: x in fits ==> x < i;
          fits := fits + [i];
        }
      }
    }

    method RecentlyUsed(user: UserId, among: set<string>) returns (recent: set<string>)
      ensures recent == RecentTargets(db.records, user, among, RECENT_DEPOSITS)
    {
      recent := {};
      var k, take: nat := |db.records|, RECENT_DEPOSITS;
      assert db.records[..k] == db.records;
      while k > 0 && take > 0
        invariant 0 <= k <= |db.records|
        invariant RecentTargets(db.records, user, among, RECENT_DEPOSITS)
               == recent + RecentTargets(db.records[..k], user, among, take)
      {
        k := k - 1;
        assert db.records[..k + 1][..k] == db.records[..k];
        if IsRecent(db.records[k], user, among) {
          recent, take := recent + {db.records[k].toAddress}, take - 1;
        }
      }
    }

    method ActivelyHeld(user: UserId) returns (active: set<nat>)
      ensures forall id: nat :: id in active <==> HasActive(db.State(), user, id)
    {
      active := {};
      for n := 0 to |db.allocations|
        invariant forall id: nat :: id in active <==>
          exists i :: 0 <= i < n && HoldsActive(db.allocations[i], user, id, db.now)
      {
        var row := db.allocations[n];
        if row.Some? && HoldsActive(row, user, row.value.addressId, db.now) {
          active := active + {row.value.addressId};
        }
      }
    }

    /** The head of the stable sort. */
    method FirstSorted(user: UserId, amount: int, network: Network, fits: seq<nat>,
                       recent: set<string>, active: set<nat>) returns (picked: nat)
      requires fits != []
      requires forall x: nat :: x in fits <==> x < |db.addresses| && Fits(db.addresses[x], amount, network)
      requires forall a, b :: 0 <= a < b < |fits| ==> fits[a] < fits[b]
      requires recent == RecentTargets(db.records, user, FittingTexts(db.addresses, amount, network), RECENT_DEPOSITS)
      requires forall id: nat :: id in active <==> HasActive(db.State(), user, id)
      ensures IsLeast(db.State(), user, amount, network, |db.addresses|, picked)
    {
      ghost var p := db.State();
      picked := fits[0];
      var n := 1;
      assert forall m :: 0 <= m < |fits| ==> fits[m] in fits;
      while n < |fits|
        invariant 1 <= n <= |fits|
        invariant picked in fits[..n]
        invariant forall m :: 0 <= m < n ==> Live(p.addresses, fits[m])
        invariant forall m :: 0 <= m < n && fits[m] != picked ==> Before(p, user, amount, network, picked, fits[m])
      {
        var next := fits[n];
        assert next in fits && picked in fits;
        var a, b := db.addresses[next].value, db.addresses[picked].value;
        var aUsed, bUsed := a.address in recent || next in active, b.address in recent || picked in active;
        if (!aUsed && bUsed)
           || (aUsed == bUsed && a.sortOrder < b.sortOrder)
           || (aUsed == bUsed && a.sortOrder == b.sortOrder && a.createdAt < b.createdAt) {
          assert Before(p, user, amount, network, next, picked);
          forall m | 0 <= m < n && fits[m] != picked ensures Before(p, user, amount, network, next, fits[m]) {
            assert fits[m] in fits;
            BeforeIsTransitive(p, user, amount, network, next, picked, fits[m]);
          }
          picked := next;
        } else {
          assert picked < next;
          assert Before(p, user, amount, network, picked, next);
        }
        n := n + 1;
      }
      forall j | 0 <= j < |db.addresses| && j != picked && Fits(db.addresses[j], amount, network)
        ensures Before(p, user, amount, network, picked, j)
      {
        assert j in fits;
      }
    }

    /** Collects the expired rows, groups their amounts by address, marks them, then pays each address back once. */
    method ReleaseExpiredAllocations() returns (released: nat)
      modifies db
      requires Keys(db.State())
      ensures db.State() == ReleaseExpired(old(db.State()))
      ensures released == SumBy(old(db.allocations), ExpiredCount(old(db.now)))
    {
      var rows := db.allocations;
      var decrements: map<nat, int>;
      released, decrements := GroupExpired();
      db.allocations := ConsumeExpired(rows, db.now);
      db.trail := TrailReleased(db.trail, rows, db.now);
      PayBack(rows, decrements);
    }

    /** One decrement per key of the map, in whatever order the keys come. */
    method PayBack(ghost rows: seq<Option<Allocation>>, decrements: map<nat, int>)
      requires forall id :: id in decrements ==> Live(db.addresses, id)
      requires forall id: nat :: SumBy(rows, ExpiredAt(id, db.now)) == if id in decrements then decrements[id] else 0
      modifies db`addresses
      ensures db.addresses == ReturnExpired(old(db.addresses), rows, db.now)
    {
      ghost var before := db.addresses;
      var rest := decrements.Keys;
      while rest != {}
        invariant rest <= decrements.Keys
        invariant |db.addresses| == |before|
        invariant forall id :: 0 <= id < |before| ==> db.addresses[id] == PaidBack(before[id], id, rest, decrements)
        decreases |rest|
      {
        var id :| id in rest;
        db.addresses := AddPending(db.addresses, id, -decrements[id]);
        rest := rest - {id};
      }
    }

    method GroupExpired() returns (released: nat, decrements: map<nat, int>)
      requires Keys(db.State())
      ensures released == SumBy(db.allocations, ExpiredCount(db.now))
      ensures forall id :: id in decrements ==> Live(db.addresses, id)
      ensures forall id: nat :: SumBy(db.allocations, ExpiredAt(id, db.now)) == if id in decrements then decrements[id] else 0
    {
      released, decrements := 0, map[];
      var rows := db.allocations;
      for n := 0 to |rows|
        invariant released == SumBy(rows[..n], ExpiredCount(db.now))
        invariant forall id :: id in decrements ==> Live(db.addresses, id)
        invariant forall id: nat :: SumBy(rows[..n], ExpiredAt(id, db.now)) == if id in decrements then decrements[id] else 0
      {
        assert rows[..n + 1] == rows[..n] + [rows[n]];
        SumAppend(rows[..n], rows[n], ExpiredCount(db.now));
        forall id: nat
          ensures SumBy(rows[..n + 1], ExpiredAt(id, db.now)) == SumBy(rows[..n], ExpiredAt(id, db.now)) + ExpiredAt(id, db.now)(rows[n])
        {
          SumAppend(rows[..n], rows[n], ExpiredAt(id, db.now));
        }
        if IsExpired(rows[n], db.now) {
          var at := rows[n].value.addressId;
          var sofar := if at in decrements then decrements[at] else 0;
          released, decrements := released + 1, decrements[at := sofar + rows[n].value.amount];
        }
      }
      assert rows[..|rows|] == rows;
    }

    /** Marks the latest matching allocation; the caller decides what a miss means. */
    method ConsumeAllocation(user: UserId, text: string, amount: int, ghost record: nat)
      returns (done: bool, ghost claimed: Option<nat>)
      requires |db.trail| == |db.allocations|
      modifies db`allocations, db`trail
      ensures var found := FindByAddress(db.addresses, text);
              claimed == if found.None? then None
                         else LatestClaimable(old(db.allocations), user, found.value, amount, db.now)
      ensures done == claimed.Some?
      ensures done ==> claimed.value < |old(db.allocations)|
      ensures done ==> db.allocations == old(db.allocations)[claimed.value := Consume(old(db.allocations)[claimed.value])]
      ensures db.trail == SetFate(old(db.trail), claimed, Awaiting(record))
      ensures !done ==> db.allocations == old(db.allocations)
    {
      claimed := None;
      var found := FindByAddress(db.addresses, text);
      if found.None? {
        return false, None;
      }
      var latest := LatestClaimable(db.allocations, user, found.value, amount, db.now);
      if latest.None? {
        return false, None;
      }
      db.allocations := db.allocations[latest.value := Consume(db.allocations[latest.value])];
      db.trail := SetFate(db.trail, latest, Awaiting(record));
      return true, latest;
    }

    method ApplyReviewOutcome(text: string, amount: int, approve: bool)
      modifies db`addresses
      ensures db.addresses == ApplyOutcome(old(db.addresses), text, amount, approve)
    {
      var found := FindByAddress(db.addresses, text);
      if found.None? {
        return;
      }
      var row := db.addresses[found.value].value;
      if approve {
        row := row.(pendingAmount := row.pendingAmount - amount, usedAmount := row.usedAmount + amount);
      } else {
        row := row.(pendingAmount := row.pendingAmount - amount);
      }
      db.addresses := db.addresses[found.value := Some(row)];
    }
  }

  /** An address already paid back, or still to be. */
  function PaidBack(row: Option<Address>, id: nat, rest: set<nat>, decrements: map<nat, int>): Option<Address> {
    if id in rest || id !in decrements then row else TakeBack(row, decrements[id])
  }
}
