/** What every step of the deposit pool keeps: quota totals, references and the fate of each unit. */
module DepositPoolLaws {
  import opened Wrappers
  import opened Tally
  import opened DepositPool

  // ---------- weights ----------

  function UnconsumedAt(id: nat): Option<Allocation> -> int {
    (row: Option<Allocation>) => if row.Some? && !row.value.consumed && row.value.addressId == id then row.value.amount else 0
  }

  function PendingTo(text: string): FundingRecord -> int {
    (record: FundingRecord) => if record.kind == DEPOSIT && record.status == PENDING && record.toAddress == text then record.amount else 0
  }

  function HeldAt(id: nat): Trail -> int {
    (t: Trail) => if t.addressId == id && t.fate.Held? then t.amount else 0
  }

  function ReleasedAt(id: nat): Trail -> int {
    (t: Trail) => if t.addressId == id && t.fate.Released? then t.amount else 0
  }

  function AwaitingAt(id: nat): Trail -> int {
    (t: Trail) => if t.addressId == id && t.fate.Awaiting? then t.amount else 0
  }

  function ApprovedAt(id: nat): Trail -> int {
    (t: Trail) => if t.addressId == id && t.fate.Approved? then t.amount else 0
  }

  function RejectedAt(id: nat): Trail -> int {
    (t: Trail) => if t.addressId == id && t.fate.Rejected? then t.amount else 0
  }

  function AllocatedAt(id: nat): Trail -> int {
    (t: Trail) => if t.addressId == id then t.amount else 0
  }

  // ---------- the invariant ----------

  /** Addresses are unique, amounts positive, and every allocation row points at a live address. */
  ghost predicate Keys(p: Pool) {
    && |p.trail| == |p.allocations|
    && |p.claims| == |p.records|
    && (forall i: nat, j: nat :: Live(p.addresses, i) && Live(p.addresses, j) && i != j ==>
          p.addresses[i].value.address != p.addresses[j].value.address)
    && (forall i :: 0 <= i < |p.allocations| && p.allocations[i].Some? ==>
          p.allocations[i].value.amount > 0 && Live(p.addresses, p.allocations[i].value.addressId))
    && (forall k :: 0 <= k < |p.records| ==> p.records[k].amount > 0)
    && (forall i :: 0 <= i < |p.trail| ==> p.trail[i].amount > 0 && p.trail[i].addressId < |p.addresses|)
  }

  /** The history of an allocation agrees with its row; a deleted row held nothing and owed nothing. */
  ghost predicate RowAgrees(row: Option<Allocation>, t: Trail, now: int) {
    && (row.Some? ==>
          row.value == Allocation(t.addressId, t.userId, t.amount, t.expiresAt, !t.fate.Held?))
    && (row.None? ==> !t.fate.Held? && !t.fate.Awaiting?)
    && (t.fate.Released? ==> t.expiresAt < t.fate.at <= now)
    && t.expiresAt <= now + ALLOCATION_TTL
  }

  function FateOf(status: FundingStatus, k: nat): Fate {
    match status
    case PENDING => Awaiting(k)
    case COMPLETED => Approved(k)
    case FAILED => Rejected(k)
  }

  /** A deposit owns one allocation of its own user, amount and address, taken before it expired. */
  ghost predicate RecordAgrees(p: Pool, k: nat)
    requires k < |p.records| && k < |p.claims|
  {
    var record, claim := p.records[k], p.claims[k];
    if record.kind == WITHDRAW then claim.None?
    else
      && claim.Some? && claim.value < |p.trail| && claim.value < |p.allocations|
      && var t := p.trail[claim.value];
         && t.fate == FateOf(record.status, k)
         && t.userId == record.userId && t.amount == record.amount && record.createdAt <= t.expiresAt
         && (record.status == PENDING ==>
               Live(p.addresses, t.addressId) && p.addresses[t.addressId].value.address == record.toAddress)
  }

  /** A fate that names a record is claimed by that record. */
  ghost predicate FateAgrees(p: Pool, i: nat)
    requires i < |p.trail|
  {
    var fate := p.trail[i].fate;
    fate.Awaiting? || fate.Approved? || fate.Rejected? ==>
      fate.record < |p.claims| && p.claims[fate.record] == Some(i)
  }

  ghost predicate Linked(p: Pool)
    requires Keys(p)
  {
    && (forall i :: 0 <= i < |p.trail| ==> RowAgrees(p.allocations[i], p.trail[i], p.now) && FateAgrees(p, i))
    && (forall k :: 0 <= k < |p.records| ==> RecordAgrees(p, k))
  }

  /** The running totals of one address row against the tables they summarise. */
  ghost predicate Totals(p: Pool, id: nat)
    requires Live(p.addresses, id)
  {
    var row := p.addresses[id].value;
    && row.pendingAmount == SumBy(p.allocations, UnconsumedAt(id)) + SumBy(p.records, PendingTo(row.address))
    && SumBy(p.records, PendingTo(row.address)) == SumBy(p.trail, AwaitingAt(id))
    && row.usedAmount == SumBy(p.trail, ApprovedAt(id))
  }

  ghost predicate Inv(p: Pool) {
    Keys(p) && Linked(p) && forall id: nat :: Live(p.addresses, id) ==> Totals(p, id)
  }

  lemma EmptyPoolInv()
    ensures Inv(EMPTY_POOL)
  {
  }

  // ---------- one lemma per kind of step ----------

  /** Rewriting a row without touching its text or totals keeps everything. */
  lemma TouchKeepsInv(p: Pool, id: nat, row: Address)
    requires Inv(p) && Live(p.addresses, id)
    requires row.address == p.addresses[id].value.address
    requires row.pendingAmount == p.addresses[id].value.pendingAmount
    requires row.usedAmount == p.addresses[id].value.usedAmount
    ensures Inv(p.(addresses := p.addresses[id := Some(row)]))
  {
    var p' := p.(addresses := p.addresses[id := Some(row)]);
    forall j: nat | Live(p'.addresses, j) ensures Totals(p', j) {
      assert Totals(p, j);
    }
    forall k | 0 <= k < |p.records| ensures RecordAgrees(p', k) {
      assert RecordAgrees(p, k);
    }
    forall i | 0 <= i < |p.trail| ensures FateAgrees(p', i) {
      assert FateAgrees(p, i);
    }
  }

  /** Nothing refers to a row that is not there yet. */
  lemma NewRowIsUnused(p: Pool, text: string)
    requires Inv(p) && FindByAddress(p.addresses, text).None?
    ensures var n := |p.addresses|;
            && SumBy(p.records, PendingTo(text)) == 0 && SumBy(p.allocations, UnconsumedAt(n)) == 0
            && SumBy(p.trail, AwaitingAt(n)) == 0 && SumBy(p.trail, ApprovedAt(n)) == 0
  {
    var n := |p.addresses|;
    forall k | 0 <= k < |p.records| ensures PendingTo(text)(p.records[k]) == 0 {
      assert RecordAgrees(p, k);
    }
    SumZero(p.records, PendingTo(text));
    SumZero(p.allocations, UnconsumedAt(n));
    SumZero(p.trail, AwaitingAt(n));
    SumZero(p.trail, ApprovedAt(n));
  }

  lemma CreateKeepsInv(p: Pool, row: Address)
    requires Inv(p)
    requires FindByAddress(p.addresses, row.address).None?
    requires row.pendingAmount == 0 && row.usedAmount == 0
    ensures Inv(p.(addresses := p.addresses + [Some(row)]))
  {
    var n := |p.addresses|;
    var p' := p.(addresses := p.addresses + [Some(row)]);
    forall k | 0 <= k < |p.records| ensures RecordAgrees(p', k) {
      assert RecordAgrees(p, k);
    }
    forall i | 0 <= i < |p.trail| ensures FateAgrees(p', i) {
      assert FateAgrees(p, i);
    }
    NewRowIsUnused(p, row.address);
    forall j: nat | Live(p'.addresses, j) ensures Totals(p', j) {
      if j < n { assert Live(p.addresses, j) && Totals(p, j); }
    }
  }

  /** With nothing pending at an address, no unconsumed allocation and no PENDING deposit refers to it. */
  lemma NothingPending(p: Pool, id: nat)
    requires Inv(p) && Live(p.addresses, id) && p.addresses[id].value.pendingAmount == 0
    ensures forall i :: 0 <= i < |p.allocations| && p.allocations[i].Some? && p.allocations[i].value.addressId == id
              ==> p.allocations[i].value.consumed
    ensures forall k :: 0 <= k < |p.records| && p.records[k].kind == DEPOSIT && p.records[k].status == PENDING
              ==> p.records[k].toAddress != p.addresses[id].value.address
  {
    var text := p.addresses[id].value.address;
    assert Totals(p, id);
    SumBounds(p.allocations, UnconsumedAt(id));
    SumBounds(p.records, PendingTo(text));
    forall i | 0 <= i < |p.allocations| && p.allocations[i].Some? && p.allocations[i].value.addressId == id
      ensures p.allocations[i].value.consumed
    {
      assert UnconsumedAt(id)(p.allocations[i]) <= 0;
    }
    forall k | 0 <= k < |p.records| && p.records[k].kind == DEPOSIT && p.records[k].status == PENDING
      ensures p.records[k].toAddress != text
    {
      assert PendingTo(text)(p.records[k]) <= 0;
    }
  }

  lemma RemoveKeepsInv(p: Pool, id: nat)
    requires Inv(p) && Live(p.addresses, id) && p.addresses[id].value.pendingAmount == 0
    ensures Inv(RemoveAddress(p, id).0)
  {
    var p' := RemoveAddress(p, id).0;
    NothingPending(p, id);
    forall k | 0 <= k < |p.records| ensures RecordAgrees(p', k) {
      assert RecordAgrees(p, k);
    }
    forall i | 0 <= i < |p.trail| ensures RowAgrees(p'.allocations[i], p'.trail[i], p'.now) && FateAgrees(p', i) {
      assert RowAgrees(p.allocations[i], p.trail[i], p.now) && FateAgrees(p, i);
      if p.trail[i].fate.Awaiting? {
        var k := p.trail[i].fate.record;
        assert RecordAgrees(p, k);
      }
    }
    forall j: nat | Live(p'.addresses, j) ensures Totals(p', j) {
      assert Live(p.addresses, j) && Totals(p, j);
      SumSame(p.allocations, p'.allocations, UnconsumedAt(j), UnconsumedAt(j));
    }
  }

  /** The increment and the new row go together, whatever else happened since the address was picked. */
  lemma ReserveKeepsInv(p: Pool, user: UserId, amount: int, id: nat)
    requires Inv(p) && amount > 0 && Live(p.addresses, id)
    ensures Inv(Reserve(p, user, amount, id))
  {
    var p' := Reserve(p, user, amount, id);
    var row, t := p'.allocations[|p.allocations|], p'.trail[|p.trail|];
    forall k | 0 <= k < |p.records| ensures RecordAgrees(p', k) {
      assert RecordAgrees(p, k);
    }
    forall i | 0 <= i < |p'.trail| ensures RowAgrees(p'.allocations[i], p'.trail[i], p'.now) && FateAgrees(p', i) {
      if i < |p.trail| { assert RowAgrees(p.allocations[i], p.trail[i], p.now) && FateAgrees(p, i); }
    }
    forall j: nat | Live(p'.addresses, j) ensures Totals(p', j) {
      assert Live(p.addresses, j) && Totals(p, j);
      SumAppend(p.allocations, row, UnconsumedAt(j));
      SumAppend(p.trail, t, AwaitingAt(j));
      SumAppend(p.trail, t, ApprovedAt(j));
    }
  }

  lemma AllocateKeepsInv(p: Pool, user: UserId, amount: int, network: Network)
    requires Inv(p)
    ensures Inv(Allocate(p, user, amount, network).0)
  {
    var r := Allocate(p, user, amount, network).1;
    if r.Ok? {
      ReserveKeepsInv(p, user, amount, r.value);
    }
  }

  lemma ReleaseKeepsLinks(p: Pool)
    requires Inv(p)
    ensures Keys(ReleaseExpired(p)) && Linked(ReleaseExpired(p))
  {
    var p' := ReleaseExpired(p);
    assert Keys(p');
    forall k | 0 <= k < |p.records| ensures RecordAgrees(p', k) {
      assert RecordAgrees(p, k);
      if p.records[k].kind == DEPOSIT {
        assert RowAgrees(p.allocations[p.claims[k].value], p.trail[p.claims[k].value], p.now);
      }
    }
    forall i | 0 <= i < |p.trail| ensures RowAgrees(p'.allocations[i], p'.trail[i], p'.now) && FateAgrees(p', i) {
      assert RowAgrees(p.allocations[i], p.trail[i], p.now) && FateAgrees(p, i);
    }
  }

  lemma ReleaseKeepsTotals(p: Pool, id: nat)
    requires Inv(p) && Live(p.addresses, id)
    ensures Totals(ReleaseExpired(p), id)
  {
    var p' := ReleaseExpired(p);
    assert Totals(p, id);
    SumSplit(p.allocations, p'.allocations, UnconsumedAt(id), UnconsumedAt(id), ExpiredAt(id, p.now));
    forall i | 0 <= i < |p.trail|
      ensures AwaitingAt(id)(p.trail[i]) == AwaitingAt(id)(p'.trail[i])
      ensures ApprovedAt(id)(p.trail[i]) == ApprovedAt(id)(p'.trail[i])
    {
      assert RowAgrees(p.allocations[i], p.trail[i], p.now);
    }
    SumSame(p.trail, p'.trail, AwaitingAt(id), AwaitingAt(id));
    SumSame(p.trail, p'.trail, ApprovedAt(id), ApprovedAt(id));
  }

  lemma ReleaseKeepsInv(p: Pool)
    requires Inv(p)
    ensures Inv(ReleaseExpired(p))
  {
    ReleaseKeepsLinks(p);
    forall id: nat | Live(ReleaseExpired(p).addresses, id) ensures Totals(ReleaseExpired(p), id) {
      ReleaseKeepsTotals(p, id);
    }
  }

  /** Allocation `c` becomes the claim of a new PENDING deposit to its own address. */
  ghost predicate Submitted(p: Pool, p': Pool, c: nat, id: nat)
    requires c < |p.allocations|
  {
    var n, row := |p.records|, p.allocations[c];
    && row.Some? && Claimable(row, row.value.userId, id, row.value.amount, p.now)
    && Live(p.addresses, id)
    && c < |p.trail|
    && p'.addresses == p.addresses && p'.now == p.now
    && p'.allocations == p.allocations[c := Consume(p.allocations[c])]
    && |p'.records| == n + 1 && p'.records[..n] == p.records
    && p'.records[n].kind == DEPOSIT && p'.records[n].status == PENDING && p'.records[n].createdAt == p.now
    && p'.records[n].userId == row.value.userId && p'.records[n].amount == row.value.amount
    && p'.records[n].toAddress == p.addresses[id].value.address
    && p'.trail == p.trail[c := p.trail[c].(fate := Awaiting(n))]
    && p'.claims == p.claims + [Some(c)]
  }

  lemma SubmittedLinks(p: Pool, p': Pool, c: nat, id: nat)
    requires Inv(p) && c < |p.allocations| && p.allocations[c].Some? && Submitted(p, p', c, id)
    ensures Keys(p') && Linked(p')
  {
    var n := |p.records|;
    assert RowAgrees(p.allocations[c], p.trail[c], p.now);
    forall k | 0 <= k < n ensures p'.records[k] == p.records[k] { assert p'.records[..n][k] == p'.records[k]; }
    forall k | 0 <= k < |p'.records| ensures RecordAgrees(p', k) {
      if k < n { assert RecordAgrees(p, k); }
    }
    forall i | 0 <= i < |p'.trail| ensures RowAgrees(p'.allocations[i], p'.trail[i], p'.now) && FateAgrees(p', i) {
      assert RowAgrees(p.allocations[i], p.trail[i], p.now) && FateAgrees(p, i);
    }
  }

  lemma SubmittedTotals(p: Pool, p': Pool, c: nat, id: nat, j: nat)
    requires Inv(p) && c < |p.allocations| && p.allocations[c].Some? && Submitted(p, p', c, id)
    requires Live(p.addresses, j)
    ensures Totals(p', j)
  {
    var n := |p.records|;
    assert Totals(p, j) && RowAgrees(p.allocations[c], p.trail[c], p.now);
    assert p'.records == p.records + [p'.records[n]];
    SumUpdate(p.allocations, c, p'.allocations[c], UnconsumedAt(j));
    SumAppend(p.records, p'.records[n], PendingTo(p.addresses[j].value.address));
    SumUpdate(p.trail, c, p'.trail[c], AwaitingAt(j));
    SumUpdate(p.trail, c, p'.trail[c], ApprovedAt(j));
  }

  lemma DepositKeepsInv(p: Pool, user: UserId, currency: Currency, network: Network, txHash: string, text: string, amount: int, original: int)
    requires Inv(p)
    ensures Inv(SubmitDeposit(p, user, currency, network, txHash, text, amount, original).0)
  {
    var (p', r) := SubmitDeposit(p, user, currency, network, txHash, text, amount, original);
    if r.Ok? {
      var id := FindByAddress(p.addresses, text).value;
      var c := LatestClaimable(p.allocations, user, id, amount, p.now).value;
      assert Submitted(p, p', c, id);
      SubmittedLinks(p, p', c, id);
      forall j: nat | Live(p'.addresses, j) ensures Totals(p', j) {
        SubmittedTotals(p, p', c, id, j);
      }
    }
  }

  lemma WithdrawKeepsInv(p: Pool, user: UserId, verified: bool, seen: int, currency: Currency, network: Network, text: string, amount: int, original: int)
    requires Inv(p)
    ensures Inv(SubmitWithdraw(p, user, verified, seen, currency, network, text, amount, original).0)
  {
    var (p', r) := SubmitWithdraw(p, user, verified, seen, currency, network, text, amount, original);
    if r.Ok? {
      var n := |p.records|;
      forall k | 0 <= k < |p'.records| ensures RecordAgrees(p', k) {
        if k < n { assert RecordAgrees(p, k); }
      }
      forall i | 0 <= i < |p'.trail| ensures FateAgrees(p', i) {
        assert FateAgrees(p, i);
      }
      forall j: nat | Live(p'.addresses, j) ensures Totals(p', j) {
        assert Totals(p, j);
        SumAppend(p.records, p'.records[n], PendingTo(p.addresses[j].value.address));
      }
    }
  }

  /** A PENDING deposit always finds the address row its allocation reserved. */
  lemma PendingDepositFindsItsRow(p: Pool, k: nat)
    requires Inv(p) && k < |p.records| && p.records[k].kind == DEPOSIT && p.records[k].status == PENDING
    ensures p.claims[k].Some? && p.claims[k].value < |p.trail|
    ensures FindByAddress(p.addresses, p.records[k].toAddress) == Some(p.trail[p.claims[k].value].addressId)
  {
    assert RecordAgrees(p, k);
  }

  lemma DecideKeepsInv(p: Pool, k: nat, approve: bool, applied: bool, before: Option<int>, after: Option<int>)
    requires Inv(p) && k < |p.records| && p.records[k].status == PENDING
    ensures Inv(Decide(p, k, approve, applied, before, after))
  {
    var p' := Decide(p, k, approve, applied, before, after);
    assert RecordAgrees(p, k);
    if p.records[k].kind == DEPOSIT {
      PendingDepositFindsItsRow(p, k);
      DecideDepositKeepsInv(p, k, approve, applied, before, after);
    } else {
      forall m | 0 <= m < |p'.records| ensures RecordAgrees(p', m) {
        assert RecordAgrees(p, m);
      }
      forall i | 0 <= i < |p'.trail| ensures FateAgrees(p', i) {
        assert FateAgrees(p, i);
      }
      forall j: nat | Live(p'.addresses, j) ensures Totals(p', j) {
        assert Totals(p, j);
        SumUpdate(p.records, k, p'.records[k], PendingTo(p.addresses[j].value.address));
      }
    }
  }

  /** The links survive when record `k` is decided and its allocation's fate follows; `addresses` may differ in totals only. */
  lemma DecidedLinks(p: Pool, p': Pool, k: nat, c: nat)
    requires Inv(p) && k < |p.records| && p.records[k].status == PENDING && p.records[k].kind == DEPOSIT
    requires p.claims[k] == Some(c) && c < |p.trail|
    requires p'.allocations == p.allocations && p'.claims == p.claims && p'.now == p.now && |p'.records| == |p.records|
    requires |p'.addresses| == |p.addresses|
    requires forall id: nat :: Live(p'.addresses, id) ==> Live(p.addresses, id)
    requires forall id: nat :: Live(p.addresses, id) ==>
               Live(p'.addresses, id) && p'.addresses[id].value.address == p.addresses[id].value.address
    requires forall m :: 0 <= m < |p.records| && m != k ==> p'.records[m] == p.records[m]
    requires p'.records[k].status != PENDING
    requires var r, r' := p.records[k], p'.records[k]; r' == r.(status := r'.status, balanceApplied := r'.balanceApplied, before := r'.before, after := r'.after)
    requires p'.trail == p.trail[c := p.trail[c].(fate := FateOf(p'.records[k].status, k))]
    ensures Keys(p') && Linked(p')
  {
    assert RecordAgrees(p, k);
    assert Keys(p');
    forall m | 0 <= m < |p'.records| ensures RecordAgrees(p', m) {
      assert RecordAgrees(p, m);
    }
    forall i | 0 <= i < |p'.trail| ensures RowAgrees(p'.allocations[i], p'.trail[i], p'.now) && FateAgrees(p', i) {
      assert RowAgrees(p.allocations[i], p.trail[i], p.now) && FateAgrees(p, i);
    }
  }

  /** Deciding deposit `k` takes its amount off the pending side of one address, and puts it on the used side if approved. */
  lemma DecidedSums(p: Pool, k: nat, c: nat, r': FundingRecord, id: nat)
    requires Inv(p) && k < |p.records| && p.records[k].status == PENDING && p.records[k].kind == DEPOSIT
    requires p.claims[k] == Some(c) && c < |p.trail| && Live(p.addresses, id)
    requires r'.status != PENDING
    ensures var text := p.addresses[id].value.address;
            var trail' := p.trail[c := p.trail[c].(fate := FateOf(r'.status, k))];
            var amount := if p.trail[c].addressId == id then p.records[k].amount else 0;
            && SumBy(p.records[k := r'], PendingTo(text)) == SumBy(p.records, PendingTo(text)) - amount
            && SumBy(trail', AwaitingAt(id)) == SumBy(p.trail, AwaitingAt(id)) - amount
            && SumBy(trail', ApprovedAt(id)) == SumBy(p.trail, ApprovedAt(id)) + (if r'.status == COMPLETED then amount else 0)
  {
    assert RecordAgrees(p, k);
    var t := p.trail[c].(fate := FateOf(r'.status, k));
    SumUpdate(p.records, k, r', PendingTo(p.addresses[id].value.address));
    SumUpdate(p.trail, c, t, AwaitingAt(id));
    SumUpdate(p.trail, c, t, ApprovedAt(id));
  }

  lemma DecideDepositKeepsTotals(p: Pool, k: nat, approve: bool, applied: bool, before: Option<int>, after: Option<int>, id: nat)
    requires Inv(p) && k < |p.records| && p.records[k].status == PENDING && p.records[k].kind == DEPOSIT
    requires Live(p.addresses, id)
    ensures var p' := Decide(p, k, approve, applied, before, after); Live(p'.addresses, id) && Totals(p', id)
  {
    PendingDepositFindsItsRow(p, k);
    assert Totals(p, id);
    DecidedSums(p, k, p.claims[k].value, Decide(p, k, approve, applied, before, after).records[k], id);
  }

  lemma DecideDepositKeepsInv(p: Pool, k: nat, approve: bool, applied: bool, before: Option<int>, after: Option<int>)
    requires Inv(p) && k < |p.records| && p.records[k].status == PENDING && p.records[k].kind == DEPOSIT
    ensures Inv(Decide(p, k, approve, applied, before, after))
  {
    var p' := Decide(p, k, approve, applied, before, after);
    PendingDepositFindsItsRow(p, k);
    assert RecordAgrees(p, k);
    DecidedLinks(p, p', k, p.claims[k].value);
    forall id: nat | Live(p'.addresses, id) ensures Totals(p', id) {
      DecideDepositKeepsTotals(p, k, approve, applied, before, after, id);
    }
  }

  lemma PoolStepKeepsInv(p: Pool, e: PoolEvent)
    requires Inv(p)
    ensures Inv(PoolStep(p, e))
  {
    match e
    case Tick(ms) =>
      var p' := PoolStep(p, e);
      forall i | 0 <= i < |p.trail| ensures RowAgrees(p'.allocations[i], p'.trail[i], p'.now) && FateAgrees(p', i) {
        assert RowAgrees(p.allocations[i], p.trail[i], p.now) && FateAgrees(p, i);
      }
      forall k | 0 <= k < |p.records| ensures RecordAgrees(p', k) {
        assert RecordAgrees(p, k);
      }
      forall j: nat | Live(p'.addresses, j) ensures Totals(p', j) {
        assert Totals(p, j);
      }
    case DoCreate(n, t, lo, hi, cap, on, so) =>
      if RangeOk(lo, hi) && WellFormed(t, n) && FindByAddress(p.addresses, t).None? {
        CreateKeepsInv(p, Address(n, t, lo, hi, cap, 0, 0, on, UNKNOWN, so, p.now));
      }
    case DoUpdate(id, patch) =>
      if UpdateAddress(p, id, patch).1.Ok? {
        TouchKeepsInv(p, id, UpdateAddress(p, id, patch).0.addresses[id].value);
      }
    case DoRemove(id) => if RemoveAddress(p, id).1.Ok? { RemoveKeepsInv(p, id); }
    case DoSetRisk(id, risk) =>
      if Live(p.addresses, id) { TouchKeepsInv(p, id, p.addresses[id].value.(risk := risk)); }
    case DoAllocate(u, a, n) => AllocateKeepsInv(p, u, a, n);
    case DoReserve(u, a, id) => if a > 0 && Live(p.addresses, id) { ReserveKeepsInv(p, u, a, id); }
    case DoRelease => ReleaseKeepsInv(p);
    case DoDeposit(u, c, n, h, t, a, o) => DepositKeepsInv(p, u, c, n, h, t, a, o);
    case DoWithdraw(u, v, b, c, n, t, a, o) => WithdrawKeepsInv(p, u, v, b, c, n, t, a, o);
    case DoDecide(k, approve, applied, before, after) =>
      if k < |p.records| && p.records[k].status == PENDING {
        DecideKeepsInv(p, k, approve, applied, before, after);
      }
  }

  lemma {:induction false} RunKeepsInv(p: Pool, events: seq<PoolEvent>)
    requires Inv(p)
    ensures Inv(PoolRun(p, events))
  {
    if events != [] {
      RunKeepsInv(p, events[..|events| - 1]);
      PoolStepKeepsInv(PoolRun(p, events[..|events| - 1]), events[|events| - 1]);
    }
  }
}
