/**
 The tables behind the deposit address pool and every service call that touches them, each as one
 atomic step. A row that was deleted is `None`; a row's position is its identifier, so identifiers are
 never reused and later rows were created later. Money counts units of 1e-8, the scale of the
 DECIMAL(18,8) columns.
*/
module DepositPool {
  import opened Wrappers
  import opened Tally

  const ALLOCATION_TTL := 30 * 60 * 1000
  const RECENT_DEPOSITS := 50
  const MIN_WITHDRAW := 10_0000_0000

  type UserId = nat

  datatype Network = TRC20 | ERC20 | BTC
  datatype Currency = CoinBTC | CoinETH | CoinUSDC | CoinUSDT
  datatype Risk = UNKNOWN | SAFE | RISKY

  datatype Address = Address(
    network: Network, address: string,
    minAmount: nat, maxAmount: Option<nat>, capacity: Option<nat>,
    usedAmount: int, pendingAmount: int,
    enabled: bool, risk: Risk, sortOrder: int, createdAt: int)

  datatype Allocation = Allocation(addressId: nat, userId: UserId, amount: int, expiresAt: int, consumed: bool)

  datatype FundingType = DEPOSIT | WITHDRAW
  datatype FundingStatus = PENDING | COMPLETED | FAILED

  datatype FundingRecord = FundingRecord(
    userId: UserId, kind: FundingType, status: FundingStatus, amount: int,
    network: Network, txHash: Option<string>, toAddress: string, createdAt: int,
    balanceApplied: bool, before: Option<int>, after: Option<int>)

  /** Where the units of an allocation went. */
  datatype Fate =
    | Held
    | Released(at: int)
    | Awaiting(record: nat)
    | Approved(record: nat)
    | Rejected(record: nat)

  datatype Trail = Trail(addressId: nat, userId: UserId, amount: int, expiresAt: int, fate: Fate)

  /**
   `trail` and `claims` are history: one entry per allocation ever made, and for each funding record the
   allocation it consumed. No step reads them to decide anything.
  */
  datatype Pool = Pool(
    addresses: seq<Option<Address>>,
    allocations: seq<Option<Allocation>>,
    records: seq<FundingRecord>,
    now: int,
    trail: seq<Trail>,
    claims: seq<Option<nat>>)

  datatype PoolError =
    | InvalidAmount
    | InvalidDepositRange
    | DepositAddressExists
    | DepositAddressNotFound
    | DepositAddressHasPending
    | NoAvailableDepositAddress
    | InvalidCurrencyNetwork
    | TxHashRequired
    | DuplicateTxHash
    | InvalidAddress
    | InvalidDepositAddress
    | DepositAddressUnavailable
    | DepositAllocationExpired
    | KycRequired
    | InsufficientBalance

  const EMPTY_POOL := Pool([], [], [], 0, [], [])

  // ---------- address formats ----------

  predicate IsBase58(c: char) {
    '1' <= c <= '9' || 'A' <= c <= 'H' || 'J' <= c <= 'N' || 'P' <= c <= 'Z' || 'a' <= c <= 'k' || 'm' <= c <= 'z'
  }

  predicate IsHex(c: char) {
    '0' <= c <= '9' || 'a' <= c <= 'f' || 'A' <= c <= 'F'
  }

  predicate IsLowerOrDigit(c: char) {
    '0' <= c <= '9' || 'a' <= c <= 'z'
  }

  /** The pattern of a network's addresses, on trimmed text. */
  predicate WellFormed(text: string, network: Network) {
    match network
    case TRC20 => |text| == 34 && text[0] == 'T' && forall i :: 1 <= i < |text| ==> IsBase58(text[i])
    case ERC20 => |text| == 42 && "0x" <= text && forall i :: 2 <= i < |text| ==> IsHex(text[i])
    case BTC =>
      || (42 <= |text| <= 62 && "bc1" <= text && forall i :: 3 <= i < |text| ==> IsLowerOrDigit(text[i]))
      || (26 <= |text| <= 35 && text[0] in "13" && forall i :: 1 <= i < |text| ==> IsBase58(text[i]))
  }

  // ---------- lookups ----------

  predicate Live(addresses: seq<Option<Address>>, id: nat) {
    id < |addresses| && addresses[id].Some?
  }

  /** The unique index on `address`: the row with this text, if any. */
  function FindByAddress(addresses: seq<Option<Address>>, text: string): (found: Option<nat>)
    ensures found.Some? ==> Live(addresses, found.value) && addresses[found.value].value.address == text
    ensures found.None? ==> forall id: nat :: Live(addresses, id) ==> addresses[id].value.address != text
  {
    if addresses == [] then None
    else
      var last := |addresses| - 1;
      var row := addresses[last];
      if row.Some? && row.value.address == text then Some(last) else FindByAddress(addresses[..last], text)
  }

  predicate HashTaken(records: seq<FundingRecord>, network: Network, txHash: string) {
    exists k :: 0 <= k < |records| && records[k].network == network && records[k].txHash == Some(txHash)
  }

  predicate Claimable(row: Option<Allocation>, user: UserId, addressId: nat, amount: int, now: int) {
    row.Some? && row.value.userId == user && row.value.addressId == addressId && !row.value.consumed
    && row.value.expiresAt >= now && row.value.amount == amount
  }

  /** The most recently created allocation a deposit may consume. */
  function LatestClaimable(rows: seq<Option<Allocation>>, user: UserId, addressId: nat, amount: int, now: int)
    : (found: Option<nat>)
    ensures found.Some? ==> found.value < |rows| && Claimable(rows[found.value], user, addressId, amount, now)
    ensures found.Some? ==> forall i :: found.value < i < |rows| ==> !Claimable(rows[i], user, addressId, amount, now)
    ensures found.None? ==> forall i :: 0 <= i < |rows| ==> !Claimable(rows[i], user, addressId, amount, now)
  {
    if rows == [] then None
    else
      var last := |rows| - 1;
      if Claimable(rows[last], user, addressId, amount, now) then Some(last)
      else LatestClaimable(rows[..last], user, addressId, amount, now)
  }

  // ---------- choosing an address ----------

  /** The `where` clause of the candidate query plus the capacity filter. */
  predicate Fits(row: Option<Address>, amount: int, network: Network) {
    row.Some? && row.value.network == network && row.value.enabled && row.value.risk != RISKY
    && row.value.minAmount <= amount
    && (row.value.maxAmount.Some? ==> amount <= row.value.maxAmount.value)
    && (row.value.capacity.Some? ==>
          row.value.capacity.value - row.value.usedAmount - row.value.pendingAmount >= amount)
  }

  function FittingTexts(addresses: seq<Option<Address>>, amount: int, network: Network): set<string> {
    set id | 0 <= id < |addresses| && Fits(addresses[id], amount, network) :: addresses[id].value.address
  }

  predicate IsRecent(record: FundingRecord, user: UserId, among: set<string>) {
    record.userId == user && record.kind == DEPOSIT && record.toAddress in among
  }

  /** Targets of the user's latest `take` deposits among the given addresses. */
  function RecentTargets(records: seq<FundingRecord>, user: UserId, among: set<string>, take: nat): set<string> {
    if records == [] || take == 0 then {}
    else
      var last := |records| - 1;
      if IsRecent(records[last], user, among)
      then {records[last].toAddress} + RecentTargets(records[..last], user, among, take - 1)
      else RecentTargets(records[..last], user, among, take)
  }

  predicate HoldsActive(row: Option<Allocation>, user: UserId, addressId: nat, now: int) {
    row.Some? && row.value.userId == user && row.value.addressId == addressId
    && !row.value.consumed && row.value.expiresAt >= now
  }

  predicate HasActive(p: Pool, user: UserId, addressId: nat) {
    exists i :: 0 <= i < |p.allocations| && HoldsActive(p.allocations[i], user, addressId, p.now)
  }

  /** "Already used by this user" in the sense of the sort key. */
  predicate UsedBy(p: Pool, user: UserId, amount: int, network: Network, id: nat)
    requires Live(p.addresses, id)
  {
    || p.addresses[id].value.address
         in RecentTargets(p.records, user, FittingTexts(p.addresses, amount, network), RECENT_DEPOSITS)
    || HasActive(p, user, id)
  }

  /** The comparator, with the table order that the stable sort keeps for ties. */
  predicate Before(p: Pool, user: UserId, amount: int, network: Network, i: nat, j: nat)
    requires Live(p.addresses, i) && Live(p.addresses, j)
  {
    var a, b := p.addresses[i].value, p.addresses[j].value;
    var aUsed, bUsed := UsedBy(p, user, amount, network, i), UsedBy(p, user, amount, network, j);
    if aUsed != bUsed then bUsed
    else if a.sortOrder != b.sortOrder then a.sortOrder < b.sortOrder
    else if a.createdAt != b.createdAt then a.createdAt < b.createdAt
    else i < j
  }

  /** The first element of the sorted candidates among the first `n` rows. */
  function Pick(p: Pool, user: UserId, amount: int, network: Network, n: nat): (picked: Option<nat>)
    requires n <= |p.addresses|
    ensures picked.Some? ==> picked.value < n && Fits(p.addresses[picked.value], amount, network)
  {
    if n == 0 then None
    else
      var best := Pick(p, user, amount, network, n - 1);
      if Fits(p.addresses[n - 1], amount, network)
         && (best.Some? ==> Before(p, user, amount, network, n - 1, best.value))
      then Some(n - 1) else best
  }

  // ---------- administration ----------

  predicate RangeOk(minAmount: nat, maxAmount: Option<nat>) {
    maxAmount.Some? ==> minAmount <= maxAmount.value
  }

  function CreateAddress(p: Pool, network: Network, text: string, minAmount: nat, maxAmount: Option<nat>,
                         capacity: Option<nat>, enabled: bool, sortOrder: int): (Pool, Result<nat, PoolError>)
  {
    if !RangeOk(minAmount, maxAmount) then (p, Err(InvalidDepositRange))
    else if !WellFormed(text, network) then (p, Err(InvalidDepositAddress))
    else if FindByAddress(p.addresses, text).Some? then (p, Err(DepositAddressExists))
    else
      var row := Address(network, text, minAmount, maxAmount, capacity, 0, 0, enabled, UNKNOWN, sortOrder, p.now);
      (p.(addresses := p.addresses + [Some(row)]), Ok(|p.addresses|))
  }

  /** An absent field keeps its value; `Some(None)` clears a nullable one. */
  datatype AddressPatch = AddressPatch(
    minAmount: Option<nat>, maxAmount: Option<Option<nat>>, capacity: Option<Option<nat>>,
    enabled: Option<bool>, sortOrder: Option<int>)

  function GetOr<T>(o: Option<T>, default: T): T {
    if o.Some? then o.value else default
  }

  function UpdateAddress(p: Pool, id: nat, patch: AddressPatch): (Pool, Result<nat, PoolError>) {
    if !Live(p.addresses, id) then (p, Err(DepositAddressNotFound))
    else
      var row := p.addresses[id].value;
      var minAmount, maxAmount := GetOr(patch.minAmount, row.minAmount), GetOr(patch.maxAmount, row.maxAmount);
      if !RangeOk(minAmount, maxAmount) then (p, Err(InvalidDepositRange))
      else
        var row' := row.(minAmount := minAmount, maxAmount := maxAmount,
                         capacity := GetOr(patch.capacity, row.capacity),
                         enabled := GetOr(patch.enabled, row.enabled),
                         sortOrder := GetOr(patch.sortOrder, row.sortOrder));
        (p.(addresses := p.addresses[id := Some(row')]), Ok(id))
  }

  /** Deleting the row cascades to its allocations. */
  function DropAllocations(rows: seq<Option<Allocation>>, id: nat): (rows': seq<Option<Allocation>>)
    ensures |rows'| == |rows|
    ensures forall i :: 0 <= i < |rows| ==>
      rows'[i] == if rows[i].Some? && rows[i].value.addressId == id then None else rows[i]
  {
    seq(|rows|, i requires 0 <= i < |rows| =>
      if rows[i].Some? && rows[i].value.addressId == id then None else rows[i])
  }

  function RemoveAddress(p: Pool, id: nat): (Pool, Result<nat, PoolError>) {
    if !Live(p.addresses, id) then (p, Err(DepositAddressNotFound))
    else if p.addresses[id].value.pendingAmount != 0 then (p, Err(DepositAddressHasPending))
    else (p.(addresses := p.addresses[id := None], allocations := DropAllocations(p.allocations, id)), Ok(id))
  }

  /** The risk checker writes a verdict for a TRC20 row that still exists. */
  function SetRisk(p: Pool, id: nat, risk: Risk): Pool {
    if Live(p.addresses, id) && p.addresses[id].value.network == TRC20
    then p.(addresses := p.addresses[id := Some(p.addresses[id].value.(risk := risk))])
    else p
  }

  // ---------- allocation and expiry ----------

  function AddPending(addresses: seq<Option<Address>>, id: nat, delta: int): seq<Option<Address>>
    requires Live(addresses, id)
  {
    addresses[id := Some(addresses[id].value.(pendingAmount := addresses[id].value.pendingAmount + delta))]
  }

  /** The two writes of an allocation, for an address picked before. */
  function Reserve(p: Pool, user: UserId, amount: int, id: nat): Pool
    requires Live(p.addresses, id)
  {
    var expiresAt := p.now + ALLOCATION_TTL;
    p.(addresses := AddPending(p.addresses, id, amount),
       allocations := p.allocations + [Some(Allocation(id, user, amount, expiresAt, false))],
       trail := p.trail + [Trail(id, user, amount, expiresAt, Held)])
  }

  function Allocate(p: Pool, user: UserId, amount: int, network: Network): (Pool, Result<nat, PoolError>) {
    if amount <= 0 then (p, Err(InvalidAmount))
    else
      var picked := Pick(p, user, amount, network, |p.addresses|);
      if picked.None? then (p, Err(NoAvailableDepositAddress))
      else (Reserve(p, user, amount, picked.value), Ok(picked.value))
  }

  predicate IsExpired(row: Option<Allocation>, now: int) {
    row.Some? && !row.value.consumed && row.value.expiresAt < now
  }

  function ExpiredAt(id: nat, now: int): Option<Allocation> -> int {
    row => if IsExpired(row, now) && row.value.addressId == id then row.value.amount else 0
  }

  function ExpiredCount(now: int): Option<Allocation> -> int {
    row => if IsExpired(row, now) then 1 else 0
  }

  function Consume(row: Option<Allocation>): Option<Allocation> {
    if row.Some? then Some(row.value.(consumed := true)) else None
  }

  function ConsumeExpired(rows: seq<Option<Allocation>>, now: int): (rows': seq<Option<Allocation>>)
    ensures |rows'| == |rows|
    ensures forall i :: 0 <= i < |rows| ==>
      rows'[i] == if IsExpired(rows[i], now) then Consume(rows[i]) else rows[i]
  {
    seq(|rows|, i requires 0 <= i < |rows| => if IsExpired(rows[i], now) then Consume(rows[i]) else rows[i])
  }

  function TakeBack(row: Option<Address>, amount: int): Option<Address> {
    if row.Some? then Some(row.value.(pendingAmount := row.value.pendingAmount - amount)) else None
  }

  function ReturnExpired(addresses: seq<Option<Address>>, rows: seq<Option<Allocation>>, now: int)
    : (addresses': seq<Option<Address>>)
    ensures |addresses'| == |addresses|
    ensures forall id :: 0 <= id < |addresses| ==>
      addresses'[id] == TakeBack(addresses[id], SumBy(rows, ExpiredAt(id, now)))
  {
    seq(|addresses|, id requires 0 <= id < |addresses| => TakeBack(addresses[id], SumBy(rows, ExpiredAt(id, now))))
  }

  function TrailReleased(trail: seq<Trail>, rows: seq<Option<Allocation>>, now: int): (trail': seq<Trail>)
    ensures |trail'| == |trail|
    ensures forall i :: 0 <= i < |trail| ==>
      trail'[i] == if i < |rows| && IsExpired(rows[i], now) then trail[i].(fate := Released(now)) else trail[i]
  {
    seq(|trail|, i requires 0 <= i < |trail| =>
      if i < |rows| && IsExpired(rows[i], now) then trail[i].(fate := Released(now)) else trail[i])
  }

  /** The release pass: every expired allocation is marked, and each address gets back what it held for them. */
  function ReleaseExpired(p: Pool): Pool {
    p.(allocations := ConsumeExpired(p.allocations, p.now),
       addresses := ReturnExpired(p.addresses, p.allocations, p.now),
       trail := TrailReleased(p.trail, p.allocations, p.now))
  }

  // ---------- funding records ----------

  function NetworkOf(currency: Currency): Network {
    match currency
    case CoinBTC => BTC
    case CoinETH => ERC20
    case CoinUSDC => ERC20
    case CoinUSDT => TRC20
  }

  /** `createDeposit`; `txHash` is the text after trimming, `original` the amount in the coin that was sent. */
  function SubmitDeposit(p: Pool, user: UserId, currency: Currency, network: Network, txHash: string,
                         text: string, amount: int, original: int): (Pool, Result<nat, PoolError>)
  {
    if amount <= 0 || original <= 0 then (p, Err(InvalidAmount))
    else if NetworkOf(currency) != network then (p, Err(InvalidCurrencyNetwork))
    else if !WellFormed(text, network) then (p, Err(InvalidAddress))
    else if txHash == "" then (p, Err(TxHashRequired))
    else if HashTaken(p.records, network, txHash) then (p, Err(DuplicateTxHash))
    else
      var found := FindByAddress(p.addresses, text);
      if found.None? || p.addresses[found.value].value.network != network then (p, Err(InvalidDepositAddress))
      else if !p.addresses[found.value].value.enabled || p.addresses[found.value].value.risk == RISKY
      then (p, Err(DepositAddressUnavailable))
      else
        var claimed := LatestClaimable(p.allocations, user, found.value, amount, p.now);
        if claimed.None? then (p, Err(DepositAllocationExpired))
        else
          var k := |p.records|;
          (p.(allocations := p.allocations[claimed.value := Consume(p.allocations[claimed.value])],
              records := p.records + [FundingRecord(user, DEPOSIT, PENDING, amount, network, Some(txHash), text, p.now, false, None, None)],
              trail := SetFate(p.trail, claimed, Awaiting(k)),
              claims := p.claims + [claimed]),
           Ok(k))
  }

  function SetFate(trail: seq<Trail>, claim: Option<nat>, fate: Fate): seq<Trail> {
    if claim.Some? && claim.value < |trail| then trail[claim.value := trail[claim.value].(fate := fate)] else trail
  }

  /** `createWithdraw`; `seenBalance` is the balance on the user object the request carries. */
  function SubmitWithdraw(p: Pool, user: UserId, verified: bool, seenBalance: int, currency: Currency,
                          network: Network, text: string, amount: int, original: int): (Pool, Result<nat, PoolError>)
  {
    if amount <= 0 || original <= 0 then (p, Err(InvalidAmount))
    else if NetworkOf(currency) != network then (p, Err(InvalidCurrencyNetwork))
    else if !WellFormed(text, network) then (p, Err(InvalidAddress))
    else if amount < MIN_WITHDRAW then (p, Err(InvalidAmount))
    else if !verified then (p, Err(KycRequired))
    else if seenBalance < amount then (p, Err(InsufficientBalance))
    else
      (p.(records := p.records + [FundingRecord(user, WITHDRAW, PENDING, amount, network, None, text, p.now, false, None, None)],
          claims := p.claims + [None]),
       Ok(|p.records|))
  }

  /** `applyReviewOutcome`: an address that is not in the pool is skipped. */
  function ApplyOutcome(addresses: seq<Option<Address>>, text: string, amount: int, approve: bool): seq<Option<Address>> {
    var found := FindByAddress(addresses, text);
    if found.None? then addresses
    else
      var row := addresses[found.value].value;
      var used := if approve then row.usedAmount + amount else row.usedAmount;
      addresses[found.value := Some(row.(pendingAmount := row.pendingAmount - amount, usedAmount := used))]
  }

  /** What the compare-and-set of a review writes to the pool once it finds the record still PENDING. */
  function Decide(p: Pool, k: nat, approve: bool, applied: bool, before: Option<int>, after: Option<int>): Pool
    requires k < |p.records|
  {
    var record := p.records[k];
    var record' := record.(status := if approve then COMPLETED else FAILED,
                           balanceApplied := applied, before := before, after := after);
    var decided := p.(records := p.records[k := record']);
    if record.kind == WITHDRAW then decided
    else decided.(addresses := ApplyOutcome(p.addresses, record.toAddress, record.amount, approve),
                  trail := SetFate(p.trail, if k < |p.claims| then p.claims[k] else None,
                                   if approve then Approved(k) else Rejected(k)))
  }

  // ---------- runs ----------

  datatype PoolEvent =
    | Tick(ms: nat)
    | DoCreate(network: Network, text: string, minAmount: nat, maxAmount: Option<nat>, capacity: Option<nat>,
               enabled: bool, sortOrder: int)
    | DoUpdate(id: nat, patch: AddressPatch)
    | DoRemove(id: nat)
    | DoSetRisk(id: nat, risk: Risk)
    | DoAllocate(user: UserId, amount: int, network: Network)
    | DoReserve(user: UserId, amount: int, id: nat)  // the writes of an allocation that read its candidates earlier
    | DoRelease
    | DoDeposit(user: UserId, currency: Currency, network: Network, txHash: string, text: string, amount: int, original: int)
    | DoWithdraw(user: UserId, verified: bool, seenBalance: int, currency: Currency, network: Network,
                 text: string, amount: int, original: int)
    | DoDecide(k: nat, approve: bool, applied: bool, before: Option<int>, after: Option<int>)

  function PoolStep(p: Pool, e: PoolEvent): Pool {
    match e
    case Tick(ms) => p.(now := p.now + ms)
    case DoCreate(n, t, lo, hi, c, on, so) => CreateAddress(p, n, t, lo, hi, c, on, so).0
    case DoUpdate(id, patch) => UpdateAddress(p, id, patch).0
    case DoRemove(id) => RemoveAddress(p, id).0
    case DoSetRisk(id, risk) => SetRisk(p, id, risk)
    case DoAllocate(u, a, n) => Allocate(p, u, a, n).0
    case DoReserve(u, a, id) => if a > 0 && Live(p.addresses, id) then Reserve(p, u, a, id) else p
    case DoRelease => ReleaseExpired(p)
    case DoDeposit(u, c, n, h, t, a, o) => SubmitDeposit(p, u, c, n, h, t, a, o).0
    case DoWithdraw(u, v, b, c, n, t, a, o) => SubmitWithdraw(p, u, v, b, c, n, t, a, o).0
    case DoDecide(k, approve, applied, before, after) =>
      if k < |p.records| && p.records[k].status == PENDING then Decide(p, k, approve, applied, before, after) else p
  }

  function PoolRun(p: Pool, events: seq<PoolEvent>): Pool {
    if events == [] then p else PoolStep(PoolRun(p, events[..|events| - 1]), events[|events| - 1])
  }
}
