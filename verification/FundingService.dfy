/** The funding service as it runs, on the tables it shares with the deposit address service. */
module FundingService {
  import opened Wrappers
  import opened DepositPool
  import opened DepositPoolLaws
  import opened FundingDesk
  import DepositAddressService

  class Service {
    const db: DepositAddressService.Database
    const deposits: DepositAddressService.Service
    var balances: map<UserId, int>
    var ledger: seq<Entry>
    ghost var external: map<UserId, int>

    ghost function State(): Desk
      reads this, db
    {
      Desk(db.State(), balances, ledger, map[], external)
    }

    ghost predicate Valid()
      reads this
    {
      deposits.db == db
    }

    constructor (db: DepositAddressService.Database, opening: map<UserId, int>)
      ensures Valid() && this.db == db
      ensures balances == external == opening && ledger == []
    {
      this.db := db;
      this.deposits := new DepositAddressService.Service(db);
      this.balances, this.external, this.ledger := opening, opening, [];
    }

    /** The record is written first; when no allocation is there to consume, the transaction rolls it back. */
    method CreateDeposit(user: UserId, currency: Currency, network: Network, txHash: string, text: string, amount: int, original: int)
      returns (r: Result<nat, PoolError>)
      requires Valid() && Keys(db.State())
      modifies db
      ensures (db.State(), r) == SubmitDeposit(old(db.State()), user, currency, network, txHash, text, amount, original)
    {
      if amount <= 0 || original <= 0 {
        return Err(InvalidAmount);
      }
      if NetworkOf(currency) != network {
        return Err(InvalidCurrencyNetwork);
      }
      if !WellFormed(text, network) {
        return Err(InvalidAddress);
      }
      if txHash == "" {
        return Err(TxHashRequired);
      }
      if HashTaken(db.records, network, txHash) {
        return Err(DuplicateTxHash);
      }
      var poolAddress := FindByAddress(db.addresses, text);
      if poolAddress.None? {
        return Err(InvalidDepositAddress);
      }
      var row := db.addresses[poolAddress.value].value;
      if row.network != network {
        return Err(InvalidDepositAddress);
      }
      if !row.enabled || row.risk == RISKY {
        return Err(DepositAddressUnavailable);
      }
      var saved, k := db.records, |db.records|;
      db.records := db.records
        + [FundingRecord(user, DEPOSIT, PENDING, amount, network, Some(txHash), text, db.now, false, None, None)];
      var consumed, claimed := deposits.ConsumeAllocation(user, text, amount, k);
      if !consumed {
        db.records := saved;
        return Err(DepositAllocationExpired);
      }
      db.claims := db.claims + [claimed];
      r := Ok(k);
    }

    method CreateWithdraw(user: UserId, verified: bool, seenBalance: int, currency: Currency, network: Network,
                          text: string, amount: int, original: int) returns (r: Result<nat, PoolError>)
      requires Valid()
      modifies db
      ensures (db.State(), r) == SubmitWithdraw(old(db.State()), user, verified, seenBalance, currency, network, text, amount, original)
    {
      if amount <= 0 || original <= 0 {
        return Err(InvalidAmount);
      }
      if NetworkOf(currency) != network {
        return Err(InvalidCurrencyNetwork);
      }
      if !WellFormed(text, network) {
        return Err(InvalidAddress);
      }
      if amount < MIN_WITHDRAW {
        return Err(InvalidAmount);
      }
      if !verified {
        return Err(KycRequired);
      }
      if seenBalance < amount {
        return Err(InsufficientBalance);
      }
      r := Ok(|db.records|);
      db.records := db.records
        + [FundingRecord(user, WITHDRAW, PENDING, amount, network, None, text, db.now, false, None, None)];
      db.claims := db.claims + [None];
    }

    /** One serializable transaction: the two halves of a review with nothing between them. */
    method ReviewRecord(k: nat, approve: bool, applyBalance: Option<bool>) returns (r: Result<nat, ReviewError>)
      requires Valid() && Keys(db.State())
      modifies db, this`balances, this`ledger
      ensures (State(), r) == Review(old(State()), 0, k, approve, applyBalance)
    {
      var apply := approve && applyBalance != Some(false);
      if !approve && applyBalance == Some(true) {
        return Err(BalanceNotApplicable);
      }
      if k >= |db.records| {
        return Err(FundingRecordNotFound);
      }
      var record := db.records[k];
      if record.status != PENDING {
        return Err(FundingAlreadyReviewed);
      }
      var before := Get(balances, record.userId);
      if apply && record.kind == WITHDRAW && before < record.amount {
        return Err(InsufficientRealBalance);
      }
      var delta := if record.kind == DEPOSIT then record.amount else -record.amount;
      var after := before + delta;
      db.records := db.records[k := record.(status := if approve then COMPLETED else FAILED, balanceApplied := apply,
                                            before := if apply then Some(before) else None,
                                            after := if apply then Some(after) else None)];
      if apply {
        balances := balances[record.userId := after];
        ledger := ledger + [Entry(record.userId, delta, before, after, k)];
      }
      if record.kind == DEPOSIT {
        deposits.ApplyReviewOutcome(record.toAddress, record.amount, approve);
        db.trail := SetFate(db.trail, db.claims[k], if approve then Approved(k) else Rejected(k));
      }
      r := Ok(k);
      assert (map[0 := Read(k, approve, apply, before)] - {0}) == map[];
    }

    /** Every event of a pool run but a decision is a service call, the passing of time or the risk checker's write. */
    method Handle(e: PoolEvent)
      requires Valid() && Keys(db.State()) && !e.DoDecide?
      modifies db
      ensures db.State() == PoolStep(old(db.State()), e)
    {
      match e
      case Tick(ms) => db.now := db.now + ms;
      case DoCreate(n, t, lo, hi, c, on, so) => var _ := deposits.Create(n, t, lo, hi, c, on, so);
      case DoUpdate(id, patch) => var _ := deposits.Update(id, patch);
      case DoRemove(id) => var _ := deposits.Remove(id);
      case DoSetRisk(id, risk) =>
        if id < |db.addresses| && db.addresses[id].Some? && db.addresses[id].value.network == TRC20 {
          db.addresses := db.addresses[id := Some(db.addresses[id].value.(risk := risk))];
        }
      case DoAllocate(u, a, n) => var _ := deposits.AllocateForUser(u, a, n);
      case DoReserve(u, a, id) =>
        if a > 0 && id < |db.addresses| && db.addresses[id].Some? {
          deposits.ReserveAt(u, a, id);
        }
      case DoRelease => var _ := deposits.ReleaseExpiredAllocations();
      case DoDeposit(u, c, n, h, t, a, o) => var _ := CreateDeposit(u, c, n, h, t, a, o);
      case DoWithdraw(u, v, b, c, n, t, a, o) => var _ := CreateWithdraw(u, v, b, c, n, t, a, o);
    }
  }
}
