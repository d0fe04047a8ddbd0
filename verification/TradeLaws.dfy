/** Conservation, statistics and the settled-balance snapshot, over every interleaving. */
module TradeLaws {
  import opened Wrappers
  import opened Tally
  import opened TradeLedger

  // ---------- conservation ----------

  /** What an order has done to its account so far. */
  function Contribution(o: Order): int {
    match o.status
    case PENDING => -o.invest
    case SETTLED => o.actualReturn
    case CANCELED => 0
  }

  function ContributionTo(userId: UserId, account: AccountType): Order -> int {
    (o: Order) => if o.userId == userId && o.account == account then Contribution(o) else 0
  }

  function Balance(b: Book, userId: UserId, account: AccountType): int {
    if userId in b.users then BalanceOf(b.users[userId], account) else 0
  }

  /** Balance minus what opening balance, external deltas and orders account for. */
  function Surplus(b: Book, userId: UserId, account: AccountType): int {
    Balance(b, userId, account) - Known(b.external, userId, account) - SumBy(b.orders, ContributionTo(userId, account))
  }

  ghost predicate Conserved(b: Book) {
    forall userId: UserId, account: AccountType :: Surplus(b, userId, account) == 0
  }

  /** Orders belong to known users, and an order that is not settled has returned nothing. */
  ghost predicate OrdersOk(b: Book) {
    forall k :: 0 <= k < |b.orders| ==>
      && b.orders[k].userId in b.users && b.orders[k].invest > 0 && 0 <= b.orders[k].returnRate <= MAX_RATE
      && (b.orders[k].status != SETTLED ==> b.orders[k].actualReturn == 0)
      && (b.orders[k].status == SETTLED ==> b.orders[k].settledBalance == Some(b.orders[k].entryBalance + b.orders[k].actualReturn))
  }

  lemma OrdersOkStep(b: Book, e: Event)
    requires OrdersOk(b)
    ensures OrdersOk(Step(b, e))
  {
    if e.DoUserSettle? || e.DoQueueSettle? || e.DoSystemSettle? || e.DoSettleFrom? {
      StepIsSettlement(b, e);
      var s := AsSettlement(b, e);
      if s.Some? {
        SettleKeepsOrders(b, s.value);
      }
    }
  }

  lemma SettleKeepsOrders(b: Book, s: Settlement)
    requires OrdersOk(b) && s.k < |b.orders|
    ensures OrdersOk(SettleFrom(b, s.k, s.seen, s.seenUser, s.isWin))
  {
  }

  datatype Settlement = Settlement(k: OrderId, seen: Order, seenUser: User, isWin: bool)

  function Current(b: Book, k: OrderId, isWin: bool): Settlement
    requires k < |b.orders|
  {
    Settlement(k, b.orders[k], UserRow(b.users, b.orders[k].userId), isWin)
  }

  /** The settlement an event amounts to, if it settles anything. */
  function AsSettlement(b: Book, e: Event): Option<Settlement> {
    match e
    case DoUserSettle(k, u, w) =>
      if k < |b.orders| && b.orders[k].userId == u && b.orders[k].status == PENDING then Some(Current(b, k, w)) else None
    case DoQueueSettle(k, w) =>
      if k < |b.orders| && b.orders[k].status == PENDING then Some(Current(b, k, w)) else None
    case DoSystemSettle(k, w) =>
      if k < |b.orders| && b.orders[k].status != CANCELED then Some(Current(b, k, w)) else None
    case DoSettleFrom(k, seen, seenUser, w) => if k < |b.orders| then Some(Settlement(k, seen, seenUser, w)) else None
    case _ => None
  }

  lemma StepIsSettlement(b: Book, e: Event)
    requires e.DoUserSettle? || e.DoQueueSettle? || e.DoSystemSettle? || e.DoSettleFrom?
    ensures var s := AsSettlement(b, e);
            if s.Some? then s.value.k < |b.orders| && Step(b, e) == SettleFrom(b, s.value.k, s.value.seen, s.value.seenUser, s.value.isWin)
            else Step(b, e) == b
  {
  }

  /** What changed since a split settlement read its rows: the order's contribution, and the owner's balance. */
  function Staleness(b: Book, s: Settlement): int
    requires s.k < |b.orders|
  {
    var o := b.orders[s.k];
    Contribution(o) - (if s.seen.status == SETTLED then s.seen.actualReturn else -o.invest)
      + BalanceOf(s.seenUser, o.account) - Balance(b, o.userId, o.account)
  }

  /**
   What an event creates out of stale reads. A late refund is paid on top of whatever the order has done to the
   account since it was read as PENDING.
  */
  function StaleOf(b: Book, e: Event): int {
    if e.DoSettleFrom? && e.k < |b.orders| then Staleness(b, Settlement(e.k, e.seen, e.seenUser, e.isWin))
    else if e.DoCancelFrom? && e.k < |b.orders| && e.seen.status == PENDING then b.orders[e.k].invest + Contribution(b.orders[e.k])
    else 0
  }

  function Stale(b: Book, e: Event, userId: UserId, account: AccountType): int {
    if (e.DoSettleFrom? || e.DoCancelFrom?) && e.k < |b.orders|
       && b.orders[e.k].userId == userId && b.orders[e.k].account == account
    then StaleOf(b, e) else 0
  }

  lemma SettleSurplus(b: Book, s: Settlement, userId: UserId, account: AccountType)
    requires OrdersOk(b) && s.k < |b.orders|
    ensures Surplus(SettleFrom(b, s.k, s.seen, s.seenUser, s.isWin), userId, account) - Surplus(b, userId, account)
         == if b.orders[s.k].userId == userId && b.orders[s.k].account == account then Staleness(b, s) else 0
  {
    var b' := SettleFrom(b, s.k, s.seen, s.seenUser, s.isWin);
    assert b'.orders == b.orders[s.k := b'.orders[s.k]];
    SumUpdate(b.orders, s.k, b'.orders[s.k], ContributionTo(userId, account));
  }

  /** A stake is taken once, whatever balance was checked. */
  lemma OpenSurplus(b: Book, e: Event, userId: UserId, account: AccountType)
    requires e.DoOpen? || e.DoOpenFrom?
    ensures Surplus(Step(b, e), userId, account) == Surplus(b, userId, account)
  {
    var b' := Step(b, e);
    if |b'.orders| > |b.orders| {
      SumAppend(b.orders, b'.orders[|b.orders|], ContributionTo(userId, account));
    }
  }

  lemma CancelSurplus(b: Book, k: OrderId, userId: UserId, account: AccountType)
    requires OrdersOk(b) && k < |b.orders|
    ensures var o := b.orders[k];
            Surplus(CancelFrom(b, k), userId, account) - Surplus(b, userId, account)
              == if o.userId == userId && o.account == account then o.invest + Contribution(o) else 0
  {
    SumUpdate(b.orders, k, CancelFrom(b, k).orders[k], ContributionTo(userId, account));
  }

  /** Money appears or disappears exactly by the staleness of a split settlement or cancellation; every other step conserves it. */
  lemma SurplusStep(b: Book, e: Event, userId: UserId, account: AccountType)
    requires OrdersOk(b)
    ensures Surplus(Step(b, e), userId, account) - Surplus(b, userId, account) == Stale(b, e, userId, account)
  {
    match e
    case Tick(ms) =>
    case External(u, a, delta) =>
    case DoOpen(_, _, _, _, _, _, _) => OpenSurplus(b, e, userId, account);
    case DoOpenFrom(_, _, _, _, _, _) => OpenSurplus(b, e, userId, account);
    case DoCancel(k, _) => if Cancel(b, k, e.userId).1.Ok? { CancelSurplus(b, k, userId, account); }
    case DoCancelFrom(k, _) => if k < |b.orders| { CancelSurplus(b, k, userId, account); }
    case _ => SettlementSurplus(b, e, userId, account);
  }

  lemma SettlementSurplus(b: Book, e: Event, userId: UserId, account: AccountType)
    requires OrdersOk(b) && (e.DoUserSettle? || e.DoQueueSettle? || e.DoSystemSettle? || e.DoSettleFrom?)
    ensures Surplus(Step(b, e), userId, account) - Surplus(b, userId, account) == Stale(b, e, userId, account)
  {
    StepIsSettlement(b, e);
    var s := AsSettlement(b, e);
    if s.Some? {
      SettleSurplus(b, s.value, userId, account);
    }
  }

  /** One step keeps the law exactly when what it read is, in sum, still so. */
  lemma ConservedIffNotStale(b: Book, e: Event)
    requires OrdersOk(b) && Conserved(b)
    ensures Conserved(Step(b, e)) <==> StaleOf(b, e) == 0
  {
    if StaleOf(b, e) != 0 {
      var o := b.orders[e.k];
      assert Surplus(b, o.userId, o.account) == 0;
      SurplusStep(b, e, o.userId, o.account);
    } else {
      forall userId: UserId, account: AccountType ensures Surplus(Step(b, e), userId, account) == 0 {
        assert Surplus(b, userId, account) == 0;
        SurplusStep(b, e, userId, account);
      }
    }
  }

  /** The staleness a run has let through on one account. */
  function StaleOver(b: Book, events: seq<Event>, userId: UserId, account: AccountType): int {
    if events == [] then 0
    else
      var init := events[..|events| - 1];
      StaleOver(b, init, userId, account) + Stale(Run(b, init), events[|events| - 1], userId, account)
  }

  /** For every run, stale settlements included: what an account cannot explain is what its stale reads added up to. */
  lemma {:induction false} SurplusOverRuns(b: Book, events: seq<Event>, userId: UserId, account: AccountType)
    requires OrdersOk(b)
    ensures var b' := Run(b, events);
            OrdersOk(b') && Surplus(b', userId, account) == Surplus(b, userId, account) + StaleOver(b, events, userId, account)
  {
    if events != [] {
      var init, e := events[..|events| - 1], events[|events| - 1];
      SurplusOverRuns(b, init, userId, account);
      OrdersOkStep(Run(b, init), e);
      SurplusStep(Run(b, init), e, userId, account);
    }
  }

  // ---------- statistics ----------

  /** The cached statistics of a user against a recount over the settled REAL orders. */
  ghost predicate StatsAgree(b: Book, userId: UserId)
    requires userId in b.users
  {
    var user, trades := b.users[userId], SumBy(b.orders, RealSettled(userId));
    && user.totalTrades == trades
    && user.totalProfitLoss == SumBy(b.orders, RealReturn(userId))
    && user.winRate == WinRate(SumBy(b.orders, RealWin(userId)), trades)
  }

  ghost predicate AllStatsAgree(b: Book) {
    forall userId :: userId in b.users ==> StatsAgree(b, userId)
  }

  /** The rows a split settlement or cancellation read are still what it would read now. */
  predicate ReadsCurrent(b: Book, e: Event) {
    && (e.DoSettleFrom? && e.k < |b.orders| ==>
          e.seen == b.orders[e.k] && e.seen.status != CANCELED && e.seenUser == UserRow(b.users, b.orders[e.k].userId))
    && (e.DoCancelFrom? && e.k < |b.orders| ==> e.seen == b.orders[e.k])
  }

  /** An event that settles nothing. */
  predicate IsQuiet(e: Event) {
    e.Tick? || e.External? || e.DoOpen? || e.DoOpenFrom? || e.DoCancel? || e.DoCancelFrom?
  }

  lemma SettleKeepsStats(b: Book, k: OrderId, isWin: bool, userId: UserId)
    requires OrdersOk(b) && k < |b.orders| && b.orders[k].status != CANCELED
    requires userId in b.users && StatsAgree(b, userId)
    ensures StatsAgree(Settle(b, k, isWin), userId)
  {
    var b' := Settle(b, k, isWin);
    var o, row := b.orders[k], b'.orders[k];
    var settled := b.orders[k := o.(actualReturn := row.actualReturn, status := SETTLED)];
    assert b'.orders == b.orders[k := row];
    SumUpdate(b.orders, k, row, RealSettled(userId));
    SumUpdate(b.orders, k, row, RealReturn(userId));
    SumUpdate(b.orders, k, row, RealWin(userId));
    SumSame(settled, b'.orders, RealWin(userId), RealWin(userId));
  }

  lemma OpenKeepsStats(b: Book, order: Order, userId: UserId)
    requires order.status == PENDING
    ensures SumBy(b.orders + [order], RealSettled(userId)) == SumBy(b.orders, RealSettled(userId))
    ensures SumBy(b.orders + [order], RealReturn(userId)) == SumBy(b.orders, RealReturn(userId))
    ensures SumBy(b.orders + [order], RealWin(userId)) == SumBy(b.orders, RealWin(userId))
  {
    SumAppend(b.orders, order, RealSettled(userId));
    SumAppend(b.orders, order, RealReturn(userId));
    SumAppend(b.orders, order, RealWin(userId));
  }

  lemma CancelKeepsStats(b: Book, k: OrderId, order': Order, userId: UserId)
    requires k < |b.orders| && b.orders[k].status == PENDING && order'.status == CANCELED
    ensures SumBy(b.orders[k := order'], RealSettled(userId)) == SumBy(b.orders, RealSettled(userId))
    ensures SumBy(b.orders[k := order'], RealReturn(userId)) == SumBy(b.orders, RealReturn(userId))
    ensures SumBy(b.orders[k := order'], RealWin(userId)) == SumBy(b.orders, RealWin(userId))
  {
    SumUpdate(b.orders, k, order', RealSettled(userId));
    SumUpdate(b.orders, k, order', RealReturn(userId));
    SumUpdate(b.orders, k, order', RealWin(userId));
  }

  lemma OpenStatsStep(b: Book, e: Event, userId: UserId)
    requires OrdersOk(b) && (e.DoOpen? || e.DoOpenFrom?) && userId in b.users && StatsAgree(b, userId)
    ensures userId in Step(b, e).users && StatsAgree(Step(b, e), userId)
  {
    var b' := Step(b, e);
    if |b'.orders| > |b.orders| {
      OpenKeepsStats(b, b'.orders[|b.orders|], userId);
    }
  }

  lemma CancelStatsStep(b: Book, k: OrderId, userId: UserId)
    requires OrdersOk(b) && k < |b.orders| && b.orders[k].status == PENDING && userId in b.users && StatsAgree(b, userId)
    ensures userId in CancelFrom(b, k).users && StatsAgree(CancelFrom(b, k), userId)
  {
    CancelKeepsStats(b, k, CancelFrom(b, k).orders[k], userId);
  }

  lemma QuietKeepsStats(b: Book, e: Event, userId: UserId)
    requires OrdersOk(b) && IsQuiet(e) && ReadsCurrent(b, e)
    requires userId in b.users && StatsAgree(b, userId)
    ensures userId in Step(b, e).users && StatsAgree(Step(b, e), userId)
  {
    match e
    case DoOpen(_, _, _, _, _, _, _) => OpenStatsStep(b, e, userId);
    case DoOpenFrom(_, _, _, _, _, _) => OpenStatsStep(b, e, userId);
    case DoCancel(k, u) => if Cancel(b, k, u).1.Ok? { CancelStatsStep(b, k, userId); }
    case DoCancelFrom(k, seen) => if k < |b.orders| && seen.status == PENDING { CancelStatsStep(b, k, userId); }
    case _ =>
  }

  lemma StatsStep(b: Book, e: Event, userId: UserId)
    requires OrdersOk(b) && ReadsCurrent(b, e)
    requires userId in b.users && StatsAgree(b, userId)
    ensures userId in Step(b, e).users && StatsAgree(Step(b, e), userId)
  {
    if IsQuiet(e) {
      QuietKeepsStats(b, e, userId);
    } else {
      StepIsSettlement(b, e);
      var s := AsSettlement(b, e);
      if s.Some? {
        SettleKeepsStats(b, s.value.k, s.value.isWin, userId);
      }
    }
  }

  // ---------- whole runs ----------

  /** Registered users before any trade: whatever balances they have are opening balances. */
  ghost predicate Opening(b: Book) {
    && b.orders == []
    && (forall userId :: userId in b.users ==>
          b.users[userId].totalProfitLoss == 0 && b.users[userId].totalTrades == 0 && b.users[userId].winRate == 0.0)
    && (forall userId: UserId, account: AccountType :: Known(b.external, userId, account) == Balance(b, userId, account))
  }

  ghost predicate AlwaysCurrent(b: Book, events: seq<Event>) {
    events != [] ==>
      var init := events[..|events| - 1];
      AlwaysCurrent(b, init) && ReadsCurrent(Run(b, init), events[|init|])
  }

  /** Every account is explained by its orders, and every cached figure is what a recount gives. */
  ghost predicate Consistent(b: Book) {
    OrdersOk(b) && Conserved(b) && AllStatsAgree(b)
  }

  lemma ConsistentStep(b: Book, e: Event)
    requires Consistent(b) && ReadsCurrent(b, e)
    ensures Consistent(Step(b, e)) && Step(b, e).users.Keys == b.users.Keys
  {
    OrdersOkStep(b, e);
    ConservedIffNotStale(b, e);
    UsersStay(b, e);
    forall userId | userId in Step(b, e).users ensures StatsAgree(Step(b, e), userId) {
      StatsStep(b, e, userId);
    }
  }

  /**
   For every interleaving of user settlement, queue job, cancel, sweep and re-settlement: each account is
   explained by its orders, and the cached statistics are what a recount gives.
  */
  lemma {:induction false} LedgerOverRuns(b: Book, events: seq<Event>)
    requires Opening(b) && AlwaysCurrent(b, events)
    ensures var b' := Run(b, events); OrdersOk(b') && Conserved(b') && AllStatsAgree(b') && b'.users.Keys == b.users.Keys
  {
    if events != [] {
      var init, e := events[..|events| - 1], events[|events| - 1];
      var m := Run(b, init);
      assert Consistent(m) && m.users.Keys == b.users.Keys by { LedgerOverRuns(b, init); }
      assert Run(b, events) == Step(m, e);
      ConsistentStep(m, e);
    }
  }

  lemma UsersStay(b: Book, e: Event)
    requires OrdersOk(b)
    ensures Step(b, e).users.Keys == b.users.Keys
  {
  }

  /** `getUserStatistics` mixes cached and recounted figures; in every reachable state they are the same figures. */
  lemma StatisticsAreConsistent(b: Book, events: seq<Event>, userId: UserId)
    requires Opening(b) && AlwaysCurrent(b, events) && userId in b.users
    ensures var b' := Run(b, events);
            var settled, wins := SumBy(b'.orders, RealSettled(userId)), SumBy(b'.orders, RealWin(userId));
            && userId in b'.users
            && b'.users[userId].totalTrades == settled
            && b'.users[userId].totalProfitLoss == SumBy(b'.orders, RealReturn(userId))
            && b'.users[userId].winRate == WinRate(wins, settled)
            && 0 <= wins <= settled
  {
    LedgerOverRuns(b, events);
    var b' := Run(b, events);
    assert userId in b'.users && StatsAgree(b', userId);
    WinsAreSettled(b'.orders, userId);
  }

  lemma {:induction false} WinsAreSettled(orders: seq<Order>, userId: UserId)
    ensures 0 <= SumBy(orders, RealWin(userId)) <= SumBy(orders, RealSettled(userId))
  {
    if orders != [] { WinsAreSettled(orders[..|orders| - 1], userId); }
  }

  /** The shown rate lies between 0 and 100 and is within half a hundredth of the exact percentage. */
  lemma WinRateIsClose(wins: int, trades: int)
    requires 0 <= wins <= trades
    ensures 0.0 <= WinRate(wins, trades) <= 100.0
    ensures -0.005 <= WinRate(wins, trades) - Percentage(wins, trades) <= 0.005
  {
    var exact := Percentage(wins, trades);
    assert 0.0 <= exact <= 100.0 by {
      if trades > 0 { FractionBounds(wins as real, trades as real); }
    }
    var scaled := exact * 100.0 + 0.5;
    assert scaled - 1.0 < scaled.Floor as real <= scaled;
  }

  lemma FractionBounds(part: real, whole: real)
    requires 0.0 <= part <= whole && whole > 0.0
    ensures 0.0 <= part / whole <= 1.0
  {
    assert part / whole * whole == part;
  }

  /** The repair script resets every user's statistics, then writes those of the users who have settled REAL orders. */
  function RepairRow(user: User, userId: UserId, orders: seq<Order>): User {
    var reset := user.(totalProfitLoss := 0, winRate := 0.0, totalTrades := 0);
    var trades := SumBy(orders, RealSettled(userId));
    if trades == 0 then reset
    else reset.(totalTrades := trades, totalProfitLoss := SumBy(orders, RealReturn(userId)),
                winRate := WinRate(SumBy(orders, RealWin(userId)), trades))
  }

  function RepairScript(users: map<UserId, User>, orders: seq<Order>): map<UserId, User> {
    map userId | userId in users :: RepairRow(users[userId], userId, orders)
  }

  lemma {:induction false} NoneSettled(orders: seq<Order>, userId: UserId)
    requires SumBy(orders, RealSettled(userId)) == 0
    ensures SumBy(orders, RealReturn(userId)) == 0 && SumBy(orders, RealWin(userId)) == 0
  {
    if orders != [] {
      WinsAreSettled(orders[..|orders| - 1], userId);
      NoneSettled(orders[..|orders| - 1], userId);
    }
  }

  lemma RepairRowIff(b: Book, userId: UserId)
    requires userId in b.users
    ensures RepairRow(b.users[userId], userId, b.orders) == b.users[userId] <==> StatsAgree(b, userId)
  {
    if SumBy(b.orders, RealSettled(userId)) == 0 {
      NoneSettled(b.orders, userId);
      assert WinRate(0, 0) == 0.0;
    }
  }

  /** The repair script has nothing to repair exactly when the cached statistics agree with a recount. */
  lemma RepairChangesNothingIff(b: Book)
    ensures RepairScript(b.users, b.orders) == b.users <==> AllStatsAgree(b)
  {
    forall userId | userId in b.users
      ensures RepairScript(b.users, b.orders)[userId] == b.users[userId] <==> StatsAgree(b, userId)
    {
      RepairRowIff(b, userId);
    }
  }

  /** So in every reachable state it changes nothing. */
  lemma RepairChangesNothing(b: Book, events: seq<Event>)
    requires Opening(b) && AlwaysCurrent(b, events)
    ensures RepairScript(Run(b, events).users, Run(b, events).orders) == Run(b, events).users
  {
    LedgerOverRuns(b, events);
    RepairChangesNothingIff(Run(b, events));
  }

  // ---------- statuses ----------

  predicate MayFollow(s: Status, s': Status) {
    s' == s || s == PENDING
  }

  /** An order keeps its terms; PENDING may become anything, SETTLED and CANCELED are final. */
  lemma StatusStep(b: Book, e: Event, k: OrderId)
    requires k < |b.orders| && ReadsCurrent(b, e)
    ensures var b' := Step(b, e);
            && |b.orders| <= |b'.orders|
            && MayFollow(b.orders[k].status, b'.orders[k].status)
            && b'.orders[k] == b.orders[k].(status := b'.orders[k].status, actualReturn := b'.orders[k].actualReturn,
                                            settledBalance := b'.orders[k].settledBalance)
  {
  }

  /** The order table only grows, and an order that has left PENDING does not come back: for every event, stale ones included. */
  lemma LeavesPendingStep(b: Book, e: Event, k: OrderId)
    requires k < |b.orders|
    ensures k < |Step(b, e).orders| && (b.orders[k].status != PENDING ==> Step(b, e).orders[k].status != PENDING)
  {
  }

  /** On current reads SETTLED and CANCELED are final over whole runs. */
  lemma {:induction false} StatusOverRuns(b: Book, events: seq<Event>, k: OrderId)
    requires k < |b.orders| && AlwaysCurrent(b, events)
    ensures var b' := Run(b, events); k < |b'.orders| && MayFollow(b.orders[k].status, b'.orders[k].status)
  {
    if events != [] {
      var init := events[..|events| - 1];
      var m, e := Run(b, init), events[|init|];
      assert k < |m.orders| && MayFollow(b.orders[k].status, m.orders[k].status) by { StatusOverRuns(b, init, k); }
      assert Run(b, events) == Step(m, e);
      assert k < |Step(m, e).orders| && MayFollow(m.orders[k].status, Step(m, e).orders[k].status) by { StatusStep(m, e, k); }
    }
  }

  /** A settlement result stays between losing the stake and ten times the stake; a win is stake times rate to the nearest unit. */
  lemma PayoutBounds(o: Order, isWin: bool)
    requires o.invest > 0 && 0 <= o.returnRate <= MAX_RATE
    ensures -o.invest <= Payout(o, isWin) <= 10 * o.invest
    ensures isWin ==> -RATE_SCALE / 2 <= RATE_SCALE * Payout(o, true) - o.invest * o.returnRate <= RATE_SCALE / 2
  {
    if isWin {
      assert o.invest * o.returnRate <= o.invest * MAX_RATE;
      assert 0 <= o.invest * o.returnRate;
    }
  }

  // ---------- the settled balance snapshot ----------

  /** What a step does to an account other than through order `k`, read off the order rows. */
  function Others(b: Book, e: Event, k: OrderId, userId: UserId, account: AccountType): int {
    match e
    case Tick(_) => 0
    case External(u, a, delta) => if u == userId && a == account && u in b.users then delta else 0
    case DoOpen(m, u, a, i, r, d, ok) =>
      if u == userId && a == account && Open(b, m, u, a, i, r, d, ok).1.Ok? then -i else 0
    case DoOpenFrom(u, a, i, r, d, seen) => if u == userId && a == account && Accepts(b, u, i, r, seen) then -i else 0
    case _ =>
      if e.k == k || e.k >= |b.orders| || b.orders[e.k].userId != userId || b.orders[e.k].account != account
         || e.k >= |Step(b, e).orders| then 0
      else Contribution(Step(b, e).orders[e.k]) - Contribution(b.orders[e.k])
  }

  function OthersOver(b: Book, events: seq<Event>, k: OrderId, userId: UserId, account: AccountType): int {
    if events == [] then 0
    else
      var init := events[..|events| - 1];
      OthersOver(b, init, k, userId, account) + Others(Run(b, init), events[|events| - 1], k, userId, account)
  }

  lemma BalanceSettled(b: Book, j: OrderId, isWin: bool, userId: UserId, account: AccountType)
    requires OrdersOk(b) && j < |b.orders| && b.orders[j].status != CANCELED
    ensures var b', o := Settle(b, j, isWin), b.orders[j];
            Balance(b', userId, account) - Balance(b, userId, account)
              == if o.userId == userId && o.account == account then Contribution(b'.orders[j]) - Contribution(o) else 0
  {
  }

  /** One step moves the balance by what it does through `k` plus what it does otherwise. */
  lemma BalanceStep(b: Book, e: Event, k: OrderId)
    requires OrdersOk(b) && k < |b.orders| && ReadsCurrent(b, e)
    ensures var o, b' := b.orders[k], Step(b, e);
            k < |b'.orders| && Balance(b', o.userId, o.account) - Balance(b, o.userId, o.account)
              == Contribution(b'.orders[k]) - Contribution(o) + Others(b, e, k, o.userId, o.account)
  {
    if !IsQuiet(e) {
      StepIsSettlement(b, e);
      var s := AsSettlement(b, e);
      if s.Some? {
        BalanceSettled(b, s.value.k, s.value.isWin, b.orders[k].userId, b.orders[k].account);
      }
    }
  }

  lemma {:induction false} BalanceOver(b: Book, events: seq<Event>, k: OrderId)
    requires OrdersOk(b) && k < |b.orders| && AlwaysCurrent(b, events)
    ensures var o, b' := b.orders[k], Run(b, events);
            && OrdersOk(b') && k < |b'.orders|
            && b'.orders[k].entryBalance == o.entryBalance && b'.orders[k].userId == o.userId && b'.orders[k].account == o.account
            && Balance(b', o.userId, o.account) - Balance(b, o.userId, o.account)
                 == Contribution(b'.orders[k]) - Contribution(o) + OthersOver(b, events, k, o.userId, o.account)
  {
    if events != [] {
      var init, e := events[..|events| - 1], events[|events| - 1];
      BalanceOver(b, init, k);
      var m := Run(b, init);
      assert ReadsCurrent(m, e);
      OrdersOkStep(m, e);
      StatusStep(m, e, k);
      BalanceStep(m, e, k);
    }
  }

  /**
   From its creation on, at any moment an order is settled (for the first time or again), the live balance
   exceeds its `settledAccountBalance` by the net effect of everything else on the account since then; so the
   two agree exactly when those effects cancel.
  */
  lemma SnapshotDrift(b: Book, open: Event, events: seq<Event>)
    requires OrdersOk(b) && open.DoOpen?
    requires Open(b, open.marketOpen, open.userId, open.account, open.invest, open.returnRate, open.duration, open.durationAllowed).1.Ok?
    requires AlwaysCurrent(Step(b, open), events)
    ensures var k, b' := |b.orders|, Run(Step(b, open), events);
            var drift := OthersOver(Step(b, open), events, k, open.userId, open.account);
            k < |b'.orders| && (b'.orders[k].status == SETTLED ==>
              && b'.orders[k].settledBalance.Some?
              && Balance(b', open.userId, open.account) - b'.orders[k].settledBalance.value == drift
              && (b'.orders[k].settledBalance.value == Balance(b', open.userId, open.account) <==> drift == 0))
  {
    var k := |b.orders|;
    OrdersOkStep(b, open);
    BalanceOver(Step(b, open), events, k);
  }

  // ---------- why the reads must be current ----------

  /**
   Two settlements that both read the order PENDING, the second computing from the balance the first left: after
   a loss the second does no harm, after a win it pays that win again with the stake, whatever its own outcome.
  */
  lemma StaleSettlementPaysTwice(b: Book, k: OrderId, isWin: bool, isWin': bool)
    requires OrdersOk(b) && Conserved(b) && k < |b.orders| && b.orders[k].status == PENDING
    ensures var o := b.orders[k];
            var once := Settle(b, k, isWin);
            var twice := Step(once, DoSettleFrom(k, o, UserRow(once.users, o.userId), isWin'));
            Surplus(twice, o.userId, o.account) == if isWin then o.invest + Payout(o, true) else 0
  {
    var o, once := b.orders[k], Settle(b, k, isWin);
    assert Surplus(b, o.userId, o.account) == 0;
    SettleSurplus(b, Current(b, k, isWin), o.userId, o.account);
    assert OrdersOk(once);
    SurplusStep(once, DoSettleFrom(k, o, UserRow(once.users, o.userId), isWin'), o.userId, o.account);
  }

  /** A cancellation that read the order PENDING and lands after its settlement refunds the stake of a win that was paid too. */
  lemma StaleCancelRefundsAWin(b: Book, k: OrderId, isWin: bool)
    requires OrdersOk(b) && Conserved(b) && k < |b.orders| && b.orders[k].status == PENDING
    ensures var o := b.orders[k];
            var b' := Step(Settle(b, k, isWin), DoCancelFrom(k, o));
            Surplus(b', o.userId, o.account) == if isWin then o.invest + Payout(o, true) else 0
  {
    var o, once := b.orders[k], Settle(b, k, isWin);
    assert Surplus(b, o.userId, o.account) == 0;
    SettleSurplus(b, Current(b, k, isWin), o.userId, o.account);
    assert OrdersOk(once);
    CancelSurplus(once, k, o.userId, o.account);
  }

  /** Two cancellations that both read it PENDING refund the stake twice. */
  lemma StaleCancelRefundsTwice(b: Book, k: OrderId)
    requires OrdersOk(b) && Conserved(b) && k < |b.orders| && b.orders[k].status == PENDING
    ensures var o := b.orders[k];
            Surplus(Step(CancelFrom(b, k), DoCancelFrom(k, o)), o.userId, o.account) == o.invest
  {
    var o := b.orders[k];
    assert Surplus(b, o.userId, o.account) == 0;
    CancelSurplus(b, k, o.userId, o.account);
    OrdersOkStep(b, DoCancelFrom(k, o));
    CancelSurplus(CancelFrom(b, k), k, o.userId, o.account);
  }

  /** A credit that lands between the read and the write of a settlement is overwritten. */
  lemma InterruptedSettlementLosesCredit(b: Book, k: OrderId, isWin: bool, delta: int)
    requires OrdersOk(b) && Conserved(b) && k < |b.orders| && b.orders[k].status != CANCELED
    ensures var o := b.orders[k];
            var credited := Step(b, External(o.userId, o.account, delta));
            var b' := Step(credited, DoSettleFrom(k, o, b.users[o.userId], isWin));
            Surplus(b', o.userId, o.account) == -delta
  {
    var o := b.orders[k];
    var credited := Step(b, External(o.userId, o.account, delta));
    assert Surplus(b, o.userId, o.account) == 0;
    SurplusStep(b, External(o.userId, o.account, delta), o.userId, o.account);
    OrdersOkStep(b, External(o.userId, o.account, delta));
    SurplusStep(credited, DoSettleFrom(k, o, b.users[o.userId], isWin), o.userId, o.account);
  }

  // ---------- no account goes into the red ----------

  ghost predicate InTheBlack(b: Book) {
    forall userId: UserId, account: AccountType :: Balance(b, userId, account) >= 0
  }

  /** Settling an order again, an outside debit, or an opening on an outdated check takes more than there is. */
  predicate Overdraws(b: Book, e: Event) {
    var s := AsSettlement(b, e);
    || (s.Some? && s.value.k < |b.orders|
        && var o := b.orders[s.value.k];
           o.status == SETTLED && Balance(b, o.userId, o.account) + Payout(o, s.value.isWin) - o.actualReturn < 0)
    || (e.External? && e.userId in b.users && Balance(b, e.userId, e.account) + e.delta < 0)
    || (e.DoOpenFrom? && Accepts(b, e.userId, e.invest, e.returnRate, e.seenBalance) && Balance(b, e.userId, e.account) < e.invest)
  }

  lemma SettlementStaysBlackIff(b: Book, k: OrderId, isWin: bool)
    requires OrdersOk(b) && InTheBlack(b) && k < |b.orders| && b.orders[k].status != CANCELED
    ensures var o := b.orders[k];
            InTheBlack(Settle(b, k, isWin)) <==>
              (o.status == SETTLED ==> Balance(b, o.userId, o.account) + Payout(o, isWin) - o.actualReturn >= 0)
  {
    var o, b' := b.orders[k], Settle(b, k, isWin);
    PayoutBounds(o, isWin);
    forall userId: UserId, account: AccountType
      ensures Balance(b, userId, account) >= 0
      ensures Balance(b', userId, account) - Balance(b, userId, account)
           == if o.userId == userId && o.account == account then Contribution(b'.orders[k]) - Contribution(o) else 0
    {
      BalanceSettled(b, k, isWin, userId, account);
    }
  }

  lemma QuietStaysBlackIff(b: Book, e: Event)
    requires InTheBlack(b) && IsQuiet(e)
    requires OrdersOk(b)
    ensures InTheBlack(Step(b, e)) <==> !Overdraws(b, e)
  {
    if Overdraws(b, e) {
      assert Balance(Step(b, e), e.userId, e.account) < 0;
    } else {
      forall userId: UserId, account: AccountType ensures Balance(Step(b, e), userId, account) >= 0 {
        assert Balance(b, userId, account) >= 0;
      }
    }
  }

  /** A first settlement never takes more than the stake already paid: only these overdrafts make a balance negative. */
  lemma BlackStep(b: Book, e: Event)
    requires OrdersOk(b) && InTheBlack(b) && ReadsCurrent(b, e)
    ensures InTheBlack(Step(b, e)) <==> !Overdraws(b, e)
  {
    if IsQuiet(e) {
      QuietStaysBlackIff(b, e);
    } else {
      StepIsSettlement(b, e);
      var s := AsSettlement(b, e);
      if s.Some? {
        SettlementStaysBlackIff(b, s.value.k, s.value.isWin);
      }
    }
  }

  ghost predicate NeverOverdraws(b: Book, events: seq<Event>) {
    events != [] ==>
      var init := events[..|events| - 1];
      NeverOverdraws(b, init) && !Overdraws(Run(b, init), events[|init|])
  }

  lemma {:induction false} BlackOverRuns(b: Book, events: seq<Event>)
    requires Opening(b) && InTheBlack(b) && AlwaysCurrent(b, events) && NeverOverdraws(b, events)
    ensures InTheBlack(Run(b, events))
  {
    if events != [] {
      var init, e := events[..|events| - 1], events[|events| - 1];
      BlackOverRuns(b, init);
      LedgerOverRuns(b, init);
      assert ReadsCurrent(Run(b, init), e) && !Overdraws(Run(b, init), e);
      BlackStep(Run(b, init), e);
    }
  }
}
