/**
 Binary-option orders and the two accounts they are paid from. Money counts units of 1e-8 and the return
 rate units of 1e-4, the scales of their columns. How a win is decided is an input: every law holds for
 every outcome. Each service call is one step, except that a settlement also comes split from the order
 and user rows it read (`SettleFrom`), a cancellation from the order it read (`CancelFrom`) and an opening from
 the balance it checked (`OpenFrom`), because they read before they write.
*/
module TradeLedger {
  import opened Wrappers
  import opened Tally

  type UserId = nat
  type OrderId = nat

  const RATE_SCALE := 10000
  const MAX_RATE := 10 * RATE_SCALE

  datatype AccountType = DEMO | REAL
  datatype Status = PENDING | SETTLED | CANCELED

  datatype Order = Order(
    userId: UserId, account: AccountType, invest: int, returnRate: int, expiresAt: int,
    entryBalance: int, actualReturn: int, status: Status, settledBalance: Option<int>)

  datatype User = User(
    demoBalance: int, realBalance: int, verified: bool,
    totalProfitLoss: int, totalTrades: int, winRate: real)

  /** `external` is history: for each account its opening balance plus every delta from outside this service. */
  datatype Book = Book(
    users: map<UserId, User>, orders: seq<Order>, now: int,
    external: map<(UserId, AccountType), int>)

  datatype TradeError =
    | ValidationError
    | MarketClosed
    | UserNotFound
    | InsufficientBalance
    | NotVerified
    | DurationNotAllowed
    | OrderNotFound
    | NotYourOrder
    | OrderCanceled
    | NotCancelable

  function BalanceOf(user: User, account: AccountType): int {
    if account == DEMO then user.demoBalance else user.realBalance
  }

  function WithBalance(user: User, account: AccountType, balance: int): User {
    if account == DEMO then user.(demoBalance := balance) else user.(realBalance := balance)
  }

  // ---------- opening and cancelling ----------

  /** `durationAllowed` is whether the user's list of trade durations has this one; it is asked for REAL only. */
  function Open(b: Book, marketOpen: bool, userId: UserId, account: AccountType, invest: int, returnRate: int,
                duration: nat, durationAllowed: bool): (Book, Result<OrderId, TradeError>)
  {
    if invest <= 0 || returnRate < 0 || returnRate > MAX_RATE then (b, Err(ValidationError))
    else if !marketOpen then (b, Err(MarketClosed))
    else if userId !in b.users then (b, Err(UserNotFound))
    else
      var user := b.users[userId];
      var balance := BalanceOf(user, account);
      if balance < invest then (b, Err(InsufficientBalance))
      else if account == REAL && !user.verified then (b, Err(NotVerified))
      else if account == REAL && !durationAllowed then (b, Err(DurationNotAllowed))
      else
        (OpenFrom(b, userId, account, invest, returnRate, duration, balance), Ok(|b.orders|))
  }

  /** An opening that checked `seenBalance`, and now writes the order and takes the stake off the balance there is. */
  function OpenFrom(b: Book, userId: UserId, account: AccountType, invest: int, returnRate: int, duration: nat, seenBalance: int): Book
    requires userId in b.users
  {
    var order := Order(userId, account, invest, returnRate, b.now + duration * 1000, seenBalance, 0, PENDING, None);
    b.(orders := b.orders + [order], users := Credit(b.users, userId, account, -invest))
  }

  function Cancel(b: Book, k: OrderId, userId: UserId): (Book, Result<OrderId, TradeError>) {
    if k >= |b.orders| then (b, Err(OrderNotFound))
    else
      var order := b.orders[k];
      if order.userId != userId then (b, Err(NotYourOrder))
      else if order.status != PENDING then (b, Err(NotCancelable))
      else (CancelFrom(b, k), Ok(k))
  }

  /** A cancellation that read order `k` as PENDING, and now writes the row and the refund. */
  function CancelFrom(b: Book, k: OrderId): Book
    requires k < |b.orders|
  {
    var order := b.orders[k];
    b.(orders := b.orders[k := order.(status := CANCELED, actualReturn := 0)],
       users := Credit(b.users, order.userId, order.account, order.invest))
  }

  function Credit(users: map<UserId, User>, userId: UserId, account: AccountType, delta: int): map<UserId, User> {
    if userId in users
    then users[userId := WithBalance(users[userId], account, BalanceOf(users[userId], account) + delta)]
    else users
  }

  // ---------- settling ----------

  /** A win pays stake times rate, rounded to the column's grid; a loss is the stake. */
  function Payout(order: Order, isWin: bool): int {
    if isWin then (order.invest * order.returnRate + RATE_SCALE / 2) / RATE_SCALE else -order.invest
  }

  function RealSettled(userId: UserId): Order -> int {
    (o: Order) => if o.userId == userId && o.account == REAL && o.status == SETTLED then 1 else 0
  }

  function RealWin(userId: UserId): Order -> int {
    (o: Order) => if o.userId == userId && o.account == REAL && o.status == SETTLED && o.actualReturn > 0 then 1 else 0
  }

  function RealReturn(userId: UserId): Order -> int {
    (o: Order) => if o.userId == userId && o.account == REAL && o.status == SETTLED then o.actualReturn else 0
  }

  function Percentage(part: int, whole: int): real {
    if whole > 0 then part as real / whole as real * 100.0 else 0.0
  }

  /** A win rate has two decimals, in its DECIMAL(5,2) column and in what a client is shown. */
  function WinRate(wins: int, trades: int): real {
    (Percentage(wins, trades) * 100.0 + 0.5).Floor as real / 100.0
  }

  /**
   `updateUserAccountAfterSettle` writes to the row `user` figures it computed from the row it read, `seenUser`;
   `orders` already holds the settled order, so the win count includes it.
  */
  function AfterSettle(user: User, seenUser: User, userId: UserId, account: AccountType, invest: int, actualReturn: int,
                       wasSettled: bool, previousReturn: int, orders: seq<Order>): User
  {
    var delta := if wasSettled then actualReturn - previousReturn else invest + actualReturn;
    var paid := WithBalance(user, account, BalanceOf(seenUser, account) + delta);
    if account == DEMO then paid
    else
      var trades := if wasSettled then seenUser.totalTrades else seenUser.totalTrades + 1;
      paid.(totalProfitLoss := seenUser.totalProfitLoss + (actualReturn - previousReturn),
            totalTrades := trades,
            winRate := WinRate(SumBy(orders, RealWin(userId)), trades))
  }

  /** A settlement that read `seen` as order `k` and `seenUser` as its owner's row, and now writes. */
  function SettleFrom(b: Book, k: OrderId, seen: Order, seenUser: User, isWin: bool): Book
    requires k < |b.orders|
  {
    var order := b.orders[k];
    var r := Payout(order, isWin);
    var settled := b.orders[k := order.(actualReturn := r, status := SETTLED)];
    var users' := if order.userId in b.users
      then b.users[order.userId := AfterSettle(b.users[order.userId], seenUser, order.userId, order.account, order.invest, r,
                                               seen.status == SETTLED, seen.actualReturn, settled)]
      else b.users;
    b.(users := users',
       orders := settled[k := settled[k].(settledBalance := Some(order.entryBalance + r))])
  }

  const NOBODY := User(0, 0, false, 0, 0, 0.0)

  function UserRow(users: map<UserId, User>, userId: UserId): User {
    if userId in users then users[userId] else NOBODY
  }

  /** A settlement whose reads are current. */
  function Settle(b: Book, k: OrderId, isWin: bool): Book
    requires k < |b.orders|
  {
    SettleFrom(b, k, b.orders[k], UserRow(b.users, b.orders[k].userId), isWin)
  }

  /** `settleTransactionBySystem`: an order already settled is settled again; only a canceled one is refused. */
  function SystemSettle(b: Book, k: OrderId, isWin: bool): (Book, Result<OrderId, TradeError>) {
    if k >= |b.orders| then (b, Err(OrderNotFound))
    else if b.orders[k].status == CANCELED then (b, Err(OrderCanceled))
    else (Settle(b, k, isWin), Ok(k))
  }

  function UserSettle(b: Book, k: OrderId, userId: UserId, isWin: bool): (Book, Result<OrderId, TradeError>) {
    if k >= |b.orders| then (b, Err(OrderNotFound))
    else if b.orders[k].userId != userId then (b, Err(NotYourOrder))
    else if b.orders[k].status == SETTLED then (b, Ok(k))
    else if b.orders[k].status == CANCELED then (b, Err(OrderCanceled))
    else SystemSettle(b, k, isWin)
  }

  /** The queue job skips whatever is no longer PENDING. */
  function QueueSettle(b: Book, k: OrderId, isWin: bool): Book {
    if k >= |b.orders| || b.orders[k].status != PENDING then b else SystemSettle(b, k, isWin).0
  }

  // ---------- runs ----------

  datatype Event =
    | Tick(ms: nat)
    | DoOpen(marketOpen: bool, userId: UserId, account: AccountType, invest: int, returnRate: int,
             duration: nat, durationAllowed: bool)
    | DoCancel(k: OrderId, userId: UserId)
    | DoUserSettle(k: OrderId, userId: UserId, isWin: bool)
    | DoQueueSettle(k: OrderId, isWin: bool)
    | DoSystemSettle(k: OrderId, isWin: bool)
    | DoSettleFrom(k: OrderId, seen: Order, seenUser: User, isWin: bool)
    | DoCancelFrom(k: OrderId, seen: Order)
    | DoOpenFrom(userId: UserId, account: AccountType, invest: int, returnRate: int, duration: nat, seenBalance: int)
    | External(userId: UserId, account: AccountType, delta: int)

  function Step(b: Book, e: Event): Book {
    match e
    case Tick(ms) => b.(now := b.now + ms)
    case DoOpen(m, u, a, i, r, d, ok) => Open(b, m, u, a, i, r, d, ok).0
    case DoCancel(k, u) => Cancel(b, k, u).0
    case DoUserSettle(k, u, w) => UserSettle(b, k, u, w).0
    case DoQueueSettle(k, w) => QueueSettle(b, k, w)
    case DoSystemSettle(k, w) => SystemSettle(b, k, w).0
    case DoSettleFrom(k, seen, seenUser, w) => if k < |b.orders| then SettleFrom(b, k, seen, seenUser, w) else b
    case DoCancelFrom(k, seen) => if k < |b.orders| && seen.status == PENDING then CancelFrom(b, k) else b
    case DoOpenFrom(u, a, i, r, d, seen) => if Accepts(b, u, i, r, seen) then OpenFrom(b, u, a, i, r, d, seen) else b
    case External(u, a, delta) =>
      if u in b.users
      then b.(users := Credit(b.users, u, a, delta), external := b.external[(u, a) := Known(b.external, u, a) + delta])
      else b
  }

  /** The checks an opening has passed on what it read. */
  predicate Accepts(b: Book, userId: UserId, invest: int, returnRate: int, seenBalance: int) {
    userId in b.users && 0 < invest <= seenBalance && 0 <= returnRate <= MAX_RATE
  }

  function Known(external: map<(UserId, AccountType), int>, userId: UserId, account: AccountType): int {
    if (userId, account) in external then external[(userId, account)] else 0
  }

  function Run(b: Book, events: seq<Event>): Book {
    if events == [] then b else Step(Run(b, events[..|events| - 1]), events[|events| - 1])
  }

  lemma {:induction false} RunConcat(b: Book, first: seq<Event>, second: seq<Event>)
    ensures Run(b, first + second) == Run(Run(b, first), second)
  {
    if second == [] {
      assert first + second == first;
    } else {
      var init := second[..|second| - 1];
      assert (first + second)[..|first + second| - 1] == first + init;
      RunConcat(b, first, init);
    }
  }
}
