/** The transaction log service as it runs: rows updated in place, and the expiry sweep as a loop that other requests interrupt. */
module TradeService {
  import opened Wrappers
  import opened Tally
  import opened TradeLedger
  import opened TradeLaws

  /** The orders a sweep selects. */
  predicate Expired(o: Order, now: int) {
    o.status == PENDING && o.expiresAt <= now
  }

  /**
   What happens while a sweep works through `snapshot[..n]`: before each order, other requests get in. An
   outcome of `None` is a price look-up or settlement that throws; the sweep goes on with the next order.
  */
  function Interleaving(snapshot: seq<OrderId>, others: seq<seq<Event>>, outcomes: seq<Option<bool>>, n: nat): seq<Event>
    requires n <= |snapshot| && |others| == |outcomes| == |snapshot|
  {
    if n == 0 then []
    else Interleaving(snapshot, others, outcomes, n - 1) + Turn(others[n - 1], snapshot[n - 1], outcomes[n - 1])
  }

  function Turn(other: seq<Event>, k: OrderId, outcome: Option<bool>): seq<Event> {
    other + Attempt(k, outcome)
  }

  function Attempt(k: OrderId, outcome: Option<bool>): seq<Event> {
    if outcome.Some? then [DoSystemSettle(k, outcome.value)] else []
  }

  class Service {
    var users: map<UserId, User>
    var orders: seq<Order>
    var now: int
    ghost var external: map<(UserId, AccountType), int>

    ghost function State(): Book
      reads this
    {
      Book(users, orders, now, external)
    }

    constructor (users: map<UserId, User>, ghost external: map<(UserId, AccountType), int>)
      ensures State() == Book(users, [], 0, external)
    {
      this.users, this.orders, this.now := users, [], 0;
      this.external := external;
    }

    method CreateTransaction(marketOpen: bool, userId: UserId, account: AccountType, invest: int, returnRate: int,
                             duration: nat, durationAllowed: bool) returns (r: Result<OrderId, TradeError>)
      modifies this`users, this`orders
      ensures (State(), r) == Open(old(State()), marketOpen, userId, account, invest, returnRate, duration, durationAllowed)
    {
      if invest <= 0 || returnRate < 0 || returnRate > MAX_RATE {
        return Err(ValidationError);
      }
      if !marketOpen {
        return Err(MarketClosed);
      }
      if userId !in users {
        return Err(UserNotFound);
      }
      var user := users[userId];
      var balance := if account == DEMO then user.demoBalance else user.realBalance;
      if balance < invest {
        return Err(InsufficientBalance);
      }
      if account == REAL {
        if !user.verified {
          return Err(NotVerified);
        }
        if !durationAllowed {
          return Err(DurationNotAllowed);
        }
      }
      r := Ok(|orders|);
      TakeStake(userId, account, invest, returnRate, duration, balance);
    }

    /** The writes of an opening. */
    method TakeStake(userId: UserId, account: AccountType, invest: int, returnRate: int, duration: nat, seenBalance: int)
      requires userId in users
      modifies this`users, this`orders
      ensures State() == OpenFrom(old(State()), userId, account, invest, returnRate, duration, seenBalance)
    {
      orders := orders + [Order(userId, account, invest, returnRate, now + duration * 1000, seenBalance, 0, PENDING, None)];
      var user := users[userId];
      if account == DEMO {
        users := users[userId := user.(demoBalance := user.demoBalance - invest)];
      } else {
        users := users[userId := user.(realBalance := user.realBalance - invest)];
      }
    }

    method CancelTransaction(k: OrderId, userId: UserId) returns (r: Result<OrderId, TradeError>)
      modifies this`users, this`orders
      ensures (State(), r) == Cancel(old(State()), k, userId)
    {
      if k >= |orders| {
        return Err(OrderNotFound);
      }
      var order := orders[k];
      if order.userId != userId {
        return Err(NotYourOrder);
      }
      if order.status != PENDING {
        return Err(NotCancelable);
      }
      RefundCanceled(k);
      r := Ok(k);
    }

    /** The writes of a cancellation. */
    method RefundCanceled(k: OrderId)
      requires k < |orders|
      modifies this`users, this`orders
      ensures State() == CancelFrom(old(State()), k)
    {
      var order := orders[k];
      orders := orders[k := order.(status := CANCELED, actualReturn := 0)];
      if order.userId in users {
        var user := users[order.userId];
        users := users[order.userId := if order.account == DEMO
                                       then user.(demoBalance := user.demoBalance + order.invest)
                                       else user.(realBalance := user.realBalance + order.invest)];
      }
    }

    method SettleTransactionBySystem(k: OrderId, isWin: bool) returns (r: Result<OrderId, TradeError>)
      modifies this`users, this`orders
      ensures (State(), r) == SystemSettle(old(State()), k, isWin)
    {
      if k >= |orders| {
        return Err(OrderNotFound);
      }
      var order := orders[k];
      if order.status == CANCELED {
        return Err(OrderCanceled);
      }
      var wasSettled := order.status == SETTLED;
      var actualReturn := Payout(order, isWin);
      orders := orders[k := order.(actualReturn := actualReturn, status := SETTLED)];
      UpdateUserAccountAfterSettle(order.userId, order.invest, actualReturn, order.account, wasSettled, order.actualReturn);
      orders := orders[k := orders[k].(settledBalance := Some(order.entryBalance + actualReturn))];
      r := Ok(k);
    }

    method UpdateUserAccountAfterSettle(userId: UserId, invest: int, actualReturn: int, account: AccountType,
                                        wasSettled: bool, previousReturn: int)
      modifies this`users
      ensures userId !in old(users) ==> users == old(users)
      ensures userId in old(users) ==>
                users == old(users)[userId := AfterSettle(old(users)[userId], old(users)[userId], userId, account, invest,
                                                          actualReturn, wasSettled, previousReturn, orders)]
    {
      if userId !in users {
        return;
      }
      var user := users[userId];
      var delta := if wasSettled then actualReturn - previousReturn else invest + actualReturn;
      if account == DEMO {
        users := users[userId := user.(demoBalance := user.demoBalance + delta)];
        return;
      }
      var trades := user.totalTrades;
      if !wasSettled {
        trades := trades + 1;
      }
      var wins := CountWins(userId);
      users := users[userId := user.(realBalance := user.realBalance + delta,
                                     totalProfitLoss := user.totalProfitLoss + (actualReturn - previousReturn),
                                     totalTrades := trades,
                                     winRate := WinRate(wins, trades))];
    }

    method CountWins(userId: UserId) returns (wins: nat)
      ensures wins == SumBy(orders, RealWin(userId))
    {
      wins := 0;
      for n := 0 to |orders|
        invariant wins == SumBy(orders[..n], RealWin(userId))
      {
        assert orders[..n + 1] == orders[..n] + [orders[n]];
        SumAppend(orders[..n], orders[n], RealWin(userId));
        var o := orders[n];
        if o.userId == userId && o.status == SETTLED && o.account == REAL && o.actualReturn > 0 {
          wins := wins + 1;
        }
      }
      assert orders[..|orders|] == orders;
    }

    method SettleTransaction(k: OrderId, userId: UserId, isWin: bool) returns (r: Result<OrderId, TradeError>)
      modifies this`users, this`orders
      ensures (State(), r) == UserSettle(old(State()), k, userId, isWin)
    {
      if k >= |orders| {
        return Err(OrderNotFound);
      }
      if orders[k].userId != userId {
        return Err(NotYourOrder);
      }
      if orders[k].status == SETTLED {
        return Ok(k);
      }
      if orders[k].status == CANCELED {
        return Err(OrderCanceled);
      }
      r := SettleTransactionBySystem(k, isWin);
    }

    method AutoSettleByOrderNumber(k: OrderId, isWin: bool)
      modifies this`users, this`orders
      ensures State() == QueueSettle(old(State()), k, isWin)
    {
      if k >= |orders| || orders[k].status != PENDING {
        return;
      }
      var _ := SettleTransactionBySystem(k, isWin);
    }

    /** The statistics a client sees: trades and profit are cached, the win rate is recounted. */
    method GetUserStatistics(userId: UserId)
      returns (totalProfitLoss: int, totalTrades: int, settledTrades: nat, winningTrades: nat, losingTrades: nat, winRate: real)
      ensures totalTrades == UserRow(users, userId).totalTrades && totalProfitLoss == UserRow(users, userId).totalProfitLoss
      ensures settledTrades == SumBy(orders, RealSettled(userId)) && winningTrades == SumBy(orders, RealWin(userId))
      ensures settledTrades == winningTrades + losingTrades
      ensures winRate == WinRate(winningTrades, settledTrades)
      ensures userId in users && StatsAgree(State(), userId) ==>
                && totalTrades == settledTrades && winRate == users[userId].winRate
                && totalProfitLoss == SumBy(orders, RealReturn(userId))
    {
      totalTrades, totalProfitLoss := 0, 0;
      if userId in users {
        totalTrades, totalProfitLoss := users[userId].totalTrades, users[userId].totalProfitLoss;
      }
      settledTrades := 0;
      for n := 0 to |orders|
        invariant settledTrades == SumBy(orders[..n], RealSettled(userId))
      {
        assert orders[..n + 1] == orders[..n] + [orders[n]];
        SumAppend(orders[..n], orders[n], RealSettled(userId));
        if orders[n].userId == userId && orders[n].status == SETTLED && orders[n].account == REAL {
          settledTrades := settledTrades + 1;
        }
      }
      assert orders[..|orders|] == orders;
      winningTrades := CountWins(userId);
      WinsAreSettled(orders, userId);
      losingTrades := settledTrades - winningTrades;
      winRate := WinRate(winningTrades, settledTrades);
    }

    /** Another request runs to completion. */
    method Handle(e: Event)
      modifies this`users, this`orders, this`now, this`external
      ensures State() == Step(old(State()), e)
    {
      match e
      case Tick(ms) => now := now + ms;
      case DoOpen(m, u, a, i, r, d, ok) => var _ := CreateTransaction(m, u, a, i, r, d, ok);
      case DoCancel(k, u) => var _ := CancelTransaction(k, u);
      case DoUserSettle(k, u, w) => var _ := SettleTransaction(k, u, w);
      case DoQueueSettle(k, w) => AutoSettleByOrderNumber(k, w);
      case DoSystemSettle(k, w) => var _ := SettleTransactionBySystem(k, w);
      case DoSettleFrom(k, seen, seenUser, w) =>
        var after := SettleFromRow(users, orders, k, seen, seenUser, w);
        users, orders := after.0, after.1;
      case DoCancelFrom(k, seen) =>
        if k < |orders| && seen.status == PENDING {
          RefundCanceled(k);
        }
      case DoOpenFrom(u, a, i, r, d, seen) =>
        if u in users && 0 < i <= seen && 0 <= r <= MAX_RATE {
          TakeStake(u, a, i, r, d, seen);
        }
      case External(u, a, delta) =>
        if u in users {
          users := Credit(users, u, a, delta);
          external := external[(u, a) := Known(external, u, a) + delta];
        }
    }

    method HandleAll(events: seq<Event>)
      modifies this`users, this`orders, this`now, this`external
      ensures State() == Run(old(State()), events)
    {
      for n := 0 to |events|
        invariant State() == Run(old(State()), events[..n])
      {
        assert events[..n + 1][..n] == events[..n];
        Handle(events[n]);
      }
      assert events[..|events|] == events;
    }

    /**
     The sweep: a snapshot of the expired PENDING orders, then one settlement per order, with whatever other
     requests do in between (`others[n]` before the n-th order). An order whose turn throws is skipped.
    */
    method AutoSettleExpiredTransactions(others: seq<seq<Event>>, outcomes: seq<Option<bool>>)
      returns (snapshot: seq<OrderId>, settledCount: nat)
      requires |others| == |outcomes| == SumBy(orders, ExpiredCount(now))
      modifies this`users, this`orders, this`now, this`external
      ensures |snapshot| == |outcomes|
      ensures forall k: OrderId :: k in snapshot <==> k < |old(orders)| && Expired(old(orders)[k], old(now))
      ensures forall i, j :: 0 <= i < j < |snapshot| ==> snapshot[i] < snapshot[j]
      ensures State() == Run(old(State()), Interleaving(snapshot, others, outcomes, |snapshot|))
      ensures settledCount == SettledBy(old(State()), snapshot, others, outcomes, |snapshot|)
      ensures forall i :: 0 <= i < |snapshot| && outcomes[i].Some? ==> LeftPending(State(), snapshot[i])
    {
      snapshot := ExpiredOrders();
      settledCount := 0;
      ghost var b := State();
      for n := 0 to |snapshot|
        invariant State() == Run(b, Interleaving(snapshot, others, outcomes, n))
        invariant settledCount == SettledBy(b, snapshot, others, outcomes, n)
      {
        var done := OneTurn(others[n], snapshot[n], outcomes[n]);
        RunTurn(b, Interleaving(snapshot, others, outcomes, n), others[n], snapshot[n], outcomes[n]);
        if done {
          settledCount := settledCount + 1;
        }
      }
      SweepLeavesNoneBehind(b, snapshot, others, outcomes, Interleaving(snapshot, others, outcomes, |snapshot|));
    }

    /** Other requests, then the attempt on one order of the sweep. */
    method OneTurn(other: seq<Event>, k: OrderId, outcome: Option<bool>) returns (done: bool)
      modifies this`users, this`orders, this`now, this`external
      ensures State() == Run(Run(old(State()), other), Attempt(k, outcome))
      ensures done <==> outcome.Some? && Settleable(Run(old(State()), other), k)
    {
      HandleAll(other);
      if outcome.None? {
        return false;
      }
      RunOne(State(), DoSystemSettle(k, outcome.value));
      var r := SettleTransactionBySystem(k, outcome.value);
      done := r.Ok?;
    }

    method ExpiredOrders() returns (found: seq<OrderId>)
      ensures |found| == SumBy(orders, ExpiredCount(now))
      ensures forall k: OrderId :: k in found <==> k < |orders| && Expired(orders[k], now)
      ensures forall i, j :: 0 <= i < j < |found| ==> found[i] < found[j]
    {
      found := [];
      for n := 0 to |orders|
        invariant |found| == SumBy(orders[..n], ExpiredCount(now))
        invariant forall k: OrderId :: k in found <==> k < n && Expired(orders[k], now)
        invariant forall i :: 0 <= i < |found| ==> found[i] < n
        invariant forall i, j :: 0 <= i < j < |found| ==> found[i] < found[j]
      {
        assert orders[..n + 1] == orders[..n] + [orders[n]];
        SumAppend(orders[..n], orders[n], ExpiredCount(now));
        if Expired(orders[n], now) {
          found := found + [n];
        }
      }
      assert orders[..|orders|] == orders;
    }
  }

  function ExpiredCount(now: int): Order -> int {
    (o: Order) => if Expired(o, now) then 1 else 0
  }

  function SettleFromRow(users: map<UserId, User>, orders: seq<Order>, k: OrderId, seen: Order, seenUser: User, isWin: bool)
    : (map<UserId, User>, seq<Order>)
  {
    if k < |orders|
    then var b := SettleFrom(Book(users, orders, 0, map[]), k, seen, seenUser, isWin); (b.users, b.orders)
    else (users, orders)
  }

  lemma RunOne(b: Book, e: Event)
    ensures Run(b, [e]) == Step(b, e)
  {
    assert [e][..0] == [];
  }

  lemma RunTurn(b: Book, before: seq<Event>, other: seq<Event>, k: OrderId, outcome: Option<bool>)
    ensures Run(b, before + other) == Run(Run(b, before), other)
    ensures Run(b, before + Turn(other, k, outcome)) == Run(Run(b, before + other), Attempt(k, outcome))
  {
    RunConcat(b, before, other);
    assert before + Turn(other, k, outcome) == (before + other) + Attempt(k, outcome);
    RunConcat(b, before + other, Attempt(k, outcome));
  }

  predicate Settleable(b: Book, k: OrderId) {
    k < |b.orders| && b.orders[k].status != CANCELED
  }

  /** How many of the first `n` orders did not throw and were not canceled when their turn came. */
  function SettledBy(b: Book, snapshot: seq<OrderId>, others: seq<seq<Event>>, outcomes: seq<Option<bool>>, n: nat): nat
    requires n <= |snapshot| && |others| == |outcomes| == |snapshot|
  {
    if n == 0 then 0
    else
      var turn := Run(b, Interleaving(snapshot, others, outcomes, n - 1) + others[n - 1]);
      SettledBy(b, snapshot, others, outcomes, n - 1)
        + if outcomes[n - 1].Some? && Settleable(turn, snapshot[n - 1]) then 1 else 0
  }

  // ---------- what a sweep achieves ----------

  ghost predicate LeftPending(b: Book, k: OrderId) {
    k < |b.orders| && b.orders[k].status != PENDING
  }

  /** Once an order has left PENDING it never comes back, whatever is read when. */
  lemma {:induction false} LeftPendingForGood(b: Book, events: seq<Event>, k: OrderId)
    requires k < |b.orders|
    ensures k < |Run(b, events).orders| && (LeftPending(b, k) ==> LeftPending(Run(b, events), k))
  {
    if events != [] {
      var init := events[..|events| - 1];
      var m, e := Run(b, init), events[|init|];
      assert k < |m.orders| && (LeftPending(b, k) ==> LeftPending(m, k)) by { LeftPendingForGood(b, init, k); }
      assert Run(b, events) == Step(m, e);
      LeavesPendingStep(m, e, k);
    }
  }

  lemma AttemptSettles(m: Book, k: OrderId, isWin: bool)
    requires k < |m.orders|
    ensures var m' := Step(m, DoSystemSettle(k, isWin)); k < |m'.orders| && m'.orders[k].status != PENDING
  {
  }

  /** After a turn that does not throw an order is settled, unless it was canceled before. */
  lemma TurnSettles(b: Book, before: seq<Event>, other: seq<Event>, k: OrderId, isWin: bool)
    requires k < |b.orders|
    ensures LeftPending(Run(b, before + Turn(other, k, Some(isWin))), k)
  {
    var m := Run(b, before + other);
    assert k < |m.orders| by { LeftPendingForGood(b, before + other, k); }
    RunTurn(b, before, other, k, Some(isWin));
    RunOne(m, DoSystemSettle(k, isWin));
    AttemptSettles(m, k, isWin);
  }

  lemma StaysSettled(b: Book, before: seq<Event>, turn: seq<Event>, k: OrderId)
    requires LeftPending(Run(b, before), k)
    ensures LeftPending(Run(b, before + turn), k)
  {
    RunConcat(b, before, turn);
    LeftPendingForGood(Run(b, before), turn, k);
  }

  /** However requests interleave with the sweep, an order of its snapshot is left PENDING only if its own turn threw. */
  lemma {:induction false} SweepLeavesNonePending(b: Book, snapshot: seq<OrderId>, others: seq<seq<Event>>, outcomes: seq<Option<bool>>, n: nat, i: nat)
    requires i < n <= |snapshot| && |others| == |outcomes| == |snapshot| && snapshot[i] < |b.orders| && outcomes[i].Some?
    ensures LeftPending(Run(b, Interleaving(snapshot, others, outcomes, n)), snapshot[i])
  {
    var before, turn := Interleaving(snapshot, others, outcomes, n - 1), Turn(others[n - 1], snapshot[n - 1], outcomes[n - 1]);
    assert LeftPending(Run(b, before + turn), snapshot[i]) by {
      if i == n - 1 {
        TurnSettles(b, before, others[i], snapshot[i], outcomes[i].value);
      } else {
        assert LeftPending(Run(b, before), snapshot[i]) by { SweepLeavesNonePending(b, snapshot, others, outcomes, n - 1, i); }
        StaysSettled(b, before, turn, snapshot[i]);
      }
    }
    assert Interleaving(snapshot, others, outcomes, n) == before + turn;
  }

  lemma SweepLeavesNoneBehind(b: Book, snapshot: seq<OrderId>, others: seq<seq<Event>>, outcomes: seq<Option<bool>>, events: seq<Event>)
    requires |others| == |outcomes| == |snapshot| && forall k :: k in snapshot ==> k < |b.orders|
    requires events == Interleaving(snapshot, others, outcomes, |snapshot|)
    ensures forall i :: 0 <= i < |snapshot| && outcomes[i].Some? ==> LeftPending(Run(b, events), snapshot[i])
  {
    forall i | 0 <= i < |snapshot| && outcomes[i].Some? ensures LeftPending(Run(b, events), snapshot[i]) {
      assert snapshot[i] in snapshot;
      SweepLeavesNonePending(b, snapshot, others, outcomes, |snapshot|, i);
    }
  }

  /** The orders of the snapshot after the first `n` turns: settled, unless their turn threw or has not come. */
  ghost predicate SweptTo(b: Book, snapshot: seq<OrderId>, outcomes: seq<Option<bool>>, n: nat, size: nat)
    requires |outcomes| == |snapshot|
  {
    && |b.orders| == size
    && forall i :: 0 <= i < |snapshot| ==>
         snapshot[i] < size && b.orders[snapshot[i]].status == if i < n && outcomes[i].Some? then SETTLED else PENDING
  }

  lemma SettlesOne(m: Book, k: OrderId, isWin: bool)
    requires k < |m.orders| && m.orders[k].status == PENDING
    ensures var orders' := Step(m, DoSystemSettle(k, isWin)).orders;
            |orders'| == |m.orders| && orders'[k].status == SETTLED
            && forall j :: 0 <= j < |m.orders| && j != k ==> orders'[j] == m.orders[j]
  {
  }

  lemma SweptOneMore(m: Book, snapshot: seq<OrderId>, outcomes: seq<Option<bool>>, n: nat, size: nat)
    requires n < |snapshot| == |outcomes| && SweptTo(m, snapshot, outcomes, n, size)
    requires Ascending(snapshot)
    ensures SweptTo(Run(m, Attempt(snapshot[n], outcomes[n])), snapshot, outcomes, n + 1, size)
  {
    if outcomes[n].Some? {
      RunOne(m, DoSystemSettle(snapshot[n], outcomes[n].value));
      SettlesOne(m, snapshot[n], outcomes[n].value);
    }
  }

  lemma QuietTurn(b: Book, snapshot: seq<OrderId>, others: seq<seq<Event>>, outcomes: seq<Option<bool>>, n: nat)
    requires n < |snapshot| && |others| == |outcomes| == |snapshot| && others[n] == []
    ensures Run(b, Interleaving(snapshot, others, outcomes, n + 1))
         == Run(Run(b, Interleaving(snapshot, others, outcomes, n)), Attempt(snapshot[n], outcomes[n]))
  {
    var before := Interleaving(snapshot, others, outcomes, n);
    RunTurn(b, before, [], snapshot[n], outcomes[n]);
    assert before + [] == before;
  }

  ghost predicate Quiet(others: seq<seq<Event>>) {
    forall n :: 0 <= n < |others| ==> |others[n]| == 0
  }

  ghost predicate Ascending(snapshot: seq<OrderId>) {
    forall i, j :: 0 <= i < j < |snapshot| ==> snapshot[i] < snapshot[j]
  }

  lemma SweptOneTurn(b: Book, snapshot: seq<OrderId>, others: seq<seq<Event>>, outcomes: seq<Option<bool>>, n: nat, size: nat)
    requires n < |snapshot| && |others| == |outcomes| == |snapshot| && Quiet(others) && Ascending(snapshot)
    requires SweptTo(Run(b, Interleaving(snapshot, others, outcomes, n)), snapshot, outcomes, n, size)
    ensures SweptTo(Run(b, Interleaving(snapshot, others, outcomes, n + 1)), snapshot, outcomes, n + 1, size)
  {
    QuietTurn(b, snapshot, others, outcomes, n);
    SweptOneMore(Run(b, Interleaving(snapshot, others, outcomes, n)), snapshot, outcomes, n, size);
  }

  /** Undisturbed, a sweep leaves exactly the orders PENDING whose turn threw. */
  lemma {:induction false} UndisturbedSweep(b: Book, snapshot: seq<OrderId>, others: seq<seq<Event>>, outcomes: seq<Option<bool>>, n: nat, size: nat)
    requires n <= |snapshot| && |others| == |outcomes| == |snapshot| && Quiet(others) && Ascending(snapshot)
    requires SweptTo(b, snapshot, outcomes, 0, size)
    ensures SweptTo(Run(b, Interleaving(snapshot, others, outcomes, n)), snapshot, outcomes, n, size)
  {
    if n == 0 {
      assert Run(b, Interleaving(snapshot, others, outcomes, 0)) == b;
    } else {
      var last := n - 1;
      assert SweptTo(Run(b, Interleaving(snapshot, others, outcomes, last)), snapshot, outcomes, last, size) by {
        UndisturbedSweep(b, snapshot, others, outcomes, last, size);
      }
      SweptOneTurn(b, snapshot, others, outcomes, last, size);
      assert last + 1 == n;
    }
  }
}
