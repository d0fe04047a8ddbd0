/** What opening, cancelling and settling accept and refuse, when orders expire, and what moves on whose account. */
module TradeOutcomes {
  import opened Wrappers
  import opened Tally
  import opened TradeLedger
  import opened TradeLaws
  import opened TradeService

  // ---------- opening ----------

  /** An order is accepted exactly when all of this holds. */
  lemma OpenAcceptedIff(b: Book, marketOpen: bool, userId: UserId, account: AccountType, invest: int, returnRate: int, duration: nat, allowed: bool)
    ensures Open(b, marketOpen, userId, account, invest, returnRate, duration, allowed).1.Ok? <==>
      && invest > 0 && 0 <= returnRate <= 100_000 && marketOpen && userId in b.users
      && (account == DEMO ==> invest <= b.users[userId].demoBalance)
      && (account == REAL ==> invest <= b.users[userId].realBalance && b.users[userId].verified && allowed)
  {
  }

  /** A refusal changes nothing and names the first check that failed, in this order. */
  lemma OpenRefused(b: Book, marketOpen: bool, userId: UserId, account: AccountType, invest: int, returnRate: int, duration: nat, allowed: bool)
    ensures var (b', r) := Open(b, marketOpen, userId, account, invest, returnRate, duration, allowed);
      var badTerms, unknown := invest <= 0 || returnRate < 0 || returnRate > 100_000, userId !in b.users;
      var poor := !unknown && invest > if account == DEMO then b.users[userId].demoBalance else b.users[userId].realBalance;
      var unverified := !unknown && account == REAL && !b.users[userId].verified;
      && (r.Err? ==> b' == b)
      && (r == Err(ValidationError) <==> badTerms)
      && (r == Err(MarketClosed) <==> !badTerms && !marketOpen)
      && (r == Err(UserNotFound) <==> !badTerms && marketOpen && unknown)
      && (r == Err(InsufficientBalance) <==> !badTerms && marketOpen && poor)
      && (r == Err(NotVerified) <==> !badTerms && marketOpen && !poor && unverified)
      && (r == Err(DurationNotAllowed) <==> !badTerms && marketOpen && !unknown && !poor && !unverified && account == REAL && !allowed)
  {
  }

  /** An accepted order is written with its terms, the balance before it and its expiry, and its stake leaves that account only. */
  lemma OpenWrites(b: Book, marketOpen: bool, userId: UserId, account: AccountType, invest: int, returnRate: int, duration: nat, allowed: bool)
    requires Open(b, marketOpen, userId, account, invest, returnRate, duration, allowed).1.Ok?
    ensures var (b', r) := Open(b, marketOpen, userId, account, invest, returnRate, duration, allowed);
      && userId in b.users && r.value == |b.orders| && b'.now == b.now && b'.external == b.external
      && var user := b.users[userId];
         var balance := if account == DEMO then user.demoBalance else user.realBalance;
         && b'.orders == b.orders + [Order(userId, account, invest, returnRate, b.now + 1000 * duration, balance, 0, PENDING, None)]
         && b'.users == b.users[userId := if account == DEMO then user.(demoBalance := user.demoBalance - invest)
                                                              else user.(realBalance := user.realBalance - invest)]
  {
  }

  // ---------- expiry ----------

  /** Whatever happens, an order's terms and its expiry stay as they were written, and time does not go back. */
  lemma TermsStay(b: Book, e: Event, k: OrderId)
    requires k < |b.orders|
    ensures var b' := Step(b, e);
      && k < |b'.orders| && b.now <= b'.now
      && b'.orders[k].expiresAt == b.orders[k].expiresAt && b'.orders[k].userId == b.orders[k].userId
      && b'.orders[k].account == b.orders[k].account && b'.orders[k].invest == b.orders[k].invest
      && b'.orders[k].returnRate == b.orders[k].returnRate && b'.orders[k].entryBalance == b.orders[k].entryBalance
  {
  }

  lemma {:induction false} ExpiryStays(b: Book, events: seq<Event>, k: OrderId)
    requires k < |b.orders|
    ensures var b' := Run(b, events); k < |b'.orders| && b'.orders[k].expiresAt == b.orders[k].expiresAt && b.now <= b'.now
  {
    if events != [] {
      var init, e := events[..|events| - 1], events[|events| - 1];
      var m := Run(b, init);
      assert k < |m.orders| && m.orders[k].expiresAt == b.orders[k].expiresAt && b.now <= m.now by { ExpiryStays(b, init, k); }
      assert Run(b, events) == Step(m, e);
      TermsStay(m, e, k);
    }
  }

  /**
   After an opening at time t, at any later moment the sweep selects the order exactly when it is PENDING and
   its duration has passed since t: never before its time, and never missed from then on.
  */
  lemma SweepSelectsOnTime(b: Book, open: Event, events: seq<Event>)
    requires open.DoOpen?
    requires Open(b, open.marketOpen, open.userId, open.account, open.invest, open.returnRate, open.duration, open.durationAllowed).1.Ok?
    ensures var k, b' := |b.orders|, Run(Step(b, open), events);
      && k < |b'.orders|
      && (Expired(b'.orders[k], b'.now) <==> b'.orders[k].status == PENDING && b'.now >= b.now + 1000 * open.duration)
  {
    ExpiryStays(Step(b, open), events, |b.orders|);
  }

  // ---------- cancelling ----------

  /** Its owner may cancel a PENDING order, and nobody may cancel anything else. */
  lemma CancelOutcome(b: Book, k: OrderId, userId: UserId)
    ensures var (b', r) := Cancel(b, k, userId);
      && (r.Ok? <==> k < |b.orders| && b.orders[k].userId == userId && b.orders[k].status == PENDING)
      && (r.Ok? ==> b'.orders == b.orders[k := b.orders[k].(status := CANCELED, actualReturn := 0)])
      && (r.Ok? && userId in b.users ==>
            var user, o := b.users[userId], b.orders[k];
            b'.users == b.users[userId := if o.account == DEMO then user.(demoBalance := user.demoBalance + o.invest)
                                                               else user.(realBalance := user.realBalance + o.invest)])
      && (r.Err? ==>
            && b' == b
            && r.error == if k >= |b.orders| then OrderNotFound else if b.orders[k].userId != userId then NotYourOrder else NotCancelable)
  {
  }

  // ---------- settling ----------

  /** Only the owner settles by request, and only once; a queue job touches PENDING orders only. */
  lemma WhoSettles(b: Book, k: OrderId, userId: UserId, isWin: bool)
    ensures var (b', r) := UserSettle(b, k, userId, isWin);
      && (r.Ok? <==> k < |b.orders| && b.orders[k].userId == userId && b.orders[k].status != CANCELED)
      && (b' != b ==> k < |b.orders| && b.orders[k].userId == userId && b.orders[k].status == PENDING)
      && (r.Err? ==> r.error == if k >= |b.orders| then OrderNotFound else if b.orders[k].userId != userId then NotYourOrder else OrderCanceled)
    ensures QueueSettle(b, k, isWin) != b ==> k < |b.orders| && b.orders[k].status == PENDING
    ensures var (b', r) := SystemSettle(b, k, isWin);
      && (r.Ok? <==> k < |b.orders| && b.orders[k].status != CANCELED)
      && (r.Err? ==> b' == b)
    ensures k < |b.orders| && b.orders[k].status == PENDING ==>
      && QueueSettle(b, k, isWin) == SystemSettle(b, k, isWin).0
      && (b.orders[k].userId == userId ==> UserSettle(b, k, userId, isWin) == SystemSettle(b, k, isWin))
  {
  }

  /** A lost order returns minus its stake; a won one its stake times the rate, to the nearest unit, halves up. */
  lemma ReturnOf(o: Order, isWin: bool)
    requires o.invest > 0 && 0 <= o.returnRate
    ensures !isWin ==> Payout(o, isWin) == -o.invest
    ensures isWin ==> 2 * o.invest * o.returnRate - 10_000 < 20_000 * Payout(o, isWin) <= 2 * o.invest * o.returnRate + 10_000
  {
    assert 0 <= o.invest * o.returnRate;
  }

  /**
   A first settlement gives back stake plus return on its own account: nothing after a loss. A repeated one
   exchanges the old return for the new. The other account and every other user stay as they are.
  */
  lemma SettlementPays(b: Book, k: OrderId, isWin: bool)
    requires k < |b.orders| && b.orders[k].userId in b.users && b.orders[k].status != CANCELED
    ensures var o, b' := b.orders[k], SystemSettle(b, k, isWin).0;
      var r := Payout(o, isWin);
      var delta := if o.status == SETTLED then r - o.actualReturn else o.invest + r;
      && b'.users.Keys == b.users.Keys && b'.now == b.now
      && b'.orders == b.orders[k := o.(status := SETTLED, actualReturn := r, settledBalance := Some(o.entryBalance + r))]
      && (forall u :: u in b.users && u != o.userId ==> b'.users[u] == b.users[u])
      && var user, user' := b.users[o.userId], b'.users[o.userId];
         && user'.verified == user.verified
         && (o.account == DEMO ==> user' == user.(demoBalance := user.demoBalance + delta))
         && (o.account == REAL ==> user'.demoBalance == user.demoBalance && user'.realBalance == user.realBalance + delta)
  {
  }

  /** The statistics a settlement of a REAL order writes: one more trade the first time only, and the change of its return. */
  lemma SettlementCounts(b: Book, k: OrderId, isWin: bool)
    requires k < |b.orders| && b.orders[k].userId in b.users && b.orders[k].status != CANCELED && b.orders[k].account == REAL
    ensures var o, b' := b.orders[k], SystemSettle(b, k, isWin).0;
      var user, user' := b.users[o.userId], b'.users[o.userId];
      && user'.totalTrades == user.totalTrades + (if o.status == SETTLED then 0 else 1)
      && user'.totalProfitLoss == user.totalProfitLoss + Payout(o, isWin) - o.actualReturn
  {
  }
}
