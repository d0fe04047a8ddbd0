/** What the pool's calls accept, refuse and hand out, said on the rows' own fields. */
module DepositOutcomes {
  import opened Wrappers
  import opened DepositPool
  import opened DepositPoolLaws
  import opened DepositPick

  // ---------- address formats against their patterns ----------

  /** One part of a pattern: between `least` and `most` characters out of some ranges. */
  datatype Piece = Piece(ranges: seq<(char, char)>, least: nat, most: nat)

  predicate InRanges(c: char, ranges: seq<(char, char)>) {
    exists i :: 0 <= i < |ranges| && ranges[i].0 <= c <= ranges[i].1
  }

  predicate AllInRanges(text: string, ranges: seq<(char, char)>) {
    forall i :: 0 <= i < |text| ==> InRanges(text[i], ranges)
  }

  /** The text splits into one run per piece. */
  predicate Matches(pieces: seq<Piece>, text: string) {
    if pieces == [] then text == ""
    else exists n :: pieces[0].least <= n <= pieces[0].most && n <= |text|
                     && AllInRanges(text[..n], pieces[0].ranges) && Matches(pieces[1..], text[n..])
  }

  const BASE58: seq<(char, char)> := [('1', '9'), ('A', 'H'), ('J', 'N'), ('P', 'Z'), ('a', 'k'), ('m', 'z')]
  const HEX: seq<(char, char)> := [('a', 'f'), ('A', 'F'), ('0', '9')]

  function Literal(text: string): seq<Piece> {
    if text == "" then [] else [Piece([(text[0], text[0])], 1, 1)] + Literal(text[1..])
  }

  /** The alternatives of a network's pattern. */
  function Patterns(network: Network): seq<seq<Piece>> {
    match network
    case TRC20 => [Literal("T") + [Piece(BASE58, 33, 33)]]
    case ERC20 => [Literal("0x") + [Piece(HEX, 40, 40)]]
    case BTC => [Literal("bc1") + [Piece([('a', 'z'), ('0', '9')], 39, 59)],
                 [Piece([('1', '1'), ('3', '3')], 1, 1), Piece(BASE58, 25, 34)]]
  }

  lemma RangesOf(c: char)
    ensures InRanges(c, BASE58) <==> IsBase58(c)
    ensures InRanges(c, HEX) <==> IsHex(c)
    ensures InRanges(c, [('a', 'z'), ('0', '9')]) <==> IsLowerOrDigit(c)
    ensures InRanges(c, [('1', '1'), ('3', '3')]) <==> c == '1' || c == '3'
  {
    var b, h, l, o := BASE58, HEX, [('a', 'z'), ('0', '9')], [('1', '1'), ('3', '3')];
    assert b[0] == ('1', '9') && b[1] == ('A', 'H') && b[2] == ('J', 'N') && b[3] == ('P', 'Z') && b[4] == ('a', 'k') && b[5] == ('m', 'z');
    assert h[0] == ('a', 'f') && h[1] == ('A', 'F') && h[2] == ('0', '9');
    assert l[0] == ('a', 'z') && l[1] == ('0', '9');
    assert o[0] == ('1', '1') && o[1] == ('3', '3');
  }

  /** A piece of one character is its head; what follows matches the rest. */
  lemma MatchHead(piece: Piece, rest: seq<Piece>, text: string)
    requires piece.least == piece.most == 1
    ensures Matches([piece] + rest, text) <==> text != "" && InRanges(text[0], piece.ranges) && Matches(rest, text[1..])
  {
    var pieces := [piece] + rest;
    assert pieces[1..] == rest;
    if text != "" {
      assert text[..1][0] == text[0];
      assert AllInRanges(text[..1], piece.ranges) <==> InRanges(text[0], piece.ranges);
    }
  }

  lemma MatchLast(piece: Piece, text: string)
    ensures Matches([piece], text) <==> piece.least <= |text| <= piece.most && AllInRanges(text, piece.ranges)
  {
    assert [piece][1..] == [];
    assert text[..|text|] == text && text[|text|..] == "";
  }

  /** A literal prefix and one more piece. */
  lemma {:induction false} MatchAfter(prefix: string, last: Piece, text: string)
    ensures Matches(Literal(prefix) + [last], text) <==>
              && prefix <= text && last.least <= |text| - |prefix| <= last.most
              && AllInRanges(text[|prefix|..], last.ranges)
  {
    if prefix == "" {
      assert Literal(prefix) + [last] == [last];
      assert text[0..] == text;
      MatchLast(last, text);
    } else {
      var head, rest := Piece([(prefix[0], prefix[0])], 1, 1), Literal(prefix[1..]) + [last];
      assert Literal(prefix) + [last] == [head] + rest;
      MatchHead(head, rest, text);
      if text != "" {
        assert head.ranges[0] == (prefix[0], prefix[0]);
        assert InRanges(text[0], head.ranges) <==> text[0] == prefix[0];
        MatchAfter(prefix[1..], last, text[1..]);
        PrefixTail(prefix, text);
      }
    }
  }

  lemma PrefixTail(prefix: string, text: string)
    requires prefix != "" && text != ""
    ensures prefix <= text <==> text[0] == prefix[0] && prefix[1..] <= text[1..]
    ensures |prefix| <= |text| ==> text[|prefix|..] == text[1..][|prefix| - 1..]
  {
    if text[0] == prefix[0] && prefix[1..] <= text[1..] {
      assert forall i :: 0 < i < |prefix| ==> prefix[i] == prefix[1..][i - 1] == text[1..][i - 1] == text[i];
    }
    if prefix <= text {
      assert forall i :: 0 <= i < |prefix[1..]| ==> prefix[1..][i] == prefix[i + 1] == text[i + 1] == text[1..][i];
    }
  }

  lemma SuffixRange(text: string, n: nat, ranges: seq<(char, char)>)
    requires n <= |text|
    ensures AllInRanges(text[n..], ranges) <==> forall i :: n <= i < |text| ==> InRanges(text[i], ranges)
  {
    assert forall i :: n <= i < |text| ==> text[i] == text[n..][i - n];
  }

  lemma LegacyFormat(text: string)
    ensures Matches([Piece([('1', '1'), ('3', '3')], 1, 1), Piece(BASE58, 25, 34)], text) <==>
              26 <= |text| <= 35 && text[0] in "13" && forall i :: 1 <= i < |text| ==> IsBase58(text[i])
  {
    var head, tail := Piece([('1', '1'), ('3', '3')], 1, 1), Piece(BASE58, 25, 34);
    assert [head, tail] == [head] + [tail];
    MatchHead(head, [tail], text);
    if text != "" {
      MatchLast(tail, text[1..]);
      SuffixRange(text, 1, BASE58);
      forall c: char { RangesOf(c); }
    }
  }

  /** The format check of both services is its network's pattern. */
  lemma WellFormedIsThePattern(text: string, network: Network)
    ensures WellFormed(text, network) <==> exists i :: 0 <= i < |Patterns(network)| && Matches(Patterns(network)[i], text)
  {
    forall c: char { RangesOf(c); }
    match network
    case TRC20 =>
      MatchAfter("T", Piece(BASE58, 33, 33), text);
      if |text| > 0 { SuffixRange(text, 1, BASE58); }
      assert Patterns(TRC20)[0] == Literal("T") + [Piece(BASE58, 33, 33)];
    case ERC20 =>
      MatchAfter("0x", Piece(HEX, 40, 40), text);
      if |text| > 1 { SuffixRange(text, 2, HEX); }
      assert Patterns(ERC20)[0] == Literal("0x") + [Piece(HEX, 40, 40)];
    case BTC =>
      var tail := Piece([('a', 'z'), ('0', '9')], 39, 59);
      MatchAfter("bc1", tail, text);
      if |text| > 2 { SuffixRange(text, 3, tail.ranges); }
      LegacyFormat(text);
      assert Patterns(BTC)[0] == Literal("bc1") + [tail];
      assert Patterns(BTC)[1] == [Piece([('1', '1'), ('3', '3')], 1, 1), Piece(BASE58, 25, 34)];
  }

  // ---------- deposits ----------

  predicate CoinRunsOn(currency: Currency, network: Network) {
    (currency, network) in {(CoinBTC, BTC), (CoinETH, ERC20), (CoinUSDC, ERC20), (CoinUSDT, TRC20)}
  }

  /** Some record of this network carries this hash. */
  predicate HashIsRecorded(p: Pool, network: Network, txHash: string) {
    exists k :: 0 <= k < |p.records| && p.records[k].network == network && p.records[k].txHash == Some(txHash)
  }

  /** The address is in the pool, on this network, and may take deposits. */
  predicate TakesDeposits(p: Pool, id: nat, text: string, network: Network) {
    && Live(p.addresses, id)
    && var row := p.addresses[id].value;
       row.address == text && row.network == network && row.enabled && row.risk != RISKY
  }

  /** The user still holds an allocation of exactly this amount there. */
  predicate IsHeldFor(row: Option<Allocation>, user: UserId, id: nat, amount: int, now: int) {
    && row.Some? && row.value.userId == user && row.value.addressId == id && row.value.amount == amount
    && !row.value.consumed && now <= row.value.expiresAt
  }

  /** A deposit is accepted exactly when all of this holds. */
  lemma DepositAcceptedIff(p: Pool, user: UserId, currency: Currency, network: Network, txHash: string, text: string, amount: int, original: int)
    requires Keys(p)
    ensures SubmitDeposit(p, user, currency, network, txHash, text, amount, original).1.Ok? <==>
      && amount > 0 && original > 0 && CoinRunsOn(currency, network) && WellFormed(text, network)
      && txHash != "" && !HashIsRecorded(p, network, txHash)
      && exists id: nat, i :: 0 <= i < |p.allocations| && TakesDeposits(p, id, text, network)
                              && IsHeldFor(p.allocations[i], user, id, amount, p.now)
  {
    var found := FindByAddress(p.addresses, text);
    if found.Some? {
      var claimed := LatestClaimable(p.allocations, user, found.value, amount, p.now);
      if claimed.Some? && TakesDeposits(p, found.value, text, network) {
        assert IsHeldFor(p.allocations[claimed.value], user, found.value, amount, p.now);
      }
    }
  }

  /** A refusal changes nothing and names the first check that failed, in this order. */
  lemma DepositRefused(p: Pool, user: UserId, currency: Currency, network: Network, txHash: string, text: string, amount: int, original: int)
    requires Keys(p)
    ensures var (p', r) := SubmitDeposit(p, user, currency, network, txHash, text, amount, original);
      var noAmount, wrongCoin, badFormat := amount <= 0 || original <= 0, !CoinRunsOn(currency, network), !WellFormed(text, network);
      var noHash, duplicate := txHash == "", HashIsRecorded(p, network, txHash);
      var unknown := !IsInPool(p, text, network);
      var unusable := !exists id: nat :: TakesDeposits(p, id, text, network);
      && (r.Err? ==> p' == p)
      && (r == Err(InvalidAmount) <==> noAmount)
      && (r == Err(InvalidCurrencyNetwork) <==> !noAmount && wrongCoin)
      && (r == Err(InvalidAddress) <==> !noAmount && !wrongCoin && badFormat)
      && (r == Err(TxHashRequired) <==> !noAmount && !wrongCoin && !badFormat && noHash)
      && (r == Err(DuplicateTxHash) <==> !noAmount && !wrongCoin && !badFormat && !noHash && duplicate)
      && (r == Err(InvalidDepositAddress) <==> !noAmount && !wrongCoin && !badFormat && !noHash && !duplicate && unknown)
      && (r == Err(DepositAddressUnavailable) <==>
            !noAmount && !wrongCoin && !badFormat && !noHash && !duplicate && !unknown && unusable)
      && (r == Err(DepositAllocationExpired) <==>
            && !noAmount && !wrongCoin && !badFormat && !noHash && !duplicate && !unknown && !unusable
            && forall id: nat, i :: 0 <= i < |p.allocations| && TakesDeposits(p, id, text, network)
                                    ==> !IsHeldFor(p.allocations[i], user, id, amount, p.now))
  {
    var found := FindByAddress(p.addresses, text);
    if found.Some? {
      assert Live(p.addresses, found.value);
      assert TakesDeposits(p, found.value, text, network) <==>
        p.addresses[found.value].value.network == network && p.addresses[found.value].value.enabled && p.addresses[found.value].value.risk != RISKY;
      var claimed := LatestClaimable(p.allocations, user, found.value, amount, p.now);
      if claimed.Some? { assert IsHeldFor(p.allocations[claimed.value], user, found.value, amount, p.now); }
    }
  }

  /** The address text belongs to a pool address on this network. */
  predicate IsInPool(p: Pool, text: string, network: Network) {
    exists id :: 0 <= id < |p.addresses| && Live(p.addresses, id) && p.addresses[id].value.address == text && p.addresses[id].value.network == network
  }

  /** What an accepted deposit records; its allocation is one it was held for. */
  lemma DepositRecorded(p: Pool, user: UserId, currency: Currency, network: Network, txHash: string, text: string, amount: int, original: int)
    requires Keys(p)
    ensures var (p', r) := SubmitDeposit(p, user, currency, network, txHash, text, amount, original);
      r.Ok? ==>
        && r.value == |p.records| && p'.addresses == p.addresses && p'.now == p.now
        && p'.records == p.records + [FundingRecord(user, DEPOSIT, PENDING, amount, network, Some(txHash), text, p.now, false, None, None)]
        && |p'.claims| == |p.records| + 1 && p'.claims[|p.records|].Some?
        && var c := p'.claims[|p.records|].value;
           && c < |p.allocations| && p.allocations[c].Some?
           && IsHeldFor(p.allocations[c], user, p.allocations[c].value.addressId, amount, p.now)
           && p'.allocations == p.allocations[c := Some(p.allocations[c].value.(consumed := true))]
  {
  }

  // ---------- one record per transfer ----------

  /** No two records share a network and a transaction hash. */
  ghost predicate HashesUnique(p: Pool) {
    forall i, j :: 0 <= i < j < |p.records| && p.records[i].txHash.Some? && p.records[i].network == p.records[j].network
      ==> p.records[i].txHash != p.records[j].txHash
  }

  /** Network and hash of a record never change, and a new record's hash is new on its network. */
  lemma RecordsStep(p: Pool, e: PoolEvent)
    ensures var rs, rs' := p.records, PoolStep(p, e).records;
      && |rs| <= |rs'| <= |rs| + 1
      && (forall k :: 0 <= k < |rs| ==> rs'[k].network == rs[k].network && rs'[k].txHash == rs[k].txHash && rs'[k].createdAt == rs[k].createdAt)
      && (|rs'| > |rs| ==> rs'[|rs|].createdAt == p.now)
      && (|rs'| > |rs| && rs'[|rs|].txHash.Some? ==> !HashIsRecorded(p, rs'[|rs|].network, rs'[|rs|].txHash.value))
  {
  }

  lemma {:induction false} HashesUniqueOverRuns(p: Pool, events: seq<PoolEvent>)
    requires HashesUnique(p)
    ensures HashesUnique(PoolRun(p, events))
  {
    if events != [] {
      var m, e := PoolRun(p, events[..|events| - 1]), events[|events| - 1];
      assert HashesUnique(m) by { HashesUniqueOverRuns(p, events[..|events| - 1]); }
      HashesUniqueStep(m, e);
    }
  }

  lemma HashesUniqueStep(p: Pool, e: PoolEvent)
    requires HashesUnique(p)
    ensures HashesUnique(PoolStep(p, e))
  {
    RecordsStep(p, e);
  }

  /** In every reachable state two records with one network and one hash are the same record. */
  lemma OneRecordPerTransfer(events: seq<PoolEvent>, i: nat, j: nat, txHash: string)
    requires var rs := PoolRun(EMPTY_POOL, events).records;
             i < |rs| && j < |rs| && rs[i].network == rs[j].network && rs[i].txHash == rs[j].txHash == Some(txHash)
    ensures i == j
  {
    HashesUniqueOverRuns(EMPTY_POOL, events);
  }

  /** A hash stays recorded whatever happens. */
  lemma {:induction false} HashStays(p: Pool, events: seq<PoolEvent>, network: Network, txHash: string)
    requires HashIsRecorded(p, network, txHash)
    ensures HashIsRecorded(PoolRun(p, events), network, txHash)
  {
    if events != [] {
      var m := PoolRun(p, events[..|events| - 1]);
      assert HashIsRecorded(m, network, txHash) by { HashStays(p, events[..|events| - 1], network, txHash); }
      HashStaysOne(m, events[|events| - 1], network, txHash);
    }
  }

  lemma HashStaysOne(p: Pool, e: PoolEvent, network: Network, txHash: string)
    requires HashIsRecorded(p, network, txHash)
    ensures HashIsRecorded(PoolStep(p, e), network, txHash)
  {
    RecordsStep(p, e);
    var k :| 0 <= k < |p.records| && p.records[k].network == network && p.records[k].txHash == Some(txHash);
    assert PoolStep(p, e).records[k].network == network;
  }

  /** After an accepted deposit its hash is refused to everyone on that network, for good, and the refusal changes nothing. */
  lemma ResubmissionIsRefused(p: Pool, user: UserId, currency: Currency, network: Network, txHash: string, text: string, amount: int, original: int,
                              events: seq<PoolEvent>, user': UserId, currency': Currency, text': string, amount': int, original': int)
    requires SubmitDeposit(p, user, currency, network, txHash, text, amount, original).1.Ok?
    requires amount' > 0 && original' > 0 && CoinRunsOn(currency', network) && WellFormed(text', network)
    ensures var r := PoolRun(SubmitDeposit(p, user, currency, network, txHash, text, amount, original).0, events);
            SubmitDeposit(r, user', currency', network, txHash, text', amount', original') == (r, Err(DuplicateTxHash))
  {
    var q := SubmitDeposit(p, user, currency, network, txHash, text, amount, original).0;
    assert q.records[|p.records|].network == network && q.records[|p.records|].txHash == Some(txHash);
    HashStays(q, events, network, txHash);
  }

  // ---------- withdrawals ----------

  /** A withdrawal request is accepted exactly when all of this holds; ten units of the platform currency is the least. */
  lemma WithdrawAcceptedIff(p: Pool, user: UserId, verified: bool, seen: int, currency: Currency, network: Network, text: string, amount: int, original: int)
    ensures SubmitWithdraw(p, user, verified, seen, currency, network, text, amount, original).1.Ok? <==>
      amount >= 1_000_000_000 && original > 0 && CoinRunsOn(currency, network) && WellFormed(text, network) && verified && amount <= seen
  {
  }

  /** An accepted request is written; a refusal changes nothing and names the first check that failed, in this order. */
  lemma WithdrawOutcome(p: Pool, user: UserId, verified: bool, seen: int, currency: Currency, network: Network, text: string, amount: int, original: int)
    ensures var (p', r) := SubmitWithdraw(p, user, verified, seen, currency, network, text, amount, original);
      var noAmount, wrongCoin, badFormat := amount <= 0 || original <= 0, !CoinRunsOn(currency, network), !WellFormed(text, network);
      && (r.Ok? ==>
            && r.value == |p.records| && p'.addresses == p.addresses && p'.allocations == p.allocations
            && p'.records == p.records + [FundingRecord(user, WITHDRAW, PENDING, amount, network, None, text, p.now, false, None, None)])
      && (r.Err? ==> p' == p)
      && (r == Err(InvalidAmount) <==> noAmount || (!wrongCoin && !badFormat && amount < 1_000_000_000))
      && (r == Err(InvalidCurrencyNetwork) <==> !noAmount && wrongCoin)
      && (r == Err(InvalidAddress) <==> !noAmount && !wrongCoin && badFormat)
      && (r == Err(KycRequired) <==> !noAmount && !wrongCoin && !badFormat && amount >= 1_000_000_000 && !verified)
      && (r == Err(InsufficientBalance) <==> !noAmount && !wrongCoin && !badFormat && amount >= 1_000_000_000 && verified && seen < amount)
  {
  }

  // ---------- which address is handed out ----------

  /** An address may be handed out for this amount. */
  predicate Offers(p: Pool, id: nat, amount: int, network: Network) {
    && Live(p.addresses, id)
    && var row := p.addresses[id].value;
       && row.network == network && row.enabled && row.risk != RISKY
       && row.minAmount <= amount
       && (row.maxAmount.None? || amount <= row.maxAmount.value)
       && (row.capacity.None? || row.usedAmount + row.pendingAmount + amount <= row.capacity.value)
  }

  function SentHere(user: UserId, p: Pool, amount: int, network: Network): FundingRecord -> bool {
    (r: FundingRecord) => r.userId == user && r.kind == DEPOSIT
      && exists id :: 0 <= id < |p.addresses| && Offers(p, id, amount, network) && r.toAddress == p.addresses[id].value.address
  }

  function CountIf(records: seq<FundingRecord>, counts: FundingRecord -> bool): nat {
    if records == [] then 0
    else CountIf(records[..|records| - 1], counts) + if counts(records[|records| - 1]) then 1 else 0
  }

  /** How many of the records after `k` count. */
  function LaterCount(records: seq<FundingRecord>, k: nat, counts: FundingRecord -> bool): nat
    requires k < |records|
  {
    CountIf(records[k + 1..], counts)
  }

  /** One of the user's latest fifty deposits to addresses on offer went to this one. */
  ghost predicate DepositedLately(p: Pool, user: UserId, amount: int, network: Network, id: nat)
    requires Live(p.addresses, id)
  {
    exists k :: 0 <= k < |p.records| && SentHere(user, p, amount, network)(p.records[k])
                && p.records[k].toAddress == p.addresses[id].value.address
                && LaterCount(p.records, k, SentHere(user, p, amount, network)) < 50
  }

  /** The user holds an allocation there that is neither consumed nor expired. */
  ghost predicate HoldsNow(p: Pool, user: UserId, id: nat) {
    exists i :: 0 <= i < |p.allocations| && p.allocations[i].Some?
                && var row := p.allocations[i].value;
                   row.userId == user && row.addressId == id && !row.consumed && p.now <= row.expiresAt
  }

  lemma OffersIsFits(p: Pool, id: nat, amount: int, network: Network)
    ensures Offers(p, id, amount, network) <==> id < |p.addresses| && Fits(p.addresses[id], amount, network)
  {
  }

  lemma SentHereIsRecent(p: Pool, user: UserId, amount: int, network: Network, r: FundingRecord)
    ensures SentHere(user, p, amount, network)(r) <==> IsRecent(r, user, FittingTexts(p.addresses, amount, network))
  {
    forall id: nat { OffersIsFits(p, id, amount, network); }
  }

  lemma {:induction false} CountSame(records: seq<FundingRecord>, f: FundingRecord -> bool, g: FundingRecord -> bool)
    requires forall r :: f(r) == g(r)
    ensures CountIf(records, f) == CountIf(records, g)
  {
    if records != [] {
      CountSame(records[..|records| - 1], f, g);
    }
  }

  /** A recent target is the target of a matching record with fewer than `take` matching ones after it. */
  lemma {:induction false} RecentTargetsIff(records: seq<FundingRecord>, user: UserId, among: set<string>, take: nat, text: string)
    ensures var counts := (r: FundingRecord) => IsRecent(r, user, among);
      text in RecentTargets(records, user, among, take) <==>
        exists k :: 0 <= k < |records| && counts(records[k]) && records[k].toAddress == text && LaterCount(records, k, counts) < take
  {
    var counts := (r: FundingRecord) => IsRecent(r, user, among);
    if records != [] && take > 0 {
      var last := |records| - 1;
      var init := records[..last];
      RecentTargetsIff(init, user, among, if counts(records[last]) then take - 1 else take, text);
      assert records[last + 1..] == [];
      forall k | 0 <= k < last ensures LaterCount(records, k, counts) == LaterCount(init, k, counts) + if counts(records[last]) then 1 else 0 {
        assert records[k + 1..][..|records[k + 1..]| - 1] == init[k + 1..];
      }
      if text in RecentTargets(records, user, among, take) {
        if counts(records[last]) && records[last].toAddress == text {
          assert LaterCount(records, last, counts) < take;
        } else {
          var k :| 0 <= k < |init| && counts(init[k]) && init[k].toAddress == text
                   && LaterCount(init, k, counts) < if counts(records[last]) then take - 1 else take;
          assert records[k] == init[k];
        }
      } else {
        forall k | 0 <= k < |records| && counts(records[k]) && records[k].toAddress == text
          ensures LaterCount(records, k, counts) >= take
        {
          if k < last { assert init[k] == records[k]; }
        }
      }
    }
  }

  /** What "already used by this user" means. */
  lemma UsedMeans(p: Pool, user: UserId, amount: int, network: Network, id: nat)
    requires Live(p.addresses, id)
    ensures UsedBy(p, user, amount, network, id) <==> DepositedLately(p, user, amount, network, id) || HoldsNow(p, user, id)
  {
    var among := FittingTexts(p.addresses, amount, network);
    var counts, sent := (r: FundingRecord) => IsRecent(r, user, among), SentHere(user, p, amount, network);
    RecentTargetsIff(p.records, user, among, RECENT_DEPOSITS, p.addresses[id].value.address);
    forall r ensures counts(r) == sent(r) { SentHereIsRecent(p, user, amount, network, r); }
    forall k | 0 <= k < |p.records| ensures LaterCount(p.records, k, counts) == LaterCount(p.records, k, sent) {
      CountSame(p.records[k + 1..], counts, sent);
    }
  }

  /** Used by this user: a deposit among the latest fifty, or an allocation still held. */
  ghost predicate Used(p: Pool, user: UserId, amount: int, network: Network, id: nat)
    requires Live(p.addresses, id)
  {
    DepositedLately(p, user, amount, network, id) || HoldsNow(p, user, id)
  }

  /**
   The address handed out is on offer; among those on offer an unused one goes first, then the smaller
   sortOrder, then the older row, then the earlier in the table.
  */
  lemma HandedOutFirst(p: Pool, user: UserId, amount: int, network: Network, j: nat)
    requires Allocate(p, user, amount, network).1.Ok?
    ensures var id := Allocate(p, user, amount, network).1.value;
      && Offers(p, id, amount, network)
      && (j != id && Offers(p, j, amount, network) ==>
            var a, b := p.addresses[id].value, p.addresses[j].value;
            && (Used(p, user, amount, network, id) ==> Used(p, user, amount, network, j))
            && (Used(p, user, amount, network, id) == Used(p, user, amount, network, j) ==>
                  || a.sortOrder < b.sortOrder
                  || (a.sortOrder == b.sortOrder && a.createdAt < b.createdAt)
                  || (a.sortOrder == b.sortOrder && a.createdAt == b.createdAt && id < j)))
  {
    var id := Allocate(p, user, amount, network).1.value;
    PickIsLeast(p, user, amount, network, |p.addresses|);
    if j != id && Offers(p, j, amount, network) {
      UsedMeans(p, user, amount, network, id);
      UsedMeans(p, user, amount, network, j);
      assert Before(p, user, amount, network, id, j);
    }
  }

  /** An allocation is refused exactly when the amount is not positive or no address is on offer for it. */
  lemma AllocationRefusedIff(p: Pool, user: UserId, amount: int, network: Network)
    ensures var (p', r) := Allocate(p, user, amount, network);
      && (r == Err(InvalidAmount) <==> amount <= 0)
      && (r == Err(NoAvailableDepositAddress) <==> amount > 0 && forall id: nat :: !Offers(p, id, amount, network))
      && (r.Err? ==> p' == p && (r.error == InvalidAmount || r.error == NoAvailableDepositAddress))
  {
    PickIsLeast(p, user, amount, network, |p.addresses|);
    forall id: nat { OffersIsFits(p, id, amount, network); }
  }

  /** What an allocation writes: the amount on one address, and a row that lasts thirty minutes. */
  lemma AllocationWrites(p: Pool, user: UserId, amount: int, network: Network)
    requires Allocate(p, user, amount, network).1.Ok?
    ensures var (p', r) := Allocate(p, user, amount, network);
      var row := p.addresses[r.value].value;
      && p'.addresses == p.addresses[r.value := Some(row.(pendingAmount := row.pendingAmount + amount))]
      && p'.allocations == p.allocations + [Some(Allocation(r.value, user, amount, p.now + 1_800_000, false))]
      && p'.records == p.records && p'.now == p.now
  {
  }

  // ---------- administration ----------

  /** A new address is offered exactly as it was described. */
  lemma CreatedIsOffered(p: Pool, network: Network, text: string, lo: nat, hi: Option<nat>, cap: Option<nat>, enabled: bool, sortOrder: int,
                         amount: int, network': Network)
    requires CreateAddress(p, network, text, lo, hi, cap, enabled, sortOrder).1.Ok?
    ensures var (p', r) := CreateAddress(p, network, text, lo, hi, cap, enabled, sortOrder);
      && r.value == |p.addresses| && p'.addresses[..r.value] == p.addresses && Live(p'.addresses, r.value)
      && p'.allocations == p.allocations && p'.records == p.records
      && p'.addresses[r.value].value.address == text && p'.addresses[r.value].value.sortOrder == sortOrder
      && (Offers(p', r.value, amount, network') <==>
            network' == network && enabled && lo <= amount && (hi.None? || amount <= hi.value) && (cap.None? || amount <= cap.value))
  {
  }

  lemma CreateAcceptedIff(p: Pool, network: Network, text: string, lo: nat, hi: Option<nat>, cap: Option<nat>, enabled: bool, sortOrder: int)
    ensures var (p', r) := CreateAddress(p, network, text, lo, hi, cap, enabled, sortOrder);
      && (r.Ok? <==> (hi.None? || lo <= hi.value) && WellFormed(text, network)
                     && forall id: nat :: Live(p.addresses, id) ==> p.addresses[id].value.address != text)
      && (r.Err? ==> p' == p && (r.error == InvalidDepositRange || r.error == InvalidDepositAddress || r.error == DepositAddressExists))
      && (r == Err(InvalidDepositRange) <==> hi.Some? && hi.value < lo)
      && (r == Err(InvalidDepositAddress) <==> (hi.None? || lo <= hi.value) && !WellFormed(text, network))
  {
    var found := FindByAddress(p.addresses, text);
    if found.Some? { assert Live(p.addresses, found.value); }
  }

  /** An update changes what it names and nothing else, in particular no total, text or network. */
  lemma UpdateChangesWhatItNames(p: Pool, id: nat, patch: AddressPatch)
    requires UpdateAddress(p, id, patch).1.Ok?
    ensures var p' := UpdateAddress(p, id, patch).0;
      && Live(p.addresses, id) && Live(p'.addresses, id)
      && p'.allocations == p.allocations && p'.records == p.records && p'.trail == p.trail && p'.claims == p.claims && p'.now == p.now
      && |p'.addresses| == |p.addresses| && (forall j :: 0 <= j < |p.addresses| && j != id ==> p'.addresses[j] == p.addresses[j])
      && var a, b := p.addresses[id].value, p'.addresses[id].value;
         && b == a.(minAmount := b.minAmount, maxAmount := b.maxAmount, capacity := b.capacity, enabled := b.enabled, sortOrder := b.sortOrder)
         && (if patch.minAmount.Some? then b.minAmount == patch.minAmount.value else b.minAmount == a.minAmount)
         && (if patch.maxAmount.Some? then b.maxAmount == patch.maxAmount.value else b.maxAmount == a.maxAmount)
         && (if patch.capacity.Some? then b.capacity == patch.capacity.value else b.capacity == a.capacity)
         && (if patch.enabled.Some? then b.enabled == patch.enabled.value else b.enabled == a.enabled)
         && (if patch.sortOrder.Some? then b.sortOrder == patch.sortOrder.value else b.sortOrder == a.sortOrder)
  {
  }

  /** A removal deletes the address and the allocations that point at it, and nothing else. */
  lemma RemovalWrites(p: Pool, id: nat)
    requires Keys(p)
    ensures var (p', r) := RemoveAddress(p, id);
      && (r.Err? ==> p' == p && match r.error
                                case DepositAddressNotFound => !Live(p.addresses, id)
                                case DepositAddressHasPending => Live(p.addresses, id) && p.addresses[id].value.pendingAmount != 0
                                case _ => false)
      && (r.Ok? ==>
            && p'.addresses == p.addresses[id := None] && p'.records == p.records && p'.trail == p.trail && p'.now == p.now
            && |p'.allocations| == |p.allocations|
            && forall i :: 0 <= i < |p.allocations| ==>
                 p'.allocations[i] == if p.allocations[i].Some? && p.allocations[i].value.addressId == id then None else p.allocations[i])
  {
  }

  /** A TRC20 address judged RISKY is out of use until it is judged again; other networks are never judged. */
  lemma VerdictTakesAddressOut(p: Pool, id: nat, risk: Risk, amount: int, network: Network)
    requires Live(p.addresses, id)
    ensures var p' := SetRisk(p, id, risk);
      && p'.allocations == p.allocations && p'.records == p.records && |p'.addresses| == |p.addresses|
      && (forall j :: 0 <= j < |p.addresses| && j != id ==> p'.addresses[j] == p.addresses[j])
      && Live(p'.addresses, id)
      && p'.addresses[id].value == p.addresses[id].value.(risk := if p.addresses[id].value.network == TRC20 then risk else p.addresses[id].value.risk)
      && (p.addresses[id].value.network == TRC20 && risk == RISKY ==> !Offers(p', id, amount, network))
  {
  }

  // ---------- what every reachable table satisfies ----------

  /** Ranges are not empty, only TRC20 addresses are ever judged, and tables are in order of creation. */
  ghost predicate TablesOk(p: Pool) {
    && (forall id: nat :: Live(p.addresses, id) ==> RowOk(p.addresses[id].value, p.now))
    && (forall i: nat, j: nat :: i < j && Live(p.addresses, i) && Live(p.addresses, j) ==> p.addresses[i].value.createdAt <= p.addresses[j].value.createdAt)
    && (forall k :: 0 <= k < |p.records| ==> p.records[k].createdAt <= p.now)
    && (forall i, j :: 0 <= i < j < |p.records| ==> p.records[i].createdAt <= p.records[j].createdAt)
  }

  predicate RowOk(row: Address, now: int) {
    && (row.maxAmount.Some? ==> row.minAmount <= row.maxAmount.value)
    && (row.network != TRC20 ==> row.risk == UNKNOWN)
    && row.createdAt <= now
  }

  /** A step keeps an address row's creation time, and stamps a new one with the present. */
  lemma AddressesStep(p: Pool, e: PoolEvent, id: nat)
    requires TablesOk(p) && Live(PoolStep(p, e).addresses, id)
    ensures RowOk(PoolStep(p, e).addresses[id].value, PoolStep(p, e).now)
    ensures if id < |p.addresses| then Live(p.addresses, id) && PoolStep(p, e).addresses[id].value.createdAt == p.addresses[id].value.createdAt
            else id == |p.addresses| && PoolStep(p, e).addresses[id].value.createdAt == p.now
    ensures p.now <= PoolStep(p, e).now
  {
    if id < |p.addresses| && Live(p.addresses, id) { assert RowOk(p.addresses[id].value, p.now); }
  }

  lemma TablesStep(p: Pool, e: PoolEvent)
    requires TablesOk(p)
    ensures TablesOk(PoolStep(p, e))
  {
    var p' := PoolStep(p, e);
    RecordsStep(p, e);
    forall id: nat | Live(p'.addresses, id) ensures RowOk(p'.addresses[id].value, p'.now) { AddressesStep(p, e, id); }
    forall i: nat, j: nat | i < j && Live(p'.addresses, i) && Live(p'.addresses, j)
      ensures p'.addresses[i].value.createdAt <= p'.addresses[j].value.createdAt
    {
      AddressesStep(p, e, i);
      AddressesStep(p, e, j);
      if j >= |p.addresses| { assert RowOk(p.addresses[i].value, p.now); }
    }
  }

  lemma {:induction false} TablesOverRuns(events: seq<PoolEvent>)
    ensures TablesOk(PoolRun(EMPTY_POOL, events))
  {
    if events != [] {
      var m := PoolRun(EMPTY_POOL, events[..|events| - 1]);
      assert TablesOk(m) by { TablesOverRuns(events[..|events| - 1]); }
      TablesStep(m, events[|events| - 1]);
    }
  }
}
