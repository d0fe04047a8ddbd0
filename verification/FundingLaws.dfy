/** One decision per record, a ledger that matches the records, and balances the ledger accounts for. */
module FundingLaws {
  import opened Wrappers
  import opened Tally
  import opened DepositPool
  import opened DepositPoolLaws
  import opened FundingDesk

  function DeltaOf(user: UserId): Entry -> int {
    (e: Entry) => if e.userId == user then e.delta else 0
  }

  function AppliedTo(user: UserId, kind: FundingType): FundingRecord -> int {
    (r: FundingRecord) => if r.userId == user && r.kind == kind && r.balanceApplied then r.amount else 0
  }

  // ---------- records are decided once ----------

  ghost predicate DecidedOnce(r: FundingRecord, r': FundingRecord) {
    && r' == r.(status := r'.status, balanceApplied := r'.balanceApplied, before := r'.before, after := r'.after)
    && (r.status != PENDING || r'.status == PENDING ==> r' == r)
  }

  lemma RecordStep(d: Desk, e: DeskEvent, k: nat)
    requires k < |d.pool.records|
    ensures var d' := DeskStep(d, e);
            |d.pool.records| <= |d'.pool.records| && DecidedOnce(d.pool.records[k], d'.pool.records[k])
  {
    match e
    case OnPool(pe) => if !pe.DoDecide? { NewRecordsOnly(d.pool, pe); }
    case FinishReview(task) =>
      if task in d.reviews && d.reviews[task].record < |d.pool.records| { CommitDecidesOnce(d, task, k); }
    case _ =>
  }

  lemma CommitDecidesOnce(d: Desk, task: nat, k: nat)
    requires task in d.reviews && d.reviews[task].record < |d.pool.records| && k < |d.pool.records|
    ensures var records' := ReviewCommit(d, task).0.pool.records;
            |records'| == |d.pool.records| && DecidedOnce(d.pool.records[k], records'[k])
  {
  }

  /** However reviewers interleave, a record that left PENDING is never written again. */
  lemma {:induction false} RecordOverRuns(d: Desk, events: seq<DeskEvent>, k: nat)
    requires k < |d.pool.records|
    ensures var d' := DeskRun(d, events);
            |d.pool.records| <= |d'.pool.records| && DecidedOnce(d.pool.records[k], d'.pool.records[k])
  {
    if events != [] {
      var init := events[..|events| - 1];
      RecordOverRuns(d, init, k);
      RecordStep(DeskRun(d, init), events[|events| - 1], k);
    }
  }

  // ---------- the ledger and the records ----------

  ghost predicate EntryMatches(e: Entry, r: FundingRecord) {
    && r.status == COMPLETED && r.balanceApplied && r.userId == e.userId
    && e.delta == Signed(r) && e.after == e.before + e.delta
    && r.before == Some(e.before) && r.after == Some(e.after)
  }

  /** Entries and records with `balanceApplied` are in bijection. */
  ghost predicate RowsMatch(ledger: seq<Entry>, records: seq<FundingRecord>) {
    && (forall i :: 0 <= i < |ledger| ==>
          ledger[i].record < |records| && EntryMatches(ledger[i], records[ledger[i].record]))
    && (forall i, j :: 0 <= i < j < |ledger| ==> ledger[i].record != ledger[j].record)
    && (forall k :: 0 <= k < |records| && records[k].balanceApplied ==> HasEntry(ledger, k))
    && (forall k :: 0 <= k < |records| && records[k].status == PENDING ==> !records[k].balanceApplied)
  }

  ghost predicate HasEntry(ledger: seq<Entry>, k: nat) {
    exists i :: 0 <= i < |ledger| && ledger[i].record == k
  }

  ghost predicate LedgerMatches(d: Desk) {
    RowsMatch(d.ledger, d.pool.records)
  }

  /** A pending review points at a record, applies approvals only, and a withdrawal was covered by the balance it read. */
  ghost predicate ReviewsSound(d: Desk) {
    forall task :: task in d.reviews ==>
      && d.reviews[task].record < |d.pool.records|
      && (d.reviews[task].apply ==> d.reviews[task].approve)
      && var record := d.pool.records[d.reviews[task].record];
         d.reviews[task].apply && record.kind == WITHDRAW ==> record.amount <= d.reviews[task].before
  }

  /** The net of one user's ledger entries is applied deposits minus applied withdrawals. */
  ghost predicate LedgerSums(d: Desk, user: UserId) {
    SumBy(d.ledger, DeltaOf(user))
      == SumBy(d.pool.records, AppliedTo(user, DEPOSIT)) - SumBy(d.pool.records, AppliedTo(user, WITHDRAW))
  }

  ghost predicate DeskInv(d: Desk) {
    Inv(d.pool) && LedgerMatches(d) && ReviewsSound(d) && forall user: UserId :: LedgerSums(d, user)
  }

  lemma NewRecordsOnly(p: Pool, e: PoolEvent)
    requires !e.DoDecide?
    ensures var rs, rs' := p.records, PoolStep(p, e).records;
            rs' == rs || (|rs'| == |rs| + 1 && rs' == rs + [rs'[|rs|]]
                          && rs'[|rs|].status == PENDING && !rs'[|rs|].balanceApplied)
  {
  }

  lemma OnPoolKeepsDeskInv(d: Desk, e: PoolEvent)
    requires DeskInv(d) && !e.DoDecide?
    ensures DeskInv(DeskStep(d, OnPool(e)))
  {
    var d' := DeskStep(d, OnPool(e));
    PoolStepKeepsInv(d.pool, e);
    NewRecordsOnly(d.pool, e);
    var rs, rs' := d.pool.records, d'.pool.records;
    forall user: UserId ensures LedgerSums(d', user) {
      assert LedgerSums(d, user);
      if rs' != rs {
        SumAppend(rs, rs'[|rs|], AppliedTo(user, DEPOSIT));
        SumAppend(rs, rs'[|rs|], AppliedTo(user, WITHDRAW));
      }
    }
  }

  lemma EntryStays(ledger: seq<Entry>, e: Entry, k: nat)
    ensures HasEntry(ledger, k) ==> HasEntry(ledger + [e], k)
    ensures HasEntry(ledger + [e], e.record)
  {
    if HasEntry(ledger, k) {
      var i :| 0 <= i < |ledger| && ledger[i].record == k;
      assert (ledger + [e])[i].record == k;
    }
    assert (ledger + [e])[|ledger|].record == e.record;
  }

  /** Deciding a record with an entry of its own keeps the bijection. */
  lemma RowsMatchApplied(ledger: seq<Entry>, records: seq<FundingRecord>, r': FundingRecord, e: Entry)
    requires RowsMatch(ledger, records) && e.record < |records| && records[e.record].status == PENDING
    requires EntryMatches(e, r')
    ensures RowsMatch(ledger + [e], records[e.record := r'])
  {
    var ledger', records' := ledger + [e], records[e.record := r'];
    forall k | 0 <= k < |records'| && records'[k].balanceApplied ensures HasEntry(ledger', k) {
      EntryStays(ledger, e, k);
    }
  }

  lemma RowsMatchUnapplied(ledger: seq<Entry>, records: seq<FundingRecord>, k: nat, r': FundingRecord)
    requires RowsMatch(ledger, records) && k < |records| && records[k].status == PENDING && !r'.balanceApplied
    ensures RowsMatch(ledger, records[k := r'])
  {
  }

  lemma CommitKeepsLedger(d: Desk, task: nat)
    requires DeskInv(d) && task in d.reviews
    ensures LedgerMatches(ReviewCommit(d, task).0)
  {
    var d' := ReviewCommit(d, task).0;
    var k := d.reviews[task].record;
    if d.pool.records[k].status == PENDING {
      var r' := d'.pool.records[k];
      if d.reviews[task].apply {
        RowsMatchApplied(d.ledger, d.pool.records, r', d'.ledger[|d.ledger|]);
      } else {
        RowsMatchUnapplied(d.ledger, d.pool.records, k, r');
      }
    }
  }

  lemma CommitKeepsSums(d: Desk, task: nat, user: UserId)
    requires DeskInv(d) && task in d.reviews
    ensures LedgerSums(ReviewCommit(d, task).0, user)
  {
    var d' := ReviewCommit(d, task).0;
    var k := d.reviews[task].record;
    assert LedgerSums(d, user);
    if d.pool.records[k].status == PENDING {
      SumUpdate(d.pool.records, k, d'.pool.records[k], AppliedTo(user, DEPOSIT));
      SumUpdate(d.pool.records, k, d'.pool.records[k], AppliedTo(user, WITHDRAW));
      if d.reviews[task].apply {
        SumAppend(d.ledger, d'.ledger[|d.ledger|], DeltaOf(user));
      }
    }
  }

  lemma CommitKeepsReviews(d: Desk, task: nat)
    requires DeskInv(d) && task in d.reviews
    ensures ReviewsSound(ReviewCommit(d, task).0)
  {
  }

  lemma CommitKeepsPool(d: Desk, task: nat)
    requires Inv(d.pool) && task in d.reviews && d.reviews[task].record < |d.pool.records|
    ensures Inv(ReviewCommit(d, task).0.pool)
  {
    var Read(k, approve, apply, before) := d.reviews[task];
    if d.pool.records[k].status == PENDING {
      var after := before + Signed(d.pool.records[k]);
      DecideKeepsInv(d.pool, k, approve, apply, if apply then Some(before) else None, if apply then Some(after) else None);
    }
  }

  lemma CommitKeepsDeskInv(d: Desk, task: nat)
    requires DeskInv(d) && task in d.reviews
    ensures DeskInv(ReviewCommit(d, task).0)
  {
    CommitKeepsLedger(d, task);
    CommitKeepsReviews(d, task);
    CommitKeepsPool(d, task);
    forall user: UserId ensures LedgerSums(ReviewCommit(d, task).0, user) {
      CommitKeepsSums(d, task, user);
    }
  }

  lemma ExternalKeepsDeskInv(d: Desk, user: UserId, delta: int)
    requires DeskInv(d)
    ensures DeskInv(DeskStep(d, External(user, delta)))
  {
    forall u: UserId ensures LedgerSums(DeskStep(d, External(user, delta)), u) {
      assert LedgerSums(d, u);
    }
  }

  lemma BeginKeepsDeskInv(d: Desk, task: nat, k: nat, approve: bool, applyBalance: Option<bool>)
    requires DeskInv(d)
    ensures DeskInv(ReviewRead(d, task, k, approve, applyBalance).0)
  {
    forall u: UserId ensures LedgerSums(ReviewRead(d, task, k, approve, applyBalance).0, u) {
      assert LedgerSums(d, u);
    }
  }

  lemma DeskStepKeepsInv(d: Desk, e: DeskEvent)
    requires DeskInv(d)
    ensures DeskInv(DeskStep(d, e))
  {
    match e
    case OnPool(pe) => if !pe.DoDecide? { OnPoolKeepsDeskInv(d, pe); }
    case External(user, delta) => ExternalKeepsDeskInv(d, user, delta);
    case BeginReview(task, k, approve, applyBalance) => BeginKeepsDeskInv(d, task, k, approve, applyBalance);
    case FinishReview(task) => if task in d.reviews { CommitKeepsDeskInv(d, task); }
  }

  /** With any number of reviewers interleaved between read and compare-and-set. */
  lemma {:induction false} DeskInvOverRuns(opening: map<UserId, int>, events: seq<DeskEvent>)
    ensures DeskInv(DeskRun(OpeningDesk(opening), events))
  {
    if events == [] {
      EmptyPoolInv();
      forall user: UserId ensures LedgerSums(OpeningDesk(opening), user) {}
    } else {
      var init := events[..|events| - 1];
      DeskInvOverRuns(opening, init);
      DeskStepKeepsInv(DeskRun(OpeningDesk(opening), init), events[|events| - 1]);
    }
  }

  // ---------- balances ----------

  /** What the books cannot explain: zero when balance = opening + external deltas + ledger. */
  function Unexplained(d: Desk, user: UserId): int {
    Get(d.balances, user) - Get(d.external, user) - SumBy(d.ledger, DeltaOf(user))
  }

  ghost predicate Balanced(d: Desk) {
    forall user: UserId :: Unexplained(d, user) == 0
  }

  /** This event is a commit that will write a balance. */
  predicate WritesBalance(d: Desk, e: DeskEvent) {
    && e.FinishReview? && e.task in d.reviews && d.reviews[e.task].apply
    && d.reviews[e.task].record < |d.pool.records| && d.pool.records[d.reviews[e.task].record].status == PENDING
  }

  /** The balance a commit is about to overwrite is the one it read. */
  predicate Fresh(d: Desk, e: DeskEvent) {
    WritesBalance(d, e) ==> d.reviews[e.task].before == Get(d.balances, d.pool.records[d.reviews[e.task].record].userId)
  }

  /** How far a commit's read is off the balance of this user that it overwrites. */
  function Overwritten(d: Desk, e: DeskEvent, user: UserId): int {
    if WritesBalance(d, e) && d.pool.records[d.reviews[e.task].record].userId == user
    then d.reviews[e.task].before - Get(d.balances, user) else 0
  }

  /** Exactly the staleness of a commit's read is lost; nothing else moves the discrepancy. */
  lemma DriftStep(d: Desk, e: DeskEvent, user: UserId)
    ensures Unexplained(DeskStep(d, e), user) - Unexplained(d, user) == Overwritten(d, e, user)
  {
    var d' := DeskStep(d, e);
    if WritesBalance(d, e) {
      SumAppend(d.ledger, d'.ledger[|d.ledger|], DeltaOf(user));
    }
  }

  /** How stale the balances were that a run's commits on one user's records overwrote. */
  function LostOver(d: Desk, events: seq<DeskEvent>, user: UserId): int {
    if events == [] then 0
    else
      var init := events[..|events| - 1];
      LostOver(d, init, user) + Overwritten(DeskRun(d, init), events[|events| - 1], user)
  }

  /** For every interleaving of reviewers: what the books cannot explain is the sum of those overwrites. */
  lemma {:induction false} DriftOverRuns(d: Desk, events: seq<DeskEvent>, user: UserId)
    ensures Unexplained(DeskRun(d, events), user) == Unexplained(d, user) + LostOver(d, events, user)
  {
    if events != [] {
      var init := events[..|events| - 1];
      DriftOverRuns(d, init, user);
      DriftStep(DeskRun(d, init), events[|init|], user);
    }
  }

  lemma BalancedIffFresh(d: Desk, e: DeskEvent)
    requires Balanced(d)
    ensures Balanced(DeskStep(d, e)) <==> Fresh(d, e)
  {
    forall user: UserId ensures Unexplained(d, user) == 0 {}
    if Fresh(d, e) {
      forall user: UserId ensures Unexplained(DeskStep(d, e), user) == 0 {
        DriftStep(d, e, user);
      }
    } else {
      DriftStep(d, e, d.pool.records[d.reviews[e.task].record].userId);
    }
  }

  /** A review run as one transaction commits on the balance it read. */
  lemma AtomicReviewIsFresh(d: Desk, task: nat, k: nat, approve: bool, applyBalance: Option<bool>)
    ensures Fresh(DeskStep(d, BeginReview(task, k, approve, applyBalance)), FinishReview(task))
         || ReviewRead(d, task, k, approve, applyBalance).1.Err?
    ensures ReviewRead(d, task, k, approve, applyBalance).1.Ok? ==>
              Review(d, task, k, approve, applyBalance).0
                == DeskRun(d, [BeginReview(task, k, approve, applyBalance), FinishReview(task)])
  {
    var begin, finish := BeginReview(task, k, approve, applyBalance), FinishReview(task);
    assert [begin, finish][..1] == [begin];
    assert DeskRun(d, [begin]) == DeskStep(DeskRun(d, [begin][..0]), begin) == DeskStep(d, begin);
  }

  ghost predicate AlwaysFresh(d: Desk, events: seq<DeskEvent>) {
    events != [] ==>
      var init := events[..|events| - 1];
      AlwaysFresh(d, init) && Fresh(DeskRun(d, init), events[|init|])
  }

  /** This event is an outside debit of more than the balance. */
  predicate Overdraws(d: Desk, e: DeskEvent) {
    e.External? && Get(d.balances, e.user) + e.delta < 0
  }

  ghost predicate NeverOverdraws(d: Desk, events: seq<DeskEvent>) {
    events != [] ==>
      var init := events[..|events| - 1];
      NeverOverdraws(d, init) && !Overdraws(DeskRun(d, init), events[|init|])
  }

  /** While commits overwrite what they read, opening balance, external deltas and the ledger explain every balance. */
  lemma {:induction false} BalancedWhenFresh(opening: map<UserId, int>, events: seq<DeskEvent>)
    requires AlwaysFresh(OpeningDesk(opening), events)
    ensures Balanced(DeskRun(OpeningDesk(opening), events))
  {
    var d0 := OpeningDesk(opening);
    if events == [] {
      OpeningIsBalanced(opening);
    } else {
      var init, e := events[..|events| - 1], events[|events| - 1];
      BalancedWhenFresh(opening, init);
      BalancedIffFresh(DeskRun(d0, init), e);
    }
  }

  lemma OpeningIsBalanced(opening: map<UserId, int>)
    ensures Balanced(OpeningDesk(opening))
  {
  }

  ghost predicate Solvent(d: Desk) {
    forall user: UserId :: Get(d.balances, user) >= 0
  }

  /** No pending review has read a negative balance. */
  ghost predicate ReadsSolvent(d: Desk) {
    forall task :: task in d.reviews ==> d.reviews[task].before >= 0
  }

  /** A commit writes what it read plus a deposit, or minus a withdrawal that what it read covers: it need not be fresh. */
  lemma SolventStep(d: Desk, e: DeskEvent)
    requires DeskInv(d) && Solvent(d) && ReadsSolvent(d)
    ensures Solvent(DeskStep(d, e)) <==> !Overdraws(d, e)
    ensures ReadsSolvent(DeskStep(d, e))
  {
    if Overdraws(d, e) {
      assert Get(DeskStep(d, e).balances, e.user) < 0;
    } else {
      forall user: UserId ensures Get(DeskStep(d, e).balances, user) >= 0 {
        assert Get(d.balances, user) >= 0;
      }
    }
    if e.BeginReview? && e.k < |d.pool.records| {
      assert Get(d.balances, d.pool.records[e.k].userId) >= 0;
    }
  }

  ghost predicate AlwaysSolvent(d: Desk, events: seq<DeskEvent>) {
    Solvent(DeskRun(d, events)) && (events != [] ==> AlwaysSolvent(d, events[..|events| - 1]))
  }

  /** However reviewers interleave, no balance is ever negative exactly when no outside debit overdraws one. */
  lemma {:induction false} SolventOverRuns(opening: map<UserId, int>, events: seq<DeskEvent>)
    requires Solvent(OpeningDesk(opening))
    ensures AlwaysSolvent(OpeningDesk(opening), events) <==> NeverOverdraws(OpeningDesk(opening), events)
    ensures NeverOverdraws(OpeningDesk(opening), events) ==> ReadsSolvent(DeskRun(OpeningDesk(opening), events))
  {
    if events != [] {
      var d0, init, e := OpeningDesk(opening), events[..|events| - 1], events[|events| - 1];
      SolventOverRuns(opening, init);
      if NeverOverdraws(d0, init) {
        assert DeskInv(DeskRun(d0, init)) by { DeskInvOverRuns(opening, init); }
        SolventStep(DeskRun(d0, init), e);
      }
    }
  }

  lemma CoveredWhenFresh(opening: map<UserId, int>, events: seq<DeskEvent>, user: UserId)
    requires Solvent(OpeningDesk(opening))
    requires AlwaysFresh(OpeningDesk(opening), events) && NeverOverdraws(OpeningDesk(opening), events)
    ensures var d := DeskRun(OpeningDesk(opening), events);
            SumBy(d.pool.records, AppliedTo(user, WITHDRAW))
              <= Get(d.external, user) + SumBy(d.pool.records, AppliedTo(user, DEPOSIT))
  {
    var d := DeskRun(OpeningDesk(opening), events);
    assert LedgerSums(d, user) by { DeskInvOverRuns(opening, events); }
    assert Unexplained(d, user) == 0 by { BalancedWhenFresh(opening, events); }
    assert Get(d.balances, user) >= 0 by { SolventOverRuns(opening, events); }
  }

  // ---------- replay ----------

  /** Entry `i` starts where, in state `m`, opening balance, outside deltas and the user's earlier entries leave off. */
  ghost predicate StartsAt(m: Desk, ledger: seq<Entry>, i: nat)
    requires i < |ledger|
  {
    && m.ledger == ledger[..i]
    && ledger[i].before == Get(m.external, ledger[i].userId) + SumBy(m.ledger, DeltaOf(ledger[i].userId))
  }

  /** ... in some state of the run, the one in which it was written. */
  ghost predicate Explained(d: Desk, events: seq<DeskEvent>, ledger: seq<Entry>, i: nat)
    requires i < |ledger|
  {
    exists n :: 0 <= n <= |events| && StartsAt(DeskRun(d, events[..n]), ledger, i)
  }

  /** What an event adds to the ledger. */
  function NewEntries(d: Desk, e: DeskEvent): seq<Entry> {
    if WritesBalance(d, e) then
      var k, before := d.reviews[e.task].record, d.reviews[e.task].before;
      var record := d.pool.records[k];
      [Entry(record.userId, Signed(record), before, before + Signed(record), k)]
    else []
  }

  lemma LedgerGrows(d: Desk, e: DeskEvent)
    ensures DeskStep(d, e).ledger == d.ledger + NewEntries(d, e)
    ensures !e.External? ==> DeskStep(d, e).external == d.external
  {
  }

  lemma NewEntryStarts(d: Desk, e: DeskEvent)
    requires Balanced(d) && Fresh(d, e) && WritesBalance(d, e)
    ensures |DeskStep(d, e).ledger| == |d.ledger| + 1 && StartsAt(d, DeskStep(d, e).ledger, |d.ledger|)
  {
    LedgerGrows(d, e);
    var entry := NewEntries(d, e)[0];
    assert (d.ledger + [entry])[..|d.ledger|] == d.ledger;
    assert Unexplained(d, entry.userId) == 0;
  }

  lemma ExplainedLonger(d: Desk, init: seq<DeskEvent>, e: DeskEvent, ledger: seq<Entry>, more: seq<Entry>, i: nat)
    requires i < |ledger| && Explained(d, init, ledger, i)
    ensures Explained(d, init + [e], ledger + more, i)
  {
    var n :| 0 <= n <= |init| && StartsAt(DeskRun(d, init[..n]), ledger, i);
    assert (init + [e])[..n] == init[..n] && (ledger + more)[..i] == ledger[..i];
    assert StartsAt(DeskRun(d, (init + [e])[..n]), ledger + more, i);
  }

  lemma {:induction false} ReplaysWhenFresh(opening: map<UserId, int>, events: seq<DeskEvent>, i: nat)
    requires AlwaysFresh(OpeningDesk(opening), events) && i < |DeskRun(OpeningDesk(opening), events).ledger|
    ensures Explained(OpeningDesk(opening), events, DeskRun(OpeningDesk(opening), events).ledger, i)
  {
    var d0, init, e := OpeningDesk(opening), events[..|events| - 1], events[|events| - 1];
    var m := DeskRun(d0, init);
    assert events == init + [e];
    LedgerGrows(m, e);
    if i < |m.ledger| {
      ReplaysWhenFresh(opening, init, i);
      ExplainedLonger(d0, init, e, m.ledger, NewEntries(m, e), i);
    } else {
      assert Balanced(m) by { BalancedWhenFresh(opening, init); }
      NewEntryStarts(m, e);
      assert events[..|init|] == init;
      assert StartsAt(DeskRun(d0, events[..|init|]), DeskStep(m, e).ledger, i);
    }
  }

  // ---------- serializable reviews ----------

  /** A whole action starts and ends with no review half done, and commits on what it read. */
  lemma ActionIsFresh(d: Desk, a: Action)
    requires d.reviews == map[]
    ensures AlwaysFresh(d, Unfold(a)) && DeskRun(d, Unfold(a)).reviews == map[]
  {
    var events := Unfold(a);
    assert events[..0] == [];
    if a.WholeReview? {
      var seen := DeskStep(d, events[0]);
      assert events[..1] == [events[0]] && [events[0]][..0] == [];
      assert DeskRun(d, events[..1]) == seen;
      AtomicReviewIsFresh(d, a.task, a.k, a.approve, a.applyBalance);
      assert DeskStep(seen, events[1]).reviews == map[];
    }
  }

  lemma {:induction false} FreshConcat(d: Desk, first: seq<DeskEvent>, second: seq<DeskEvent>)
    requires AlwaysFresh(d, first) && AlwaysFresh(DeskRun(d, first), second)
    ensures AlwaysFresh(d, first + second)
  {
    var events := first + second;
    if second == [] {
      assert events == first;
    } else {
      var init := second[..|second| - 1];
      FreshConcat(d, first, init);
      assert events[..|events| - 1] == first + init;
      DeskRunConcat(d, first, init);
    }
  }

  /** When every review is one transaction, every commit overwrites the balance it read. */
  lemma {:induction false} SerialIsFresh(opening: map<UserId, int>, actions: seq<Action>)
    ensures AlwaysFresh(OpeningDesk(opening), UnfoldAll(actions)) && SerialRun(opening, actions).reviews == map[]
  {
    if actions != [] {
      var init, a := actions[..|actions| - 1], actions[|actions| - 1];
      SerialIsFresh(opening, init);
      ActionIsFresh(SerialRun(opening, init), a);
      FreshConcat(OpeningDesk(opening), UnfoldAll(init), Unfold(a));
      DeskRunConcat(OpeningDesk(opening), UnfoldAll(init), Unfold(a));
    }
  }

  /** With each review serializable, opening balance, external deltas and the ledger explain every balance. */
  lemma BalancedOverRuns(opening: map<UserId, int>, actions: seq<Action>, user: UserId)
    ensures var d := SerialRun(opening, actions);
            Get(d.balances, user) == Get(d.external, user) + SumBy(d.ledger, DeltaOf(user))
  {
    SerialIsFresh(opening, actions);
    BalancedWhenFresh(opening, UnfoldAll(actions));
    assert Unexplained(SerialRun(opening, actions), user) == 0;
  }

  /** Applied withdrawals are always covered by the opening balance, external deltas and applied deposits. */
  lemma WithdrawalsCovered(opening: map<UserId, int>, actions: seq<Action>, user: UserId)
    requires Solvent(OpeningDesk(opening)) && NeverOverdraws(OpeningDesk(opening), UnfoldAll(actions))
    ensures var d := SerialRun(opening, actions);
            SumBy(d.pool.records, AppliedTo(user, WITHDRAW))
              <= Get(d.external, user) + SumBy(d.pool.records, AppliedTo(user, DEPOSIT))
  {
    SerialIsFresh(opening, actions);
    CoveredWhenFresh(opening, UnfoldAll(actions), user);
  }

  /** Replaying the ledger, outside deltas included, reproduces the balance before every entry. */
  lemma LedgerReplays(opening: map<UserId, int>, actions: seq<Action>, i: nat)
    requires i < |SerialRun(opening, actions).ledger|
    ensures Explained(OpeningDesk(opening), UnfoldAll(actions), SerialRun(opening, actions).ledger, i)
  {
    SerialIsFresh(opening, actions);
    ReplaysWhenFresh(opening, UnfoldAll(actions), i);
  }

  lemma {:induction false} NoOutsideDeltas(d: Desk, events: seq<DeskEvent>)
    requires forall n :: 0 <= n < |events| ==> !events[n].External?
    ensures DeskRun(d, events).external == d.external
  {
    if events != [] {
      NoOutsideDeltas(d, events[..|events| - 1]);
      LedgerGrows(DeskRun(d, events[..|events| - 1]), events[|events| - 1]);
    }
  }

  /** Without outside deltas the opening balances and the ledger alone do. */
  lemma LedgerReplaysFromOpening(opening: map<UserId, int>, actions: seq<Action>, i: nat)
    requires i < |SerialRun(opening, actions).ledger|
    requires forall n :: 0 <= n < |UnfoldAll(actions)| ==> !UnfoldAll(actions)[n].External?
    ensures var ledger := SerialRun(opening, actions).ledger;
            ledger[i].before == Get(opening, ledger[i].userId) + SumBy(ledger[..i], DeltaOf(ledger[i].userId))
  {
    LedgerReplays(opening, actions, i);
    var events, d0 := UnfoldAll(actions), OpeningDesk(opening);
    var n :| 0 <= n <= |events| && StartsAt(DeskRun(d0, events[..n]), SerialRun(opening, actions).ledger, i);
    NoOutsideDeltas(d0, events[..n]);
  }

  // ---------- what the serializable transaction and the second balance check are for ----------

  /** Two reviews of one user's records that both read before either commits: the first one's delta is lost. */
  lemma InterleavedReviewsLoseAnUpdate(d: Desk, first: nat, second: nat)
    requires WritesBalance(d, FinishReview(first)) && Fresh(d, FinishReview(first))
    requires WritesBalance(d, FinishReview(second)) && Fresh(d, FinishReview(second))
    requires d.reviews[first].record != d.reviews[second].record
    requires d.pool.records[d.reviews[first].record].userId == d.pool.records[d.reviews[second].record].userId
    ensures var one, two := d.pool.records[d.reviews[first].record], d.pool.records[d.reviews[second].record];
            var d' := DeskStep(DeskStep(d, FinishReview(first)), FinishReview(second));
            && Get(d'.balances, one.userId) == Get(d.balances, one.userId) + Signed(two)
            && Unexplained(d', one.userId) == Unexplained(d, one.userId) - Signed(one)
  {
    var one, two := d.pool.records[d.reviews[first].record], d.pool.records[d.reviews[second].record];
    var m := DeskStep(d, FinishReview(first));
    CommitLeaves(d, first, second);
    DriftStep(d, FinishReview(first), one.userId);
    DriftStep(m, FinishReview(second), one.userId);
  }

  /** A commit leaves another pending review, and the record under it, as they were. */
  lemma CommitLeaves(d: Desk, first: nat, second: nat)
    requires first != second && WritesBalance(d, FinishReview(first)) && WritesBalance(d, FinishReview(second))
    requires d.reviews[first].record != d.reviews[second].record
    ensures var m, k := DeskStep(d, FinishReview(first)), d.reviews[second].record;
            && second in m.reviews && m.reviews[second] == d.reviews[second]
            && k < |m.pool.records| && m.pool.records[k] == d.pool.records[k]
    ensures var r := d.pool.records[d.reviews[first].record];
            Get(DeskStep(d, FinishReview(first)).balances, r.userId) == d.reviews[first].before + Signed(r)
  {
  }

  /** Of two PENDING withdrawals the second to be approved goes through exactly when the balance covers both. */
  lemma SecondWithdrawalIff(d: Desk, j: nat, k: nat, task: nat, task': nat, apply: Option<bool>, apply': Option<bool>)
    requires j < |d.pool.records| && k < |d.pool.records| && j != k
    requires d.pool.records[j].kind == d.pool.records[k].kind == WITHDRAW
    requires d.pool.records[j].status == d.pool.records[k].status == PENDING
    requires d.pool.records[j].userId == d.pool.records[k].userId
    requires d.pool.records[j].amount <= Get(d.balances, d.pool.records[j].userId)
    requires apply != Some(false) && apply' != Some(false)
    ensures var (d', r) := Review(d, task, j, true, apply);
            var r' := Review(d', task', k, true, apply').1;
            && r == Ok(j)
            && r' == if d.pool.records[j].amount + d.pool.records[k].amount <= Get(d.balances, d.pool.records[j].userId)
                     then Ok(k) else Err(InsufficientRealBalance)
  {
    ApprovedWithdrawal(d, j, task, apply);
  }

  lemma ApprovedWithdrawal(d: Desk, j: nat, task: nat, apply: Option<bool>)
    requires j < |d.pool.records| && d.pool.records[j].kind == WITHDRAW && d.pool.records[j].status == PENDING
    requires d.pool.records[j].amount <= Get(d.balances, d.pool.records[j].userId) && apply != Some(false)
    ensures var (d', r) := Review(d, task, j, true, apply);
            && r == Ok(j) && |d'.pool.records| == |d.pool.records|
            && (forall k :: 0 <= k < |d.pool.records| && k != j ==> d'.pool.records[k] == d.pool.records[k])
            && d'.balances == d.balances[d.pool.records[j].userId := Get(d.balances, d.pool.records[j].userId) - d.pool.records[j].amount]
  {
  }

  /**
   Each request is checked against the balance alone, so any two that it covers one by one become PENDING
   together, whatever their sum; the reviews let both through exactly when it covers the sum.
  */
  lemma PendingWithdrawalsMayExceedBalance(d: Desk, user: UserId, currency: Currency, text: string, a: int, b: int, original: int)
    requires MIN_WITHDRAW <= a <= Get(d.balances, user) && MIN_WITHDRAW <= b <= Get(d.balances, user)
    requires original > 0 && WellFormed(text, NetworkOf(currency))
    ensures var balance, n := Get(d.balances, user), |d.pool.records|;
            var asked := DeskStep(DeskStep(d, OnPool(DoWithdraw(user, true, balance, currency, NetworkOf(currency), text, a, original))),
                                  OnPool(DoWithdraw(user, true, balance, currency, NetworkOf(currency), text, b, original)));
            && |asked.pool.records| == n + 2
            && asked.pool.records[n].status == asked.pool.records[n + 1].status == PENDING
            && Review(Review(asked, 0, n, true, None).0, 0, n + 1, true, None).1
                 == if a + b <= balance then Ok(n + 1) else Err(InsufficientRealBalance)
  {
    var balance, n, network := Get(d.balances, user), |d.pool.records|, NetworkOf(currency);
    var one := DeskStep(d, OnPool(DoWithdraw(user, true, balance, currency, network, text, a, original)));
    var two := DeskStep(one, OnPool(DoWithdraw(user, true, balance, currency, network, text, b, original)));
    assert two.balances == d.balances && two.pool.records[n].amount == a && two.pool.records[n + 1].amount == b;
    SecondWithdrawalIff(two, n, n + 1, 0, 0, None, None);
  }
}
