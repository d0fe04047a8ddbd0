/** What a review leaves behind, and what a record's status tells about the review that decided it. */
module FundingOutcomes {
  import opened Wrappers
  import opened Tally
  import opened DepositPool
  import opened DepositPoolLaws
  import opened FundingDesk
  import opened FundingLaws

  // ---------- one review ----------

  /** A review succeeds exactly when all of this holds; otherwise nothing changes and the error names the first check that failed. */
  lemma ReviewSucceedsIff(d: Desk, task: nat, k: nat, approve: bool, applyBalance: Option<bool>)
    ensures var (d', r) := Review(d, task, k, approve, applyBalance);
      && (r.Ok? <==>
            && (approve || applyBalance != Some(true))
            && k < |d.pool.records| && d.pool.records[k].status == PENDING
            && (approve && applyBalance != Some(false) && d.pool.records[k].kind == WITHDRAW ==>
                  d.pool.records[k].amount <= Get(d.balances, d.pool.records[k].userId)))
      && (r.Ok? ==> r.value == k)
      && (r.Err? ==> d' == d)
      && (r == Err(BalanceNotApplicable) <==> !approve && applyBalance == Some(true))
      && (r == Err(FundingRecordNotFound) <==> (approve || applyBalance != Some(true)) && k >= |d.pool.records|)
      && (r == Err(FundingAlreadyReviewed) <==>
            (approve || applyBalance != Some(true)) && k < |d.pool.records| && d.pool.records[k].status != PENDING)
  {
  }

  /** A rejection leaves the record FAILED and unapplied, and no balance, ledger entry or used amount changes. */
  lemma RejectionLeaves(d: Desk, task: nat, k: nat, applyBalance: Option<bool>)
    requires Review(d, task, k, false, applyBalance).1.Ok?
    ensures var d' := Review(d, task, k, false, applyBalance).0;
      && d'.pool.records == d.pool.records[k := d.pool.records[k].(status := FAILED, balanceApplied := false, before := None, after := None)]
      && d'.balances == d.balances && d'.ledger == d.ledger && d'.external == d.external
      && |d'.pool.addresses| == |d.pool.addresses|
      && forall id: nat :: Live(d.pool.addresses, id) ==>
           Live(d'.pool.addresses, id) && d'.pool.addresses[id].value.usedAmount == d.pool.addresses[id].value.usedAmount
  {
  }

  /** An approval leaves the record COMPLETED, applied unless that was declined; only its own user's balance moves. */
  lemma ApprovalLeaves(d: Desk, task: nat, k: nat, applyBalance: Option<bool>)
    requires Review(d, task, k, true, applyBalance).1.Ok?
    ensures var d' := Review(d, task, k, true, applyBalance).0;
      var record, record' := d.pool.records[k], d'.pool.records[k];
      var before := Get(d.balances, record.userId);
      var delta := if record.kind == DEPOSIT then record.amount else -record.amount;
      && d'.pool.records == d.pool.records[k := record']
      && record'.status == COMPLETED
      && (applyBalance == Some(false) ==>
            !record'.balanceApplied && record'.before.None? && record'.after.None? && d'.balances == d.balances && d'.ledger == d.ledger)
      && (applyBalance != Some(false) ==>
            && record'.balanceApplied && record'.before == Some(before) && record'.after == Some(before + delta)
            && d'.balances == d.balances[record.userId := before + delta]
            && d'.ledger == d.ledger + [Entry(record.userId, delta, before, before + delta, k)])
  {
  }

  // ---------- over interleavings ----------

  /** Some event of the run began a review of record `k` with this verdict, and asked for the balance to be applied or not. */
  predicate Begun(events: seq<DeskEvent>, k: nat, approve: bool, apply: bool) {
    exists n :: 0 <= n < |events| && Asks(events[n], k, approve, apply)
  }

  predicate Asks(e: DeskEvent, k: nat, approve: bool, apply: bool) {
    e.BeginReview? && e.k == k && e.approve == approve && (apply <==> e.approve && e.applyBalance != Some(false))
  }

  lemma BegunLonger(init: seq<DeskEvent>, e: DeskEvent, k: nat, approve: bool, apply: bool)
    ensures Begun(init, k, approve, apply) ==> Begun(init + [e], k, approve, apply)
    ensures Asks(e, k, approve, apply) ==> Begun(init + [e], k, approve, apply)
  {
    if Begun(init, k, approve, apply) {
      var n :| 0 <= n < |init| && Asks(init[n], k, approve, apply);
      assert (init + [e])[n] == init[n];
    }
    assert (init + [e])[|init|] == e;
  }

  /** What a pending review will write was asked for in the run. */
  ghost predicate ReadsBegun(d: Desk, events: seq<DeskEvent>) {
    forall task :: task in d.reviews ==> Begun(events, d.reviews[task].record, d.reviews[task].approve, d.reviews[task].apply)
  }

  /** COMPLETED, FAILED and `balanceApplied` go back to reviews that asked for just that. */
  ghost predicate DecisionBegun(d: Desk, events: seq<DeskEvent>, k: nat)
    requires k < |d.pool.records|
  {
    match d.pool.records[k].status
    case PENDING => !d.pool.records[k].balanceApplied
    case COMPLETED => Begun(events, k, true, d.pool.records[k].balanceApplied)
    case FAILED => !d.pool.records[k].balanceApplied && Begun(events, k, false, false)
  }

  ghost predicate DecisionsBegun(d: Desk, events: seq<DeskEvent>) {
    forall k :: 0 <= k < |d.pool.records| ==> DecisionBegun(d, events, k)
  }

  /** The only writes of a status: a commit writes what it read, where it finds PENDING; new records are PENDING. */
  lemma StatusWrites(d: Desk, e: DeskEvent, k: nat)
    requires k < |DeskStep(d, e).pool.records|
    ensures var rs, record' := d.pool.records, DeskStep(d, e).pool.records[k];
      if k >= |rs| then record'.status == PENDING && !record'.balanceApplied
      else if e.FinishReview? && e.task in d.reviews && d.reviews[e.task].record == k && rs[k].status == PENDING
      then record'.status == (if d.reviews[e.task].approve then COMPLETED else FAILED) && record'.balanceApplied == d.reviews[e.task].apply
      else record'.status == rs[k].status && record'.balanceApplied == rs[k].balanceApplied
  {
    if e.OnPool? && !e.e.DoDecide? {
      NewRecordsOnly(d.pool, e.e);
    }
  }

  lemma ReadsStep(d: Desk, init: seq<DeskEvent>, e: DeskEvent)
    requires ReadsBegun(d, init)
    ensures ReadsBegun(DeskStep(d, e), init + [e])
  {
    var d' := DeskStep(d, e);
    forall task | task in d'.reviews ensures Begun(init + [e], d'.reviews[task].record, d'.reviews[task].approve, d'.reviews[task].apply) {
      BegunLonger(init, e, d'.reviews[task].record, d'.reviews[task].approve, d'.reviews[task].apply);
    }
  }

  /** A pending review applies approvals only. */
  ghost predicate ReadsConsistent(d: Desk) {
    forall task :: task in d.reviews ==> (d.reviews[task].apply ==> d.reviews[task].approve)
  }

  lemma DecisionStep(d: Desk, init: seq<DeskEvent>, e: DeskEvent, k: nat)
    requires ReadsBegun(d, init) && ReadsConsistent(d) && DecisionsBegun(d, init)
    requires k < |DeskStep(d, e).pool.records|
    ensures DecisionBegun(DeskStep(d, e), init + [e], k)
  {
    StatusWrites(d, e, k);
    if k < |d.pool.records| {
      assert DecisionBegun(d, init, k);
      BegunLonger(init, e, k, true, d.pool.records[k].balanceApplied);
      BegunLonger(init, e, k, false, false);
      if e.FinishReview? && e.task in d.reviews {
        BegunLonger(init, e, k, d.reviews[e.task].approve, d.reviews[e.task].apply);
      }
    }
  }

  lemma {:induction false} DecisionsOverRuns(opening: map<UserId, int>, events: seq<DeskEvent>)
    ensures var d := DeskRun(OpeningDesk(opening), events);
      ReadsBegun(d, events) && ReadsConsistent(d) && DecisionsBegun(d, events)
  {
    if events != [] {
      var init, e := events[..|events| - 1], events[|events| - 1];
      var m := DeskRun(OpeningDesk(opening), init);
      DecisionsOverRuns(opening, init);
      assert events == init + [e];
      ReadsStep(m, init, e);
      forall k | 0 <= k < |DeskStep(m, e).pool.records| ensures DecisionBegun(DeskStep(m, e), events, k) {
        DecisionStep(m, init, e, k);
      }
    }
  }

  /**
   However reviewers interleave: a COMPLETED record was decided by a review that approved it, with its balance
   applied exactly if that review asked for it; a FAILED one by a review that rejected it, and nothing was applied.
  */
  lemma StatusTellsTheReview(opening: map<UserId, int>, events: seq<DeskEvent>, k: nat)
    requires k < |DeskRun(OpeningDesk(opening), events).pool.records|
    ensures var record := DeskRun(OpeningDesk(opening), events).pool.records[k];
      && (record.status == COMPLETED ==>
            exists n :: 0 <= n < |events| && events[n].BeginReview? && events[n].k == k && events[n].approve
                        && (record.balanceApplied <==> events[n].applyBalance != Some(false)))
      && (record.status == FAILED ==>
            !record.balanceApplied && exists n :: 0 <= n < |events| && events[n].BeginReview? && events[n].k == k && !events[n].approve)
      && (record.status == PENDING ==> !record.balanceApplied)
  {
    DecisionsOverRuns(opening, events);
    var d := DeskRun(OpeningDesk(opening), events);
    assert DecisionBegun(d, events, k);
    if d.pool.records[k].status == COMPLETED {
      var n :| 0 <= n < |events| && Asks(events[n], k, true, d.pool.records[k].balanceApplied);
      assert events[n].BeginReview?;
    } else if d.pool.records[k].status == FAILED {
      var n :| 0 <= n < |events| && Asks(events[n], k, false, false);
      assert events[n].BeginReview?;
    }
  }

  /** A commit that finds its record PENDING decides it as it read, whatever happened since the read. */
  lemma CommitDecides(d: Desk, task: nat)
    requires task in d.reviews && d.reviews[task].record < |d.pool.records|
    ensures var Read(k, approve, apply, before) := d.reviews[task];
      var (d', r) := ReviewCommit(d, task);
      var record := d.pool.records[k];
      && (record.status != PENDING ==>
            r == Err(FundingAlreadyReviewed) && d'.pool == d.pool && d'.balances == d.balances && d'.ledger == d.ledger)
      && (record.status == PENDING ==>
            && r == Ok(k) && |d'.pool.records| == |d.pool.records|
            && d'.pool.records[k].status == (if approve then COMPLETED else FAILED) && d'.pool.records[k].balanceApplied == apply
            && (!apply ==> d'.balances == d.balances && d'.ledger == d.ledger)
            && (!approve ==> forall id: nat :: Live(d.pool.addresses, id) ==>
                  Live(d'.pool.addresses, id) && d'.pool.addresses[id].value.usedAmount == d.pool.addresses[id].value.usedAmount))
  {
  }
}
