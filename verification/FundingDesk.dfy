/**
 Reviewing funding records: real balances, the balance ledger, and reviews split at the point where a
 second reviewer can slip in. `ReviewRead` is everything up to the conditional update, `ReviewCommit` the
 conditional update and what follows it; a review in a serializable transaction is one right after the other.
*/
module FundingDesk {
  import opened Wrappers
  import opened DepositPool

  datatype Entry = Entry(userId: UserId, delta: int, before: int, after: int, record: nat)

  /** What a reviewer has read and will write. */
  datatype Read = Read(record: nat, approve: bool, apply: bool, before: int)

  /** `external` is history: opening balances plus every delta that did not come from a review. */
  datatype Desk = Desk(
    pool: Pool,
    balances: map<UserId, int>,
    ledger: seq<Entry>,
    reviews: map<nat, Read>,
    external: map<UserId, int>)

  datatype ReviewError =
    | BalanceNotApplicable
    | FundingRecordNotFound
    | FundingAlreadyReviewed
    | InsufficientRealBalance

  function OpeningDesk(opening: map<UserId, int>): Desk {
    Desk(EMPTY_POOL, opening, [], map[], opening)
  }

  function Get(m: map<UserId, int>, user: UserId): int {
    if user in m then m[user] else 0
  }

  function Signed(record: FundingRecord): int {
    if record.kind == DEPOSIT then record.amount else -record.amount
  }

  /** `applyBalance` as sent: absent counts as true for an approval. */
  function ReviewRead(d: Desk, task: nat, k: nat, approve: bool, applyBalance: Option<bool>): (Desk, Result<nat, ReviewError>) {
    var apply := approve && applyBalance != Some(false);
    if !approve && applyBalance == Some(true) then (d, Err(BalanceNotApplicable))
    else if k >= |d.pool.records| then (d, Err(FundingRecordNotFound))
    else
      var record := d.pool.records[k];
      if record.status != PENDING then (d, Err(FundingAlreadyReviewed))
      else
        var before := Get(d.balances, record.userId);
        if apply && record.kind == WITHDRAW && before < record.amount then (d, Err(InsufficientRealBalance))
        else (d.(reviews := d.reviews[task := Read(k, approve, apply, before)]), Ok(k))
  }

  function ReviewCommit(d: Desk, task: nat): (Desk, Result<nat, ReviewError>)
    requires task in d.reviews && d.reviews[task].record < |d.pool.records|
  {
    var Read(k, approve, apply, before) := d.reviews[task];
    var record := d.pool.records[k];
    var rest := d.(reviews := d.reviews - {task});
    if record.status != PENDING then (rest, Err(FundingAlreadyReviewed))
    else
      var after := before + Signed(record);
      var decided := rest.(pool := Decide(d.pool, k, approve, apply, if apply then Some(before) else None,
                                          if apply then Some(after) else None));
      if !apply then (decided, Ok(k))
      else (decided.(balances := d.balances[record.userId := after],
                     ledger := d.ledger + [Entry(record.userId, Signed(record), before, after, k)]),
            Ok(k))
  }

  /** A whole review with nothing in between. */
  function Review(d: Desk, task: nat, k: nat, approve: bool, applyBalance: Option<bool>): (Desk, Result<nat, ReviewError>) {
    var (seen, r) := ReviewRead(d, task, k, approve, applyBalance);
    if r.Err? then (d, r) else ReviewCommit(seen, task)
  }

  datatype DeskEvent =
    | OnPool(e: PoolEvent)
    | External(user: UserId, delta: int)
    | BeginReview(task: nat, k: nat, approve: bool, applyBalance: Option<bool>)
    | FinishReview(task: nat)

  /** Records are decided by reviews only. */
  function DeskStep(d: Desk, e: DeskEvent): Desk {
    match e
    case OnPool(pe) => if pe.DoDecide? then d else d.(pool := PoolStep(d.pool, pe))
    case External(user, delta) =>
      d.(balances := d.balances[user := Get(d.balances, user) + delta],
         external := d.external[user := Get(d.external, user) + delta])
    case BeginReview(task, k, approve, applyBalance) => ReviewRead(d, task, k, approve, applyBalance).0
    case FinishReview(task) =>
      if task in d.reviews && d.reviews[task].record < |d.pool.records| then ReviewCommit(d, task).0 else d
  }

  function DeskRun(d: Desk, events: seq<DeskEvent>): Desk {
    if events == [] then d else DeskStep(DeskRun(d, events[..|events| - 1]), events[|events| - 1])
  }

  lemma {:induction false} DeskRunConcat(d: Desk, first: seq<DeskEvent>, second: seq<DeskEvent>)
    ensures DeskRun(d, first + second) == DeskRun(DeskRun(d, first), second)
  {
    if second == [] {
      assert first + second == first;
    } else {
      var init := second[..|second| - 1];
      assert (first + second)[..|first + second| - 1] == first + init;
      DeskRunConcat(d, first, init);
    }
  }

  // ---------- serializable runs ----------

  /** What the outside world sees when every review is one serializable transaction. */
  datatype Action =
    | Request(e: PoolEvent)
    | Outside(user: UserId, delta: int)
    | WholeReview(task: nat, k: nat, approve: bool, applyBalance: Option<bool>)

  function Unfold(a: Action): seq<DeskEvent> {
    match a
    case Request(e) => [OnPool(e)]
    case Outside(user, delta) => [External(user, delta)]
    case WholeReview(task, k, approve, applyBalance) => [BeginReview(task, k, approve, applyBalance), FinishReview(task)]
  }

  function UnfoldAll(actions: seq<Action>): seq<DeskEvent> {
    if actions == [] then [] else UnfoldAll(actions[..|actions| - 1]) + Unfold(actions[|actions| - 1])
  }

  function SerialRun(opening: map<UserId, int>, actions: seq<Action>): Desk {
    DeskRun(OpeningDesk(opening), UnfoldAll(actions))
  }
}
