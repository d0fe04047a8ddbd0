/**
 `getOrCreateUserConversation` at the granularity of its awaits, for any number of concurrent calls in one
 process. A database query is issued, executes at some later step, and its caller resumes at a later step
 still; everything a caller does between two awaits is one step, because the process is single threaded.
*/
module ConversationLock {
  import opened Wrappers

  type UserId = nat
  type Call = nat
  type ConversationId = nat

  datatype Status = PENDING | ACTIVE | CLOSED
  datatype Conversation = Conversation(userId: UserId, status: Status)

  datatype Phase =
    | Asked                                   // first look-up issued
    | Looked(found: Option<ConversationId>)   // ... answered
    | Checking                                // holds the lock; second look-up issued
    | Checked(seen: Option<ConversationId>)   // ... answered
    | Creating                                // insert issued
    | Created(id: ConversationId)             // ... done
    | Broken                                  // a query of the lock holder failed
    | Waiting                                 // awaits another call's promise
    | Returned(id: ConversationId)
    | Failed

  /** `via` is the call whose promise this one awaits or awaited. */
  datatype Progress = Progress(userId: UserId, phase: Phase, via: Option<Call>)

  datatype Desk = Desk(
    conversations: seq<Conversation>,
    locks: map<UserId, Call>,
    calls: map<Call, Progress>)

  predicate IsOpen(c: Conversation) {
    c.status == PENDING || c.status == ACTIVE
  }

  predicate OpenFor(conversations: seq<Conversation>, user: UserId, id: ConversationId) {
    id < |conversations| && conversations[id].userId == user && IsOpen(conversations[id])
  }

  function FindOpen(conversations: seq<Conversation>, user: UserId): (found: Option<ConversationId>)
    ensures found.Some? ==> OpenFor(conversations, user, found.value)
    ensures found.None? ==> forall id: ConversationId :: !OpenFor(conversations, user, id)
  {
    if conversations == [] then None
    else
      var last := |conversations| - 1;
      var earlier := FindOpen(conversations[..last], user);
      assert forall id: ConversationId :: id < last ==>
        (OpenFor(conversations, user, id) <==> OpenFor(conversations[..last], user, id));
      if earlier.Some? then earlier
      else if OpenFor(conversations, user, last) then Some(last) else None
  }

  datatype Event =
    | Arrive(call: Call, user: UserId)
    | Execute(call: Call)     // the database runs the call's outstanding query
    | Break(call: Call)       // ... or fails it
    | Resume(call: Call)      // the call runs up to its next await
    | Close(id: ConversationId)
    | Assign(id: ConversationId)

  function At(d: Desk, call: Call, phase: Phase): Desk
    requires call in d.calls
  {
    d.(calls := d.calls[call := d.calls[call].(phase := phase)])
  }

  /** The `finally` block: the entry goes, and the promise settles. */
  function Unlock(d: Desk, call: Call, phase: Phase): Desk
    requires call in d.calls
  {
    At(d, call, phase).(locks := d.locks - {d.calls[call].userId})
  }

  function RunQuery(d: Desk, call: Call): Desk
    requires call in d.calls
  {
    var user := d.calls[call].userId;
    match d.calls[call].phase
    case Asked => At(d, call, Looked(FindOpen(d.conversations, user)))
    case Checking => At(d, call, Checked(FindOpen(d.conversations, user)))
    case Creating =>
      At(d, call, Created(|d.conversations|)).(conversations := d.conversations + [Conversation(user, PENDING)])
    case _ => d
  }

  function FailQuery(d: Desk, call: Call): Desk
    requires call in d.calls
  {
    match d.calls[call].phase
    case Asked => At(d, call, Failed)
    case Checking => At(d, call, Broken)
    case Creating => At(d, call, Broken)
    case _ => d
  }

  function Continue(d: Desk, call: Call): Desk
    requires call in d.calls
  {
    var user := d.calls[call].userId;
    match d.calls[call].phase
    case Looked(Some(id)) => At(d, call, Returned(id))
    case Looked(None) =>
      if user in d.locks
      then d.(calls := d.calls[call := Progress(user, Waiting, Some(d.locks[user]))])
      else At(d, call, Checking).(locks := d.locks[user := call])
    case Checked(Some(id)) => Unlock(d, call, Returned(id))
    case Checked(None) => At(d, call, Creating)
    case Created(id) => Unlock(d, call, Returned(id))
    case Broken => Unlock(d, call, Failed)
    case Waiting =>
      var via := d.calls[call].via;
      if via.Some? && via.value in d.calls && Settled(d.calls[via.value].phase)
      then At(d, call, d.calls[via.value].phase) else d
    case _ => d
  }

  predicate Settled(phase: Phase) {
    phase.Returned? || phase.Failed?
  }

  function SetStatus(d: Desk, id: ConversationId, status: Status): Desk {
    if id < |d.conversations|
    then d.(conversations := d.conversations[id := d.conversations[id].(status := status)])
    else d
  }

  function Step(d: Desk, e: Event): Desk {
    match e
    case Arrive(call, user) =>
      if call in d.calls then d else d.(calls := d.calls[call := Progress(user, Asked, None)])
    case Execute(call) => if call in d.calls then RunQuery(d, call) else d
    case Break(call) => if call in d.calls then FailQuery(d, call) else d
    case Resume(call) => if call in d.calls then Continue(d, call) else d
    case Close(id) => SetStatus(d, id, CLOSED)
    case Assign(id) => SetStatus(d, id, ACTIVE)
  }

  function Run(d: Desk, events: seq<Event>): Desk {
    if events == [] then d else Step(Run(d, events[..|events| - 1]), events[|events| - 1])
  }

  const EMPTY_DESK := Desk([], map[], map[])

  // ---------- the invariant ----------

  predicate InFlight(phase: Phase) {
    phase.Checking? || phase.Checked? || phase.Creating? || phase.Created? || phase.Broken?
  }

  /** Past its second look-up, with nothing found: this call will insert. */
  predicate WillInsert(phase: Phase) {
    phase == Checked(None) || phase.Creating?
  }

  ghost predicate SingleOpen(d: Desk) {
    forall i, j, user: UserId :: OpenFor(d.conversations, user, i) && OpenFor(d.conversations, user, j) ==> i == j
  }

  /** The holder of a user's lock is a call of that user between taking and releasing it. */
  ghost predicate LockHeld(d: Desk, user: UserId)
    requires user in d.locks
  {
    d.locks[user] in d.calls && d.calls[d.locks[user]].userId == user && InFlight(d.calls[d.locks[user]].phase)
  }

  ghost predicate HoldsLock(d: Desk, call: Call)
    requires call in d.calls
  {
    InFlight(d.calls[call].phase) ==> d.calls[call].userId in d.locks && d.locks[d.calls[call].userId] == call
  }

  /** So the lock entry of a user exists exactly while one call of that user is in flight. */
  ghost predicate LockIsCreator(d: Desk) {
    && (forall user: UserId :: user in d.locks ==> LockHeld(d, user))
    && (forall call :: call in d.calls ==> HoldsLock(d, call))
  }

  ghost predicate InsertIsSafe(d: Desk) {
    forall call :: call in d.calls && WillInsert(d.calls[call].phase) ==>
      forall id: ConversationId :: !OpenFor(d.conversations, d.calls[call].userId, id)
  }

  predicate Owns(d: Desk, user: UserId, id: ConversationId) {
    id < |d.conversations| && d.conversations[id].userId == user
  }

  /** Every answer a call holds is a conversation of its own user. */
  ghost predicate AnswersOwn(d: Desk) {
    forall call :: call in d.calls ==>
      var Progress(user, phase, via) := d.calls[call];
      match phase
      case Looked(Some(id)) => Owns(d, user, id)
      case Checked(Some(id)) => Owns(d, user, id)
      case Created(id) => Owns(d, user, id)
      case Returned(id) => Owns(d, user, id)
      case _ => true
  }

  /** A call that waited gets what the call it waited on got: the same conversation, or the same failure. */
  ghost predicate WaiterFollows(d: Desk, call: Call)
    requires call in d.calls
  {
    var p := d.calls[call];
    && p.via.Some? && p.via.value in d.calls
    && var creator := d.calls[p.via.value];
       && creator.userId == p.userId && creator.via.None?
       && (InFlight(creator.phase) || Settled(creator.phase))
       && (p.phase.Waiting? || (Settled(p.phase) && p.phase == creator.phase))
  }

  ghost predicate WaitersFollow(d: Desk) {
    forall call :: call in d.calls && (d.calls[call].phase.Waiting? || d.calls[call].via.Some?) ==> WaiterFollows(d, call)
  }

  /** What holds of the calls whatever is assigned. */
  ghost predicate CallsOk(d: Desk) {
    LockIsCreator(d) && AnswersOwn(d) && WaitersFollow(d)
  }

  ghost predicate Inv(d: Desk) {
    SingleOpen(d) && InsertIsSafe(d) && CallsOk(d)
  }

  // ---------- steps ----------

  lemma ArriveKeepsInv(d: Desk, call: Call, user: UserId)
    requires Inv(d)
    ensures Inv(Step(d, Arrive(call, user)))
  {
  }

  lemma ExecuteKeepsLocks(d: Desk, call: Call)
    requires CallsOk(d) && call in d.calls
    ensures LockIsCreator(RunQuery(d, call))
  {
    var d' := RunQuery(d, call);
    forall user: UserId | user in d'.locks ensures LockHeld(d', user) { assert LockHeld(d, user); }
    forall c | c in d'.calls ensures HoldsLock(d', c) { assert HoldsLock(d, c); }
  }

  lemma ExecuteKeepsWaiters(d: Desk, call: Call)
    requires CallsOk(d) && call in d.calls
    ensures WaitersFollow(RunQuery(d, call))
  {
    var d' := RunQuery(d, call);
    forall c | c in d'.calls && (d'.calls[c].phase.Waiting? || d'.calls[c].via.Some?) ensures WaiterFollows(d', c) {
      assert WaiterFollows(d, c);
    }
  }

  lemma ExecuteKeepsAnswers(d: Desk, call: Call)
    requires AnswersOwn(d) && call in d.calls
    ensures AnswersOwn(RunQuery(d, call))
  {
  }

  lemma ExecuteKeepsCalls(d: Desk, call: Call)
    requires CallsOk(d) && call in d.calls
    ensures CallsOk(RunQuery(d, call))
  {
    ExecuteKeepsLocks(d, call);
    ExecuteKeepsWaiters(d, call);
    ExecuteKeepsAnswers(d, call);
  }

  /** An insert happens only when nothing of the user is open, and its holder is the only one about to insert. */
  lemma ExecuteKeepsOpen(d: Desk, call: Call)
    requires Inv(d) && call in d.calls
    ensures SingleOpen(RunQuery(d, call)) && InsertIsSafe(RunQuery(d, call))
  {
    var d' := RunQuery(d, call);
    if d.calls[call].phase.Creating? {
      var user, n := d.calls[call].userId, |d.conversations|;
      forall i: ConversationId, u: UserId | OpenFor(d'.conversations, u, i)
        ensures (i == n && u == user) || (i < n && u != user && OpenFor(d.conversations, u, i))
      {
        if i < n { assert OpenFor(d.conversations, u, i); }
      }
      forall c, id: ConversationId | c in d'.calls && WillInsert(d'.calls[c].phase)
        ensures !OpenFor(d'.conversations, d'.calls[c].userId, id)
      {
        assert HoldsLock(d, c) && HoldsLock(d, call);
      }
    }
  }

  lemma ExecuteKeepsInv(d: Desk, call: Call)
    requires Inv(d) && call in d.calls
    ensures Inv(RunQuery(d, call))
  {
    ExecuteKeepsCalls(d, call);
    ExecuteKeepsOpen(d, call);
  }

  lemma BreakKeepsInv(d: Desk, call: Call)
    requires Inv(d) && call in d.calls
    ensures Inv(FailQuery(d, call))
  {
    BreakKeepsCalls(d, call);
  }

  lemma BreakKeepsCalls(d: Desk, call: Call)
    requires CallsOk(d) && call in d.calls
    ensures CallsOk(FailQuery(d, call))
  {
    var d' := FailQuery(d, call);
    forall user: UserId | user in d'.locks ensures LockHeld(d', user) { assert LockHeld(d, user); }
    forall c | c in d'.calls ensures HoldsLock(d', c) { assert HoldsLock(d, c); }
    forall c | c in d'.calls && (d'.calls[c].phase.Waiting? || d'.calls[c].via.Some?) ensures WaiterFollows(d', c) {
      assert WaiterFollows(d, c);
    }
  }

  lemma ResumeKeepsLocks(d: Desk, call: Call)
    requires CallsOk(d) && call in d.calls
    ensures LockIsCreator(Continue(d, call))
  {
    var d' := Continue(d, call);
    assert HoldsLock(d, call);
    forall user: UserId | user in d'.locks ensures LockHeld(d', user) {
      assert user in d.locks ==> LockHeld(d, user);
    }
    forall c | c in d'.calls ensures HoldsLock(d', c) { assert HoldsLock(d, c); }
  }

  lemma ResumeKeepsWaiters(d: Desk, call: Call)
    requires CallsOk(d) && call in d.calls
    ensures WaitersFollow(Continue(d, call))
  {
    var d' := Continue(d, call);
    forall c | c in d'.calls && (d'.calls[c].phase.Waiting? || d'.calls[c].via.Some?)
      ensures WaiterFollows(d', c)
    {
      if c != call { assert WaiterFollows(d, c); }
      else if d.calls[call].phase.Waiting? { assert WaiterFollows(d, call); }
    }
  }

  lemma ResumeKeepsAnswers(d: Desk, call: Call)
    requires CallsOk(d) && call in d.calls
    ensures AnswersOwn(Continue(d, call))
  {
    if d.calls[call].phase.Waiting? { assert WaiterFollows(d, call); }
  }

  lemma ResumeKeepsInserts(d: Desk, call: Call)
    requires Inv(d) && call in d.calls
    ensures SingleOpen(Continue(d, call)) && InsertIsSafe(Continue(d, call))
  {
  }

  lemma ResumeKeepsInv(d: Desk, call: Call)
    requires Inv(d) && call in d.calls
    ensures Inv(Continue(d, call))
  {
    ResumeKeepsLocks(d, call);
    ResumeKeepsWaiters(d, call);
    ResumeKeepsAnswers(d, call);
    ResumeKeepsInserts(d, call);
  }

  lemma CloseKeepsInv(d: Desk, id: ConversationId)
    requires Inv(d)
    ensures Inv(SetStatus(d, id, CLOSED))
  {
    var d' := SetStatus(d, id, CLOSED);
    assert forall i, user: UserId :: OpenFor(d'.conversations, user, i) ==> OpenFor(d.conversations, user, i);
  }

  lemma CallsStep(d: Desk, e: Event)
    requires CallsOk(d)
    ensures CallsOk(Step(d, e))
  {
    match e
    case Execute(call) => if call in d.calls { ExecuteKeepsCalls(d, call); }
    case Break(call) => if call in d.calls { BreakKeepsCalls(d, call); }
    case Resume(call) =>
      if call in d.calls {
        ResumeKeepsLocks(d, call);
        ResumeKeepsWaiters(d, call);
        ResumeKeepsAnswers(d, call);
      }
    case _ => StatusKeepsCalls(d, e);
  }

  lemma StatusKeepsCalls(d: Desk, e: Event)
    requires CallsOk(d) && (e.Arrive? || e.Close? || e.Assign?)
    ensures CallsOk(Step(d, e))
  {
    var d' := Step(d, e);
    forall user: UserId | user in d'.locks ensures LockHeld(d', user) { assert LockHeld(d, user); }
    forall c | c in d'.calls ensures HoldsLock(d', c) { assert c in d.calls ==> HoldsLock(d, c); }
    forall c | c in d'.calls && (d'.calls[c].phase.Waiting? || d'.calls[c].via.Some?) ensures WaiterFollows(d', c) {
      assert WaiterFollows(d, c);
    }
  }

  /** Locks, answers and waiters are right over every run, unsafe assignments included. */
  lemma {:induction false} CallsOverRuns(events: seq<Event>)
    ensures CallsOk(Run(EMPTY_DESK, events))
  {
    if events != [] {
      var init := events[..|events| - 1];
      assert CallsOk(Run(EMPTY_DESK, init)) by { CallsOverRuns(init); }
      assert Run(EMPTY_DESK, events) == Step(Run(EMPTY_DESK, init), events[|init|]);
      assert CallsOk(Step(Run(EMPTY_DESK, init), events[|init|])) by { CallsStep(Run(EMPTY_DESK, init), events[|init|]); }
    }
  }

  /** Assigning is harmless when the conversation is open, or nothing of its user is open or about to be. */
  ghost predicate AssignIsSafe(d: Desk, id: ConversationId)
    requires id < |d.conversations|
  {
    var user := d.conversations[id].userId;
    || IsOpen(d.conversations[id])
    || ((forall i: ConversationId :: !OpenFor(d.conversations, user, i))
        && (forall call :: call in d.calls && d.calls[call].userId == user ==> !WillInsert(d.calls[call].phase)))
  }

  /** Exactly the safe assignments keep the invariant; reopening a closed conversation otherwise breaks it. */
  lemma AssignIffSafe(d: Desk, id: ConversationId)
    requires Inv(d) && id < |d.conversations|
    ensures Inv(SetStatus(d, id, ACTIVE)) <==> AssignIsSafe(d, id)
  {
    var d', user := SetStatus(d, id, ACTIVE), d.conversations[id].userId;
    assert forall i, u: UserId :: i != id ==> (OpenFor(d'.conversations, u, i) <==> OpenFor(d.conversations, u, i));
    assert OpenFor(d'.conversations, user, id);
    if AssignIsSafe(d, id) {
      forall i, j, u: UserId | OpenFor(d'.conversations, u, i) && OpenFor(d'.conversations, u, j) ensures i == j {
        if IsOpen(d.conversations[id]) { assert OpenFor(d.conversations, user, id); }
        if i != id { assert OpenFor(d.conversations, u, i); }
        if j != id { assert OpenFor(d.conversations, u, j); }
      }
      forall call, i: ConversationId | call in d'.calls && WillInsert(d'.calls[call].phase)
        ensures !OpenFor(d'.conversations, d'.calls[call].userId, i)
      {
        assert call in d.calls && WillInsert(d.calls[call].phase) && !OpenFor(d.conversations, d.calls[call].userId, i);
        if i == id && IsOpen(d.conversations[id]) { assert !OpenFor(d.conversations, d.calls[call].userId, id); }
      }
      assert CallsOk(d') by { StatusKeepsCalls(d, Assign(id)); }
    } else if i: ConversationId :| OpenFor(d.conversations, user, i) {
      assert OpenFor(d'.conversations, user, i) && i != id;
      assert !SingleOpen(d');
    } else {
      var call :| call in d.calls && d.calls[call].userId == user && WillInsert(d.calls[call].phase);
      assert call in d'.calls && d'.calls[call] == d.calls[call];
      assert !InsertIsSafe(d');
    }
  }

  /** Any other assignment gives its user two open conversations at once or within two more steps. */
  lemma UnsafeAssignOpensTwo(d: Desk, id: ConversationId) returns (events: seq<Event>)
    requires Inv(d) && id < |d.conversations| && !AssignIsSafe(d, id)
    ensures |events| <= 2 && forall n :: 0 <= n < |events| ==> events[n].Execute? || events[n].Resume?
    ensures !SingleOpen(Run(SetStatus(d, id, ACTIVE), events))
  {
    var d', user := SetStatus(d, id, ACTIVE), d.conversations[id].userId;
    assert OpenFor(d'.conversations, user, id);
    if i: ConversationId :| OpenFor(d.conversations, user, i) {
      assert OpenFor(d'.conversations, user, i) && i != id;
      events := [];
    } else {
      var call :| call in d.calls && d.calls[call].userId == user && WillInsert(d.calls[call].phase);
      if d.calls[call].phase.Creating? {
        events := [Execute(call)];
        InsertOpensTwo(d', call, id);
        RunOne(d', Execute(call));
      } else {
        events := [Resume(call), Execute(call)];
        InsertOpensTwo(Continue(d', call), call, id);
        RunPair(d', Resume(call), Execute(call));
      }
    }
  }

  lemma RunOne(d: Desk, e: Event)
    ensures Run(d, [e]) == Step(d, e)
  {
    assert [e][..0] == [];
  }

  lemma RunPair(d: Desk, e: Event, f: Event)
    ensures Run(d, [e, f]) == Step(Step(d, e), f)
  {
    assert [e, f][..1] == [e];
    RunOne(d, e);
  }

  lemma InsertOpensTwo(d: Desk, call: Call, id: ConversationId)
    requires call in d.calls && d.calls[call].phase.Creating? && OpenFor(d.conversations, d.calls[call].userId, id)
    ensures !SingleOpen(RunQuery(d, call))
  {
    var d', n := RunQuery(d, call), |d.conversations|;
    assert OpenFor(d'.conversations, d.calls[call].userId, n) && OpenFor(d'.conversations, d.calls[call].userId, id);
  }

  ghost predicate SafeEvent(d: Desk, e: Event) {
    e.Assign? && e.id < |d.conversations| ==> AssignIsSafe(d, e.id)
  }

  lemma StepKeepsInv(d: Desk, e: Event)
    requires Inv(d) && SafeEvent(d, e)
    ensures Inv(Step(d, e))
  {
    match e
    case Arrive(call, user) => ArriveKeepsInv(d, call, user);
    case Execute(call) => if call in d.calls { ExecuteKeepsInv(d, call); }
    case Break(call) => if call in d.calls { BreakKeepsInv(d, call); }
    case Resume(call) => if call in d.calls { ResumeKeepsInv(d, call); }
    case Close(id) => CloseKeepsInv(d, id);
    case Assign(id) => if id < |d.conversations| { AssignIffSafe(d, id); }
  }

  // ---------- every run ----------

  ghost predicate AlwaysSafe(d: Desk, events: seq<Event>) {
    events != [] ==>
      var init := events[..|events| - 1];
      AlwaysSafe(d, init) && SafeEvent(Run(d, init), events[|init|])
  }

  lemma {:induction false} InvOverRuns(events: seq<Event>)
    requires AlwaysSafe(EMPTY_DESK, events)
    ensures Inv(Run(EMPTY_DESK, events))
  {
    if events != [] {
      var init := events[..|events| - 1];
      assert Inv(Run(EMPTY_DESK, init)) by { InvOverRuns(init); }
      StepKeepsInv(Run(EMPTY_DESK, init), events[|init|]);
    }
  }

  /**
   However any number of calls interleave at their awaits, and whichever queries fail: a user has at most one
   open conversation, every returned conversation belongs to the caller, everyone who waited on a call got
   that call's answer, and no lock outlives its holder.
  */
  lemma OneConversationPerUser(events: seq<Event>)
    requires AlwaysSafe(EMPTY_DESK, events)
    ensures var d := Run(EMPTY_DESK, events);
      && (forall i, j, user: UserId :: OpenFor(d.conversations, user, i) && OpenFor(d.conversations, user, j) ==> i == j)
      && (forall call :: call in d.calls && d.calls[call].phase.Returned? ==> Owns(d, d.calls[call].userId, d.calls[call].phase.id))
      && (forall call :: call in d.calls && d.calls[call].via.Some? && !d.calls[call].phase.Waiting? ==>
            d.calls[call].via.value in d.calls && d.calls[d.calls[call].via.value].phase == d.calls[call].phase)
      && (forall user: UserId :: user in d.locks <==> exists call :: call in d.calls && d.calls[call].userId == user && InFlight(d.calls[call].phase))
  {
    InvOverRuns(events);
    var d := Run(EMPTY_DESK, events);
    forall user: UserId
      ensures user in d.locks <==> exists call :: call in d.calls && d.calls[call].userId == user && InFlight(d.calls[call].phase)
    {
      if user in d.locks { assert LockHeld(d, user); }
    }
    forall call | call in d.calls && d.calls[call].via.Some? && !d.calls[call].phase.Waiting?
      ensures d.calls[call].via.value in d.calls && d.calls[d.calls[call].via.value].phase == d.calls[call].phase
    {
      assert WaiterFollows(d, call);
    }
    forall call | call in d.calls && d.calls[call].phase.Returned? ensures Owns(d, d.calls[call].userId, d.calls[call].phase.id) {
      assert AnswersOwn(d);
    }
  }

  // ---------- progress ----------

  function Rank(phase: Phase): nat {
    match phase
    case Asked => 9
    case Looked(_) => 8
    case Checking => 5
    case Checked(_) => 4
    case Creating => 3
    case Created(_) => 2
    case Broken => 2
    case Waiting => 1
    case Returned(_) => 0
    case Failed => 0
  }

  /** An upper bound on the steps a call still needs, its own and those of the call it awaits. */
  function Remaining(d: Desk, call: Call): nat
    requires call in d.calls
  {
    var p := d.calls[call];
    Rank(p.phase) + if p.phase.Waiting? && p.via.Some? && p.via.value in d.calls then Rank(d.calls[p.via.value].phase) else 0
  }

  /** A step of this call, or of the one it awaits. */
  predicate Helps(d: Desk, e: Event, call: Call) {
    (e.Execute? || e.Resume?) && call in d.calls && (e.call == call || d.calls[call].via == Some(e.call))
  }

  lemma InFlightMoves(d: Desk, call: Call) returns (e: Event)
    requires call in d.calls && InFlight(d.calls[call].phase)
    ensures (e.Execute? || e.Resume?) && e.call == call
    ensures call in Step(d, e).calls && Rank(Step(d, e).calls[call].phase) < Rank(d.calls[call].phase)
    ensures forall c :: c in d.calls && c != call ==> c in Step(d, e).calls && Step(d, e).calls[c] == d.calls[c]
  {
    e := if d.calls[call].phase.Checking? || d.calls[call].phase.Creating? then Execute(call) else Resume(call);
  }

  /** An unfinished call can always move, or the call it awaits can, and the move brings it nearer to its end. */
  lemma CallMoves(d: Desk, call: Call) returns (e: Event)
    requires Inv(d) && call in d.calls && !Settled(d.calls[call].phase)
    ensures Helps(d, e, call)
    ensures call in Step(d, e).calls && Remaining(Step(d, e), call) < Remaining(d, call)
  {
    var p := d.calls[call];
    if p.phase.Waiting? {
      assert WaiterFollows(d, call);
      if InFlight(d.calls[p.via.value].phase) {
        e := InFlightMoves(d, p.via.value);
      } else {
        e := Resume(call);
      }
    } else if p.phase.Asked? {
      e := Execute(call);
    } else if p.phase.Looked? {
      e := Resume(call);
      if p.phase.found.None? && p.userId in d.locks { assert LockHeld(d, p.userId); }
    } else {
      e := InFlightMoves(d, call);
    }
  }

  predicate Concerns(e: Event, call: Call) {
    (e.Execute? || e.Break? || e.Resume?) && e.call == call
  }

  lemma OthersAreLeft(d: Desk, e: Event, call: Call)
    requires call in d.calls && !Concerns(e, call)
    ensures call in Step(d, e).calls && Step(d, e).calls[call] == d.calls[call]
  {
  }

  /** A step of a call that is past its look-up, or awaits another, never raises its rank. */
  lemma LateStep(d: Desk, e: Event, call: Call)
    requires call in d.calls && Concerns(e, call)
    requires var phase := d.calls[call].phase; InFlight(phase) || Settled(phase)
    ensures call in Step(d, e).calls
    ensures var phase' := Step(d, e).calls[call].phase;
            Rank(phase') <= Rank(d.calls[call].phase) && (InFlight(phase') || Settled(phase'))
  {
  }

  lemma EarlyStep(d: Desk, e: Event, call: Call)
    requires Inv(d) && call in d.calls && Concerns(e, call)
    requires d.calls[call].phase.Asked? || d.calls[call].phase.Looked?
    ensures call in Step(d, e).calls && Remaining(Step(d, e), call) <= Remaining(d, call)
  {
    var p := d.calls[call];
    if p.phase == Looked(None) && p.userId in d.locks { assert LockHeld(d, p.userId); }
  }

  /** Whatever anybody does, no call is ever set back. */
  lemma NobodyIsSetBack(d: Desk, e: Event, call: Call)
    requires Inv(d) && call in d.calls
    ensures call in Step(d, e).calls && Remaining(Step(d, e), call) <= Remaining(d, call)
  {
    var p := d.calls[call];
    if p.phase.Waiting? {
      WaiterIsNotSetBack(d, e, call);
    } else if !Concerns(e, call) {
      OthersAreLeft(d, e, call);
    } else if p.phase.Asked? || p.phase.Looked? {
      EarlyStep(d, e, call);
    } else {
      LateStep(d, e, call);
    }
  }

  lemma WaiterIsNotSetBack(d: Desk, e: Event, call: Call)
    requires Inv(d) && call in d.calls && d.calls[call].phase.Waiting?
    ensures call in Step(d, e).calls && Remaining(Step(d, e), call) <= Remaining(d, call)
  {
    assert WaiterFollows(d, call);
    var via := d.calls[call].via.value;
    assert via != call;
    if Concerns(e, call) {
      OthersAreLeft(d, e, via);
    } else {
      OthersAreLeft(d, e, call);
      if Concerns(e, via) { LateStep(d, e, via); } else { OthersAreLeft(d, e, via); }
    }
  }

  lemma {:induction false} RunConcat(d: Desk, first: seq<Event>, second: seq<Event>)
    ensures Run(d, first + second) == Run(Run(d, first), second)
  {
    if second == [] {
      assert first + second == first;
    } else {
      var init := second[..|second| - 1];
      assert (first + second)[..|first + second| - 1] == first + init;
      RunConcat(d, first, init);
    }
  }

  lemma RunFirst(d: Desk, e: Event, rest: seq<Event>)
    ensures Run(d, [e] + rest) == Run(Step(d, e), rest)
  {
    RunConcat(d, [e], rest);
    RunOne(d, e);
  }

  lemma RemainingBound(d: Desk, call: Call)
    requires Inv(d) && call in d.calls
    ensures Remaining(d, call) <= 9
  {
    if d.calls[call].phase.Waiting? { assert WaiterFollows(d, call); }
  }

  lemma HelpsLater(d: Desk, e: Event, rest: seq<Event>, call: Call, n: nat)
    requires n <= |rest| && Helps(d, e, call)
    requires n > 0 ==> Helps(Run(Step(d, e), rest[..n - 1]), rest[n - 1], call)
    ensures Helps(Run(d, ([e] + rest)[..n]), ([e] + rest)[n], call)
  {
    if n > 0 {
      assert ([e] + rest)[..n] == [e] + rest[..n - 1];
      RunFirst(d, e, rest[..n - 1]);
    }
  }

  /** Some steps of the call and of the call it awaits, at most nine, bring it to its end. */
  lemma {:induction false} NobodyWaitsForever(d: Desk, call: Call) returns (events: seq<Event>)
    requires Inv(d) && call in d.calls
    ensures |events| <= Remaining(d, call) <= 9
    ensures forall n :: 0 <= n < |events| ==> Helps(Run(d, events[..n]), events[n], call)
    ensures call in Run(d, events).calls && Settled(Run(d, events).calls[call].phase)
    decreases Remaining(d, call)
  {
    RemainingBound(d, call);
    if Settled(d.calls[call].phase) {
      events := [];
    } else {
      var e := CallMoves(d, call);
      assert Inv(Step(d, e)) by { StepKeepsInv(d, e); }
      var rest := NobodyWaitsForever(Step(d, e), call);
      events := [e] + rest;
      RunFirst(d, e, rest);
      forall n | 0 <= n < |events| ensures Helps(Run(d, events[..n]), events[n], call) {
        HelpsLater(d, e, rest, call, n);
      }
    }
  }
}
