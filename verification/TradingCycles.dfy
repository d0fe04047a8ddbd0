/**
 Managed trading sessions and their cycles. The completion pass reads a snapshot of due cycles together with
 the status their sessions had then, and handles them one by one while other requests run in between;
 `pass` is what remains of it.
*/
module TradingCycles {
  import opened Wrappers

  type UserId = nat
  type SessionId = nat
  type CycleId = nat

  datatype SessionStatus = ACTIVE | STOPPED | PAUSED
  datatype CycleStatus = WAITING | RUNNING | COMPLETED | FAILED

  datatype Session = Session(userId: UserId, status: SessionStatus, intervalSec: nat)
  datatype Cycle = Cycle(session: SessionId, number: nat, startTime: int, endTime: int, status: CycleStatus)

  /** A due cycle in a pass, and whether its session was ACTIVE in the snapshot. */
  datatype Due = Due(cycle: CycleId, wasActive: bool)

  datatype Desk = Desk(sessions: seq<Session>, cycles: seq<Cycle>, pass: seq<Due>, now: int)

  datatype SessionError = UserNotFound | SessionExists | SessionNotFound | WrongStatus

  const EMPTY_DESK := Desk([], [], [], 0)

  /** The highest cycle number of a session, 0 when it has none. */
  function LastNumber(cycles: seq<Cycle>, s: SessionId): nat {
    if cycles == [] then 0
    else
      var last := cycles[|cycles| - 1];
      var earlier := LastNumber(cycles[..|cycles| - 1], s);
      if last.session == s && last.number > earlier then last.number else earlier
  }

  /** `createNextCycle`: nothing happens unless the session is ACTIVE now. */
  function CreateNext(d: Desk, s: SessionId): Desk {
    if s >= |d.sessions| || d.sessions[s].status != ACTIVE then d
    else d.(cycles := d.cycles + [Cycle(s, LastNumber(d.cycles, s) + 1, d.now, d.now + 1000 * d.sessions[s].intervalSec, RUNNING)])
  }

  predicate HasActive(sessions: seq<Session>, user: UserId) {
    exists s :: 0 <= s < |sessions| && sessions[s].userId == user && sessions[s].status == ACTIVE
  }

  /** `known` is whether the user's row is there. */
  function CreateSession(d: Desk, user: UserId, known: bool, intervalSec: nat): (Desk, Result<SessionId, SessionError>) {
    if !known then (d, Err(UserNotFound))
    else if HasActive(d.sessions, user) then (d, Err(SessionExists))
    else (CreateNext(d.(sessions := d.sessions + [Session(user, ACTIVE, intervalSec)]), |d.sessions|), Ok(|d.sessions|))
  }

  function MoveSession(d: Desk, s: SessionId, from: SessionStatus, to: SessionStatus): (Desk, Result<SessionId, SessionError>) {
    if s >= |d.sessions| then (d, Err(SessionNotFound))
    else if d.sessions[s].status != from then (d, Err(WrongStatus))
    else (d.(sessions := d.sessions[s := d.sessions[s].(status := to)]), Ok(s))
  }

  function FailCycle(c: Cycle, s: SessionId): Cycle {
    if c.session == s && (c.status == WAITING || c.status == RUNNING) then c.(status := FAILED) else c
  }

  function FailCycles(cycles: seq<Cycle>, s: SessionId): (cycles': seq<Cycle>)
    ensures |cycles'| == |cycles| && forall k :: 0 <= k < |cycles| ==> cycles'[k] == FailCycle(cycles[k], s)
  {
    seq(|cycles|, k requires 0 <= k < |cycles| => FailCycle(cycles[k], s))
  }

  function StopSession(d: Desk, s: SessionId): (Desk, Result<SessionId, SessionError>) {
    var (d', r) := MoveSession(d, s, ACTIVE, STOPPED);
    (if r.Ok? then d'.(cycles := FailCycles(d'.cycles, s)) else d', r)
  }

  predicate IsDue(c: Cycle, now: int) {
    c.status == RUNNING && c.endTime <= now
  }

  function DueCycles(d: Desk, n: nat): seq<Due>
    requires n <= |d.cycles|
  {
    if n == 0 then []
    else
      var c := d.cycles[n - 1];
      DueCycles(d, n - 1)
        + if IsDue(c, d.now) then [Due(n - 1, c.session < |d.sessions| && d.sessions[c.session].status == ACTIVE)] else []
  }

  function Finish(cycles: seq<Cycle>, k: CycleId, ok: bool): seq<Cycle>
    requires k < |cycles|
  {
    cycles[k := cycles[k].(status := if ok then COMPLETED else FAILED)]
  }

  function BeginPass(d: Desk): Desk {
    d.(pass := d.pass + DueCycles(d, |d.cycles|))
  }

  /**
   One iteration: the cycle is completed whatever its status is by now, then its session may get the next one.
   When a query on the way throws (`ok` is false) the cycle is marked FAILED instead and nothing follows it.
  */
  function Complete(d: Desk, i: nat, ok: bool): Desk
    requires i < |d.pass|
  {
    var due := d.pass[i];
    var rest := d.(pass := d.pass[..i] + d.pass[i + 1..]);
    if due.cycle >= |d.cycles| then rest
    else
      var completed := rest.(cycles := Finish(d.cycles, due.cycle, ok));
      if ok && due.wasActive then CreateNext(completed, d.cycles[due.cycle].session) else completed
  }

  datatype Event =
    | Tick(ms: nat)
    | DoCreate(user: UserId, known: bool, intervalSec: nat)
    | DoStop(s: SessionId)
    | DoPause(s: SessionId)
    | DoResume(s: SessionId)
    | DoBeginPass
    | DoComplete(i: nat, ok: bool)

  function Step(d: Desk, e: Event): Desk {
    match e
    case Tick(ms) => d.(now := d.now + ms)
    case DoCreate(user, known, intervalSec) => CreateSession(d, user, known, intervalSec).0
    case DoStop(s) => StopSession(d, s).0
    case DoPause(s) => MoveSession(d, s, ACTIVE, PAUSED).0
    case DoResume(s) => MoveSession(d, s, PAUSED, ACTIVE).0
    case DoBeginPass => BeginPass(d)
    case DoComplete(i, ok) => if i < |d.pass| then Complete(d, i, ok) else d
  }

  function Run(d: Desk, events: seq<Event>): Desk {
    if events == [] then d else Step(Run(d, events[..|events| - 1]), events[|events| - 1])
  }

  // ---------- the invariant ----------

  /** How many of the first `n` cycles belong to a session. */
  function CountOf(cycles: seq<Cycle>, s: SessionId): nat {
    if cycles == [] then 0
    else CountOf(cycles[..|cycles| - 1], s) + if cycles[|cycles| - 1].session == s then 1 else 0
  }

  /** In creation order the cycles of each session carry the numbers 1, 2, 3 and so on. */
  ghost predicate Numbered(cycles: seq<Cycle>) {
    forall k: CycleId :: k < |cycles| ==> NumberedAt(cycles, k)
  }

  ghost predicate NumberedAt(cycles: seq<Cycle>, k: CycleId)
    requires k < |cycles|
  {
    cycles[k].number == CountOf(cycles[..k], cycles[k].session) + 1
  }

  /** No later cycle belongs to the same session. */
  ghost predicate IsLatest(cycles: seq<Cycle>, k: CycleId)
    requires k < |cycles|
  {
    forall j :: k < j < |cycles| ==> cycles[j].session != cycles[k].session
  }

  ghost predicate OneRunning(cycles: seq<Cycle>) {
    forall k :: 0 <= k < |cycles| && cycles[k].status == RUNNING ==> IsLatest(cycles, k)
  }

  ghost predicate SessionsKnown(d: Desk) {
    forall k :: 0 <= k < |d.cycles| ==>
      && d.cycles[k].session < |d.sessions|
      && (d.sessions[d.cycles[k].session].status == STOPPED ==> d.cycles[k].status != RUNNING)
      && (d.cycles[k].status == COMPLETED ==> d.cycles[k].endTime <= d.now)
  }

  /** A held cycle is over; while its entry can still start another, it is its session's latest. */
  ghost predicate DueOk(d: Desk, due: Due) {
    && due.cycle < |d.cycles| && d.cycles[due.cycle].session < |d.sessions|
    && d.cycles[due.cycle].endTime <= d.now
    && (due.wasActive ==> IsLatest(d.cycles, due.cycle))
  }

  /** No two entries can both start a cycle of one session. */
  ghost predicate Apart(d: Desk, a: Due, b: Due)
    requires DueOk(d, a) && DueOk(d, b)
  {
    a.wasActive && b.wasActive ==> d.cycles[a.cycle].session != d.cycles[b.cycle].session
  }

  ghost predicate PassOk(d: Desk) {
    && (forall i :: 0 <= i < |d.pass| ==> DueOk(d, d.pass[i]))
    && (forall i, j :: 0 <= i < j < |d.pass| ==> Apart(d, d.pass[i], d.pass[j]))
  }

  ghost predicate Inv(d: Desk) {
    Numbered(d.cycles) && OneRunning(d.cycles) && SessionsKnown(d) && PassOk(d)
  }

  lemma {:induction false} LastNumberIsCount(cycles: seq<Cycle>, s: SessionId)
    requires Numbered(cycles)
    ensures LastNumber(cycles, s) == CountOf(cycles, s)
  {
    if cycles != [] {
      var init := cycles[..|cycles| - 1];
      forall k: CycleId | k < |init| ensures NumberedAt(init, k) {
        assert init[..k] == cycles[..k] && NumberedAt(cycles, k);
      }
      LastNumberIsCount(init, s);
      assert NumberedAt(cycles, |init|);
    }
  }

  lemma {:induction false} CountUnchanged(cycles: seq<Cycle>, cycles': seq<Cycle>, s: SessionId)
    requires |cycles| == |cycles'| && forall k :: 0 <= k < |cycles| ==> cycles'[k].session == cycles[k].session
    ensures CountOf(cycles', s) == CountOf(cycles, s)
  {
    if cycles != [] {
      CountUnchanged(cycles[..|cycles| - 1], cycles'[..|cycles| - 1], s);
    }
  }

  lemma RestatusKeepsNumbers(cycles: seq<Cycle>, cycles': seq<Cycle>)
    requires Numbered(cycles) && |cycles| == |cycles'|
    requires forall k :: 0 <= k < |cycles| ==> cycles'[k] == cycles[k].(status := cycles'[k].status)
    ensures Numbered(cycles')
  {
    forall k: CycleId | k < |cycles'| ensures NumberedAt(cycles', k) {
      assert NumberedAt(cycles, k);
      CountUnchanged(cycles[..k], cycles'[..k], cycles[k].session);
    }
  }

  lemma AppendKeepsNumbers(cycles: seq<Cycle>, c: Cycle)
    requires Numbered(cycles) && c.number == LastNumber(cycles, c.session) + 1
    ensures Numbered(cycles + [c])
  {
    LastNumberIsCount(cycles, c.session);
    var cycles' := cycles + [c];
    forall k: CycleId | k < |cycles'| ensures NumberedAt(cycles', k) {
      assert cycles'[..k] == cycles[..k];
      if k < |cycles| { assert NumberedAt(cycles, k); } else { assert cycles[..k] == cycles; }
    }
  }

  // ---------- steps ----------

  lemma CreateKeepsInv(d: Desk, user: UserId, known: bool, intervalSec: nat)
    requires Inv(d)
    ensures Inv(CreateSession(d, user, known, intervalSec).0)
  {
    var (d', r) := CreateSession(d, user, known, intervalSec);
    if r.Ok? {
      var c := d'.cycles[|d.cycles|];
      AppendKeepsNumbers(d.cycles, c);
      assert OneRunning(d'.cycles);
      forall i | 0 <= i < |d'.pass| ensures DueOk(d', d'.pass[i]) { assert DueOk(d, d.pass[i]); }
    }
  }

  lemma StopKeepsInv(d: Desk, s: SessionId)
    requires Inv(d)
    ensures Inv(StopSession(d, s).0)
  {
    var (d', r) := StopSession(d, s);
    if r.Ok? {
      RestatusKeepsNumbers(d.cycles, d'.cycles);
      forall k | 0 <= k < |d'.cycles| && d'.cycles[k].status == RUNNING ensures IsLatest(d'.cycles, k) {
        assert IsLatest(d.cycles, k);
      }
      forall i | 0 <= i < |d'.pass| ensures DueOk(d', d'.pass[i]) { assert DueOk(d, d.pass[i]); }
    }
  }

  lemma MoveKeepsInv(d: Desk, s: SessionId, from: SessionStatus, to: SessionStatus)
    requires Inv(d) && from != STOPPED && to != STOPPED
    ensures Inv(MoveSession(d, s, from, to).0)
  {
    var (d', r) := MoveSession(d, s, from, to);
    if r.Ok? {
      forall i | 0 <= i < |d'.pass| ensures DueOk(d', d'.pass[i]) { assert DueOk(d, d.pass[i]); }
    }
  }

  ghost predicate DueBelow(d: Desk, due: seq<Due>, n: nat) {
    && (forall i :: 0 <= i < |due| ==> due[i].cycle < n && due[i].cycle < |d.cycles| && IsDue(d.cycles[due[i].cycle], d.now))
    && (forall i, j :: 0 <= i < j < |due| ==> due[i].cycle < due[j].cycle)
  }

  lemma {:induction false} DueCyclesAreDue(d: Desk, n: nat)
    requires n <= |d.cycles|
    ensures DueBelow(d, DueCycles(d, n), n)
  {
    if n > 0 {
      DueCyclesAreDue(d, n - 1);
      var init, due := DueCycles(d, n - 1), DueCycles(d, n);
      assert DueBelow(d, init, n);
      if IsDue(d.cycles[n - 1], d.now) {
        assert due == init + [due[|init|]] && due[|init|].cycle == n - 1;
        assert DueBelow(d, due, n);
      }
    }
  }

  lemma {:induction false} DueCyclesAreAll(d: Desk, n: nat, k: CycleId)
    requires k < n <= |d.cycles| && IsDue(d.cycles[k], d.now)
    ensures exists j :: 0 <= j < |DueCycles(d, n)| && DueCycles(d, n)[j].cycle == k
  {
    var init, due := DueCycles(d, n - 1), DueCycles(d, n);
    if k == n - 1 {
      assert due[|init|].cycle == k;
    } else {
      DueCyclesAreAll(d, n - 1, k);
      var j :| 0 <= j < |init| && init[j].cycle == k;
      assert due[j] == init[j];
    }
  }

  /** An entry that will start another cycle of its session if it is handled now, and whose own cycle still runs. */
  predicate Harmful(d: Desk, due: Due) {
    && due.wasActive
    && due.cycle < |d.cycles| && d.cycles[due.cycle].status == RUNNING
    && d.cycles[due.cycle].session < |d.sessions| && d.sessions[d.cycles[due.cycle].session].status == ACTIVE
  }

  /** An earlier pass still holds such an entry, so a pass that starts now will hold the same cycle a second time. */
  predicate Harms(d: Desk) {
    exists i :: 0 <= i < |d.pass| && Harmful(d, d.pass[i])
  }

  /** A due cycle that an earlier pass still holds is picked a second time. */
  lemma PickedAgain(d: Desk, i: nat) returns (j: nat)
    requires i < |d.pass| && d.pass[i].cycle < |d.cycles| && IsDue(d.cycles[d.pass[i].cycle], d.now)
    ensures |d.pass| <= j < |BeginPass(d).pass| && BeginPass(d).pass[j].cycle == d.pass[i].cycle
    ensures BeginPass(d).pass[i] == d.pass[i]
  {
    DueCyclesAreAll(d, |d.cycles|, d.pass[i].cycle);
    var m :| 0 <= m < |DueCycles(d, |d.cycles|)| && DueCycles(d, |d.cycles|)[m].cycle == d.pass[i].cycle;
    j := |d.pass| + m;
  }

  lemma {:induction false} SnapshotStatus(d: Desk, n: nat, m: nat)
    requires n <= |d.cycles| && m < |DueCycles(d, n)|
    ensures var due := DueCycles(d, n)[m];
            due.cycle < |d.cycles|
            && (due.wasActive <==> d.cycles[due.cycle].session < |d.sessions| && d.sessions[d.cycles[due.cycle].session].status == ACTIVE)
  {
    if n > 0 && m < |DueCycles(d, n - 1)| {
      SnapshotStatus(d, n - 1, m);
    }
  }

  /** A new entry of a pass is a running cycle that is over, and records whether its session is ACTIVE. */
  lemma PickedNow(d: Desk, j: nat)
    requires |d.pass| <= j < |BeginPass(d).pass|
    ensures var due := BeginPass(d).pass[j];
            && due.cycle < |d.cycles| && IsDue(d.cycles[due.cycle], d.now)
            && (due.wasActive <==> d.cycles[due.cycle].session < |d.sessions| && d.sessions[d.cycles[due.cycle].session].status == ACTIVE)
  {
    SnapshotStatus(d, |d.cycles|, j - |d.pass|);
    DueCyclesAreDue(d, |d.cycles|);
  }

  lemma BeginDueOk(d: Desk, i: nat)
    requires Inv(d) && i < |BeginPass(d).pass|
    ensures DueOk(BeginPass(d), BeginPass(d).pass[i])
  {
    if i < |d.pass| { assert DueOk(d, d.pass[i]); } else { PickedNow(d, i); }
  }

  lemma BeginApart(d: Desk, i: nat, j: nat)
    requires Inv(d) && !Harms(d) && i < j < |BeginPass(d).pass|
    ensures DueOk(BeginPass(d), BeginPass(d).pass[i]) && DueOk(BeginPass(d), BeginPass(d).pass[j])
    ensures Apart(BeginPass(d), BeginPass(d).pass[i], BeginPass(d).pass[j])
  {
    BeginDueOk(d, i);
    BeginDueOk(d, j);
    var a, b := BeginPass(d).pass[i], BeginPass(d).pass[j];
    if j < |d.pass| {
      assert Apart(d, d.pass[i], d.pass[j]);
    } else {
      PickedNow(d, j);
      if i < |d.pass| {
        assert a == d.pass[i] && !Harmful(d, d.pass[i]);
        assert DueOk(d, d.pass[i]);
      } else {
        PickedNow(d, i);
        DueCyclesAreDue(d, |d.cycles|);
        assert a.cycle < b.cycle;
      }
    }
  }

  /** A pass may start exactly when no earlier one holds a running cycle that it would follow with another. */
  lemma BeginKeepsInvIff(d: Desk)
    requires Inv(d)
    ensures Inv(BeginPass(d)) <==> !Harms(d)
  {
    var d' := BeginPass(d);
    if Harms(d) {
      var i :| 0 <= i < |d.pass| && Harmful(d, d.pass[i]);
      assert DueOk(d, d.pass[i]);
      var j := PickedAgain(d, i);
      PickedNow(d, j);
      assert DueOk(d', d'.pass[i]) && DueOk(d', d'.pass[j]) ==> !Apart(d', d'.pass[i], d'.pass[j]);
    } else {
      forall i | 0 <= i < |d'.pass| ensures DueOk(d', d'.pass[i]) { BeginDueOk(d, i); }
      forall i, j | 0 <= i < j < |d'.pass| ensures Apart(d', d'.pass[i], d'.pass[j]) { BeginApart(d, i, j); }
    }
  }

  lemma CompleteKeepsCycles(d: Desk, i: nat, ok: bool)
    requires Inv(d) && i < |d.pass|
    ensures var d' := Complete(d, i, ok); Numbered(d'.cycles) && OneRunning(d'.cycles) && SessionsKnown(d')
  {
    var d', due := Complete(d, i, ok), d.pass[i];
    assert DueOk(d, due);
    var completed := Finish(d.cycles, due.cycle, ok);
    RestatusKeepsNumbers(d.cycles, completed);
    forall k | 0 <= k < |completed| && completed[k].status == RUNNING
      ensures IsLatest(completed, k) && (due.wasActive ==> completed[k].session != completed[due.cycle].session)
    {
      assert IsLatest(d.cycles, k) && (due.wasActive ==> IsLatest(d.cycles, due.cycle));
    }
    if d'.cycles != completed {
      var c := d'.cycles[|completed|];
      assert d'.cycles == completed + [c];
      AppendKeepsNumbers(completed, c);
      forall k | 0 <= k < |d'.cycles| && d'.cycles[k].status == RUNNING ensures IsLatest(d'.cycles, k) {
        if k < |completed| { assert IsLatest(completed, k); }
      }
    }
  }

  /** Completing one due cycle leaves the others due. */
  lemma OtherStaysDue(d: Desk, i: nat, j: nat, ok: bool)
    requires Inv(d) && i < |d.pass| && j < |d.pass| && i != j
    ensures DueOk(Complete(d, i, ok), d.pass[j])
  {
    assert DueOk(d, d.pass[i]) && DueOk(d, d.pass[j]);
    if j < i { assert Apart(d, d.pass[j], d.pass[i]); } else { assert Apart(d, d.pass[i], d.pass[j]); }
  }

  lemma CompleteKeepsPass(d: Desk, i: nat, ok: bool)
    requires Inv(d) && i < |d.pass|
    ensures PassOk(Complete(d, i, ok))
  {
    var d' := Complete(d, i, ok);
    assert d'.pass == d.pass[..i] + d.pass[i + 1..];
    forall m | 0 <= m < |d'.pass| ensures DueOk(d', d'.pass[m]) {
      OtherStaysDue(d, i, if m < i then m else m + 1, ok);
    }
    forall m, n | 0 <= m < n < |d'.pass| ensures Apart(d', d'.pass[m], d'.pass[n]) {
      assert Apart(d, d.pass[if m < i then m else m + 1], d.pass[if n < i then n else n + 1]);
    }
  }

  /** Only a pass that starts in a state that harms breaks the invariant. */
  predicate StartsHarmful(d: Desk, e: Event) {
    e.DoBeginPass? && Harms(d)
  }

  lemma StepKeepsInv(d: Desk, e: Event)
    requires Inv(d)
    ensures Inv(Step(d, e)) <==> !StartsHarmful(d, e)
  {
    match e
    case Tick(ms) =>
      forall i | 0 <= i < |d.pass| ensures DueOk(Step(d, e), d.pass[i]) { assert DueOk(d, d.pass[i]); }
    case DoCreate(user, known, intervalSec) => CreateKeepsInv(d, user, known, intervalSec);
    case DoStop(s) => StopKeepsInv(d, s);
    case DoPause(s) => MoveKeepsInv(d, s, ACTIVE, PAUSED);
    case DoResume(s) => MoveKeepsInv(d, s, PAUSED, ACTIVE);
    case DoBeginPass => BeginKeepsInvIff(d);
    case DoComplete(i, ok) =>
      if i < |d.pass| {
        CompleteKeepsCycles(d, i, ok);
        CompleteKeepsPass(d, i, ok);
      }
  }

  // ---------- every run ----------

  /** No pass of the run starts harmfully. */
  ghost predicate NeverHarms(d: Desk, events: seq<Event>) {
    events != [] ==>
      var init := events[..|events| - 1];
      NeverHarms(d, init) && !StartsHarmful(Run(d, init), events[|init|])
  }

  lemma {:induction false} InvOverRuns(d: Desk, events: seq<Event>)
    requires Inv(d) && NeverHarms(d, events)
    ensures Inv(Run(d, events))
  {
    if events != [] {
      var init := events[..|events| - 1];
      assert Inv(Run(d, init)) by { InvOverRuns(d, init); }
      StepKeepsInv(Run(d, init), events[|init|]);
    }
  }

  /** A harmful start is followed by two running cycles of one session as soon as both entries are handled. */
  lemma HarmRunsTwo(d: Desk) returns (events: seq<Event>)
    requires Inv(d) && Harms(d)
    ensures NoStart(events)
    ensures !OneRunning(Run(BeginPass(d), events).cycles)
  {
    var i :| 0 <= i < |d.pass| && Harmful(d, d.pass[i]);
    assert DueOk(d, d.pass[i]);
    var j := OverlappingPassesRunTwo(d, i);
    events := [DoComplete(j, true), DoComplete(i, true)];
    BothHandled(BeginPass(d), i, j);
    TwoAtTheEnd(Run(BeginPass(d), events).cycles);
  }

  lemma BothHandled(d: Desk, i: nat, j: nat)
    requires j < |d.pass| && i < |Complete(d, j, true).pass|
    ensures Run(d, [DoComplete(j, true), DoComplete(i, true)]) == Complete(Complete(d, j, true), i, true)
  {
    RunPair(d, DoComplete(j, true), DoComplete(i, true));
  }

  lemma TwoAtTheEnd(cycles: seq<Cycle>)
    requires |cycles| >= 2 && cycles[|cycles| - 1].session == cycles[|cycles| - 2].session
    requires cycles[|cycles| - 2].status == RUNNING
    ensures !OneRunning(cycles)
  {
    assert !IsLatest(cycles, |cycles| - 2);
  }

  lemma RunPair(d: Desk, e: Event, f: Event)
    ensures Run(d, [e, f]) == Step(Step(d, e), f)
  {
    assert [e, f][..1] == [e];
    RunOne(d, e);
  }

  predicate NoStart(events: seq<Event>) {
    forall n :: 0 <= n < |events| ==> !events[n].DoBeginPass?
  }

  /** Without starting another pass, this state can lead to two running cycles of one session. */
  ghost predicate CanRunTwo(d: Desk) {
    exists more: seq<Event> :: NoStart(more) && !OneRunning(Run(d, more).cycles)
  }

  lemma {:induction false} NoStartNeverHarms(d: Desk, more: seq<Event>)
    requires NoStart(more)
    ensures NeverHarms(d, more)
  {
    if more != [] {
      NoStartNeverHarms(d, more[..|more| - 1]);
    }
  }

  lemma InvCannotRunTwo(d: Desk)
    requires Inv(d)
    ensures !CanRunTwo(d)
  {
    forall more: seq<Event> | NoStart(more) ensures OneRunning(Run(d, more).cycles) {
      NoStartNeverHarms(d, more);
      InvOverRuns(d, more);
    }
  }

  /** A start can lead there exactly when it is harmful. */
  lemma StartCanRunTwoIff(d: Desk)
    requires Inv(d)
    ensures CanRunTwo(BeginPass(d)) <==> Harms(d)
  {
    BeginKeepsInvIff(d);
    if Harms(d) {
      var more := HarmRunsTwo(d);
    } else {
      InvCannotRunTwo(BeginPass(d));
    }
  }

  /** Some moment of the run is such a state. */
  ghost predicate EverCanRunTwo(d: Desk, events: seq<Event>) {
    CanRunTwo(Run(d, events)) || (events != [] && EverCanRunTwo(d, events[..|events| - 1]))
  }

  /** That is so exactly when some pass of the run starts harmfully. */
  lemma {:induction false} EverCanRunTwoIff(d: Desk, events: seq<Event>)
    requires Inv(d)
    ensures EverCanRunTwo(d, events) <==> !NeverHarms(d, events)
  {
    if events != [] {
      EverCanRunTwoIff(d, events[..|events| - 1]);
    }
    if NeverHarms(d, events) {
      InvOverRuns(d, events);
      InvCannotRunTwo(Run(d, events));
    } else {
      var init := events[..|events| - 1];
      if NeverHarms(d, init) {
        InvOverRuns(d, init);
        StartCanRunTwoIff(Run(d, init));
      }
    }
  }

  /**
   For all interleavings of create, stop, pause and resume with completion passes none of which starts harmfully: cycle
   numbers are 1..n per session, at most one cycle per session runs, none does once it is stopped, and no
   cycle is completed before its end time.
  */
  lemma CyclesOverRuns(events: seq<Event>)
    requires NeverHarms(EMPTY_DESK, events)
    ensures var d := Run(EMPTY_DESK, events);
      && (forall k :: 0 <= k < |d.cycles| ==>
            && d.cycles[k].session < |d.sessions|
            && NumberedAt(d.cycles, k)
            && (d.sessions[d.cycles[k].session].status == STOPPED ==> d.cycles[k].status != RUNNING)
            && (d.cycles[k].status == COMPLETED ==> d.cycles[k].endTime <= d.now))
      && (forall k, j :: 0 <= k < j < |d.cycles| && d.cycles[k].session == d.cycles[j].session ==>
            d.cycles[k].number < d.cycles[j].number && d.cycles[k].status != RUNNING)
  {
    InvOverRuns(EMPTY_DESK, events);
    var d := Run(EMPTY_DESK, events);
    forall k, j | 0 <= k < j < |d.cycles| && d.cycles[k].session == d.cycles[j].session
      ensures d.cycles[k].number < d.cycles[j].number
    {
      assert NumberedAt(d.cycles, k) && NumberedAt(d.cycles, j);
      CountGrows(d.cycles, k, j);
    }
  }

  lemma {:induction false} CountGrows(cycles: seq<Cycle>, k: CycleId, j: CycleId)
    requires k < j <= |cycles|
    ensures CountOf(cycles[..k], cycles[k].session) < CountOf(cycles[..j], cycles[k].session)
  {
    assert cycles[..j][..j - 1] == cycles[..j - 1];
    if k < j - 1 { CountGrows(cycles, k, j - 1); }
  }

  /** STOPPED is absorbing, and no event ever gives a stopped session another cycle. */
  lemma {:induction false} StoppedForGood(d: Desk, events: seq<Event>, s: SessionId)
    requires s < |d.sessions| && d.sessions[s].status == STOPPED
    ensures var d' := Run(d, events);
            s < |d'.sessions| && d'.sessions[s].status == STOPPED && CountOf(d'.cycles, s) == CountOf(d.cycles, s)
  {
    if events != [] {
      var init, e := events[..|events| - 1], events[|events| - 1];
      StoppedForGood(d, init, s);
      StoppedStep(Run(d, init), e, s);
    }
  }

  lemma StoppedStep(d: Desk, e: Event, s: SessionId)
    requires s < |d.sessions| && d.sessions[s].status == STOPPED
    ensures var d' := Step(d, e);
            s < |d'.sessions| && d'.sessions[s].status == STOPPED && CountOf(d'.cycles, s) == CountOf(d.cycles, s)
  {
    match e
    case DoStop(t) => if StopSession(d, t).1.Ok? { CountUnchanged(d.cycles, FailCycles(d.cycles, t), s); }
    case DoCreate(user, known, ms) => if CreateSession(d, user, known, ms).1.Ok? { CreateNextElsewhere(d.(sessions := d.sessions + [Session(user, ACTIVE, ms)]), |d.sessions|, s); }
    case DoComplete(i, ok) =>
      if i < |d.pass| && d.pass[i].cycle < |d.cycles| {
        var k, rest := d.pass[i].cycle, d.(pass := d.pass[..i] + d.pass[i + 1..]);
        var completed := Finish(d.cycles, k, ok);
        CountUnchanged(d.cycles, completed, s);
        CreateNextElsewhere(rest.(cycles := completed), d.cycles[k].session, s);
      }
    case _ =>
  }

  /** Only an ACTIVE session ever gets a cycle. */
  lemma CreateNextElsewhere(d: Desk, t: SessionId, s: SessionId)
    requires s < |d.sessions| && d.sessions[s].status == STOPPED
    ensures CountOf(CreateNext(d, t).cycles, s) == CountOf(d.cycles, s)
  {
    var d' := CreateNext(d, t);
    if d'.cycles != d.cycles {
      assert d'.cycles[..|d'.cycles| - 1] == d.cycles;
    }
  }

  /** A cycle of the session other than `k` is running. */
  ghost predicate RunsBeside(d: Desk, s: SessionId, k: CycleId) {
    exists j :: 0 <= j < |d.cycles| && j != k && d.cycles[j].session == s && d.cycles[j].status == RUNNING
  }

  /**
   After an iteration its session has a running cycle exactly when the iteration went well, the session was
   ACTIVE in the snapshot and is ACTIVE now, or another cycle of it was running anyway; that cannot be while the
   completed cycle is the session's latest.
  */
  lemma CompletionContinuesIff(d: Desk, i: nat, ok: bool)
    requires Inv(d) && i < |d.pass|
    ensures DueOk(d, d.pass[i])
    ensures var d', k, s := Complete(d, i, ok), d.pass[i].cycle, d.cycles[d.pass[i].cycle].session;
      && ((exists j :: 0 <= j < |d'.cycles| && d'.cycles[j].session == s && d'.cycles[j].status == RUNNING)
           <==> (ok && d.pass[i].wasActive && d.sessions[s].status == ACTIVE) || RunsBeside(d, s, k))
      && (IsLatest(d.cycles, k) ==> !RunsBeside(d, s, k))
  {
    var d', due := Complete(d, i, ok), d.pass[i];
    assert DueOk(d, due);
    var s := d.cycles[due.cycle].session;
    if ok && due.wasActive && d.sessions[s].status == ACTIVE {
      assert d'.cycles[|d.cycles|].session == s && d'.cycles[|d.cycles|].status == RUNNING;
    } else {
      assert d'.cycles == Finish(d.cycles, due.cycle, ok);
      if j :| 0 <= j < |d.cycles| && j != due.cycle && d.cycles[j].session == s && d.cycles[j].status == RUNNING {
        assert d'.cycles[j] == d.cycles[j];
      }
    }
    forall j | 0 <= j < |d.cycles| && d.cycles[j].session == s && d.cycles[j].status == RUNNING && IsLatest(d.cycles, due.cycle)
      ensures j == due.cycle
    {
      assert IsLatest(d.cycles, j);
    }
  }

  /** A session without a running cycle, of which no entry of a pass can start one. */
  ghost predicate Stalled(d: Desk, s: SessionId) {
    && s < |d.sessions|
    && (forall k :: 0 <= k < |d.cycles| && d.cycles[k].session == s ==> d.cycles[k].status != RUNNING)
    && (forall i :: 0 <= i < |d.pass| ==> Inert(d, d.pass[i], s))
  }

  ghost predicate Inert(d: Desk, due: Due, s: SessionId) {
    due.cycle < |d.cycles| && (d.cycles[due.cycle].session == s ==> !due.wasActive)
  }

  /** An iteration leaves its session stalled exactly when it starts no cycle, none runs beside, and no other entry can start one. */
  lemma CompletionStallsIff(d: Desk, i: nat, ok: bool)
    requires Inv(d) && i < |d.pass| && DueOk(d, d.pass[i])
    ensures var k, s := d.pass[i].cycle, d.cycles[d.pass[i].cycle].session;
      Stalled(Complete(d, i, ok), s) <==>
        && !(ok && d.pass[i].wasActive && d.sessions[s].status == ACTIVE)
        && !RunsBeside(d, s, k)
        && (forall j :: 0 <= j < |d.pass| && j != i ==> Inert(d, d.pass[j], s))
  {
    var d', k, s := Complete(d, i, ok), d.pass[i].cycle, d.cycles[d.pass[i].cycle].session;
    CompletionContinuesIff(d, i, ok);
    assert d'.pass == d.pass[..i] + d.pass[i + 1..];
    if Stalled(d', s) {
      forall j | 0 <= j < |d.pass| && j != i ensures Inert(d, d.pass[j], s) {
        assert DueOk(d, d.pass[j]);
        assert d'.pass[if j < i then j else j - 1] == d.pass[j];
        assert Inert(d', d.pass[j], s);
      }
    } else if forall j :: 0 <= j < |d.pass| && j != i ==> Inert(d, d.pass[j], s) {
      forall m | 0 <= m < |d'.pass| ensures Inert(d', d'.pass[m], s) {
        assert Inert(d, d.pass[if m < i then m else m + 1], s);
      }
    }
  }

  lemma StalledStep(d: Desk, e: Event, s: SessionId)
    requires Stalled(d, s)
    ensures Stalled(Step(d, e), s)
  {
    var d' := Step(d, e);
    forall i | 0 <= i < |d'.pass| ensures Inert(d', d'.pass[i], s) {
      if e.DoBeginPass? && i >= |d.pass| {
        PickedNow(d, i);
      } else {
        assert Inert(d, d.pass[if e.DoComplete? && e.i < |d.pass| && i >= e.i then i + 1 else i], s);
      }
    }
    if e.DoComplete? && e.i < |d.pass| { assert Inert(d, d.pass[e.i], s); }
  }

  /** Nothing ever starts a cycle of a stalled session again: resuming it changes its status only. */
  lemma {:induction false} StalledForGood(d: Desk, events: seq<Event>, s: SessionId)
    requires Stalled(d, s)
    ensures Stalled(Run(d, events), s)
  {
    if events != [] {
      StalledForGood(d, events[..|events| - 1], s);
      StalledStep(Run(d, events[..|events| - 1]), events[|events| - 1], s);
    }
  }

  // ---------- what the code does not guarantee ----------

  /** Handling a cycle of a session that is still ACTIVE starts another, and leaves all other cycles as they are. */
  lemma CompleteContinues(d: Desk, i: nat)
    requires i < |d.pass| && d.pass[i].wasActive && d.pass[i].cycle < |d.cycles|
    requires var s := d.cycles[d.pass[i].cycle].session; s < |d.sessions| && d.sessions[s].status == ACTIVE
    ensures var d', k := Complete(d, i, true), d.pass[i].cycle;
            && d'.sessions == d.sessions && d'.pass == d.pass[..i] + d.pass[i + 1..]
            && |d'.cycles| == |d.cycles| + 1
            && (forall m :: 0 <= m < |d.cycles| && m != k ==> d'.cycles[m] == d.cycles[m])
            && d'.cycles[k].session == d.cycles[k].session == d'.cycles[|d.cycles|].session
            && d'.cycles[|d.cycles|].status == RUNNING
  {
  }

  /**
   A pass that starts while an earlier one still holds a harmful entry picks its cycle
   again; when both have handled it the session has two running cycles.
  */
  lemma OverlappingPassesRunTwo(d: Desk, i: nat) returns (j: nat)
    requires Inv(d) && i < |d.pass| && DueOk(d, d.pass[i])
    requires Harmful(d, d.pass[i])
    ensures i < j < |BeginPass(d).pass|
    ensures var once := Complete(BeginPass(d), j, true);
            && i < |once.pass|
            && var d', n, s := Complete(once, i, true), |d.cycles|, d.cycles[d.pass[i].cycle].session;
               && |d'.cycles| == n + 2 && d'.cycles[n].session == d'.cycles[n + 1].session == s
               && d'.cycles[n].status == d'.cycles[n + 1].status == RUNNING
  {
    j := PickedAgain(d, i);
    var both := BeginPass(d);
    assert both.pass[j].wasActive by { PickedNow(d, j); }
    CompleteContinues(both, j);
    var once := Complete(both, j, true);
    assert once.pass[i] == d.pass[i];
    CompleteContinues(once, i);
  }

  /** Such a state is three events away from the empty one. */
  lemma OverlapIsReachable()
    ensures var d := Step(Step(Step(EMPTY_DESK, DoCreate(1, true, 1)), Tick(1000)), DoBeginPass);
            && d == Desk([Session(1, ACTIVE, 1)], [Cycle(0, 1, 0, 1000, RUNNING)], [Due(0, true)], 1000)
            && Inv(d) && Harms(d)
  {
    var d := Step(Step(EMPTY_DESK, DoCreate(1, true, 1)), Tick(1000));
    assert d == Desk([Session(1, ACTIVE, 1)], [Cycle(0, 1, 0, 1000, RUNNING)], [], 1000);
    assert DueCycles(d, 0) == [];
    assert NumberedAt(d.cycles, 0);
    BeginKeepsInvIff(d);
    var begun := Step(d, DoBeginPass);
    assert begun.pass == [Due(0, true)];
    assert Harmful(begun, begun.pass[0]);
  }

  /** No user has two ACTIVE sessions. */
  ghost predicate OneActive(d: Desk) {
    forall i, j :: 0 <= i < j < |d.sessions| && d.sessions[i].status == ACTIVE && d.sessions[j].status == ACTIVE
      ==> d.sessions[i].userId != d.sessions[j].userId
  }

  /** Resuming a paused session of a user who has an ACTIVE one by now; only creation checks for that. */
  predicate RevivesSecond(d: Desk, e: Event) {
    e.DoResume? && e.s < |d.sessions| && d.sessions[e.s].status == PAUSED && HasActive(d.sessions, d.sessions[e.s].userId)
  }

  lemma ActiveStep(d: Desk, e: Event)
    requires OneActive(d)
    ensures OneActive(Step(d, e)) <==> !RevivesSecond(d, e)
  {
    var d' := Step(d, e);
    if RevivesSecond(d, e) {
      var i :| 0 <= i < |d.sessions| && d.sessions[i].userId == d.sessions[e.s].userId && d.sessions[i].status == ACTIVE;
      assert d'.sessions[i] == d.sessions[i] && d'.sessions[e.s].status == ACTIVE;
    }
  }

  ghost predicate NeverRevives(d: Desk, events: seq<Event>) {
    events != [] ==>
      var init := events[..|events| - 1];
      NeverRevives(d, init) && !RevivesSecond(Run(d, init), events[|init|])
  }

  ghost predicate AlwaysOneActive(d: Desk, events: seq<Event>) {
    OneActive(Run(d, events)) && (events != [] ==> AlwaysOneActive(d, events[..|events| - 1]))
  }

  /** Over every run: no user ever has two ACTIVE sessions exactly when no such resume occurs. */
  lemma {:induction false} OneActiveThroughoutIff(events: seq<Event>)
    ensures AlwaysOneActive(EMPTY_DESK, events) <==> NeverRevives(EMPTY_DESK, events)
  {
    if events != [] {
      var init := events[..|events| - 1];
      OneActiveThroughoutIff(init);
      if AlwaysOneActive(EMPTY_DESK, init) {
        assert OneActive(Run(EMPTY_DESK, init));
        ActiveStep(Run(EMPTY_DESK, init), events[|init|]);
      }
    }
  }

  /** Such a resume is three events away from the empty state. */
  lemma ResumeMayMakeTwoActive()
    ensures var d := Step(Step(Step(Step(EMPTY_DESK, DoCreate(1, true, 1)), DoPause(0)), DoCreate(1, true, 1)), DoResume(0));
            |d.sessions| == 2 && d.sessions[0] == d.sessions[1] == Session(1, ACTIVE, 1)
  {
    var active, paused := Session(1, ACTIVE, 1), Session(1, PAUSED, 1);
    var d1 := Step(EMPTY_DESK, DoCreate(1, true, 1));
    assert d1 == Desk([active], [Cycle(0, 1, 0, 1000, RUNNING)], [], 0);
    var d2 := Step(d1, DoPause(0));
    assert d2 == Desk([paused], d1.cycles, [], 0);
    assert !HasActive(d2.sessions, 1);
    var d3 := Step(d2, DoCreate(1, true, 1));
    assert d3.sessions == [paused, active];
  }

  // ---------- the service as it runs ----------

  /** The events of a pass over `n` due cycles: before each, other requests get in; `oks` says which of them throw. */
  function PassEvents(others: seq<seq<Event>>, oks: seq<bool>, n: nat): seq<Event>
    requires n <= |others| == |oks|
  {
    if n == 0 then [DoBeginPass] else PassEvents(others, oks, n - 1) + (others[n - 1] + [DoComplete(0, oks[n - 1])])
  }

  lemma {:induction false} RunConcat(d: Desk, first: seq<Event>, second: seq<Event>)
    ensures Run(d, first + second) == Run(Run(d, first), second)
  {
    if second == [] {
      assert first + second == first;
    } else {
      var init := second[..|second| - 1];
      assert (first + second)[..|first + second| - 1] == first + init;
      RunConcat(d, first, init);
    }
  }

  lemma RunOne(d: Desk, e: Event)
    ensures Run(d, [e]) == Step(d, e)
  {
    assert [e][..0] == [];
  }

  lemma RunTurn(d: Desk, before: seq<Event>, other: seq<Event>, ok: bool)
    ensures Run(d, before + (other + [DoComplete(0, ok)])) == Step(Run(Run(d, before), other), DoComplete(0, ok))
  {
    RunConcat(d, before, other + [DoComplete(0, ok)]);
    RunConcat(Run(d, before), other, [DoComplete(0, ok)]);
    RunOne(Run(Run(d, before), other), DoComplete(0, ok));
  }

  predicate IsRequest(e: Event) {
    !e.DoBeginPass? && !e.DoComplete?
  }

  class Service {
    var sessions: seq<Session>
    var cycles: seq<Cycle>
    var now: int
    ghost var pass: seq<Due>

    ghost function State(): Desk
      reads this
    {
      Desk(sessions, cycles, pass, now)
    }

    constructor ()
      ensures State() == EMPTY_DESK
    {
      sessions, cycles, now, pass := [], [], 0, [];
    }

    method CreateNextCycle(s: SessionId)
      modifies this`cycles
      ensures State() == CreateNext(old(State()), s)
    {
      if s >= |sessions| || sessions[s].status != ACTIVE {
        return;
      }
      var number := LastNumber(cycles, s) + 1;
      cycles := cycles + [Cycle(s, number, now, now + 1000 * sessions[s].intervalSec, RUNNING)];
    }

    method Create(user: UserId, known: bool, intervalSec: nat) returns (r: Result<SessionId, SessionError>)
      modifies this`sessions, this`cycles
      ensures (State(), r) == CreateSession(old(State()), user, known, intervalSec)
    {
      if !known {
        return Err(UserNotFound);
      }
      if HasActive(sessions, user) {
        return Err(SessionExists);
      }
      var s := |sessions|;
      sessions := sessions + [Session(user, ACTIVE, intervalSec)];
      CreateNextCycle(s);
      r := Ok(s);
    }

    method Stop(s: SessionId) returns (r: Result<SessionId, SessionError>)
      modifies this`sessions, this`cycles
      ensures (State(), r) == StopSession(old(State()), s)
    {
      if s >= |sessions| {
        return Err(SessionNotFound);
      }
      if sessions[s].status != ACTIVE {
        return Err(WrongStatus);
      }
      ghost var before := cycles;
      sessions := sessions[s := sessions[s].(status := STOPPED)];
      for n := 0 to |cycles|
        invariant |cycles| == |before| && sessions == old(sessions)[s := old(sessions)[s].(status := STOPPED)]
        invariant forall k :: 0 <= k < |cycles| ==> cycles[k] == if k < n then FailCycle(before[k], s) else before[k]
      {
        if cycles[n].session == s && (cycles[n].status == WAITING || cycles[n].status == RUNNING) {
          cycles := cycles[n := cycles[n].(status := FAILED)];
        }
      }
      assert cycles == FailCycles(before, s);
      r := Ok(s);
    }

    method Move(s: SessionId, from: SessionStatus, to: SessionStatus) returns (r: Result<SessionId, SessionError>)
      modifies this`sessions
      ensures (State(), r) == MoveSession(old(State()), s, from, to)
    {
      if s >= |sessions| {
        return Err(SessionNotFound);
      }
      if sessions[s].status != from {
        return Err(WrongStatus);
      }
      sessions := sessions[s := sessions[s].(status := to)];
      r := Ok(s);
    }

    /** Requests that other callers complete between two iterations of a pass. */
    method HandleAll(events: seq<Event>)
      requires forall n :: 0 <= n < |events| ==> IsRequest(events[n])
      modifies this`sessions, this`cycles, this`now
      ensures State() == Run(old(State()), events)
    {
      for n := 0 to |events|
        invariant State() == Run(old(State()), events[..n])
      {
        assert events[..n + 1][..n] == events[..n];
        match events[n]
        case Tick(ms) => now := now + ms;
        case DoCreate(user, known, intervalSec) => var _ := Create(user, known, intervalSec);
        case DoStop(s) => var _ := Stop(s);
        case DoPause(s) => var _ := Move(s, ACTIVE, PAUSED);
        case DoResume(s) => var _ := Move(s, PAUSED, ACTIVE);
        case _ => assert false;
      }
      assert events[..|events|] == events;
    }

    /** The pass: a snapshot of the due cycles with their sessions, then one iteration each. */
    method HandleCycleCompletion(others: seq<seq<Event>>, oks: seq<bool>)
      requires pass == [] && |others| == |oks| == |DueCycles(State(), |cycles|)|
      requires forall n, m :: 0 <= n < |others| && 0 <= m < |others[n]| ==> IsRequest(others[n][m])
      modifies this
      ensures State() == Run(old(State()), PassEvents(others, oks, |others|)) && pass == []
    {
      ghost var d := State();
      var due := FindDue();
      pass := due;
      RunOne(d, DoBeginPass);
      for n := 0 to |due|
        invariant pass == due[n..]
        invariant State() == Run(d, PassEvents(others, oks, n))
      {
        Turn(others[n], due[n], oks[n]);
        RunTurn(d, PassEvents(others, oks, n), others[n], oks[n]);
      }
    }

    /** Other requests, then one iteration of the pass. */
    method Turn(other: seq<Event>, due: Due, ok: bool)
      requires pass != [] && pass[0] == due
      requires forall n :: 0 <= n < |other| ==> IsRequest(other[n])
      modifies this
      ensures State() == Step(Run(old(State()), other), DoComplete(0, ok)) && pass == old(pass)[1..]
    {
      HandleAll(other);
      HandleOne(due, ok);
    }

    /** One iteration of the pass; a throw leaves the cycle FAILED. */
    method HandleOne(due: Due, ok: bool)
      requires pass != [] && pass[0] == due
      modifies this`cycles, this`pass
      ensures State() == Complete(old(State()), 0, ok) && pass == old(pass)[1..]
    {
      ghost var d := State();
      pass := pass[1..];
      assert d.pass[..0] + d.pass[1..] == pass;
      if due.cycle < |cycles| {
        var session := cycles[due.cycle].session;
        if !ok {
          cycles := cycles[due.cycle := cycles[due.cycle].(status := FAILED)];
          return;
        }
        cycles := cycles[due.cycle := cycles[due.cycle].(status := COMPLETED)];
        if due.wasActive {
          CreateNextCycle(session);
        }
      }
    }

    method FindDue() returns (due: seq<Due>)
      ensures due == DueCycles(State(), |cycles|)
    {
      due := [];
      for n := 0 to |cycles|
        invariant due == DueCycles(State(), n)
      {
        if cycles[n].status == RUNNING && cycles[n].endTime <= now {
          var s := cycles[n].session;
          due := due + [Due(n, s < |sessions| && sessions[s].status == ACTIVE)];
        }
      }
    }
  }
}
