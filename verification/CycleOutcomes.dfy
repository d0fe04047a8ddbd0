/** When cycles start and end, what an iteration writes, and what the session commands accept. */
module CycleOutcomes {
  import opened Wrappers
  import opened TradingCycles

  // ---------- times ----------

  /** Every cycle ends its session's interval after it started. */
  ghost predicate TimesOk(d: Desk) {
    forall k :: 0 <= k < |d.cycles| ==>
      && d.cycles[k].session < |d.sessions|
      && d.cycles[k].startTime <= d.now
      && d.cycles[k].endTime == d.cycles[k].startTime + 1000 * d.sessions[d.cycles[k].session].intervalSec
  }

  /** What is completed, or held by a pass, is over. */
  ghost predicate OverWhenHandled(d: Desk) {
    && (forall k :: 0 <= k < |d.cycles| && d.cycles[k].status == COMPLETED ==> d.cycles[k].endTime <= d.now)
    && (forall i :: 0 <= i < |d.pass| ==> d.pass[i].cycle < |d.cycles| && d.cycles[d.pass[i].cycle].endTime <= d.now)
  }

  /** A step adds at most one cycle, which starts now; times and numbers of cycles and owners and intervals of sessions never change. */
  lemma CyclesStep(d: Desk, e: Event)
    ensures var d' := Step(d, e);
      && |d.cycles| <= |d'.cycles| <= |d.cycles| + 1 && |d.sessions| <= |d'.sessions| && d.now <= d'.now
      && (forall k :: 0 <= k < |d.cycles| ==> d'.cycles[k] == d.cycles[k].(status := d'.cycles[k].status))
      && (forall s :: 0 <= s < |d.sessions| ==> d'.sessions[s] == d.sessions[s].(status := d'.sessions[s].status))
      && (|d'.cycles| > |d.cycles| ==>
            var c := d'.cycles[|d.cycles|];
            && c.session < |d'.sessions| && c.status == RUNNING && d'.sessions[c.session].status == ACTIVE
            && c.startTime == d.now == d'.now && c.endTime == d.now + 1000 * d'.sessions[c.session].intervalSec)
  {
  }

  lemma TimesStep(d: Desk, e: Event)
    requires TimesOk(d)
    ensures TimesOk(Step(d, e))
  {
    CyclesStep(d, e);
  }

  lemma HeldStep(d: Desk, e: Event, i: nat)
    requires OverWhenHandled(d) && i < |Step(d, e).pass|
    ensures var d', due := Step(d, e), Step(d, e).pass[i]; due.cycle < |d'.cycles| && d'.cycles[due.cycle].endTime <= d'.now
  {
    CyclesStep(d, e);
    if e.DoBeginPass? && i >= |d.pass| {
      PickedNow(d, i);
    } else if e.DoComplete? && e.i < |d.pass| {
      assert Step(d, e).pass[i] == d.pass[if i < e.i then i else i + 1];
    } else {
      assert Step(d, e).pass[i] == d.pass[i];
    }
  }

  lemma CompletedStep(d: Desk, e: Event, k: CycleId)
    requires OverWhenHandled(d) && k < |Step(d, e).cycles| && Step(d, e).cycles[k].status == COMPLETED
    ensures Step(d, e).cycles[k].endTime <= Step(d, e).now
  {
    CyclesStep(d, e);
    if e.DoComplete? && e.i < |d.pass| {
      assert d.pass[e.i].cycle < |d.cycles| && d.cycles[d.pass[e.i].cycle].endTime <= d.now;
    }
  }

  lemma OverStep(d: Desk, e: Event)
    requires OverWhenHandled(d)
    ensures OverWhenHandled(Step(d, e))
  {
    var d' := Step(d, e);
    forall i | 0 <= i < |d'.pass| ensures d'.pass[i].cycle < |d'.cycles| && d'.cycles[d'.pass[i].cycle].endTime <= d'.now {
      HeldStep(d, e, i);
    }
    forall k | 0 <= k < |d'.cycles| && d'.cycles[k].status == COMPLETED ensures d'.cycles[k].endTime <= d'.now {
      CompletedStep(d, e, k);
    }
  }

  lemma {:induction false} TimesOverRuns(events: seq<Event>)
    ensures TimesOk(Run(EMPTY_DESK, events)) && OverWhenHandled(Run(EMPTY_DESK, events))
  {
    if events != [] {
      var m, e := Run(EMPTY_DESK, events[..|events| - 1]), events[|events| - 1];
      assert TimesOk(m) && OverWhenHandled(m) by { TimesOverRuns(events[..|events| - 1]); }
      TimesStep(m, e);
      OverStep(m, e);
    }
  }

  /** Over every run, overlapping passes included, no cycle is completed before its session's interval has passed since it started. */
  lemma NotCompletedEarly(events: seq<Event>, k: CycleId)
    requires k < |Run(EMPTY_DESK, events).cycles| && Run(EMPTY_DESK, events).cycles[k].status == COMPLETED
    ensures var d := Run(EMPTY_DESK, events);
      d.cycles[k].session < |d.sessions| && d.now >= d.cycles[k].startTime + 1000 * d.sessions[d.cycles[k].session].intervalSec
  {
    TimesOverRuns(events);
  }

  /** A pass picks a cycle exactly when it is running and its interval has passed, and notes whether its session is ACTIVE. */
  lemma PassPicksOnTime(events: seq<Event>, k: CycleId)
    requires k < |Run(EMPTY_DESK, events).cycles|
    ensures var d := Run(EMPTY_DESK, events);
      var picked := BeginPass(d).pass[|d.pass|..];
      && d.cycles[k].session < |d.sessions|
      && (k in PickedCycles(picked) <==>
            d.cycles[k].status == RUNNING && d.now >= d.cycles[k].startTime + 1000 * d.sessions[d.cycles[k].session].intervalSec)
      && (forall i :: 0 <= i < |picked| && picked[i].cycle == k ==> (picked[i].wasActive <==> d.sessions[d.cycles[k].session].status == ACTIVE))
  {
    var d := Run(EMPTY_DESK, events);
    TimesOverRuns(events);
    var due := DueCycles(d, |d.cycles|);
    assert BeginPass(d).pass[|d.pass|..] == due;
    DueCyclesAreDue(d, |d.cycles|);
    if IsDue(d.cycles[k], d.now) { DueCyclesAreAll(d, |d.cycles|, k); }
    forall i | 0 <= i < |due| && due[i].cycle == k ensures due[i].wasActive <==> d.sessions[d.cycles[k].session].status == ACTIVE {
      SnapshotStatus(d, |d.cycles|, i);
    }
  }

  ghost function PickedCycles(picked: seq<Due>): set<CycleId> {
    set i | 0 <= i < |picked| :: picked[i].cycle
  }

  // ---------- what an iteration writes ----------

  /** The handled cycle ends COMPLETED, or FAILED when something threw; no other cycle and no session changes. */
  lemma IterationWrites(d: Desk, i: nat, ok: bool)
    requires i < |d.pass| && d.pass[i].cycle < |d.cycles|
    ensures var d', k := Complete(d, i, ok), d.pass[i].cycle;
      && d'.sessions == d.sessions && d'.now == d.now && d'.pass == d.pass[..i] + d.pass[i + 1..]
      && |d.cycles| <= |d'.cycles| && d'.cycles[k] == d.cycles[k].(status := if ok then COMPLETED else FAILED)
      && (forall j :: 0 <= j < |d.cycles| && j != k ==> d'.cycles[j] == d.cycles[j])
      && (|d'.cycles| > |d.cycles| <==>
            ok && d.pass[i].wasActive && d.cycles[k].session < |d.sessions| && d.sessions[d.cycles[k].session].status == ACTIVE)
      && (|d'.cycles| > |d.cycles| ==> |d'.cycles| == |d.cycles| + 1 && d'.cycles[|d.cycles|].session == d.cycles[k].session)
  {
  }

  // ---------- session commands ----------

  /** A known user without an ACTIVE session gets one with a first cycle, numbered 1 and running from now. */
  lemma CreateOutcome(d: Desk, user: UserId, known: bool, intervalSec: nat)
    requires Inv(d)
    ensures var (d', r) := CreateSession(d, user, known, intervalSec);
      && (r.Ok? <==> known && forall s :: 0 <= s < |d.sessions| && d.sessions[s].userId == user ==> d.sessions[s].status != ACTIVE)
      && (r.Ok? ==>
            && r.value == |d.sessions| && d'.sessions == d.sessions + [Session(user, ACTIVE, intervalSec)]
            && d'.cycles == d.cycles + [Cycle(r.value, 1, d.now, d.now + 1000 * intervalSec, RUNNING)])
      && (r.Err? ==> d' == d && match r.error
                                case UserNotFound => !known
                                case SessionExists => exists s :: 0 <= s < |d.sessions| && d.sessions[s].userId == user && d.sessions[s].status == ACTIVE
                                case _ => false)
  {
    LastNumberIsCount(d.cycles, |d.sessions|);
    NoneOf(d.cycles, |d.sessions|);
  }

  lemma {:induction false} NoneOf(cycles: seq<Cycle>, s: SessionId)
    requires forall k :: 0 <= k < |cycles| ==> cycles[k].session != s
    ensures CountOf(cycles, s) == 0
  {
    if cycles != [] {
      NoneOf(cycles[..|cycles| - 1], s);
    }
  }

  /** Pausing needs ACTIVE, resuming needs PAUSED, stopping needs ACTIVE; only stopping touches cycles, and fails the unfinished ones of that session. */
  lemma CommandOutcome(d: Desk, s: SessionId)
    ensures Step(d, DoPause(s)) == if s < |d.sessions| && d.sessions[s].status == ACTIVE
                                   then d.(sessions := d.sessions[s := d.sessions[s].(status := PAUSED)]) else d
    ensures Step(d, DoResume(s)) == if s < |d.sessions| && d.sessions[s].status == PAUSED
                                    then d.(sessions := d.sessions[s := d.sessions[s].(status := ACTIVE)]) else d
    ensures var (d', r) := StopSession(d, s);
      && (r.Ok? <==> s < |d.sessions| && d.sessions[s].status == ACTIVE)
      && (r.Err? ==> d' == d && r.error == if s < |d.sessions| then WrongStatus else SessionNotFound)
      && (r.Ok? ==>
            && d'.sessions == d.sessions[s := d.sessions[s].(status := STOPPED)] && d'.pass == d.pass && |d'.cycles| == |d.cycles|
            && forall k :: 0 <= k < |d.cycles| ==>
                 d'.cycles[k] == if d.cycles[k].session == s && d.cycles[k].status != COMPLETED then d.cycles[k].(status := FAILED) else d.cycles[k])
  {
  }
}
