/** What callers are told: a conversation that was open while they asked, and nothing but when there was none. */
module ConversationAnswers {
  import opened Wrappers
  import opened ConversationLock

  /** A conversation of this user that is not closed. */
  predicate OpenNow(d: Desk, user: UserId, id: ConversationId) {
    id < |d.conversations| && d.conversations[id].userId == user && d.conversations[id].status != CLOSED
  }

  // ---------- single queries ----------

  /** A look-up finds an open conversation of its user exactly when there is one. */
  lemma LookupIsExact(d: Desk, call: Call)
    requires call in d.calls && (d.calls[call].phase.Asked? || d.calls[call].phase.Checking?)
    ensures var user, d' := d.calls[call].userId, Step(d, Execute(call));
      && d'.conversations == d.conversations && d'.locks == d.locks && call in d'.calls
      && var answer := if d.calls[call].phase.Asked? then Looked(None) else Checked(None);
         && (d'.calls[call].phase == answer <==> forall id: ConversationId :: !OpenNow(d, user, id))
         && (d'.calls[call].phase != answer ==>
               match d'.calls[call].phase
               case Looked(Some(id)) => d.calls[call].phase.Asked? && OpenNow(d, user, id)
               case Checked(Some(id)) => d.calls[call].phase.Checking? && OpenNow(d, user, id)
               case _ => false)
  {
    var user := d.calls[call].userId;
    forall id: ConversationId ensures OpenNow(d, user, id) <==> OpenFor(d.conversations, user, id) {}
    var found := FindOpen(d.conversations, user);
    if found.Some? { assert OpenNow(d, user, found.value); }
  }

  /** An insert adds one PENDING conversation of the caller, and over safe runs only when the caller has none open. */
  lemma InsertAddsOne(d: Desk, call: Call)
    requires call in d.calls && d.calls[call].phase.Creating?
    ensures var user, d' := d.calls[call].userId, Step(d, Execute(call));
      && d'.conversations == d.conversations + [Conversation(user, PENDING)]
      && call in d'.calls && d'.calls[call].phase == Created(|d.conversations|)
      && (Inv(d) ==> forall id: ConversationId :: !OpenNow(d, user, id))
  {
    if Inv(d) {
      forall id: ConversationId ensures !OpenNow(d, d.calls[call].userId, id) {
        assert WillInsert(d.calls[call].phase) && !OpenFor(d.conversations, d.calls[call].userId, id);
      }
    }
  }

  /** Closing closes and assigning opens that conversation, and neither touches any other. */
  lemma StatusEvents(d: Desk, id: ConversationId)
    requires id < |d.conversations|
    ensures Step(d, Close(id)).conversations == d.conversations[id := d.conversations[id].(status := CLOSED)]
    ensures Step(d, Assign(id)).conversations == d.conversations[id := d.conversations[id].(status := ACTIVE)]
  {
  }

  // ---------- answers over runs ----------

  /** In some state of the run, with call `who` already there, this conversation of the user was open. */
  ghost predicate SeenOpen(events: seq<Event>, who: Call, user: UserId, id: ConversationId) {
    var d := Run(EMPTY_DESK, events);
    || (who in d.calls && OpenNow(d, user, id))
    || (events != [] && SeenOpen(events[..|events| - 1], who, user, id))
  }

  /** Whatever a call holds or has returned was open after it arrived, or after the call it awaited did. */
  ghost predicate AnsweredOpen(d: Desk, events: seq<Event>, call: Call)
    requires call in d.calls
  {
    var Progress(user, phase, via) := d.calls[call];
    match phase
    case Looked(Some(id)) => SeenOpen(events, call, user, id)
    case Checked(Some(id)) => SeenOpen(events, call, user, id)
    case Created(id) => SeenOpen(events, call, user, id)
    case Returned(id) => SeenOpen(events, if via.Some? then via.value else call, user, id)
    case _ => true
  }

  lemma SeenLonger(init: seq<Event>, e: Event, who: Call, user: UserId, id: ConversationId)
    requires SeenOpen(init, who, user, id)
    ensures SeenOpen(init + [e], who, user, id)
  {
    assert (init + [e])[..|init + [e]| - 1] == init;
  }

  lemma SeenHere(events: seq<Event>, who: Call, user: UserId, id: ConversationId)
    requires who in Run(EMPTY_DESK, events).calls && OpenNow(Run(EMPTY_DESK, events), user, id)
    ensures SeenOpen(events, who, user, id)
  {
  }

  lemma RunLonger(init: seq<Event>, e: Event)
    ensures Run(EMPTY_DESK, init + [e]) == Step(Run(EMPTY_DESK, init), e)
  {
    assert (init + [e])[..|init + [e]| - 1] == init;
  }

  /** A step that does not touch a call leaves its answer. */
  lemma OthersKeepAnswers(d: Desk, init: seq<Event>, e: Event, call: Call)
    requires d == Run(EMPTY_DESK, init) && call in d.calls && AnsweredOpen(d, init, call) && !Concerns(e, call)
    ensures call in Step(d, e).calls && AnsweredOpen(Step(d, e), init + [e], call)
  {
    OthersAreLeft(d, e, call);
    var Progress(user, phase, via) := d.calls[call];
    match phase
    case Looked(Some(id)) => SeenLonger(init, e, call, user, id);
    case Checked(Some(id)) => SeenLonger(init, e, call, user, id);
    case Created(id) => SeenLonger(init, e, call, user, id);
    case Returned(id) => SeenLonger(init, e, if via.Some? then via.value else call, user, id);
    case _ =>
  }

  lemma ExecuteAnswersOpen(d: Desk, init: seq<Event>, call: Call)
    requires d == Run(EMPTY_DESK, init) && call in d.calls && AnsweredOpen(d, init, call)
    ensures call in RunQuery(d, call).calls && AnsweredOpen(RunQuery(d, call), init + [Execute(call)], call)
  {
    var e, user, via := Execute(call), d.calls[call].userId, d.calls[call].via;
    RunLonger(init, e);
    match d.calls[call].phase
    case Asked =>
      LookupIsExact(d, call);
      if FindOpen(d.conversations, user).Some? { SeenHere(init, call, user, FindOpen(d.conversations, user).value); SeenLonger(init, e, call, user, FindOpen(d.conversations, user).value); }
    case Checking =>
      LookupIsExact(d, call);
      if FindOpen(d.conversations, user).Some? { SeenHere(init, call, user, FindOpen(d.conversations, user).value); SeenLonger(init, e, call, user, FindOpen(d.conversations, user).value); }
    case Creating =>
      InsertAddsOne(d, call);
      SeenHere(init + [e], call, user, |d.conversations|);
    case Looked(Some(id)) => SeenLonger(init, e, call, user, id);
    case Checked(Some(id)) => SeenLonger(init, e, call, user, id);
    case Created(id) => SeenLonger(init, e, call, user, id);
    case Returned(id) => SeenLonger(init, e, if via.Some? then via.value else call, user, id);
    case _ =>
  }

  lemma BreakAnswersOpen(d: Desk, init: seq<Event>, call: Call)
    requires d == Run(EMPTY_DESK, init) && call in d.calls && AnsweredOpen(d, init, call)
    ensures call in FailQuery(d, call).calls && AnsweredOpen(FailQuery(d, call), init + [Break(call)], call)
  {
    var e, user, via := Break(call), d.calls[call].userId, d.calls[call].via;
    match d.calls[call].phase
    case Looked(Some(id)) => SeenLonger(init, e, call, user, id);
    case Checked(Some(id)) => SeenLonger(init, e, call, user, id);
    case Created(id) => SeenLonger(init, e, call, user, id);
    case Returned(id) => SeenLonger(init, e, if via.Some? then via.value else call, user, id);
    case _ =>
  }

  /** Only calls that never waited look up or create, so what they return is what they saw themselves. */
  ghost predicate LookersDoNotWait(d: Desk) {
    forall call :: call in d.calls && !d.calls[call].phase.Waiting? && !Settled(d.calls[call].phase) ==> d.calls[call].via.None?
  }

  lemma ResumeAnswersOpen(d: Desk, init: seq<Event>, call: Call)
    requires d == Run(EMPTY_DESK, init) && WaitersFollow(d) && LookersDoNotWait(d)
    requires call in d.calls && forall c :: c in d.calls ==> AnsweredOpen(d, init, c)
    ensures call in Continue(d, call).calls && AnsweredOpen(Continue(d, call), init + [Resume(call)], call)
  {
    var e, user, via := Resume(call), d.calls[call].userId, d.calls[call].via;
    assert AnsweredOpen(d, init, call);
    match d.calls[call].phase
    case Looked(Some(id)) => SeenLonger(init, e, call, user, id);
    case Checked(Some(id)) => SeenLonger(init, e, call, user, id);
    case Created(id) => SeenLonger(init, e, call, user, id);
    case Returned(id) => SeenLonger(init, e, if via.Some? then via.value else call, user, id);
    case Waiting =>
      assert WaiterFollows(d, call) && AnsweredOpen(d, init, via.value);
      if d.calls[via.value].phase.Returned? { SeenLonger(init, e, via.value, user, d.calls[via.value].phase.id); }
    case _ =>
  }

  lemma LookersStep(d: Desk, e: Event)
    requires LookersDoNotWait(d)
    ensures LookersDoNotWait(Step(d, e))
  {
  }

  lemma AnswersStep(d: Desk, init: seq<Event>, e: Event, call: Call)
    requires d == Run(EMPTY_DESK, init) && WaitersFollow(d) && LookersDoNotWait(d)
    requires forall c :: c in d.calls ==> AnsweredOpen(d, init, c)
    requires call in Step(d, e).calls
    ensures AnsweredOpen(Step(d, e), init + [e], call)
  {
    if call in d.calls {
      assert AnsweredOpen(d, init, call);
      if !Concerns(e, call) { OthersKeepAnswers(d, init, e, call); }
      else if e.Execute? { ExecuteAnswersOpen(d, init, call); }
      else if e.Break? { BreakAnswersOpen(d, init, call); }
      else { ResumeAnswersOpen(d, init, call); }
    }
  }

  lemma {:induction false} AnswersOverRuns(events: seq<Event>)
    ensures LookersDoNotWait(Run(EMPTY_DESK, events))
    ensures forall call :: call in Run(EMPTY_DESK, events).calls ==> AnsweredOpen(Run(EMPTY_DESK, events), events, call)
  {
    if events != [] {
      var init, e := events[..|events| - 1], events[|events| - 1];
      var d := Run(EMPTY_DESK, init);
      AnswersOverRuns(init);
      CallsOverRuns(init);
      LookersStep(d, e);
      assert events == init + [e];
      forall call | call in Step(d, e).calls ensures AnsweredOpen(Step(d, e), events, call) {
        AnswersStep(d, init, e, call);
      }
    }
  }

  /**
   Over every run, failures and unsafe assignments included: a conversation a call returns is one of its user's
   that was open in some state after that call, or the call it awaited, had arrived.
  */
  lemma ReturnedWasOpen(events: seq<Event>, call: Call)
    requires call in Run(EMPTY_DESK, events).calls && Run(EMPTY_DESK, events).calls[call].phase.Returned?
    ensures var p := Run(EMPTY_DESK, events).calls[call];
            SeenOpen(events, if p.via.Some? then p.via.value else call, p.userId, p.phase.id)
  {
    AnswersOverRuns(events);
  }

  predicate NoClose(events: seq<Event>) {
    forall n :: 0 <= n < |events| ==> !events[n].Close?
  }

  lemma OpenStays(d: Desk, e: Event, user: UserId, id: ConversationId)
    requires OpenNow(d, user, id) && !e.Close?
    ensures OpenNow(Step(d, e), user, id)
  {
  }

  lemma {:induction false} SeenIsStillOpen(events: seq<Event>, who: Call, user: UserId, id: ConversationId)
    requires SeenOpen(events, who, user, id) && NoClose(events)
    ensures OpenNow(Run(EMPTY_DESK, events), user, id)
  {
    if events != [] {
      var init := events[..|events| - 1];
      if SeenOpen(init, who, user, id) {
        SeenIsStillOpen(init, who, user, id);
        OpenStays(Run(EMPTY_DESK, init), events[|init|], user, id);
      }
    }
  }

  /** In a run without a close every returned conversation is still open at its end. */
  lemma ReturnedIsOpen(events: seq<Event>, call: Call)
    requires NoClose(events)
    requires call in Run(EMPTY_DESK, events).calls && Run(EMPTY_DESK, events).calls[call].phase.Returned?
    ensures OpenNow(Run(EMPTY_DESK, events), Run(EMPTY_DESK, events).calls[call].userId, Run(EMPTY_DESK, events).calls[call].phase.id)
  {
    ReturnedWasOpen(events, call);
    var p := Run(EMPTY_DESK, events).calls[call];
    SeenIsStillOpen(events, if p.via.Some? then p.via.value else call, p.userId, p.phase.id);
  }

  // ---------- failures ----------

  ghost predicate NobodyFailed(d: Desk) {
    forall call :: call in d.calls ==> d.calls[call].phase != Failed && d.calls[call].phase != Broken
  }

  predicate NoBreak(events: seq<Event>) {
    forall n :: 0 <= n < |events| ==> !events[n].Break?
  }

  lemma NobodyFailsStep(d: Desk, e: Event)
    requires NobodyFailed(d) && !e.Break?
    ensures NobodyFailed(Step(d, e))
  {
  }

  /** A call fails only where a query does: without one every call that ends has returned a conversation. */
  lemma {:induction false} NobodyFailsByItself(events: seq<Event>)
    requires NoBreak(events)
    ensures NobodyFailed(Run(EMPTY_DESK, events))
  {
    if events != [] {
      var init := events[..|events| - 1];
      NobodyFailsByItself(init);
      NobodyFailsStep(Run(EMPTY_DESK, init), events[|init|]);
    }
  }
}
