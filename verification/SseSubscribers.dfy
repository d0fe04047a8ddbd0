/** Who is subscribed after a run, and whom each delivery reached. */
module SseSubscribers {
  import opened SseFanout

  /** The conversation an event delivers to on instance `j`, if it delivers there. */
  predicate DeliversOn(f: Fleet, e: Event, j: InstanceId, conversation: ConversationId) {
    && j < |f.instances| && e.i == j
    && match e
       case Broadcast(_, c, _, _, _) => c == conversation
       case Drain(_, _) =>
         f.instances[j].inbox != [] && f.instances[j].inbox[0].origin != j && f.instances[j].inbox[0].conversation == conversation
       case _ => false
  }

  /** On instance `j`, the subject subscribed to the conversation in this run and has neither left nor thrown since. */
  ghost predicate StillSubscribed(n: nat, events: seq<Event>, j: InstanceId, conversation: ConversationId, subject: Subject) {
    if events == [] then false
    else
      var init, e := events[..|events| - 1], events[|events| - 1];
      var f := Run(NewFleet(n), init);
      if e == DoSubscribe(j, conversation, subject) then j < n
      else if e == DoUnsubscribe(j, conversation, subject) then false
      else if DeliversOn(f, e, j, conversation) && (e.Broadcast? || e.Drain?) && subject in e.throwing then false
      else StillSubscribed(n, init, j, conversation, subject)
  }

  /** What one event does to one subject's place in one set. */
  lemma SubscribedStep(f: Fleet, e: Event, j: InstanceId, conversation: ConversationId, subject: Subject)
    requires j < |f.instances|
    ensures j < |Step(f, e).instances|
    ensures var was := subject in SubscribersOf(f.instances[j].streams, conversation);
      subject in SubscribersOf(Step(f, e).instances[j].streams, conversation) <==>
        if e == DoSubscribe(j, conversation, subject) then true
        else if e == DoUnsubscribe(j, conversation, subject) then false
        else if DeliversOn(f, e, j, conversation) && (e.Broadcast? || e.Drain?) && subject in e.throwing then false
        else was
  {
    if e.Broadcast? && e.i < |f.instances| {
      BroadcastAt(f, e, j);
    }
  }

  /** After any run the set of a conversation is those who subscribed and have neither left nor thrown since. */
  lemma {:induction false} SubscribersAreThoseStillThere(n: nat, events: seq<Event>, j: InstanceId, conversation: ConversationId, subject: Subject)
    requires j < n
    ensures j < |Run(NewFleet(n), events).instances|
    ensures subject in SubscribersOf(Run(NewFleet(n), events).instances[j].streams, conversation) <==>
              StillSubscribed(n, events, j, conversation, subject)
  {
    if events != [] {
      var init, e := events[..|events| - 1], events[|events| - 1];
      SubscribersAreThoseStillThere(n, init, j, conversation, subject);
      SubscribedStep(Run(NewFleet(n), init), e, j, conversation, subject);
    }
  }

  /** An event adds one delivery on the instance it delivers on, and none elsewhere; it reaches exactly the subscribers that do not throw. */
  lemma DeliveryStep(f: Fleet, e: Event, j: InstanceId)
    requires j < |f.instances|
    ensures j < |Step(f, e).instances|
    ensures var before, after := f.instances[j].deliveries, Step(f, e).instances[j].deliveries;
      if exists c :: DeliversOn(f, e, j, c) then
        && (e.Broadcast? || e.Drain?)
        && |after| == |before| + 1 && after[..|before|] == before
        && var delivery := after[|before|];
           && DeliversOn(f, e, j, delivery.message.conversation)
           && forall s :: s in delivery.reached <==>
                s in SubscribersOf(f.instances[j].streams, delivery.message.conversation) && s !in e.throwing
      else after == before
  {
    if e.Broadcast? && e.i < |f.instances| {
      BroadcastAt(f, e, j);
      if e.i == j { assert DeliversOn(f, e, j, e.conversation); }
    } else if e.Drain? && e.i == j && f.instances[j].inbox != [] {
      var message := f.instances[j].inbox[0];
      assert message.origin != j ==> DeliversOn(f, e, j, message.conversation);
    }
  }

  /** So over any run each delivery reached exactly those still subscribed at that moment who did not throw. */
  lemma DeliveryReaches(n: nat, init: seq<Event>, e: Event, j: InstanceId, conversation: ConversationId, subject: Subject)
    requires j < n && DeliversOn(Run(NewFleet(n), init), e, j, conversation) && (e.Broadcast? || e.Drain?)
    ensures j < |Run(NewFleet(n), init).instances| && j < |Run(NewFleet(n), init + [e]).instances|
    ensures var before, after := Run(NewFleet(n), init).instances[j].deliveries, Run(NewFleet(n), init + [e]).instances[j].deliveries;
      && |after| == |before| + 1
      && after[|before|].message.conversation == conversation
      && (subject in after[|before|].reached <==> StillSubscribed(n, init, j, conversation, subject) && subject !in e.throwing)
  {
    var f := Run(NewFleet(n), init);
    assert (init + [e])[..|init + [e]| - 1] == init;
    SubscribersAreThoseStillThere(n, init, j, conversation, subject);
    DeliveryStep(f, e, j);
  }
}
