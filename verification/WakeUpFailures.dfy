/** Every step of the protocol, and exactly when it can be taken without losing a wake-up. */
module WakeUpFailures {
  import opened Wrappers
  import opened WaitSetModel
  import opened WaitSetInvariant
  import opened WakeUp
  import opened WakeUpAfterErrors
  import opened WakeUpLimits

  // ----- The condition ----------------------------------------------------------------------------

  /** The reader has nothing to take, or is going to look anyway. */
  predicate Idle(w: World, r: Reader)
    requires r in w.buffers
  {
    w.buffers[r] == [] || r in w.unfinished
  }

  /** The listener whose events `id` announces is that of `name`, and is mapped. */
  predicate IsEventOf(s: State, id: AttachmentId, name: string) {
    && id.Notification? && id.waitableType == SUBSCRIBER
    && FindListener(s.subscribers, name) == Some(id.storageIndex) && HasMappedListener(s, name)
  }

  /** A step that fails may be taken if whoever it would have told is idle or learns of its messages otherwise.
      An error return does not tell the readers that were about to be reported; a notification that fails
      does not reach the readers of its service, unless another publisher is about to notify them; a drain
      that fails and leaves no event takes the events of its listener's readers.  `Enter` may be taken if
      the mappings that are left over lead back to readers of the right service. */
  predicate Tolerated(topics: Topics, w: World, step: Step) {
    match step
    case LeaveWithError =>
      w.phase.Blocked? ==>
        forall r :: r in ReportedReaders(w.phase.subs, w.phase.triggers) && r in w.mapped && r in topics && r in w.buffers ==>
          Idle(w, r) || topics[r] in w.inFlight || PendingOf(w.waitset, topics[r]) > 0
    case SendFailsToNotify(service) =>
      w.inFlight[service] > 1
      || forall r :: r in w.mapped && r in topics && r in w.buffers && topics[r] == service ==>
           Idle(w, r) || PendingOf(w.waitset, service) > 0 || AboutToBeReported(w, r)
    case Deliver(id, DRAIN_FAILED(left)) =>
      left > 0
      || forall r :: r in w.mapped && r in topics && r in w.buffers && IsEventOf(w.waitset, id, topics[r]) ==>
           Idle(w, r) || topics[r] in w.inFlight || AboutToBeReported(w, r)
    case Enter(subs) => MappingsLeadBack(topics, w.waitset, subs)
    case _ => true
  }

  predicate Fails(step: Step) {
    step.LeaveWithError? || step.SendFailsToNotify? || (step.Deliver? && step.draining.DRAIN_FAILED?)
  }

  // ----- Failing steps, one by one ------------------------------------------------------------------

  lemma ErrorIsToleratedExactly(topics: Topics, w: World)
    requires Good(topics, w) && !w.phase.Outside?
    ensures Structured(topics, w.(phase := Outside))
    ensures Tolerated(topics, w, LeaveWithError) <==> NoWakeUpLost(topics, w.(phase := Outside))
  {
    var w' := w.(phase := Outside);
    if Tolerated(topics, w, LeaveWithError) {
      forall r | r in w'.mapped ensures Covered(topics, w', r) {
        assert Covered(topics, w, r);
      }
    }
    if NoWakeUpLost(topics, w') && w.phase.Blocked? {
      forall r | r in ReportedReaders(w.phase.subs, w.phase.triggers) && r in w.mapped
        ensures Idle(w, r) || topics[r] in w.inFlight || PendingOf(w.waitset, topics[r]) > 0
      {
        assert Covered(topics, w', r);
      }
    }
  }

  lemma FailedNotificationIsToleratedExactly(topics: Topics, w: World, service: string)
    requires Good(topics, w) && service in w.inFlight
    ensures Structured(topics, w.(inFlight := w.inFlight - multiset{service}))
    ensures Tolerated(topics, w, SendFailsToNotify(service)) <==> NoWakeUpLost(topics, w.(inFlight := w.inFlight - multiset{service}))
  {
    var w' := w.(inFlight := w.inFlight - multiset{service});
    if Tolerated(topics, w, SendFailsToNotify(service)) {
      forall r | r in w'.mapped ensures Covered(topics, w', r) {
        assert Covered(topics, w, r);
      }
    }
    if NoWakeUpLost(topics, w') && w.inFlight[service] <= 1 {
      assert service !in w'.inFlight;
      forall r | r in w.mapped && topics[r] == service
        ensures Idle(w, r) || PendingOf(w.waitset, service) > 0 || AboutToBeReported(w, r)
      {
        assert Covered(topics, w', r);
      }
    }
  }

  /** What a failing drain does to the events of a service. */
  lemma FailedDrainTakesEvents(s: State, id: AttachmentId, left: nat, name: string)
    requires Inv(s)
    ensures var (s', triggered) := Handle(s, Event(id, DRAIN_FAILED(left)));
            Inv(s') && SameShape(s, s') && triggered == []
            && PendingOf(s', name) == if IsEventOf(s, id, name) then Drain(PendingOf(s, name), DRAIN_FAILED(left)) else PendingOf(s, name)
  {
    DeliverKeepsShape(s, id, DRAIN_FAILED(left));
    if id.Notification? && FindMapping(s.mapping, id.waitableType, id.storageIndex).Some? {
      var t, i := id.waitableType, id.storageIndex;
      SetPendingChangesOne(s, t, i, Drain(s.Table(t)[i].pending, DRAIN_FAILED(left)), name);
    }
  }

  lemma FailedDrainIsToleratedExactly(topics: Topics, w: World, id: AttachmentId, left: nat)
    requires Good(topics, w) && w.phase.Blocked?
    ensures var w' := w.(waitset := Handle(w.waitset, Event(id, DRAIN_FAILED(left))).0);
            Structured(topics, w') && (Tolerated(topics, w, Deliver(id, DRAIN_FAILED(left))) <==> NoWakeUpLost(topics, w'))
  {
    var w' := w.(waitset := Handle(w.waitset, Event(id, DRAIN_FAILED(left))).0);
    FailedDrainTakesEvents(w.waitset, id, left, "");
    ShapeKeepsStructured(topics, w, w');
    if Tolerated(topics, w, Deliver(id, DRAIN_FAILED(left))) {
      forall r | r in w'.mapped ensures Covered(topics, w', r) {
        assert Covered(topics, w, r);
        FailedDrainTakesEvents(w.waitset, id, left, topics[r]);
      }
    }
    if NoWakeUpLost(topics, w') && left == 0 {
      forall r | r in w.mapped && IsEventOf(w.waitset, id, topics[r])
        ensures Idle(w, r) || topics[r] in w.inFlight || AboutToBeReported(w, r)
      {
        assert Covered(topics, w', r);
        FailedDrainTakesEvents(w.waitset, id, left, topics[r]);
      }
    }
  }

  // ----- All steps ------------------------------------------------------------------------------------

  /** Nothing is lost from a world on if nothing is lost in it. */
  lemma SafeIffNotLost(topics: Topics, w: World)
    requires OneReaderPerService(topics) && Structured(topics, w)
    ensures NoWakeUpLost(topics, w) <==> forall w' :: Leads(topics, w, w') ==> NoWakeUpLost(topics, w')
  {
    if NoWakeUpLost(topics, w) {
      forall w' | Leads(topics, w, w') ensures NoWakeUpLost(topics, w') {
        LeadsToGood(topics, w, w');
      }
    }
    LeadsToItself(topics, w);
  }

  lemma FailureIsToleratedExactly(topics: Topics, w: World, step: Step)
    requires Good(topics, w) && Fails(step) && Next(topics, w, step).Some?
    ensures Structured(topics, Next(topics, w, step).value)
    ensures Tolerated(topics, w, step) <==> NoWakeUpLost(topics, Next(topics, w, step).value)
  {
    match step
    case LeaveWithError => ErrorIsToleratedExactly(topics, w);
    case SendFailsToNotify(service) => FailedNotificationIsToleratedExactly(topics, w, service);
    case Deliver(id, DRAIN_FAILED(left)) =>
      FailedDrainTakesEvents(w.waitset, id, left, "");
      assert w.phase.triggers + [] == w.phase.triggers;
      FailedDrainIsToleratedExactly(topics, w, id, left);
  }

  /** What a caller can tell without looking at buffers is enough. */
  lemma HarmlessIsTolerated(topics: Topics, w: World, step: Step)
    requires Good(topics, w) && Harmless(topics, w, step)
    ensures Tolerated(topics, w, step)
  {
    if step.SendFailsToNotify? && FindListener(w.waitset.subscribers, step.service).None? {
      forall r | r in w.mapped ensures topics[r] != step.service {
        assert FindListener(w.waitset.subscribers, topics[r]).Some?;
      }
    }
  }

  // ----- Whole runs -----------------------------------------------------------------------------------

  /** A run in which every step is tolerated. */
  predicate ToleratedRun(topics: Topics, w: World, steps: seq<Step>)
    decreases |steps|
  {
    steps == [] || (Next(topics, w, steps[0]).Some? && Tolerated(topics, w, steps[0])
                    && ToleratedRun(topics, Next(topics, w, steps[0]).value, steps[1..]))
  }

  lemma ToleratedStepKeepsGood(topics: Topics, w: World, step: Step)
    requires OneReaderPerService(topics) && Good(topics, w) && Next(topics, w, step).Some? && Tolerated(topics, w, step)
    ensures Good(topics, Next(topics, w, step).value)
  {
    if Fails(step) {
      FailureIsToleratedExactly(topics, w, step);
    } else {
      HarmlessStepKeepsGood(topics, w, step);
    }
  }

  /** No lost wake-up under the weakest condition on single steps: a run of tolerated steps never loses one. */
  lemma {:induction false} ToleratedRunsLoseNothing(topics: Topics, w: World, steps: seq<Step>)
    requires OneReaderPerService(topics) && Good(topics, w) && ToleratedRun(topics, w, steps)
    ensures Good(topics, Initial(topics))
    ensures After(topics, w, steps).Some? && Good(topics, After(topics, w, steps).value)
    ensures NoWakeUpLost(topics, After(topics, w, steps).value)
    decreases |steps|
  {
    if steps != [] {
      ToleratedStepKeepsGood(topics, w, steps[0]);
      ToleratedRunsLoseNothing(topics, Next(topics, w, steps[0]).value, steps[1..]);
    }
  }

  /** Failures, exactly.  In every world that a run of tolerated steps reaches, any step that is possible - one
      that fails or any other - is one after which no harmless run loses a wake-up if and only if it is
      tolerated. */
  lemma StepsAreSafeExactly(topics: Topics, steps: seq<Step>, w: World, step: Step)
    requires OneReaderPerService(topics) && ToleratedRun(topics, Initial(topics), steps)
    requires After(topics, Initial(topics), steps) == Some(w) && Next(topics, w, step).Some?
    ensures Tolerated(topics, w, step)
            <==> forall w' :: Leads(topics, Next(topics, w, step).value, w') ==> NoWakeUpLost(topics, w')
  {
    ToleratedRunsLoseNothing(topics, Initial(topics), steps);
    if Fails(step) {
      FailureIsToleratedExactly(topics, w, step);
      SafeIffNotLost(topics, Next(topics, w, step).value);
    } else if step.Enter? {
      EnteringIsSafeExactly(topics, steps, w, step.readers);
    } else {
      HarmlessStepKeepsGood(topics, w, step);
      SafeIffNotLost(topics, Next(topics, w, step).value);
    }
  }

  /** In some world that is reached, the step is possible and not tolerated. */
  ghost predicate SometimesIntolerable(topics: Topics, step: Step) {
    exists w :: Leads(topics, Initial(topics), w) && Next(topics, w, step).Some? && !Tolerated(topics, w, step)
  }

  /** For every reader, each kind of failure is not tolerated somewhere: the runs that lose a wake-up. */
  lemma EachFailureIsSometimesIntolerable(topics: Topics, r: Reader)
    requires OneReaderPerService(topics) && r in topics
    ensures SometimesIntolerable(topics, SendFailsToNotify(topics[r]))
    ensures SometimesIntolerable(topics, Deliver(Notification(SUBSCRIBER, 0), DRAIN_FAILED(0)))
    ensures SometimesIntolerable(topics, LeaveWithError)
  {
    EachFailureCanLoseAWakeUp(topics, r);
    LosingStepIsIntolerable(topics, SendFailsToNotify(topics[r]));
    LosingStepIsIntolerable(topics, Deliver(Notification(SUBSCRIBER, 0), DRAIN_FAILED(0)));
    LosingStepIsIntolerable(topics, LeaveWithError);
  }

  lemma LosingStepIsIntolerable(topics: Topics, step: Step)
    requires OneReaderPerService(topics) && Fails(step) && LosesWakeUp(topics, step)
    ensures SometimesIntolerable(topics, step)
  {
    var w, w', w'' :| Leads(topics, Initial(topics), w) && Next(topics, w, step) == Some(w')
                      && Leads(topics, w', w'') && !NoWakeUpLost(topics, w'');
    LeadsToGood(topics, Initial(topics), w);
    FailureIsToleratedExactly(topics, w, step);
    SafeIffNotLost(topics, w');
  }
}
