/** What becomes of the triggers of a guard condition in the protocol. */
module GuardConditionWakeUps {
  import opened Wrappers
  import opened WaitSetModel
  import opened WaitSetInvariant
  import opened WaitSetMeaning
  import opened WakeUp
  import opened WakeUpAfterErrors

  /** The listener of a guard condition, if one was made. */
  function Listener(s: State, name: string): Option<nat> {
    FindListener(s.Table(GUARD_CONDITION), name)
  }

  function PendingAt(s: State, name: string): nat {
    match Listener(s, name)
    case None => 0
    case Some(i) => s.Table(GUARD_CONDITION)[i].pending
  }

  /** The wait is about to report the guard condition, under the index that it is mapped to. */
  predicate AboutToTrigger(w: World, name: string) {
    var index := ReportedUnder(w.waitset, GUARD_CONDITION, name);
    w.phase.Blocked? && index.Some? && TriggeredWaitable(GUARD_CONDITION, index.value) in w.phase.triggers
  }

  /** Someone still knows that the guard condition was triggered. */
  predicate Known(w: World, name: string) {
    PendingAt(w.waitset, name) > 0 || AboutToTrigger(w, name)
  }

  /** The event of the guard condition, while it is mapped. */
  predicate IsGuardEvent(s: State, id: AttachmentId, name: string) {
    && id.Notification? && id.waitableType == GUARD_CONDITION
    && Listener(s, name) == Some(id.storageIndex) && ReportedUnder(s, GUARD_CONDITION, name).Some?
  }

  /** The failures that make everyone forget a trigger: an error return after the drain, and a failing drain that
      leaves no event while nothing is about to be reported. */
  predicate Forgets(w: World, step: Step, name: string) {
    match step
    case LeaveWithError => PendingAt(w.waitset, name) == 0
    case Deliver(id, DRAIN_FAILED(left)) => left == 0 && IsGuardEvent(w.waitset, id, name) && !AboutToTrigger(w, name)
    case _ => false
  }

  /** The caller is told of the trigger. */
  predicate Reports(w: World, step: Step, name: string) {
    step.Leave? && AboutToTrigger(w, name)
  }

  // ----- One step --------------------------------------------------------------------------------------

  lemma MapKeepsTrigger(s: State, t: WaitableEntity, rmwIndex: nat, added: string, creation: Creation, name: string)
    requires Inv(s) && Listener(s, name).Some?
    ensures var s' := Map(s, t, rmwIndex, added, creation).0;
            Listener(s', name) == Listener(s, name) && PendingAt(s', name) == PendingAt(s, name)
  {
    MapKeepsInv(s, t, rmwIndex, added, creation);
    var s' := Map(s, t, rmwIndex, added, creation).0;
    assert NamesOf(s.Table(GUARD_CONDITION)) <= NamesOf(s'.Table(GUARD_CONDITION)) && UniqueNames(s'.Table(GUARD_CONDITION));
    FoundStaysFound(s.Table(GUARD_CONDITION), s'.Table(GUARD_CONDITION), name);
    var (s1, r) := GetStorageIndex(s, t, added, creation);
    assert s'.Table(GUARD_CONDITION) == s1.Table(GUARD_CONDITION);
    var i := Listener(s, name).value;
    assert s1.Table(GUARD_CONDITION)[i] == s.Table(GUARD_CONDITION)[i];
  }

  lemma SetPendingChangesTrigger(s: State, t: WaitableEntity, i: nat, pending: nat, name: string)
    requires i < |s.Table(t)|
    ensures var s' := SetPending(s, t, i, pending);
            Listener(s', name) == Listener(s, name)
            && ReportedUnder(s', GUARD_CONDITION, name) == ReportedUnder(s, GUARD_CONDITION, name)
            && PendingAt(s', name) ==
               if t == GUARD_CONDITION && Listener(s, name) == Some(i) then pending else PendingAt(s, name)
  {
    SetPendingKeepsNames(s, t, i, pending);
    SameNamesFindTheSame(s.Table(GUARD_CONDITION), SetPending(s, t, i, pending).Table(GUARD_CONDITION), name);
  }

  lemma NotifyKeepsTrigger(s: State, t: WaitableEntity, service: string, name: string)
    ensures var s' := NotifyService(s, t, service);
            Listener(s', name) == Listener(s, name)
            && ReportedUnder(s', GUARD_CONDITION, name) == ReportedUnder(s, GUARD_CONDITION, name)
            && PendingAt(s, name) <= PendingAt(s', name)
            && (t == GUARD_CONDITION && service == name && Listener(s, name).Some? ==> PendingAt(s', name) > 0)
  {
    var found := FindListener(s.Table(t), service);
    if found.Some? {
      SetPendingChangesTrigger(s, t, found.value, s.Table(t)[found.value].pending + 1, name);
    }
  }

  /** An event of another listener changes nothing; its own drains it, and a drain that succeeds reports it. */
  lemma DeliverMovesTrigger(s: State, id: AttachmentId, draining: Draining, name: string)
    ensures var (s', triggered) := Handle(s, Event(id, draining));
            Listener(s', name) == Listener(s, name)
            && ReportedUnder(s', GUARD_CONDITION, name) == ReportedUnder(s, GUARD_CONDITION, name)
            && PendingAt(s', name) == (if IsGuardEvent(s, id, name) then Drain(PendingAt(s, name), draining) else PendingAt(s, name))
            && (IsGuardEvent(s, id, name) && draining.DRAINED? ==>
                  triggered == [TriggeredWaitable(GUARD_CONDITION, ReportedUnder(s, GUARD_CONDITION, name).value)])
            && (draining.DRAIN_FAILED? ==> triggered == [])
  {
    if id.Notification? {
      var t, i := id.waitableType, id.storageIndex;
      if FindMapping(s.mapping, t, i).Some? && i < |s.Table(t)| {
        SetPendingChangesTrigger(s, t, i, Drain(s.Table(t)[i].pending, draining), name);
      }
    }
  }

  lemma DeliverKeepsKnown(topics: Topics, w: World, id: AttachmentId, draining: Draining, name: string)
    requires Known(w, name) && Next(topics, w, Deliver(id, draining)).Some?
    ensures Known(Next(topics, w, Deliver(id, draining)).value, name) <==> !Forgets(w, Deliver(id, draining), name)
  {
    var (s', triggered) := Handle(w.waitset, Event(id, draining));
    DeliverMovesTrigger(w.waitset, id, draining, name);
    var w' := Next(topics, w, Deliver(id, draining)).value;
    assert w'.phase.triggers == w.phase.triggers + triggered;
    assert AboutToTrigger(w, name) ==> AboutToTrigger(w', name);
    assert IsGuardEvent(w.waitset, id, name) && draining.DRAINED? ==> triggered[0] in w'.phase.triggers;
  }

  /** After a step a trigger is still known exactly if the step is none of the failures that forget it, and is
      not the return that reports it while no further event is pending. */
  lemma TriggersAreKeptExactly(topics: Topics, w: World, step: Step, name: string)
    requires Inv(w.waitset) && Listener(w.waitset, name).Some? && Known(w, name) && Next(topics, w, step).Some?
    ensures Listener(Next(topics, w, step).value.waitset, name) == Listener(w.waitset, name)
    ensures Known(Next(topics, w, step).value, name)
            <==> !Forgets(w, step, name) && !(Reports(w, step, name) && PendingAt(w.waitset, name) == 0)
  {
    match step
    case SendNotifies(service) => NotifyKeepsTrigger(w.waitset, SUBSCRIBER, service, name);
    case TriggerGuardCondition(other) => NotifyKeepsTrigger(w.waitset, GUARD_CONDITION, other, name);
    case Deliver(id, draining) =>
      DeliverMovesTrigger(w.waitset, id, draining, name);
      DeliverKeepsKnown(topics, w, id, draining, name);
    case MapGuardCondition(index, added, creation) => MapKeepsTrigger(w.waitset, GUARD_CONDITION, index, added, creation, name);
    case MapNext(creation) =>
      MapKeepsTrigger(w.waitset, SUBSCRIBER, w.phase.next, topics[w.phase.subs[w.phase.next]], creation, name);
    case Leave => assert UnmapAll(w.waitset).Table(GUARD_CONDITION) == w.waitset.Table(GUARD_CONDITION);
    case _ =>
  }

  // ----- Runs --------------------------------------------------------------------------------------------

  predicate NeverForgets(topics: Topics, w: World, steps: seq<Step>, name: string)
    decreases |steps|
  {
    steps == [] || (!Forgets(w, steps[0], name) && Next(topics, w, steps[0]).Some?
                    && NeverForgets(topics, Next(topics, w, steps[0]).value, steps[1..], name))
  }

  predicate ReportedSince(topics: Topics, w: World, steps: seq<Step>, name: string)
    decreases |steps|
  {
    steps != [] && (Reports(w, steps[0], name)
                    || (Next(topics, w, steps[0]).Some? && ReportedSince(topics, Next(topics, w, steps[0]).value, steps[1..], name)))
  }

  lemma {:induction false} KnownUntilReported(topics: Topics, w: World, steps: seq<Step>, name: string)
    requires Inv(w.waitset) && Listener(w.waitset, name).Some? && Known(w, name) && NeverForgets(topics, w, steps, name)
    ensures After(topics, w, steps).Some?
    ensures Known(After(topics, w, steps).value, name) || ReportedSince(topics, w, steps, name)
    decreases |steps|
  {
    if steps != [] {
      StepGrows(topics, w, steps[0]);
      TriggersAreKeptExactly(topics, w, steps[0], name);
      if !Reports(w, steps[0], name) {
        KnownUntilReported(topics, Next(topics, w, steps[0]).value, steps[1..], name);
      } else {
        StillRuns(topics, Next(topics, w, steps[0]).value, steps[1..], name);
      }
    }
  }

  lemma {:induction false} StillRuns(topics: Topics, w: World, steps: seq<Step>, name: string)
    requires NeverForgets(topics, w, steps, name)
    ensures After(topics, w, steps).Some?
    decreases |steps|
  {
    if steps != [] {
      StillRuns(topics, Next(topics, w, steps[0]).value, steps[1..], name);
    }
  }

  /** No trigger is lost: from any world that is reached by whatever steps, once the guard condition has a
      listener, each trigger is pending, is about to be reported, or was reported since - however the other
      steps interleave, unless one of the two failures forgets it. */
  lemma TriggersAreNotLost(topics: Topics, before: seq<Step>, w: World, steps: seq<Step>, name: string)
    requires After(topics, Initial(topics), before) == Some(w) && Listener(w.waitset, name).Some?
    requires NeverForgets(topics, Next(topics, w, TriggerGuardCondition(name)).value, steps, name)
    ensures var w1 := Next(topics, w, TriggerGuardCondition(name)).value;
            After(topics, w1, steps).Some?
            && (Known(After(topics, w1, steps).value, name) || ReportedSince(topics, w1, steps, name))
  {
    RunStaysSound(topics, Initial(topics), before);
    StepGrows(topics, w, TriggerGuardCondition(name));
    NotifyKeepsTrigger(w.waitset, GUARD_CONDITION, name, name);
    KnownUntilReported(topics, Next(topics, w, TriggerGuardCondition(name)).value, steps, name);
  }
}
