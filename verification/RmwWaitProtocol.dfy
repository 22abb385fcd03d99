/** A call of `rmw_wait` is a run of the wake-up protocol: what it does to the wait set, and whom it reports, is
    what the protocol's steps do. */
module RmwWaitProtocol {
  import opened Wrappers
  import opened WaitSetModel
  import opened WaitSetInvariant
  import opened WakeUp

  /** What the thread that waits does before it returns, and the notifications that others send meanwhile. */
  predicate DuringCall(step: Step) {
    && !step.Take? && !step.SendFailsToNotify? && !step.Leave? && !step.LeaveWithError?
  }

  predicate AllDuringCall(steps: seq<Step>) {
    forall k :: 0 <= k < |steps| ==> DuringCall(steps[k])
  }

  /** Some steps of a call lead from `w` to `w'`. */
  ghost predicate Reaches(topics: Topics, w: World, w': World) {
    exists steps :: AllDuringCall(steps) && After(topics, w, steps) == Some(w')
  }

  lemma ReachesItself(topics: Topics, w: World)
    ensures Reaches(topics, w, w)
  {
    assert AllDuringCall([]) && After(topics, w, []) == Some(w);
  }

  lemma ReachesThrough(topics: Topics, w: World, w1: World, w2: World)
    requires Reaches(topics, w, w1) && Reaches(topics, w1, w2)
    ensures Reaches(topics, w, w2)
  {
    var a :| AllDuringCall(a) && After(topics, w, a) == Some(w1);
    var b :| AllDuringCall(b) && After(topics, w1, b) == Some(w2);
    AfterBoth(topics, w, a, b);
    assert AllDuringCall(a + b);
  }

  lemma {:induction false} AfterBoth(topics: Topics, w: World, a: seq<Step>, b: seq<Step>)
    requires After(topics, w, a).Some?
    ensures After(topics, w, a + b) == After(topics, After(topics, w, a).value, b)
    decreases |a|
  {
    if a == [] {
      assert a + b == b;
    } else {
      AfterBoth(topics, Next(topics, w, a[0]).value, a[1..], b);
      FirstOfBoth(a, b);
    }
  }

  lemma FirstOfBoth(a: seq<Step>, b: seq<Step>)
    requires a != []
    ensures a + b != [] && (a + b)[0] == a[0] && (a + b)[1..] == a[1..] + b
  {
  }

  lemma ReachesOn(topics: Topics, w: World, w1: World, step: Step)
    requires Reaches(topics, w, w1) && Next(topics, w1, step).Some? && DuringCall(step)
    ensures Reaches(topics, w, Next(topics, w1, step).value)
  {
    assert [step][1..] == [];
    assert AllDuringCall([step]) && After(topics, w1, [step]) == Next(topics, w1, step);
    ReachesThrough(topics, w, w1, Next(topics, w1, step).value);
  }

  /** The arrays of the call are those of these readers and some guard conditions. */
  predicate CallFor(topics: Topics, readers: seq<Reader>, call: Call) {
    call.Valid() && |call.subscribers| == |readers|
    && forall i :: 0 <= i < |readers| ==> readers[i] in topics && topics[readers[i]] == call.subscribers[i]
  }

  // ----- Mapping -----------------------------------------------------------------------------------

  /** The guard conditions up to `n` are mapped, or one of them failed. */
  function GuardConditionsMapped(w: World, call: Call, n: nat): World
    requires call.Valid() && n <= |call.guardConditions|
  {
    WithMapped(w, MapUpTo(w.waitset, GUARD_CONDITION, call.guardConditions, call.guardCreations, n))
  }

  function WithMapped(w: World, mapped: (State, Outcome<WaitSetError>)): World {
    w.(waitset := mapped.0, phase := if mapped.1.Pass? then w.phase else Outside)
  }

  lemma {:induction false} GuardConditionsPlay(topics: Topics, w: World, call: Call, n: nat)
    requires w.phase.Mapping? && call.Valid() && n <= |call.guardConditions|
    ensures Reaches(topics, w, GuardConditionsMapped(w, call, n))
    decreases n
  {
    if n == 0 {
      ReachesItself(topics, w);
    } else {
      var mapped := MapUpTo(w.waitset, GUARD_CONDITION, call.guardConditions, call.guardCreations, n - 1);
      GuardConditionsPlay(topics, w, call, n - 1);
      GuardConditionPlays(topics, w, mapped, n - 1, call.guardConditions[n - 1], call.guardCreations[n - 1]);
    }
  }

  lemma GuardConditionPlays(topics: Topics, w: World, mapped: (State, Outcome<WaitSetError>), k: nat, name: string, creation: Creation)
    requires w.phase.Mapping? && Reaches(topics, w, WithMapped(w, mapped))
    ensures Reaches(topics, w, WithMapped(w, if mapped.1.Fail? then mapped else Map(mapped.0, GUARD_CONDITION, k, name, creation)))
  {
    if mapped.1.Pass? {
      ReachesOn(topics, w, WithMapped(w, mapped), MapGuardCondition(k, name, creation));
    }
  }

  /** The readers up to `n` are mapped, or one of them failed. */
  predicate MappedUpTo(w: World, mapped: (State, Outcome<WaitSetError>), readers: seq<Reader>, n: nat) {
    w.waitset == mapped.0 && w.phase == if mapped.1.Pass? then Mapping(readers, n) else Outside
  }

  lemma {:induction false} SubscribersPlay(topics: Topics, w: World, readers: seq<Reader>, call: Call, n: nat) returns (w': World)
    requires CallFor(topics, readers, call) && w.phase == Mapping(readers, 0) && n <= |readers|
    ensures Reaches(topics, w, w')
    ensures MappedUpTo(w', MapUpTo(w.waitset, SUBSCRIBER, call.subscribers, call.subscriberCreations, n), readers, n)
    decreases n
  {
    if n == 0 {
      ReachesItself(topics, w);
      w' := w;
    } else {
      var mapped := MapUpTo(w.waitset, SUBSCRIBER, call.subscribers, call.subscriberCreations, n - 1);
      w' := SubscribersPlay(topics, w, readers, call, n - 1);
      w' := SubscriberPlays(topics, w, w', readers, mapped, n - 1, call.subscriberCreations[n - 1]);
    }
  }

  lemma SubscriberPlays(topics: Topics, w: World, w1: World, readers: seq<Reader>, mapped: (State, Outcome<WaitSetError>), k: nat,
                        creation: Creation) returns (w': World)
    requires k < |readers| && readers[k] in topics
    requires Reaches(topics, w, w1) && MappedUpTo(w1, mapped, readers, k)
    ensures Reaches(topics, w, w')
    ensures MappedUpTo(w', if mapped.1.Fail? then mapped else Map(mapped.0, SUBSCRIBER, k, topics[readers[k]], creation), readers, k + 1)
  {
    w' := w1;
    if mapped.1.Pass? {
      MapNextMaps(topics, w1, readers, k, creation);
      ReachesOn(topics, w, w1, MapNext(creation));
      w' := Next(topics, w1, MapNext(creation)).value;
    }
  }

  lemma MapNextMaps(topics: Topics, w: World, readers: seq<Reader>, k: nat, creation: Creation)
    requires k < |readers| && readers[k] in topics && w.phase == Mapping(readers, k)
    ensures var w' := Next(topics, w, MapNext(creation));
            var (s, outcome) := Map(w.waitset, SUBSCRIBER, k, topics[readers[k]], creation);
            w'.Some? && w'.value.waitset == s && w'.value.phase == if outcome.Pass? then Mapping(readers, k + 1) else Outside
  {
  }

  /** Entering and mapping both arrays. */
  lemma MappingPlays(topics: Topics, w: World, readers: seq<Reader>, call: Call) returns (w': World)
    requires w.phase.Outside? && CallFor(topics, readers, call)
    ensures Reaches(topics, w, w') && w'.waitset == MapEntities(w.waitset, call).0
    ensures w'.phase == if MapEntities(w.waitset, call).1.Pass? then Mapping(readers, |readers|) else Outside
  {
    var w1 := w.(phase := Mapping(readers, 0));
    ReachesItself(topics, w);
    assert Next(topics, w, Enter(readers)) == Some(w1);
    ReachesOn(topics, w, w, Enter(readers));
    GuardConditionsPlay(topics, w1, call, |call.guardConditions|);
    w' := GuardConditionsMapped(w1, call, |call.guardConditions|);
    ReachesThrough(topics, w, w1, w');
    if w'.phase.Mapping? {
      var w2 := SubscribersPlay(topics, w', readers, call, |readers|);
      ReachesThrough(topics, w, w', w2);
      w' := w2;
    }
  }

  // ----- Waiting -------------------------------------------------------------------------------------

  /** A notification: for a subscriber, by a publisher that has sent something. */
  lemma NotificationPlays(topics: Topics, w: World, t: WaitableEntity, i: nat) returns (w': World)
    requires Inv(w.waitset)
    ensures Reaches(topics, w, w') && w'.waitset == Notify(w.waitset, t, i) && w'.phase == w.phase
  {
    w' := w;
    ReachesItself(topics, w);
    if i < |w.waitset.Table(t)| {
      var name := w.waitset.Table(t)[i].serviceName;
      assert UniqueNames(w.waitset.Table(t));
      OnlyListenerIsFound(w.waitset.Table(t), i);
      if t == GUARD_CONDITION {
        ReachesOn(topics, w, w, TriggerGuardCondition(name));
        w' := Next(topics, w, TriggerGuardCondition(name)).value;
      } else {
        var w1 := Next(topics, w, Send(name, 0)).value;
        ReachesOn(topics, w, w, Send(name, 0));
        ReachesOn(topics, w, w1, SendNotifies(name));
        w' := Next(topics, w1, SendNotifies(name)).value;
      }
    }
  }

  /** Asleep, with `triggers` about to be reported. */
  predicate Asleep(w: World, readers: seq<Reader>, s: State, triggers: seq<TriggeredWaitable>) {
    w.waitset == s && w.phase == Blocked(readers, triggers)
  }

  lemma OccurrencePlays(topics: Topics, w: World, readers: seq<Reader>, triggers: seq<TriggeredWaitable>, occurrence: Occurrence)
    returns (w': World)
    requires Inv(w.waitset) && w.phase == Blocked(readers, triggers)
    ensures var (s, reported) := Handle(w.waitset, occurrence);
            Reaches(topics, w, w') && Asleep(w', readers, s, triggers + reported) && Inv(s)
  {
    HandleKeepsNames(w.waitset, occurrence);
    SameButPendingKeepsInv(w.waitset, Handle(w.waitset, occurrence).0);
    match occurrence
    case Notified(t, i) =>
      w' := NotificationPlays(topics, w, t, i);
      assert triggers + [] == triggers;
    case Event(id, draining) =>
      ReachesItself(topics, w);
      ReachesOn(topics, w, w, Deliver(id, draining));
      w' := Next(topics, w, Deliver(id, draining)).value;
  }

  /** Asleep after all occurrences, `triggers` having been collected before. */
  predicate AsleepAfter(w: World, readers: seq<Reader>, triggers: seq<TriggeredWaitable>, handled: (State, seq<TriggeredWaitable>)) {
    Asleep(w, readers, handled.0, triggers + handled.1)
  }

  lemma {:induction false} OccurrencesPlay(
    topics: Topics, w: World, readers: seq<Reader>, triggers: seq<TriggeredWaitable>, timer: Option<nat>, occurrences: seq<Occurrence>)
    returns (w': World)
    requires Inv(w.waitset) && w.phase == Blocked(readers, triggers)
    ensures Reaches(topics, w, w') && AsleepAfter(w', readers, triggers, HandleAll(w.waitset, timer, occurrences))
    decreases |occurrences|
  {
    if occurrences == [] || IsTimeout(timer, occurrences[0]) {
      w' := w;
      ReachesItself(topics, w);
      assert triggers + [] == triggers;
    } else {
      var (s, reported) := Handle(w.waitset, occurrences[0]);
      var w1 := OccurrencePlays(topics, w, readers, triggers, occurrences[0]);
      w' := OccurrencesPlay(topics, w1, readers, triggers + reported, timer, occurrences[1..]);
      ReachesThrough(topics, w, w1, w');
      Collected(w', readers, triggers, reported, HandleAll(s, timer, occurrences[1..]));
    }
  }

  lemma Collected(w: World, readers: seq<Reader>, triggers: seq<TriggeredWaitable>, reported: seq<TriggeredWaitable>,
                  later: (State, seq<TriggeredWaitable>))
    requires AsleepAfter(w, readers, triggers + reported, later)
    ensures AsleepAfter(w, readers, triggers, (later.0, reported + later.1))
  {
    assert triggers + reported + later.1 == triggers + (reported + later.1);
  }

  /** From a finished mapping phase up to the return of the wait: still mapping if it fails before it sleeps, and
      otherwise asleep with everything that it is about to report. */
  lemma WaitPlays(topics: Topics, w: World, readers: seq<Reader>, timeout: Timeout, env: WaitEnvironment) returns (w': World)
    requires Inv(w.waitset) && w.phase == Mapping(readers, |readers|)
    ensures Reaches(topics, w, w') && w'.waitset == Wait(w.waitset, timeout, env).state && !w'.phase.Outside?
    ensures Wait(w.waitset, timeout, env).result.Ok? ==> w'.phase == Blocked(readers, Wait(w.waitset, timeout, env).result.value)
  {
    var waited := Wait(w.waitset, timeout, env);
    w' := w;
    ReachesItself(topics, w);
    if waited.result.Ok? || waited.sleptOn.Some? {
      var w1 := w.(phase := Blocked(readers, []));
      assert Next(topics, w, Block) == Some(w1);
      ReachesOn(topics, w, w, Block);
      w' := w1;
      if waited.sleptOn.Some? {
        w' := OccurrencesPlay(topics, w1, readers, [], TimerOf(timeout, env), env.occurrences);
        ReachesThrough(topics, w, w1, w');
        var reported := HandleAll(w.waitset, TimerOf(timeout, env), env.occurrences).1;
        assert [] + reported == reported;
      }
    }
  }

  // ----- The call --------------------------------------------------------------------------------------

  /** How the call returns: with `Leave`, out of a world in which exactly what it triggers is about to be
      reported; or with an error, out of the failed mapping or with `LeaveWithError`. */
  predicate Returns(topics: Topics, readers: seq<Reader>, called: Called, before: World, w': World) {
    && w'.phase.Outside? && w'.waitset == called.state
    && if called.rc == ERROR then w' == before || Next(topics, before, LeaveWithError) == Some(w')
       else before.phase == Blocked(readers, called.triggered) && Next(topics, before, Leave) == Some(w')
  }

  /** Every call of `rmw_wait` is a run of protocol steps, with the same wait set in the end and the same readers
      reported. */
  lemma CallsAreProtocolRuns(topics: Topics, w: World, readers: seq<Reader>, call: Call) returns (before: World, w': World)
    requires Inv(w.waitset) && w.phase.Outside? && CallFor(topics, readers, call)
    ensures Reaches(topics, w, before) && Returns(topics, readers, RmwWait(w.waitset, call), before, w')
    ensures RmwWait(w.waitset, call).rc in {OK, TIMEOUT} ==>
              w'.unfinished == before.unfinished + ReportedReaders(readers, RmwWait(w.waitset, call).triggered)
  {
    before := MappingPlays(topics, w, readers, call);
    w' := before;
    if MapEntities(w.waitset, call).1.Pass? {
      MapEntitiesKeepsInv(w.waitset, call);
      var w1 := WaitPlays(topics, before, readers, call.timeout, call.env);
      ReachesThrough(topics, w, before, w1);
      before := w1;
      w' := ReturnPlays(topics, readers, Wait(MapEntities(w.waitset, call).0, call.timeout, call.env), RmwWait(w.waitset, call), before);
    }
  }

  lemma ReturnPlays(topics: Topics, readers: seq<Reader>, waited: Waited, called: Called, before: World) returns (w': World)
    requires !before.phase.Outside? && before.waitset == waited.state
    requires if waited.result.Err? then called.rc == ERROR && called.state == waited.state
             else called.rc != ERROR && called.state == UnmapAll(waited.state) && called.triggered == waited.result.value
    requires waited.result.Ok? ==> before.phase == Blocked(readers, waited.result.value)
    ensures Returns(topics, readers, called, before, w')
    ensures called.rc != ERROR ==> w'.unfinished == before.unfinished + ReportedReaders(readers, called.triggered)
  {
    w' := if called.rc == ERROR then before.(phase := Outside) else Next(topics, before, Leave).value;
  }
}
