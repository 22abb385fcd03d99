/** When the operations of a wait set succeed, and what they answer when they do not. */
module WaitSetAnswers {
  import opened Wrappers
  import opened WaitSetModel
  import opened WaitSetInvariant
  import opened WaitSetMeaning

  // ----- Mapping -----------------------------------------------------------------------------------

  /** Mapping one entity fails exactly if its listener is unknown and cannot be created, with the error of the
      creation that failed; and then it changes nothing. */
  lemma MapFailsExactly(s: State, t: WaitableEntity, rmwIndex: nat, name: string, creation: Creation)
    ensures var (s', outcome) := Map(s, t, rmwIndex, name, creation);
            (outcome == Fail(SERVICE_CREATION_FAILURE) <==> FindListener(s.Table(t), name).None? && creation.SERVICE_FAILS?)
            && (outcome == Fail(LISTENER_CREATION_FAILURE) <==> FindListener(s.Table(t), name).None? && creation.LISTENER_FAILS?)
            && (outcome.Pass? <==> FindListener(s.Table(t), name).Some? || creation.CREATED?)
            && (outcome.Fail? ==> s' == s)
  {
  }

  /** The listener of entity `i` is known, can be created, or was just created for an entity before it. */
  predicate Obtainable(s: State, t: WaitableEntity, names: seq<string>, creations: seq<Creation>, i: nat)
    requires i < |names| == |creations|
  {
    FindListener(s.Table(t), names[i]).Some? || creations[i].CREATED? || names[i] in names[..i]
  }

  predicate ObtainableUpTo(s: State, t: WaitableEntity, names: seq<string>, creations: seq<Creation>, n: nat)
    requires n <= |names| == |creations|
  {
    forall i :: 0 <= i < n ==> Obtainable(s, t, names, creations, i)
  }

  /** Which listeners are known after a list was mapped. */
  predicate KnownAfter(s: State, s': State, t: WaitableEntity, names: seq<string>, name: string) {
    FindListener(s'.Table(t), name).Some? <==> FindListener(s.Table(t), name).Some? || name in names
  }

  lemma MapMakesKnown(s: State, t: WaitableEntity, rmwIndex: nat, added: string, creation: Creation, name: string)
    requires Map(s, t, rmwIndex, added, creation).1.Pass?
    ensures KnownAfter(s, Map(s, t, rmwIndex, added, creation).0, t, [added], name)
  {
    FindListenerInAppended(s.Table(t), ListenerDetails(added, 0), name);
    var (s1, r) := GetStorageIndex(s, t, added, creation);
    assert Map(s, t, rmwIndex, added, creation).0.Table(t) == s1.Table(t);
  }

  /** What is known after the first `n` entities were mapped. */
  predicate PrefixKnown(s: State, t: WaitableEntity, names: seq<string>, creations: seq<Creation>, n: nat, name: string)
    requires n <= |names| == |creations|
  {
    var (s', outcome) := MapUpTo(s, t, names, creations, n);
    outcome.Pass? ==> KnownAfter(s, s', t, names[..n], name)
  }

  lemma {:induction false} PrefixesKnown(s: State, t: WaitableEntity, names: seq<string>, creations: seq<Creation>, n: nat, name: string)
    requires n <= |names| == |creations|
    ensures PrefixKnown(s, t, names, creations, n, name)
    decreases n
  {
    if n > 0 {
      PrefixesKnown(s, t, names, creations, n - 1, name);
      LongerPrefixKnown(s, t, names, creations, n, name);
    }
  }

  lemma LongerPrefixKnown(s: State, t: WaitableEntity, names: seq<string>, creations: seq<Creation>, n: nat, name: string)
    requires 0 < n <= |names| == |creations| && PrefixKnown(s, t, names, creations, n - 1, name)
    ensures PrefixKnown(s, t, names, creations, n, name)
  {
    var (s1, outcome) := MapUpTo(s, t, names, creations, n - 1);
    if outcome.Pass? && Map(s1, t, n - 1, names[n - 1], creations[n - 1]).1.Pass? {
      MapMakesKnown(s1, t, n - 1, names[n - 1], creations[n - 1], name);
      OneMore(names, n);
      InOneMore(names[..n - 1], names[n - 1], name);
    }
  }

  predicate SucceedsExactly(s: State, t: WaitableEntity, names: seq<string>, creations: seq<Creation>, n: nat)
    requires n <= |names| == |creations|
  {
    MapUpTo(s, t, names, creations, n).1.Pass? <==> ObtainableUpTo(s, t, names, creations, n)
  }

  /** Mapping an array succeeds exactly if every entity's listener can be had. */
  lemma MappingSucceedsExactly(s: State, t: WaitableEntity, names: seq<string>, creations: seq<Creation>, n: nat)
    requires n <= |names| == |creations|
    ensures MapUpTo(s, t, names, creations, n).1.Pass? <==> ObtainableUpTo(s, t, names, creations, n)
  {
    PrefixesSucceedExactly(s, t, names, creations, n);
  }

  lemma {:induction false} PrefixesSucceedExactly(s: State, t: WaitableEntity, names: seq<string>, creations: seq<Creation>, n: nat)
    requires n <= |names| == |creations|
    ensures SucceedsExactly(s, t, names, creations, n)
    decreases n
  {
    if n > 0 {
      PrefixesSucceedExactly(s, t, names, creations, n - 1);
      PrefixesKnown(s, t, names, creations, n - 1, names[n - 1]);
      OneMoreSucceeds(s, t, names, creations, n);
    }
  }

  lemma OneMoreSucceeds(s: State, t: WaitableEntity, names: seq<string>, creations: seq<Creation>, n: nat)
    requires 0 < n <= |names| == |creations|
    requires SucceedsExactly(s, t, names, creations, n - 1)
    requires PrefixKnown(s, t, names, creations, n - 1, names[n - 1])
    ensures SucceedsExactly(s, t, names, creations, n)
  {
    var (s1, outcome) := MapUpTo(s, t, names, creations, n - 1);
    assert ObtainableUpTo(s, t, names, creations, n)
      <==> ObtainableUpTo(s, t, names, creations, n - 1) && Obtainable(s, t, names, creations, n - 1);
    if outcome.Pass? {
      MapFailsExactly(s1, t, n - 1, names[n - 1], creations[n - 1]);
    }
  }

  /** Every listener that the call needs can be had. */
  predicate AllObtainable(s: State, call: Call)
    requires call.Valid()
  {
    && ObtainableUpTo(s, GUARD_CONDITION, call.guardConditions, call.guardCreations, |call.guardConditions|)
    && ObtainableUpTo(s, SUBSCRIBER, call.subscribers, call.subscriberCreations, |call.subscribers|)
  }

  /** Mapping entities of one type does not touch the other type, whether it succeeds or fails. */
  lemma {:induction false} MapUpToLeavesOthers(s: State, t: WaitableEntity, names: seq<string>, creations: seq<Creation>, n: nat)
    requires n <= |names| == |creations|
    ensures OtherTypeUntouched(s, MapUpTo(s, t, names, creations, n).0, t)
    decreases n
  {
    if n > 0 {
      MapUpToLeavesOthers(s, t, names, creations, n - 1);
      LongerLeavesOthers(s, t, names, creations, n);
    }
  }

  lemma LongerLeavesOthers(s: State, t: WaitableEntity, names: seq<string>, creations: seq<Creation>, n: nat)
    requires 0 < n <= |names| == |creations| && OtherTypeUntouched(s, MapUpTo(s, t, names, creations, n - 1).0, t)
    ensures OtherTypeUntouched(s, MapUpTo(s, t, names, creations, n).0, t)
  {
    var (s1, outcome) := MapUpTo(s, t, names, creations, n - 1);
    if outcome.Pass? {
      MapLeavesOthers(s1, t, n - 1, names[n - 1], creations[n - 1]);
      UntouchedTransitively(s, s1, Map(s1, t, n - 1, names[n - 1], creations[n - 1]).0, t);
    }
  }

  lemma MapLeavesOthers(s: State, t: WaitableEntity, rmwIndex: nat, name: string, creation: Creation)
    ensures OtherTypeUntouched(s, Map(s, t, rmwIndex, name, creation).0, t)
  {
    var (s1, r) := GetStorageIndex(s, t, name, creation);
    if r.Ok? {
      StoringAddsToItsType(s1, t, r.value, rmwIndex);
    }
  }

  lemma SameTableSameObtainable(s: State, s': State, t: WaitableEntity, names: seq<string>, creations: seq<Creation>, n: nat)
    requires n <= |names| == |creations| && s'.Table(t) == s.Table(t)
    ensures ObtainableUpTo(s', t, names, creations, n) == ObtainableUpTo(s, t, names, creations, n)
  {
    assert forall i :: 0 <= i < n ==> Obtainable(s', t, names, creations, i) == Obtainable(s, t, names, creations, i);
  }

  lemma MapEntitiesSucceedsExactly(s: State, call: Call)
    requires call.Valid()
    ensures MapEntities(s, call).1.Pass? <==> AllObtainable(s, call)
  {
    var n, m := |call.guardConditions|, |call.subscribers|;
    MappingSucceedsExactly(s, GUARD_CONDITION, call.guardConditions, call.guardCreations, n);
    var s1 := MapUpTo(s, GUARD_CONDITION, call.guardConditions, call.guardCreations, n).0;
    MapUpToLeavesOthers(s, GUARD_CONDITION, call.guardConditions, call.guardCreations, n);
    assert s1.Table(SUBSCRIBER) == s.Table(SUBSCRIBER);
    SameTableSameObtainable(s, s1, SUBSCRIBER, call.subscribers, call.subscriberCreations, m);
    MappingSucceedsExactly(s1, SUBSCRIBER, call.subscribers, call.subscriberCreations, m);
  }

  lemma MapUpToFails(s: State, t: WaitableEntity, names: seq<string>, creations: seq<Creation>, n: nat)
    requires 0 < n <= |names| == |creations| && MapUpTo(s, t, names, creations, n - 1).1.Fail?
    ensures MapUpTo(s, t, names, creations, n) == MapUpTo(s, t, names, creations, n - 1)
  {
  }

  predicate SameAt(s: State, t: WaitableEntity, names: seq<string>, creations: seq<Creation>, k: nat, n: nat)
    requires k <= |names| == |creations| && n <= |names|
  {
    MapUpTo(s, t, names, creations, n) == MapUpTo(s, t, names, creations, k)
  }

  lemma {:induction false} MapUpToStaysFailed(s: State, t: WaitableEntity, names: seq<string>, creations: seq<Creation>, k: nat, n: nat)
    requires k <= n <= |names| == |creations| && MapUpTo(s, t, names, creations, k).1.Fail?
    ensures SameAt(s, t, names, creations, k, n)
    decreases n
  {
    if k < n {
      MapUpToStaysFailed(s, t, names, creations, k, n - 1);
      MapUpToFails(s, t, names, creations, n);
    }
  }

  /** Mapping stops at the first entity whose listener cannot be had, and leaves exactly what was mapped before
      it. */
  lemma MappingStopsAtFirstFailure(s: State, t: WaitableEntity, names: seq<string>, creations: seq<Creation>, n: nat, k: nat)
    requires k < n <= |names| == |creations|
    requires ObtainableUpTo(s, t, names, creations, k) && !Obtainable(s, t, names, creations, k)
    ensures MapUpTo(s, t, names, creations, k).1.Pass? && MapUpTo(s, t, names, creations, n).1.Fail?
    ensures MapUpTo(s, t, names, creations, n).0 == MapUpTo(s, t, names, creations, k).0
  {
    MappingSucceedsExactly(s, t, names, creations, k);
    StopsAt(s, t, names, creations, k);
    MapUpToStaysFailed(s, t, names, creations, k + 1, n);
  }

  lemma StopsAt(s: State, t: WaitableEntity, names: seq<string>, creations: seq<Creation>, k: nat)
    requires k < |names| == |creations| && MapUpTo(s, t, names, creations, k).1.Pass?
    requires !Obtainable(s, t, names, creations, k)
    ensures MapUpTo(s, t, names, creations, k + 1).1.Fail?
    ensures MapUpTo(s, t, names, creations, k + 1).0 == MapUpTo(s, t, names, creations, k).0
  {
    PrefixesKnown(s, t, names, creations, k, names[k]);
    MapFailsExactly(MapUpTo(s, t, names, creations, k).0, t, k, names[k], creations[k]);
  }

  /** Guard conditions come first: if one of them fails, what was mapped before it stays, and no subscriber was
      mapped and no listener made for one. */
  lemma GuardConditionsComeFirst(s: State, call: Call, k: nat)
    requires call.Valid() && k < |call.guardConditions|
    requires ObtainableUpTo(s, GUARD_CONDITION, call.guardConditions, call.guardCreations, k)
    requires !Obtainable(s, GUARD_CONDITION, call.guardConditions, call.guardCreations, k)
    ensures MapEntities(s, call).0 == MapUpTo(s, GUARD_CONDITION, call.guardConditions, call.guardCreations, k).0
    ensures MapEntities(s, call).0.subscribers == s.subscribers
    ensures OfType(MapEntities(s, call).0.mapping, SUBSCRIBER) == OfType(s.mapping, SUBSCRIBER)
  {
    var n := |call.guardConditions|;
    MappingStopsAtFirstFailure(s, GUARD_CONDITION, call.guardConditions, call.guardCreations, n, k);
    MapUpToLeavesOthers(s, GUARD_CONDITION, call.guardConditions, call.guardCreations, n);
    assert MapEntities(s, call).0.Table(SUBSCRIBER) == s.Table(SUBSCRIBER);
  }

  /** If a subscriber fails, all guard conditions and the subscribers before it stay mapped. */
  lemma SubscribersComeSecond(s: State, call: Call, k: nat)
    requires call.Valid() && k < |call.subscribers|
    requires ObtainableUpTo(s, GUARD_CONDITION, call.guardConditions, call.guardCreations, |call.guardConditions|)
    requires ObtainableUpTo(s, SUBSCRIBER, call.subscribers, call.subscriberCreations, k)
    requires !Obtainable(s, SUBSCRIBER, call.subscribers, call.subscriberCreations, k)
    ensures var s1 := MapUpTo(s, GUARD_CONDITION, call.guardConditions, call.guardCreations, |call.guardConditions|).0;
            MapEntities(s, call).0 == MapUpTo(s1, SUBSCRIBER, call.subscribers, call.subscriberCreations, k).0
  {
    var n, m := |call.guardConditions|, |call.subscribers|;
    MappingSucceedsExactly(s, GUARD_CONDITION, call.guardConditions, call.guardCreations, n);
    MapUpToLeavesOthers(s, GUARD_CONDITION, call.guardConditions, call.guardCreations, n);
    var s1 := MapUpTo(s, GUARD_CONDITION, call.guardConditions, call.guardCreations, n).0;
    assert s1.Table(SUBSCRIBER) == s.Table(SUBSCRIBER);
    SameTableSameObtainable(s, s1, SUBSCRIBER, call.subscribers, call.subscriberCreations, k);
    MappingStopsAtFirstFailure(s1, SUBSCRIBER, call.subscribers, call.subscriberCreations, m, k);
  }

  // ----- Waiting -------------------------------------------------------------------------------------

  /** There is something to wait for: a mapped listener, or time. */
  predicate HasReason(s: State, timeout: Timeout) {
    s.mapping != [] || timeout.POSITIVE_TIMEOUT?
  }

  /** The timer, if one is needed, and all mapped listeners can be attached. */
  predicate AllAttach(s: State, timeout: Timeout, env: WaitEnvironment) {
    (timeout.NO_TIMEOUT? || env.timeoutAttaches)
    && (env.failingAttachment.Some? ==> env.failingAttachment.value >= |s.mapping|)
  }

  /** What a wait answers, and when.  With nothing to wait for it returns at once, or fails if it would have to
      wait forever.  Otherwise it fails before it sleeps if something cannot be attached, and after it slept
      if iceoryx2 fails; and else it answers with the reports of the events before the timeout event, also
      if there are none.  What happens during the sleep stays, also if it fails; a wait that does not sleep
      changes nothing. */
  lemma WaitAnswersExactly(s: State, timeout: Timeout, env: WaitEnvironment)
    requires Inv(s)
    ensures var waited := Wait(s, timeout, env);
            var sleeps := HasReason(s, timeout) && AllAttach(s, timeout, env);
            (waited.result.Ok? <==> (!HasReason(s, timeout) && timeout.ZERO_TIMEOUT?) || (sleeps && env.completes))
            && (waited.result == Err(ATTACHMENT_FAILURE) <==> HasReason(s, timeout) && !AllAttach(s, timeout, env))
            && (waited.result == Err(WAIT_FAILURE) <==>
                  (!HasReason(s, timeout) && timeout.NO_TIMEOUT?) || (sleeps && !env.completes))
            && (waited.result.Ok? ==>
                  waited.result.value ==
                  if sleeps then Reports(s.mapping, BeforeTimeout(TimerOf(timeout, env), env.occurrences)) else [])
            && (waited.sleptOn.Some? <==> sleeps)
            && waited.state == (if sleeps then HandleAll(s, TimerOf(timeout, env), env.occurrences).0 else s)
  {
    AttachingFindsEveryListener(s, env.failingAttachment, 0);
    WaitReportsDrainedEvents(s, TimerOf(timeout, env), env.occurrences);
  }

  /** What processing a trigger answers, and when. */
  lemma TriggerAnswersExactly(s: State, t: WaitableEntity, i: nat, draining: Draining)
    ensures var (s', outcome) := ProcessTrigger(s, t, i, draining);
            (outcome == Fail(INVALID_STORAGE_INDEX) <==> |s.Table(t)| <= i)
            && (outcome == Fail(LISTENER_FAILURE) <==> i < |s.Table(t)| && draining.DRAIN_FAILED?)
            && (outcome.Pass? <==> i < |s.Table(t)| && draining.DRAINED?)
            && (outcome == Fail(INVALID_STORAGE_INDEX) ==> s' == s)
            && (outcome.Pass? ==> i < |s'.Table(t)| && s'.Table(t)[i].pending == 0)
  {
  }

  /** Draining only takes: after any occurrences a listener has at most what it had and got. */
  lemma WaitsNeverAddEvents(s: State, timer: Option<nat>, occurrences: seq<Occurrence>, t: WaitableEntity, i: nat)
    requires Inv(s) && i < |s.Table(t)|
    ensures var s' := HandleAll(s, timer, occurrences).0;
            i < |s'.Table(t)|
            && s'.Table(t)[i].pending <= s.Table(t)[i].pending + Arrivals(t, i, BeforeTimeout(timer, occurrences))
  {
    ListenersDoNotInterfere(s, timer, occurrences, t, i);
    PendingNeverAdded(s.Table(t)[i].pending, FindMapping(s.mapping, t, i).Some?, t, i, BeforeTimeout(timer, occurrences));
  }

  lemma {:induction false} PendingNeverAdded(pending: nat, mapped: bool, t: WaitableEntity, i: nat, occurrences: seq<Occurrence>)
    ensures PendingAfter(pending, mapped, t, i, occurrences) <= pending + Arrivals(t, i, occurrences)
    decreases |occurrences|
  {
    if occurrences != [] {
      PendingNeverAdded(PendingNext(pending, mapped, t, i, occurrences[0]), mapped, t, i, occurrences[1..]);
    }
  }

  // ----- The call --------------------------------------------------------------------------------------

  /** Mapping that succeeds leaves nothing mapped only if there was nothing, and nothing to map. */
  predicate MapsNothing(s: State, t: WaitableEntity, names: seq<string>, creations: seq<Creation>, n: nat)
    requires n <= |names| == |creations|
  {
    var (s', outcome) := MapUpTo(s, t, names, creations, n);
    outcome.Pass? ==> (s'.mapping == [] <==> s.mapping == [] && n == 0)
  }

  lemma {:induction false} NothingMapped(s: State, t: WaitableEntity, names: seq<string>, creations: seq<Creation>, n: nat)
    requires n <= |names| == |creations|
    ensures MapsNothing(s, t, names, creations, n)
    decreases n
  {
    if n > 0 {
      SomethingMapped(s, t, names, creations, n);
    }
  }

  lemma SomethingMapped(s: State, t: WaitableEntity, names: seq<string>, creations: seq<Creation>, n: nat)
    requires 0 < n <= |names| == |creations|
    ensures MapsNothing(s, t, names, creations, n)
  {
    var (s1, outcome) := MapUpTo(s, t, names, creations, n - 1);
    if outcome.Pass? {
      MapLeavesSomething(s1, t, n - 1, names[n - 1], creations[n - 1]);
    }
  }

  lemma MapLeavesSomething(s: State, t: WaitableEntity, rmwIndex: nat, name: string, creation: Creation)
    ensures Map(s, t, rmwIndex, name, creation).1.Pass? ==> Map(s, t, rmwIndex, name, creation).0.mapping != []
  {
  }

  /** When `rmw_wait` succeeds, from any valid wait set: every listener can be had; and either there is nothing to
      wait for and no time to do it, or there is something, everything attaches, and iceoryx2 completes the
      wait.  There is nothing to wait for exactly if both arrays are empty, nothing is left over, and there
      is no positive timeout.  A call that succeeds leaves nothing mapped, and one that fails leaves all
      that it had mapped. */
  lemma CallSucceedsExactly(s: State, call: Call)
    requires Inv(s) && call.Valid()
    ensures var mapped := MapEntities(s, call).0;
            var called := RmwWait(s, call);
            (called.rc in {OK, TIMEOUT} <==>
               AllObtainable(s, call)
               && if HasReason(mapped, call.timeout) then AllAttach(mapped, call.timeout, call.env) && call.env.completes
                  else call.timeout.ZERO_TIMEOUT?)
            && called.rc in {OK, TIMEOUT, ERROR}
            && (AllObtainable(s, call) ==>
                  (mapped.mapping == [] <==> s.mapping == [] && call.guardConditions == [] && call.subscribers == []))
            && called.state.mapping == (if called.rc in {OK, TIMEOUT} then [] else mapped.mapping)
            && (called.rc == OK <==> called.triggered != [])
            && (called.sleptOn.Some? <==>
                  AllObtainable(s, call) && HasReason(mapped, call.timeout) && AllAttach(mapped, call.timeout, call.env))
  {
    MapEntitiesSucceedsExactly(s, call);
    MapEntitiesKeepsInv(s, call);
    var mapped := MapEntities(s, call).0;
    WaitAnswersExactly(mapped, call.timeout, call.env);
    WaitKeepsInv(mapped, call.timeout, call.env);
    if MapEntities(s, call).1.Pass? {
      var n := |call.guardConditions|;
      NothingMapped(s, GUARD_CONDITION, call.guardConditions, call.guardCreations, n);
      var s1 := MapUpTo(s, GUARD_CONDITION, call.guardConditions, call.guardCreations, n).0;
      NothingMapped(s1, SUBSCRIBER, call.subscribers, call.subscriberCreations, |call.subscribers|);
    }
  }

  /** What a call leaves pending, whatever it returns: the listeners are those that it had mapped or found, and
      each holds what it held, changed by its own notifications and events before the timeout if the call
      slept. */
  lemma CallsLeavePendingExactly(s: State, call: Call, t: WaitableEntity, i: nat)
    requires Inv(s) && call.Valid() && i < |MapEntities(s, call).0.Table(t)|
    ensures var mapped, called := MapEntities(s, call).0, RmwWait(s, call);
            var before := mapped.Table(t)[i];
            |called.state.Table(t)| == |mapped.Table(t)|
            && called.state.Table(t)[i] ==
               if called.sleptOn.Some?
               then before.(pending := PendingAfter(before.pending, FindMapping(mapped.mapping, t, i).Some?, t, i,
                                                    BeforeTimeout(TimerOf(call.timeout, call.env), call.env.occurrences)))
               else before
  {
    MapEntitiesKeepsInv(s, call);
    var mapped := MapEntities(s, call).0;
    WaitAnswersExactly(mapped, call.timeout, call.env);
    HandleAllKeepsNames(mapped, TimerOf(call.timeout, call.env), call.env.occurrences);
    ListenersDoNotInterfere(mapped, TimerOf(call.timeout, call.env), call.env.occurrences, t, i);
    assert UnmapAll(Wait(mapped, call.timeout, call.env).state).Table(t) == Wait(mapped, call.timeout, call.env).state.Table(t);
  }
}
