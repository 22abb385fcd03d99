/** What a call that returned an error leaves behind, and exactly when that is harmless to the next one. */
module LeftOvers {
  import opened Wrappers
  import opened WaitSetModel
  import opened WaitSetInvariant
  import opened WaitSetMeaning
  import opened RmwWaitMeaning

  // ----- The two conditions ----------------------------------------------------------------------

  /** What the caller of `rmw_wait` relies on: if the call returns OK or TIMEOUT, exactly those entities are
      triggered that come first with their service name and whose event was drained in time. */
  ghost predicate Trustworthy(s: State, call: Call)
    requires call.Valid()
  {
    var called := RmwWait(s, call);
    called.rc in {OK, TIMEOUT} ==>
      forall t, i: nat :: TriggeredWaitable(t, i) in called.triggered <==> Ready(called.state, call, t, i)
  }

  predicate Ready(s: State, call: Call, t: WaitableEntity, i: nat) {
    i < |call.Names(t)| && FirstOccurrence(call.Names(t), i) && EventDrained(s, call, t, call.Names(t)[i])
  }

  /** A mapping leads from a listener to the place where the listener's name first stands in the array. */
  predicate Fits(s: State, call: Call, m: RmwMapping) {
    var names := call.Names(m.waitableType);
    && m.storageIndex < |s.Table(m.waitableType)|
    && m.rmwIndex < |names| && FirstOccurrence(names, m.rmwIndex)
    && names[m.rmwIndex] == s.Table(m.waitableType)[m.storageIndex].serviceName
  }

  /** Every mapping that is left over is one that this call would make itself. */
  predicate LeftOversFit(s: State, call: Call) {
    forall k :: 0 <= k < |s.mapping| ==> Fits(s, call, s.mapping[k])
  }

  // ----- Mapping keeps the fit ---------------------------------------------------------------------

  lemma FitsInGrown(s: State, s': State, call: Call, m: RmwMapping)
    requires Grows(s, s') && Fits(s, call, m)
    ensures Fits(s', call, m)
  {
    var t := m.waitableType;
    assert NamesOf(s.Table(t)) <= NamesOf(s'.Table(t));
    assert NamesOf(s'.Table(t))[m.storageIndex] == NamesOf(s.Table(t))[m.storageIndex];
  }

  /** Mapping entity `n` of its array keeps the fit, if all entities before it are mapped. */
  lemma MapKeepsFit(s: State, call: Call, t: WaitableEntity, n: nat, creation: Creation)
    requires Inv(s) && LeftOversFit(s, call) && n < |call.Names(t)|
    requires call.Names(t)[n] in call.Names(t)[..n] ==> ReportedUnder(s, t, call.Names(t)[n]).Some?
    ensures LeftOversFit(Map(s, t, n, call.Names(t)[n], creation).0, call)
  {
    var name := call.Names(t)[n];
    var s' := Map(s, t, n, name, creation).0;
    MapKeepsInv(s, t, n, name, creation);
    GetStorageIndexKeepsInv(s, t, name, creation);
    GetStorageIndexKeepsReports(s, t, name, creation, name);
    forall k | 0 <= k < |s'.mapping| ensures Fits(s', call, s'.mapping[k]) {
      if k < |s.mapping| {
        assert s'.mapping[k] == s.mapping[k];
        FitsInGrown(s, s', call, s.mapping[k]);
      }
    }
  }

  lemma {:induction false} MapUpToKeepsFit(s: State, call: Call, t: WaitableEntity, creations: seq<Creation>, n: nat)
    requires Inv(s) && LeftOversFit(s, call) && n <= |call.Names(t)| == |creations|
    ensures LeftOversFit(MapUpTo(s, t, call.Names(t), creations, n).0, call)
    decreases n
  {
    if n > 0 {
      MapUpToKeepsFit(s, call, t, creations, n - 1);
      FitOneMore(s, call, t, creations, n);
    }
  }

  lemma FitOneMore(s: State, call: Call, t: WaitableEntity, creations: seq<Creation>, n: nat)
    requires Inv(s) && 0 < n <= |call.Names(t)| == |creations|
    requires LeftOversFit(MapUpTo(s, t, call.Names(t), creations, n - 1).0, call)
    ensures LeftOversFit(MapUpTo(s, t, call.Names(t), creations, n).0, call)
  {
    var names := call.Names(t);
    var (s1, outcome) := MapUpTo(s, t, names, creations, n - 1);
    if outcome.Pass? {
      MapUpToInv(s, t, names, creations, n - 1);
      PrefixesGiveOwners(s, t, names, creations, n - 1, names[n - 1]);
      MapKeepsFit(s1, call, t, n - 1, creations[n - 1]);
    }
  }

  /** The mapping phase keeps the fit, whether it passes or fails. */
  lemma MapEntitiesKeepsFit(s: State, call: Call)
    requires Inv(s) && call.Valid() && LeftOversFit(s, call)
    ensures LeftOversFit(MapEntities(s, call).0, call)
  {
    MapUpToKeepsFit(s, call, GUARD_CONDITION, call.guardCreations, |call.guardConditions|);
    var s1 := MapUpTo(s, GUARD_CONDITION, call.guardConditions, call.guardCreations, |call.guardConditions|).0;
    MapUpToInv(s, GUARD_CONDITION, call.guardConditions, call.guardCreations, |call.guardConditions|);
    MapUpToKeepsFit(s1, call, SUBSCRIBER, call.subscriberCreations, |call.subscribers|);
  }

  // ----- Every entity is mapped somewhere ------------------------------------------------------------

  lemma MappedStaysMapped(s: State, s': State, t: WaitableEntity, name: string)
    requires Extends(s, s') && ReportedUnder(s, t, name).Some?
    ensures ReportedUnder(s', t, name).Some?
  {
    assert NamesOf(s.Table(t)) <= NamesOf(s'.Table(t)) && UniqueNames(s'.Table(t));
    FoundStaysFound(s.Table(t), s'.Table(t), name);
    var k := FindMapping(s.mapping, t, FindListener(s.Table(t), name).value).value;
    assert s'.mapping[k] == s.mapping[k];
  }

  lemma EveryEntityIsMapped(s: State, call: Call, t: WaitableEntity, i: nat)
    requires Inv(s) && call.Valid() && MapEntities(s, call).1.Pass? && i < |call.Names(t)|
    ensures ReportedUnder(MapEntities(s, call).0, t, call.Names(t)[i]).Some?
  {
    var name := call.Names(t)[i];
    var s1 := MapUpTo(s, GUARD_CONDITION, call.guardConditions, call.guardCreations, |call.guardConditions|).0;
    MapUpToInv(s, GUARD_CONDITION, call.guardConditions, call.guardCreations, |call.guardConditions|);
    if t == GUARD_CONDITION {
      MappingGivesOwners(s, t, call.guardConditions, call.guardCreations, name);
      MapUpToKeepsInv(s1, SUBSCRIBER, call.subscribers, call.subscriberCreations, |call.subscribers|);
      MappedStaysMapped(s1, MapEntities(s, call).0, t, name);
    } else {
      MappingGivesOwners(s1, t, call.subscribers, call.subscriberCreations, name);
    }
  }

  // ----- The fit is enough -----------------------------------------------------------------------------

  /** Two fitting mappings of one listener have the same index, so a fitting wait set reports each drained
      listener where its name comes first. */
  lemma FittingReportsAreReady(s: State, call: Call, p: seq<Occurrence>, t: WaitableEntity, i: nat)
    requires Inv(s) && LeftOversFit(s, call)
    requires i < |call.Names(t)| ==> ReportedUnder(s, t, call.Names(t)[i]).Some?
    ensures TriggeredWaitable(t, i) in Reports(s.mapping, p)
            <==> i < |call.Names(t)| && FirstOccurrence(call.Names(t), i)
                 && FindListener(s.Table(t), call.Names(t)[i]).Some?
                 && DrainedAmong(p, t, FindListener(s.Table(t), call.Names(t)[i]).value)
  {
    var names := call.Names(t);
    if TriggeredWaitable(t, i) in Reports(s.mapping, p) {
      var m := InReports(s.mapping, p, t, i);
      assert Fits(s, call, m);
      assert UniqueNames(s.Table(t));
      OnlyListenerIsFound(s.Table(t), m.storageIndex);
    }
    if i < |names| && FirstOccurrence(names, i) && FindListener(s.Table(t), names[i]).Some?
       && DrainedAmong(p, t, FindListener(s.Table(t), names[i]).value) {
      var listener := FindListener(s.Table(t), names[i]).value;
      var m := s.mapping[FindMapping(s.mapping, t, listener).value];
      assert Fits(s, call, m);
      SameFirstOccurrence(names, i, m.rmwIndex);
      DrainedIsReported(s.mapping, p, m);
    }
  }

  lemma SameFirstOccurrence(names: seq<string>, i: nat, j: nat)
    requires i < |names| && j < |names| && FirstOccurrence(names, i) && FirstOccurrence(names, j) && names[i] == names[j]
    ensures i == j
  {
    if j < i {
      NotTheFirst(names, i, j);
    } else if i < j {
      NotTheFirst(names, j, i);
    }
  }

  lemma NotTheFirst(names: seq<string>, i: nat, j: nat)
    requires j < i < |names| && names[i] == names[j]
    ensures !FirstOccurrence(names, i)
  {
    assert names[..i][j] == names[i];
  }

  /** What a call that returns OK or TIMEOUT has triggered, in terms of the mapping that it worked with. */
  lemma TriggeredIsReported(s: State, call: Call)
    requires Inv(s) && call.Valid() && RmwWait(s, call).rc in {OK, TIMEOUT}
    ensures var mapped := MapEntities(s, call).0;
            Inv(mapped) && (mapped.mapping != [] ==> RmwWait(s, call).triggered == Reports(mapped.mapping, Delivered(call)))
            && (mapped.mapping == [] ==> RmwWait(s, call).triggered == [] && Reports(mapped.mapping, Delivered(call)) == [])
  {
    MapEntitiesKeepsInv(s, call);
    var mapped := MapEntities(s, call).0;
    WaitReportsDrainedEvents(mapped, TimerOf(call.timeout, call.env), call.env.occurrences);
    if mapped.mapping == [] {
      NothingToReport(Delivered(call));
    }
  }

  lemma {:induction false} NothingToReport(p: seq<Occurrence>)
    ensures Reports([], p) == []
  {
    if p != [] {
      NothingToReport(p[1..]);
    }
  }

  lemma ListenersStayFound(s: State, call: Call, t: WaitableEntity, name: string)
    requires Inv(s) && call.Valid() && RmwWait(s, call).rc in {OK, TIMEOUT}
    ensures FindListener(RmwWait(s, call).state.Table(t), name) == FindListener(MapEntities(s, call).0.Table(t), name)
  {
    MapEntitiesKeepsInv(s, call);
    var mapped := MapEntities(s, call).0;
    WaitKeepsInv(mapped, call.timeout, call.env);
    var waited := Wait(mapped, call.timeout, call.env).state;
    assert UnmapAll(waited).Table(t) == waited.Table(t);
    SameNamesFindTheSame(mapped.Table(t), waited.Table(t), name);
  }

  lemma FittingCallIsTrustworthy(s: State, call: Call)
    requires Inv(s) && call.Valid() && LeftOversFit(s, call)
    ensures Trustworthy(s, call)
  {
    if RmwWait(s, call).rc in {OK, TIMEOUT} {
      var mapped := MapEntities(s, call).0;
      TriggeredIsReported(s, call);
      MapEntitiesKeepsFit(s, call);
      forall t, i: nat
        ensures TriggeredWaitable(t, i) in RmwWait(s, call).triggered <==> Ready(RmwWait(s, call).state, call, t, i)
      {
        if i < |call.Names(t)| {
          EveryEntityIsMapped(s, call, t, i);
          ListenersStayFound(s, call, t, call.Names(t)[i]);
        }
        FittingReportsAreReady(mapped, call, Delivered(call), t, i);
      }
    }
  }

  // ----- And it is needed --------------------------------------------------------------------------------

  /** The environment in which everything works and one listener has an event. */
  function OneEvent(t: WaitableEntity, i: nat): WaitEnvironment {
    WaitEnvironment(true, 0, None, [Event(Notification(t, i), DRAINED)], true)
  }

  /** If the event of a left-over mapping is reported rightly, the mapping fits. */
  lemma TrustworthyMappingFits(s: State, call: Call, k: nat)
    requires Inv(s) && call.Valid() && MapEntities(s, call).1.Pass? && k < |s.mapping|
    requires call.env == OneEvent(s.mapping[k].waitableType, s.mapping[k].storageIndex)
    requires Trustworthy(s, call)
    ensures Fits(s, call, s.mapping[k])
  {
    var m := s.mapping[k];
    var mapped := MapEntities(s, call).0;
    MapEntitiesKeepsMappings(s, call);
    assert mapped.mapping[k] == m;
    OneEventSucceeds(mapped, call, m);
    TriggeredIsReported(s, call);
    DrainedIsReported(mapped.mapping, Delivered(call), m);
    assert TriggeredWaitable(m.waitableType, m.rmwIndex) in RmwWait(s, call).triggered;
    ReadyMappingFits(s, call, m);
  }

  lemma ReadyMappingFits(s: State, call: Call, m: RmwMapping)
    requires Inv(s) && call.Valid() && m in s.mapping
    requires Delivered(call) == [Event(Notification(m.waitableType, m.storageIndex), DRAINED)]
    ensures RmwWait(s, call).rc in {OK, TIMEOUT} && Ready(RmwWait(s, call).state, call, m.waitableType, m.rmwIndex)
            ==> Fits(s, call, m)
  {
    if RmwWait(s, call).rc in {OK, TIMEOUT} && Ready(RmwWait(s, call).state, call, m.waitableType, m.rmwIndex) {
      var name := call.Names(m.waitableType)[m.rmwIndex];
      ListenersStayFound(s, call, m.waitableType, name);
      MapEntitiesKeepsInv(s, call);
      NameOfGrown(s, MapEntities(s, call).0, m.waitableType, m.storageIndex, name);
    }
  }

  lemma NameOfGrown(s: State, s': State, t: WaitableEntity, i: nat, name: string)
    requires Grows(s, s') && i < |s.Table(t)| && FindListener(s'.Table(t), name) == Some(i)
    ensures s.Table(t)[i].serviceName == name
  {
    assert NamesOf(s.Table(t)) <= NamesOf(s'.Table(t));
    assert NamesOf(s'.Table(t))[i] == NamesOf(s.Table(t))[i];
  }

  lemma MapEntitiesKeepsMappings(s: State, call: Call)
    requires Inv(s) && call.Valid()
    ensures Inv(MapEntities(s, call).0) && Grows(s, MapEntities(s, call).0) && s.mapping <= MapEntities(s, call).0.mapping
  {
    MapEntitiesKeepsInv(s, call);
    MapUpToKeepsInv(s, GUARD_CONDITION, call.guardConditions, call.guardCreations, |call.guardConditions|);
    var s1 := MapUpTo(s, GUARD_CONDITION, call.guardConditions, call.guardCreations, |call.guardConditions|).0;
    MapUpToKeepsInv(s1, SUBSCRIBER, call.subscribers, call.subscriberCreations, |call.subscribers|);
  }

  lemma OneEventSucceeds(mapped: State, call: Call, m: RmwMapping)
    requires Inv(mapped) && m in mapped.mapping && call.env == OneEvent(m.waitableType, m.storageIndex)
    ensures Wait(mapped, call.timeout, call.env).result.Ok?
    ensures Delivered(call) == [Event(Notification(m.waitableType, m.storageIndex), DRAINED)]
  {
    AttachingFindsEveryListener(mapped, None, 0);
    var event := Event(Notification(m.waitableType, m.storageIndex), DRAINED);
    assert !IsTimeout(TimerOf(call.timeout, call.env), event);
    assert BeforeTimeout(TimerOf(call.timeout, call.env), [event][1..]) == [];
  }

  /** When a call can be trusted, in a wait set that may have been left in any state by earlier calls: for
      everything that iceoryx2 may do during the wait, exactly if every mapping that is left over leads
      from its listener to the first place of that listener's name in the array of this call.  A caller
      can tell without knowing the wait set: the call that failed had the same name first at the same
      index. */
  lemma CallsAreTrustworthyExactly(s: State, call: Call)
    requires Inv(s) && call.Valid() && MapEntities(s, call).1.Pass?
    ensures (forall env :: Trustworthy(s, call.(env := env))) <==> LeftOversFit(s, call)
  {
    if LeftOversFit(s, call) {
      forall env ensures Trustworthy(s, call.(env := env)) {
        assert forall m :: Fits(s, call.(env := env), m) == Fits(s, call, m);
        FittingCallIsTrustworthy(s, call.(env := env));
      }
    }
    if forall env :: Trustworthy(s, call.(env := env)) {
      forall k | 0 <= k < |s.mapping| ensures Fits(s, call, s.mapping[k]) {
        var env := OneEvent(s.mapping[k].waitableType, s.mapping[k].storageIndex);
        assert Trustworthy(s, call.(env := env));
        assert MapEntities(s, call.(env := env)) == MapEntities(s, call);
        TrustworthyMappingFits(s, call.(env := env), k);
      }
    }
  }

  // ----- Trying again ------------------------------------------------------------------------------------

  /** Two calls that are passed the same arrays. */
  predicate SameArrays(a: Call, b: Call) {
    a.guardConditions == b.guardConditions && a.subscribers == b.subscribers
  }

  lemma SameArraysFit(s: State, s': State, a: Call, b: Call)
    requires LeftOversFit(s, a) && SameArrays(a, b) && Grows(s, s') && (s'.mapping == s.mapping || s'.mapping == [])
    ensures LeftOversFit(s', b)
  {
    forall k | 0 <= k < |s'.mapping| ensures Fits(s', b, s'.mapping[k]) {
      assert Fits(s, a, s.mapping[k]);
      FitsInGrown(s, s', a, s.mapping[k]);
      assert a.Names(s.mapping[k].waitableType) == b.Names(s.mapping[k].waitableType);
    }
  }

  lemma CallKeepsFit(s: State, a: Call, b: Call)
    requires Inv(s) && a.Valid() && LeftOversFit(s, a) && SameArrays(a, b)
    ensures Inv(RmwWait(s, a).state) && LeftOversFit(RmwWait(s, a).state, b)
  {
    RmwWaitKeepsInv(s, a);
    MapEntitiesKeepsInv(s, a);
    MapEntitiesKeepsFit(s, a);
    var mapped := MapEntities(s, a).0;
    WaitKeepsInv(mapped, a.timeout, a.env);
    var waited := Wait(mapped, a.timeout, a.env).state;
    UnmapAllKeepsInv(waited);
    GrowsTransitively(mapped, waited, UnmapAll(waited));
    assert Grows(mapped, mapped);
    SameArraysFit(mapped, RmwWait(s, a).state, a, b);
  }

  /** Retrying is safe: in a run of calls that all pass the same arrays, whatever fails in them and however
      often, every call that returns OK or TIMEOUT can be trusted. */
  lemma RetryingIsSafe(s: State, calls: seq<Call>, k: nat)
    requires Inv(s) && AllValid(calls) && k < |calls|
    requires forall j :: 0 <= j < |calls| ==> SameArrays(calls[j], calls[k])
    requires LeftOversFit(s, calls[k])
    ensures Trustworthy(StateBefore(s, calls, k), calls[k])
  {
    FitAtEntry(s, calls, k, calls[k]);
    FittingCallIsTrustworthy(StateBefore(s, calls, k), calls[k]);
  }

  lemma {:induction false} FitAtEntry(s: State, calls: seq<Call>, k: nat, call: Call)
    requires Inv(s) && AllValid(calls) && k <= |calls| && LeftOversFit(s, call)
    requires forall j :: 0 <= j < |calls| ==> SameArrays(calls[j], call)
    ensures Inv(StateBefore(s, calls, k)) && LeftOversFit(StateBefore(s, calls, k), call)
    decreases k
  {
    if k > 0 {
      FitAtEntry(s, calls, k - 1, call);
      RetryKeepsFit(StateBefore(s, calls, k - 1), calls[k - 1], call);
    }
  }

  lemma RetryKeepsFit(s: State, a: Call, b: Call)
    requires Inv(s) && a.Valid() && LeftOversFit(s, b) && SameArrays(a, b)
    ensures Inv(RmwWait(s, a).state) && LeftOversFit(RmwWait(s, a).state, b)
  {
    assert Grows(s, s);
    SameArraysFit(s, s, b, a);
    CallKeepsFit(s, a, b);
  }
}
