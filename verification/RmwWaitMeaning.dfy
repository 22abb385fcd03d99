/** What a whole `rmw_wait` call, and a run of such calls, mean to the caller. */
module RmwWaitMeaning {
  import opened Wrappers
  import opened WaitSetModel
  import opened WaitSetInvariant
  import opened WaitSetMeaning

  // ----- One call ------------------------------------------------------------------------------

  /** The events that this call delivers before a timeout event. */
  function Delivered(call: Call): seq<Occurrence> {
    BeforeTimeout(TimerOf(call.timeout, call.env), call.env.occurrences)
  }

  /** One of the events belongs to that listener and is drained. */
  predicate DrainedAmong(events: seq<Occurrence>, t: WaitableEntity, storageIndex: nat) {
    Event(Notification(t, storageIndex), DRAINED) in events
  }

  /** One of the delivered events belongs to the listener of `name` and is drained. */
  predicate EventDrained(s: State, call: Call, t: WaitableEntity, name: string) {
    var listener := FindListener(s.Table(t), name);
    listener.Some? && DrainedAmong(Delivered(call), t, listener.value)
  }

  lemma MapEntitiesMeaning(s: State, call: Call)
    requires Inv(s) && s.mapping == [] && call.Valid()
    requires MapEntities(s, call).1.Pass?
    ensures var mapped := MapEntities(s, call).0;
            Inv(mapped) && forall t :: MapsFirstOccurrences(mapped, t, call.Names(t))
  {
    var n, m := |call.guardConditions|, |call.subscribers|;
    var s1 := MapUpTo(s, GUARD_CONDITION, call.guardConditions, call.guardCreations, n).0;
    MappingKeepsFirstOccurrences(s, GUARD_CONDITION, call.guardConditions, call.guardCreations);
    MapUpToInv(s, GUARD_CONDITION, call.guardConditions, call.guardCreations, n);
    var s2 := MapUpTo(s1, SUBSCRIBER, call.subscribers, call.subscriberCreations, m).0;
    MappingKeepsFirstOccurrences(s1, SUBSCRIBER, call.subscribers, call.subscriberCreations);
    MapUpToInv(s1, SUBSCRIBER, call.subscribers, call.subscriberCreations, m);
    assert MapsFirstOccurrences(s2, GUARD_CONDITION, call.guardConditions);
  }

  lemma InReports(mapping: seq<RmwMapping>, p: seq<Occurrence>, t: WaitableEntity, i: nat) returns (m: RmwMapping)
    requires TriggeredWaitable(t, i) in Reports(mapping, p)
    ensures m in mapping && m.waitableType == t && m.rmwIndex == i && DrainedAmong(p, t, m.storageIndex)
  {
    var j :| 0 <= j < |p| && Reported(mapping, p[j]).Some?
             && TriggeredWaitable(t, i) == TriggeredWaitable(Reported(mapping, p[j]).value.waitableType,
                                                             Reported(mapping, p[j]).value.rmwIndex);
    m := Reported(mapping, p[j]).value;
    assert p[j] == Event(Notification(t, m.storageIndex), DRAINED);
  }

  lemma DrainedIsReported(mapping: seq<RmwMapping>, p: seq<Occurrence>, m: RmwMapping)
    requires MappingsDistinct(mapping) && m in mapping && DrainedAmong(p, m.waitableType, m.storageIndex)
    ensures TriggeredWaitable(m.waitableType, m.rmwIndex) in Reports(mapping, p)
  {
    OnlyMappingOfListener(mapping, m);
    var j :| 0 <= j < |p| && p[j] == Event(Notification(m.waitableType, m.storageIndex), DRAINED);
    assert Reported(mapping, p[j]) == Some(m);
  }

  /** An index is among the reports exactly when it is a first occurrence and an event of its listener
      is drained. */
  lemma ReportedIndices(s: State, t: WaitableEntity, names: seq<string>, p: seq<Occurrence>, i: nat)
    requires Inv(s) && MapsFirstOccurrences(s, t, names)
    ensures TriggeredWaitable(t, i) in Reports(s.mapping, p)
            <==> i < |names| && FirstOccurrence(names, i) && FindListener(s.Table(t), names[i]).Some?
                 && DrainedAmong(p, t, FindListener(s.Table(t), names[i]).value)
  {
    if TriggeredWaitable(t, i) in Reports(s.mapping, p) {
      var m := InReports(s.mapping, p, t, i);
      InOfType(s.mapping, t, m);
      InFirstOccurrences(s.Table(t), t, names, m);
    }
    if i < |names| && FirstOccurrence(names, i) && FindListener(s.Table(t), names[i]).Some?
       && DrainedAmong(p, t, FindListener(s.Table(t), names[i]).value) {
      var m := RmwMapping(t, FindListener(s.Table(t), names[i]).value, i);
      InFirstOccurrences(s.Table(t), t, names, m);
      InOfType(s.mapping, t, m);
      DrainedIsReported(s.mapping, p, m);
    }
  }

  lemma OnlyMappingOfListener(mapping: seq<RmwMapping>, m: RmwMapping)
    requires MappingsDistinct(mapping) && m in mapping
    ensures FindMapping(mapping, m.waitableType, m.storageIndex).Some?
    ensures mapping[FindMapping(mapping, m.waitableType, m.storageIndex).value] == m
  {
    var k :| 0 <= k < |mapping| && mapping[k] == m;
    OnlyMappingIsFound(mapping, k);
  }

  /** The meaning of `rmw_wait`, called with nothing mapped: if it returns OK or TIMEOUT, index `i` of an
      array is triggered exactly when `i` is the least index with its service name and an event of that
      listener was delivered before any timeout event and drained.  TIMEOUT means that nothing is. */
  lemma TriggeredMeansFirstAndDrained(s: State, call: Call, t: WaitableEntity, i: nat)
    requires Inv(s) && s.mapping == [] && call.Valid()
    ensures var called := RmwWait(s, call);
            called.rc in {OK, TIMEOUT} ==>
              (TriggeredWaitable(t, i) in called.triggered
               <==> i < |call.Names(t)| && FirstOccurrence(call.Names(t), i)
                    && EventDrained(called.state, call, t, call.Names(t)[i]))
              && (called.rc == TIMEOUT <==> called.triggered == [])
  {
    if RmwWait(s, call).rc in {OK, TIMEOUT} {
      var mapped := MapEntities(s, call).0;
      MapEntitiesMeaning(s, call);
      var names := call.Names(t);
      assert MapsFirstOccurrences(mapped, t, names);
      var timer := TimerOf(call.timeout, call.env);
      ReportedIndices(mapped, t, names, Delivered(call), i);
      WaitReportsDrainedEvents(mapped, timer, call.env.occurrences);
      WaitKeepsInv(mapped, call.timeout, call.env);
      var waited := Wait(mapped, call.timeout, call.env).state;
      if i < |names| {
        SameNamesFindTheSame(mapped.Table(t), waited.Table(t), names[i]);
        assert UnmapAll(waited).Table(t) == waited.Table(t);
        if mapped.mapping == [] {
          var first := FirstIndex(names, names[i]);
          InFirstOccurrences(mapped.Table(t), t, names, RmwMapping(t, FindListener(mapped.Table(t), names[i]).value, first));
        }
      }
    }
  }

  // ----- Runs of calls -----------------------------------------------------------------------------

  predicate AllValid(calls: seq<Call>) {
    forall k :: 0 <= k < |calls| ==> calls[k].Valid()
  }

  function StateBefore(s: State, calls: seq<Call>, k: nat): State
    requires k <= |calls| && AllValid(calls)
  {
    if k == 0 then s else RmwWait(StateBefore(s, calls, k - 1), calls[k - 1]).state
  }

  predicate Succeeds(s: State, call: Call)
    requires call.Valid()
  {
    RmwWait(s, call).rc in {OK, TIMEOUT}
  }

  /** The first `k` calls all returned OK or TIMEOUT. */
  predicate SucceededSoFar(s: State, calls: seq<Call>, k: nat)
    requires k <= |calls| && AllValid(calls)
  {
    k == 0 || (SucceededSoFar(s, calls, k - 1) && Succeeds(StateBefore(s, calls, k - 1), calls[k - 1]))
  }

  /** If the first `k` calls succeeded, nothing is mapped when the next one starts. */
  predicate CleanAtEntry(s: State, calls: seq<Call>, k: nat)
    requires k <= |calls| && AllValid(calls)
  {
    SucceededSoFar(s, calls, k) ==> Clean(StateBefore(s, calls, k))
  }

  lemma {:induction false} NothingMappedAtEntry(s: State, calls: seq<Call>, k: nat)
    requires Clean(s) && k <= |calls| && AllValid(calls)
    ensures CleanAtEntry(s, calls, k)
    decreases k
  {
    if k > 0 {
      NothingMappedAtEntry(s, calls, k - 1);
      NothingMappedAfter(s, calls, k);
    }
  }

  lemma NothingMappedAfter(s: State, calls: seq<Call>, k: nat)
    requires 0 < k <= |calls| && AllValid(calls) && CleanAtEntry(s, calls, k - 1)
    ensures CleanAtEntry(s, calls, k)
  {
    if SucceededSoFar(s, calls, k) {
      SuccessUnmaps(StateBefore(s, calls, k - 1), calls[k - 1]);
    }
  }

  /** A valid wait set with nothing mapped. */
  predicate Clean(s: State) {
    Inv(s) && s.mapping == []
  }

  lemma SuccessUnmaps(s: State, call: Call)
    requires Clean(s) && call.Valid() && Succeeds(s, call)
    ensures Clean(RmwWait(s, call).state)
  {
    RmwWaitKeepsInv(s, call);
  }

  /** In a run of calls that all returned OK or TIMEOUT so far, each call starts with nothing mapped, and
      every index it reports lies inside the array passed in that call. */
  lemma ReportedIndicesAreFresh(s: State, calls: seq<Call>, k: nat, w: TriggeredWaitable)
    requires Clean(s) && k < |calls| && AllValid(calls)
    ensures SucceededSoFar(s, calls, k) ==>
              StateBefore(s, calls, k).mapping == []
              && (w in RmwWait(StateBefore(s, calls, k), calls[k]).triggered ==> w.rmwIndex < |calls[k].Names(w.waitableType)|)
  {
    NothingMappedAtEntry(s, calls, k);
    if SucceededSoFar(s, calls, k) {
      IndexInRange(StateBefore(s, calls, k), calls[k], w);
    }
  }

  lemma IndexInRange(s: State, call: Call, w: TriggeredWaitable)
    requires Inv(s) && s.mapping == [] && call.Valid()
    ensures w in RmwWait(s, call).triggered ==> w.rmwIndex < |call.Names(w.waitableType)|
  {
    if RmwWait(s, call).rc in {OK, TIMEOUT} {
      TriggeredMeansFirstAndDrained(s, call, w.waitableType, w.rmwIndex);
    }
  }

  /** After a call that returned an error this fails: the mappings of the failed call survive into the
      next one and keep their old indices.  Here the first call maps "A" at 0 and "B" at 1 and then
      fails on "C"; the second passes only "B", returns OK, and reports index 1 of a one-element array. */
  lemma StaleMappingMisreports()
    ensures RmwWait(EMPTY, STALE_FIRST).rc == ERROR
    ensures RmwWait(RmwWait(EMPTY, STALE_FIRST).state, STALE_SECOND).rc == OK
    ensures RmwWait(RmwWait(EMPTY, STALE_FIRST).state, STALE_SECOND).triggered == [TriggeredWaitable(SUBSCRIBER, 1)]
  {
    FirstCallFails();
    SecondCallMisreports();
  }

  const STALE_ENV := WaitEnvironment(true, 0, None, [Event(Notification(SUBSCRIBER, 1), DRAINED)], true)
  const STALE_FIRST := Call([], ["A", "B", "C"], NO_TIMEOUT, [], [CREATED, CREATED, SERVICE_FAILS], STALE_ENV)
  const STALE_SECOND := Call([], ["B"], NO_TIMEOUT, [], [CREATED], STALE_ENV)

  /** What the failed call leaves behind. */
  const STALE_STATE := State([], [ListenerDetails("A", 0), ListenerDetails("B", 0)],
                             [RmwMapping(SUBSCRIBER, 0, 0), RmwMapping(SUBSCRIBER, 1, 1)])

  lemma FirstCallFails()
    ensures RmwWait(EMPTY, STALE_FIRST) == Called(STALE_STATE, ERROR, [], None)
  {
    var names, creations := STALE_FIRST.subscribers, STALE_FIRST.subscriberCreations;
    var a, b := ListenerDetails("A", 0), ListenerDetails("B", 0);
    var s1 := State([], [a], [RmwMapping(SUBSCRIBER, 0, 0)]);
    assert EMPTY.subscribers + [a] == s1.subscribers && s1.subscribers + [b] == STALE_STATE.subscribers;
    assert EMPTY.mapping + [RmwMapping(SUBSCRIBER, 0, 0)] == s1.mapping;
    assert s1.mapping + [RmwMapping(SUBSCRIBER, 1, 1)] == STALE_STATE.mapping;
    assert MapUpTo(EMPTY, SUBSCRIBER, names, creations, 1) == (s1, Pass);
    assert MapUpTo(EMPTY, SUBSCRIBER, names, creations, 2) == (STALE_STATE, Pass);
    assert FindListener(STALE_STATE.subscribers, "C") == None;
  }

  lemma SecondCallMapsNothing()
    ensures MapEntities(STALE_STATE, STALE_SECOND) == (STALE_STATE, Pass)
  {
    assert STALE_STATE.subscribers[1].serviceName == "B";
    assert STALE_STATE.mapping[1].storageIndex == 1;
    assert Map(STALE_STATE, SUBSCRIBER, 0, "B", CREATED) == (STALE_STATE, Pass);
    assert MapUpTo(STALE_STATE, SUBSCRIBER, ["B"], [CREATED], 1) == (STALE_STATE, Pass);
  }

  lemma SecondCallMisreports()
    ensures RmwWait(STALE_STATE, STALE_SECOND).rc == OK
    ensures RmwWait(STALE_STATE, STALE_SECOND).triggered == [TriggeredWaitable(SUBSCRIBER, 1)]
  {
    SecondCallMapsNothing();
    assert Inv(STALE_STATE);
    AttachingFindsEveryListener(STALE_STATE, None, 0);
    WaitReportsDrainedEvents(STALE_STATE, None, STALE_ENV.occurrences);
    assert Reported(STALE_STATE.mapping, STALE_ENV.occurrences[0]) == Some(RmwMapping(SUBSCRIBER, 1, 1));
    assert BeforeTimeout(None, STALE_ENV.occurrences) == STALE_ENV.occurrences;
  }
}
