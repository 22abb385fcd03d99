/** `rmw_wait` on the caller's arrays, which it overwrites in place. */
module RmwWaitEntry {
  import opened Wrappers
  import opened WaitSetModel
  import opened WaitSetClass
  import opened WaitSetInvariant
  import opened WaitSetMeaning
  import opened WaitSetAnswers
  import opened RmwWaitMeaning

  /** A subscription or guard condition, as far as waiting is concerned. */
  datatype Waitable = Waitable(serviceName: string)

  /** The slots of an array that the caller may leave out. */
  function Slots<T>(a: array?<Option<T>>): seq<Option<T>>
    reads a
  {
    if a == null then [] else a[..]
  }

  predicate NoNulls<T>(slots: seq<Option<T>>) {
    forall i :: 0 <= i < |slots| ==> slots[i].Some?
  }

  function ServiceNames(slots: seq<Option<Waitable>>): (names: seq<string>)
    requires NoNulls(slots)
    ensures |names| == |slots| && forall i :: 0 <= i < |names| ==> names[i] == slots[i].value.serviceName
  {
    seq(|slots|, i requires 0 <= i < |slots| => slots[i].value.serviceName)
  }

  /** What becomes of one array: untouched unless something was triggered, and otherwise all slots but
      the triggered ones are nulled. */
  function Kept<T>(slots: seq<Option<T>>, t: WaitableEntity, called: Called): (kept: seq<Option<T>>)
    ensures |kept| == |slots|
  {
    if called.rc != OK then slots
    else seq(|slots|, i requires 0 <= i < |slots| => if TriggeredWaitable(t, i) in called.triggered then slots[i] else None)
  }

  function AllNull<T>(n: nat): seq<Option<T>> {
    seq(n, _ => None)
  }

  /** The arrays that are passed are different objects. */
  predicate Apart(a: object?, b: object?, c: object?, d: object?, e: object?) {
    && (a != null ==> a != b && a != c && a != d && a != e)
    && (b != null ==> b != c && b != d && b != e)
    && (c != null ==> c != d && c != e)
    && (d != null ==> d != e)
  }

  method HasNull<T>(a: array?<Option<T>>) returns (found: bool)
    ensures found <==> !NoNulls(Slots(a))
  {
    if a != null {
      for index := 0 to a.Length
        invariant forall i :: 0 <= i < index ==> a[i].Some?
      {
        if a[index].None? {
          assert Slots(a)[index].None?;
          return true;
        }
      }
    }
    found := false;
  }

  /** Map every entity of an array to its index. */
  method MapAll(ws: WaitSet, t: WaitableEntity, a: array?<Option<Waitable>>, creations: seq<Creation>)
    returns (outcome: Outcome<WaitSetError>)
    requires NoNulls(Slots(a)) && |creations| == |Slots(a)|
    modifies ws`guardConditionListeners, ws`subscriberListeners, ws`mapping
    ensures (ws.Abs(), outcome) == MapUpTo(old(ws.Abs()), t, ServiceNames(Slots(a)), creations, |creations|)
  {
    if a != null {
      for index := 0 to a.Length
        invariant (ws.Abs(), Pass) == MapUpTo(old(ws.Abs()), t, ServiceNames(Slots(a)), creations, index)
      {
        assert a[index] == Slots(a)[index];
        outcome := ws.Map(t, index, a[index].value.serviceName, creations[index]);
        if outcome.Fail? {
          MapUpToStaysFailed(old(ws.Abs()), t, ServiceNames(Slots(a)), creations, index + 1, |creations|);
          return;
        }
      }
    }
    outcome := Pass;
  }

  /** The triggered indices of one type. */
  method Collect(triggers: seq<TriggeredWaitable>, t: WaitableEntity) returns (indices: set<nat>)
    ensures forall i: nat :: i in indices <==> TriggeredWaitable(t, i) in triggers
  {
    indices := {};
    for k := 0 to |triggers|
      invariant forall i: nat :: i in indices <==> TriggeredWaitable(t, i) in triggers[..k]
    {
      if triggers[k].waitableType == t {
        indices := indices + {triggers[k].rmwIndex};
      }
      assert triggers[..k + 1] == triggers[..k] + [triggers[k]];
    }
    assert triggers[..|triggers|] == triggers;
  }

  /** Null every slot whose index is not in the set. */
  method NullOutAllBut<T>(a: array?<Option<T>>, indices: set<nat>)
    modifies a
    ensures |Slots(a)| == |old(Slots(a))|
    ensures forall i :: 0 <= i < |Slots(a)| ==> Slots(a)[i] == if i in indices then old(Slots(a))[i] else None
  {
    if a != null {
      for index := 0 to a.Length
        invariant forall i :: 0 <= i < index ==> a[i] == if i in indices then old(a[i]) else None
        invariant forall i :: index <= i < a.Length ==> a[i] == old(a[i])
      {
        if index !in indices {
          a[index] := None;
        }
      }
    }
  }

  /** Null every slot. */
  method NullOut<T>(a: array?<Option<T>>)
    modifies a
    ensures Slots(a) == AllNull(|old(Slots(a))|)
  {
    NullOutAllBut(a, {});
  }

  /** The wait-set half of the call: map both arrays, wait, and reset the mapping if that succeeded. */
  method MapAndWait(ws: WaitSet, subscriptions: array?<Option<Waitable>>, guardConditions: array?<Option<Waitable>>, call: Call)
    returns (rc: ReturnCode, triggers: seq<TriggeredWaitable>)
    requires ws.attached == []
    requires NoNulls(Slots(subscriptions)) && NoNulls(Slots(guardConditions)) && call.Valid()
    requires call.guardConditions == ServiceNames(Slots(guardConditions))
    requires call.subscribers == ServiceNames(Slots(subscriptions))
    modifies ws
    ensures ws.attached == []
    ensures var called := WaitSetModel.RmwWait(old(ws.Abs()), call);
            ws.Abs() == called.state && rc == called.rc && triggers == called.triggered
  {
    triggers := [];
    var outcome := MapAll(ws, GUARD_CONDITION, guardConditions, call.guardCreations);
    if outcome.Fail? {
      return ERROR, [];
    }
    outcome := MapAll(ws, SUBSCRIBER, subscriptions, call.subscriberCreations);
    if outcome.Fail? {
      return ERROR, [];
    }
    var result, sleptOn := ws.Wait(call.timeout, call.env);
    if result.Err? {
      return ERROR, [];
    }
    ws.UnmapAll();
    triggers := result.value;
    rc := if triggers == [] then TIMEOUT else OK;
  }

  /** Null everything that was not triggered, unless nothing was. */
  method NullOutUntriggered(subscriptions: array?<Option<Waitable>>, guardConditions: array?<Option<Waitable>>,
                            ghost called: Called, triggers: seq<TriggeredWaitable>)
    requires Apart(subscriptions, guardConditions, null, null, null)
    requires triggers == called.triggered && (called.rc == OK <==> triggers != [])
    modifies subscriptions, guardConditions
    ensures Slots(subscriptions) == Kept(old(Slots(subscriptions)), SUBSCRIBER, called)
    ensures Slots(guardConditions) == Kept(old(Slots(guardConditions)), GUARD_CONDITION, called)
  {
    if triggers != [] {
      var triggeredSubscribers := Collect(triggers, SUBSCRIBER);
      var triggeredGuardConditions := Collect(triggers, GUARD_CONDITION);
      NullOutAllBut(subscriptions, triggeredSubscribers);
      NullOutAllBut(guardConditions, triggeredGuardConditions);
    }
  }

  /** Null everything that can never be triggered. */
  method NullOutUnsupported(events: array?<Option<nat>>, services: array?<Option<nat>>, clients: array?<Option<nat>>)
    requires Apart(events, services, clients, null, null)
    modifies events, services, clients
    ensures Slots(events) == AllNull(|old(Slots(events))|)
    ensures Slots(services) == AllNull(|old(Slots(services))|)
    ensures Slots(clients) == AllNull(|old(Slots(clients))|)
  {
    NullOut(events);
    NullOut(services);
    NullOut(clients);
  }

  /** `call.guardCreations`, `call.subscriberCreations` and `call.env` are what iceoryx2 does during the
      call; the rest of `call` repeats the arguments. */
  method RmwWait(ws: WaitSet, subscriptions: array?<Option<Waitable>>, guardConditions: array?<Option<Waitable>>,
                 services: array?<Option<nat>>, clients: array?<Option<nat>>, events: array?<Option<nat>>, call: Call)
    returns (rc: ReturnCode)
    requires ws.attached == []
    requires Apart(subscriptions, guardConditions, services, clients, events)
    requires NoNulls(Slots(subscriptions)) && NoNulls(Slots(guardConditions)) ==>
               call.Valid() && call.guardConditions == ServiceNames(Slots(guardConditions))
               && call.subscribers == ServiceNames(Slots(subscriptions))
    modifies ws, subscriptions, guardConditions, services, clients, events
    ensures ws.attached == []
    ensures rc == INVALID_ARGUMENT <==> !old(NoNulls(Slots(subscriptions)) && NoNulls(Slots(guardConditions)))
    ensures rc == INVALID_ARGUMENT ==> ws.Abs() == old(ws.Abs())
    ensures rc == INVALID_ARGUMENT ==> Slots(subscriptions) == old(Slots(subscriptions))
    ensures rc == INVALID_ARGUMENT ==> Slots(guardConditions) == old(Slots(guardConditions))
    ensures rc != INVALID_ARGUMENT ==>
              var called := WaitSetModel.RmwWait(old(ws.Abs()), call);
              ws.Abs() == called.state && rc == called.rc
              && Slots(subscriptions) == Kept(old(Slots(subscriptions)), SUBSCRIBER, called)
              && Slots(guardConditions) == Kept(old(Slots(guardConditions)), GUARD_CONDITION, called)
    ensures rc != OK ==> Slots(subscriptions) == old(Slots(subscriptions)) && Slots(guardConditions) == old(Slots(guardConditions))
    ensures rc in {OK, TIMEOUT} ==> Slots(services) == AllNull(|old(Slots(services))|)
    ensures rc in {OK, TIMEOUT} ==> Slots(clients) == AllNull(|old(Slots(clients))|)
    ensures rc in {OK, TIMEOUT} ==> Slots(events) == AllNull(|old(Slots(events))|)
    ensures rc !in {OK, TIMEOUT} ==> Slots(services) == old(Slots(services)) && Slots(clients) == old(Slots(clients))
    ensures rc !in {OK, TIMEOUT} ==> Slots(events) == old(Slots(events))
  {
    var badGuards := HasNull(guardConditions);
    if badGuards {
      return INVALID_ARGUMENT;
    }
    var badSubscriptions := HasNull(subscriptions);
    if badSubscriptions {
      return INVALID_ARGUMENT;
    }
    ghost var called := WaitSetModel.RmwWait(ws.Abs(), call);
    var triggers;
    rc, triggers := MapAndWait(ws, subscriptions, guardConditions, call);
    if rc == ERROR {
      return;
    }
    NullOutUntriggered(subscriptions, guardConditions, called, triggers);
    NullOutUnsupported(events, services, clients);
  }

  /** What the caller finds in its arrays after an OK: the slot at `i` is kept exactly when `i` is the
      first slot with its service name and an event of that listener came before any timeout event and
      was drained; every other slot is null. */
  lemma KeptSlotsMeanReadiness(s: State, call: Call, t: WaitableEntity, slots: seq<Option<Waitable>>, i: nat)
    requires Inv(s) && s.mapping == [] && call.Valid() && WaitSetModel.RmwWait(s, call).rc == OK
    requires NoNulls(slots) && ServiceNames(slots) == call.Names(t) && i < |slots|
    ensures var called := WaitSetModel.RmwWait(s, call);
            Kept(slots, t, called)[i] ==
            if FirstOccurrence(call.Names(t), i) && EventDrained(called.state, call, t, call.Names(t)[i]) then slots[i] else None
  {
    TriggeredMeansFirstAndDrained(s, call, t, i);
  }
}
