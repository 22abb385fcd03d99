/** The wait set as the object that it is: listener tables, staged mappings, and the attachments of the
    underlying iceoryx2 wait set, updated in place by loops. */
module WaitSetClass {
  import opened Wrappers
  import opened WaitSetModel
  import opened WaitSetInvariant

  datatype CallbackProgression = STOP | CONTINUE

  /** An attachment that is held for the duration of one wait. */
  datatype AttachmentDetails = AttachmentDetails(id: AttachmentId, mapping: RmwMapping)

  /** The attachments of all mapped listeners, in order. */
  function AttachmentsOf(mapping: seq<RmwMapping>): (listeners: seq<AttachmentDetails>)
    ensures |listeners| == |mapping|
    ensures forall i :: 0 <= i < |mapping| ==> listeners[i] == AttachmentDetails(MappedIds(mapping)[i], mapping[i])
  {
    seq(|mapping|, i requires 0 <= i < |mapping| => AttachmentDetails(MappedIds(mapping)[i], mapping[i]))
  }

  /** `ids` in front of what a successful attaching gives. */
  function Prepend(ids: seq<AttachmentId>, r: Result<seq<AttachmentId>, WaitSetError>): Result<seq<AttachmentId>, WaitSetError> {
    match r
    case Ok(rest) => Ok(ids + rest)
    case Err(e) => Err(e)
  }

  lemma AttachingStarts(s: State, failing: Option<nat>)
    ensures Prepend(MappedIds(s.mapping)[..0], AttachFrom(s, failing, 0)) == AttachFrom(s, failing, 0)
  {
    var r := AttachFrom(s, failing, 0);
    if r.Ok? {
      assert MappedIds(s.mapping)[..0] + r.value == r.value;
    }
  }

  lemma AttachingContinues(s: State, failing: Option<nat>, k: nat)
    requires k < |s.mapping| && failing != Some(k)
    requires s.mapping[k].storageIndex < |s.Table(s.mapping[k].waitableType)|
    ensures Prepend(MappedIds(s.mapping)[..k], AttachFrom(s, failing, k))
         == Prepend(MappedIds(s.mapping)[..k + 1], AttachFrom(s, failing, k + 1))
  {
    var ids, r := MappedIds(s.mapping), AttachFrom(s, failing, k + 1);
    if r.Ok? {
      assert ids[..k] + ([ids[k]] + r.value) == ids[..k + 1] + r.value;
    }
  }

  lemma AttachingEnds(s: State, failing: Option<nat>)
    ensures MappedIds(s.mapping)[..|s.mapping|] == MappedIds(s.mapping)
    ensures AttachmentsOf(s.mapping)[..|s.mapping|] == AttachmentsOf(s.mapping)
    ensures Prepend(MappedIds(s.mapping), AttachFrom(s, failing, |s.mapping|)) == Ok(MappedIds(s.mapping))
  {
    assert MappedIds(s.mapping) + [] == MappedIds(s.mapping);
  }

  lemma AppendNext<T>(front: seq<T>, s: seq<T>, k: nat)
    requires k < |s|
    ensures s[..k] + [s[k]] == s[..k + 1]
    ensures front + s[..k] + [s[k]] == front + s[..k + 1]
  {
    assert s[..k] + [s[k]] == s[..k + 1];
  }

  /** The outcome of handling the occurrences from the `i`-th on, after `result` has been reported. */
  function Remaining(s: State, timer: Option<nat>, occurrences: seq<Occurrence>, i: nat, result: seq<TriggeredWaitable>)
    : (State, seq<TriggeredWaitable>)
    requires i <= |occurrences|
  {
    var (s', rest) := HandleAll(s, timer, occurrences[i..]);
    (s', result + rest)
  }

  lemma StartHandling(s: State, timer: Option<nat>, occurrences: seq<Occurrence>)
    ensures Remaining(s, timer, occurrences, 0, []) == HandleAll(s, timer, occurrences)
  {
    assert occurrences[0..] == occurrences;
    var all := HandleAll(s, timer, occurrences).1;
    assert [] + all == all;
  }

  lemma HandlingStops(s: State, timer: Option<nat>, occurrences: seq<Occurrence>, i: nat, result: seq<TriggeredWaitable>)
    requires i <= |occurrences| && (i < |occurrences| ==> IsTimeout(timer, occurrences[i]))
    ensures Remaining(s, timer, occurrences, i, result) == (s, result)
  {
    assert result + [] == result;
  }

  lemma HandlingContinues(s: State, timer: Option<nat>, occurrences: seq<Occurrence>, i: nat, result: seq<TriggeredWaitable>)
    requires i < |occurrences| && !IsTimeout(timer, occurrences[i])
    ensures var (s', triggered) := Handle(s, occurrences[i]);
            Remaining(s, timer, occurrences, i, result) == Remaining(s', timer, occurrences, i + 1, result + triggered)
  {
    var (s', triggered) := Handle(s, occurrences[i]);
    assert occurrences[i..][1..] == occurrences[i + 1..];
    var rest := HandleAll(s', timer, occurrences[i + 1..]).1;
    assert result + triggered + rest == result + (triggered + rest);
  }

  class WaitSet {
    var guardConditionListeners: seq<ListenerDetails>
    var subscriberListeners: seq<ListenerDetails>
    var mapping: seq<RmwMapping>
    /** What the underlying iceoryx2 wait set currently watches. */
    var attached: seq<AttachmentId>

    ghost function Abs(): State
      reads this
    {
      State(guardConditionListeners, subscriberListeners, mapping)
    }

    constructor ()
      ensures Abs() == EMPTY && attached == []
    {
      guardConditionListeners, subscriberListeners, mapping, attached := [], [], [], [];
    }

    function ListenerStorage(t: WaitableEntity): (table: seq<ListenerDetails>)
      reads this
      ensures table == Abs().Table(t)
    {
      if t == GUARD_CONDITION then guardConditionListeners else subscriberListeners
    }

    method SetListenerStorage(t: WaitableEntity, table: seq<ListenerDetails>)
      modifies `guardConditionListeners, `subscriberListeners
      ensures Abs() == old(Abs()).WithTable(t, table)
    {
      if t == GUARD_CONDITION {
        guardConditionListeners := table;
      } else {
        subscriberListeners := table;
      }
    }

    method GetStorageIndex(t: WaitableEntity, name: string, creation: Creation) returns (r: Result<nat, WaitSetError>)
      modifies `guardConditionListeners, `subscriberListeners
      ensures (Abs(), r) == WaitSetModel.GetStorageIndex(old(Abs()), t, name, creation)
    {
      var storage := ListenerStorage(t);
      var it := 0;
      while it < |storage| && storage[it].serviceName != name
        invariant it <= |storage|
        invariant forall i :: 0 <= i < it ==> storage[i].serviceName != name
      {
        it := it + 1;
      }
      if it == |storage| {
        match creation
        case SERVICE_FAILS => return Err(SERVICE_CREATION_FAILURE);
        case LISTENER_FAILS => return Err(LISTENER_CREATION_FAILURE);
        case CREATED =>
          SetListenerStorage(t, storage + [ListenerDetails(name, 0)]);
          return Ok(|storage|);
      } else {
        assert FindListener(storage, name) == Some(it);
        return Ok(it);
      }
    }

    method MapStoredListener(t: WaitableEntity, storageIndex: nat, rmwIndex: nat)
      modifies `mapping
      ensures Abs() == WaitSetModel.MapStoredListener(old(Abs()), t, storageIndex, rmwIndex)
    {
      var it := 0;
      while it < |mapping| && !(mapping[it].waitableType == t && mapping[it].storageIndex == storageIndex)
        invariant it <= |mapping|
        invariant forall i :: 0 <= i < it ==> !(mapping[i].waitableType == t && mapping[i].storageIndex == storageIndex)
      {
        it := it + 1;
      }
      if it == |mapping| {
        mapping := mapping + [RmwMapping(t, storageIndex, rmwIndex)];
      }
    }

    method Map(t: WaitableEntity, rmwIndex: nat, name: string, creation: Creation) returns (outcome: Outcome<WaitSetError>)
      modifies `guardConditionListeners, `subscriberListeners, `mapping
      ensures (Abs(), outcome) == WaitSetModel.Map(old(Abs()), t, rmwIndex, name, creation)
    {
      var result := GetStorageIndex(t, name, creation);
      match result
      case Err(e) => return Fail(e);
      case Ok(storageIndex) =>
        MapStoredListener(t, storageIndex, rmwIndex);
        return Pass;
    }

    method UnmapAll()
      modifies `mapping
      ensures Abs() == WaitSetModel.UnmapAll(old(Abs()))
    {
      mapping := [];
    }

    /** Attach the listener of one mapping, if it is stored and iceoryx2 agrees. */
    method AttachMappedListener(staged: RmwMapping, fails: bool) returns (outcome: Outcome<WaitSetError>)
      modifies `attached
      ensures outcome == if |Abs().Table(staged.waitableType)| <= staged.storageIndex then Fail(INVALID_STORAGE_INDEX)
                         else if fails then Fail(ATTACHMENT_FAILURE) else Pass
      ensures attached == if outcome.Pass? then old(attached) + [IdOf(staged)] else old(attached)
    {
      if |ListenerStorage(staged.waitableType)| <= staged.storageIndex {
        return Fail(INVALID_STORAGE_INDEX);
      }
      if fails {
        return Fail(ATTACHMENT_FAILURE);
      }
      attached := attached + [IdOf(staged)];
      outcome := Pass;
    }

    /** Attach every mapped listener, or stop at the first that cannot be attached. */
    method AttachMappedListeners(failing: Option<nat>)
      returns (outcome: Outcome<WaitSetError>, listeners: seq<AttachmentDetails>)
      modifies `attached
      ensures AttachFrom(Abs(), failing, 0) == if outcome.Fail? then Err(outcome.error) else Ok(MappedIds(mapping))
      ensures outcome.Pass? ==> attached == old(attached) + MappedIds(mapping) && listeners == AttachmentsOf(mapping)
    {
      listeners := [];
      AttachingStarts(Abs(), failing);
      for k := 0 to |mapping|
        invariant listeners == AttachmentsOf(mapping)[..k]
        invariant attached == old(attached) + MappedIds(mapping)[..k]
        invariant AttachFrom(Abs(), failing, 0) == Prepend(MappedIds(mapping)[..k], AttachFrom(Abs(), failing, k))
      {
        outcome := AttachMappedListener(mapping[k], failing == Some(k));
        if outcome.Fail? {
          return;
        }
        listeners := listeners + [AttachmentDetails(IdOf(mapping[k]), mapping[k])];
        AppendNext(old(attached), MappedIds(mapping), k);
        AppendNext([], AttachmentsOf(mapping), k);
        AttachingContinues(Abs(), failing, k);
      }
      AttachingEnds(Abs(), failing);
      outcome := Pass;
    }

    /** Drain all events of one stored listener; how many there were does not matter. */
    method ProcessTrigger(t: WaitableEntity, storageIndex: nat, draining: Draining) returns (outcome: Outcome<WaitSetError>)
      modifies `guardConditionListeners, `subscriberListeners
      ensures (Abs(), outcome) == WaitSetModel.ProcessTrigger(old(Abs()), t, storageIndex, draining)
    {
      var storage := ListenerStorage(t);
      if |storage| <= storageIndex {
        return Fail(INVALID_STORAGE_INDEX);
      }
      var listener := storage[storageIndex];
      SetListenerStorage(t, storage[storageIndex := listener.(pending := Drain(listener.pending, draining))]);
      if draining.DRAIN_FAILED? {
        return Fail(LISTENER_FAILURE);
      }
      outcome := Pass;
    }

    /** The event callback. */
    method OnEvent(timer: Option<nat>, listeners: seq<AttachmentDetails>, result: seq<TriggeredWaitable>,
                   id: AttachmentId, draining: Draining)
      returns (progression: CallbackProgression, result': seq<TriggeredWaitable>)
      requires listeners == AttachmentsOf(mapping)
      modifies `guardConditionListeners, `subscriberListeners
      ensures progression == if IsTimeout(timer, Event(id, draining)) then STOP else CONTINUE
      ensures progression == STOP ==> Abs() == old(Abs()) && result' == result
      ensures progression == CONTINUE ==>
                Abs() == Handle(old(Abs()), Event(id, draining)).0
                && result' == result + Handle(old(Abs()), Event(id, draining)).1
    {
      if timer.Some? && id == Tick(timer.value) {
        return STOP, result;
      }
      for k := 0 to |listeners|
        invariant Abs() == old(Abs())
        invariant forall i :: 0 <= i < k ==> listeners[i].id != id
      {
        if listeners[k].id == id {
          var staged := listeners[k].mapping;
          assert FindMapping(mapping, staged.waitableType, staged.storageIndex) == Some(k) by {
            assert forall i :: 0 <= i < k ==> MappedIds(mapping)[i] != id;
          }
          var outcome := ProcessTrigger(staged.waitableType, staged.storageIndex, draining);
          if outcome.Fail? {
            return CONTINUE, result;
          }
          return CONTINUE, result + [TriggeredWaitable(staged.waitableType, staged.rmwIndex)];
        }
      }
      if id.Notification? {
        assert FindMapping(mapping, id.waitableType, id.storageIndex) == None by {
          var found := FindMapping(mapping, id.waitableType, id.storageIndex);
          assert forall k :: 0 <= k < |mapping| ==> listeners[k].id == MappedIds(mapping)[k] != id;
        }
      }
      return CONTINUE, result;
    }

    /** One thing that happens during a wait: a notification arrives, or iceoryx2 calls back. */
    method Occur(timer: Option<nat>, listeners: seq<AttachmentDetails>, result: seq<TriggeredWaitable>, occurrence: Occurrence)
      returns (progression: CallbackProgression, result': seq<TriggeredWaitable>)
      requires listeners == AttachmentsOf(mapping)
      modifies `guardConditionListeners, `subscriberListeners
      ensures progression == if IsTimeout(timer, occurrence) then STOP else CONTINUE
      ensures progression == STOP ==> Abs() == old(Abs()) && result' == result
      ensures progression == CONTINUE ==>
                Abs() == Handle(old(Abs()), occurrence).0 && result' == result + Handle(old(Abs()), occurrence).1
    {
      match occurrence
      case Notified(t, k) =>
        var storage := ListenerStorage(t);
        if k < |storage| {
          SetListenerStorage(t, storage[k := storage[k].(pending := storage[k].pending + 1)]);
        }
        return CONTINUE, result;
      case Event(id, draining) =>
        progression, result' := OnEvent(timer, listeners, result, id, draining);
    }

    /** The callbacks of one wait, interleaved with the notifications that arrive meanwhile. */
    method WaitAndProcessOnce(timer: Option<nat>, listeners: seq<AttachmentDetails>, occurrences: seq<Occurrence>)
      returns (result: seq<TriggeredWaitable>)
      requires attached != []
      requires listeners == AttachmentsOf(mapping)
      modifies `guardConditionListeners, `subscriberListeners
      ensures (Abs(), result) == HandleAll(old(Abs()), timer, occurrences)
    {
      result := [];
      StartHandling(Abs(), timer, occurrences);
      for i := 0 to |occurrences|
        invariant HandleAll(old(Abs()), timer, occurrences) == Remaining(Abs(), timer, occurrences, i, result)
      {
        ghost var before, reported := Abs(), result;
        var progression;
        progression, result := Occur(timer, listeners, result, occurrences[i]);
        if progression == STOP {
          HandlingStops(before, timer, occurrences, i, reported);
          return;
        }
        HandlingContinues(before, timer, occurrences, i, reported);
      }
      HandlingStops(Abs(), timer, occurrences, |occurrences|, result);
    }

    /** Everything attached for a wait is detached again when it returns, whichever way it returns. */
    method Wait(timeout: Timeout, env: WaitEnvironment)
      returns (result: Result<seq<TriggeredWaitable>, WaitSetError>, ghost sleptOn: Option<seq<AttachmentId>>)
      requires attached == []
      modifies this
      ensures attached == []
      ensures Waited(Abs(), result, sleptOn) == WaitSetModel.Wait(old(Abs()), timeout, env)
    {
      sleptOn := None;
      if mapping == [] {
        if timeout == ZERO_TIMEOUT {
          return Ok([]), None;
        }
        if timeout == NO_TIMEOUT {
          return Err(WAIT_FAILURE), None;
        }
      }
      var timer: Option<nat> := None;
      if timeout != NO_TIMEOUT {
        if !env.timeoutAttaches {
          return Err(ATTACHMENT_FAILURE), None;
        }
        timer := Some(env.timer);
        attached := [Tick(env.timer)];
      }
      var outcome, listeners := AttachMappedListeners(env.failingAttachment);
      if outcome.Fail? {
        attached := [];
        return Err(outcome.error), None;
      }
      sleptOn := Some(attached);
      var triggered := WaitAndProcessOnce(timer, listeners, env.occurrences);
      attached := [];
      result := if env.completes then Ok(triggered) else Err(WAIT_FAILURE);
    }
  }
}
