/** Publishers, one wait set and its readers as one system of interleaved steps: messages are sent and
    then notified, events are drained and then reported, and readers take.  The wait set is the one of
    `WaitSetModel`; any number of publishers and readers act between any two of its steps. */
module WakeUp {
  import opened Wrappers
  import opened Buffers
  import opened WaitSetModel
  import opened WaitSetInvariant

  type Reader = nat
  type Message = nat

  /** The service each reader is subscribed to. */
  type Topics = map<Reader, string>

  /** Where the thread that calls `rmw_wait` is. */
  datatype Phase =
    | Outside
    | Mapping(subs: seq<Reader>, next: nat)
    | Blocked(subs: seq<Reader>, triggers: seq<TriggeredWaitable>)

  /** `inFlight` holds the service of every publisher that has sent and not yet notified; `mapped` the
      readers that were ever mapped; `unfinished` those that were mapped for the first time or reported
      ready, and have not found their buffer empty since. */
  datatype World = World(waitset: State, buffers: map<Reader, seq<Message>>, inFlight: multiset<string>,
                         mapped: set<Reader>, unfinished: set<Reader>, phase: Phase)

  datatype Step =
    | Send(service: string, message: Message)
    | SendNotifies(service: string)
    | SendFailsToNotify(service: string)
    | TriggerGuardCondition(name: string)
    | Enter(readers: seq<Reader>)
    | MapGuardCondition(index: nat, name: string, creation: Creation)
    | MapNext(creation: Creation)
    | Block
    | Deliver(id: AttachmentId, draining: Draining)
    | Leave
    | LeaveWithError
    | Take(reader: Reader)

  // ----- Steps -----------------------------------------------------------------------------------

  function NotifyService(s: State, t: WaitableEntity, name: string): State {
    match FindListener(s.Table(t), name)
    case None => s
    case Some(i) => Notify(s, t, i)
  }

  /** The readers whose slots the call keeps. */
  function ReportedReaders(subs: seq<Reader>, triggers: seq<TriggeredWaitable>): set<Reader> {
    set k | 0 <= k < |triggers| && triggers[k].waitableType == SUBSCRIBER && triggers[k].rmwIndex < |subs|
      :: subs[triggers[k].rmwIndex]
  }

  /** The world after a step, if the step is possible.  Guard conditions may be mapped at any moment of
      the mapping phase, and callbacks may come after a timeout event: both allow more than the code. */
  function Next(topics: Topics, w: World, step: Step): Option<World> {
    match step
    case Send(service, m) =>
      Some(w.(buffers := map r | r in w.buffers :: if r in topics && topics[r] == service then Push(w.buffers[r], m) else w.buffers[r],
              inFlight := w.inFlight + multiset{service}))
    case SendNotifies(service) =>
      if service !in w.inFlight then None
      else Some(w.(waitset := NotifyService(w.waitset, SUBSCRIBER, service), inFlight := w.inFlight - multiset{service}))
    case SendFailsToNotify(service) =>
      if service !in w.inFlight then None else Some(w.(inFlight := w.inFlight - multiset{service}))
    case TriggerGuardCondition(name) =>
      Some(w.(waitset := NotifyService(w.waitset, GUARD_CONDITION, name)))
    case Enter(subs) =>
      if w.phase.Outside? && forall r :: r in subs ==> r in topics then Some(w.(phase := Mapping(subs, 0))) else None
    case MapGuardCondition(index, name, creation) =>
      if !w.phase.Mapping? then None
      else
        var (s, outcome) := Map(w.waitset, GUARD_CONDITION, index, name, creation);
        Some(w.(waitset := s, phase := if outcome.Pass? then w.phase else Outside))
    case MapNext(creation) =>
      if !w.phase.Mapping? || |w.phase.subs| <= w.phase.next || w.phase.subs[w.phase.next] !in topics then None
      else
        var r := w.phase.subs[w.phase.next];
        var (s, outcome) := Map(w.waitset, SUBSCRIBER, w.phase.next, topics[r], creation);
        if outcome.Fail? then Some(w.(waitset := s, phase := Outside))
        else Some(w.(waitset := s, mapped := w.mapped + {r},
                     unfinished := if r in w.mapped then w.unfinished else w.unfinished + {r},
                     phase := Mapping(w.phase.subs, w.phase.next + 1)))
    case Block =>
      if w.phase.Mapping? && w.phase.next == |w.phase.subs| then Some(w.(phase := Blocked(w.phase.subs, []))) else None
    case Deliver(id, draining) =>
      if !w.phase.Blocked? then None
      else
        var (s, triggered) := Handle(w.waitset, Event(id, draining));
        Some(w.(waitset := s, phase := Blocked(w.phase.subs, w.phase.triggers + triggered)))
    case Leave =>
      if !w.phase.Blocked? then None
      else Some(w.(waitset := UnmapAll(w.waitset), phase := Outside,
                   unfinished := w.unfinished + ReportedReaders(w.phase.subs, w.phase.triggers)))
    case LeaveWithError =>
      if w.phase.Outside? then None else Some(w.(phase := Outside))
    case Take(r) =>
      if r !in w.buffers then None
      else if w.buffers[r] == [] then Some(w.(unfinished := w.unfinished - {r}))
      else Some(w.(buffers := w.buffers[r := w.buffers[r][1..]]))
  }

  function Initial(topics: Topics): World {
    World(EMPTY, map r | r in topics :: [], multiset{}, {}, {}, Outside)
  }

  /** The world after a run, if every step of it is possible. */
  function After(topics: Topics, w: World, steps: seq<Step>): Option<World>
    decreases |steps|
  {
    if steps == [] then Some(w)
    else
      match Next(topics, w, steps[0])
      case None => None
      case Some(w') => After(topics, w', steps[1..])
  }

  // ----- The property ------------------------------------------------------------------------------

  function PendingOf(s: State, name: string): nat {
    match FindListener(s.subscribers, name)
    case None => 0
    case Some(i) => s.subscribers[i].pending
  }

  predicate AboutToBeReported(w: World, r: Reader) {
    w.phase.Blocked? && r in ReportedReaders(w.phase.subs, w.phase.triggers)
  }

  /** If there are messages for the reader, someone or something still knows: a publisher that is about
      to notify, the listener, the wait that is about to report, or the reader itself. */
  predicate Covered(topics: Topics, w: World, r: Reader)
    requires r in topics && r in w.buffers
  {
    || w.buffers[r] == []
    || topics[r] in w.inFlight
    || PendingOf(w.waitset, topics[r]) > 0
    || AboutToBeReported(w, r)
    || r in w.unfinished
  }

  predicate NoWakeUpLost(topics: Topics, w: World) {
    forall r :: r in w.mapped && r in topics && r in w.buffers ==> Covered(topics, w, r)
  }

  predicate OneReaderPerService(topics: Topics) {
    forall a, b :: a in topics && b in topics && topics[a] == topics[b] ==> a == b
  }

  // ----- Invariant -----------------------------------------------------------------------------------

  /** Every subscriber mapping leads back to a reader of its listener's service. */
  predicate MappingsLeadBack(topics: Topics, s: State, subs: seq<Reader>) {
    forall k :: 0 <= k < |s.mapping| && s.mapping[k].waitableType == SUBSCRIBER ==>
      && s.mapping[k].rmwIndex < |subs| && subs[s.mapping[k].rmwIndex] in topics
      && s.mapping[k].storageIndex < |s.subscribers|
      && topics[subs[s.mapping[k].rmwIndex]] == s.subscribers[s.mapping[k].storageIndex].serviceName
  }

  predicate HasMappedListener(s: State, name: string) {
    match FindListener(s.subscribers, name)
    case None => false
    case Some(i) => FindMapping(s.mapping, SUBSCRIBER, i).Some?
  }

  predicate AllMapped(topics: Topics, s: State, readers: seq<Reader>) {
    forall k :: 0 <= k < |readers| ==> readers[k] in topics && HasMappedListener(s, topics[readers[k]])
  }

  predicate PhaseOk(topics: Topics, w: World) {
    match w.phase
    case Outside => true
    case Mapping(subs, next) =>
      next <= |subs| && MappingsLeadBack(topics, w.waitset, subs) && AllMapped(topics, w.waitset, subs[..next])
    case Blocked(subs, _) =>
      MappingsLeadBack(topics, w.waitset, subs) && AllMapped(topics, w.waitset, subs)
  }

  /** Failures that do no harm.  Listeners may fail to be created, and a drain may fail if it leaves an event
      or is not that of a subscriber.  A notification may fail if its listener has an event anyway, is about
      to get one from another publisher, or does not exist.  A call may return an error as long as no
      reader's listener was drained in it; the next call may then be passed any array in which the mappings
      that the error left behind still lead to readers of the right service. */
  predicate Harmless(topics: Topics, w: World, step: Step) {
    match step
    case SendFailsToNotify(service) =>
      FindListener(w.waitset.subscribers, service).None? || PendingOf(w.waitset, service) > 0 || w.inFlight[service] > 1
    case Deliver(id, DRAIN_FAILED(left)) => left > 0 || !id.Notification? || id.waitableType != SUBSCRIBER
    case LeaveWithError => w.phase.Blocked? ==> ReportedReaders(w.phase.subs, w.phase.triggers) == {}
    case Enter(subs) => MappingsLeadBack(topics, w.waitset, subs)
    case _ => true
  }

  predicate Good(topics: Topics, w: World) {
    && Inv(w.waitset)
    && w.buffers.Keys == topics.Keys
    && (forall r :: r in w.mapped ==> r in topics && FindListener(w.waitset.subscribers, topics[r]).Some?)
    && PhaseOk(topics, w)
    && NoWakeUpLost(topics, w)
  }

  // ----- What the wait-set operations do to pending events --------------------------------------------

  lemma MapKeepsPending(s: State, t: WaitableEntity, rmwIndex: nat, added: string, creation: Creation, name: string)
    requires Inv(s)
    ensures var s' := Map(s, t, rmwIndex, added, creation).0;
            PendingOf(s', name) == PendingOf(s, name)
            && (FindListener(s.subscribers, name).Some? ==> FindListener(s'.subscribers, name) == FindListener(s.subscribers, name))
            && (HasMappedListener(s, name) ==> HasMappedListener(s', name))
  {
    MapKeepsInv(s, t, rmwIndex, added, creation);
    var s' := Map(s, t, rmwIndex, added, creation).0;
    assert NamesOf(s.Table(SUBSCRIBER)) <= NamesOf(s'.Table(SUBSCRIBER));
    FoundStaysFound(s.subscribers, s'.subscribers, name);
    assert s'.subscribers == s.subscribers || s'.subscribers == s.subscribers + [ListenerDetails(added, 0)];
    if HasMappedListener(s, name) {
      var i := FindListener(s.subscribers, name).value;
      var k := FindMapping(s.mapping, SUBSCRIBER, i).value;
      assert s'.mapping[k] == s.mapping[k];
    }
  }

  lemma SetPendingChangesOne(s: State, t: WaitableEntity, i: nat, pending: nat, name: string)
    requires Inv(s) && i < |s.Table(t)|
    ensures var s' := SetPending(s, t, i, pending);
            Inv(s') && s'.mapping == s.mapping && FindListener(s'.subscribers, name) == FindListener(s.subscribers, name)
            && PendingOf(s', name) ==
               if t == SUBSCRIBER && FindListener(s.subscribers, name) == Some(i) then pending else PendingOf(s, name)
  {
    var s' := SetPending(s, t, i, pending);
    SetPendingKeepsNames(s, t, i, pending);
    SameButPendingKeepsInv(s, s');
    assert NamesOf(s'.Table(SUBSCRIBER)) == NamesOf(s.Table(SUBSCRIBER));
    SameNamesFindTheSame(s.subscribers, s'.subscribers, name);
  }

  lemma NotifyServiceRaisesOne(s: State, t: WaitableEntity, service: string, name: string)
    requires Inv(s)
    ensures var s' := NotifyService(s, t, service);
            Inv(s') && s'.mapping == s.mapping && FindListener(s'.subscribers, name) == FindListener(s.subscribers, name)
            && PendingOf(s', name) ==
               PendingOf(s, name) + (if t == SUBSCRIBER && name == service && FindListener(s.subscribers, name).Some? then 1 else 0)
  {
    var found := FindListener(s.Table(t), service);
    if found.Some? {
      SetPendingChangesOne(s, t, found.value, s.Table(t)[found.value].pending + 1, name);
      OneListenerPerName(s.Table(t), service, name);
    }
  }

  lemma OneListenerPerName(table: seq<ListenerDetails>, a: string, b: string)
    requires FindListener(table, a).Some?
    ensures FindListener(table, a) == FindListener(table, b) <==> a == b
  {
  }

  /** Draining empties the listener that is reported and no other. */
  lemma DeliveringDrainsWhatIsReported(s: State, id: AttachmentId, name: string)
    requires Inv(s)
    ensures var (s', triggered) := Handle(s, Event(id, DRAINED));
            Inv(s') && s'.mapping == s.mapping && FindListener(s'.subscribers, name) == FindListener(s.subscribers, name)
            && (PendingOf(s', name) == PendingOf(s, name)
                || (HasMappedListener(s, name)
                    && var m := s.mapping[FindMapping(s.mapping, SUBSCRIBER, FindListener(s.subscribers, name).value).value];
                       triggered == [TriggeredWaitable(SUBSCRIBER, m.rmwIndex)]))
  {
    if id.Notification? {
      var t, i := id.waitableType, id.storageIndex;
      if FindMapping(s.mapping, t, i).Some? {
        SetPendingChangesOne(s, t, i, 0, name);
      }
    }
  }

  // ----- Every harmless step keeps the invariant --------------------------------------------------------

  /** The operations that touch only pending events. */
  predicate SameShape(s: State, s': State) {
    s'.mapping == s.mapping && NamesOf(s'.subscribers) == NamesOf(s.subscribers)
  }

  lemma ShapeKeepsStructure(topics: Topics, s: State, s': State, subs: seq<Reader>, name: string)
    requires SameShape(s, s')
    ensures FindListener(s'.subscribers, name) == FindListener(s.subscribers, name)
    ensures HasMappedListener(s', name) == HasMappedListener(s, name)
    ensures MappingsLeadBack(topics, s, subs) ==> MappingsLeadBack(topics, s', subs)
  {
    SameNamesFindTheSame(s.subscribers, s'.subscribers, name);
    assert |s'.subscribers| == |NamesOf(s'.subscribers)| == |s.subscribers|;
    forall i | 0 <= i < |s.subscribers| ensures s'.subscribers[i].serviceName == s.subscribers[i].serviceName {
      assert NamesOf(s'.subscribers)[i] == NamesOf(s.subscribers)[i];
    }
  }

  lemma ShapeKeepsAllMapped(topics: Topics, s: State, s': State, readers: seq<Reader>)
    requires SameShape(s, s') && AllMapped(topics, s, readers)
    ensures AllMapped(topics, s', readers)
  {
    forall k | 0 <= k < |readers| ensures HasMappedListener(s', topics[readers[k]]) {
      ShapeKeepsStructure(topics, s, s', readers, topics[readers[k]]);
    }
  }

  /** All of `Good` but the property itself. */
  predicate Structured(topics: Topics, w: World) {
    && Inv(w.waitset)
    && w.buffers.Keys == topics.Keys
    && (forall r :: r in w.mapped ==> r in topics && FindListener(w.waitset.subscribers, topics[r]).Some?)
    && PhaseOk(topics, w)
  }

  predicate SamePlace(p: Phase, p': Phase) {
    p' == p || (p.Blocked? && p'.Blocked? && p'.subs == p.subs)
  }

  lemma ShapeKeepsStructured(topics: Topics, w: World, w': World)
    requires Structured(topics, w) && Inv(w'.waitset) && SameShape(w.waitset, w'.waitset)
    requires w'.buffers.Keys == topics.Keys && w'.mapped == w.mapped && SamePlace(w.phase, w'.phase)
    ensures Structured(topics, w')
  {
    forall r | r in w'.mapped ensures FindListener(w'.waitset.subscribers, topics[r]).Some? {
      ShapeKeepsStructure(topics, w.waitset, w'.waitset, [], topics[r]);
    }
    match w.phase
    case Outside =>
    case Mapping(subs, next) =>
      ShapeKeepsStructure(topics, w.waitset, w'.waitset, subs, "");
      ShapeKeepsAllMapped(topics, w.waitset, w'.waitset, subs[..next]);
    case Blocked(subs, _) =>
      ShapeKeepsStructure(topics, w.waitset, w'.waitset, subs, "");
      ShapeKeepsAllMapped(topics, w.waitset, w'.waitset, subs);
  }

  lemma SendKeepsGood(topics: Topics, w: World, service: string, m: Message)
    requires Good(topics, w)
    ensures Good(topics, Next(topics, w, Send(service, m)).value)
  {
  }

  lemma NotifyServiceKeepsShape(s: State, t: WaitableEntity, service: string)
    ensures SameShape(s, NotifyService(s, t, service))
  {
    var found := FindListener(s.Table(t), service);
    if found.Some? {
      SetPendingKeepsNames(s, t, found.value, s.Table(t)[found.value].pending + 1);
      assert NamesOf(NotifyService(s, t, service).Table(SUBSCRIBER)) == NamesOf(s.Table(SUBSCRIBER));
    }
  }

  lemma NotifyKeepsGood(topics: Topics, w: World, t: WaitableEntity, service: string, w': World)
    requires Good(topics, w)
    requires w' == w.(waitset := NotifyService(w.waitset, t, service), inFlight := w'.inFlight)
    requires w'.inFlight == if t == SUBSCRIBER then w.inFlight - multiset{service} else w.inFlight
    ensures Good(topics, w')
  {
    NotifyServiceKeepsShape(w.waitset, t, service);
    NotifyServiceRaisesOne(w.waitset, t, service, "");
    ShapeKeepsStructured(topics, w, w');
    forall r | r in w'.mapped ensures Covered(topics, w', r) {
      assert Covered(topics, w, r);
      NotifyServiceRaisesOne(w.waitset, t, service, topics[r]);
    }
  }

  lemma EnterKeepsGood(topics: Topics, w: World, readers: seq<Reader>)
    requires Good(topics, w) && Harmless(topics, w, Enter(readers)) && Next(topics, w, Enter(readers)).Some?
    ensures Good(topics, Next(topics, w, Enter(readers)).value)
  {
    var w' := Next(topics, w, Enter(readers)).value;
    forall r | r in w'.mapped ensures Covered(topics, w', r) {
      assert Covered(topics, w, r);
    }
  }

  /** Returning an error: everything stays as it is, mappings included. */
  lemma ErrorKeepsGood(topics: Topics, w: World)
    requires Good(topics, w) && (w.phase.Blocked? ==> ReportedReaders(w.phase.subs, w.phase.triggers) == {})
    ensures Good(topics, w.(phase := Outside))
  {
    forall r | r in w.mapped ensures Covered(topics, w.(phase := Outside), r) {
      assert Covered(topics, w, r);
    }
  }

  lemma FailedNotificationKeepsGood(topics: Topics, w: World, service: string)
    requires Good(topics, w) && Harmless(topics, w, SendFailsToNotify(service)) && service in w.inFlight
    ensures Good(topics, w.(inFlight := w.inFlight - multiset{service}))
  {
    var w' := w.(inFlight := w.inFlight - multiset{service});
    forall r | r in w'.mapped ensures Covered(topics, w', r) {
      assert Covered(topics, w, r) && FindListener(w.waitset.subscribers, topics[r]).Some?;
    }
  }

  lemma BlockKeepsGood(topics: Topics, w: World)
    requires Good(topics, w) && Next(topics, w, Block).Some?
    ensures Good(topics, Next(topics, w, Block).value)
  {
    var w' := Next(topics, w, Block).value;
    assert w.phase.subs[..w.phase.next] == w.phase.subs;
    forall r | r in w'.mapped ensures Covered(topics, w', r) {
      assert Covered(topics, w, r);
    }
  }

  lemma TakeKeepsGood(topics: Topics, w: World, reader: Reader)
    requires Good(topics, w) && Next(topics, w, Take(reader)).Some?
    ensures Good(topics, Next(topics, w, Take(reader)).value)
  {
    var w' := Next(topics, w, Take(reader)).value;
    assert w'.buffers.Keys == w.buffers.Keys;
    forall r | r in w'.mapped ensures Covered(topics, w', r) {
      assert Covered(topics, w, r);
    }
  }

  lemma LeaveKeepsGood(topics: Topics, w: World)
    requires Good(topics, w) && Next(topics, w, Leave).Some?
    ensures Good(topics, Next(topics, w, Leave).value)
  {
    var w' := Next(topics, w, Leave).value;
    forall r | r in w'.mapped ensures Covered(topics, w', r) {
      assert Covered(topics, w, r);
    }
  }

  lemma MapKeepsAllMapped(topics: Topics, s: State, t: WaitableEntity, rmwIndex: nat, added: string, creation: Creation,
                          readers: seq<Reader>)
    requires Inv(s) && AllMapped(topics, s, readers)
    ensures AllMapped(topics, Map(s, t, rmwIndex, added, creation).0, readers)
  {
    forall k | 0 <= k < |readers| ensures HasMappedListener(Map(s, t, rmwIndex, added, creation).0, topics[readers[k]]) {
      MapKeepsPending(s, t, rmwIndex, added, creation, topics[readers[k]]);
    }
  }

  lemma MapKeepsLeadBack(topics: Topics, s: State, t: WaitableEntity, rmwIndex: nat, added: string, creation: Creation,
                         subs: seq<Reader>)
    requires Inv(s) && MappingsLeadBack(topics, s, subs)
    requires t == SUBSCRIBER ==> rmwIndex < |subs| && subs[rmwIndex] in topics && topics[subs[rmwIndex]] == added
    ensures MappingsLeadBack(topics, Map(s, t, rmwIndex, added, creation).0, subs)
  {
    GetStorageIndexKeepsInv(s, t, added, creation);
    var (s1, r) := GetStorageIndex(s, t, added, creation);
    var s' := Map(s, t, rmwIndex, added, creation).0;
    assert s1.subscribers == s.subscribers || s1.subscribers == s.subscribers + [ListenerDetails(added, 0)];
    assert MappingsLeadBack(topics, s1, subs);
    assert s'.subscribers == s1.subscribers;
  }

  lemma CoveredAfterMap(topics: Topics, w: World, w': World, t: WaitableEntity, rmwIndex: nat, added: string, r: Reader)
    requires Inv(w.waitset) && r in topics && r in w.buffers && Covered(topics, w, r) && w.phase.Mapping?
    requires w'.waitset == Map(w.waitset, t, rmwIndex, added, CREATED).0
    requires w'.buffers == w.buffers && w'.inFlight == w.inFlight && w.unfinished <= w'.unfinished
    ensures Covered(topics, w', r)
  {
    MapKeepsPending(w.waitset, t, rmwIndex, added, CREATED, topics[r]);
  }

  lemma MapGuardConditionKeepsGood(topics: Topics, w: World, index: nat, name: string)
    requires Good(topics, w) && Next(topics, w, MapGuardCondition(index, name, CREATED)).Some?
    ensures Good(topics, Next(topics, w, MapGuardCondition(index, name, CREATED)).value)
  {
    var w' := Next(topics, w, MapGuardCondition(index, name, CREATED)).value;
    MapKeepsInv(w.waitset, GUARD_CONDITION, index, name, CREATED);
    MapKeepsLeadBack(topics, w.waitset, GUARD_CONDITION, index, name, CREATED, w.phase.subs);
    MapKeepsAllMapped(topics, w.waitset, GUARD_CONDITION, index, name, CREATED, w.phase.subs[..w.phase.next]);
    forall r | r in w'.mapped ensures FindListener(w'.waitset.subscribers, topics[r]).Some? && Covered(topics, w', r) {
      assert Covered(topics, w, r);
      MapKeepsPending(w.waitset, GUARD_CONDITION, index, name, CREATED, topics[r]);
      CoveredAfterMap(topics, w, w', GUARD_CONDITION, index, name, r);
    }
  }

  lemma MapGuardConditionStepKeepsGood(topics: Topics, w: World, index: nat, name: string, creation: Creation)
    requires Good(topics, w) && Next(topics, w, MapGuardCondition(index, name, creation)).Some?
    ensures Good(topics, Next(topics, w, MapGuardCondition(index, name, creation)).value)
  {
    if Map(w.waitset, GUARD_CONDITION, index, name, creation).1.Pass? {
      SuccessIsCreation(w.waitset, GUARD_CONDITION, index, name, creation);
      MapGuardConditionKeepsGood(topics, w, index, name);
    } else {
      MapKeepsInv(w.waitset, GUARD_CONDITION, index, name, creation);
      ErrorKeepsGood(topics, w);
    }
  }

  /** A listener that is known is not created, and so a mapping that succeeds does not depend on creation. */
  lemma SuccessIsCreation(s: State, t: WaitableEntity, rmwIndex: nat, name: string, creation: Creation)
    requires Map(s, t, rmwIndex, name, creation).1.Pass?
    ensures Map(s, t, rmwIndex, name, creation) == Map(s, t, rmwIndex, name, CREATED)
  {
  }

  lemma MapMapsListener(s: State, rmwIndex: nat, name: string)
    requires Inv(s)
    ensures HasMappedListener(Map(s, SUBSCRIBER, rmwIndex, name, CREATED).0, name)
  {
    GetStorageIndexKeepsInv(s, SUBSCRIBER, name, CREATED);
    var (s1, r) := GetStorageIndex(s, SUBSCRIBER, name, CREATED);
    var s' := Map(s, SUBSCRIBER, rmwIndex, name, CREATED).0;
    assert s'.subscribers == s1.subscribers;
    if FindMapping(s1.mapping, SUBSCRIBER, r.value).None? {
      assert s'.mapping[|s1.mapping|] == RmwMapping(SUBSCRIBER, r.value, rmwIndex);
    }
  }

  lemma MapNextExtendsAllMapped(topics: Topics, s: State, subs: seq<Reader>, next: nat)
    requires Inv(s) && next < |subs| && subs[next] in topics && AllMapped(topics, s, subs[..next])
    ensures AllMapped(topics, Map(s, SUBSCRIBER, next, topics[subs[next]], CREATED).0, subs[..next + 1])
  {
    MapKeepsAllMapped(topics, s, SUBSCRIBER, next, topics[subs[next]], CREATED, subs[..next]);
    MapMapsListener(s, next, topics[subs[next]]);
    AllMappedOneMore(topics, Map(s, SUBSCRIBER, next, topics[subs[next]], CREATED).0, subs, next);
  }

  lemma AllMappedOneMore(topics: Topics, s: State, subs: seq<Reader>, next: nat)
    requires next < |subs| && AllMapped(topics, s, subs[..next])
    requires subs[next] in topics && HasMappedListener(s, topics[subs[next]])
    ensures AllMapped(topics, s, subs[..next + 1])
  {
    var readers := subs[..next + 1];
    forall k | 0 <= k < |readers| ensures readers[k] in topics && HasMappedListener(s, topics[readers[k]]) {
      assert readers[k] == if k < next then subs[..next][k] else subs[next];
    }
  }

  lemma MapNextCovers(topics: Topics, w: World, r: Reader)
    requires Good(topics, w) && Next(topics, w, MapNext(CREATED)).Some?
    requires r in Next(topics, w, MapNext(CREATED)).value.mapped
    ensures var w' := Next(topics, w, MapNext(CREATED)).value;
            r in topics && FindListener(w'.waitset.subscribers, topics[r]).Some? && Covered(topics, w', r)
  {
    var next := w.phase.next;
    var name := topics[w.phase.subs[next]];
    if r in w.mapped {
      assert Covered(topics, w, r);
      MapKeepsPending(w.waitset, SUBSCRIBER, next, name, CREATED, topics[r]);
      CoveredAfterMap(topics, w, Next(topics, w, MapNext(CREATED)).value, SUBSCRIBER, next, name, r);
    } else {
      MapMapsListener(w.waitset, next, name);
    }
  }

  lemma MapNextKeepsPhase(topics: Topics, w: World)
    requires Structured(topics, w) && Next(topics, w, MapNext(CREATED)).Some?
    ensures Inv(Next(topics, w, MapNext(CREATED)).value.waitset)
    ensures PhaseOk(topics, Next(topics, w, MapNext(CREATED)).value)
  {
    var subs, next := w.phase.subs, w.phase.next;
    MapKeepsInv(w.waitset, SUBSCRIBER, next, topics[subs[next]], CREATED);
    MapKeepsLeadBack(topics, w.waitset, SUBSCRIBER, next, topics[subs[next]], CREATED, subs);
    MapNextExtendsAllMapped(topics, w.waitset, subs, next);
  }

  lemma MapNextKeepsGood(topics: Topics, w: World)
    requires Good(topics, w) && Next(topics, w, MapNext(CREATED)).Some?
    ensures Good(topics, Next(topics, w, MapNext(CREATED)).value)
  {
    MapNextKeepsPhase(topics, w);
    forall r | r in Next(topics, w, MapNext(CREATED)).value.mapped
      ensures var w' := Next(topics, w, MapNext(CREATED)).value;
              r in topics && FindListener(w'.waitset.subscribers, topics[r]).Some? && Covered(topics, w', r)
    {
      MapNextCovers(topics, w, r);
    }
  }

  lemma MapNextStepKeepsGood(topics: Topics, w: World, creation: Creation)
    requires Good(topics, w) && Next(topics, w, MapNext(creation)).Some?
    ensures Good(topics, Next(topics, w, MapNext(creation)).value)
  {
    var next := w.phase.next;
    var name := topics[w.phase.subs[next]];
    if Map(w.waitset, SUBSCRIBER, next, name, creation).1.Pass? {
      SuccessIsCreation(w.waitset, SUBSCRIBER, next, name, creation);
      MapNextKeepsGood(topics, w);
    } else {
      MapKeepsInv(w.waitset, SUBSCRIBER, next, name, creation);
      ErrorKeepsGood(topics, w);
    }
  }

  lemma DeliverKeepsShape(s: State, id: AttachmentId, draining: Draining)
    ensures SameShape(s, Handle(s, Event(id, draining)).0)
  {
    HandleKeepsNames(s, Event(id, draining));
    assert NamesOf(Handle(s, Event(id, draining)).0.Table(SUBSCRIBER)) == NamesOf(s.Table(SUBSCRIBER));
  }

  /** A failing drain that leaves an event keeps every listener that has one from becoming empty. */
  lemma FailedDrainKeepsEvents(s: State, id: AttachmentId, left: nat, name: string)
    requires Inv(s) && (left > 0 || !id.Notification? || id.waitableType != SUBSCRIBER)
    ensures var (s', triggered) := Handle(s, Event(id, DRAIN_FAILED(left)));
            Inv(s') && triggered == [] && (PendingOf(s, name) > 0 ==> PendingOf(s', name) > 0)
  {
    if id.Notification? && FindMapping(s.mapping, id.waitableType, id.storageIndex).Some? {
      var t, i := id.waitableType, id.storageIndex;
      SetPendingChangesOne(s, t, i, Drain(s.Table(t)[i].pending, DRAIN_FAILED(left)), name);
    }
  }

  lemma FailedDeliverKeepsGood(topics: Topics, w: World, id: AttachmentId, left: nat)
    requires Good(topics, w) && Harmless(topics, w, Deliver(id, DRAIN_FAILED(left)))
    requires Next(topics, w, Deliver(id, DRAIN_FAILED(left))).Some?
    ensures Good(topics, Next(topics, w, Deliver(id, DRAIN_FAILED(left))).value)
  {
    var w' := Next(topics, w, Deliver(id, DRAIN_FAILED(left))).value;
    DeliverKeepsShape(w.waitset, id, DRAIN_FAILED(left));
    FailedDrainKeepsEvents(w.waitset, id, left, "");
    ShapeKeepsStructured(topics, w, w');
    assert w.phase.triggers + [] == w.phase.triggers;
    forall r | r in w'.mapped ensures Covered(topics, w', r) {
      assert Covered(topics, w, r);
      FailedDrainKeepsEvents(w.waitset, id, left, topics[r]);
    }
  }

  lemma ReportsGrow(subs: seq<Reader>, triggers: seq<TriggeredWaitable>, more: seq<TriggeredWaitable>)
    ensures ReportedReaders(subs, triggers) <= ReportedReaders(subs, triggers + more)
    ensures forall w :: more == [w] && w.waitableType == SUBSCRIBER && w.rmwIndex < |subs|
                        ==> subs[w.rmwIndex] in ReportedReaders(subs, triggers + more)
  {
    var all := triggers + more;
    forall r | r in ReportedReaders(subs, triggers) ensures r in ReportedReaders(subs, all) {
      var k :| 0 <= k < |triggers| && triggers[k].waitableType == SUBSCRIBER && triggers[k].rmwIndex < |subs|
               && subs[triggers[k].rmwIndex] == r;
      assert all[k] == triggers[k];
    }
    if |more| == 1 {
      assert all[|triggers|] == more[0];
    }
  }

  /** Where the uniqueness of services is needed: the slot that a drained listener leads back to belongs
      to the one reader whose messages the drained events announced. */
  lemma DeliverKeepsGood(topics: Topics, w: World, id: AttachmentId)
    requires OneReaderPerService(topics)
    requires Good(topics, w) && Next(topics, w, Deliver(id, DRAINED)).Some?
    ensures Good(topics, Next(topics, w, Deliver(id, DRAINED)).value)
  {
    var w' := Next(topics, w, Deliver(id, DRAINED)).value;
    var (s', triggered) := Handle(w.waitset, Event(id, DRAINED));
    DeliverKeepsShape(w.waitset, id, DRAINED);
    DeliveringDrainsWhatIsReported(w.waitset, id, "");
    ShapeKeepsStructured(topics, w, w');
    ReportsGrow(w.phase.subs, w.phase.triggers, triggered);
    forall r | r in w'.mapped ensures Covered(topics, w', r) {
      assert Covered(topics, w, r);
      DeliveringDrainsWhatIsReported(w.waitset, id, topics[r]);
      if PendingOf(s', topics[r]) != PendingOf(w.waitset, topics[r]) {
        DrainedReaderIsReported(topics, w, triggered, r);
      }
    }
  }

  lemma DrainedReaderIsReported(topics: Topics, w: World, triggered: seq<TriggeredWaitable>, r: Reader)
    requires OneReaderPerService(topics) && Good(topics, w) && w.phase.Blocked? && r in topics
    requires HasMappedListener(w.waitset, topics[r])
    requires var k := FindMapping(w.waitset.mapping, SUBSCRIBER, FindListener(w.waitset.subscribers, topics[r]).value).value;
             triggered == [TriggeredWaitable(SUBSCRIBER, w.waitset.mapping[k].rmwIndex)]
    ensures r in ReportedReaders(w.phase.subs, w.phase.triggers + triggered)
  {
    var k := FindMapping(w.waitset.mapping, SUBSCRIBER, FindListener(w.waitset.subscribers, topics[r]).value).value;
    var m := w.waitset.mapping[k];
    assert topics[w.phase.subs[m.rmwIndex]] == topics[r];
    ReportsGrow(w.phase.subs, w.phase.triggers, triggered);
  }

  lemma HarmlessStepKeepsGood(topics: Topics, w: World, step: Step)
    requires OneReaderPerService(topics) && Good(topics, w)
    requires Harmless(topics, w, step) && Next(topics, w, step).Some?
    ensures Good(topics, Next(topics, w, step).value)
  {
    var w' := Next(topics, w, step).value;
    match step
    case Send(service, m) => SendKeepsGood(topics, w, service, m);
    case SendNotifies(service) => NotifyKeepsGood(topics, w, SUBSCRIBER, service, w');
    case SendFailsToNotify(service) => FailedNotificationKeepsGood(topics, w, service);
    case TriggerGuardCondition(name) => NotifyKeepsGood(topics, w, GUARD_CONDITION, name, w');
    case Enter(readers) => EnterKeepsGood(topics, w, readers);
    case MapGuardCondition(index, name, creation) => MapGuardConditionStepKeepsGood(topics, w, index, name, creation);
    case MapNext(creation) => MapNextStepKeepsGood(topics, w, creation);
    case Block => BlockKeepsGood(topics, w);
    case Deliver(id, DRAINED) => DeliverKeepsGood(topics, w, id);
    case Deliver(id, DRAIN_FAILED(left)) => FailedDeliverKeepsGood(topics, w, id, left);
    case Leave => LeaveKeepsGood(topics, w);
    case LeaveWithError => ErrorKeepsGood(topics, w);
    case Take(reader) => TakeKeepsGood(topics, w, reader);
  }

  /** A run whose steps are all possible, and harmless where they fail. */
  predicate HarmlessRun(topics: Topics, w: World, steps: seq<Step>)
    decreases |steps|
  {
    steps == [] || (Next(topics, w, steps[0]).Some? && Harmless(topics, w, steps[0])
                    && HarmlessRun(topics, Next(topics, w, steps[0]).value, steps[1..]))
  }

  lemma {:induction false} HarmlessRunKeepsGood(topics: Topics, w: World, steps: seq<Step>)
    requires OneReaderPerService(topics) && Good(topics, w) && HarmlessRun(topics, w, steps)
    ensures After(topics, w, steps).Some? && Good(topics, After(topics, w, steps).value)
    decreases |steps|
  {
    if steps != [] {
      HarmlessStepKeepsGood(topics, w, steps[0]);
      HarmlessRunKeepsGood(topics, Next(topics, w, steps[0]).value, steps[1..]);
    }
  }

  // ----- Reachable worlds -----------------------------------------------------------------------------

  /** Some harmless run leads from `w` to `w'`. */
  ghost predicate Leads(topics: Topics, w: World, w': World) {
    exists steps :: HarmlessRun(topics, w, steps) && After(topics, w, steps) == Some(w')
  }

  lemma LeadsToGood(topics: Topics, w: World, w': World)
    requires OneReaderPerService(topics) && Good(topics, w) && Leads(topics, w, w')
    ensures Good(topics, w')
  {
    var steps :| HarmlessRun(topics, w, steps) && After(topics, w, steps) == Some(w');
    HarmlessRunKeepsGood(topics, w, steps);
  }

  /** No lost wake-up: however publishers, the waiting thread and the readers interleave, and whatever fails
      harmlessly, in every world that is reached messages that are there for a reader are still known to
      someone. */
  lemma WakeUpsAreNotLost(topics: Topics, w: World)
    requires OneReaderPerService(topics) && Leads(topics, Initial(topics), w)
    ensures NoWakeUpLost(topics, w)
  {
    LeadsToGood(topics, Initial(topics), w);
  }

  /** What the property is for.  A thread that sleeps in `rmw_wait` for a reader with messages waiting,
      who was not told about them and to whom no publisher is about to send a notification, will be
      woken: the reader's listener is attached and has an event pending, or is drained and about to be
      reported. */
  lemma SleeperIsWoken(topics: Topics, w: World, r: Reader)
    requires OneReaderPerService(topics) && Leads(topics, Initial(topics), w)
    requires w.phase.Blocked? && r in w.phase.subs && r in w.mapped && r in topics && r in w.buffers
    requires w.buffers[r] != [] && r !in w.unfinished && topics[r] !in w.inFlight
    ensures HasMappedListener(w.waitset, topics[r])
    ensures PendingOf(w.waitset, topics[r]) > 0 || AboutToBeReported(w, r)
  {
    LeadsToGood(topics, Initial(topics), w);
    assert Covered(topics, w, r);
    var k :| 0 <= k < |w.phase.subs| && w.phase.subs[k] == r;
  }

  lemma LeadsToItself(topics: Topics, w: World)
    ensures Leads(topics, w, w)
  {
    assert HarmlessRun(topics, w, []) && After(topics, w, []) == Some(w);
  }

  lemma LeadsOn(topics: Topics, w: World, w': World, step: Step)
    requires Leads(topics, w, w') && Harmless(topics, w', step) && Next(topics, w', step).Some?
    ensures Leads(topics, w, Next(topics, w', step).value)
  {
    var steps :| HarmlessRun(topics, w, steps) && After(topics, w, steps) == Some(w');
    AfterOneMore(topics, w, steps, step);
  }

  lemma {:induction false} AfterOneMore(topics: Topics, w: World, steps: seq<Step>, step: Step)
    requires HarmlessRun(topics, w, steps) && After(topics, w, steps).Some?
    requires var w' := After(topics, w, steps).value; Harmless(topics, w', step) && Next(topics, w', step).Some?
    ensures HarmlessRun(topics, w, steps + [step])
    ensures After(topics, w, steps + [step]) == Next(topics, After(topics, w, steps).value, step)
    decreases |steps|
  {
    if steps == [] {
      assert steps + [step] == [step];
    } else {
      AfterOneMore(topics, Next(topics, w, steps[0]).value, steps[1..], step);
      assert (steps + [step])[1..] == steps[1..] + [step];
    }
  }
}
