/** What an error return does to the calls after it: the mappings that it leaves behind are harmless exactly
    if they lead back to readers of the right service. */
module WakeUpAfterErrors {
  import opened Wrappers
  import opened WaitSetModel
  import opened WaitSetInvariant
  import opened WaitSetMeaning
  import opened WakeUp
  import opened WakeUpLimits

  // ----- Every listener was made for a reader -------------------------------------------------------

  predicate ServedBy(topics: Topics, name: string, readers: set<Reader>) {
    exists r :: r in readers && r in topics && topics[r] == name
  }

  predicate AllServed(topics: Topics, names: seq<string>, readers: set<Reader>) {
    forall i :: 0 <= i < |names| ==> ServedBy(topics, names[i], readers)
  }

  predicate Served(topics: Topics, w: World) {
    AllServed(topics, NamesOf(w.waitset.subscribers), w.mapped)
  }

  lemma MapStaysServed(topics: Topics, s: State, t: WaitableEntity, rmwIndex: nat, added: string, creation: Creation,
                       readers: set<Reader>, readers': set<Reader>)
    requires AllServed(topics, NamesOf(s.subscribers), readers) && readers <= readers'
    requires t == SUBSCRIBER && Map(s, t, rmwIndex, added, creation).1.Pass? ==> ServedBy(topics, added, readers')
    ensures AllServed(topics, NamesOf(Map(s, t, rmwIndex, added, creation).0.subscribers), readers')
  {
    var names, names' := NamesOf(s.subscribers), NamesOf(Map(s, t, rmwIndex, added, creation).0.subscribers);
    if t == SUBSCRIBER {
      NamesOfAppended(s.subscribers, ListenerDetails(added, 0));
      assert names' == names || names' == names + [added];
    } else {
      assert names' == names;
    }
    forall i | 0 <= i < |names'| ensures ServedBy(topics, names'[i], readers') {
      if i < |names| {
        assert ServedBy(topics, names[i], readers);
      }
    }
  }

  lemma StepStaysServed(topics: Topics, w: World, step: Step)
    requires Served(topics, w) && Next(topics, w, step).Some?
    ensures Served(topics, Next(topics, w, step).value)
  {
    match step
    case SendNotifies(service) => NotifyServiceKeepsShape(w.waitset, SUBSCRIBER, service);
    case TriggerGuardCondition(name) => NotifyServiceKeepsShape(w.waitset, GUARD_CONDITION, name);
    case Deliver(id, draining) => DeliverKeepsShape(w.waitset, id, draining);
    case MapGuardCondition(index, name, creation) =>
      MapStaysServed(topics, w.waitset, GUARD_CONDITION, index, name, creation, w.mapped, w.mapped);
    case MapNext(creation) =>
      var r := w.phase.subs[w.phase.next];
      var readers := Next(topics, w, step).value.mapped;
      assert Map(w.waitset, SUBSCRIBER, w.phase.next, topics[r], creation).1.Pass? ==> r in readers;
      MapStaysServed(topics, w.waitset, SUBSCRIBER, w.phase.next, topics[r], creation, w.mapped, readers);
    case _ =>
  }

  // ----- What survives every step, harmful ones included ----------------------------------------------

  predicate Sound(topics: Topics, w: World) {
    && Inv(w.waitset)
    && w.buffers.Keys == topics.Keys
    && (forall r :: r in w.mapped ==> r in topics && FindListener(w.waitset.subscribers, topics[r]).Some?)
    && Served(topics, w)
  }

  lemma StepGrows(topics: Topics, w: World, step: Step)
    requires Inv(w.waitset) && Next(topics, w, step).Some?
    ensures var w' := Next(topics, w, step).value; Inv(w'.waitset) && Grows(w.waitset, w'.waitset)
  {
    match step
    case SendNotifies(service) => NotifyGrows(w.waitset, SUBSCRIBER, service);
    case TriggerGuardCondition(name) => NotifyGrows(w.waitset, GUARD_CONDITION, name);
    case Deliver(id, draining) =>
      HandleKeepsNames(w.waitset, Event(id, draining));
      SameButPendingKeepsInv(w.waitset, Handle(w.waitset, Event(id, draining)).0);
    case MapGuardCondition(index, name, creation) => MapKeepsInv(w.waitset, GUARD_CONDITION, index, name, creation);
    case MapNext(creation) => MapKeepsInv(w.waitset, SUBSCRIBER, w.phase.next, topics[w.phase.subs[w.phase.next]], creation);
    case Leave => UnmapAllKeepsInv(w.waitset);
    case _ =>
  }

  lemma NotifyGrows(s: State, t: WaitableEntity, name: string)
    requires Inv(s)
    ensures Inv(NotifyService(s, t, name)) && Grows(s, NotifyService(s, t, name))
  {
    var found := FindListener(s.Table(t), name);
    if found.Some? {
      SetPendingKeepsNames(s, t, found.value, s.Table(t)[found.value].pending + 1);
    }
    assert SameButPending(s, NotifyService(s, t, name));
    SameButPendingKeepsInv(s, NotifyService(s, t, name));
  }

  lemma StepKeepsListeners(topics: Topics, w: World, step: Step, r: Reader)
    requires Sound(topics, w) && Next(topics, w, step).Some? && r in Next(topics, w, step).value.mapped
    ensures r in topics && FindListener(Next(topics, w, step).value.waitset.subscribers, topics[r]).Some?
  {
    var w' := Next(topics, w, step).value;
    if r in w.mapped {
      StepGrows(topics, w, step);
      assert NamesOf(w.waitset.Table(SUBSCRIBER)) <= NamesOf(w'.waitset.Table(SUBSCRIBER));
      FoundStaysFound(w.waitset.subscribers, w'.waitset.subscribers, topics[r]);
    } else {
      MapKeepsInv(w.waitset, SUBSCRIBER, w.phase.next, topics[r], step.creation);
    }
  }

  lemma StepStaysSound(topics: Topics, w: World, step: Step)
    requires Sound(topics, w) && Next(topics, w, step).Some?
    ensures Sound(topics, Next(topics, w, step).value)
  {
    StepGrows(topics, w, step);
    StepStaysServed(topics, w, step);
    forall r | r in Next(topics, w, step).value.mapped
      ensures r in topics && FindListener(Next(topics, w, step).value.waitset.subscribers, topics[r]).Some?
    {
      StepKeepsListeners(topics, w, step, r);
    }
  }

  lemma {:induction false} RunStaysSound(topics: Topics, w: World, steps: seq<Step>)
    requires Sound(topics, w) && After(topics, w, steps).Some?
    ensures Sound(topics, After(topics, w, steps).value)
    decreases |steps|
  {
    if steps != [] {
      StepStaysSound(topics, w, steps[0]);
      RunStaysSound(topics, Next(topics, w, steps[0]).value, steps[1..]);
    }
  }

  // ----- How a wrong mapping loses a wake-up ----------------------------------------------------------

  /** The events of a service are reported under index `j`. */
  predicate Claims(s: State, name: string, j: nat) {
    Inv(s) && ReportedUnder(s, SUBSCRIBER, name) == Some(j)
  }

  lemma MapKeepsClaims(s: State, rmwIndex: nat, added: string, name: string, j: nat)
    requires Claims(s, name, j)
    ensures var (s', outcome) := Map(s, SUBSCRIBER, rmwIndex, added, CREATED); outcome.Pass? && Claims(s', name, j)
  {
    MapKeepsInv(s, SUBSCRIBER, rmwIndex, added, CREATED);
    MapGivesOwner(s, SUBSCRIBER, rmwIndex, added, CREATED, name);
  }

  /** The events of `r` are reported under an index that is not that of `r`. */
  predicate Misled(topics: Topics, w: World, readers: seq<Reader>, r: Reader, j: nat) {
    && r in topics && r in w.mapped && r in w.buffers && Claims(w.waitset, topics[r], j)
    && (j < |readers| ==> readers[j] != r)
  }

  /** So, and the thread sleeps for `readers`, none of which was reported yet. */
  predicate Trap(topics: Topics, w: World, readers: seq<Reader>, r: Reader, j: nat) {
    w.phase == Blocked(readers, []) && Misled(topics, w, readers, r, j)
  }

  lemma {:induction false} MapsIntoTrap(topics: Topics, w0: World, w: World, readers: seq<Reader>, next: nat, r: Reader, j: nat)
    returns (w': World)
    requires Leads(topics, w0, w) && Misled(topics, w, readers, r, j)
    requires next <= |readers| && w.phase == Mapping(readers, next) && forall q :: q in readers ==> q in topics
    ensures Leads(topics, w0, w') && Trap(topics, w', readers, r, j)
    decreases |readers| - next
  {
    if next == |readers| {
      LeadsOn(topics, w0, w, Block);
      w' := Next(topics, w, Block).value;
    } else {
      StaysMisled(topics, w, readers, next, r, j);
      LeadsOn(topics, w0, w, MapNext(CREATED));
      w' := MapsIntoTrap(topics, w0, Next(topics, w, MapNext(CREATED)).value, readers, next + 1, r, j);
    }
  }

  lemma StaysMisled(topics: Topics, w: World, readers: seq<Reader>, next: nat, r: Reader, j: nat)
    requires Misled(topics, w, readers, r, j) && next < |readers| && readers[next] in topics
    requires w.phase == Mapping(readers, next)
    ensures var w' := Next(topics, w, MapNext(CREATED));
            w'.Some? && w'.value.phase == Mapping(readers, next + 1) && Misled(topics, w'.value, readers, r, j)
  {
    MapKeepsClaims(w.waitset, next, topics[readers[next]], topics[r], j);
  }

  /** The reader takes all its messages, and finds that there are no more. */
  lemma {:induction false} TakesAll(topics: Topics, w0: World, w: World, readers: seq<Reader>, r: Reader, j: nat)
    returns (w': World)
    requires Leads(topics, w0, w) && Trap(topics, w, readers, r, j)
    ensures Leads(topics, w0, w') && Trap(topics, w', readers, r, j) && w'.buffers[r] == [] && r !in w'.unfinished
    decreases |w.buffers[r]|
  {
    LeadsOn(topics, w0, w, Take(r));
    w' := Next(topics, w, Take(r)).value;
    if w.buffers[r] != [] {
      w' := TakesAll(topics, w0, w', readers, r, j);
    }
  }

  /** Every publisher that has sent to the service notifies. */
  lemma {:induction false} AllNotify(topics: Topics, w0: World, w: World, readers: seq<Reader>, r: Reader, j: nat)
    returns (w': World)
    requires Leads(topics, w0, w) && Trap(topics, w, readers, r, j)
    ensures Leads(topics, w0, w') && Trap(topics, w', readers, r, j) && topics[r] !in w'.inFlight
    ensures w'.buffers == w.buffers && w'.unfinished == w.unfinished
    decreases w.inFlight[topics[r]]
  {
    w' := w;
    if topics[r] in w.inFlight {
      NotifyServiceRaisesOne(w.waitset, SUBSCRIBER, topics[r], topics[r]);
      LeadsOn(topics, w0, w, SendNotifies(topics[r]));
      w' := AllNotify(topics, w0, Next(topics, w, SendNotifies(topics[r])).value, readers, r, j);
    }
  }

  lemma SendsOne(topics: Topics, w0: World, w: World, readers: seq<Reader>, r: Reader, j: nat) returns (w': World)
    requires Leads(topics, w0, w) && Trap(topics, w, readers, r, j)
    ensures Leads(topics, w0, w') && Trap(topics, w', readers, r, j)
    ensures w'.buffers[r] != [] && w'.unfinished == w.unfinished
  {
    LeadsOn(topics, w0, w, Send(topics[r], 0));
    w' := Next(topics, w, Send(topics[r], 0)).value;
  }

  /** The listener is drained, and the wrong index is about to be reported. */
  lemma TrapDrains(topics: Topics, w0: World, w: World, readers: seq<Reader>, r: Reader, j: nat) returns (w': World)
    requires Leads(topics, w0, w) && Trap(topics, w, readers, r, j)
    ensures Leads(topics, w0, w') && PendingOf(w'.waitset, topics[r]) == 0
    ensures w' == w.(waitset := w'.waitset, phase := Blocked(readers, [TriggeredWaitable(SUBSCRIBER, j)]))
  {
    var i := FindListener(w.waitset.subscribers, topics[r]).value;
    var t := TriggeredWaitable(SUBSCRIBER, j);
    SetPendingChangesOne(w.waitset, SUBSCRIBER, i, 0, topics[r]);
    var s' := SetPending(w.waitset, SUBSCRIBER, i, 0);
    assert Handle(w.waitset, Event(Notification(SUBSCRIBER, i), DRAINED)) == (s', [t]);
    assert [] + [t] == [t];
    w' := w.(waitset := s', phase := Blocked(readers, [t]));
    assert Next(topics, w, Deliver(Notification(SUBSCRIBER, i), DRAINED)) == Some(w');
    LeadsOn(topics, w0, w, Deliver(Notification(SUBSCRIBER, i), DRAINED));
  }

  /** After that the call returns, and nobody knows that `r` has a message. */
  lemma TrapLoses(topics: Topics, w0: World, w: World, readers: seq<Reader>, r: Reader, j: nat) returns (w': World)
    requires Leads(topics, w0, w) && Trap(topics, w, readers, r, j)
    requires w.buffers[r] != [] && r !in w.unfinished && topics[r] !in w.inFlight
    ensures Leads(topics, w0, w') && !NoWakeUpLost(topics, w')
  {
    var w1 := TrapDrains(topics, w0, w, readers, r, j);
    LeadsOn(topics, w0, w1, Leave);
    w' := Next(topics, w1, Leave).value;
    assert r !in ReportedReaders(readers, [TriggeredWaitable(SUBSCRIBER, j)]);
    assert !Covered(topics, w', r);
  }

  lemma MisledLoses(topics: Topics, w: World, readers: seq<Reader>, r: Reader, j: nat) returns (w': World)
    requires Misled(topics, w, readers, r, j) && w.phase == Mapping(readers, 0) && forall q :: q in readers ==> q in topics
    ensures Leads(topics, w, w') && !NoWakeUpLost(topics, w')
  {
    LeadsToItself(topics, w);
    w' := MapsIntoTrap(topics, w, w, readers, 0, r, j);
    w' := TakesAll(topics, w, w', readers, r, j);
    w' := SendsOne(topics, w, w', readers, r, j);
    w' := AllNotify(topics, w, w', readers, r, j);
    w' := TrapLoses(topics, w, w', readers, r, j);
  }

  // ----- The exact condition ----------------------------------------------------------------------------

  /** The world after entering `rmw_wait` with these readers. */
  function Entered(w: World, readers: seq<Reader>): World {
    w.(phase := Mapping(readers, 0))
  }

  /** A left-over mapping that does not lead back reports some reader's events under a wrong index. */
  lemma WrongMappingMisleads(topics: Topics, w: World, readers: seq<Reader>) returns (r: Reader, j: nat)
    requires Inv(w.waitset) && w.buffers.Keys == topics.Keys && Served(topics, w)
    requires !MappingsLeadBack(topics, w.waitset, readers) && forall q :: q in readers ==> q in topics
    ensures Misled(topics, w, readers, r, j)
  {
    var s := w.waitset;
    var k :| 0 <= k < |s.mapping| && s.mapping[k].waitableType == SUBSCRIBER &&
      !(s.mapping[k].rmwIndex < |readers| && readers[s.mapping[k].rmwIndex] in topics
        && s.mapping[k].storageIndex < |s.subscribers|
        && topics[readers[s.mapping[k].rmwIndex]] == s.subscribers[s.mapping[k].storageIndex].serviceName);
    var m := s.mapping[k];
    assert m.storageIndex < |s.Table(SUBSCRIBER)|;
    var name := s.subscribers[m.storageIndex].serviceName;
    assert ServedBy(topics, NamesOf(s.subscribers)[m.storageIndex], w.mapped);
    r :| r in w.mapped && r in topics && topics[r] == name;
    j := m.rmwIndex;
    OnlyListenerIsFound(s.subscribers, m.storageIndex);
    OnlyMappingIsFound(s.mapping, k);
  }

  /** The call after any run, exactly.  Take any world that is reached by whatever steps, harmful failures
      included, and any readers for the next call.  From there on no harmless run loses a wake-up if and
      only if none is lost yet and every subscriber mapping that is left over leads to a reader of its
      listener's service. */
  lemma EnteringIsSafeExactly(topics: Topics, steps: seq<Step>, w: World, readers: seq<Reader>)
    requires OneReaderPerService(topics) && After(topics, Initial(topics), steps) == Some(w)
    requires w.phase.Outside? && forall r :: r in readers ==> r in topics
    ensures Next(topics, w, Enter(readers)) == Some(Entered(w, readers))
    ensures NoWakeUpLost(topics, w) && MappingsLeadBack(topics, w.waitset, readers)
            <==> forall w' :: Leads(topics, Entered(w, readers), w') ==> NoWakeUpLost(topics, w')
  {
    RunStaysSound(topics, Initial(topics), steps);
    if NoWakeUpLost(topics, w) && MappingsLeadBack(topics, w.waitset, readers) {
      EnterKeepsGood(topics, w, readers);
      forall w' | Leads(topics, Entered(w, readers), w') ensures NoWakeUpLost(topics, w') {
        LeadsToGood(topics, Entered(w, readers), w');
      }
    }
    if forall w' :: Leads(topics, Entered(w, readers), w') ==> NoWakeUpLost(topics, w') {
      LeadsToItself(topics, Entered(w, readers));
      EnteringKeepsLoss(topics, w, readers);
      if !MappingsLeadBack(topics, w.waitset, readers) {
        var r, j := WrongMappingMisleads(topics, w, readers);
        assert Misled(topics, Entered(w, readers), readers, r, j);
        var w' := MisledLoses(topics, Entered(w, readers), readers, r, j);
      }
    }
  }

  lemma EnteringKeepsLoss(topics: Topics, w: World, readers: seq<Reader>)
    requires w.phase.Outside? && NoWakeUpLost(topics, Entered(w, readers))
    ensures NoWakeUpLost(topics, w)
  {
    forall r | r in w.mapped && r in topics && r in w.buffers ensures Covered(topics, w, r) {
      assert Covered(topics, Entered(w, readers), r);
    }
  }

  /** The error return alone is enough, although nothing had been drained: its mapping survives, and if the
      next call is for another reader, a wake-up can be lost.  The services of the readers are distinct. */
  lemma ErrorWithoutDrainLoses(topics: Topics, a: Reader, b: Reader) returns (w: World, w': World, w'': World, lost: World)
    requires a in topics && b in topics && topics[a] != topics[b]
    ensures Leads(topics, Initial(topics), w) && w.phase.Blocked? && w.phase.triggers == []
    ensures Next(topics, w, LeaveWithError) == Some(w') && Next(topics, w', Enter([b])) == Some(w'')
    ensures Leads(topics, w'', lost) && !NoWakeUpLost(topics, lost)
  {
    w := AsleepFirst(topics, a);
    LeadsToAsleepFirst(topics, a);
    w' := w.(phase := Outside);
    w'' := Entered(w', [b]);
    OnlyListenerIsFound(w.waitset.subscribers, 0);
    OnlyMappingIsFound(w.waitset.mapping, 0);
    lost := MisledLoses(topics, w'', [b], a, 0);
  }
}
