/** Where the no-lost-wake-up property ends: it needs every reader of the wait set to have a service of
    its own, and it needs the failures to be harmless. */
module WakeUpLimits {
  import opened Wrappers
  import opened Buffers
  import opened WaitSetModel
  import opened WakeUp

  // ----- Pieces of runs ----------------------------------------------------------------------------

  function EmptyBuffers(topics: Topics): map<Reader, seq<Message>> {
    map r | r in topics :: []
  }

  function OneMessage(topics: Topics, service: string): map<Reader, seq<Message>> {
    map r | r in topics :: if topics[r] == service then [0] else []
  }

  /** One listener, with nothing mapped. */
  function OneListener(service: string, pending: nat): State {
    State([], [ListenerDetails(service, pending)], [])
  }

  function OneMapped(service: string, pending: nat): State {
    State([], [ListenerDetails(service, pending)], [RmwMapping(SUBSCRIBER, 0, 0)])
  }

  /** `r` has been waited for once, in vain, and knows that its buffer is empty. */
  function Known(topics: Topics, r: Reader): World
    requires r in topics
  {
    World(OneListener(topics[r], 0), EmptyBuffers(topics), multiset{}, {r}, {}, Outside)
  }

  /** After that, a message for `r` was sent and notified. */
  function Announced(topics: Topics, r: Reader): World
    requires r in topics
  {
    World(OneListener(topics[r], 1), OneMessage(topics, topics[r]), multiset{}, {r}, {}, Outside)
  }

  /** After that, the thread sleeps for `b` alone, which shares the service of `r`. */
  function Asleep(topics: Topics, r: Reader, b: Reader): World
    requires r in topics
  {
    World(OneMapped(topics[r], 1), OneMessage(topics, topics[r]), multiset{}, {r, b}, {b} - {r}, Blocked([b], []))
  }

  /** The thread sleeps for `r`, for the first time. */
  function AsleepFirst(topics: Topics, r: Reader): World
    requires r in topics
  {
    World(OneMapped(topics[r], 0), EmptyBuffers(topics), multiset{}, {r}, {r}, Blocked([r], []))
  }

  lemma LeadsToAsleepFirst(topics: Topics, r: Reader)
    requires r in topics
    ensures Leads(topics, Initial(topics), AsleepFirst(topics, r))
  {
    var w0 := Initial(topics);
    LeadsToItself(topics, w0);
    var w1 := w0.(phase := Mapping([r], 0));
    assert Next(topics, w0, Enter([r])) == Some(w1);
    LeadsOn(topics, w0, w0, Enter([r]));
    MapsFirstListener(topics[r]);
    var w2 := AsleepFirst(topics, r).(phase := Mapping([r], 1));
    assert {} + {r} == {r};
    assert Next(topics, w1, MapNext(CREATED)) == Some(w2);
    LeadsOn(topics, w0, w1, MapNext(CREATED));
    LeadsOn(topics, w0, w2, Block);
  }

  lemma LeadsToKnown(topics: Topics, r: Reader)
    requires r in topics
    ensures Leads(topics, Initial(topics), Known(topics, r))
  {
    var w0 := Initial(topics);
    LeadsToAsleepFirst(topics, r);
    var w1 := AsleepFirst(topics, r);
    var w2 := w1.(waitset := OneListener(topics[r], 0), phase := Outside);
    assert ReportedReaders([r], []) == {} && {r} + {} == {r};
    assert Next(topics, w1, Leave) == Some(w2);
    LeadsOn(topics, w0, w1, Leave);
    assert Next(topics, w2, Take(r)) == Some(Known(topics, r));
    LeadsOn(topics, w0, w2, Take(r));
  }

  lemma MapsFirstListener(service: string)
    ensures Map(EMPTY, SUBSCRIBER, 0, service, CREATED) == (OneMapped(service, 0), Pass)
  {
    assert [] + [ListenerDetails(service, 0)] == [ListenerDetails(service, 0)];
    assert [] + [RmwMapping(SUBSCRIBER, 0, 0)] == [RmwMapping(SUBSCRIBER, 0, 0)];
  }

  lemma MapsKnownListener(service: string, pending: nat)
    ensures Map(OneListener(service, pending), SUBSCRIBER, 0, service, CREATED) == (OneMapped(service, pending), Pass)
  {
    assert FindListener(OneListener(service, pending).subscribers, service) == Some(0);
    assert [] + [RmwMapping(SUBSCRIBER, 0, 0)] == [RmwMapping(SUBSCRIBER, 0, 0)];
  }

  lemma KnownLeadsToAnnounced(topics: Topics, r: Reader, w: World)
    requires r in topics && Leads(topics, w, Known(topics, r))
    ensures Leads(topics, w, Announced(topics, r))
  {
    var s := topics[r];
    var w1 := Known(topics, r).(buffers := OneMessage(topics, s), inFlight := multiset{s});
    SendFillsBuffers(topics, r);
    LeadsOn(topics, w, Known(topics, r), Send(s, 0));
    assert NotifyService(OneListener(s, 0), SUBSCRIBER, s) == OneListener(s, 1);
    assert Next(topics, w1, SendNotifies(s)) == Some(Announced(topics, r));
    LeadsOn(topics, w, w1, SendNotifies(s));
  }

  lemma SendFillsBuffers(topics: Topics, r: Reader)
    requires r in topics
    ensures Next(topics, Known(topics, r), Send(topics[r], 0))
         == Some(Known(topics, r).(buffers := OneMessage(topics, topics[r]), inFlight := multiset{topics[r]}))
  {
    var after := Next(topics, Known(topics, r), Send(topics[r], 0)).value;
    assert Push([], 0) == [0];
    assert after.buffers == OneMessage(topics, topics[r]);
    assert multiset{} + multiset{topics[r]} == multiset{topics[r]};
  }

  lemma AnnouncedLeadsToAsleep(topics: Topics, r: Reader, b: Reader, w: World)
    requires r in topics && b in topics && topics[b] == topics[r] && Leads(topics, w, Announced(topics, r))
    ensures Leads(topics, w, Asleep(topics, r, b))
  {
    var s := topics[r];
    var w0 := Announced(topics, r);
    var w1 := w0.(phase := Mapping([b], 0));
    assert Next(topics, w0, Enter([b])) == Some(w1);
    LeadsOn(topics, w, w0, Enter([b]));
    MapsKnownListener(s, 1);
    var w2 := Asleep(topics, r, b).(phase := Mapping([b], 1));
    assert {r} + {b} == {r, b} && (if b in {r} then {} else {} + {b}) == {b} - {r};
    assert Next(topics, w1, MapNext(CREATED)) == Some(w2);
    LeadsOn(topics, w, w1, MapNext(CREATED));
    LeadsOn(topics, w, w2, Block);
  }

  // ----- Readers that share a service ----------------------------------------------------------------

  lemma SharedServiceLosesWakeUp(topics: Topics, a: Reader, b: Reader) returns (w: World)
    requires a in topics && b in topics && a != b && topics[a] == topics[b]
    ensures Leads(topics, Initial(topics), w) && !NoWakeUpLost(topics, w)
  {
    var w0 := Initial(topics);
    LeadsToKnown(topics, a);
    KnownLeadsToAnnounced(topics, a, w0);
    AnnouncedLeadsToAsleep(topics, a, b, w0);
    var t := TriggeredWaitable(SUBSCRIBER, 0);
    var w1 := Asleep(topics, a, b).(waitset := OneMapped(topics[a], 0), phase := Blocked([b], [t]));
    DrainsWhileAsleep(topics, a, b);
    LeadsOn(topics, w0, Asleep(topics, a, b), Deliver(Notification(SUBSCRIBER, 0), DRAINED));
    w := Next(topics, w1, Leave).value;
    LeadsOn(topics, w0, w1, Leave);
    ReportsOne(b, t);
    assert w.buffers[a] == [0] && PendingOf(w.waitset, topics[a]) == 0;
    assert !Covered(topics, w, a);
  }

  lemma DrainsWhileAsleep(topics: Topics, a: Reader, b: Reader)
    requires a in topics
    ensures Next(topics, Asleep(topics, a, b), Deliver(Notification(SUBSCRIBER, 0), DRAINED))
         == Some(Asleep(topics, a, b).(waitset := OneMapped(topics[a], 0), phase := Blocked([b], [TriggeredWaitable(SUBSCRIBER, 0)])))
  {
    var t := TriggeredWaitable(SUBSCRIBER, 0);
    DrainsTheListener(topics[a]);
    assert [] + [t] == [t];
  }

  lemma ReportsOne(b: Reader, t: TriggeredWaitable)
    requires t == TriggeredWaitable(SUBSCRIBER, 0)
    ensures ReportedReaders([b], [t]) == {b}
  {
    assert [t][0].waitableType == SUBSCRIBER && [t][0].rmwIndex < |[b]| && [b][[t][0].rmwIndex] == b;
  }

  lemma DrainsTheListener(service: string)
    ensures Handle(OneMapped(service, 1), Event(Notification(SUBSCRIBER, 0), DRAINED))
         == (OneMapped(service, 0), [TriggeredWaitable(SUBSCRIBER, 0)])
  {
    assert [ListenerDetails(service, 1)][0 := ListenerDetails(service, 0)] == [ListenerDetails(service, 0)];
  }

  /** The property holds, in all worlds that harmless runs reach, exactly when no two readers that the
      wait set may ever serve have the same service.  It is not enough that the services in each single
      array are distinct: two readers of one service, waited for one after the other, share a listener,
      and the call for one drains the events of the other. */
  lemma WakeUpsAreNeverLostExactly(topics: Topics)
    ensures OneReaderPerService(topics) <==> forall w :: Leads(topics, Initial(topics), w) ==> NoWakeUpLost(topics, w)
  {
    if OneReaderPerService(topics) {
      forall w | Leads(topics, Initial(topics), w) ensures NoWakeUpLost(topics, w) {
        WakeUpsAreNotLost(topics, w);
      }
    } else {
      var a, b :| a in topics && b in topics && topics[a] == topics[b] && a != b;
      var w := SharedServiceLosesWakeUp(topics, a, b);
    }
  }

  // ----- Steps that fail --------------------------------------------------------------------------------

  /** A run in which `failure` is the only step that is not harmless loses a wake-up. */
  ghost predicate LosesWakeUp(topics: Topics, failure: Step) {
    exists w, w', w'' :: Leads(topics, Initial(topics), w) && Next(topics, w, failure) == Some(w')
                         && Leads(topics, w', w'') && !NoWakeUpLost(topics, w'')
  }

  /** A send whose notification fails, a drain that fails after having removed the events, and an error
      return after a drain can each lose a wake-up, whoever the reader is. */
  lemma EachFailureCanLoseAWakeUp(topics: Topics, r: Reader)
    requires r in topics
    ensures LosesWakeUp(topics, SendFailsToNotify(topics[r]))
    ensures LosesWakeUp(topics, Deliver(Notification(SUBSCRIBER, 0), DRAIN_FAILED(0)))
    ensures LosesWakeUp(topics, LeaveWithError)
  {
    FailedNotificationLoses(topics, r);
    FailedDrainLoses(topics, r);
    ErrorAfterDrainLoses(topics, r);
  }

  /** Nobody knows any more that `r` has a message. */
  lemma NobodyKnows(topics: Topics, w: World, r: Reader)
    requires r in topics && r in w.mapped && r in w.buffers && w.buffers[r] != [] && w.inFlight == multiset{}
    requires w.waitset.subscribers == [ListenerDetails(topics[r], 0)] && w.unfinished == {}
    requires w.phase.Blocked? ==> w.phase.triggers == []
    ensures !NoWakeUpLost(topics, w)
  {
    assert FindListener(w.waitset.subscribers, topics[r]) == Some(0);
    assert !Covered(topics, w, r);
  }

  lemma FailedNotificationLoses(topics: Topics, r: Reader)
    requires r in topics
    ensures LosesWakeUp(topics, SendFailsToNotify(topics[r]))
  {
    var w0 := Initial(topics);
    LeadsToKnown(topics, r);
    SendFillsBuffers(topics, r);
    LeadsOn(topics, w0, Known(topics, r), Send(topics[r], 0));
    var w := Known(topics, r).(buffers := OneMessage(topics, topics[r]), inFlight := multiset{topics[r]});
    var w' := w.(inFlight := multiset{});
    assert Next(topics, w, SendFailsToNotify(topics[r])) == Some(w');
    LeadsToItself(topics, w');
    NobodyKnows(topics, w', r);
  }

  lemma FailedDrainLoses(topics: Topics, r: Reader)
    requires r in topics
    ensures LosesWakeUp(topics, Deliver(Notification(SUBSCRIBER, 0), DRAIN_FAILED(0)))
  {
    var w0 := Initial(topics);
    LeadsToKnown(topics, r);
    KnownLeadsToAnnounced(topics, r, w0);
    AnnouncedLeadsToAsleep(topics, r, r, w0);
    var w := Asleep(topics, r, r);
    var w' := w.(waitset := OneMapped(topics[r], 0));
    assert [ListenerDetails(topics[r], 1)][0 := ListenerDetails(topics[r], 0)] == [ListenerDetails(topics[r], 0)];
    assert w.phase.triggers + [] == w.phase.triggers;
    assert Next(topics, w, Deliver(Notification(SUBSCRIBER, 0), DRAIN_FAILED(0))) == Some(w');
    LeadsToItself(topics, w');
    NobodyKnows(topics, w', r);
  }

  lemma ErrorAfterDrainLoses(topics: Topics, r: Reader)
    requires r in topics
    ensures LosesWakeUp(topics, LeaveWithError)
  {
    var w0 := Initial(topics);
    LeadsToKnown(topics, r);
    KnownLeadsToAnnounced(topics, r, w0);
    AnnouncedLeadsToAsleep(topics, r, r, w0);
    var event := Deliver(Notification(SUBSCRIBER, 0), DRAINED);
    DrainsTheListener(topics[r]);
    LeadsOn(topics, w0, Asleep(topics, r, r), event);
    var w := Next(topics, Asleep(topics, r, r), event).value;
    var w' := w.(phase := Outside);
    assert Next(topics, w, LeaveWithError) == Some(w');
    LeadsToItself(topics, w');
    NobodyKnows(topics, w', r);
  }
}
