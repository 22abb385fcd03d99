/** What becomes of every sample that a subscriber receives, over every run of its entry points. */
module SubscriberLifecycle {
  import opened Wrappers
  import opened LoanModel
  import opened LoanLifecycle
  import opened LoanAccounting

  /** Which samples were copied out, and which were received as loans and given back since. */
  datatype Fates = Fates(copied: set<nat>, returned: set<nat>)

  /** What the caller learns from a call. */
  function Learn<M>(s: SubscriberState, canLoan: bool, decode: Bytes -> Option<M>, call: SubscriberCall, l: Fates): Fates {
    match call
    case CallTake(reception) =>
      (match RmwTake(s, canLoan, reception, decode).1.value
       case None => l
       case Some(Copied(_)) => l.(copied := l.copied + {s.received})
       case Some(Decoded(_)) => l.(returned := l.returned + {s.received}))
    case CallTakeLoaned(_) => l
    case CallTakeSerialized(reception, resizes) =>
      if RmwTakeSerialized(s, reception, resizes).1.value.Some? then l.(returned := l.returned + {s.received}) else l
    case CallReturnLoan(p) =>
      if RmwReturnToSubscription(s, canLoan, p).1 == OK && p in s.registry then l.(returned := l.returned + {s.registry[p].serial})
      else l
    case Arrives(_) => l
  }

  function LearnAll<M>(s: SubscriberState, canLoan: bool, decode: Bytes -> Option<M>, calls: seq<SubscriberCall>, l: Fates): Fates
    decreases |calls|
  {
    if calls == [] then l
    else LearnAll(ApplySubscriber(s, canLoan, decode, calls[0]), canLoan, decode, calls[1..], Learn(s, canLoan, decode, calls[0], l))
  }

  function Run<M>(s: SubscriberState, canLoan: bool, decode: Bytes -> Option<M>, calls: seq<SubscriberCall>): SubscriberState
    decreases |calls|
  {
    if calls == [] then s else Run(ApplySubscriber(s, canLoan, decode, calls[0]), canLoan, decode, calls[1..])
  }

  // ----- Exactly one fate ---------------------------------------------------------------------------

  /** Of all samples that were ever received, each is exactly one of outstanding, copied out and given back;
      and every key is the payload address of its sample. */
  ghost predicate Accounted(s: SubscriberState, l: Fates) {
    && WellKeyed(s.registry)
    && Outstanding(s.registry) !! l.copied && Outstanding(s.registry) !! l.returned && l.copied !! l.returned
    && forall n: nat :: n < s.received <==> n in Outstanding(s.registry) || n in l.copied || n in l.returned
  }

  /** One more sample is received and stays registered. */
  lemma StoredStaysAccounted(s: SubscriberState, l: Fates, address: Address, s': SubscriberState)
    requires Accounted(s, l) && address !in s.registry && s.queue != []
    requires s' == s.(registry := Store(s.registry, Sample(address, s.received, s.queue[0])), queue := s.queue[1..], received := s.received + 1)
    ensures Accounted(s', l)
  {
    StoreStartsOneLoan(s.registry, Sample(address, s.received, s.queue[0]));
  }

  /** One more sample is received and does not stay. */
  lemma PassedOnStaysAccounted(s: SubscriberState, l: Fates, s': SubscriberState, l': Fates)
    requires Accounted(s, l) && s'.registry == s.registry && s'.received == s.received + 1
    requires l' in {l.(copied := l.copied + {s.received}), l.(returned := l.returned + {s.received})}
    ensures Accounted(s', l')
  {
  }

  lemma TakeKeepsAccounted<M>(s: SubscriberState, canLoan: bool, decode: Bytes -> Option<M>, reception: Reception, l: Fates)
    requires Accounted(s, l) && FreshReception(s, reception)
    ensures Accounted(RmwTake(s, canLoan, reception, decode).0, Learn(s, canLoan, decode, CallTake(reception), l))
  {
    if reception.Received? && s.queue != [] {
      var s' := RmwTake(s, canLoan, reception, decode).0;
      TakeIsNeutral(s, canLoan, reception, decode);
      if !canLoan && decode(s.queue[0]).None? {
        StoredStaysAccounted(s, l, reception.address, s');
      } else {
        PassedOnStaysAccounted(s, l, s', Learn(s, canLoan, decode, CallTake(reception), l));
      }
    }
  }

  lemma TakeSerializedKeepsAccounted<M>(
    s: SubscriberState, canLoan: bool, decode: Bytes -> Option<M>, reception: Reception, resizes: bool, l: Fates)
    requires Accounted(s, l) && FreshReception(s, reception)
    ensures Accounted(RmwTakeSerialized(s, reception, resizes).0, Learn(s, canLoan, decode, CallTakeSerialized(reception, resizes), l))
  {
    if reception.Received? && s.queue != [] {
      var s' := RmwTakeSerialized(s, reception, resizes).0;
      TakeSerializedIsNeutral(s, reception, resizes);
      if !resizes {
        StoredStaysAccounted(s, l, reception.address, s');
      } else {
        PassedOnStaysAccounted(s, l, s', Learn(s, canLoan, decode, CallTakeSerialized(reception, resizes), l));
      }
    }
  }

  lemma CallKeepsAccounted<M>(s: SubscriberState, canLoan: bool, decode: Bytes -> Option<M>, call: SubscriberCall, l: Fates)
    requires Accounted(s, l) && FreshCall(s, call)
    ensures Accounted(ApplySubscriber(s, canLoan, decode, call), Learn(s, canLoan, decode, call, l))
  {
    match call
    case CallTake(reception) => TakeKeepsAccounted(s, canLoan, decode, reception, l);
    case CallTakeLoaned(reception) =>
      if canLoan && reception.Received? && s.queue != [] {
        StoredStaysAccounted(s, l, reception.address, ApplySubscriber(s, canLoan, decode, call));
      }
    case CallTakeSerialized(reception, resizes) => TakeSerializedKeepsAccounted(s, canLoan, decode, reception, resizes, l);
    case CallReturnLoan(p) =>
      if canLoan && p in s.registry {
        ReleaseEndsOneLoan(s.registry, p);
      }
    case Arrives(_) =>
  }

  lemma {:induction false} RunKeepsAccounted<M>(
    s: SubscriberState, canLoan: bool, decode: Bytes -> Option<M>, calls: seq<SubscriberCall>, l: Fates)
    requires Accounted(s, l) && FreshSubscriberRun(s, canLoan, decode, calls)
    ensures Accounted(Run(s, canLoan, decode, calls), LearnAll(s, canLoan, decode, calls, l))
    decreases |calls|
  {
    if calls != [] {
      CallKeepsAccounted(s, canLoan, decode, calls[0], l);
      RunKeepsAccounted(ApplySubscriber(s, canLoan, decode, calls[0]), canLoan, decode, calls[1..], Learn(s, canLoan, decode, calls[0], l));
    }
  }

  /** Over every run of the entry points of a new subscriber, for every deserializer: every sample received
      is exactly one of outstanding, copied out and given back. */
  lemma EverySampleHasOneFate<M>(canLoan: bool, decode: Bytes -> Option<M>, calls: seq<SubscriberCall>)
    requires FreshSubscriberRun(SubscriberState(map[], [], 0), canLoan, decode, calls)
    ensures Accounted(Run(SubscriberState(map[], [], 0), canLoan, decode, calls),
                      LearnAll(SubscriberState(map[], [], 0), canLoan, decode, calls, Fates({}, {})))
  {
    assert Outstanding(map[]) == {};
    RunKeepsAccounted(SubscriberState(map[], [], 0), canLoan, decode, calls, Fates({}, {}));
  }

  // ----- Pointers that are no longer good -------------------------------------------------------------

  predicate Reissues(call: SubscriberCall, p: Address) {
    (call.CallTake? || call.CallTakeLoaned? || call.CallTakeSerialized?) && call.reception == Received(p)
  }

  lemma {:induction false} ReturnedStaysReturned<M>(
    s: SubscriberState, canLoan: bool, decode: Bytes -> Option<M>, calls: seq<SubscriberCall>, p: Address)
    requires p !in s.registry && forall k :: 0 <= k < |calls| ==> !Reissues(calls[k], p)
    ensures p !in Run(s, canLoan, decode, calls).registry
    decreases |calls|
  {
    if calls != [] {
      assert p !in ApplySubscriber(s, canLoan, decode, calls[0]).registry;
      ReturnedStaysReturned(ApplySubscriber(s, canLoan, decode, calls[0]), canLoan, decode, calls[1..], p);
    }
  }

  /** Once a loan has been given back, every later return of its pointer fails with INVALID_PAYLOAD and changes
      nothing, and so the entry point never returns OK for it, until its address is received again. */
  lemma ReturnedPointersAreRefused<M>(s: SubscriberState, canLoan: bool, decode: Bytes -> Option<M>, calls: seq<SubscriberCall>, p: Address)
    requires forall k :: 0 <= k < |calls| ==> !Reissues(calls[k], p)
    ensures var later := Run(ReturnSubscriberLoan(s, p).0, canLoan, decode, calls);
            ReturnSubscriberLoan(later, p) == (later, Fail(SUBSCRIBER_INVALID_PAYLOAD))
            && RmwReturnToSubscription(later, canLoan, p) == (later, if canLoan then ERROR else UNSUPPORTED)
  {
    ReturnedStaysReturned(ReturnSubscriberLoan(s, p).0, canLoan, decode, calls, p);
  }
}
