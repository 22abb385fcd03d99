/** How many loans are outstanding after any sequence of calls to the entry points, and which calls
    leave one behind. */
module LoanAccounting {
  import opened Wrappers
  import opened LoanModel

  /** Calls that took a loan for the application, calls that gave one up, and calls that failed halfway
      and left theirs registered. */
  datatype Tally = Tally(acquired: nat, released: nat, leaked: nat)

  predicate Balanced(r: Registry, t: Tally) {
    |r| + t.released == t.acquired + t.leaked
  }

  // ----- Publisher entry points -----------------------------------------------------------------------

  datatype PublisherCall =
    | CallPublish(image: Bytes, serialized: Option<Bytes>, grant: Grant, delivery: Delivery)
    | CallBorrow(grant: Grant)
    | ApplicationWrites(p: Address, written: Bytes)
    | CallReturn(p: Address)
    | CallPublishLoaned(p: Address, delivery: Delivery)
    | CallPublishSerialized(data: Bytes, delivery: Delivery)

  function ApplyPublisher(s: PublisherState, canLoan: bool, call: PublisherCall): PublisherState {
    match call
    case CallPublish(image, serialized, grant, d) => RmwPublish(s, canLoan, image, serialized, grant, d).0
    case CallBorrow(grant) => RmwBorrow(s, canLoan, grant).0
    case ApplicationWrites(p, written) => Write(s, p, written)
    case CallReturn(p) => RmwReturn(s, canLoan, p).0
    case CallPublishLoaned(p, d) => RmwPublishLoaned(s, p, d).0
    case CallPublishSerialized(data, d) => PublishCopy(s, data, d).0
  }

  predicate FreshGrant(s: PublisherState, call: PublisherCall) {
    (call.CallPublish? || call.CallBorrow?) && call.grant.Granted? ==> call.grant.address !in s.registry
  }

  /** What the caller can see: return codes, and whether the pointer it passed was outstanding. */
  function CountPublisher(s: PublisherState, canLoan: bool, call: PublisherCall, t: Tally): Tally {
    match call
    case CallPublish(image, serialized, grant, d) =>
      if !canLoan && grant.Granted? && serialized.None? then t.(leaked := t.leaked + 1) else t
    case CallBorrow(grant) => if RmwBorrow(s, canLoan, grant).1 == OK then t.(acquired := t.acquired + 1) else t
    case CallReturn(p) => if RmwReturn(s, canLoan, p).1 == OK then t.(released := t.released + 1) else t
    case CallPublishLoaned(p, d) => if p in s.registry then t.(released := t.released + 1) else t
    case _ => t
  }

  /** `rmw_publish` is neutral: whatever it returns, the registry is exactly as before, except that a
      failed serialization leaves the one new loan behind - and then it does not return OK. */
  lemma PublishIsNeutral(s: PublisherState, canLoan: bool, image: Bytes, serialized: Option<Bytes>, grant: Grant, d: Delivery)
    requires FreshGrant(s, CallPublish(image, serialized, grant, d))
    ensures var (s', rc) := RmwPublish(s, canLoan, image, serialized, grant, d);
            (s'.registry == s.registry <==> canLoan || grant.Refused? || serialized.Some?)
            && (rc == OK ==> s'.registry == s.registry)
            && s.registry.Keys <= s'.registry.Keys && |s'.registry| <= |s.registry| + 1
            && (rc == OK <==> (canLoan || (grant.Granted? && serialized.Some?)) && d.sends && d.notifies)
  {
    if !canLoan && grant.Granted? {
      var r1 := Loan(s, grant).0.registry;
      assert r1 - {grant.address} == s.registry;
      assert grant.address in r1;
      if serialized.Some? {
        var s2 := Write(Loan(s, grant).0, grant.address, serialized.value);
        assert s2.registry - {grant.address} == s.registry;
      }
    }
  }

  lemma ReleaseShrinks(r: Registry, p: Address)
    ensures |Release(r, p).0| == |r| - (if p in r then 1 else 0)
  {
    if p in r {
      assert (r - {p}).Keys == r.Keys - {p};
      assert |r.Keys - {p}| == |r.Keys| - 1;
    }
  }

  lemma StoreGrows(r: Registry, sample: Sample)
    requires sample.address !in r
    ensures |Store(r, sample)| == |r| + 1
  {
    assert r[sample.address := sample].Keys == r.Keys + {sample.address};
  }

  lemma PublisherCallKeepsBalance(s: PublisherState, canLoan: bool, call: PublisherCall, t: Tally)
    requires Balanced(s.registry, t) && FreshGrant(s, call)
    ensures Balanced(ApplyPublisher(s, canLoan, call).registry, CountPublisher(s, canLoan, call, t))
  {
    match call
    case CallPublish(image, serialized, grant, d) =>
      PublishIsNeutral(s, canLoan, image, serialized, grant, d);
      if !canLoan && grant.Granted? && serialized.None? {
        StoreGrows(s.registry, Sample(grant.address, s.granted, grant.contents));
      }
    case CallBorrow(grant) =>
      if canLoan && grant.Granted? {
        StoreGrows(s.registry, Sample(grant.address, s.granted, grant.contents));
      }
    case ApplicationWrites(p, written) =>
      assert Write(s, p, written).registry.Keys == s.registry.Keys;
      assert |Write(s, p, written).registry.Keys| == |s.registry.Keys|;
    case CallReturn(p) => ReleaseShrinks(s.registry, p);
    case CallPublishLoaned(p, d) => ReleaseShrinks(s.registry, p);
    case CallPublishSerialized(data, d) =>
  }

  predicate FreshPublisherRun(s: PublisherState, canLoan: bool, calls: seq<PublisherCall>)
    decreases |calls|
  {
    calls == [] || (FreshGrant(s, calls[0]) && FreshPublisherRun(ApplyPublisher(s, canLoan, calls[0]), canLoan, calls[1..]))
  }

  function RunPublisher(s: PublisherState, canLoan: bool, calls: seq<PublisherCall>, t: Tally): (PublisherState, Tally)
    decreases |calls|
  {
    if calls == [] then (s, t)
    else RunPublisher(ApplyPublisher(s, canLoan, calls[0]), canLoan, calls[1..], CountPublisher(s, canLoan, calls[0], t))
  }

  /** Over every run of the publisher entry points, the outstanding loans are the successful borrows,
      less the loans returned or published, plus one for each failed serialization. */
  lemma {:induction false} PublisherLoansBalance(s: PublisherState, canLoan: bool, calls: seq<PublisherCall>, t: Tally)
    requires Balanced(s.registry, t) && FreshPublisherRun(s, canLoan, calls)
    ensures Balanced(NEW_PUBLISHER.registry, Tally(0, 0, 0))
    ensures var (s', t') := RunPublisher(s, canLoan, calls, t); Balanced(s'.registry, t')
    decreases |calls|
  {
    if calls != [] {
      PublisherCallKeepsBalance(s, canLoan, calls[0], t);
      PublisherLoansBalance(ApplyPublisher(s, canLoan, calls[0]), canLoan, calls[1..], CountPublisher(s, canLoan, calls[0], t));
    }
  }

  // ----- Subscriber entry points ----------------------------------------------------------------------

  datatype SubscriberCall =
    | CallTake(reception: Reception)
    | CallTakeLoaned(reception: Reception)
    | CallTakeSerialized(reception: Reception, resizes: bool)
    | CallReturnLoan(p: Address)
    | Arrives(payload: Bytes)

  function ApplySubscriber<M>(s: SubscriberState, canLoan: bool, decode: Bytes -> Option<M>, call: SubscriberCall): SubscriberState {
    match call
    case CallTake(reception) => RmwTake(s, canLoan, reception, decode).0
    case CallTakeLoaned(reception) => RmwTakeLoaned(s, canLoan, reception).0
    case CallTakeSerialized(reception, resizes) => RmwTakeSerialized(s, reception, resizes).0
    case CallReturnLoan(p) => RmwReturnToSubscription(s, canLoan, p).0
    case Arrives(payload) => s.(queue := s.queue + [payload])
  }

  predicate FreshReception(s: SubscriberState, reception: Reception) {
    reception.Received? ==> reception.address !in s.registry
  }

  predicate FreshCall(s: SubscriberState, call: SubscriberCall) {
    (call.CallTake? || call.CallTakeLoaned? || call.CallTakeSerialized?) ==> FreshReception(s, call.reception)
  }

  /** A take that reports a message and yet returns an error has left its loan registered. */
  function CountSubscriber<M>(s: SubscriberState, canLoan: bool, decode: Bytes -> Option<M>, call: SubscriberCall, t: Tally): Tally {
    match call
    case CallTake(reception) =>
      var out := RmwTake(s, canLoan, reception, decode).1;
      if out.rc == ERROR && out.taken == Some(true) then t.(leaked := t.leaked + 1) else t
    case CallTakeLoaned(reception) =>
      if RmwTakeLoaned(s, canLoan, reception).1.taken == Some(true) then t.(acquired := t.acquired + 1) else t
    case CallTakeSerialized(reception, resizes) =>
      var out := RmwTakeSerialized(s, reception, resizes).1;
      if out.rc == ERROR && out.taken == Some(true) then t.(leaked := t.leaked + 1) else t
    case CallReturnLoan(p) => if RmwReturnToSubscription(s, canLoan, p).1 == OK then t.(released := t.released + 1) else t
    case Arrives(_) => t
  }

  /** `rmw_take` leaves the registry exactly as it was whenever it returns OK.  It leaves a loan behind
      exactly when the type is not self-contained and the message it received cannot be decoded; the
      message is then gone from the queue although the call returned an error. */
  lemma TakeIsNeutral<M>(s: SubscriberState, canLoan: bool, reception: Reception, decode: Bytes -> Option<M>)
    requires FreshReception(s, reception)
    ensures var (s', out) := RmwTake(s, canLoan, reception, decode);
            var undecodable := !canLoan && reception.Received? && s.queue != [] && decode(s.queue[0]).None?;
            (out.rc == OK ==> s'.registry == s.registry)
            && (s'.registry == s.registry <==> !undecodable)
            && (out.rc == ERROR && out.taken == Some(true) <==> undecodable)
            && (undecodable ==> |s'.registry| == |s.registry| + 1 && s'.queue == s.queue[1..])
  {
    if reception.Received? && s.queue != [] {
      var sample := Sample(reception.address, s.received, s.queue[0]);
      StoreGrows(s.registry, sample);
      assert Store(s.registry, sample) - {reception.address} == s.registry;
    }
  }

  lemma TakeSerializedIsNeutral(s: SubscriberState, reception: Reception, resizes: bool)
    requires FreshReception(s, reception)
    ensures var (s', out) := RmwTakeSerialized(s, reception, resizes);
            var stuck := reception.Received? && s.queue != [] && !resizes;
            (out.rc == OK ==> s'.registry == s.registry)
            && (s'.registry == s.registry <==> !stuck)
            && (out.rc == ERROR && out.taken == Some(true) <==> stuck)
            && (stuck ==> |s'.registry| == |s.registry| + 1 && s'.queue == s.queue[1..])
            && (out.value.Some? ==> s.queue != [] && out.value.value == s.queue[0])
  {
    if reception.Received? && s.queue != [] {
      var sample := Sample(reception.address, s.received, s.queue[0]);
      StoreGrows(s.registry, sample);
      assert Store(s.registry, sample) - {reception.address} == s.registry;
    }
  }

  lemma SubscriberCallKeepsBalance<M>(s: SubscriberState, canLoan: bool, decode: Bytes -> Option<M>, call: SubscriberCall, t: Tally)
    requires Balanced(s.registry, t) && FreshCall(s, call)
    ensures Balanced(ApplySubscriber(s, canLoan, decode, call).registry, CountSubscriber(s, canLoan, decode, call, t))
  {
    match call
    case CallTake(reception) => TakeIsNeutral(s, canLoan, reception, decode);
    case CallTakeLoaned(reception) =>
      if canLoan && reception.Received? && s.queue != [] {
        StoreGrows(s.registry, Sample(reception.address, s.received, s.queue[0]));
      }
    case CallTakeSerialized(reception, resizes) => TakeSerializedIsNeutral(s, reception, resizes);
    case CallReturnLoan(p) => ReleaseShrinks(s.registry, p);
    case Arrives(_) =>
  }

  predicate FreshSubscriberRun<M>(s: SubscriberState, canLoan: bool, decode: Bytes -> Option<M>, calls: seq<SubscriberCall>)
    decreases |calls|
  {
    calls == [] || (FreshCall(s, calls[0])
                    && FreshSubscriberRun(ApplySubscriber(s, canLoan, decode, calls[0]), canLoan, decode, calls[1..]))
  }

  function RunSubscriber<M>(s: SubscriberState, canLoan: bool, decode: Bytes -> Option<M>, calls: seq<SubscriberCall>, t: Tally)
    : (SubscriberState, Tally)
    decreases |calls|
  {
    if calls == [] then (s, t)
    else RunSubscriber(ApplySubscriber(s, canLoan, decode, calls[0]), canLoan, decode, calls[1..],
                       CountSubscriber(s, canLoan, decode, calls[0], t))
  }

  /** Over every run of the subscriber entry points, whatever the deserializer does: the outstanding loans
      are the loans taken, less those returned, plus one for each message that could not be decoded or
      for which the caller's buffer could not be resized. */
  lemma {:induction false} SubscriberLoansBalance<M>(
    s: SubscriberState, canLoan: bool, decode: Bytes -> Option<M>, calls: seq<SubscriberCall>, t: Tally)
    requires Balanced(s.registry, t) && FreshSubscriberRun(s, canLoan, decode, calls)
    ensures var (s', t') := RunSubscriber(s, canLoan, decode, calls, t); Balanced(s'.registry, t')
    decreases |calls|
  {
    if calls != [] {
      SubscriberCallKeepsBalance(s, canLoan, decode, calls[0], t);
      SubscriberLoansBalance(ApplySubscriber(s, canLoan, decode, calls[0]), canLoan, decode, calls[1..],
                             CountSubscriber(s, canLoan, decode, calls[0], t));
    }
  }
}
