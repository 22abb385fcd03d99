/** What the entry points of a publisher and a subscription answer, and what the answer says about what
    happened: return codes, flags and pointers, for every input. */
module EntryPoints {
  import opened Wrappers
  import opened LoanModel
  import opened LoanAccounting

  /** What is stored stays, also if its address comes again; only a new address adds a sample. */
  lemma StoringKeepsTheFirst(r: Registry, sample: Sample)
    ensures var r' := Store(r, sample);
            r'.Keys == r.Keys + {sample.address}
            && (forall p :: p in r ==> r'[p] == r[p])
            && (sample.address !in r ==> r'[sample.address] == sample)
  {
  }

  // ----- Publisher ---------------------------------------------------------------------------------

  /** Others have seen one more message, and have been told of it or not. */
  predicate SentOneMore(s: PublisherState, s': PublisherState, payload: Bytes, loan: Option<nat>, notified: bool) {
    && s'.sent == s.sent + [Sent(payload, loan)]
    && s'.effects == s.effects + if notified then [SENT, NOTIFIED] else [SENT]
  }

  predicate SentNothing(s: PublisherState, s': PublisherState) {
    s'.sent == s.sent && s'.effects == s.effects
  }

  /** Publishing a copy: the outcome tells exactly what others have seen.  No loan is involved. */
  lemma CopyIsNotified(s: PublisherState, data: Bytes, d: Delivery)
    ensures var (s', outcome) := PublishCopy(s, data, d);
            (outcome.Pass? <==> SentOneMore(s, s', data, None, true))
            && (outcome == Fail(NOTIFICATION_FAILURE) <==> SentOneMore(s, s', data, None, false))
            && (outcome == Fail(SEND_FAILURE) <==> SentNothing(s, s'))
            && (outcome.Pass? <==> d.sends && d.notifies) && (outcome == Fail(SEND_FAILURE) <==> !d.sends)
            && s'.registry == s.registry && s'.granted == s.granted
  {
    EffectsTellApart(s.effects);
    assert s.effects + [SENT] + [NOTIFIED] == s.effects + [SENT, NOTIFIED];
  }

  lemma EffectsTellApart(effects: seq<Effect>)
    ensures effects + [SENT] != effects + [SENT, NOTIFIED]
    ensures effects + [SENT] != effects && effects + [SENT, NOTIFIED] != effects
  {
    assert |effects + [SENT]| == |effects| + 1 && |effects + [SENT, NOTIFIED]| == |effects| + 2;
  }

  /** Publishing a loan: the outcome tells what others have seen, and whether the pointer was good. */
  lemma LoanIsNotified(s: PublisherState, p: Address, d: Delivery)
    ensures var (s', outcome) := PublishLoan(s, p, d);
            (outcome.Pass? <==> p in s.registry && SentOneMore(s, s', s.registry[p].contents, Some(s.registry[p].serial), true))
            && (outcome.Pass? <==> p in s.registry && d.sends && d.notifies)
            && (outcome == Fail(NOTIFICATION_FAILURE) <==>
                  p in s.registry && SentOneMore(s, s', s.registry[p].contents, Some(s.registry[p].serial), false))
            && (outcome == Fail(SEND_FAILURE) <==> p in s.registry && SentNothing(s, s'))
            && (outcome == Fail(INVALID_PAYLOAD) <==> p !in s.registry)
            && (p !in s.registry ==> s' == s)
  {
    EffectsTellApart(s.effects);
    assert s.effects + [SENT] + [NOTIFIED] == s.effects + [SENT, NOTIFIED];
  }

  /** The bytes that one `rmw_publish` sends: the message as it is in memory, or the memory that was granted
      with the serialized message at its front. */
  function Payload(canLoan: bool, image: Bytes, serialized: Option<Bytes>, grant: Grant): Bytes {
    if canLoan then image
    else if grant.Granted? && serialized.Some? then Overlay(grant.contents, serialized.value)
    else []
  }

  /** `rmw_publish` returns OK exactly if its message went out and was announced, on either path. */
  lemma PublishIsNotified(s: PublisherState, canLoan: bool, image: Bytes, serialized: Option<Bytes>, grant: Grant, d: Delivery)
    requires FreshGrant(s, CallPublish(image, serialized, grant, d))
    ensures var (s', rc) := RmwPublish(s, canLoan, image, serialized, grant, d);
            rc in {OK, ERROR}
            && (rc == OK <==> s'.effects == s.effects + [SENT, NOTIFIED])
            && (rc == OK ==> SentOneMore(s, s', Payload(canLoan, image, serialized, grant), if canLoan then None else Some(s.granted), true))
            && (rc == ERROR ==> s'.effects in {s.effects, s.effects + [SENT]})
            && (rc == OK <==> (canLoan || (grant.Granted? && serialized.Some?)) && d.sends && d.notifies)
  {
    EffectsTellApart(s.effects);
    if canLoan {
      CopyIsNotified(s, image, d);
    } else if grant.Granted? && serialized.Some? {
      LoanIsNotified(Write(Loan(s, grant).0, grant.address, serialized.value), grant.address, d);
    }
  }

  /** A loan fails exactly if iceoryx2 refuses it; otherwise it is the newest, under the pointer that is handed out. */
  lemma LoanAnswers(s: PublisherState, grant: Grant)
    requires FreshGrant(s, CallBorrow(grant))
    ensures var (s', r) := Loan(s, grant);
            (r == Err(LOAN_FAILURE) <==> grant.Refused?) && (r.Ok? <==> grant.Granted?)
            && (r.Err? ==> s' == s)
            && (r.Ok? ==> r.value in s'.registry && s'.registry[r.value] == Sample(r.value, s.granted, grant.contents)
                          && s'.granted == s.granted + 1 && SentNothing(s, s'))
  {
  }

  /** A borrowed pointer is the key of the newest loan, which holds what was granted; nothing is lent for a type
      that cannot be loaned. */
  lemma BorrowGivesNewestLoan(s: PublisherState, canLoan: bool, grant: Grant)
    requires FreshGrant(s, CallBorrow(grant))
    ensures var (s', rc, pointer) := RmwBorrow(s, canLoan, grant);
            (rc == INVALID_ARGUMENT <==> !canLoan) && (rc == OK <==> canLoan && grant.Granted?) && rc != UNSUPPORTED
            && (pointer.Some? <==> rc == OK) && SentNothing(s, s')
            && (rc != OK ==> s' == s)
            && (rc == OK ==>
                  pointer.value !in s.registry && pointer.value in s'.registry && s'.registry - {pointer.value} == s.registry
                  && s'.registry[pointer.value] == Sample(pointer.value, s.granted, grant.contents) && s'.granted == s.granted + 1)
  {
    if canLoan && grant.Granted? {
      assert Loan(s, grant).0.registry - {grant.address} == s.registry;
    }
  }

  /** Loans of a type that cannot be loaned are not taken back; others are, exactly if they are outstanding. */
  lemma ReturnAnswers(s: PublisherState, canLoan: bool, p: Address)
    ensures var (s', rc) := RmwReturn(s, canLoan, p);
            (rc == INVALID_ARGUMENT <==> !canLoan) && (rc == OK <==> canLoan && p in s.registry) && rc != UNSUPPORTED
            && SentNothing(s, s') && s'.registry == (if rc == OK then s.registry - {p} else s.registry)
  {
  }

  /** Publishing a loan returns OK exactly if the pointer was outstanding and its message went out and was
      announced. */
  lemma PublishLoanedAnswers(s: PublisherState, p: Address, d: Delivery)
    ensures var (s', rc) := RmwPublishLoaned(s, p, d);
            rc in {OK, ERROR}
            && (rc == OK <==> p in s.registry && d.sends && d.notifies)
            && (rc == OK <==> s'.effects == s.effects + [SENT, NOTIFIED])
            && s'.registry == s.registry - {p}
  {
    EffectsTellApart(s.effects);
    LoanIsNotified(s, p, d);
    assert p !in s.registry ==> s.registry - {p} == s.registry;
  }

  // ----- Subscription --------------------------------------------------------------------------------

  /** A message is there and can be received. */
  predicate Arrived(s: SubscriberState, reception: Reception) {
    reception.Received? && s.queue != []
  }

  /** How the flag and the code of a take relate, whatever kind of take it is: the flag is not written if
      receiving fails; it says that a message was there; and a call that returns OK hands it over exactly
      if it says so. */
  predicate FlagTells<T>(s: SubscriberState, reception: Reception, out: Taken<T>) {
    && (out.taken == Some(true) <==> Arrived(s, reception))
    && (out.taken == Some(false) <==> reception.Received? && s.queue == [])
    && (out.value.Some? <==> out.rc == OK && out.taken == Some(true))
  }

  /** `rmw_take`: the flag, the code and the message.  The oldest message is taken off the buffer whenever one is
      there, even if it cannot be decoded. */
  lemma TakeAnswers<M>(s: SubscriberState, canLoan: bool, reception: Reception, decode: Bytes -> Option<M>)
    requires FreshReception(s, reception)
    ensures var (s', out) := RmwTake(s, canLoan, reception, decode);
            FlagTells(s, reception, out) && out.rc in {OK, ERROR}
            && (out.rc == ERROR <==> reception.ReceiveFails? || (s.queue != [] && !canLoan && decode(s.queue[0]).None?))
            && (out.value.Some? ==> if canLoan then out.value.value == Copied(s.queue[0])
                                    else decode(s.queue[0]).Some? && out.value.value == Decoded(decode(s.queue[0]).value))
            && s'.queue == if Arrived(s, reception) then s.queue[1..] else s.queue
  {
    TakeIsNeutral(s, canLoan, reception, decode);
  }

  /** A loaned take fails exactly if receiving fails; it gives the key of the newest loan, which holds the oldest
      message. */
  lemma TakeLoanedAnswers(s: SubscriberState, canLoan: bool, reception: Reception)
    requires FreshReception(s, reception)
    ensures var (s', out) := RmwTakeLoaned(s, canLoan, reception);
            (out.rc == UNSUPPORTED <==> !canLoan) && (out.rc == ERROR <==> canLoan && reception.ReceiveFails?)
            && out.rc != INVALID_ARGUMENT
            && (canLoan ==> FlagTells(s, reception, out))
            && (!canLoan ==> s' == s && out.taken == None && out.value == None)
            && (out.value.Some? ==>
                  out.value.value in s'.registry && s'.registry - {out.value.value} == s.registry
                  && s'.registry[out.value.value] == Sample(out.value.value, s.received, s.queue[0]) && s'.queue == s.queue[1..])
  {
    if canLoan && Arrived(s, reception) {
      var sample := Sample(reception.address, s.received, s.queue[0]);
      assert Store(s.registry, sample) - {reception.address} == s.registry;
    }
  }

  /** The size that comes with a loan is that of the message. */
  lemma LoanHasItsSize(s: SubscriberState, reception: Reception)
    requires FreshReception(s, reception)
    ensures var (s', r) := TakeLoan(s, reception);
            (r == Err(RECV_FAILURE) <==> reception.ReceiveFails?) && (r == Ok(None) <==> reception.Received? && s.queue == [])
            && (r.Ok? && r.value.Some? ==>
                  r.value.value.bytes in s'.registry && s'.registry[r.value.value.bytes].contents == s.queue[0]
                  && r.value.value.numberOfBytes == |s.queue[0]|)
  {
  }

  lemma TakeSerializedAnswers(s: SubscriberState, reception: Reception, resizes: bool)
    requires FreshReception(s, reception)
    ensures var (s', out) := RmwTakeSerialized(s, reception, resizes);
            FlagTells(s, reception, out) && out.rc in {OK, ERROR}
            && (out.rc == ERROR <==> reception.ReceiveFails? || (s.queue != [] && !resizes))
            && (out.value.Some? ==> out.value.value == s.queue[0])
            && s'.queue == if Arrived(s, reception) then s.queue[1..] else s.queue
  {
    TakeSerializedIsNeutral(s, reception, resizes);
  }

  lemma ReturnToSubscriptionAnswers(s: SubscriberState, canLoan: bool, p: Address)
    ensures var (s', rc) := RmwReturnToSubscription(s, canLoan, p);
            (rc == UNSUPPORTED <==> !canLoan) && (rc == OK <==> canLoan && p in s.registry) && rc != INVALID_ARGUMENT
            && s' == s.(registry := if rc == OK then s.registry - {p} else s.registry)
  {
  }

  // ----- Runs ------------------------------------------------------------------------------------------

  /** How many takes of a run said that they took a message. */
  function FlagsRaised<M>(s: SubscriberState, canLoan: bool, decode: Bytes -> Option<M>, calls: seq<SubscriberCall>): nat
    decreases |calls|
  {
    if calls == [] then 0
    else
      var raised := match calls[0]
        case CallTake(reception) => RmwTake(s, canLoan, reception, decode).1.taken == Some(true)
        case CallTakeLoaned(reception) => RmwTakeLoaned(s, canLoan, reception).1.taken == Some(true)
        case CallTakeSerialized(reception, resizes) => RmwTakeSerialized(s, reception, resizes).1.taken == Some(true)
        case _ => false;
      (if raised then 1 else 0) + FlagsRaised(ApplySubscriber(s, canLoan, decode, calls[0]), canLoan, decode, calls[1..])
  }

  function Arrivals(calls: seq<SubscriberCall>): nat {
    if calls == [] then 0 else (if calls[0].Arrives? then 1 else 0) + Arrivals(calls[1..])
  }

  function QueueAfter<M>(s: SubscriberState, canLoan: bool, decode: Bytes -> Option<M>, calls: seq<SubscriberCall>): nat
    decreases |calls|
  {
    if calls == [] then |s.queue| else QueueAfter(ApplySubscriber(s, canLoan, decode, calls[0]), canLoan, decode, calls[1..])
  }

  lemma CallCountsFlag<M>(s: SubscriberState, canLoan: bool, decode: Bytes -> Option<M>, call: SubscriberCall)
    requires FreshCall(s, call)
    ensures |ApplySubscriber(s, canLoan, decode, call).queue| + FlagsRaised(s, canLoan, decode, [call]) == |s.queue| + Arrivals([call])
  {
    assert [call][1..] == [];
    match call
    case CallTake(reception) => TakeAnswers(s, canLoan, reception, decode);
    case CallTakeLoaned(reception) => TakeLoanedAnswers(s, canLoan, reception);
    case CallTakeSerialized(reception, resizes) => TakeSerializedAnswers(s, reception, resizes);
    case _ =>
  }

  /** The flags account for the buffer: over every run of the subscription's entry points, what is left in it is
      what was there and arrived, less one message for each take that said it took one. */
  lemma {:induction false} FlagsAccountForTheBuffer<M>(
    s: SubscriberState, canLoan: bool, decode: Bytes -> Option<M>, calls: seq<SubscriberCall>)
    requires FreshSubscriberRun(s, canLoan, decode, calls)
    ensures QueueAfter(s, canLoan, decode, calls) + FlagsRaised(s, canLoan, decode, calls) == |s.queue| + Arrivals(calls)
    decreases |calls|
  {
    if calls != [] {
      CallCountsFlag(s, canLoan, decode, calls[0]);
      FlagsAccountForTheBuffer(ApplySubscriber(s, canLoan, decode, calls[0]), canLoan, decode, calls[1..]);
      assert [calls[0]][1..] == [];
    }
  }
}
