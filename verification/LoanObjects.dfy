/** The objects behind loans - sample registry, publisher, subscriber and their RMW handles - with state
    that is updated in place. */
module LoanObjects {
  import opened Wrappers
  import opened LoanModel
  import Introspection

  class SampleRegistry {
    var samples: Registry

    /** Every key is the payload address of its sample. */
    ghost predicate Valid()
      reads this
    {
      forall p :: p in samples ==> samples[p].address == p
    }

    constructor ()
      ensures Valid() && samples == map[]
    {
      samples := map[];
    }

    method Store(sample: Sample) returns (payload: Address)
      requires Valid()
      modifies this
      ensures Valid() && samples == LoanModel.Store(old(samples), sample)
      ensures payload == sample.address
      ensures samples == if payload in old(samples) then old(samples) else old(samples)[payload := sample]
    {
      payload := sample.address;
      if payload !in samples {
        samples := samples[payload := sample];
      }
    }

    method Retrieve(loanedMemory: Address) returns (sample: Option<Sample>)
      requires Valid()
      ensures sample == if loanedMemory in samples then Some(samples[loanedMemory]) else None
      ensures sample.Some? ==> sample.value.address == loanedMemory
    {
      if loanedMemory in samples {
        return Some(samples[loanedMemory]);
      }
      sample := None;
    }

    method Release(loanedMemory: Address) returns (sample: Option<Sample>)
      requires Valid()
      modifies this
      ensures Valid() && (samples, sample) == LoanModel.Release(old(samples), loanedMemory)
      ensures loanedMemory !in samples && (sample.Some? ==> sample.value.address == loanedMemory)
    {
      if loanedMemory !in samples {
        return None;
      }
      sample := Some(samples[loanedMemory]);
      samples := samples - {loanedMemory};
    }

    /** The owner of the memory, or the serializer, writes to it. */
    method Write(loanedMemory: Address, written: Bytes)
      requires Valid() && loanedMemory in samples
      modifies this
      ensures Valid() && samples == old(samples)[loanedMemory := old(samples[loanedMemory]).(contents := Overlay(old(samples[loanedMemory].contents), written))]
    {
      var sample := samples[loanedMemory];
      samples := samples[loanedMemory := sample.(contents := Overlay(sample.contents, written))];
    }
  }

  class Publisher {
    const registry: SampleRegistry
    const unserializedSize: nat
    var granted: nat
    var sent: seq<Sent>
    var effects: seq<Effect>

    ghost predicate Valid()
      reads this, registry
    {
      registry.Valid()
    }

    ghost function Abs(): PublisherState
      reads this, registry
    {
      PublisherState(registry.samples, granted, sent, effects)
    }

    constructor (unserializedSize: nat)
      ensures Valid() && Abs() == NEW_PUBLISHER && this.unserializedSize == unserializedSize && fresh(registry)
    {
      registry := new SampleRegistry();
      this.unserializedSize := unserializedSize;
      granted, sent, effects := 0, [], [];
    }

    method Loan(grant: Grant) returns (r: Result<Address, PublisherError>)
      requires Valid()
      modifies this, registry
      ensures Valid()
      ensures (Abs(), r) == LoanModel.Loan(old(Abs()), grant)
    {
      match grant
      case Refused => return Err(LOAN_FAILURE);
      case Granted(address, contents) =>
        var ptr := registry.Store(Sample(address, granted, contents));
        granted := granted + 1;
        return Ok(ptr);
    }

    method ReturnLoan(loanedMemory: Address) returns (outcome: Outcome<PublisherError>)
      requires Valid()
      modifies this, registry
      ensures Valid()
      ensures (Abs(), outcome) == LoanModel.ReturnLoan(old(Abs()), loanedMemory)
    {
      var sample := registry.Release(loanedMemory);
      if sample.None? {
        return Fail(INVALID_PAYLOAD);
      }
      outcome := Pass;
    }

    /** Send, and only after that notify. */
    method SendThenNotify(payload: Bytes, loan: Option<nat>, d: Delivery) returns (outcome: Outcome<PublisherError>)
      requires Valid()
      modifies this
      ensures Valid()
      ensures (Abs(), outcome) == LoanModel.SendThenNotify(old(Abs()), payload, loan, d)
    {
      if !d.sends {
        return Fail(SEND_FAILURE);
      }
      sent, effects := sent + [Sent(payload, loan)], effects + [SENT];
      if !d.notifies {
        return Fail(NOTIFICATION_FAILURE);
      }
      effects := effects + [NOTIFIED];
      outcome := Pass;
    }

    method PublishLoan(loanedMemory: Address, d: Delivery) returns (outcome: Outcome<PublisherError>)
      requires Valid()
      modifies this, registry
      ensures Valid()
      ensures (Abs(), outcome) == LoanModel.PublishLoan(old(Abs()), loanedMemory, d)
    {
      var sample := registry.Release(loanedMemory);
      match sample
      case None => return Fail(INVALID_PAYLOAD);
      case Some(x) => outcome := SendThenNotify(x.contents, Some(x.serial), d);
    }

    method PublishCopy(data: Bytes, d: Delivery) returns (outcome: Outcome<PublisherError>)
      requires Valid()
      modifies this
      ensures Valid()
      ensures (Abs(), outcome) == LoanModel.PublishCopy(old(Abs()), data, d)
    {
      outcome := SendThenNotify(data, None, d);
    }
  }

  /** The handle that `rmw_create_publisher` makes. */
  class RmwPublisher {
    const impl: Publisher
    const canLoanMessages: bool

    ghost predicate Valid()
      reads impl, impl.registry
    {
      impl.Valid()
    }

    constructor (ts: Introspection.TypeSupport)
      requires ts.cpp.Some? ==> ts.cpp.value.Some?
      ensures Valid() && canLoanMessages == Introspection.Pod(ts)
      ensures impl.unserializedSize == Introspection.MessageSize(ts) && impl.Abs() == NEW_PUBLISHER
      ensures fresh(impl) && fresh(impl.registry)
    {
      var pod := Introspection.IsPodTypeSupport(ts);
      canLoanMessages := pod;
      impl := new Publisher(Introspection.MessageSize(ts));
    }

    /** `rosMessage` is the memory of the message; `serialized` is what serializing it gives. */
    method Publish(rosMessage: array<bv8>, serialized: Option<Bytes>, grant: Grant, d: Delivery) returns (rc: ReturnCode)
      requires canLoanMessages ==> impl.unserializedSize <= rosMessage.Length
      requires Valid()
      modifies impl, impl.registry
      ensures Valid()
      ensures (impl.Abs(), rc) ==
              RmwPublish(old(impl.Abs()), canLoanMessages, if canLoanMessages then old(rosMessage[..impl.unserializedSize]) else [],
                         serialized, grant, d)
    {
      if canLoanMessages {
        var outcome := impl.PublishCopy(rosMessage[..impl.unserializedSize], d);
        return Code(outcome);
      }
      var loan := impl.Loan(grant);
      if loan.Err? {
        return ERROR;
      }
      if serialized.None? {
        return ERROR;
      }
      impl.registry.Write(loan.value, serialized.value);
      var outcome := impl.PublishLoan(loan.value, d);
      rc := Code(outcome);
    }

    method BorrowLoanedMessage(grant: Grant) returns (rc: ReturnCode, rosMessage: Option<Address>)
      requires Valid()
      modifies impl, impl.registry
      ensures Valid()
      ensures (impl.Abs(), rc, rosMessage) == RmwBorrow(old(impl.Abs()), canLoanMessages, grant)
    {
      if !canLoanMessages {
        return INVALID_ARGUMENT, None;
      }
      var loan := impl.Loan(grant);
      if loan.Err? {
        return ERROR, None;
      }
      return OK, Some(loan.value);
    }

    method ReturnLoanedMessage(loanedMessage: Address) returns (rc: ReturnCode)
      requires Valid()
      modifies impl, impl.registry
      ensures Valid()
      ensures (impl.Abs(), rc) == RmwReturn(old(impl.Abs()), canLoanMessages, loanedMessage)
    {
      if !canLoanMessages {
        return INVALID_ARGUMENT;
      }
      var outcome := impl.ReturnLoan(loanedMessage);
      rc := Code(outcome);
    }

    method PublishLoanedMessage(loanedMessage: Address, d: Delivery) returns (rc: ReturnCode)
      requires Valid()
      modifies impl, impl.registry
      ensures Valid()
      ensures (impl.Abs(), rc) == RmwPublishLoaned(old(impl.Abs()), loanedMessage, d)
    {
      var outcome := impl.PublishLoan(loanedMessage, d);
      rc := Code(outcome);
    }
  }

  class Subscriber {
    const registry: SampleRegistry
    var queue: seq<Bytes>
    var received: nat

    ghost predicate Valid()
      reads this, registry
    {
      registry.Valid()
    }

    ghost function Abs(): SubscriberState
      reads this, registry
    {
      SubscriberState(registry.samples, queue, received)
    }

    constructor ()
      ensures Valid() && Abs() == SubscriberState(map[], [], 0) && fresh(registry)
    {
      registry := new SampleRegistry();
      queue, received := [], 0;
    }

    method Receive(reception: Reception) returns (r: Result<Option<Sample>, SubscriberError>)
      requires Valid()
      modifies this
      ensures Valid()
      ensures (Abs(), r) == LoanModel.Receive(old(Abs()), reception)
    {
      match reception
      case ReceiveFails => return Err(RECV_FAILURE);
      case Received(address) =>
        if queue == [] {
          return Ok(None);
        }
        r := Ok(Some(Sample(address, received, queue[0])));
        queue := queue[1..];
        received := received + 1;
    }

    /** Copies exactly the bytes that were received to the front of the destination. */
    method TakeCopy(dest: array<bv8>, reception: Reception) returns (r: Result<bool, SubscriberError>)
      requires reception.Received? && queue != [] ==> |queue[0]| <= dest.Length
      requires Valid()
      modifies this, dest
      ensures Valid()
      ensures var (s, result) := LoanModel.TakeCopy(old(Abs()), reception);
              Abs() == s
              && match result
                 case Err(e) => r == Err(e) && dest[..] == old(dest[..])
                 case Ok(None) => r == Ok(false) && dest[..] == old(dest[..])
                 case Ok(Some(bytes)) => r == Ok(true) && dest[..] == bytes + old(dest[..])[|bytes|..]
    {
      var result := Receive(reception);
      if result.Err? {
        return Err(result.error);
      }
      if result.value.Some? {
        var payload := result.value.value.contents;
        forall i | 0 <= i < |payload| {
          dest[i] := payload[i];
        }
      }
      return Ok(result.value.Some?);
    }

    method TakeLoan(reception: Reception) returns (r: Result<Option<SubscriberLoan>, SubscriberError>)
      requires Valid()
      modifies this, registry
      ensures Valid()
      ensures (Abs(), r) == LoanModel.TakeLoan(old(Abs()), reception)
    {
      var result := Receive(reception);
      if result.Err? {
        return Err(result.error);
      }
      if result.value.None? {
        return Ok(None);
      }
      var sample := result.value.value;
      var data := registry.Store(sample);
      return Ok(Some(SubscriberLoan(data, |sample.contents|)));
    }

    method ReturnLoan(loanedMemory: Address) returns (outcome: Outcome<SubscriberError>)
      requires Valid()
      modifies this, registry
      ensures Valid()
      ensures (Abs(), outcome) == ReturnSubscriberLoan(old(Abs()), loanedMemory)
    {
      var sample := registry.Release(loanedMemory);
      if sample.None? {
        return Fail(SUBSCRIBER_INVALID_PAYLOAD);
      }
      outcome := Pass;
    }
  }

  /** The handle that `rmw_create_subscription` makes. */
  class RmwSubscription {
    const impl: Subscriber
    const canLoanMessages: bool

    ghost predicate Valid()
      reads impl, impl.registry
    {
      impl.Valid()
    }

    constructor (ts: Introspection.TypeSupport)
      ensures Valid() && canLoanMessages == Introspection.Pod(ts)
      ensures impl.Abs() == SubscriberState(map[], [], 0) && fresh(impl) && fresh(impl.registry)
    {
      var pod := Introspection.IsPodTypeSupport(ts);
      canLoanMessages := pod;
      impl := new Subscriber();
    }

    /** The message is either copied into `rosMessage` or handed over in `decoded`. */
    method Take<M>(rosMessage: array<bv8>, reception: Reception, decode: Bytes -> Option<M>)
      returns (rc: ReturnCode, taken: Option<bool>, decoded: Option<M>)
      requires canLoanMessages && reception.Received? && impl.queue != [] ==> |impl.queue[0]| <= rosMessage.Length
      requires Valid()
      modifies impl, impl.registry, rosMessage
      ensures Valid()
      ensures var (s, out) := RmwTake(old(impl.Abs()), canLoanMessages, reception, decode);
              impl.Abs() == s && rc == out.rc && taken == out.taken
              && match out.value
                 case None => decoded == None && rosMessage[..] == old(rosMessage[..])
                 case Some(Decoded(m)) => decoded == Some(m) && rosMessage[..] == old(rosMessage[..])
                 case Some(Copied(bytes)) => decoded == None && rosMessage[..] == bytes + old(rosMessage[..])[|bytes|..]
    {
      if canLoanMessages {
        var copied := impl.TakeCopy(rosMessage, reception);
        if copied.Err? {
          return ERROR, None, None;
        }
        return OK, Some(copied.value), None;
      }
      var loaned := impl.TakeLoan(reception);
      if loaned.Err? {
        return ERROR, None, None;
      }
      taken := Some(loaned.value.Some?);
      if loaned.value.Some? {
        var loan := loaned.value.value;
        var sample := impl.registry.Retrieve(loan.bytes);
        if sample.None? {
          return ERROR, taken, None;
        }
        var message := decode(sample.value.contents);
        if message.None? {
          return ERROR, taken, None;
        }
        var outcome := impl.ReturnLoan(loan.bytes);
        return if outcome.Pass? then OK else ERROR, taken, message;
      }
      return OK, taken, None;
    }

    method TakeLoanedMessage(reception: Reception) returns (rc: ReturnCode, taken: Option<bool>, loanedMessage: Option<Address>)
      requires Valid()
      modifies impl, impl.registry
      ensures Valid()
      ensures var (s, out) := RmwTakeLoaned(old(impl.Abs()), canLoanMessages, reception);
              impl.Abs() == s && Taken(rc, taken, loanedMessage) == out
    {
      if !canLoanMessages {
        return UNSUPPORTED, None, None;
      }
      var loan := impl.TakeLoan(reception);
      if loan.Err? {
        return ERROR, None, None;
      }
      if loan.value.Some? {
        return OK, Some(true), Some(loan.value.value.bytes);
      }
      return OK, Some(false), None;
    }

    method ReturnLoanedMessage(loanedMessage: Address) returns (rc: ReturnCode)
      requires Valid()
      modifies impl, impl.registry
      ensures Valid()
      ensures (impl.Abs(), rc) == RmwReturnToSubscription(old(impl.Abs()), canLoanMessages, loanedMessage)
    {
      if !canLoanMessages {
        return UNSUPPORTED;
      }
      var outcome := impl.ReturnLoan(loanedMessage);
      rc := if outcome.Pass? then OK else ERROR;
    }

    method TakeSerializedMessage(reception: Reception, resizes: bool)
      returns (rc: ReturnCode, taken: Option<bool>, serializedMessage: Option<Bytes>)
      requires Valid()
      modifies impl, impl.registry
      ensures Valid()
      ensures var (s, out) := RmwTakeSerialized(old(impl.Abs()), reception, resizes);
              impl.Abs() == s && Taken(rc, taken, serializedMessage) == out
    {
      var loaned := impl.TakeLoan(reception);
      if loaned.Err? {
        return ERROR, None, None;
      }
      taken := Some(loaned.value.Some?);
      if loaned.value.Some? {
        var loan := loaned.value.value;
        if !resizes {
          return ERROR, taken, None;
        }
        var sample := impl.registry.Retrieve(loan.bytes);
        if sample.None? {
          return ERROR, taken, None;
        }
        var outcome := impl.ReturnLoan(loan.bytes);
        return if outcome.Pass? then OK else ERROR, taken, Some(sample.value.contents);
      }
      return OK, taken, None;
    }
  }
}
