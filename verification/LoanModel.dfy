/** Loans, on the sending and on the receiving side, as functions on the state that the objects update
    in place. */
module LoanModel {
  import opened Wrappers

  type Address = nat
  type Bytes = seq<bv8>

  /** A sample that was loaned or received: where its payload is, what it holds, and its place in the
      order in which iceoryx2 handed samples out. */
  datatype Sample = Sample(address: Address, serial: nat, contents: Bytes)

  datatype ReturnCode = OK | ERROR | INVALID_ARGUMENT | UNSUPPORTED

  // ----- SampleRegistry ------------------------------------------------------------------------

  type Registry = map<Address, Sample>

  /** `emplace`: a key that is there keeps its sample. */
  function Store(r: Registry, sample: Sample): Registry {
    if sample.address in r then r else r[sample.address := sample]
  }

  function Release(r: Registry, p: Address): (Registry, Option<Sample>) {
    if p in r then (r - {p}, Some(r[p])) else (r, None)
  }

  // ----- Publisher -------------------------------------------------------------------------------

  datatype PublisherError = LOAN_FAILURE | SEND_FAILURE | NOTIFICATION_FAILURE | INVALID_PAYLOAD

  /** A payload that iceoryx2 has accepted for delivery, and the loan it was written into, if any. */
  datatype Sent = Sent(payload: Bytes, loan: Option<nat>)

  /** What others can observe of a publisher, in the order in which it happens. */
  datatype Effect = SENT | NOTIFIED

  datatype PublisherState = PublisherState(registry: Registry, granted: nat, sent: seq<Sent>, effects: seq<Effect>)

  const NEW_PUBLISHER := PublisherState(map[], 0, [], [])

  /** iceoryx2's answer to a request for memory, which comes uninitialized. */
  datatype Grant = Granted(address: Address, contents: Bytes) | Refused

  /** Whether sending and then notifying succeed. */
  datatype Delivery = Delivery(sends: bool, notifies: bool)

  function Loan(s: PublisherState, grant: Grant): (PublisherState, Result<Address, PublisherError>) {
    match grant
    case Refused => (s, Err(LOAN_FAILURE))
    case Granted(address, contents) =>
      (s.(registry := Store(s.registry, Sample(address, s.granted, contents)), granted := s.granted + 1), Ok(address))
  }

  function ReturnLoan(s: PublisherState, p: Address): (PublisherState, Outcome<PublisherError>) {
    var (r, sample) := Release(s.registry, p);
    (s.(registry := r), if sample.Some? then Pass else Fail(INVALID_PAYLOAD))
  }

  function SendThenNotify(s: PublisherState, payload: Bytes, loan: Option<nat>, d: Delivery)
    : (PublisherState, Outcome<PublisherError>)
  {
    if !d.sends then (s, Fail(SEND_FAILURE))
    else
      var s' := s.(sent := s.sent + [Sent(payload, loan)], effects := s.effects + [SENT]);
      if !d.notifies then (s', Fail(NOTIFICATION_FAILURE)) else (s'.(effects := s'.effects + [NOTIFIED]), Pass)
  }

  /** The sample leaves the registry before it is sent, and so even if sending fails. */
  function PublishLoan(s: PublisherState, p: Address, d: Delivery): (PublisherState, Outcome<PublisherError>) {
    var (r, sample) := Release(s.registry, p);
    match sample
    case None => (s, Fail(INVALID_PAYLOAD))
    case Some(x) => SendThenNotify(s.(registry := r), x.contents, Some(x.serial), d)
  }

  function PublishCopy(s: PublisherState, data: Bytes, d: Delivery): (PublisherState, Outcome<PublisherError>) {
    SendThenNotify(s, data, None, d)
  }

  /** The application, or the serializer, writes to the front of loaned memory. */
  function Overlay(contents: Bytes, written: Bytes): (r: Bytes)
    ensures |r| == |contents|
    ensures |written| <= |contents| ==> written <= r && r[|written|..] == contents[|written|..]
    ensures |written| > |contents| ==> r == contents
  {
    if |written| <= |contents| then written + contents[|written|..] else contents
  }

  function Write(s: PublisherState, p: Address, written: Bytes): PublisherState {
    if p in s.registry then s.(registry := s.registry[p := s.registry[p].(contents := Overlay(s.registry[p].contents, written))])
    else s
  }

  function Code(outcome: Outcome<PublisherError>): ReturnCode {
    if outcome.Pass? then OK else ERROR
  }

  /** `rmw_publish`: `image` is the message in memory, `serialized` the result of serializing it. */
  function RmwPublish(s: PublisherState, canLoan: bool, image: Bytes, serialized: Option<Bytes>, grant: Grant, d: Delivery)
    : (PublisherState, ReturnCode)
  {
    if canLoan then
      var (s', outcome) := PublishCopy(s, image, d);
      (s', Code(outcome))
    else
      var (s1, loan) := Loan(s, grant);
      if loan.Err? then (s1, ERROR)
      else if serialized.None? then (s1, ERROR)
      else
        var (s2, outcome) := PublishLoan(Write(s1, loan.value, serialized.value), loan.value, d);
        (s2, Code(outcome))
  }

  function RmwBorrow(s: PublisherState, canLoan: bool, grant: Grant): (PublisherState, ReturnCode, Option<Address>) {
    if !canLoan then (s, INVALID_ARGUMENT, None)
    else
      var (s', loan) := Loan(s, grant);
      match loan
      case Err(_) => (s', ERROR, None)
      case Ok(p) => (s', OK, Some(p))
  }

  function RmwReturn(s: PublisherState, canLoan: bool, p: Address): (PublisherState, ReturnCode) {
    if !canLoan then (s, INVALID_ARGUMENT)
    else
      var (s', outcome) := ReturnLoan(s, p);
      (s', Code(outcome))
  }

  /** Does not ask whether the type can be loaned. */
  function RmwPublishLoaned(s: PublisherState, p: Address, d: Delivery): (PublisherState, ReturnCode) {
    var (s', outcome) := PublishLoan(s, p, d);
    (s', Code(outcome))
  }

  // ----- Subscriber ------------------------------------------------------------------------------

  datatype SubscriberError = RECV_FAILURE | SUBSCRIBER_INVALID_PAYLOAD

  datatype SubscriberState = SubscriberState(registry: Registry, queue: seq<Bytes>, received: nat)

  datatype SubscriberLoan = SubscriberLoan(bytes: Address, numberOfBytes: nat)

  /** Whether receiving succeeds, and where the sample's payload then is. */
  datatype Reception = Received(address: Address) | ReceiveFails

  /** Receiving takes the oldest payload off the queue, if there is one. */
  function Receive(s: SubscriberState, reception: Reception): (SubscriberState, Result<Option<Sample>, SubscriberError>) {
    match reception
    case ReceiveFails => (s, Err(RECV_FAILURE))
    case Received(address) =>
      if s.queue == [] then (s, Ok(None))
      else (s.(queue := s.queue[1..], received := s.received + 1), Ok(Some(Sample(address, s.received, s.queue[0]))))
  }

  function TakeCopy(s: SubscriberState, reception: Reception): (SubscriberState, Result<Option<Bytes>, SubscriberError>) {
    var (s', result) := Receive(s, reception);
    match result
    case Err(e) => (s', Err(e))
    case Ok(None) => (s', Ok(None))
    case Ok(Some(sample)) => (s', Ok(Some(sample.contents)))
  }

  function TakeLoan(s: SubscriberState, reception: Reception)
    : (SubscriberState, Result<Option<SubscriberLoan>, SubscriberError>)
  {
    var (s', result) := Receive(s, reception);
    match result
    case Err(e) => (s', Err(e))
    case Ok(None) => (s', Ok(None))
    case Ok(Some(sample)) =>
      (s'.(registry := Store(s'.registry, sample)), Ok(Some(SubscriberLoan(sample.address, |sample.contents|))))
  }

  function ReturnSubscriberLoan(s: SubscriberState, p: Address): (SubscriberState, Outcome<SubscriberError>) {
    var (r, sample) := Release(s.registry, p);
    (s.(registry := r), if sample.Some? then Pass else Fail(SUBSCRIBER_INVALID_PAYLOAD))
  }

  /** What a take tells its caller.  `taken` is None if the flag was not written. */
  datatype Taken<T> = Taken(rc: ReturnCode, taken: Option<bool>, value: Option<T>)

  /** A message that arrives: copied as it is in memory, or decoded. */
  datatype Arrived<M> = Copied(image: Bytes) | Decoded(message: M)

  /** `rmw_take`; `decode` is the deserializer, which may refuse. */
  function RmwTake<M>(s: SubscriberState, canLoan: bool, reception: Reception, decode: Bytes -> Option<M>)
    : (SubscriberState, Taken<Arrived<M>>)
  {
    if canLoan then
      var (s', result) := TakeCopy(s, reception);
      match result
      case Err(_) => (s', Taken(ERROR, None, None))
      case Ok(None) => (s', Taken(OK, Some(false), None))
      case Ok(Some(bytes)) => (s', Taken(OK, Some(true), Some(Copied(bytes))))
    else
      var (s1, result) := TakeLoan(s, reception);
      match result
      case Err(_) => (s1, Taken(ERROR, None, None))
      case Ok(None) => (s1, Taken(OK, Some(false), None))
      case Ok(Some(loan)) =>
        if loan.bytes !in s1.registry then (s1, Taken(ERROR, Some(true), None))
        else
          match decode(s1.registry[loan.bytes].contents)
          case None => (s1, Taken(ERROR, Some(true), None))
          case Some(m) =>
            var (s2, outcome) := ReturnSubscriberLoan(s1, loan.bytes);
            (s2, Taken(if outcome.Pass? then OK else ERROR, Some(true), Some(Decoded(m))))
  }

  function RmwTakeLoaned(s: SubscriberState, canLoan: bool, reception: Reception): (SubscriberState, Taken<Address>) {
    if !canLoan then (s, Taken(UNSUPPORTED, None, None))
    else
      var (s', result) := TakeLoan(s, reception);
      match result
      case Err(_) => (s', Taken(ERROR, None, None))
      case Ok(None) => (s', Taken(OK, Some(false), None))
      case Ok(Some(loan)) => (s', Taken(OK, Some(true), Some(loan.bytes)))
  }

  function RmwReturnToSubscription(s: SubscriberState, canLoan: bool, p: Address): (SubscriberState, ReturnCode) {
    if !canLoan then (s, UNSUPPORTED)
    else
      var (s', outcome) := ReturnSubscriberLoan(s, p);
      (s', if outcome.Pass? then OK else ERROR)
  }

  /** `rmw_take_serialized_message`; `resizes` says whether the caller's buffer can be made to fit. */
  function RmwTakeSerialized(s: SubscriberState, reception: Reception, resizes: bool): (SubscriberState, Taken<Bytes>) {
    var (s1, result) := TakeLoan(s, reception);
    match result
    case Err(_) => (s1, Taken(ERROR, None, None))
    case Ok(None) => (s1, Taken(OK, Some(false), None))
    case Ok(Some(loan)) =>
      if !resizes || loan.bytes !in s1.registry then (s1, Taken(ERROR, Some(true), None))
      else
        var bytes := s1.registry[loan.bytes].contents;
        var (s2, outcome) := ReturnSubscriberLoan(s1, loan.bytes);
        (s2, Taken(if outcome.Pass? then OK else ERROR, Some(true), Some(bytes)))
  }
}
