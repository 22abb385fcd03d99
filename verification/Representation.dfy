/** From message to bytes and back: a publisher and a subscription of the same type choose the same
    representation, and so what is taken is what was sent. */
module Representation {
  import opened Wrappers
  import opened Buffers
  import opened LoanModel
  import Introspection

  /** A message as it lies in memory, and as the serializer writes it. */
  datatype Codec<!M> = Codec(image: M -> Bytes, restore: Bytes -> M, encode: M -> Bytes, decode: Bytes -> Option<M>)

  /** The memory that is copied for a message: as many bytes as its type has, whatever lies behind. */
  function Memory<M>(c: Codec<M>, size: nat, m: M): Bytes {
    if size <= |c.image(m)| then c.image(m)[..size] else c.image(m)
  }

  /** What is asked of the representation that is in use.  Raw copies: the memory behind the pointer is as
      long as the type says, and that much of it holds all of the message.  Serialization: the output is
      read back, whatever follows it in the buffer. */
  ghost predicate RoundTrips<M(!new)>(c: Codec<M>, size: nat, canLoan: bool) {
    if canLoan then forall m: M :: size <= |c.image(m)| && c.restore(Memory(c, size, m)) == m
    else forall m: M, bytes: Bytes :: c.encode(m) <= bytes ==> c.decode(bytes) == Some(m)
  }

  // ----- The system -----------------------------------------------------------------------------------

  datatype System = System(pub: PublisherState, sub: SubscriberState)

  /** Everything an application may do with `rmw_publish`, `rmw_take` and the loan calls. */
  datatype Operation<M> =
    | Publish(message: M, grant: Grant, delivery: Delivery)
    | Borrow(grant: Grant)
    | Construct(p: Address, message: M)
    | ReturnToPublisher(p: Address)
    | PublishLoaned(p: Address, delivery: Delivery)
    | Take(reception: Reception)
    | TakeLoaned(reception: Reception)
    | ReturnToSubscription(p: Address)

  /** A payload that was sent reaches the subscriber's buffer. */
  function Deliver(before: PublisherState, after: PublisherState, sub: SubscriberState): System {
    if |before.sent| < |after.sent| then System(after, sub.(queue := Push(sub.queue, after.sent[|before.sent|].payload)))
    else System(after, sub)
  }

  /** One operation, and the message that the application gets from it. */
  function Apply<M>(c: Codec<M>, size: nat, pubCanLoan: bool, subCanLoan: bool, y: System, op: Operation<M>): (System, Option<M>) {
    match op
    case Publish(m, grant, d) =>
      (Deliver(y.pub, RmwPublish(y.pub, pubCanLoan, Memory(c, size, m), Some(c.encode(m)), grant, d).0, y.sub), None)
    case Borrow(grant) => (y.(pub := RmwBorrow(y.pub, pubCanLoan, grant).0), None)
    case Construct(p, m) => (y.(pub := Write(y.pub, p, Memory(c, size, m))), None)
    case ReturnToPublisher(p) => (y.(pub := RmwReturn(y.pub, pubCanLoan, p).0), None)
    case PublishLoaned(p, d) => (Deliver(y.pub, RmwPublishLoaned(y.pub, p, d).0, y.sub), None)
    case Take(reception) =>
      var (sub', out) := RmwTake(y.sub, subCanLoan, reception, c.decode);
      (y.(sub := sub'), match out.value
                        case None => None
                        case Some(Copied(bytes)) => Some(c.restore(bytes))
                        case Some(Decoded(m)) => Some(m))
    case TakeLoaned(reception) =>
      var (sub', out) := RmwTakeLoaned(y.sub, subCanLoan, reception);
      (y.(sub := sub'), if out.value.Some? && out.value.value in sub'.registry
                        then Some(c.restore(sub'.registry[out.value.value].contents)) else None)
    case ReturnToSubscription(p) => (y.(sub := RmwReturnToSubscription(y.sub, subCanLoan, p).0), None)
  }

  // ----- The specification ------------------------------------------------------------------------------

  /** A topic, seen from outside: the messages sent so far, the position from which the subscriber still
      has them, the positions it has taken, and the loans under construction. */
  datatype Topic<M> = Topic(loans: map<Address, Option<M>>, sent: seq<M>, next: nat, taken: seq<nat>)

  function Send<M>(t: Topic<M>, m: M): Topic<M> {
    var sent := t.sent + [m];
    t.(sent := sent, next := if t.next + BUFFER_SIZE < |sent| then |sent| - BUFFER_SIZE else t.next)
  }

  function TakeNext<M>(t: Topic<M>): (Topic<M>, Option<M>) {
    if |t.sent| <= t.next then (t, None) else (t.(next := t.next + 1, taken := t.taken + [t.next]), Some(t.sent[t.next]))
  }

  /** What an operation means.  It does not mention bytes, and mentions `canLoan` only to refuse. */
  function Meaning<M>(t: Topic<M>, canLoan: bool, op: Operation<M>): (Topic<M>, Option<M>) {
    match op
    case Publish(m, grant, d) => (if d.sends && (canLoan || grant.Granted?) then Send(t, m) else t, None)
    case Borrow(grant) => (if canLoan && grant.Granted? then t.(loans := t.loans[grant.address := None]) else t, None)
    case Construct(p, m) => (if p in t.loans then t.(loans := t.loans[p := Some(m)]) else t, None)
    case ReturnToPublisher(p) => (if canLoan then t.(loans := t.loans - {p}) else t, None)
    case PublishLoaned(p, d) =>
      if p in t.loans && t.loans[p].Some? then
        var t' := t.(loans := t.loans - {p});
        (if d.sends then Send(t', t.loans[p].value) else t', None)
      else (t, None)
    case Take(reception) => if reception.Received? then TakeNext(t) else (t, None)
    case TakeLoaned(reception) => if canLoan && reception.Received? then TakeNext(t) else (t, None)
    case ReturnToSubscription(_) => (t, None)
  }

  /** Live samples have different addresses, granted memory is as long as was asked for, and a loan is
      published only after a message was constructed in it. */
  predicate Admissible<M>(c: Codec<M>, size: nat, y: System, t: Topic<M>, op: Operation<M>) {
    match op
    case Publish(m, grant, _) => grant.Granted? ==> grant.address !in y.pub.registry && |c.encode(m)| <= |grant.contents|
    case Borrow(grant) => grant.Granted? ==> grant.address !in y.pub.registry && |grant.contents| == size
    case PublishLoaned(p, _) => p in t.loans ==> t.loans[p].Some?
    case Take(reception) => reception.Received? ==> reception.address !in y.sub.registry
    case TakeLoaned(reception) => reception.Received? ==> reception.address !in y.sub.registry
    case _ => true
  }

  // ----- Refinement ---------------------------------------------------------------------------------------

  predicate Represents<M>(c: Codec<M>, size: nat, canLoan: bool, bytes: Bytes, m: M) {
    if canLoan then bytes == Memory(c, size, m) else c.encode(m) <= bytes
  }

  ghost predicate QueueRefines<M>(c: Codec<M>, size: nat, canLoan: bool, queue: seq<Bytes>, t: Topic<M>) {
    && t.next + |queue| == |t.sent| && |queue| <= BUFFER_SIZE
    && forall k :: 0 <= k < |queue| ==> Represents(c, size, canLoan, queue[k], t.sent[t.next + k])
  }

  ghost predicate LoansRefine<M(!new)>(c: Codec<M>, size: nat, canLoan: bool, r: Registry, loans: map<Address, Option<M>>) {
    && r.Keys == loans.Keys
    && (!canLoan ==> r == map[])
    && forall p :: p in r ==> |r[p].contents| == size && (loans[p].Some? ==> r[p].contents == Memory(c, size, loans[p].value))
  }

  /** What was sent stands for the messages sent, in order. */
  ghost predicate SentRefines<M>(c: Codec<M>, size: nat, canLoan: bool, payloads: seq<Sent>, sent: seq<M>) {
    |payloads| == |sent| && forall i :: 0 <= i < |sent| ==> Represents(c, size, canLoan, payloads[i].payload, sent[i])
  }

  ghost predicate Refines<M(!new)>(c: Codec<M>, size: nat, canLoan: bool, y: System, t: Topic<M>) {
    && QueueRefines(c, size, canLoan, y.sub.queue, t)
    && LoansRefine(c, size, canLoan, y.pub.registry, t.loans)
    && SentRefines(c, size, canLoan, y.pub.sent, t.sent)
  }

  lemma PushRefines<M>(c: Codec<M>, size: nat, canLoan: bool, queue: seq<Bytes>, t: Topic<M>, bytes: Bytes, m: M)
    requires QueueRefines(c, size, canLoan, queue, t) && Represents(c, size, canLoan, bytes, m)
    ensures QueueRefines(c, size, canLoan, Push(queue, bytes), Send(t, m))
  {
    var queue', t' := Push(queue, bytes), Send(t, m);
    forall k | 0 <= k < |queue'| ensures Represents(c, size, canLoan, queue'[k], t'.sent[t'.next + k]) {
      if k < |queue'| - 1 {
        var j := if |queue| < BUFFER_SIZE then k else k + 1;
        assert queue'[k] == queue[j] && t'.sent[t'.next + k] == t.sent[t.next + j];
      }
    }
  }

  lemma PublishRefines<M(!new)>(c: Codec<M>, size: nat, canLoan: bool, y: System, t: Topic<M>, m: M, grant: Grant, d: Delivery)
    requires RoundTrips(c, size, canLoan) && Refines(c, size, canLoan, y, t)
    requires Admissible(c, size, y, t, Publish(m, grant, d))
    ensures Refines(c, size, canLoan, Apply(c, size, canLoan, canLoan, y, Publish(m, grant, d)).0, Meaning(t, canLoan, Publish(m, grant, d)).0)
  {
    if canLoan {
      PushRefines(c, size, canLoan, y.sub.queue, t, Memory(c, size, m), m);
    } else if grant.Granted? {
      var bytes := Overlay(grant.contents, c.encode(m));
      assert c.encode(m) <= bytes;
      PushRefines(c, size, canLoan, y.sub.queue, t, bytes, m);
      var s1 := LoanModel.Loan(y.pub, grant).0;
      assert s1.registry == map[grant.address := Sample(grant.address, y.pub.granted, grant.contents)];
      var s2 := Write(s1, grant.address, c.encode(m));
      assert s2.registry == map[grant.address := Sample(grant.address, y.pub.granted, bytes)];
      assert s2.registry - {grant.address} == map[];
    }
  }

  lemma PublishLoanedRefines<M(!new)>(c: Codec<M>, size: nat, canLoan: bool, y: System, t: Topic<M>, p: Address, d: Delivery)
    requires RoundTrips(c, size, canLoan) && Refines(c, size, canLoan, y, t)
    requires Admissible(c, size, y, t, PublishLoaned(p, d))
    ensures Refines(c, size, canLoan, Apply(c, size, canLoan, canLoan, y, PublishLoaned(p, d)).0, Meaning(t, canLoan, PublishLoaned(p, d)).0)
  {
    if p in t.loans {
      var m := t.loans[p].value;
      var t' := t.(loans := t.loans - {p});
      assert QueueRefines(c, size, canLoan, y.sub.queue, t');
      PushRefines(c, size, canLoan, y.sub.queue, t', y.pub.registry[p].contents, m);
      assert (y.pub.registry - {p}).Keys == (t.loans - {p}).Keys;
    }
  }

  lemma ConstructRefines<M(!new)>(c: Codec<M>, size: nat, canLoan: bool, y: System, t: Topic<M>, p: Address, m: M)
    requires RoundTrips(c, size, canLoan) && Refines(c, size, canLoan, y, t)
    ensures Refines(c, size, canLoan, Apply(c, size, canLoan, canLoan, y, Construct(p, m)).0, Meaning(t, canLoan, Construct(p, m)).0)
  {
    var r := y.pub.registry;
    if p in r {
      assert Overlay(r[p].contents, Memory(c, size, m)) == Memory(c, size, m);
    }
  }

  lemma NextInQueue<M>(c: Codec<M>, size: nat, canLoan: bool, queue: seq<Bytes>, t: Topic<M>)
    requires QueueRefines(c, size, canLoan, queue, t) && queue != []
    ensures t.next < |t.sent| && Represents(c, size, canLoan, queue[0], t.sent[t.next])
    ensures QueueRefines(c, size, canLoan, queue[1..], TakeNext(t).0)
  {
    assert Represents(c, size, canLoan, queue[0], t.sent[t.next + 0]);
    var t' := TakeNext(t).0;
    forall k | 0 <= k < |queue| - 1 ensures Represents(c, size, canLoan, queue[1..][k], t'.sent[t'.next + k]) {
      assert queue[1..][k] == queue[k + 1] && t'.sent[t'.next + k] == t.sent[t.next + (k + 1)];
    }
  }

  lemma TakeRefines<M(!new)>(c: Codec<M>, size: nat, canLoan: bool, y: System, t: Topic<M>, reception: Reception)
    requires RoundTrips(c, size, canLoan) && Refines(c, size, canLoan, y, t)
    requires reception.Received? ==> reception.address !in y.sub.registry
    ensures var (y', got) := Apply(c, size, canLoan, canLoan, y, Take(reception));
            var (t', meant) := Meaning(t, canLoan, Take(reception));
            Refines(c, size, canLoan, y', t') && got == meant
  {
    if reception.Received? && y.sub.queue != [] {
      NextInQueue(c, size, canLoan, y.sub.queue, t);
    }
  }

  lemma TakeLoanedRefines<M(!new)>(c: Codec<M>, size: nat, canLoan: bool, y: System, t: Topic<M>, reception: Reception)
    requires RoundTrips(c, size, canLoan) && Refines(c, size, canLoan, y, t)
    requires reception.Received? ==> reception.address !in y.sub.registry
    ensures var (y', got) := Apply(c, size, canLoan, canLoan, y, TakeLoaned(reception));
            var (t', meant) := Meaning(t, canLoan, TakeLoaned(reception));
            Refines(c, size, canLoan, y', t') && got == meant
  {
    if canLoan && reception.Received? && y.sub.queue != [] {
      NextInQueue(c, size, canLoan, y.sub.queue, t);
    }
  }

  lemma StepRefines<M(!new)>(c: Codec<M>, size: nat, canLoan: bool, y: System, t: Topic<M>, op: Operation<M>)
    requires RoundTrips(c, size, canLoan) && Refines(c, size, canLoan, y, t) && Admissible(c, size, y, t, op)
    ensures var (y', got) := Apply(c, size, canLoan, canLoan, y, op);
            var (t', meant) := Meaning(t, canLoan, op);
            Refines(c, size, canLoan, y', t') && got == meant
  {
    match op
    case Publish(m, grant, d) => PublishRefines(c, size, canLoan, y, t, m, grant, d);
    case Borrow(grant) =>
    case Construct(p, m) => ConstructRefines(c, size, canLoan, y, t, p, m);
    case ReturnToPublisher(p) =>
      if canLoan {
        assert (y.pub.registry - {p}).Keys == (t.loans - {p}).Keys;
        assert p !in y.pub.registry ==> y.pub.registry - {p} == y.pub.registry;
      }
    case PublishLoaned(p, d) => PublishLoanedRefines(c, size, canLoan, y, t, p, d);
    case Take(reception) => TakeRefines(c, size, canLoan, y, t, reception);
    case TakeLoaned(reception) => TakeLoanedRefines(c, size, canLoan, y, t, reception);
    case ReturnToSubscription(p) =>
  }

  // ----- Runs -----------------------------------------------------------------------------------------------

  predicate AdmissibleRun<M>(c: Codec<M>, size: nat, canLoan: bool, y: System, t: Topic<M>, ops: seq<Operation<M>>)
    decreases |ops|
  {
    ops == [] || (Admissible(c, size, y, t, ops[0])
                  && AdmissibleRun(c, size, canLoan, Apply(c, size, canLoan, canLoan, y, ops[0]).0, Meaning(t, canLoan, ops[0]).0, ops[1..]))
  }

  /** The messages that the application gets, operation by operation. */
  function Outputs<M>(c: Codec<M>, size: nat, pubCanLoan: bool, subCanLoan: bool, y: System, ops: seq<Operation<M>>): seq<Option<M>>
    decreases |ops|
  {
    if ops == [] then []
    else
      var (y', got) := Apply(c, size, pubCanLoan, subCanLoan, y, ops[0]);
      [got] + Outputs(c, size, pubCanLoan, subCanLoan, y', ops[1..])
  }

  function RunSystem<M>(c: Codec<M>, size: nat, pubCanLoan: bool, subCanLoan: bool, y: System, ops: seq<Operation<M>>): System
    decreases |ops|
  {
    if ops == [] then y
    else RunSystem(c, size, pubCanLoan, subCanLoan, Apply(c, size, pubCanLoan, subCanLoan, y, ops[0]).0, ops[1..])
  }

  function Meanings<M>(t: Topic<M>, canLoan: bool, ops: seq<Operation<M>>): seq<Option<M>>
    decreases |ops|
  {
    if ops == [] then []
    else
      var (t', meant) := Meaning(t, canLoan, ops[0]);
      [meant] + Meanings(t', canLoan, ops[1..])
  }

  function Final<M>(t: Topic<M>, canLoan: bool, ops: seq<Operation<M>>): Topic<M>
    decreases |ops|
  {
    if ops == [] then t else Final(Meaning(t, canLoan, ops[0]).0, canLoan, ops[1..])
  }

  lemma {:induction false} RunRefines<M(!new)>(c: Codec<M>, size: nat, canLoan: bool, y: System, t: Topic<M>, ops: seq<Operation<M>>)
    requires RoundTrips(c, size, canLoan) && Refines(c, size, canLoan, y, t) && AdmissibleRun(c, size, canLoan, y, t, ops)
    ensures Outputs(c, size, canLoan, canLoan, y, ops) == Meanings(t, canLoan, ops)
    ensures Refines(c, size, canLoan, RunSystem(c, size, canLoan, canLoan, y, ops), Final(t, canLoan, ops))
    decreases |ops|
  {
    if ops != [] {
      StepRefines(c, size, canLoan, y, t, ops[0]);
      RunRefines(c, size, canLoan, Apply(c, size, canLoan, canLoan, y, ops[0]).0, Meaning(t, canLoan, ops[0]).0, ops[1..]);
    }
  }

  const NEW_SYSTEM := System(NEW_PUBLISHER, SubscriberState(map[], [], 0))

  function NewTopic<M>(): Topic<M> {
    Topic(map[], [], 0, [])
  }

  /** A run from the start, of a publisher and a subscription that were made with the same type support. */
  ghost predicate SameTypeSupportRun<M(!new)>(c: Codec<M>, ts: Introspection.TypeSupport, ops: seq<Operation<M>>) {
    && (ts.cpp.Some? ==> ts.cpp.value.Some?)
    && RoundTrips(c, Introspection.MessageSize(ts), Introspection.Pod(ts))
    && AdmissibleRun(c, Introspection.MessageSize(ts), Introspection.Pod(ts), NEW_SYSTEM, NewTopic(), ops)
  }

  /** A publisher and a subscription with the same type support, whether its type is self-contained or not,
      hand on messages: over every run, the application gets exactly the messages that the byte-free
      specification says. */
  lemma SameTypeSupportHandsOnMessages<M(!new)>(c: Codec<M>, ts: Introspection.TypeSupport, ops: seq<Operation<M>>)
    requires SameTypeSupportRun(c, ts, ops)
    ensures var size, pod := Introspection.MessageSize(ts), Introspection.Pod(ts);
            Outputs(c, size, pod, pod, NEW_SYSTEM, ops) == Meanings(NewTopic(), pod, ops)
  {
    RunRefines(c, Introspection.MessageSize(ts), Introspection.Pod(ts), NEW_SYSTEM, NewTopic(), ops);
  }

  /** Every raw copy is of exactly the message size, over every run of a self-contained type: what was sent,
      what is under construction, and what the next `take_copy` writes. */
  lemma RawCopiesHaveMessageSize<M(!new)>(c: Codec<M>, ts: Introspection.TypeSupport, ops: seq<Operation<M>>, reception: Reception)
    requires SameTypeSupportRun(c, ts, ops) && Introspection.Pod(ts)
    ensures var size := Introspection.MessageSize(ts);
            var y := RunSystem(c, size, true, true, NEW_SYSTEM, ops);
            var out := LoanModel.TakeCopy(y.sub, reception).1;
            (forall i :: 0 <= i < |y.pub.sent| ==> |y.pub.sent[i].payload| == size)
            && (forall p :: p in y.pub.registry ==> |y.pub.registry[p].contents| == size)
            && (out.Ok? && out.value.Some? ==> |out.value.value| == size)
  {
    var size := Introspection.MessageSize(ts);
    var y, t := RunSystem(c, size, true, true, NEW_SYSTEM, ops), Final(NewTopic(), true, ops);
    RunRefines(c, size, true, NEW_SYSTEM, NewTopic(), ops);
    forall i | 0 <= i < |y.pub.sent| ensures |y.pub.sent[i].payload| == size {
      assert Represents(c, size, true, y.pub.sent[i].payload, t.sent[i]);
    }
    if y.sub.queue != [] {
      NextInQueue(c, size, true, y.sub.queue, t);
    }
  }

  // ----- Both sides have to agree --------------------------------------------------------------------------------

  /** A type with two messages: in memory a one stands for `Yes`, and serialized a zero does. */
  datatype Answer = No | Yes

  function AnswerImage(m: Answer): Bytes {
    [if m.Yes? then 1 else 0]
  }

  function AnswerEncoded(m: Answer): Bytes {
    [if m.Yes? then 0 else 1]
  }

  function AnswerRestored(bytes: Bytes): Answer {
    if bytes != [] && bytes[0] == 1 then Yes else No
  }

  function AnswerDecoded(bytes: Bytes): Option<Answer> {
    if bytes == [] then None else Some(if bytes[0] == 0 then Yes else No)
  }

  const ANSWER := Codec(AnswerImage, AnswerRestored, AnswerEncoded, AnswerDecoded)

  const SEND_YES := Publish(Yes, Granted(0, [0]), Delivery(true, true))

  lemma AnswerRoundTrips()
    ensures RoundTrips(ANSWER, 1, true) && RoundTrips(ANSWER, 1, false)
  {
    forall m: Answer ensures 1 <= |ANSWER.image(m)| && ANSWER.restore(Memory(ANSWER, 1, m)) == m {
      assert Memory(ANSWER, 1, m) == AnswerImage(m);
    }
    forall m: Answer, bytes: Bytes | ANSWER.encode(m) <= bytes ensures ANSWER.decode(bytes) == Some(m) {
      assert bytes[0] == AnswerEncoded(m)[0];
    }
  }

  lemma AnswerSent(canLoan: bool)
    ensures Apply(ANSWER, 1, canLoan, canLoan, NEW_SYSTEM, SEND_YES).0.sub == SubscriberState(map[], [[if canLoan then 1 else 0]], 0)
  {
    var payload: Bytes := [if canLoan then 1 else 0];
    assert Memory(ANSWER, 1, Yes) == [1];
    if !canLoan {
      AnswerSerialized();
    }
    var after := RmwPublish(NEW_PUBLISHER, canLoan, Memory(ANSWER, 1, Yes), Some([0]), Granted(0, [0]), Delivery(true, true)).0;
    assert |after.sent| == 1 && after.sent[0].payload == payload;
    assert Push([], payload) == [payload];
  }

  lemma AnswerSerialized()
    ensures RmwPublish(NEW_PUBLISHER, false, [1], Some([0]), Granted(0, [0]), Delivery(true, true)).0.sent == [Sent([0], Some(0))]
  {
    var s1 := LoanModel.Loan(NEW_PUBLISHER, Granted(0, [0])).0;
    assert s1.registry == map[0 := Sample(0, 0, [0])];
    assert Overlay([0], [0]) == [0];
    assert Write(s1, 0, [0]).registry == map[0 := Sample(0, 0, [0])];
  }

  lemma AnswerTaken(pubCanLoan: bool, y: System)
    requires y.sub == SubscriberState(map[], [[if pubCanLoan then 1 else 0]], 0)
    ensures Apply(ANSWER, 1, pubCanLoan, !pubCanLoan, y, Take(Received(7))).1 == Some(No)
  {
    assert RmwTake(y.sub, !pubCanLoan, Received(7), ANSWER.decode).1.value == Some(if pubCanLoan then Decoded(No) else Copied([0]));
  }

  /** If one side copies and the other serializes, a message can arrive as another one, although both
      representations round-trip: here `Yes` is sent, and `No` is taken. */
  lemma DifferentRepresentationsGarble(pubCanLoan: bool)
    ensures RoundTrips(ANSWER, 1, true) && RoundTrips(ANSWER, 1, false)
    ensures Outputs(ANSWER, 1, pubCanLoan, !pubCanLoan, NEW_SYSTEM, [SEND_YES, Take(Received(7))]) == [None, Some(No)]
  {
    AnswerSent(pubCanLoan);
    var y := Apply(ANSWER, 1, pubCanLoan, !pubCanLoan, NEW_SYSTEM, SEND_YES).0;
    assert y.sub == Apply(ANSWER, 1, pubCanLoan, pubCanLoan, NEW_SYSTEM, SEND_YES).0.sub;
    AnswerTaken(pubCanLoan, y);
    var ops := [SEND_YES, Take(Received(7))];
    assert ops[1..] == [Take(Received(7))] && ops[1..][1..] == [];
    assert Outputs(ANSWER, 1, pubCanLoan, !pubCanLoan, y, ops[1..]) == [Some(No)];
    AnswerRoundTrips();
  }

  // ----- What serialization is asked for can be had ------------------------------------------------------------

  function Unary(n: nat): Bytes {
    if n == 0 then [0] else [1] + Unary(n - 1)
  }

  function FromUnary(bytes: Bytes): Option<nat> {
    if bytes == [] then None
    else if bytes[0] == 0 then Some(0)
    else
      match FromUnary(bytes[1..])
      case None => None
      case Some(n) => Some(n + 1)
  }

  lemma {:induction false} UnaryIsReadBack(n: nat, bytes: Bytes)
    ensures Unary(n) <= bytes ==> FromUnary(bytes) == Some(n)
  {
    if n > 0 && Unary(n) <= bytes {
      assert Unary(n)[1..] == Unary(n - 1);
      UnaryIsReadBack(n - 1, bytes[1..]);
    }
  }

  /** A type with infinitely many messages meets what is asked of serialization, whatever its size in
      memory. */
  lemma UnboundedTypesCanRoundTrip(size: nat)
    ensures RoundTrips(Codec(_ => [], _ => 0, Unary, FromUnary), size, false)
  {
    forall n: nat, bytes: Bytes | Unary(n) <= bytes ensures FromUnary(bytes) == Some(n) {
      UnaryIsReadBack(n, bytes);
    }
  }

  // ----- What the specification promises -----------------------------------------------------------------------

  /** The taken positions strictly increase and lie before the next one; if none was skipped they are all
      of them. */
  predicate InOrder<M>(t: Topic<M>) {
    && t.next <= |t.sent| && |t.taken| <= t.next
    && (forall i, j :: 0 <= i < j < |t.taken| ==> t.taken[i] < t.taken[j])
    && (forall i :: 0 <= i < |t.taken| ==> t.taken[i] < t.next)
  }

  /** The messages among the outputs. */
  function Messages<M>(outputs: seq<Option<M>>): seq<M> {
    if outputs == [] then [] else (if outputs[0].Some? then [outputs[0].value] else []) + Messages(outputs[1..])
  }

  /** The messages at the positions in a list. */
  function At<M>(sent: seq<M>, positions: seq<nat>): seq<M>
    requires forall i :: 0 <= i < |positions| ==> positions[i] < |sent|
  {
    seq(|positions|, i requires 0 <= i < |positions| => sent[positions[i]])
  }

  lemma StepKeepsOrder<M>(t: Topic<M>, canLoan: bool, op: Operation<M>)
    requires InOrder(t)
    ensures var (t', meant) := Meaning(t, canLoan, op);
            InOrder(t') && t.sent <= t'.sent
            && t'.taken == t.taken + (if meant.Some? then [t.next] else [])
            && (meant.Some? ==> t.next < |t.sent| && meant.value == t.sent[t.next])
  {
  }

  lemma {:induction false} RunKeepsOrder<M>(t: Topic<M>, canLoan: bool, ops: seq<Operation<M>>)
    requires InOrder(t)
    ensures var t' := Final(t, canLoan, ops); InOrder(t') && t.sent <= t'.sent && t.taken <= t'.taken
    decreases |ops|
  {
    if ops != [] {
      StepKeepsOrder(t, canLoan, ops[0]);
      RunKeepsOrder(Meaning(t, canLoan, ops[0]).0, canLoan, ops[1..]);
    }
  }

  lemma TakenFrom<M>(sent: seq<M>, taken: seq<nat>, k: nat, k': nat)
    requires k <= k' <= k + 1 && k' <= |taken| && forall i :: 0 <= i < |taken| ==> taken[i] < |sent|
    ensures At(sent, taken[k..]) == (if k < k' then [sent[taken[k]]] else []) + At(sent, taken[k'..])
  {
  }

  lemma {:induction false} MessagesAreTaken<M>(t: Topic<M>, canLoan: bool, ops: seq<Operation<M>>)
    requires InOrder(t)
    ensures var t' := Final(t, canLoan, ops);
            InOrder(t') && t.sent <= t'.sent && t.taken <= t'.taken
            && Messages(Meanings(t, canLoan, ops)) == At(t'.sent, t'.taken[|t.taken|..])
    decreases |ops|
  {
    RunKeepsOrder(t, canLoan, ops);
    if ops != [] {
      var t1 := Meaning(t, canLoan, ops[0]).0;
      StepKeepsOrder(t, canLoan, ops[0]);
      RunKeepsOrder(t1, canLoan, ops[1..]);
      MessagesAreTaken(t1, canLoan, ops[1..]);
      MessagesOneMore(t, canLoan, ops, Final(t, canLoan, ops));
    }
  }

  lemma MessagesOneMore<M>(t: Topic<M>, canLoan: bool, ops: seq<Operation<M>>, t': Topic<M>)
    requires InOrder(t) && InOrder(t') && ops != []
    requires var t1 := Meaning(t, canLoan, ops[0]).0;
             t1.sent <= t'.sent && t1.taken <= t'.taken
             && Messages(Meanings(t1, canLoan, ops[1..])) == At(t'.sent, t'.taken[|t1.taken|..])
    ensures t.taken <= t'.taken && Messages(Meanings(t, canLoan, ops)) == At(t'.sent, t'.taken[|t.taken|..])
  {
    var (t1, meant) := Meaning(t, canLoan, ops[0]);
    StepKeepsOrder(t, canLoan, ops[0]);
    TakenFrom(t'.sent, t'.taken, |t.taken|, |t1.taken|);
    assert Meanings(t, canLoan, ops)[1..] == Meanings(t1, canLoan, ops[1..]);
    if meant.Some? {
      assert t'.taken[|t.taken|] == t1.taken[|t.taken|] == t.next;
      assert t'.sent[t.next] == t1.sent[t.next] == t.sent[t.next];
    }
  }

  lemma WithoutSkipping<M>(t: Topic<M>)
    requires InOrder(t)
    ensures |t.taken| == t.next ==> At(t.sent, t.taken) == t.sent[..t.next]
  {
    if |t.taken| == t.next {
      forall i | 0 <= i < |t.taken| ensures t.taken[i] == i {
        PositionsAtLeast(t.taken, i);
        PositionsAtMost(t.taken, t.next, i);
      }
    }
  }

  lemma {:induction false} PositionsAtLeast(positions: seq<nat>, i: nat)
    requires i < |positions| && forall i, j :: 0 <= i < j < |positions| ==> positions[i] < positions[j]
    ensures i <= positions[i]
  {
    if i > 0 {
      PositionsAtLeast(positions, i - 1);
    }
  }

  lemma {:induction false} PositionsAtMost(positions: seq<nat>, next: nat, i: nat)
    requires i < |positions| == next && forall i, j :: 0 <= i < j < |positions| ==> positions[i] < positions[j]
    requires forall i :: 0 <= i < |positions| ==> positions[i] < next
    ensures positions[i] <= i
    decreases |positions| - i
  {
    if i + 1 < |positions| {
      PositionsAtMost(positions, next, i + 1);
    }
  }

  /** How many positions the subscriber will never get. */
  function Skipped<M>(t: Topic<M>): int {
    t.next - |t.taken|
  }

  /** At every prefix of the run, at most a bufferful of the messages sent have not been taken. */
  predicate NeverOverflows<M>(t: Topic<M>, canLoan: bool, ops: seq<Operation<M>>)
    decreases |ops|
  {
    |t.sent| - |t.taken| <= BUFFER_SIZE
    && (ops == [] || NeverOverflows(Meaning(t, canLoan, ops[0]).0, canLoan, ops[1..]))
  }

  lemma StepSkips<M>(t: Topic<M>, canLoan: bool, op: Operation<M>)
    requires InOrder(t) && |t.sent| <= t.next + BUFFER_SIZE
    ensures var t' := Meaning(t, canLoan, op).0;
            InOrder(t') && |t'.sent| <= t'.next + BUFFER_SIZE && Skipped(t) <= Skipped(t')
            && (Skipped(t') != Skipped(t) ==> |t'.sent| == t'.next + BUFFER_SIZE)
  {
  }

  lemma {:induction false} SkippingMeansOverflow<M>(t: Topic<M>, canLoan: bool, ops: seq<Operation<M>>)
    requires InOrder(t) && |t.sent| <= t.next + BUFFER_SIZE
    ensures Skipped(t) <= Skipped(Final(t, canLoan, ops))
    ensures Skipped(Final(t, canLoan, ops)) == 0 <==> Skipped(t) == 0 && NeverOverflows(t, canLoan, ops)
    decreases |ops|
  {
    if ops != [] {
      StepSkips(t, canLoan, ops[0]);
      SkippingMeansOverflow(Meaning(t, canLoan, ops[0]).0, canLoan, ops[1..]);
    }
  }

  /** Queue order, over every run of a publisher and a subscription with the same type support.  The
      messages the application gets are messages that were sent, at strictly increasing positions.  No
      position is ever skipped exactly if at most a bufferful of messages was untaken at any time, and
      then the application gets exactly the first messages sent. */
  lemma TakenInOrder<M(!new)>(c: Codec<M>, ts: Introspection.TypeSupport, ops: seq<Operation<M>>)
    requires SameTypeSupportRun(c, ts, ops)
    ensures var size, pod := Introspection.MessageSize(ts), Introspection.Pod(ts);
            var got := Messages(Outputs(c, size, pod, pod, NEW_SYSTEM, ops));
            var t := Final(NewTopic(), pod, ops);
            SentRefines(c, size, pod, RunSystem(c, size, pod, pod, NEW_SYSTEM, ops).pub.sent, t.sent)
            && InOrder(t) && got == At(t.sent, t.taken)
            && (Skipped(t) == 0 <==> NeverOverflows(NewTopic<M>(), pod, ops))
            && (NeverOverflows(NewTopic<M>(), pod, ops) ==> got <= t.sent)
  {
    var size, pod := Introspection.MessageSize(ts), Introspection.Pod(ts);
    var t := Final(NewTopic<M>(), pod, ops);
    RunRefines(c, size, pod, NEW_SYSTEM, NewTopic(), ops);
    MessagesAreTaken(NewTopic<M>(), pod, ops);
    assert t.taken[0..] == t.taken;
    SkippingMeansOverflow(NewTopic<M>(), pod, ops);
    WithoutSkipping(t);
  }
}
