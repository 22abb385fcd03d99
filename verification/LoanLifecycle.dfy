/** What becomes of every loan of a publisher, over every run of loan, write, return and publish. */
module LoanLifecycle {
  import opened Wrappers
  import opened LoanModel

  datatype Operation =
    | DoLoan(grant: Grant)
    | DoWrite(p: Address, written: Bytes)
    | DoReturn(p: Address)
    | DoPublishLoan(p: Address, delivery: Delivery)
    | DoPublishCopy(data: Bytes, delivery: Delivery)

  function Apply(s: PublisherState, op: Operation): PublisherState {
    match op
    case DoLoan(grant) => Loan(s, grant).0
    case DoWrite(p, written) => Write(s, p, written)
    case DoReturn(p) => ReturnLoan(s, p).0
    case DoPublishLoan(p, d) => PublishLoan(s, p, d).0
    case DoPublishCopy(data, d) => PublishCopy(s, data, d).0
  }

  /** All that is asked of iceoryx2: samples that are live at the same time have different addresses. */
  predicate Admissible(s: PublisherState, op: Operation) {
    op.DoLoan? && op.grant.Granted? ==> op.grant.address !in s.registry
  }

  /** Which loans have left the registry, and how. */
  datatype Ledger = Ledger(returned: set<nat>, published: set<nat>, dropped: set<nat>)

  /** Only two operations end a loan: handing it back, and publishing it, which drops it if the send
      fails. */
  function Record(s: PublisherState, ledger: Ledger, op: Operation): Ledger {
    match op
    case DoReturn(p) =>
      if p in s.registry then ledger.(returned := ledger.returned + {s.registry[p].serial}) else ledger
    case DoPublishLoan(p, d) =>
      if p !in s.registry then ledger
      else if d.sends then ledger.(published := ledger.published + {s.registry[p].serial})
      else ledger.(dropped := ledger.dropped + {s.registry[p].serial})
    case _ => ledger
  }

  predicate AdmissibleRun(s: PublisherState, ops: seq<Operation>)
    decreases |ops|
  {
    ops == [] || (Admissible(s, ops[0]) && AdmissibleRun(Apply(s, ops[0]), ops[1..]))
  }

  function Run(s: PublisherState, ops: seq<Operation>): PublisherState
    decreases |ops|
  {
    if ops == [] then s else Run(Apply(s, ops[0]), ops[1..])
  }

  function RunLedger(s: PublisherState, ledger: Ledger, ops: seq<Operation>): Ledger
    decreases |ops|
  {
    if ops == [] then ledger else RunLedger(Apply(s, ops[0]), Record(s, ledger, ops[0]), ops[1..])
  }

  // ----- Exactly one owner -------------------------------------------------------------------------

  /** Every key is the payload address of its sample, and no loan is registered twice. */
  predicate WellKeyed(r: Registry) {
    && (forall p :: p in r ==> r[p].address == p)
    && (forall p, q :: p in r && q in r && r[p].serial == r[q].serial ==> p == q)
  }

  function Outstanding(r: Registry): set<nat> {
    set p | p in r :: r[p].serial
  }

  predicate Disjoint(a: set<nat>, b: set<nat>, c: set<nat>, d: set<nat>) {
    a !! b && a !! c && a !! d && b !! c && b !! d && c !! d
  }

  /** The loans that were sent, once each. */
  predicate SentOnce(sent: seq<Sent>, published: set<nat>) {
    && (forall i, j :: 0 <= i < j < |sent| && sent[i].loan.Some? ==> sent[i].loan != sent[j].loan)
    && (forall i :: 0 <= i < |sent| && sent[i].loan.Some? ==> sent[i].loan.value in published)
    && (forall n :: n in published ==> Sends(sent, n))
  }

  predicate Sends(sent: seq<Sent>, n: nat) {
    exists i :: 0 <= i < |sent| && sent[i].loan == Some(n)
  }

  /** Of all loans that were ever granted, each is exactly one of outstanding, returned, published and
      dropped by a failed send; the published ones are those that were sent, and each was sent once. */
  ghost predicate Accounted(s: PublisherState, l: Ledger) {
    && WellKeyed(s.registry)
    && Disjoint(Outstanding(s.registry), l.returned, l.published, l.dropped)
    && (forall n: nat :: n < s.granted <==> n in Outstanding(s.registry) || n in l.returned || n in l.published || n in l.dropped)
    && SentOnce(s.sent, l.published)
  }

  lemma StoreStartsOneLoan(r: Registry, sample: Sample)
    requires WellKeyed(r) && sample.address !in r && sample.serial !in Outstanding(r)
    ensures WellKeyed(Store(r, sample))
    ensures Outstanding(Store(r, sample)) == Outstanding(r) + {sample.serial}
  {
    var r' := Store(r, sample);
    forall p | p in r ensures r[p].serial != sample.serial {
      assert r[p].serial in Outstanding(r);
    }
    assert forall p :: p in r ==> p in r' && r'[p] == r[p];
    assert r'[sample.address].serial == sample.serial;
  }

  lemma LoanKeepsAccounted(s: PublisherState, l: Ledger, grant: Grant)
    requires Accounted(s, l) && Admissible(s, DoLoan(grant))
    ensures Accounted(Loan(s, grant).0, l)
  {
    if grant.Granted? {
      StoreStartsOneLoan(s.registry, Sample(grant.address, s.granted, grant.contents));
    }
  }

  lemma ReleaseEndsOneLoan(r: Registry, p: Address)
    requires WellKeyed(r) && p in r
    ensures WellKeyed(r - {p})
    ensures Outstanding(r - {p}) == Outstanding(r) - {r[p].serial}
    ensures r[p].serial in Outstanding(r)
  {
    forall n ensures n in Outstanding(r - {p}) <==> n in Outstanding(r) && n != r[p].serial {
      if n in Outstanding(r) && n != r[p].serial {
        var q :| q in r && r[q].serial == n;
        assert q in r - {p};
      }
    }
  }

  lemma SendOneMore(sent: seq<Sent>, published: set<nat>, x: Sent)
    requires SentOnce(sent, published) && (x.loan.Some? ==> x.loan.value !in published)
    ensures SentOnce(sent + [x], if x.loan.Some? then published + {x.loan.value} else published)
  {
    var sent' := sent + [x];
    forall n | n in published ensures Sends(sent', n) {
      assert Sends(sent, n);
      var i :| 0 <= i < |sent| && sent[i].loan == Some(n);
      assert sent'[i].loan == Some(n);
    }
    if x.loan.Some? {
      assert sent'[|sent|].loan == Some(x.loan.value);
    }
  }

  lemma WriteKeepsOutstanding(s: PublisherState, p: Address, written: Bytes)
    requires WellKeyed(s.registry)
    ensures WellKeyed(Write(s, p, written).registry)
    ensures Outstanding(Write(s, p, written).registry) == Outstanding(s.registry)
  {
    var r, r' := s.registry, Write(s, p, written).registry;
    assert forall q :: q in r <==> q in r';
    assert forall q :: q in r ==> r'[q].serial == r[q].serial;
  }

  lemma PublishLoanKeepsAccounted(s: PublisherState, l: Ledger, p: Address, d: Delivery)
    requires Accounted(s, l)
    ensures Accounted(PublishLoan(s, p, d).0, Record(s, l, DoPublishLoan(p, d)))
  {
    if p in s.registry {
      ReleaseEndsOneLoan(s.registry, p);
      if d.sends {
        SendOneMore(s.sent, l.published, Sent(s.registry[p].contents, Some(s.registry[p].serial)));
      }
    }
  }

  lemma StepKeepsAccounted(s: PublisherState, l: Ledger, op: Operation)
    requires Accounted(s, l) && Admissible(s, op)
    ensures Accounted(Apply(s, op), Record(s, l, op))
  {
    match op
    case DoLoan(grant) => LoanKeepsAccounted(s, l, grant);
    case DoWrite(p, written) => WriteKeepsOutstanding(s, p, written);
    case DoReturn(p) =>
      if p in s.registry {
        ReleaseEndsOneLoan(s.registry, p);
      }
    case DoPublishLoan(p, d) => PublishLoanKeepsAccounted(s, l, p, d);
    case DoPublishCopy(data, d) =>
      if d.sends {
        SendOneMore(s.sent, l.published, Sent(data, None));
      }
  }

  /** Over every run of a new publisher, every loan has exactly one fate, and is sent at most once. */
  lemma EveryLoanHasOneFate(ops: seq<Operation>)
    requires AdmissibleRun(NEW_PUBLISHER, ops)
    ensures Accounted(Run(NEW_PUBLISHER, ops), RunLedger(NEW_PUBLISHER, Ledger({}, {}, {}), ops))
  {
    assert Outstanding(NEW_PUBLISHER.registry) == {};
    RunKeepsAccounted(NEW_PUBLISHER, Ledger({}, {}, {}), ops);
  }

  lemma {:induction false} RunKeepsAccounted(s: PublisherState, l: Ledger, ops: seq<Operation>)
    requires Accounted(s, l) && AdmissibleRun(s, ops)
    ensures Accounted(Run(s, ops), RunLedger(s, l, ops))
    decreases |ops|
  {
    if ops != [] {
      StepKeepsAccounted(s, l, ops[0]);
      RunKeepsAccounted(Apply(s, ops[0]), Record(s, l, ops[0]), ops[1..]);
    }
  }

  // ----- Send, then notify ----------------------------------------------------------------------------

  /** Every notification comes directly after the send that it announces. */
  predicate NotifiesOnlySends(effects: seq<Effect>) {
    forall i :: 0 <= i < |effects| && effects[i] == NOTIFIED ==> i > 0 && effects[i - 1] == SENT
  }

  function CountSends(effects: seq<Effect>): nat {
    if effects == [] then 0
    else CountSends(effects[..|effects| - 1]) + (if effects[|effects| - 1] == SENT then 1 else 0)
  }

  predicate Announces(s: PublisherState) {
    NotifiesOnlySends(s.effects) && CountSends(s.effects) == |s.sent|
  }

  lemma CountSendsAppended(effects: seq<Effect>, e: Effect)
    ensures CountSends(effects + [e]) == CountSends(effects) + (if e == SENT then 1 else 0)
  {
    assert (effects + [e])[..|effects|] == effects;
  }

  lemma PublishingAnnounces(s: PublisherState, payload: Bytes, loan: Option<nat>, d: Delivery)
    requires Announces(s)
    ensures Announces(SendThenNotify(s, payload, loan, d).0)
  {
    var effects := s.effects + [SENT];
    CountSendsAppended(s.effects, SENT);
    CountSendsAppended(effects, NOTIFIED);
    EffectsStayOrdered(s.effects, SENT);
    EffectsStayOrdered(effects, NOTIFIED);
  }

  lemma EffectsStayOrdered(effects: seq<Effect>, e: Effect)
    requires NotifiesOnlySends(effects)
    requires e == NOTIFIED ==> effects != [] && effects[|effects| - 1] == SENT
    ensures NotifiesOnlySends(effects + [e])
  {
    var all := effects + [e];
    forall i | 0 <= i < |all| && all[i] == NOTIFIED ensures i > 0 && all[i - 1] == SENT {
      assert i < |effects| ==> effects[i] == NOTIFIED;
      assert i > 0 ==> all[i - 1] == effects[i - 1];
    }
  }

  /** Over every run, each payload is sent by one SENT, and each notification comes directly after the
      send that it announces: nobody is ever notified of a message that is not there yet. */
  lemma {:induction false} NotificationsFollowSends(s: PublisherState, ops: seq<Operation>)
    requires Announces(s)
    ensures Announces(NEW_PUBLISHER) && Announces(Run(s, ops))
    decreases |ops|
  {
    if ops != [] {
      match ops[0] {
        case DoPublishLoan(p, d) =>
          if p in s.registry {
            var x := s.registry[p];
            PublishingAnnounces(s.(registry := s.registry - {p}), x.contents, Some(x.serial), d);
          }
        case DoPublishCopy(data, d) => PublishingAnnounces(s, data, None, d);
        case _ =>
      }
      NotificationsFollowSends(Apply(s, ops[0]), ops[1..]);
    }
  }

  // ----- Pointers that are no longer good -------------------------------------------------------------

  predicate Reissues(op: Operation, p: Address) {
    op.DoLoan? && op.grant.Granted? && op.grant.address == p
  }

  lemma {:induction false} ReleasedStaysReleased(s: PublisherState, ops: seq<Operation>, p: Address)
    requires p !in s.registry && forall k :: 0 <= k < |ops| ==> !Reissues(ops[k], p)
    ensures p !in Run(s, ops).registry
    decreases |ops|
  {
    if ops != [] {
      assert p !in Apply(s, ops[0]).registry;
      ReleasedStaysReleased(Apply(s, ops[0]), ops[1..], p);
    }
  }

  /** Once a pointer has been returned or published - even if the send failed - every later use of it
      fails with INVALID_PAYLOAD and changes nothing: no send, no notification, the same registry.  This
      lasts until its address is granted again. */
  lemma ConsumedPointersAreRefused(s: PublisherState, p: Address, d: Delivery, ops: seq<Operation>, d': Delivery)
    requires forall k :: 0 <= k < |ops| ==> !Reissues(ops[k], p)
    ensures var later := Run(ReturnLoan(s, p).0, ops);
            PublishLoan(later, p, d') == (later, Fail(INVALID_PAYLOAD)) && ReturnLoan(later, p) == (later, Fail(INVALID_PAYLOAD))
    ensures var later := Run(PublishLoan(s, p, d).0, ops);
            PublishLoan(later, p, d') == (later, Fail(INVALID_PAYLOAD)) && ReturnLoan(later, p) == (later, Fail(INVALID_PAYLOAD))
  {
    ReleasedStaysReleased(ReturnLoan(s, p).0, ops, p);
    ReleasedStaysReleased(PublishLoan(s, p, d).0, ops, p);
  }

  /** And that is the only way to get this error: an outstanding pointer is never refused. */
  lemma OnlyBadPointersAreRefused(s: PublisherState, p: Address, d: Delivery)
    ensures PublishLoan(s, p, d).1 == Fail(INVALID_PAYLOAD) <==> p !in s.registry
    ensures ReturnLoan(s, p).1 == Fail(INVALID_PAYLOAD) <==> p !in s.registry
    ensures p in s.registry ==> PublishLoan(s, p, d).0.registry == ReturnLoan(s, p).0.registry == s.registry - {p}
  {
  }
}
