/** A publisher of `LoanModel` behaves as the wake-up protocol says: whatever it is called with, what others
    see of it is a sequence of sends, each followed by its notification or by the failure of it. */
module PublisherProtocol {
  import LoanModel
  import LoanLifecycle
  import opened WakeUp

  /** The protocol steps that stand for the effects of a publisher, from its `n`-th message on. */
  function StepsOf(service: string, effects: seq<LoanModel.Effect>, n: nat): seq<Step>
    decreases |effects|
  {
    if effects == [] || effects[0].NOTIFIED? then []
    else if |effects| > 1 && effects[1].NOTIFIED? then
      [Send(service, n)] + ([SendNotifies(service)] + StepsOf(service, effects[2..], n + 1))
    else [Send(service, n)] + ([SendFailsToNotify(service)] + StepsOf(service, effects[1..], n + 1))
  }

  /** What others see of a protocol step. */
  function EffectOf(step: Step): seq<LoanModel.Effect> {
    match step
    case Send(_, _) => [LoanModel.SENT]
    case SendNotifies(_) => [LoanModel.NOTIFIED]
    case _ => []
  }

  function EffectsOf(steps: seq<Step>): seq<LoanModel.Effect> {
    if steps == [] then [] else EffectOf(steps[0]) + EffectsOf(steps[1..])
  }

  predicate NeverFailsToNotify(steps: seq<Step>) {
    steps == [] || (!steps[0].SendFailsToNotify? && NeverFailsToNotify(steps[1..]))
  }

  /** After some steps of one publisher, nothing of it is in flight, and the wait is where it was. */
  predicate Settled(w: World, w': World) {
    w'.inFlight == w.inFlight && w'.phase == w.phase && w'.mapped == w.mapped && w'.unfinished == w.unfinished
  }

  /** The steps are possible from `w`, and have these effects; they are harmless unless a notification fails. */
  predicate Plays(topics: Topics, w: World, steps: seq<Step>, effects: seq<LoanModel.Effect>) {
    && EffectsOf(steps) == effects
    && After(topics, w, steps).Some?
    && (NeverFailsToNotify(steps) ==> HarmlessRun(topics, w, steps))
  }

  predicate ThenSettled(topics: Topics, w: World, steps: seq<Step>, before: World) {
    After(topics, w, steps).Some? && Settled(before, After(topics, w, steps).value)
  }

  lemma PlaysOneMore(topics: Topics, w: World, step: Step, steps: seq<Step>, effects: seq<LoanModel.Effect>, before: World)
    requires Next(topics, w, step).Some? && (!step.SendFailsToNotify? ==> Harmless(topics, w, step))
    requires Plays(topics, Next(topics, w, step).value, steps, effects)
    requires ThenSettled(topics, Next(topics, w, step).value, steps, before)
    ensures Plays(topics, w, [step] + steps, EffectOf(step) + effects) && ThenSettled(topics, w, [step] + steps, before)
  {
    assert ([step] + steps)[1..] == steps;
  }

  /** A send, the end of it, and what comes then. */
  lemma PlaysOneMessage(topics: Topics, w: World, service: string, n: nat, notified: bool, steps: seq<Step>, rest: seq<LoanModel.Effect>)
    requires forall w' :: Settled(w, w') ==> Plays(topics, w', steps, rest) && ThenSettled(topics, w', steps, w')
    ensures var second := if notified then SendNotifies(service) else SendFailsToNotify(service);
            Plays(topics, w, [Send(service, n)] + ([second] + steps), [LoanModel.SENT] + (EffectOf(second) + rest))
            && ThenSettled(topics, w, [Send(service, n)] + ([second] + steps), w)
  {
    var second := if notified then SendNotifies(service) else SendFailsToNotify(service);
    var w1 := Next(topics, w, Send(service, n)).value;
    assert service in w1.inFlight;
    var w2 := Next(topics, w1, second).value;
    assert w.inFlight + multiset{service} - multiset{service} == w.inFlight;
    assert Settled(w, w2);
    SettledThrough(topics, w, w2, steps);
    PlaysOneMore(topics, w1, second, steps, rest, w);
    PlaysOneMore(topics, w, Send(service, n), [second] + steps, EffectOf(second) + rest, w);
  }

  lemma SettledThrough(topics: Topics, w: World, w2: World, steps: seq<Step>)
    requires Settled(w, w2) && ThenSettled(topics, w2, steps, w2)
    ensures ThenSettled(topics, w2, steps, w)
  {
  }

  lemma {:induction false} EffectsAreSteps(topics: Topics, w: World, service: string, effects: seq<LoanModel.Effect>, n: nat)
    requires LoanLifecycle.NotifiesOnlySends(effects)
    ensures Plays(topics, w, StepsOf(service, effects, n), effects)
    ensures ThenSettled(topics, w, StepsOf(service, effects, n), w)
    decreases |effects|
  {
    if effects != [] {
      var notified := |effects| > 1 && effects[1].NOTIFIED?;
      var rest := if notified then effects[2..] else effects[1..];
      SuffixIsOrdered(effects, if notified then 2 else 1);
      forall w' | Settled(w, w')
        ensures Plays(topics, w', StepsOf(service, rest, n + 1), rest) && ThenSettled(topics, w', StepsOf(service, rest, n + 1), w')
      {
        EffectsAreSteps(topics, w', service, rest, n + 1);
      }
      PlaysOneMessage(topics, w, service, n, notified, StepsOf(service, rest, n + 1), rest);
      FirstMessage(effects);
    }
  }

  lemma FirstMessage(effects: seq<LoanModel.Effect>)
    requires effects != [] && LoanLifecycle.NotifiesOnlySends(effects)
    ensures effects[0] == LoanModel.SENT
    ensures |effects| > 1 && effects[1].NOTIFIED? ==> effects == [LoanModel.SENT] + ([LoanModel.NOTIFIED] + effects[2..])
    ensures effects == [LoanModel.SENT] + ([] + effects[1..])
  {
  }

  lemma SuffixIsOrdered(effects: seq<LoanModel.Effect>, k: nat)
    requires LoanLifecycle.NotifiesOnlySends(effects) && 0 < k <= |effects|
    requires k < |effects| && effects[k].NOTIFIED? ==> effects[k - 1].NOTIFIED?
    ensures LoanLifecycle.NotifiesOnlySends(effects[k..])
  {
    var rest := effects[k..];
    forall i | 0 <= i < |rest| && rest[i] == LoanModel.NOTIFIED ensures i > 0 && rest[i - 1] == LoanModel.SENT {
      assert effects[k + i] == LoanModel.NOTIFIED && effects[k + i - 1] == LoanModel.SENT;
    }
  }

  /** Every run of a publisher is a run of the wake-up protocol, from whatever world: its effects are those of
      protocol steps, all of them possible, that leave nothing in flight; and they are harmless unless a
      notification fails. */
  lemma PublisherRunsAreProtocolRuns(topics: Topics, w: World, service: string, ops: seq<LoanLifecycle.Operation>)
    ensures var effects := LoanLifecycle.Run(LoanModel.NEW_PUBLISHER, ops).effects;
            Plays(topics, w, StepsOf(service, effects, 0), effects) && ThenSettled(topics, w, StepsOf(service, effects, 0), w)
  {
    LoanLifecycle.NotificationsFollowSends(LoanModel.NEW_PUBLISHER, ops);
    EffectsAreSteps(topics, w, service, LoanLifecycle.Run(LoanModel.NEW_PUBLISHER, ops).effects, 0);
  }
}
