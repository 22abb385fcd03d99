/** The messages in the wake-up protocol: what a reader's buffer holds after any run. */
module WakeUpMessages {
  import opened Buffers
  import opened WakeUp

  /** The message that a step sends to the service of a reader, if any. */
  function SentBy(topics: Topics, step: Step, r: Reader): seq<Message>
    requires r in topics
  {
    if step.Send? && step.service == topics[r] then [step.message] else []
  }

  /** The messages that a run sends to the service of a reader, in order. */
  function SentTo(topics: Topics, steps: seq<Step>, r: Reader): seq<Message>
    requires r in topics
  {
    if steps == [] then [] else SentBy(topics, steps[0], r) + SentTo(topics, steps[1..], r)
  }

  predicate Takes(w: World, step: Step, r: Reader)
    requires r in w.buffers
  {
    step == Take(r) && w.buffers[r] != []
  }

  /** How often a reader takes while its buffer holds something. */
  function TakenBy(topics: Topics, w: World, steps: seq<Step>, r: Reader): nat
    decreases |steps|
  {
    if steps == [] || Next(topics, w, steps[0]).None? then 0
    else
      (if r in w.buffers && Takes(w, steps[0], r) then 1 else 0)
      + TakenBy(topics, Next(topics, w, steps[0]).value, steps[1..], r)
  }

  /** Whenever something is sent to the reader, there is room for it. */
  predicate HasRoom(topics: Topics, w: World, steps: seq<Step>, r: Reader)
    requires r in topics
    decreases |steps|
  {
    steps == [] || Next(topics, w, steps[0]).None?
    || ((steps[0].Send? && steps[0].service == topics[r] && r in w.buffers ==> |w.buffers[r]| < BUFFER_SIZE)
        && HasRoom(topics, Next(topics, w, steps[0]).value, steps[1..], r))
  }

  /** What one step does to one buffer. */
  lemma StepMovesMessages(topics: Topics, w: World, step: Step, r: Reader)
    requires r in topics && r in w.buffers && Next(topics, w, step).Some?
    requires step.Send? && step.service == topics[r] ==> |w.buffers[r]| < BUFFER_SIZE
    ensures var w' := Next(topics, w, step).value;
            r in w'.buffers
            && w'.buffers[r] ==
               if Takes(w, step, r) then w.buffers[r][1..] else w.buffers[r] + SentBy(topics, step, r)
  {
    assert w.buffers[r] + [] == w.buffers[r];
  }

  /** What is in the buffer after the run, in terms of what was there before it. */
  predicate Conserved(topics: Topics, w: World, steps: seq<Step>, r: Reader)
    requires r in topics && r in w.buffers && After(topics, w, steps).Some?
  {
    var w', all := After(topics, w, steps).value, w.buffers[r] + SentTo(topics, steps, r);
    r in w'.buffers && TakenBy(topics, w, steps, r) <= |all| && w'.buffers[r] == all[TakenBy(topics, w, steps, r)..]
  }

  /** Messages are neither lost nor made up nor reordered: as long as there is room, a buffer holds after any run
      what it held before and then what was sent, less as many of the oldest as were taken. */
  lemma {:induction false} MessagesAreConserved(topics: Topics, w: World, steps: seq<Step>, r: Reader)
    requires r in topics && r in w.buffers && After(topics, w, steps).Some? && HasRoom(topics, w, steps, r)
    ensures Conserved(topics, w, steps, r)
    decreases |steps|
  {
    if steps == [] {
      assert (w.buffers[r] + [])[0..] == w.buffers[r];
    } else {
      StepMovesMessages(topics, w, steps[0], r);
      MessagesAreConserved(topics, Next(topics, w, steps[0]).value, steps[1..], r);
      OneStepMore(topics, w, steps, r);
    }
  }

  lemma OneStepMore(topics: Topics, w: World, steps: seq<Step>, r: Reader)
    requires r in topics && r in w.buffers && steps != [] && After(topics, w, steps).Some? && HasRoom(topics, w, steps, r)
    requires r in Next(topics, w, steps[0]).value.buffers
    requires Conserved(topics, Next(topics, w, steps[0]).value, steps[1..], r)
    ensures Conserved(topics, w, steps, r)
  {
    var w1 := Next(topics, w, steps[0]).value;
    StepMovesMessages(topics, w, steps[0], r);
    MovedOnce(w.buffers[r], w1.buffers[r], SentBy(topics, steps[0], r), SentTo(topics, steps[1..], r),
              TakenBy(topics, w1, steps[1..], r), Takes(w, steps[0], r));
  }

  lemma MovedOnce(buffer: seq<Message>, next: seq<Message>, first: seq<Message>, later: seq<Message>, taken: nat, takes: bool)
    requires takes ==> buffer != [] && first == []
    requires next == (if takes then buffer[1..] else buffer + first) && taken <= |next + later|
    ensures var all := buffer + (first + later);
            var now := (if takes then 1 else 0) + taken;
            now <= |all| && all[now..] == (next + later)[taken..]
  {
    var all := buffer + (first + later);
    if takes {
      assert all[1..] == next + later;
      assert all[1 + taken..] == all[1..][taken..];
    } else {
      assert all == next + later;
    }
  }
}
