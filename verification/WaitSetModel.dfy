/** The state of a wait set and what each of its operations does to it, as functions.
    The class in `WaitSetClass` refines these; the properties over whole runs are proved about them. */
module WaitSetModel {
  import opened Wrappers

  // ----- State -------------------------------------------------------------------------------

  datatype WaitableEntity = SUBSCRIBER | GUARD_CONDITION

  datatype WaitSetError =
    | SERVICE_CREATION_FAILURE
    | LISTENER_CREATION_FAILURE
    | INVALID_STORAGE_INDEX
    | ATTACHMENT_FAILURE
    | LISTENER_FAILURE
    | WAIT_FAILURE

  /** A stored listener and the number of events it has received and that nobody has drained yet. */
  datatype ListenerDetails = ListenerDetails(serviceName: string, pending: nat)

  datatype RmwMapping = RmwMapping(waitableType: WaitableEntity, storageIndex: nat, rmwIndex: nat)

  datatype TriggeredWaitable = TriggeredWaitable(waitableType: WaitableEntity, rmwIndex: nat)

  datatype State = State(guardConditions: seq<ListenerDetails>, subscribers: seq<ListenerDetails>,
                         mapping: seq<RmwMapping>)
  {
    /** `listener_storage` */
    function Table(t: WaitableEntity): seq<ListenerDetails> {
      if t == GUARD_CONDITION then guardConditions else subscribers
    }

    function WithTable(t: WaitableEntity, table: seq<ListenerDetails>): (s: State)
      ensures forall u :: s.Table(u) == if u == t then table else Table(u)
    {
      if t == GUARD_CONDITION then this.(guardConditions := table) else this.(subscribers := table)
    }
  }

  const EMPTY := State([], [], [])

  // ----- The two searches --------------------------------------------------------------------

  /** The first listener of that service, as `std::find_if` gives it. */
  function FindListener(table: seq<ListenerDetails>, name: string): (r: Option<nat>)
    ensures r.Some? ==> r.value < |table| && table[r.value].serviceName == name
    ensures forall i :: 0 <= i < |table| && table[i].serviceName == name ==> r.Some? && r.value <= i
  {
    if table == [] then None
    else if table[0].serviceName == name then Some(0)
    else
      match FindListener(table[1..], name)
      case None => None
      case Some(i) => Some(i + 1)
  }

  /** The first mapping to that stored listener. */
  function FindMapping(mapping: seq<RmwMapping>, t: WaitableEntity, storageIndex: nat): (r: Option<nat>)
    ensures r.Some? ==> r.value < |mapping|
    ensures r.Some? ==> mapping[r.value].waitableType == t && mapping[r.value].storageIndex == storageIndex
    ensures forall i :: 0 <= i < |mapping| && mapping[i].waitableType == t && mapping[i].storageIndex == storageIndex
              ==> r.Some? && r.value <= i
  {
    if mapping == [] then None
    else if mapping[0].waitableType == t && mapping[0].storageIndex == storageIndex then Some(0)
    else
      match FindMapping(mapping[1..], t, storageIndex)
      case None => None
      case Some(i) => Some(i + 1)
  }

  // ----- Mapping -----------------------------------------------------------------------------

  /** What iceoryx2 answers when a listener has to be created. */
  datatype Creation = CREATED | SERVICE_FAILS | LISTENER_FAILS

  /** Find the listener of a service or create it at the end of its table, with nothing pending. */
  function GetStorageIndex(s: State, t: WaitableEntity, name: string, creation: Creation)
    : (State, Result<nat, WaitSetError>)
  {
    match FindListener(s.Table(t), name)
    case Some(i) => (s, Ok(i))
    case None =>
      match creation
      case SERVICE_FAILS => (s, Err(SERVICE_CREATION_FAILURE))
      case LISTENER_FAILS => (s, Err(LISTENER_CREATION_FAILURE))
      case CREATED => (s.WithTable(t, s.Table(t) + [ListenerDetails(name, 0)]), Ok(|s.Table(t)|))
  }

  /** A listener that is mapped already keeps the index it is mapped to. */
  function MapStoredListener(s: State, t: WaitableEntity, storageIndex: nat, rmwIndex: nat): State {
    if FindMapping(s.mapping, t, storageIndex).Some? then s
    else s.(mapping := s.mapping + [RmwMapping(t, storageIndex, rmwIndex)])
  }

  function Map(s: State, t: WaitableEntity, rmwIndex: nat, name: string, creation: Creation)
    : (State, Outcome<WaitSetError>)
  {
    var (s', found) := GetStorageIndex(s, t, name, creation);
    match found
    case Ok(i) => (MapStoredListener(s', t, i, rmwIndex), Pass)
    case Err(e) => (s', Fail(e))
  }

  function UnmapAll(s: State): State {
    s.(mapping := [])
  }

  // ----- Waiting -----------------------------------------------------------------------------

  datatype Timeout = NO_TIMEOUT | ZERO_TIMEOUT | POSITIVE_TIMEOUT

  /** What an attachment is recognised by: the timer it was made for, or the listener whose file
      descriptor it watches. */
  datatype AttachmentId = Tick(timer: nat) | Notification(waitableType: WaitableEntity, storageIndex: nat)

  /** Draining can fail after it has removed some of the events; `left` then bounds what remains. */
  datatype Draining = DRAINED | DRAIN_FAILED(left: nat)

  /** What happens while a wait is in progress: some notifier reaches a listener, or iceoryx2 calls the
      event callback. */
  datatype Occurrence =
    | Notified(waitableType: WaitableEntity, storageIndex: nat)
    | Event(id: AttachmentId, draining: Draining)

  /** The part of one wait that iceoryx2 decides. */
  datatype WaitEnvironment = WaitEnvironment(
    timeoutAttaches: bool,
    timer: nat,
    failingAttachment: Option<nat>,
    occurrences: seq<Occurrence>,
    completes: bool)

  function Drain(pending: nat, draining: Draining): nat {
    match draining
    case DRAINED => 0
    case DRAIN_FAILED(left) => if left < pending then left else pending
  }

  function SetPending(s: State, t: WaitableEntity, i: nat, pending: nat): State
    requires i < |s.Table(t)|
  {
    s.WithTable(t, s.Table(t)[i := s.Table(t)[i].(pending := pending)])
  }

  function ProcessTrigger(s: State, t: WaitableEntity, i: nat, draining: Draining): (State, Outcome<WaitSetError>) {
    if |s.Table(t)| <= i then (s, Fail(INVALID_STORAGE_INDEX))
    else
      (SetPending(s, t, i, Drain(s.Table(t)[i].pending, draining)),
       if draining.DRAINED? then Pass else Fail(LISTENER_FAILURE))
  }

  /** A notification that reaches one of the stored listeners. */
  function Notify(s: State, t: WaitableEntity, i: nat): State {
    if i < |s.Table(t)| then SetPending(s, t, i, s.Table(t)[i].pending + 1) else s
  }

  /** One call of the event callback, or one notification.  Every id but the one of the timeout leads
      to a further call, whether it is known or not and whether draining succeeds or not. */
  function Handle(s: State, occurrence: Occurrence): (State, seq<TriggeredWaitable>) {
    match occurrence
    case Notified(t, i) => (Notify(s, t, i), [])
    case Event(Tick(_), _) => (s, [])
    case Event(Notification(t, i), draining) =>
      match FindMapping(s.mapping, t, i)
      case None => (s, [])
      case Some(k) =>
        var (s', outcome) := ProcessTrigger(s, t, i, draining);
        (s', if outcome.Pass? then [TriggeredWaitable(s.mapping[k].waitableType, s.mapping[k].rmwIndex)] else [])
  }

  predicate IsTimeout(timer: Option<nat>, occurrence: Occurrence) {
    timer.Some? && occurrence.Event? && occurrence.id == Tick(timer.value)
  }

  /** All that happens up to the timeout event, which stops the callbacks. */
  function HandleAll(s: State, timer: Option<nat>, occurrences: seq<Occurrence>): (State, seq<TriggeredWaitable>)
    decreases |occurrences|
  {
    if occurrences == [] || IsTimeout(timer, occurrences[0]) then (s, [])
    else
      var (s', triggered) := Handle(s, occurrences[0]);
      var (s'', rest) := HandleAll(s', timer, occurrences[1..]);
      (s'', triggered + rest)
  }

  /** Attach the mapped listeners in order, from the `k`-th on. */
  function AttachFrom(s: State, failing: Option<nat>, k: nat): Result<seq<AttachmentId>, WaitSetError>
    requires k <= |s.mapping|
    decreases |s.mapping| - k
  {
    if k == |s.mapping| then Ok([])
    else if |s.Table(s.mapping[k].waitableType)| <= s.mapping[k].storageIndex then Err(INVALID_STORAGE_INDEX)
    else if failing == Some(k) then Err(ATTACHMENT_FAILURE)
    else
      match AttachFrom(s, failing, k + 1)
      case Ok(rest) => Ok([Notification(s.mapping[k].waitableType, s.mapping[k].storageIndex)] + rest)
      case Err(e) => Err(e)
  }

  /** The result of a wait: the new state, what the caller gets, and the attachments with which the
      thread went to sleep, if it got that far. */
  datatype Waited = Waited(state: State, result: Result<seq<TriggeredWaitable>, WaitSetError>,
                           sleptOn: Option<seq<AttachmentId>>)

  function TimerOf(timeout: Timeout, env: WaitEnvironment): Option<nat> {
    if timeout.NO_TIMEOUT? then None else Some(env.timer)
  }

  function Wait(s: State, timeout: Timeout, env: WaitEnvironment): Waited {
    if s.mapping == [] && timeout.ZERO_TIMEOUT? then Waited(s, Ok([]), None)
    else if s.mapping == [] && timeout.NO_TIMEOUT? then Waited(s, Err(WAIT_FAILURE), None)
    else if !timeout.NO_TIMEOUT? && !env.timeoutAttaches then Waited(s, Err(ATTACHMENT_FAILURE), None)
    else
      match AttachFrom(s, env.failingAttachment, 0)
      case Err(e) => Waited(s, Err(e), None)
      case Ok(listeners) =>
        var timer := TimerOf(timeout, env);
        var (s', triggered) := HandleAll(s, timer, env.occurrences);
        Waited(s', if env.completes then Ok(triggered) else Err(WAIT_FAILURE),
               Some((if timer.Some? then [Tick(timer.value)] else []) + listeners))
  }

  // ----- One rmw_wait call --------------------------------------------------------------------

  /** Map the first `n` entities of one array, each to its own index, until one fails. */
  function MapUpTo(s: State, t: WaitableEntity, names: seq<string>, creations: seq<Creation>, n: nat)
    : (State, Outcome<WaitSetError>)
    requires n <= |names| == |creations|
  {
    if n == 0 then (s, Pass)
    else
      var (s', outcome) := MapUpTo(s, t, names, creations, n - 1);
      if outcome.Fail? then (s', outcome) else Map(s', t, n - 1, names[n - 1], creations[n - 1])
  }

  datatype ReturnCode = OK | TIMEOUT | ERROR | INVALID_ARGUMENT

  /** The arguments of one call, and what iceoryx2 does during it. */
  datatype Call = Call(guardConditions: seq<string>, subscribers: seq<string>, timeout: Timeout,
                       guardCreations: seq<Creation>, subscriberCreations: seq<Creation>, env: WaitEnvironment)
  {
    predicate Valid() {
      |guardConditions| == |guardCreations| && |subscribers| == |subscriberCreations|
    }

    /** The service names in one of the two arrays. */
    function Names(t: WaitableEntity): seq<string> {
      if t == GUARD_CONDITION then guardConditions else subscribers
    }
  }

  datatype Called = Called(state: State, rc: ReturnCode, triggered: seq<TriggeredWaitable>,
                           sleptOn: Option<seq<AttachmentId>>)

  /** The mapping part of a call: guard conditions first, then subscribers. */
  function MapEntities(s: State, call: Call): (State, Outcome<WaitSetError>)
    requires call.Valid()
  {
    var (s1, o1) := MapUpTo(s, GUARD_CONDITION, call.guardConditions, call.guardCreations, |call.guardConditions|);
    if o1.Fail? then (s1, o1)
    else MapUpTo(s1, SUBSCRIBER, call.subscribers, call.subscriberCreations, |call.subscribers|)
  }

  /** Only a wait that succeeds resets the mapping. */
  function RmwWait(s: State, call: Call): Called
    requires call.Valid()
  {
    var (mapped, outcome) := MapEntities(s, call);
    if outcome.Fail? then Called(mapped, ERROR, [], None)
    else
      var waited := Wait(mapped, call.timeout, call.env);
      match waited.result
      case Err(_) => Called(waited.state, ERROR, [], waited.sleptOn)
      case Ok(triggered) =>
        Called(UnmapAll(waited.state), if triggered == [] then TIMEOUT else OK, triggered, waited.sleptOn)
  }
}
