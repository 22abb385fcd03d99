/** What every operation of a wait set keeps, and what therefore holds over every run. */
module WaitSetInvariant {
  import opened Wrappers
  import opened WaitSetModel

  // ----- Invariant ---------------------------------------------------------------------------

  predicate NamesDiffer(table: seq<ListenerDetails>, i: nat, j: nat)
    requires i < |table| && j < |table|
  {
    table[i].serviceName != table[j].serviceName
  }

  predicate UniqueNames(table: seq<ListenerDetails>) {
    forall i, j :: 0 <= i < j < |table| ==> NamesDiffer(table, i, j)
  }

  predicate MappingsInRange(s: State) {
    forall k :: 0 <= k < |s.mapping| ==> s.mapping[k].storageIndex < |s.Table(s.mapping[k].waitableType)|
  }

  predicate ListenersDiffer(mapping: seq<RmwMapping>, j: nat, k: nat)
    requires j < |mapping| && k < |mapping|
  {
    mapping[j].waitableType != mapping[k].waitableType || mapping[j].storageIndex != mapping[k].storageIndex
  }

  predicate MappingsDistinct(mapping: seq<RmwMapping>) {
    forall j, k :: 0 <= j < k < |mapping| ==> ListenersDiffer(mapping, j, k)
  }

  predicate Inv(s: State) {
    UniqueNames(s.guardConditions) && UniqueNames(s.subscribers) && MappingsInRange(s) && MappingsDistinct(s.mapping)
  }

  // ----- Growth ------------------------------------------------------------------------------

  /** The service names of a table, by storage index. */
  function NamesOf(table: seq<ListenerDetails>): (names: seq<string>)
    ensures |names| == |table| && forall i :: 0 <= i < |table| ==> names[i] == table[i].serviceName
  {
    seq(|table|, i requires 0 <= i < |table| => table[i].serviceName)
  }

  /** Each table of `s'` has the listeners of `s` at the same places, and possibly more at its end. */
  predicate Grows(s: State, s': State) {
    forall t :: NamesOf(s.Table(t)) <= NamesOf(s'.Table(t))
  }

  lemma GrowsTransitively(a: State, b: State, c: State)
    requires Grows(a, b) && Grows(b, c)
    ensures Grows(a, c)
  {
    forall t ensures NamesOf(a.Table(t)) <= NamesOf(c.Table(t)) {
      assert NamesOf(a.Table(t)) <= NamesOf(b.Table(t)) <= NamesOf(c.Table(t));
    }
  }

  /** A listener that is found stays where it is found. */
  lemma FoundStaysFound(table: seq<ListenerDetails>, table': seq<ListenerDetails>, name: string)
    requires NamesOf(table) <= NamesOf(table') && UniqueNames(table')
    ensures FindListener(table, name).Some? ==> FindListener(table', name) == FindListener(table, name)
  {
    var found := FindListener(table, name);
    if found.Some? {
      assert NamesOf(table')[found.value] == NamesOf(table)[found.value] == name;
      OnlyListenerIsFound(table', found.value);
    }
  }

  lemma OnlyListenerIsFound(table: seq<ListenerDetails>, i: nat)
    requires UniqueNames(table) && i < |table|
    ensures FindListener(table, table[i].serviceName) == Some(i)
  {
    forall k | 0 <= k < i ensures table[k].serviceName != table[i].serviceName {
      assert NamesDiffer(table, k, i);
    }
  }

  lemma SameNamesFindTheSame(table: seq<ListenerDetails>, table': seq<ListenerDetails>, name: string)
    requires NamesOf(table) == NamesOf(table')
    ensures FindListener(table', name) == FindListener(table, name)
  {
    var a, b := FindListener(table, name), FindListener(table', name);
    assert a.Some? ==> NamesOf(table')[a.value] == name;
    assert b.Some? ==> NamesOf(table)[b.value] == name;
  }

  lemma OnlyMappingIsFound(mapping: seq<RmwMapping>, k: nat)
    requires MappingsDistinct(mapping) && k < |mapping|
    ensures FindMapping(mapping, mapping[k].waitableType, mapping[k].storageIndex) == Some(k)
  {
    var m := mapping[k];
    forall j | 0 <= j < k ensures !(mapping[j].waitableType == m.waitableType && mapping[j].storageIndex == m.storageIndex) {
      assert ListenersDiffer(mapping, j, k);
    }
  }

  // ----- One operation at a time ---------------------------------------------------------------

  lemma GetStorageIndexKeepsInv(s: State, t: WaitableEntity, name: string, creation: Creation)
    requires Inv(s)
    ensures var (s', r) := GetStorageIndex(s, t, name, creation);
            Inv(s') && Grows(s, s') && s'.mapping == s.mapping
            && (forall u :: u != t ==> s'.Table(u) == s.Table(u))
            && (r.Err? ==> s' == s)
            && (r.Ok? ==> FindListener(s'.Table(t), name) == Some(r.value))
  {
    var (s', r) := GetStorageIndex(s, t, name, creation);
    if r.Ok? && s' != s {
      var added := ListenerDetails(name, 0);
      var table' := s.Table(t) + [added];
      NamesOfAppended(s.Table(t), added);
      NamesStayUnique(s.Table(t), added);
      FindListenerInAppended(s.Table(t), added, name);
      ReplacedTableKeepsInv(s, t, table');
      assert s' == s.WithTable(t, table');
    }
  }

  lemma ReplacedTableKeepsInv(s: State, t: WaitableEntity, table: seq<ListenerDetails>)
    requires Inv(s) && UniqueNames(table) && NamesOf(s.Table(t)) <= NamesOf(table)
    ensures Inv(s.WithTable(t, table)) && Grows(s, s.WithTable(t, table))
  {
    assert |s.Table(t)| == |NamesOf(s.Table(t))| <= |NamesOf(table)| == |table|;
  }

  lemma NamesOfAppended(table: seq<ListenerDetails>, added: ListenerDetails)
    ensures NamesOf(table + [added]) == NamesOf(table) + [added.serviceName]
  {
  }

  lemma NamesStayUnique(table: seq<ListenerDetails>, added: ListenerDetails)
    requires UniqueNames(table) && FindListener(table, added.serviceName).None?
    ensures UniqueNames(table + [added])
  {
    forall i, j | 0 <= i < j < |table + [added]| ensures NamesDiffer(table + [added], i, j) {
      assert j < |table| ==> NamesDiffer(table, i, j);
    }
  }

  lemma FindListenerInAppended(table: seq<ListenerDetails>, added: ListenerDetails, name: string)
    ensures FindListener(table + [added], name) ==
            if FindListener(table, name).Some? then FindListener(table, name)
            else if added.serviceName == name then Some(|table|) else None
  {
    var before, after := FindListener(table, name), FindListener(table + [added], name);
    assert before.Some? ==> (table + [added])[before.value] == table[before.value];
    assert (table + [added])[|table|] == added;
  }

  lemma MapStoredListenerKeepsInv(s: State, t: WaitableEntity, storageIndex: nat, rmwIndex: nat)
    requires Inv(s) && storageIndex < |s.Table(t)|
    ensures var s' := MapStoredListener(s, t, storageIndex, rmwIndex);
            Inv(s') && s.mapping <= s'.mapping && forall u :: s'.Table(u) == s.Table(u)
  {
    var added := RmwMapping(t, storageIndex, rmwIndex);
    if FindMapping(s.mapping, t, storageIndex).None? {
      MappingsStayDistinct(s.mapping, added);
      assert forall k :: 0 <= k < |s.mapping| ==> (s.mapping + [added])[k] == s.mapping[k];
    }
  }

  lemma MappingsStayDistinct(mapping: seq<RmwMapping>, added: RmwMapping)
    requires MappingsDistinct(mapping) && FindMapping(mapping, added.waitableType, added.storageIndex).None?
    ensures MappingsDistinct(mapping + [added])
  {
    forall j, k | 0 <= j < k < |mapping + [added]| ensures ListenersDiffer(mapping + [added], j, k) {
      assert k < |mapping| ==> ListenersDiffer(mapping, j, k);
    }
  }

  lemma SameTablesGrow(s: State, s1: State, s2: State)
    requires Grows(s, s1) && forall u :: s2.Table(u) == s1.Table(u)
    ensures Grows(s, s2)
  {
    forall u ensures NamesOf(s.Table(u)) <= NamesOf(s2.Table(u)) {
      assert s2.Table(u) == s1.Table(u);
    }
  }

  /** What a successful or failed mapping does to an arbitrary valid wait set. */
  lemma MapKeepsInv(s: State, t: WaitableEntity, rmwIndex: nat, name: string, creation: Creation)
    requires Inv(s)
    ensures var (s', outcome) := Map(s, t, rmwIndex, name, creation);
            Inv(s') && Grows(s, s') && s.mapping <= s'.mapping
            && (outcome.Fail? ==> s' == s)
            && (outcome.Pass? ==> FindListener(s'.Table(t), name).Some?)
  {
    GetStorageIndexKeepsInv(s, t, name, creation);
    var (s1, r) := GetStorageIndex(s, t, name, creation);
    if r.Ok? {
      MapStoredListenerKeepsInv(s1, t, r.value, rmwIndex);
      SameTablesGrow(s, s1, Map(s, t, rmwIndex, name, creation).0);
    }
  }

  lemma SameNamesStayUnique(table: seq<ListenerDetails>, table': seq<ListenerDetails>)
    requires UniqueNames(table) && NamesOf(table') == NamesOf(table)
    ensures UniqueNames(table')
  {
    forall i, j | 0 <= i < j < |table'| ensures NamesDiffer(table', i, j) {
      assert NamesDiffer(table, i, j);
      assert NamesOf(table')[i] == NamesOf(table)[i] && NamesOf(table')[j] == NamesOf(table)[j];
    }
  }

  predicate SameButPending(s: State, s': State) {
    s'.mapping == s.mapping && forall t :: NamesOf(s'.Table(t)) == NamesOf(s.Table(t))
  }

  lemma SameButPendingKeepsInv(s: State, s': State)
    requires Inv(s) && SameButPending(s, s')
    ensures Inv(s') && Grows(s, s')
  {
    forall t ensures UniqueNames(s'.Table(t)) {
      SameNamesStayUnique(s.Table(t), s'.Table(t));
    }
    assert s'.guardConditions == s'.Table(GUARD_CONDITION) && s'.subscribers == s'.Table(SUBSCRIBER);
    assert forall t :: |s'.Table(t)| == |NamesOf(s'.Table(t))| == |s.Table(t)|;
  }

  lemma SetPendingKeepsNames(s: State, t: WaitableEntity, i: nat, pending: nat)
    requires i < |s.Table(t)|
    ensures SameButPending(s, SetPending(s, t, i, pending))
  {
  }

  lemma HandleKeepsNames(s: State, occurrence: Occurrence)
    ensures SameButPending(s, Handle(s, occurrence).0)
  {
    match occurrence
    case Notified(t, i) =>
      if i < |s.Table(t)| {
        SetPendingKeepsNames(s, t, i, s.Table(t)[i].pending + 1);
      }
    case Event(Tick(_), _) =>
    case Event(Notification(t, i), draining) =>
      if i < |s.Table(t)| {
        SetPendingKeepsNames(s, t, i, Drain(s.Table(t)[i].pending, draining));
      }
  }

  lemma {:induction false} HandleAllKeepsNames(s: State, timer: Option<nat>, occurrences: seq<Occurrence>)
    ensures SameButPending(s, HandleAll(s, timer, occurrences).0)
    decreases |occurrences|
  {
    if occurrences != [] && !IsTimeout(timer, occurrences[0]) {
      HandleKeepsNames(s, occurrences[0]);
      HandleAllKeepsNames(Handle(s, occurrences[0]).0, timer, occurrences[1..]);
    }
  }

  lemma WaitKeepsInv(s: State, timeout: Timeout, env: WaitEnvironment)
    requires Inv(s)
    ensures SameButPending(s, Wait(s, timeout, env).state)
    ensures Inv(Wait(s, timeout, env).state) && Grows(s, Wait(s, timeout, env).state)
  {
    HandleAllKeepsNames(s, TimerOf(timeout, env), env.occurrences);
    SameButPendingKeepsInv(s, HandleAll(s, TimerOf(timeout, env), env.occurrences).0);
  }

  lemma {:induction false} MapUpToKeepsInv(s: State, t: WaitableEntity, names: seq<string>, creations: seq<Creation>, n: nat)
    requires Inv(s) && n <= |names| == |creations|
    ensures Extends(s, MapUpTo(s, t, names, creations, n).0)
    decreases n
  {
    if n > 0 {
      MapUpToKeepsInv(s, t, names, creations, n - 1);
      MapOneMore(s, MapUpTo(s, t, names, creations, n - 1).0, t, n - 1, names[n - 1], creations[n - 1]);
    }
  }

  /** `s'` is valid, and has what `s` has and possibly more. */
  predicate Extends(s: State, s': State) {
    Inv(s') && Grows(s, s') && s.mapping <= s'.mapping
  }

  lemma MapOneMore(s: State, s1: State, t: WaitableEntity, rmwIndex: nat, name: string, creation: Creation)
    requires Extends(s, s1)
    ensures Extends(s, Map(s1, t, rmwIndex, name, creation).0)
  {
    MapKeepsInv(s1, t, rmwIndex, name, creation);
    GrowsTransitively(s, s1, Map(s1, t, rmwIndex, name, creation).0);
  }

  lemma MapEntitiesKeepsInv(s: State, call: Call)
    requires Inv(s) && call.Valid()
    ensures Inv(MapEntities(s, call).0) && Grows(s, MapEntities(s, call).0)
  {
    MapUpToKeepsInv(s, GUARD_CONDITION, call.guardConditions, call.guardCreations, |call.guardConditions|);
    var (s1, o1) := MapUpTo(s, GUARD_CONDITION, call.guardConditions, call.guardCreations, |call.guardConditions|);
    if o1.Pass? {
      MapUpToKeepsInv(s1, SUBSCRIBER, call.subscribers, call.subscriberCreations, |call.subscribers|);
      GrowsTransitively(s, s1, MapEntities(s, call).0);
    }
  }

  lemma UnmapAllKeepsInv(s: State)
    requires Inv(s)
    ensures Inv(UnmapAll(s)) && Grows(s, UnmapAll(s))
  {
    forall t ensures NamesOf(s.Table(t)) <= NamesOf(UnmapAll(s).Table(t)) {
      assert UnmapAll(s).Table(t) == s.Table(t);
    }
  }

  lemma RmwWaitKeepsInv(s: State, call: Call)
    requires Inv(s) && call.Valid()
    ensures Inv(RmwWait(s, call).state) && Grows(s, RmwWait(s, call).state)
  {
    MapEntitiesKeepsInv(s, call);
    var s2 := MapEntities(s, call).0;
    WaitKeepsInv(s2, call.timeout, call.env);
    var s3 := Wait(s2, call.timeout, call.env).state;
    GrowsTransitively(s, s2, s3);
    UnmapAllKeepsInv(s3);
    GrowsTransitively(s, s3, UnmapAll(s3));
  }

  // ----- Runs --------------------------------------------------------------------------------

  /** Any use of a wait set, failures included. */
  datatype Operation =
    | MapOne(t: WaitableEntity, rmwIndex: nat, name: string, creation: Creation)
    | WaitOnce(timeout: Timeout, env: WaitEnvironment)
    | Unmap
    | CallRmwWait(call: Call)

  predicate ValidOperation(op: Operation) {
    op.CallRmwWait? ==> op.call.Valid()
  }

  function Apply(s: State, op: Operation): State
    requires ValidOperation(op)
  {
    match op
    case MapOne(t, rmwIndex, name, creation) => Map(s, t, rmwIndex, name, creation).0
    case WaitOnce(timeout, env) => Wait(s, timeout, env).state
    case Unmap => UnmapAll(s)
    case CallRmwWait(call) => RmwWait(s, call).state
  }

  function Run(s: State, ops: seq<Operation>): State
    requires forall op :: op in ops ==> ValidOperation(op)
    decreases |ops|
  {
    if ops == [] then s else Run(Apply(s, ops[0]), ops[1..])
  }

  lemma ApplyKeepsInv(s: State, op: Operation)
    requires Inv(s) && ValidOperation(op)
    ensures Inv(Apply(s, op)) && Grows(s, Apply(s, op))
  {
    match op
    case MapOne(t, rmwIndex, name, creation) => MapKeepsInv(s, t, rmwIndex, name, creation);
    case WaitOnce(timeout, env) => WaitKeepsInv(s, timeout, env);
    case Unmap => UnmapAllKeepsInv(s);
    case CallRmwWait(call) => RmwWaitKeepsInv(s, call);
  }

  /** Over every run, from every valid wait set (the empty one is valid): names stay unique within a
      table, mappings stay in range and never share a listener, and tables only grow at their end. */
  lemma {:induction false} EveryRunKeepsInv(s: State, ops: seq<Operation>)
    requires Inv(s) && forall op :: op in ops ==> ValidOperation(op)
    ensures Inv(EMPTY) && Inv(Run(s, ops)) && Grows(s, Run(s, ops))
    decreases |ops|
  {
    if ops != [] {
      ApplyKeepsInv(s, ops[0]);
      EveryRunKeepsInv(Apply(s, ops[0]), ops[1..]);
      GrowsTransitively(s, Apply(s, ops[0]), Run(s, ops));
    }
  }

  /** Once a service name has a storage index, mapping it again at any later time, with any index and
      whatever iceoryx2 answers, leads to the same storage index and creates nothing. */
  lemma StorageIndexIsStable(s: State, ops: seq<Operation>, t: WaitableEntity, name: string, creation: Creation)
    requires Inv(s) && forall op :: op in ops ==> ValidOperation(op)
    requires FindListener(s.Table(t), name).Some?
    ensures var later := Run(s, ops);
            GetStorageIndex(later, t, name, creation) == (later, Ok(FindListener(s.Table(t), name).value))
  {
    EveryRunKeepsInv(s, ops);
    assert UniqueNames(Run(s, ops).Table(t));
    FoundStaysFound(s.Table(t), Run(s, ops).Table(t), name);
  }

  /** The listener table, seen as a map from service names to storage indices. */
  function IndexMap(table: seq<ListenerDetails>): map<string, nat> {
    map name | name in NamesOf(table) :: name := FindListener(table, name).value
  }

  /** Find-or-create is find-or-insert on that map: a known name gives its index, a new one gets the number of
      names so far and a listener with nothing pending, and a failed creation changes nothing. */
  lemma FindOrCreateRefinesIndexMap(s: State, t: WaitableEntity, name: string, creation: Creation)
    requires Inv(s)
    ensures var (s', r) := GetStorageIndex(s, t, name, creation);
            var m, m' := IndexMap(s.Table(t)), IndexMap(s'.Table(t));
            if name in m then r == Ok(m[name]) && s' == s
            else if creation.CREATED? then
              r == Ok(|m|) && m' == m[name := |m|] && s'.Table(t)[..|m|] == s.Table(t) && s'.Table(t)[|m|].pending == 0
            else r.Err? && s' == s
  {
    var (s', r) := GetStorageIndex(s, t, name, creation);
    assert UniqueNames(s.Table(t));
    NameIsFound(s.Table(t), name);
    if FindListener(s.Table(t), name).None? && creation.CREATED? {
      IndexMapSize(s.Table(t));
      IndexMapAppend(s.Table(t), ListenerDetails(name, 0));
    }
  }

  lemma NameIsFound(table: seq<ListenerDetails>, name: string)
    ensures name in NamesOf(table) <==> FindListener(table, name).Some?
  {
    if FindListener(table, name).Some? {
      assert NamesOf(table)[FindListener(table, name).value] == name;
    }
  }

  lemma IndexMapAppend(table: seq<ListenerDetails>, added: ListenerDetails)
    requires UniqueNames(table) && added.serviceName !in NamesOf(table)
    ensures IndexMap(table + [added]) == IndexMap(table)[added.serviceName := |table|]
  {
    var table' := table + [added];
    NamesOfAppended(table, added);
    NameIsFound(table, added.serviceName);
    NamesStayUnique(table, added);
    FindListenerInAppended(table, added, added.serviceName);
    forall n | n in NamesOf(table) ensures FindListener(table', n) == FindListener(table, n) {
      NameIsFound(table, n);
      FoundStaysFound(table, table', n);
    }
  }

  lemma {:induction false} IndexMapSize(table: seq<ListenerDetails>)
    requires UniqueNames(table)
    ensures |IndexMap(table)| == |table|
  {
    if table == [] {
      assert IndexMap(table) == map[];
    } else {
      var n := |table| - 1;
      var front, last := table[..n], table[n];
      assert front + [last] == table;
      NewNameAtEnd(front, last);
      IndexMapSize(front);
      IndexMapAppend(front, last);
      assert |IndexMap(front)[last.serviceName := n]| == |IndexMap(front)| + 1;
    }
  }

  lemma NewNameAtEnd(table: seq<ListenerDetails>, added: ListenerDetails)
    requires UniqueNames(table + [added])
    ensures UniqueNames(table) && added.serviceName !in NamesOf(table)
  {
    var table' := table + [added];
    forall i | 0 <= i < |table| ensures NamesOf(table)[i] != added.serviceName {
      assert NamesDiffer(table', i, |table|);
    }
    forall i, j | 0 <= i < j < |table| ensures NamesDiffer(table, i, j) {
      assert NamesDiffer(table', i, j);
    }
  }

  // ----- Errors that cannot happen -------------------------------------------------------------

  /** The id by which a mapped listener is attached. */
  function IdOf(m: RmwMapping): AttachmentId {
    Notification(m.waitableType, m.storageIndex)
  }

  /** The ids by which the mapped listeners are attached, in order. */
  function MappedIds(mapping: seq<RmwMapping>): (ids: seq<AttachmentId>)
    ensures |ids| == |mapping|
    ensures forall i :: 0 <= i < |ids| ==> ids[i] == IdOf(mapping[i])
  {
    seq(|mapping|, i requires 0 <= i < |mapping| => IdOf(mapping[i]))
  }

  /** The outcome of attaching depends only on iceoryx2: with the invariant, every mapped listener is
      found in its storage. */
  lemma {:induction false} AttachingFindsEveryListener(s: State, failing: Option<nat>, k: nat)
    requires Inv(s) && k <= |s.mapping|
    ensures AttachFrom(s, failing, k) ==
            if failing.Some? && k <= failing.value < |s.mapping| then Err(ATTACHMENT_FAILURE)
            else Ok(MappedIds(s.mapping[k..]))
    decreases |s.mapping| - k
  {
    if k < |s.mapping| {
      AttachingFindsEveryListener(s, failing, k + 1);
      MappedIdsFrom(s.mapping, k);
    }
  }

  lemma MappedIdsFrom(mapping: seq<RmwMapping>, k: nat)
    requires k < |mapping|
    ensures MappedIds(mapping[k..]) == [IdOf(mapping[k])] + MappedIds(mapping[k + 1..])
  {
  }

  /** The storage-index error is unreachable at every point of every run: in attaching, and in processing a
      trigger in the middle of a wait, whatever has happened in it so far. */
  lemma InvalidStorageIndexIsUnreachable(ops: seq<Operation>, timeout: Timeout, env: WaitEnvironment,
                                         timer: Option<nat>, sofar: seq<Occurrence>,
                                         t: WaitableEntity, i: nat, draining: Draining)
    requires forall op :: op in ops ==> ValidOperation(op)
    ensures Wait(Run(EMPTY, ops), timeout, env).result != Err(INVALID_STORAGE_INDEX)
    ensures var s := HandleAll(Run(EMPTY, ops), timer, sofar).0;
            FindMapping(s.mapping, t, i).Some? ==> ProcessTrigger(s, t, i, draining).1 != Fail(INVALID_STORAGE_INDEX)
  {
    EveryRunKeepsInv(EMPTY, ops);
    AttachingFindsEveryListener(Run(EMPTY, ops), env.failingAttachment, 0);
    HandleAllKeepsNames(Run(EMPTY, ops), timer, sofar);
    SameButPendingKeepsInv(Run(EMPTY, ops), HandleAll(Run(EMPTY, ops), timer, sofar).0);
  }

  /** No dead wait: whenever the thread goes to sleep, what is attached is the timer, if there is one, and every
      mapped listener, and that is never nothing. */
  lemma NoDeadWait(s: State, timeout: Timeout, env: WaitEnvironment)
    requires Inv(s)
    ensures var slept := Wait(s, timeout, env).sleptOn;
            slept.Some? ==>
              slept.value != []
              && (forall timer :: Tick(timer) in slept.value <==> !timeout.NO_TIMEOUT? && timer == env.timer)
              && (forall t, i :: Notification(t, i) in slept.value <==> FindMapping(s.mapping, t, i).Some?)
              && |slept.value| == |s.mapping| + (if timeout.NO_TIMEOUT? then 0 else 1)
  {
    AttachingFindsEveryListener(s, env.failingAttachment, 0);
    assert s.mapping[0..] == s.mapping;
    forall t, i ensures Notification(t, i) in MappedIds(s.mapping) <==> FindMapping(s.mapping, t, i).Some? {
      MappedIsAttached(s.mapping, t, i);
    }
  }

  lemma MappedIsAttached(mapping: seq<RmwMapping>, t: WaitableEntity, i: nat)
    ensures Notification(t, i) in MappedIds(mapping) <==> FindMapping(mapping, t, i).Some?
  {
    var found := FindMapping(mapping, t, i);
    if found.Some? {
      assert MappedIds(mapping)[found.value] == Notification(t, i);
    }
  }
}
