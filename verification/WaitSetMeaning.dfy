/** What mapping, waiting and a whole `rmw_wait` call mean to the caller. */
module WaitSetMeaning {
  import opened Wrappers
  import opened WaitSetModel
  import opened WaitSetInvariant

  // ----- Deduplication -------------------------------------------------------------------------

  /** The mappings of one type, in order. */
  function OfType(mapping: seq<RmwMapping>, t: WaitableEntity): seq<RmwMapping> {
    if mapping == [] then []
    else
      var last := mapping[|mapping| - 1];
      OfType(mapping[..|mapping| - 1], t) + (if last.waitableType == t then [last] else [])
  }

  lemma {:induction false} InOfType(mapping: seq<RmwMapping>, t: WaitableEntity, m: RmwMapping)
    ensures m in OfType(mapping, t) <==> m in mapping && m.waitableType == t
  {
    if mapping != [] {
      InOfType(mapping[..|mapping| - 1], t, m);
      assert mapping == mapping[..|mapping| - 1] + [mapping[|mapping| - 1]];
    }
  }

  predicate FirstOccurrence(names: seq<string>, i: nat)
    requires i < |names|
  {
    names[i] !in names[..i]
  }

  predicate AllFound(table: seq<ListenerDetails>, names: seq<string>) {
    forall i {:trigger FindListener(table, names[i])} :: 0 <= i < |names| ==> FindListener(table, names[i]).Some?
  }

  /** The simple specification of mapping a list of names: the first occurrence of each name, in list
      order, with that occurrence's index. */
  function FirstOccurrences(table: seq<ListenerDetails>, t: WaitableEntity, names: seq<string>): seq<RmwMapping>
    requires AllFound(table, names)
  {
    if names == [] then []
    else
      var n := |names| - 1;
      FirstOccurrences(table, t, names[..n])
      + (if FirstOccurrence(names, n) then [RmwMapping(t, FindListener(table, names[n]).value, n)] else [])
  }

  lemma {:induction false} InFirstOccurrences(table: seq<ListenerDetails>, t: WaitableEntity, names: seq<string>, m: RmwMapping)
    requires AllFound(table, names)
    ensures m in FirstOccurrences(table, t, names) <==> MapsFirst(table, t, names, m)
  {
    if names != [] {
      var n := |names| - 1;
      InFirstOccurrences(table, t, names[..n], m);
      MapsFirstInPrefix(table, t, names, m);
    }
  }

  /** `m` leads from the listener of a name to its first occurrence. */
  predicate MapsFirst(table: seq<ListenerDetails>, t: WaitableEntity, names: seq<string>, m: RmwMapping) {
    m.waitableType == t && m.rmwIndex < |names| && FirstOccurrence(names, m.rmwIndex)
    && FindListener(table, names[m.rmwIndex]) == Some(m.storageIndex)
  }

  lemma MapsFirstInPrefix(table: seq<ListenerDetails>, t: WaitableEntity, names: seq<string>, m: RmwMapping)
    requires names != []
    ensures var n := |names| - 1;
            MapsFirst(table, t, names, m) <==> MapsFirst(table, t, names[..n], m) || (m.rmwIndex == n && MapsFirst(table, t, names, m))
  {
    if m.rmwIndex < |names| - 1 {
      FirstOccurrenceInPrefix(names, |names| - 1, m.rmwIndex);
    }
  }

  lemma FirstOccurrenceInPrefix(names: seq<string>, n: nat, i: nat)
    requires i < n <= |names|
    ensures FirstOccurrence(names[..n], i) == FirstOccurrence(names, i)
  {
    assert names[..n][..i] == names[..i];
  }

  /** The entries of type `t` are the first occurrences of `names`. */
  predicate MapsFirstOccurrences(s: State, t: WaitableEntity, names: seq<string>) {
    AllFound(s.Table(t), names) && OfType(s.mapping, t) == FirstOccurrences(s.Table(t), t, names)
  }

  predicate OtherTypeUntouched(s: State, s': State, t: WaitableEntity) {
    forall u :: u != t ==> OfType(s'.mapping, u) == OfType(s.mapping, u) && s'.Table(u) == s.Table(u)
  }

  lemma FoundInGrown(table: seq<ListenerDetails>, table': seq<ListenerDetails>, names: seq<string>)
    requires NamesOf(table) <= NamesOf(table') && UniqueNames(table') && AllFound(table, names)
    ensures AllFound(table', names)
    ensures forall i :: 0 <= i < |names| ==> FindListener(table', names[i]) == FindListener(table, names[i])
  {
    forall i | 0 <= i < |names| ensures FindListener(table', names[i]) == FindListener(table, names[i]) {
      FoundStaysFound(table, table', names[i]);
    }
  }

  lemma {:induction false} FirstOccurrencesInGrown(table: seq<ListenerDetails>, table': seq<ListenerDetails>,
                                                    t: WaitableEntity, names: seq<string>)
    requires NamesOf(table) <= NamesOf(table') && UniqueNames(table') && AllFound(table, names) && AllFound(table', names)
    ensures FirstOccurrences(table', t, names) == FirstOccurrences(table, t, names)
  {
    FoundInGrown(table, table', names);
    if names != [] {
      FirstOccurrencesInGrown(table, table', t, names[..|names| - 1]);
    }
  }

  lemma OfTypeOfAppended(mapping: seq<RmwMapping>, m: RmwMapping, t: WaitableEntity)
    ensures OfType(mapping + [m], t) == OfType(mapping, t) + (if m.waitableType == t then [m] else [])
  {
    assert (mapping + [m])[..|mapping|] == mapping;
  }

  lemma FindMappingInType(mapping: seq<RmwMapping>, t: WaitableEntity, storageIndex: nat)
    ensures FindMapping(mapping, t, storageIndex).Some?
            <==> exists m :: m in OfType(mapping, t) && m.storageIndex == storageIndex
  {
    var found := FindMapping(mapping, t, storageIndex);
    if found.Some? {
      InOfType(mapping, t, mapping[found.value]);
    }
    if m :| m in OfType(mapping, t) && m.storageIndex == storageIndex {
      InOfType(mapping, t, m);
      var i :| 0 <= i < |mapping| && mapping[i] == m;
    }
  }

  /** Mapping a list refines its specification: from a wait set in which nothing of that type is mapped,
      it maps exactly the first occurrences, and leaves the other type alone. */
  lemma MappingKeepsFirstOccurrences(s: State, t: WaitableEntity, names: seq<string>, creations: seq<Creation>)
    requires Inv(s) && OfType(s.mapping, t) == [] && |names| == |creations|
    requires MapUpTo(s, t, names, creations, |names|).1.Pass?
    ensures MapsList(s, MapUpTo(s, t, names, creations, |names|).0, t, names)
  {
    MapsPrefixes(s, t, names, creations, |names|);
    OneWhole(names);
  }

  lemma OneWhole(names: seq<string>)
    ensures names[..|names|] == names
  {
  }

  /** From `s` to `s'` the list `names` was mapped for type `t`, and nothing else. */
  predicate MapsList(s: State, s': State, t: WaitableEntity, names: seq<string>) {
    MapsFirstOccurrences(s', t, names) && OtherTypeUntouched(s, s', t)
  }

  /** If nothing fails, the first `n` names are mapped. */
  predicate MapsPrefix(s: State, t: WaitableEntity, names: seq<string>, creations: seq<Creation>, n: nat)
    requires n <= |names| == |creations|
  {
    var (s', outcome) := MapUpTo(s, t, names, creations, n);
    outcome.Pass? ==> MapsList(s, s', t, names[..n])
  }

  lemma {:induction false} MapsPrefixes(s: State, t: WaitableEntity, names: seq<string>, creations: seq<Creation>, n: nat)
    requires Inv(s) && OfType(s.mapping, t) == [] && n <= |names| == |creations|
    ensures MapsPrefix(s, t, names, creations, n)
    decreases n
  {
    if n == 0 {
      MapsNothing(s, t, names, creations);
    } else {
      MapsPrefixes(s, t, names, creations, n - 1);
      MapsLongerPrefix(s, t, names, creations, n);
    }
  }

  lemma MapsNothing(s: State, t: WaitableEntity, names: seq<string>, creations: seq<Creation>)
    requires OfType(s.mapping, t) == [] && |names| == |creations|
    ensures MapsPrefix(s, t, names, creations, 0)
  {
  }

  lemma MapsLongerPrefix(s: State, t: WaitableEntity, names: seq<string>, creations: seq<Creation>, n: nat)
    requires Inv(s) && 0 < n <= |names| == |creations| && MapsPrefix(s, t, names, creations, n - 1)
    ensures MapsPrefix(s, t, names, creations, n)
  {
    var (s1, outcome) := MapUpTo(s, t, names, creations, n - 1);
    if outcome.Pass? && Map(s1, t, n - 1, names[n - 1], creations[n - 1]).1.Pass? {
      MapUpToInv(s, t, names, creations, n - 1);
      MapsListNext(s, s1, t, names, n, creations[n - 1]);
    }
  }

  lemma MapsListNext(s: State, s1: State, t: WaitableEntity, names: seq<string>, n: nat, creation: Creation)
    requires 0 < n <= |names| && Inv(s1) && MapsList(s, s1, t, names[..n - 1])
    requires Map(s1, t, n - 1, names[n - 1], creation).1.Pass?
    ensures MapsList(s, Map(s1, t, n - 1, names[n - 1], creation).0, t, names[..n])
  {
    OneMore(names, n);
    MapsListOneMore(s, s1, t, names[..n - 1], names[n - 1], creation);
  }

  lemma MapsListOneMore(s: State, s1: State, t: WaitableEntity, names: seq<string>, name: string, creation: Creation)
    requires Inv(s1) && MapsList(s, s1, t, names) && Map(s1, t, |names|, name, creation).1.Pass?
    ensures MapsList(s, Map(s1, t, |names|, name, creation).0, t, names + [name])
  {
    MappingOneMore(s1, t, names, name, creation);
    UntouchedTransitively(s, s1, Map(s1, t, |names|, name, creation).0, t);
  }

  lemma UntouchedTransitively(a: State, b: State, c: State, t: WaitableEntity)
    requires OtherTypeUntouched(a, b, t) && OtherTypeUntouched(b, c, t)
    ensures OtherTypeUntouched(a, c, t)
  {
  }

  lemma OneMore(names: seq<string>, n: nat)
    requires 0 < n <= |names|
    ensures names[..n - 1] + [names[n - 1]] == names[..n]
  {
  }

  lemma MapUpToInv(s: State, t: WaitableEntity, names: seq<string>, creations: seq<Creation>, n: nat)
    requires Inv(s) && n <= |names| == |creations|
    ensures Inv(MapUpTo(s, t, names, creations, n).0)
  {
    MapUpToKeepsInv(s, t, names, creations, n);
  }

  lemma MappingOneMore(s: State, t: WaitableEntity, names: seq<string>, name: string, creation: Creation)
    requires Inv(s) && MapsFirstOccurrences(s, t, names)
    requires Map(s, t, |names|, name, creation).1.Pass?
    ensures MapsList(s, Map(s, t, |names|, name, creation).0, t, names + [name])
  {
    GetStorageIndexKeepsInv(s, t, name, creation);
    var (s1, r) := GetStorageIndex(s, t, name, creation);
    FoundInGrown(s.Table(t), s1.Table(t), names);
    FirstOccurrencesInGrown(s.Table(t), s1.Table(t), t, names);
    StoringOneMore(s1, t, names, name);
  }

  lemma StoringOneMore(s: State, t: WaitableEntity, names: seq<string>, name: string)
    requires Inv(s) && MapsFirstOccurrences(s, t, names) && FindListener(s.Table(t), name).Some?
    ensures MapsList(s, MapStoredListener(s, t, FindListener(s.Table(t), name).value, |names|), t, names + [name])
  {
    var i := FindListener(s.Table(t), name).value;
    StoringAddsToItsType(s, t, i, |names|);
    MappedIffListed(s, t, names, name);
    FirstOccurrencesOfAppended(s.Table(t), t, names, name);
  }

  lemma StoringAddsToItsType(s: State, t: WaitableEntity, i: nat, rmwIndex: nat)
    ensures var s' := MapStoredListener(s, t, i, rmwIndex);
            OtherTypeUntouched(s, s', t) && s'.Table(t) == s.Table(t)
            && OfType(s'.mapping, t) ==
               OfType(s.mapping, t) + (if FindMapping(s.mapping, t, i).Some? then [] else [RmwMapping(t, i, rmwIndex)])
  {
    forall u ensures OfType(s.mapping + [RmwMapping(t, i, rmwIndex)], u) ==
                     OfType(s.mapping, u) + (if u == t then [RmwMapping(t, i, rmwIndex)] else [])
    {
      OfTypeOfAppended(s.mapping, RmwMapping(t, i, rmwIndex), u);
    }
    assert OfType(s.mapping, t) + [] == OfType(s.mapping, t);
  }

  lemma FirstOccurrencesOfAppended(table: seq<ListenerDetails>, t: WaitableEntity, names: seq<string>, name: string)
    requires AllFound(table, names) && FindListener(table, name).Some?
    ensures AllFound(table, names + [name])
    ensures FirstOccurrences(table, t, names + [name]) ==
            FirstOccurrences(table, t, names)
            + (if name in names then [] else [RmwMapping(t, FindListener(table, name).value, |names|)])
  {
    var names' := names + [name];
    forall k | 0 <= k < |names'| ensures FindListener(table, names'[k]).Some? {
      if k < |names| {
        assert names'[k] == names[k];
      }
    }
    assert names'[..|names|] == names;
  }

  lemma MappedIffListed(s: State, t: WaitableEntity, names: seq<string>, name: string)
    requires Inv(s) && MapsFirstOccurrences(s, t, names) && FindListener(s.Table(t), name).Some?
    ensures FindMapping(s.mapping, t, FindListener(s.Table(t), name).value).Some? <==> name in names
  {
    var i := FindListener(s.Table(t), name).value;
    FindMappingInType(s.mapping, t, i);
    if name in names {
      InFirstOccurrences(s.Table(t), t, names, RmwMapping(t, i, FirstIndex(names, name)));
      assert RmwMapping(t, i, FirstIndex(names, name)) in OfType(s.mapping, t);
    }
    if m :| m in OfType(s.mapping, t) && m.storageIndex == i {
      InFirstOccurrences(s.Table(t), t, names, m);
      assert names[m.rmwIndex] == s.Table(t)[i].serviceName == name;
    }
  }

  /** The least index of a name in a list. */
  function FirstIndex(names: seq<string>, name: string): (k: nat)
    requires name in names
    ensures k < |names| && names[k] == name && FirstOccurrence(names, k)
    ensures forall i :: 0 <= i < |names| && names[i] == name ==> k <= i
  {
    if names[0] == name then 0
    else
      var k := FirstIndex(names[1..], name);
      assert names[..k + 1] == [names[0]] + names[1..][..k];
      k + 1
  }

  // ----- Which index a listener is reported under --------------------------------------------------

  /** The index that events of `name` are reported under after mapping `names`: that of a mapping left
      over from before, if there is one, and otherwise the first occurrence. */
  function Owner(s: State, t: WaitableEntity, names: seq<string>, name: string): nat
    requires name in names
  {
    var listener := FindListener(s.Table(t), name);
    var stale := if listener.Some? then FindMapping(s.mapping, t, listener.value) else None;
    if stale.Some? then s.mapping[stale.value].rmwIndex else FirstIndex(names, name)
  }

  /** The index that events of `name` are reported under in `s`, if any. */
  function ReportedUnder(s: State, t: WaitableEntity, name: string): Option<nat> {
    match FindListener(s.Table(t), name)
    case None => None
    case Some(i) =>
      match FindMapping(s.mapping, t, i)
      case None => None
      case Some(k) => Some(s.mapping[k].rmwIndex)
  }

  lemma MappingGivesOwners(s: State, t: WaitableEntity, names: seq<string>, creations: seq<Creation>, name: string)
    requires Inv(s) && |names| == |creations|
    requires MapUpTo(s, t, names, creations, |names|).1.Pass?
    ensures GivesOwner(s, MapUpTo(s, t, names, creations, |names|).0, t, names, name)
  {
    PrefixesGiveOwners(s, t, names, creations, |names|, name);
    OneWhole(names);
  }

  /** `s'`, in which `names` were mapped since `s`, reports `name` under its owner if it is among them,
      and as before if not. */
  predicate GivesOwner(s: State, s': State, t: WaitableEntity, names: seq<string>, name: string) {
    ReportedUnder(s', t, name) == if name in names then Some(Owner(s, t, names, name)) else ReportedUnder(s, t, name)
  }

  /** If nothing fails, mapping the first `n` names gives their owners. */
  predicate PrefixGivesOwner(s: State, t: WaitableEntity, names: seq<string>, creations: seq<Creation>, n: nat, name: string)
    requires n <= |names| == |creations|
  {
    var (s', outcome) := MapUpTo(s, t, names, creations, n);
    outcome.Pass? ==> GivesOwner(s, s', t, names[..n], name)
  }

  lemma {:induction false} PrefixesGiveOwners(
    s: State, t: WaitableEntity, names: seq<string>, creations: seq<Creation>, n: nat, name: string)
    requires Inv(s) && n <= |names| == |creations|
    ensures PrefixGivesOwner(s, t, names, creations, n, name)
    decreases n
  {
    if n == 0 {
      NothingOwned(s, t, names, creations, name);
    } else {
      PrefixesGiveOwners(s, t, names, creations, n - 1, name);
      LongerPrefixGivesOwner(s, t, names, creations, n, name);
    }
  }

  lemma NothingOwned(s: State, t: WaitableEntity, names: seq<string>, creations: seq<Creation>, name: string)
    requires |names| == |creations|
    ensures PrefixGivesOwner(s, t, names, creations, 0, name)
  {
  }

  lemma LongerPrefixGivesOwner(s: State, t: WaitableEntity, names: seq<string>, creations: seq<Creation>, n: nat, name: string)
    requires Inv(s) && 0 < n <= |names| == |creations| && PrefixGivesOwner(s, t, names, creations, n - 1, name)
    ensures PrefixGivesOwner(s, t, names, creations, n, name)
  {
    var (s1, outcome) := MapUpTo(s, t, names, creations, n - 1);
    if outcome.Pass? && Map(s1, t, n - 1, names[n - 1], creations[n - 1]).1.Pass? {
      MapUpToInv(s, t, names, creations, n - 1);
      OwnersNext(s, s1, t, names, n, creations[n - 1], name);
    }
  }

  lemma OwnersNext(s: State, s1: State, t: WaitableEntity, names: seq<string>, n: nat, creation: Creation, name: string)
    requires 0 < n <= |names| && Inv(s1) && GivesOwner(s, s1, t, names[..n - 1], name)
    requires Map(s1, t, n - 1, names[n - 1], creation).1.Pass?
    ensures GivesOwner(s, Map(s1, t, n - 1, names[n - 1], creation).0, t, names[..n], name)
  {
    OneMore(names, n);
    OwnersOneMore(s, s1, t, names[..n - 1], names[n - 1], creation, name);
  }

  lemma OwnersOneMore(s: State, s1: State, t: WaitableEntity, names: seq<string>, last: string, creation: Creation, name: string)
    requires Inv(s1) && Map(s1, t, |names|, last, creation).1.Pass?
    requires GivesOwner(s, s1, t, names, name)
    ensures GivesOwner(s, Map(s1, t, |names|, last, creation).0, t, names + [last], name)
  {
    MapGivesOwner(s1, t, |names|, last, creation, name);
    OwnerInLonger(s, t, names, last, name);
    InOneMore(names, last, name);
  }

  lemma InOneMore(names: seq<string>, last: string, name: string)
    ensures name in names + [last] <==> name in names || name == last
  {
  }

  lemma OwnerInLonger(s: State, t: WaitableEntity, names: seq<string>, last: string, name: string)
    ensures name in names ==> Owner(s, t, names + [last], name) == Owner(s, t, names, name)
    ensures name !in names && name == last ==>
              Owner(s, t, names + [last], name) ==
              if ReportedUnder(s, t, name).Some? then ReportedUnder(s, t, name).value else |names|
  {
    if name in names {
      FirstIndexInLonger(names, last, name);
    } else if name == last {
      FirstIndexOfNew(names, name);
    }
  }

  lemma FirstIndexInLonger(names: seq<string>, last: string, name: string)
    requires name in names
    ensures FirstIndex(names + [last], name) == FirstIndex(names, name)
  {
    assert (names + [last])[FirstIndex(names, name)] == name;
  }

  lemma FirstIndexOfNew(names: seq<string>, name: string)
    requires name !in names
    ensures FirstIndex(names + [name], name) == |names|
  {
    assert (names + [name])[|names|] == name;
  }

  lemma MapGivesOwner(s: State, t: WaitableEntity, rmwIndex: nat, added: string, creation: Creation, name: string)
    requires Inv(s) && Map(s, t, rmwIndex, added, creation).1.Pass?
    ensures ReportedUnder(Map(s, t, rmwIndex, added, creation).0, t, name) ==
            if name == added && ReportedUnder(s, t, name).None? then Some(rmwIndex) else ReportedUnder(s, t, name)
  {
    GetStorageIndexKeepsInv(s, t, added, creation);
    var (s1, r) := GetStorageIndex(s, t, added, creation);
    GetStorageIndexKeepsReports(s, t, added, creation, name);
    StoringGivesOwner(s1, t, r.value, rmwIndex, added, name);
  }

  /** A new listener is not mapped. */
  lemma GetStorageIndexKeepsReports(s: State, t: WaitableEntity, added: string, creation: Creation, name: string)
    requires Inv(s)
    ensures ReportedUnder(GetStorageIndex(s, t, added, creation).0, t, name) == ReportedUnder(s, t, name)
  {
    var table := s.Table(t);
    if FindListener(table, added).None? && creation.CREATED? {
      FindListenerInAppended(table, ListenerDetails(added, 0), name);
      assert FindMapping(s.mapping, t, |table|).None?;
    }
  }

  lemma StoringGivesOwner(s: State, t: WaitableEntity, i: nat, rmwIndex: nat, added: string, name: string)
    requires FindListener(s.Table(t), added) == Some(i)
    ensures ReportedUnder(MapStoredListener(s, t, i, rmwIndex), t, name) ==
            if name == added && ReportedUnder(s, t, name).None? then Some(rmwIndex) else ReportedUnder(s, t, name)
  {
    var found := FindListener(s.Table(t), name);
    if found.Some? {
      FindMappingInAppended(s.mapping, RmwMapping(t, i, rmwIndex), t, found.value);
    }
  }

  lemma FindMappingInAppended(mapping: seq<RmwMapping>, m: RmwMapping, t: WaitableEntity, i: nat)
    ensures FindMapping(mapping + [m], t, i) ==
            if FindMapping(mapping, t, i).Some? then FindMapping(mapping, t, i)
            else if m.waitableType == t && m.storageIndex == i then Some(|mapping|) else None
  {
    var before, after := FindMapping(mapping, t, i), FindMapping(mapping + [m], t, i);
    assert before.Some? ==> (mapping + [m])[before.value] == mapping[before.value];
    assert (mapping + [m])[|mapping|] == m;
  }

  predicate Distinct(names: seq<string>) {
    forall i, j :: 0 <= i < j < |names| ==> names[i] != names[j]
  }

  /** Every entity is reported under its own index. */
  predicate ReportedApart(s: State, t: WaitableEntity, names: seq<string>) {
    forall i :: 0 <= i < |names| ==> ReportedUnder(s, t, names[i]) == Some(i)
  }

  /** No mapping that is left over claims an entity for an index other than its own. */
  predicate NoForeignClaim(s: State, t: WaitableEntity, names: seq<string>) {
    forall i :: 0 <= i < |names| ==> ReportedUnder(s, t, names[i]) in {None, Some(i)}
  }

  /** Every entity of an array is reported under its own index exactly when the names in the array are
      pairwise distinct and no mapping left over from an earlier call claims one of them for another
      index. */
  lemma EveryEntityKeepsItsIndex(s: State, t: WaitableEntity, names: seq<string>, creations: seq<Creation>)
    requires Inv(s) && |names| == |creations|
    requires MapUpTo(s, t, names, creations, |names|).1.Pass?
    ensures ReportedApart(MapUpTo(s, t, names, creations, |names|).0, t, names)
            <==> Distinct(names) && NoForeignClaim(s, t, names)
  {
    var s' := MapUpTo(s, t, names, creations, |names|).0;
    forall i | 0 <= i < |names| ensures ReportedAsOwned(s, s', t, names, i) {
      MappingGivesOwners(s, t, names, creations, names[i]);
    }
    OwnersApart(s, s', t, names);
  }

  /** Entity `i` is reported under a left-over index in `s`, or else where its name comes first. */
  predicate ReportedAsOwned(s: State, s': State, t: WaitableEntity, names: seq<string>, i: nat)
    requires i < |names|
  {
    ReportedUnder(s', t, names[i]) ==
    if ReportedUnder(s, t, names[i]).Some? then ReportedUnder(s, t, names[i]) else Some(FirstIndex(names, names[i]))
  }

  lemma OwnersApart(s: State, s': State, t: WaitableEntity, names: seq<string>)
    requires forall i :: 0 <= i < |names| ==> ReportedAsOwned(s, s', t, names, i)
    ensures ReportedApart(s', t, names) <==> Distinct(names) && NoForeignClaim(s, t, names)
  {
    if ReportedApart(s', t, names) {
      forall i, j | 0 <= i < j < |names| ensures names[i] != names[j] {
        assert ReportedUnder(s', t, names[i]) == Some(i) && ReportedUnder(s', t, names[j]) == Some(j);
      }
      forall i | 0 <= i < |names| ensures ReportedUnder(s, t, names[i]) in {None, Some(i)} {
        assert ReportedAsOwned(s, s', t, names, i) && ReportedUnder(s', t, names[i]) == Some(i);
      }
    }
    if Distinct(names) && NoForeignClaim(s, t, names) {
      forall i | 0 <= i < |names| ensures ReportedUnder(s', t, names[i]) == Some(i) {
        assert ReportedAsOwned(s, s', t, names, i);
        assert ReportedUnder(s, t, names[i]) in {None, Some(i)};
      }
    }
  }

  // ----- The fold over events --------------------------------------------------------------------

  /** The occurrences before the first timeout event. */
  function BeforeTimeout(timer: Option<nat>, occurrences: seq<Occurrence>): seq<Occurrence> {
    if occurrences == [] || IsTimeout(timer, occurrences[0]) then []
    else [occurrences[0]] + BeforeTimeout(timer, occurrences[1..])
  }

  lemma {:induction false} BeforeTimeoutIsTheLongestPrefix(timer: Option<nat>, occurrences: seq<Occurrence>)
    ensures var p := BeforeTimeout(timer, occurrences);
            p <= occurrences
            && (timer.None? ==> p == occurrences)
            && (timer.Some? ==> forall i :: 0 <= i < |p| && p[i].Event? ==> p[i].id != Tick(timer.value))
            && (|p| < |occurrences| ==> timer.Some? && occurrences[|p|].Event? && occurrences[|p|].id == Tick(timer.value))
  {
    if occurrences != [] && !IsTimeout(timer, occurrences[0]) {
      BeforeTimeoutIsTheLongestPrefix(timer, occurrences[1..]);
    }
  }

  /** The mapping that an occurrence reports: one whose listener's event is delivered and drained. */
  function Reported(mapping: seq<RmwMapping>, occurrence: Occurrence): Option<RmwMapping> {
    if occurrence.Event? && occurrence.id.Notification? && occurrence.draining.DRAINED? then
      match FindMapping(mapping, occurrence.id.waitableType, occurrence.id.storageIndex)
      case None => None
      case Some(k) => Some(mapping[k])
    else None
  }

  /** The reports of a list of occurrences, in order. */
  function Reports(mapping: seq<RmwMapping>, occurrences: seq<Occurrence>): (r: seq<TriggeredWaitable>)
    ensures forall w :: w in r <==>
      exists j :: 0 <= j < |occurrences| && Reported(mapping, occurrences[j]).Some?
                  && w == TriggeredWaitable(Reported(mapping, occurrences[j]).value.waitableType,
                                            Reported(mapping, occurrences[j]).value.rmwIndex)
  {
    if occurrences == [] then []
    else
      var first := Reported(mapping, occurrences[0]);
      var rest := Reports(mapping, occurrences[1..]);
      assert forall j :: 0 <= j < |occurrences| - 1 ==> occurrences[1..][j] == occurrences[j + 1];
      assert forall j :: 0 < j < |occurrences| ==> occurrences[j] == occurrences[1..][j - 1];
      (if first.Some? then [TriggeredWaitable(first.value.waitableType, first.value.rmwIndex)] else []) + rest
  }

  /** Conservation of wake-ups in one wait: for every finite sequence of occurrences - duplicates,
      unknown ids, failing drains and the timeout included - the result is the in-order list of the
      mapped listeners whose events precede the first timeout event and are drained. */
  lemma {:induction false} WaitReportsDrainedEvents(s: State, timer: Option<nat>, occurrences: seq<Occurrence>)
    requires Inv(s)
    ensures HandleAll(s, timer, occurrences).1 == Reports(s.mapping, BeforeTimeout(timer, occurrences))
    decreases |occurrences|
  {
    if occurrences != [] && !IsTimeout(timer, occurrences[0]) {
      HandleKeepsNames(s, occurrences[0]);
      var s' := Handle(s, occurrences[0]).0;
      SameButPendingKeepsInv(s, s');
      WaitReportsDrainedEvents(s', timer, occurrences[1..]);
      var p := BeforeTimeout(timer, occurrences);
      assert p[1..] == BeforeTimeout(timer, occurrences[1..]);
    }
  }

  /** What one listener goes through, looking only at its own notifications and events. */
  function PendingAfter(pending: nat, mapped: bool, t: WaitableEntity, i: nat, occurrences: seq<Occurrence>): nat
    decreases |occurrences|
  {
    if occurrences == [] then pending
    else
      PendingAfter(PendingNext(pending, mapped, t, i, occurrences[0]), mapped, t, i, occurrences[1..])
  }

  function PendingNext(pending: nat, mapped: bool, t: WaitableEntity, i: nat, occurrence: Occurrence): nat {
    match occurrence
    case Notified(u, j) => if u == t && j == i then pending + 1 else pending
    case Event(id, draining) => if id == Notification(t, i) && mapped then Drain(pending, draining) else pending
  }

  lemma HandleActsOnOneListener(s: State, occurrence: Occurrence, t: WaitableEntity, i: nat)
    requires Inv(s) && i < |s.Table(t)|
    ensures var s' := Handle(s, occurrence).0;
            Inv(s') && s'.mapping == s.mapping && i < |s'.Table(t)|
            && s'.Table(t)[i].pending == PendingNext(s.Table(t)[i].pending, FindMapping(s.mapping, t, i).Some?, t, i, occurrence)
  {
    var s' := Handle(s, occurrence).0;
    HandleKeepsNames(s, occurrence);
    SameButPendingKeepsInv(s, s');
    assert |s'.Table(t)| == |s.Table(t)| by {
      assert |NamesOf(s'.Table(t))| == |NamesOf(s.Table(t))|;
    }
    match occurrence
    case Notified(u, j) => NotifyActsOnOne(s, u, j, t, i);
    case Event(Tick(_), _) =>
    case Event(Notification(u, j), draining) =>
      if FindMapping(s.mapping, u, j).Some? {
        SetPendingActsOnOne(s, u, j, Drain(s.Table(u)[j].pending, draining), t, i);
      }
  }

  lemma SetPendingActsOnOne(s: State, u: WaitableEntity, j: nat, pending: nat, t: WaitableEntity, i: nat)
    requires j < |s.Table(u)| && i < |s.Table(t)|
    ensures i < |SetPending(s, u, j, pending).Table(t)|
    ensures SetPending(s, u, j, pending).Table(t)[i].pending == if u == t && j == i then pending else s.Table(t)[i].pending
  {
  }

  lemma NotifyActsOnOne(s: State, u: WaitableEntity, j: nat, t: WaitableEntity, i: nat)
    requires i < |s.Table(t)|
    ensures i < |Notify(s, u, j).Table(t)|
    ensures Notify(s, u, j).Table(t)[i].pending == s.Table(t)[i].pending + (if u == t && j == i then 1 else 0)
  {
  }

  /** Listeners do not interfere: what is pending at a listener after a wait depends only on what was
      pending before, on whether it is mapped, and on its own notifications and events. */
  lemma {:induction false} ListenersDoNotInterfere(s: State, timer: Option<nat>, occurrences: seq<Occurrence>,
                                                   t: WaitableEntity, i: nat)
    requires Inv(s) && i < |s.Table(t)|
    ensures var s' := HandleAll(s, timer, occurrences).0;
            i < |s'.Table(t)| && s'.Table(t)[i].pending ==
            PendingAfter(s.Table(t)[i].pending, FindMapping(s.mapping, t, i).Some?, t, i, BeforeTimeout(timer, occurrences))
    decreases |occurrences|
  {
    if occurrences != [] && !IsTimeout(timer, occurrences[0]) {
      HandleActsOnOneListener(s, occurrences[0], t, i);
      ListenersDoNotInterfere(Handle(s, occurrences[0]).0, timer, occurrences[1..], t, i);
      var p := BeforeTimeout(timer, occurrences);
      assert p[1..] == BeforeTimeout(timer, occurrences[1..]);
    }
  }

  /** A listener is empty at the moment it is reported: after each event that leads to a report, in the middle
      of any sequence of occurrences, nothing is pending at the listener that the report leads back to. */
  lemma ReportedListenersAreEmpty(s: State, occurrences: seq<Occurrence>, k: nat)
    requires Inv(s) && k < |occurrences| && Reported(s.mapping, occurrences[k]).Some?
    ensures var m := Reported(s.mapping, occurrences[k]).value;
            var now := HandleAll(s, None, occurrences[..k + 1]).0;
            m.storageIndex < |now.Table(m.waitableType)| && now.Table(m.waitableType)[m.storageIndex].pending == 0
  {
    var m := Reported(s.mapping, occurrences[k]).value;
    var t, i := m.waitableType, m.storageIndex;
    var p := occurrences[..k + 1];
    NoTimeoutWithoutTimer(p);
    ListenersDoNotInterfere(s, None, p, t, i);
    assert p[|p| - 1] == Event(Notification(t, i), DRAINED);
    EmptyAfterDrain(s.Table(t)[i].pending, t, i, p);
  }

  lemma {:induction false} NoTimeoutWithoutTimer(occurrences: seq<Occurrence>)
    ensures BeforeTimeout(None, occurrences) == occurrences
  {
    if occurrences != [] {
      NoTimeoutWithoutTimer(occurrences[1..]);
    }
  }

  lemma {:induction false} EmptyAfterDrain(pending: nat, t: WaitableEntity, i: nat, occurrences: seq<Occurrence>)
    requires occurrences != [] && occurrences[|occurrences| - 1] == Event(Notification(t, i), DRAINED)
    ensures PendingAfter(pending, true, t, i, occurrences) == 0
    decreases |occurrences|
  {
    if |occurrences| > 1 {
      EmptyAfterDrain(PendingNext(pending, true, t, i, occurrences[0]), t, i, occurrences[1..]);
    }
  }

  /** The notifications of one listener among some occurrences. */
  function Arrivals(t: WaitableEntity, i: nat, occurrences: seq<Occurrence>): nat {
    if occurrences == [] then 0
    else (if occurrences[0] == Notified(t, i) then 1 else 0) + Arrivals(t, i, occurrences[1..])
  }

  /** The listener is mapped, and one of the occurrences is an event of it. */
  predicate Processed(s: State, t: WaitableEntity, i: nat, occurrences: seq<Occurrence>) {
    FindMapping(s.mapping, t, i).Some?
    && exists j :: 0 <= j < |occurrences| && occurrences[j].Event? && occurrences[j].id == Notification(t, i)
  }

  /** A listener that a wait does not process keeps all its pending events and gains the new ones, for every
      sequence of occurrences. */
  lemma UnprocessedListenersKeepTheirEvents(s: State, timer: Option<nat>, occurrences: seq<Occurrence>, t: WaitableEntity, i: nat)
    requires Inv(s) && i < |s.Table(t)|
    ensures var s', p := HandleAll(s, timer, occurrences).0, BeforeTimeout(timer, occurrences);
            i < |s'.Table(t)|
            && (!Processed(s, t, i, p) ==> s'.Table(t)[i].pending == s.Table(t)[i].pending + Arrivals(t, i, p))
  {
    var p := BeforeTimeout(timer, occurrences);
    ListenersDoNotInterfere(s, timer, occurrences, t, i);
    if !Processed(s, t, i, p) {
      UnprocessedKeepsPending(s.Table(t)[i].pending, FindMapping(s.mapping, t, i).Some?, t, i, p);
    }
  }

  lemma {:induction false} UnprocessedKeepsPending(
    pending: nat, mapped: bool, t: WaitableEntity, i: nat, occurrences: seq<Occurrence>)
    requires mapped ==> forall j :: 0 <= j < |occurrences| ==> occurrences[j].Event? ==> occurrences[j].id != Notification(t, i)
    ensures PendingAfter(pending, mapped, t, i, occurrences) == pending + Arrivals(t, i, occurrences)
    decreases |occurrences|
  {
    if occurrences != [] {
      var next := if occurrences[0] == Notified(t, i) then pending + 1 else pending;
      UnprocessedKeepsPending(next, mapped, t, i, occurrences[1..]);
    }
  }

  /** No event is dropped silently: for every sequence of occurrences in which no drain fails, a listener that
      had or got an event still has one after the wait, or else it is mapped and reported. */
  lemma EventsAreKeptOrReported(s: State, timer: Option<nat>, occurrences: seq<Occurrence>, t: WaitableEntity, i: nat)
    requires Inv(s) && i < |s.Table(t)|
    requires forall j :: 0 <= j < |occurrences| && occurrences[j].Event? ==> occurrences[j].draining.DRAINED?
    ensures var (s', triggered) := HandleAll(s, timer, occurrences);
            i < |s'.Table(t)|
            && (s.Table(t)[i].pending + Arrivals(t, i, BeforeTimeout(timer, occurrences)) > 0 ==>
                  s'.Table(t)[i].pending > 0
                  || (FindMapping(s.mapping, t, i).Some?
                      && TriggeredWaitable(t, s.mapping[FindMapping(s.mapping, t, i).value].rmwIndex) in triggered))
  {
    var p := BeforeTimeout(timer, occurrences);
    ListenersDoNotInterfere(s, timer, occurrences, t, i);
    WaitReportsDrainedEvents(s, timer, occurrences);
    BeforeTimeoutIsTheLongestPrefix(timer, occurrences);
    assert forall j :: 0 <= j < |p| ==> p[j] == occurrences[j];
    if s.Table(t)[i].pending + Arrivals(t, i, p) > 0 {
      EventsAreKeptOrDrained(s.Table(t)[i].pending, FindMapping(s.mapping, t, i).Some?, t, i, p);
      if HandleAll(s, timer, occurrences).0.Table(t)[i].pending == 0 {
        var j :| 0 <= j < |p| && p[j] == Event(Notification(t, i), DRAINED);
        assert Reported(s.mapping, p[j]) == Some(s.mapping[FindMapping(s.mapping, t, i).value]);
      }
    }
  }

  lemma {:induction false} EventsAreKeptOrDrained(
    pending: nat, mapped: bool, t: WaitableEntity, i: nat, occurrences: seq<Occurrence>)
    requires pending + Arrivals(t, i, occurrences) > 0
    requires forall j :: 0 <= j < |occurrences| && occurrences[j].Event? ==> occurrences[j].draining.DRAINED?
    ensures PendingAfter(pending, mapped, t, i, occurrences) > 0
            || (mapped && exists j :: 0 <= j < |occurrences| && occurrences[j] == Event(Notification(t, i), DRAINED))
    decreases |occurrences|
  {
    if occurrences != [] && !(mapped && occurrences[0] == Event(Notification(t, i), DRAINED)) {
      var next := if occurrences[0] == Notified(t, i) then pending + 1 else pending;
      EventsAreKeptOrDrained(next, mapped, t, i, occurrences[1..]);
      if PendingAfter(next, mapped, t, i, occurrences[1..]) == 0 {
        var j :| 0 <= j < |occurrences| - 1 && occurrences[1..][j] == Event(Notification(t, i), DRAINED);
        assert occurrences[j + 1] == Event(Notification(t, i), DRAINED);
      }
    }
  }
}
