/** `rmw_get_node_names`: the alive nodes, sorted and without duplicates, in two parallel arrays. */
module NodeListing {
  import opened Wrappers
  import opened Strings
  import opened Names
  import opened NodeNames

  datatype ReturnCode = OK | ERROR | BAD_ALLOC

  /** One entry of the iceoryx2 node list; the details of an alive node need not be readable. */
  datatype ListedNode = NotAlive | Alive(details: Option<string>)

  // ----- NodeName as the key of a std::set ----------------------------------------------------

  /** The order is a strict total order. */
  lemma BeforeIsStrictTotalOrder(a: NodeName, b: NodeName, c: NodeName)
    ensures !Before(a, a)
    ensures Before(a, b) && Before(b, c) ==> Before(a, c)
    ensures Before(a, b) || a == b || Before(b, a)
  {
    LessIrreflexive(a.ns);
    LessIrreflexive(a.name);
    LessTotal(a.ns, b.ns);
    LessTotal(a.name, b.name);
    if Before(a, b) && Before(b, c) {
      if a.ns == b.ns == c.ns {
        LessTransitive(a.name, b.name, c.name);
      } else if a.ns != b.ns && b.ns != c.ns {
        LessTransitive(a.ns, b.ns, c.ns);
        if a.ns == c.ns {
          LessIrreflexive(a.ns);
        }
      }
    }
  }

  /** Namespaces decide, and names among equal namespaces; each by the lexicographic order of strings. */
  lemma BeforeIsLexicographic(a: NodeName, b: NodeName)
    ensures Before(a, b) <==>
              (exists k: nat :: DecidedAt(a.ns, b.ns, k)) || (a.ns == b.ns && exists k: nat :: DecidedAt(a.name, b.name, k))
  {
    LessIsLexicographic(a.ns, b.ns);
    LessIsLexicographic(a.name, b.name);
    LessIrreflexive(a.ns);
  }

  predicate StrictlyIncreasing(names: seq<NodeName>) {
    forall i, j :: 0 <= i < j < |names| ==> Before(names[i], names[j])
  }

  /** `std::set::emplace` on the sorted content of the set. */
  function Emplace(names: seq<NodeName>, x: NodeName): (r: seq<NodeName>)
    requires StrictlyIncreasing(names)
    ensures StrictlyIncreasing(r)
    ensures forall y :: y in r <==> y in names || y == x
    ensures x in names ==> r == names
  {
    if names == [] then [x]
    else if Before(x, names[0]) then
      assert forall y: NodeName {:trigger Before(x, y)} :: Before(names[0], y) ==> Before(x, y) by {
        forall y: NodeName | Before(names[0], y) ensures Before(x, y) {
          BeforeIsStrictTotalOrder(x, names[0], y);
        }
      }
      BeforeIsStrictTotalOrder(x, x, x);
      [x] + names
    else if names[0] == x then names
    else
      BeforeIsStrictTotalOrder(x, names[0], x);
      BeforeIsStrictTotalOrder(names[0], names[0], names[0]);
      var rest := Emplace(names[1..], x);
      assert forall y :: y in rest ==> Before(names[0], y);
      assert names == [names[0]] + names[1..];
      [names[0]] + rest
  }

  // ----- Collecting --------------------------------------------------------------------------

  function ParsedName(node: ListedNode): Option<NodeName> {
    if node.Alive? && node.details.Some? then ParseName(node.details.value) else None
  }

  /** The names that the first `n` entries of a listing contribute. */
  ghost predicate ListsUpTo(listing: seq<ListedNode>, n: nat, x: NodeName)
    requires n <= |listing|
  {
    exists i :: 0 <= i < n && ParsedName(listing[i]) == Some(x)
  }

  /** The names that a listing contributes. */
  ghost predicate Lists(listing: seq<ListedNode>, x: NodeName) {
    ListsUpTo(listing, |listing|, x)
  }

  /** The set that the first `n` entries fill. */
  function Collected(listing: seq<ListedNode>, n: nat): (names: seq<NodeName>)
    requires n <= |listing|
    ensures StrictlyIncreasing(names)
  {
    if n == 0 then []
    else
      var parsed := ParsedName(listing[n - 1]);
      if parsed.Some? then Emplace(Collected(listing, n - 1), parsed.value) else Collected(listing, n - 1)
  }

  lemma {:induction false} CollectedListed(listing: seq<ListedNode>, n: nat, x: NodeName)
    requires n <= |listing|
    ensures x in Collected(listing, n) <==> ListsUpTo(listing, n, x)
  {
    if n > 0 {
      CollectedListed(listing, n - 1, x);
      ListsNext(listing, n - 1, x);
    }
  }

  method CollectNodeNames(listing: seq<ListedNode>, listed: bool) returns (rc: ReturnCode, names: seq<NodeName>)
    ensures rc == if listed then OK else ERROR
    ensures names == Collected(listing, |listing|)
    ensures StrictlyIncreasing(names) && forall x :: x in names <==> Lists(listing, x)
  {
    names := [];
    for i := 0 to |listing|
      invariant names == Collected(listing, i)
    {
      var parsed := ParsedName(listing[i]);
      if parsed.Some? {
        names := Emplace(names, parsed.value);
      }
    }
    forall x ensures x in names <==> Lists(listing, x) {
      CollectedListed(listing, |listing|, x);
    }
    rc := if listed then OK else ERROR;
  }

  lemma ListsNext(listing: seq<ListedNode>, i: nat, x: NodeName)
    requires i < |listing|
    ensures ListsUpTo(listing, i + 1, x) <==> ListsUpTo(listing, i, x) || ParsedName(listing[i]) == Some(x)
  {
    assert ParsedName(listing[i]) == Some(x) ==> ListsUpTo(listing, i + 1, x);
  }

  // ----- Listings of printed names -------------------------------------------------------------

  /** Every alive node whose details can be read was named after an entity, with a slash-free name if it is a
      node.  Other programs, and the other entities of this one, may be on the list too. */
  predicate PrintedBy(listing: seq<ListedNode>, entities: seq<Option<Entity>>) {
    |entities| == |listing|
    && forall i :: 0 <= i < |listing| ==>
         match entities[i]
         case None => listing[i] in {NotAlive, Alive(None)}
         case Some(e) => e.HasPlainName() && listing[i] == Alive(Some(e.ServiceName()))
  }

  /** One of the entities is the node with that namespace and name. */
  ghost predicate IsNodeAmong(entities: seq<Option<Entity>>, x: NodeName) {
    exists i :: 0 <= i < |entities| && IsNode(entities[i], x)
  }

  predicate IsNode(entity: Option<Entity>, x: NodeName) {
    entity.Some? && entity.value.NodeEntity? && entity.value.ns == x.ns && entity.value.name == x.name
    && (x.ns != "" || x.name != "")
  }

  lemma PrintedIsParsed(node: ListedNode, e: Entity, x: NodeName)
    requires e.HasPlainName() && node == Alive(Some(e.ServiceName()))
    ensures ParsedName(node) == Some(x) <==> IsNode(Some(e), x)
  {
    if e.NodeEntity? {
      NodeNameRoundTrip(e.contextId, e.name, Some(e.ns));
      ParseOfNode(e.contextId, e.name, e.ns);
    } else {
      OnlyNodesParseAsNodes(e);
    }
  }

  /** From printing to listing: a list of printed names contributes exactly the nodes among the entities, each
      as its own namespace and name, and nothing for contexts, guard conditions, topics, dead nodes and
      nodes that cannot be read. */
  lemma ListedNodesArePrintedNodes(listing: seq<ListedNode>, entities: seq<Option<Entity>>, x: NodeName)
    requires PrintedBy(listing, entities)
    ensures Lists(listing, x) <==> IsNodeAmong(entities, x)
  {
    forall i | 0 <= i < |listing| ensures ParsedName(listing[i]) == Some(x) <==> IsNode(entities[i], x) {
      if entities[i].Some? {
        PrintedIsParsed(listing[i], entities[i].value, x);
      }
    }
    if Lists(listing, x) {
      var i :| 0 <= i < |listing| && ParsedName(listing[i]) == Some(x);
      assert IsNode(entities[i], x);
    }
    if IsNodeAmong(entities, x) {
      var i :| 0 <= i < |entities| && IsNode(entities[i], x);
      assert ParsedName(listing[i]) == Some(x);
    }
  }

  // ----- The entry point ---------------------------------------------------------------------

  /** What the two filled arrays say, slot by slot. */
  function Pairs(names: seq<Option<string>>, namespaces: seq<Option<string>>): seq<NodeName>
    requires |names| == |namespaces|
    requires forall i :: 0 <= i < |names| ==> names[i].Some? && namespaces[i].Some?
  {
    seq(|names|, i requires 0 <= i < |names| => NodeName(namespaces[i].value, names[i].value))
  }

  predicate Filled(a: seq<Option<string>>) {
    forall i :: 0 <= i < |a| ==> a[i].Some?
  }

  /** `listed` says whether listing the nodes succeeds, `namesInit` and `namespacesInit` whether the
      arrays can be allocated, and `copies` how many string copies succeed before memory runs out. */
  method GetNodeNames(listing: seq<ListedNode>, listed: bool, namesInit: bool, namespacesInit: bool, copies: Option<nat>)
    returns (rc: ReturnCode, nodeNames: array<Option<string>>, nodeNamespaces: array<Option<string>>)
    ensures rc == OK ==> nodeNames.Length == nodeNamespaces.Length
    ensures rc == OK ==> Filled(nodeNames[..]) && Filled(nodeNamespaces[..])
    ensures rc == OK ==> StrictlyIncreasing(Pairs(nodeNames[..], nodeNamespaces[..]))
    ensures rc == OK ==> forall x :: x in Pairs(nodeNames[..], nodeNamespaces[..]) <==> Lists(listing, x)
    ensures rc == OK ==> forall entities :: PrintedBy(listing, entities) ==>
                           forall x :: x in Pairs(nodeNames[..], nodeNamespaces[..]) <==> IsNodeAmong(entities, x)
    ensures rc == ERROR <==> !listed
    ensures rc == OK <==> listed && namesInit && namespacesInit
                          && (copies.Some? ==> 2 * |Collected(listing, |listing|)| <= copies.value)
  {
    nodeNames, nodeNamespaces := new Option<string>[0], new Option<string>[0];
    var names;
    rc, names := CollectNodeNames(listing, listed);
    if rc != OK {
      return;
    }
    if !namesInit {
      rc := BAD_ALLOC;
      return;
    }
    nodeNames := new Option<string>[|names|](_ => None);
    if !namespacesInit {
      rc := BAD_ALLOC;
      return;
    }
    nodeNamespaces := new Option<string>[|names|](_ => None);

    var copied := 0;
    for i := 0 to |names|
      invariant nodeNames.Length == nodeNamespaces.Length == |names| && nodeNames != nodeNamespaces
      invariant fresh(nodeNames) && fresh(nodeNamespaces)
      invariant forall k :: 0 <= k < i ==> nodeNames[k] == Some(names[k].name)
      invariant forall k :: 0 <= k < i ==> nodeNamespaces[k] == Some(names[k].ns)
      invariant copied == 2 * i && (copies.Some? ==> copied <= copies.value)
    {
      if copies == Some(copied) {
        rc := BAD_ALLOC;
        return;
      }
      nodeNames[i] := Some(names[i].name);
      copied := copied + 1;
      if copies == Some(copied) {
        rc := BAD_ALLOC;
        return;
      }
      nodeNamespaces[i] := Some(names[i].ns);
      copied := copied + 1;
    }
    assert Pairs(nodeNames[..], nodeNamespaces[..]) == names;
    forall entities, x | PrintedBy(listing, entities) ensures Lists(listing, x) <==> IsNodeAmong(entities, x) {
      ListedNodesArePrintedNodes(listing, entities, x);
    }
    rc := OK;
  }

  /** The answer depends only on which names are alive: not on the order of the listing, nor on how
      often a name is listed. */
  lemma {:induction false} SortedNamesAreUnique(a: seq<NodeName>, b: seq<NodeName>)
    requires StrictlyIncreasing(a) && StrictlyIncreasing(b)
    requires forall x :: x in a <==> x in b
    ensures a == b
  {
    assert (a != [] ==> a[0] in b) && (b != [] ==> b[0] in a);
    if a != [] && b != [] {
      BeforeIsStrictTotalOrder(a[0], b[0], a[0]);
      BeforeIsStrictTotalOrder(a[0], a[0], a[0]);
      BeforeIsStrictTotalOrder(b[0], b[0], b[0]);
      assert a[0] == b[0];
      forall x ensures x in a[1..] <==> x in b[1..] {
        assert x in a[1..] ==> x in a && Before(a[0], x);
        assert x in b[1..] ==> x in b && Before(b[0], x);
        assert x in a ==> x == a[0] || x in a[1..];
        assert x in b ==> x == b[0] || x in b[1..];
      }
      SortedNamesAreUnique(a[1..], b[1..]);
      assert a == [a[0]] + a[1..] && b == [b[0]] + b[1..];
    }
  }
}
