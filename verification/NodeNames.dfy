/** Reading node and topic names back from iceoryx2 names. */
module NodeNames {
  import opened Wrappers
  import opened Strings
  import opened Names

  datatype NodeName = NodeName(ns: string, name: string)

  /** `NodeName::operator<` */
  predicate Before(a: NodeName, b: NodeName) {
    if a.ns != b.ns then Less(a.ns, b.ns) else Less(a.name, b.name)
  }

  /** `std::string_view::substr(0, n)`: as much of the prefix as there is. */
  function Front(s: string, n: nat): string {
    if n <= |s| then s[..n] else s
  }

  function ParseName(fullName: string): Option<NodeName> {
    if Front(fullName, |CONTEXT_PREFIX|) != CONTEXT_PREFIX then None
    else
      match Find(fullName, NODES_MARKER)
      case None => None
      case Some(nodesPos) =>
        var nodePart := fullName[nodesPos + |NODES_MARKER|..];
        if nodePart == "" then None
        else
          match FindLastOf(nodePart, '/')
          case None => Some(NodeName("", nodePart))
          case Some(lastSlash) => Some(NodeName(nodePart[..lastSlash], nodePart[lastSlash + 1..]))
  }

  function ParseTopicName(fullName: string): Option<string> {
    if Front(fullName, |TOPICS_PREFIX|) != TOPICS_PREFIX then None
    else
      var topicPart := fullName[|TOPICS_PREFIX|..];
      if topicPart == "" then None else Some(topicPart)
  }

  // ----- Round trip of node names ------------------------------------------------------------

  /** A null namespace is read back as the empty one. */
  function NamespaceText(ns: Option<CString>): string {
    if ns.Some? then ns.value else ""
  }

  lemma MarkerStart(s: string, i: nat)
    requires OccursAt(s, NODES_MARKER, i)
    ensures i + 1 < |s| && s[i] == '/' && s[i + 1] == 'n'
  {
    var w := s[i..i + |NODES_MARKER|];
    assert s[i] == w[0] && s[i + 1] == w[1];
  }

  /** No slash up to the end of the context number is followed by an 'n', so the node marker does not
      occur before that end. */
  lemma NoMarkerInContextPart(contextId: Uint32, rest: string, i: nat)
    requires i < |CONTEXT_PREFIX| + |Decimal(contextId)|
    ensures !OccursAt(CONTEXT_PREFIX + (Decimal(contextId) + rest), NODES_MARKER, i)
  {
    SlashesInContextPart(contextId, rest, i);
    if OccursAt(CONTEXT_PREFIX + (Decimal(contextId) + rest), NODES_MARKER, i) {
      MarkerStart(CONTEXT_PREFIX + (Decimal(contextId) + rest), i);
    }
  }

  lemma SlashesInContextPart(contextId: Uint32, rest: string, i: nat)
    requires i < |CONTEXT_PREFIX| + |Decimal(contextId)|
    ensures var s := CONTEXT_PREFIX + (Decimal(contextId) + rest);
            s[i] == '/' && i + 1 < |s| ==> s[i + 1] != 'n'
  {
    var d := Decimal(contextId);
    var s := CONTEXT_PREFIX + (d + rest);
    if i < |CONTEXT_PREFIX| {
      assert s[i] == CONTEXT_PREFIX[i];
      if i + 1 < |CONTEXT_PREFIX| {
        assert s[i + 1] == CONTEXT_PREFIX[i + 1];
      } else {
        assert s[i + 1] == d[0];
      }
    } else {
      assert s[i] == d[i - |CONTEXT_PREFIX|];
    }
  }

  lemma FindMarker(contextId: Uint32, nodePart: string)
    ensures var s := CONTEXT_PREFIX + (Decimal(contextId) + (NODES_MARKER + nodePart));
            var p := |CONTEXT_PREFIX| + |Decimal(contextId)|;
            Find(s, NODES_MARKER) == Some(p) && s[p + |NODES_MARKER|..] == nodePart
  {
    var d := Decimal(contextId);
    var rest := NODES_MARKER + nodePart;
    var s := CONTEXT_PREFIX + (d + rest);
    var p := |CONTEXT_PREFIX| + |d|;
    assert s[p..] == rest && s[p..p + |NODES_MARKER|] == rest[..|NODES_MARKER|] == NODES_MARKER;
    assert OccursAt(s, NODES_MARKER, p);
    var found := Find(s, NODES_MARKER);
    if found.value < p {
      NoMarkerInContextPart(contextId, rest, found.value);
    }
    assert s[p + |NODES_MARKER|..] == rest[|NODES_MARKER|..] == nodePart;
  }

  lemma ParseOfNode(contextId: Uint32, name: CString, ns: CString)
    ensures var part := NodePart(name, ns);
            ParseName(Node(contextId, name, Some(ns))) ==
            if part == "" then None
            else match FindLastOf(part, '/')
                 case None => Some(NodeName("", part))
                 case Some(slash) => Some(NodeName(part[..slash], part[slash + 1..]))
  {
    var e := NodeEntity(contextId, name, ns);
    ContextNameShape(e);
    FindMarker(contextId, NodePart(name, ns));
    assert Front(e.ServiceName(), |CONTEXT_PREFIX|) == CONTEXT_PREFIX;
  }

  /** Printing a node and parsing the result gives the node back exactly when its name has no slash
      and not both its parts are empty.  Nothing is asked of the namespace, which may itself hold
      slashes or even the node marker. */
  lemma NodeNameRoundTrip(contextId: Uint32, name: CString, ns: Option<CString>)
    ensures ParseName(Node(contextId, name, ns)) == Some(NodeName(NamespaceText(ns), name))
            <==> '/' !in name && (name != "" || NamespaceText(ns) != "")
  {
    var nsText: CString := if ns.Some? then ns.value else "";
    assert Node(contextId, name, ns) == Node(contextId, name, Some(nsText));
    ParseOfNode(contextId, name, nsText);
    if '/' !in name {
      SplitNodePart(name, nsText);
    } else {
      NoSlashAfterLast(NodePart(name, nsText));
    }
  }

  lemma NoSlashAfterLast(s: string)
    ensures match FindLastOf(s, '/')
            case None => '/' !in s
            case Some(i) => '/' !in s[i + 1..]
  {
  }

  // ----- What the parsers accept and reject --------------------------------------------------

  lemma FrontAt(s: string, prefix: string, k: nat)
    requires k < |prefix|
    ensures Front(s, |prefix|) == prefix ==> k < |s| && s[k] == prefix[k]
  {
  }

  lemma EighthCharacter(e: Entity)
    ensures |e.ServiceName()| > 7 && e.ServiceName()[7] == if e.TopicEntity? then 't' else 'c'
  {
    if !e.TopicEntity? {
      ContextNameShape(e);
    }
  }

  /** The node parser accepts no context, guard-condition or topic name. */
  lemma OnlyNodesParseAsNodes(e: Entity)
    requires !e.NodeEntity?
    ensures ParseName(e.ServiceName()) == None
  {
    var s := e.ServiceName();
    if e.TopicEntity? {
      EighthCharacter(e);
      FrontAt(s, CONTEXT_PREFIX, 7);
    } else {
      ContextNameShape(e);
      var found := Find(s, NODES_MARKER);
      if found.Some? {
        if found.value < |CONTEXT_PREFIX| + |Decimal(e.contextId)| {
          NoMarkerInContextPart(e.contextId, e.AfterContext(), found.value);
        } else {
          NoMarkerAfterContext(e, found.value);
        }
      }
    }
  }

  lemma NoMarkerAfterContext(e: Entity, i: nat)
    requires e.ContextEntity? || e.GuardConditionEntity?
    requires |CONTEXT_PREFIX| + |Decimal(e.contextId)| <= i
    ensures !OccursAt(e.ServiceName(), NODES_MARKER, i)
  {
    ContextNameShape(e);
    var start := |CONTEXT_PREFIX| + |Decimal(e.contextId)|;
    var s, x := e.ServiceName(), e.AfterContext();
    AfterTwo(CONTEXT_PREFIX, Decimal(e.contextId), x, i);
    if e.GuardConditionEntity? {
      SlashesInGuardPart(e.guardConditionId, i - start);
    }
    if OccursAt(s, NODES_MARKER, i) {
      MarkerStart(s, i);
    }
  }

  lemma AfterTwo(a: string, b: string, c: string, i: nat)
    requires |a| + |b| <= i
    ensures var s := a + (b + c);
            (i < |s| ==> s[i] == c[i - |a| - |b|]) && (i + 1 < |s| ==> s[i + 1] == c[i + 1 - |a| - |b|])
  {
  }

  lemma SlashesInGuardPart(guardConditionId: Uint32, i: nat)
    ensures var x := GUARD_CONDITIONS_MARKER + Decimal(guardConditionId);
            i + 1 < |x| && x[i] == '/' ==> x[i + 1] != 'n'
  {
    var d := Decimal(guardConditionId);
    var x := GUARD_CONDITIONS_MARKER + d;
    if i + 1 < |x| {
      if |GUARD_CONDITIONS_MARKER| <= i {
        assert x[i] == d[i - |GUARD_CONDITIONS_MARKER|];
      } else if |GUARD_CONDITIONS_MARKER| == i + 1 {
        assert x[i + 1] == d[0];
      }
    }
  }

  /** The topic parser accepts a name exactly when it is the name of a non-empty topic, and gives that
      topic; in particular it accepts no context, node or guard-condition name. */
  lemma TopicNameRoundTrip(fullName: string, topic: string)
    ensures ParseTopicName(fullName) == Some(topic) <==> topic != "" && fullName == TOPICS_PREFIX + topic
  {
    if Front(fullName, |TOPICS_PREFIX|) == TOPICS_PREFIX {
      assert fullName == TOPICS_PREFIX + fullName[|TOPICS_PREFIX|..];
    }
    if fullName == TOPICS_PREFIX + topic {
      assert Front(fullName, |TOPICS_PREFIX|) == TOPICS_PREFIX;
      assert fullName[|TOPICS_PREFIX|..] == topic;
    }
  }

  lemma OnlyTopicsParseAsTopics(e: Entity)
    ensures ParseTopicName(e.ServiceName()) == if e.TopicEntity? && e.topic != "" then Some(e.topic) else None
  {
    var parsed := ParseTopicName(e.ServiceName());
    if e.TopicEntity? {
      TopicNameRoundTrip(e.ServiceName(), e.topic);
      if parsed.Some? {
        TopicNameRoundTrip(e.ServiceName(), parsed.value);
        AfterPrefix(TOPICS_PREFIX, parsed.value, e.topic);
      }
    } else {
      EighthCharacter(e);
      FrontAt(e.ServiceName(), TOPICS_PREFIX, 7);
    }
  }

  // ----- All names ------------------------------------------------------------------------------

  /** How a node part reads: with the namespace in front of its last slash, or without one. */
  predicate Reads(part: string, x: NodeName) {
    '/' !in x.name && (part == x.ns + "/" + x.name || (x.ns == "" && part == x.name))
  }

  predicate FirstMarker(fullName: string, i: nat) {
    OccursAt(fullName, NODES_MARKER, i) && forall j: nat :: OccursAt(fullName, NODES_MARKER, j) ==> i <= j
  }

  /** What the node parser makes of any string whatsoever: it wants the context prefix and the node marker, and
      reads what comes after the first marker, if anything does. */
  lemma ParsesExactly(fullName: string, x: NodeName)
    ensures ParseName(fullName) == Some(x) <==>
            && CONTEXT_PREFIX <= fullName
            && exists i: nat :: FirstMarker(fullName, i)
                                && fullName[i + |NODES_MARKER|..] != "" && Reads(fullName[i + |NODES_MARKER|..], x)
  {
    assert CONTEXT_PREFIX <= fullName <==> Front(fullName, |CONTEXT_PREFIX|) == CONTEXT_PREFIX;
    var found := Find(fullName, NODES_MARKER);
    forall i: nat ensures FirstMarker(fullName, i) <==> found == Some(i) {
      MarkerIsFound(fullName, i);
    }
    if found.Some? {
      ReadsExactly(fullName[found.value + |NODES_MARKER|..], x);
    }
  }

  lemma MarkerIsFound(fullName: string, i: nat)
    ensures FirstMarker(fullName, i) <==> Find(fullName, NODES_MARKER) == Some(i)
  {
  }

  lemma ReadsExactly(part: string, x: NodeName)
    ensures Reads(part, x) <==>
            match FindLastOf(part, '/')
            case None => x == NodeName("", part)
            case Some(slash) => x == NodeName(part[..slash], part[slash + 1..])
  {
    var slash := FindLastOf(part, '/');
    NoSlashAfterLast(part);
    if slash.Some? {
      assert part == part[..slash.value] + "/" + part[slash.value + 1..];
    }
    if '/' !in x.name && part == x.ns + "/" + x.name {
      assert part[|x.ns|] == '/';
      assert forall i :: |x.ns| < i < |part| ==> part[i] == x.name[i - |x.ns| - 1];
      assert part[..|x.ns|] == x.ns && part[|x.ns| + 1..] == x.name;
    }
  }
}
