/** The names under which ROS entities appear in iceoryx2. */
module Names {
  import opened Wrappers
  import opened Strings

  type Uint32 = n: nat | n < 0x1_0000_0000

  /** A `const char*` argument: the characters before the terminator. */
  type CString = s: string | '\0' !in s

  const CONTEXT_PREFIX := "ros2://context/"
  const NODES_MARKER := "/nodes/"
  const GUARD_CONDITIONS_MARKER := "/guard_conditions/"
  const TOPICS_PREFIX := "ros2://topics"

  function Context(contextId: Uint32): string {
    CONTEXT_PREFIX + Decimal(contextId)
  }

  /** `ns` may be a null pointer; an empty namespace adds no separator either. */
  function Node(contextId: Uint32, name: CString, ns: Option<CString>): string {
    var s := CONTEXT_PREFIX + Decimal(contextId) + NODES_MARKER;
    var t := if ns.Some? && ns.value != "" then s + (ns.value + "/") else s;
    t + name
  }

  function GuardCondition(contextId: Uint32, guardConditionId: Uint32): string {
    CONTEXT_PREFIX + Decimal(contextId) + GUARD_CONDITIONS_MARKER + Decimal(guardConditionId)
  }

  function Topic(topic: CString): string {
    TOPICS_PREFIX + topic
  }

  // ----- One name, one entity ----------------------------------------------------------------

  /** Everything that is given a name. */
  datatype Entity =
    | ContextEntity(contextId: Uint32)
    | NodeEntity(contextId: Uint32, name: CString, ns: CString)
    | GuardConditionEntity(contextId: Uint32, guardConditionId: Uint32)
    | TopicEntity(topic: CString)
  {
    function ServiceName(): string {
      match this
      case ContextEntity(c) => Context(c)
      case NodeEntity(c, name, ns) => Node(c, name, Some(ns))
      case GuardConditionEntity(c, g) => GuardCondition(c, g)
      case TopicEntity(t) => Topic(t)
    }

    /** ROS node names are made of letters, digits and underscores; only the slash matters here. */
    predicate HasPlainName() {
      NodeEntity? ==> '/' !in name
    }

    /** What comes after the context number. */
    function AfterContext(): string
      requires !TopicEntity?
    {
      match this
      case ContextEntity(_) => ""
      case NodeEntity(_, name, ns) => NODES_MARKER + NodePart(name, ns)
      case GuardConditionEntity(_, g) => GUARD_CONDITIONS_MARKER + Decimal(g)
    }
  }

  /** What a node name carries after the marker. */
  function NodePart(name: string, ns: string): string {
    if ns == "" then name else ns + "/" + name
  }

  lemma ContextNameShape(e: Entity)
    requires !e.TopicEntity?
    ensures e.ServiceName() == CONTEXT_PREFIX + (Decimal(e.contextId) + e.AfterContext())
    ensures NoLeadingDigit(e.AfterContext())
  {
    var d := Decimal(e.contextId);
    match e
    case ContextEntity(c) =>
      assert d + "" == d;
    case NodeEntity(c, name, ns) =>
      if ns == "" {
        Regroup(CONTEXT_PREFIX, d, NODES_MARKER, name);
      } else {
        Regroup(CONTEXT_PREFIX, d, NODES_MARKER, ns + "/" + name);
        assert CONTEXT_PREFIX + d + NODES_MARKER + (ns + "/") + name
            == CONTEXT_PREFIX + d + NODES_MARKER + (ns + "/" + name);
      }
    case GuardConditionEntity(c, g) =>
      Regroup(CONTEXT_PREFIX, d, GUARD_CONDITIONS_MARKER, Decimal(g));
  }

  lemma Regroup(a: string, b: string, c: string, d: string)
    ensures a + b + c + d == a + (b + (c + d))
  {
  }

  lemma TopicNameIsNoContextName(topic: CString, rest: string)
    ensures Topic(topic) != CONTEXT_PREFIX + rest
  {
    assert Topic(topic)[7] == 't' && (CONTEXT_PREFIX + rest)[7] == 'c';
  }

  lemma NodePartUnique(name: string, ns: string, name': string, ns': string)
    requires '/' !in name && '/' !in name'
    requires NodePart(name, ns) == NodePart(name', ns')
    ensures name == name' && ns == ns'
  {
    SplitNodePart(name, ns);
    SplitNodePart(name', ns');
  }

  /** The last slash of a node part is the one between namespace and name. */
  lemma SplitNodePart(name: string, ns: string)
    requires '/' !in name
    ensures ns == "" ==> FindLastOf(NodePart(name, ns), '/') == None && NodePart(name, ns) == name
    ensures ns != "" ==> FindLastOf(NodePart(name, ns), '/') == Some(|ns|)
    ensures ns != "" ==> NodePart(name, ns)[..|ns|] == ns && NodePart(name, ns)[|ns| + 1..] == name
  {
    var part := NodePart(name, ns);
    if ns != "" {
      assert part[|ns|] == '/';
      assert forall i :: |ns| < i < |part| ==> part[i] == name[i - |ns| - 1];
    }
  }

  /** Over all contexts, nodes with slash-free names, guard conditions and topics, a name determines
      its entity: names are injective in every argument, and no two kinds share one. */
  lemma ServiceNamesAreInjective(a: Entity, b: Entity)
    requires a.HasPlainName() && b.HasPlainName()
    requires a.ServiceName() == b.ServiceName()
    ensures a == b
  {
    if a.TopicEntity? && b.TopicEntity? {
      assert a.topic == Topic(a.topic)[|TOPICS_PREFIX|..] == b.topic;
    } else if a.TopicEntity? {
      ContextNameShape(b);
      TopicNameIsNoContextName(a.topic, Decimal(b.contextId) + b.AfterContext());
    } else if b.TopicEntity? {
      ContextNameShape(a);
      TopicNameIsNoContextName(b.topic, Decimal(a.contextId) + a.AfterContext());
    } else {
      ContextNamesAreInjective(a, b);
    }
  }

  lemma ContextNamesAreInjective(a: Entity, b: Entity)
    requires !a.TopicEntity? && !b.TopicEntity?
    requires a.HasPlainName() && b.HasPlainName()
    requires a.ServiceName() == b.ServiceName()
    ensures a == b
  {
    ContextNameShape(a);
    ContextNameShape(b);
    var x, y := a.AfterContext(), b.AfterContext();
    AfterPrefix(CONTEXT_PREFIX, Decimal(a.contextId) + x, Decimal(b.contextId) + y);
    DecimalPrefixUnique(a.contextId, x, b.contextId, y);
    KindsDiffer(a, b);
    if a.NodeEntity? {
      AfterPrefix(NODES_MARKER, NodePart(a.name, a.ns), NodePart(b.name, b.ns));
      NodePartUnique(a.name, a.ns, b.name, b.ns);
    } else if a.GuardConditionEntity? {
      AfterPrefix(GUARD_CONDITIONS_MARKER, Decimal(a.guardConditionId), Decimal(b.guardConditionId));
      DecimalDenotes(a.guardConditionId);
      DecimalDenotes(b.guardConditionId);
    }
  }

  lemma AfterPrefix(prefix: string, s: string, t: string)
    ensures prefix + s == prefix + t ==> s == t
  {
    assert s == (prefix + s)[|prefix|..] && t == (prefix + t)[|prefix|..];
  }

  lemma KindsDiffer(a: Entity, b: Entity)
    requires !a.TopicEntity? && !b.TopicEntity?
    ensures a.AfterContext() == b.AfterContext() ==> a.NodeEntity? == b.NodeEntity?
    ensures a.AfterContext() == b.AfterContext() ==> a.GuardConditionEntity? == b.GuardConditionEntity?
  {
    SecondCharacter(a);
    SecondCharacter(b);
  }

  lemma SecondCharacter(a: Entity)
    requires !a.TopicEntity?
    ensures a.NodeEntity? ==> |a.AfterContext()| > 1 && a.AfterContext()[1] == 'n'
    ensures a.GuardConditionEntity? ==> |a.AfterContext()| > 1 && a.AfterContext()[1] == 'g'
  {
  }

  /** What the names look like; `Strings` says what the decimals are. */
  lemma NamesAreSpelled(guardConditionId: Uint32, topic: CString)
    ensures Context(7) == "ros2://context/7"
    ensures GuardCondition(12, guardConditionId) == "ros2://context/12/guard_conditions/" + Decimal(guardConditionId)
    ensures Topic(topic) == "ros2://topics" + topic
  {
    assert Decimal(7) == "7" && Decimal(12) == "12";
    assert CONTEXT_PREFIX + "12" + GUARD_CONDITIONS_MARKER == "ros2://context/12/guard_conditions/";
  }

  lemma NodeNamesAreSpelled(name: CString, ns: CString)
    ensures Node(12, name, None) == Node(12, name, Some("")) == "ros2://context/12/nodes/" + name
    ensures ns != "" ==> Node(12, name, Some(ns)) == "ros2://context/12/nodes/" + ns + "/" + name
  {
    var s := CONTEXT_PREFIX + Decimal(12) + NODES_MARKER;
    assert s == "ros2://context/12/nodes/" by {
      assert Decimal(12) == "12";
    }
    assert s + (ns + "/") + name == s + ns + "/" + name;
  }
}
