/** Walking the description of a message type to find out whether messages of it are self-contained. */
module Introspection {
  import opened Wrappers

  datatype FieldType = MESSAGE | STRING | WSTRING | PRIMITIVE

  /** `members_` of a member, and the data behind it, may be null pointers. */
  datatype Nested = NullHandle | NullData | Description(description: MessageMembers)

  datatype Member = Member(typeId: FieldType, isArray: bool, arraySize: nat, isUpperBound: bool, nested: Nested)

  datatype MessageMembers = MessageMembers(members: seq<Member>, sizeOf: nat)

  predicate IsMessage(member: Member) {
    member.typeId == MESSAGE
  }

  predicate IsDynamicArray(member: Member) {
    member.isArray && (member.arraySize == 0 || member.isUpperBound)
  }

  predicate IsDynamicString(member: Member) {
    member.typeId == STRING
  }

  // ----- The walk ----------------------------------------------------------------------------------

  /** The answer of the walk. */
  predicate PodSpec(description: MessageMembers)
    decreases description
  {
    forall i :: 0 <= i < |description.members| ==>
      var member := description.members[i];
      && !IsDynamicArray(member) && !IsDynamicString(member)
      && (IsMessage(member) ==> member.nested.Description? && PodSpec(member.nested.description))
  }

  method IsPod(members: Option<MessageMembers>) returns (pod: bool)
    ensures pod <==> members.Some? && PodSpec(members.value)
    decreases if members.Some? then members.value else MessageMembers([], 0)
  {
    if members.None? {
      return false;
    }
    var description := members.value;
    for i := 0 to |description.members|
      invariant forall k :: 0 <= k < i ==>
        var member := description.members[k];
        && !IsDynamicArray(member) && !IsDynamicString(member)
        && (IsMessage(member) ==> member.nested.Description? && PodSpec(member.nested.description))
    {
      var member := description.members[i];
      if IsDynamicArray(member) || IsDynamicString(member) {
        return false;
      }
      if IsMessage(member) {
        if member.nested.NullHandle? || member.nested.NullData? {
          return false;
        }
        var nested := IsPod(Some(member.nested.description));
        if !nested {
          return false;
        }
      }
    }
    pod := true;
  }

  // ----- Members at every depth ----------------------------------------------------------------------

  /** The member that a path of member indices leads to, going through nested messages. */
  function MemberAt(description: MessageMembers, path: seq<nat>): Option<Member> {
    if path == [] || |description.members| <= path[0] then None
    else
      var member := description.members[path[0]];
      if |path| == 1 then Some(member)
      else if IsMessage(member) && member.nested.Description? then MemberAt(member.nested.description, path[1..])
      else None
  }

  /** Nothing at this member lives outside the message, as far as the predicates can tell. */
  predicate Inline(member: Member) {
    !IsDynamicArray(member) && !IsDynamicString(member) && (IsMessage(member) ==> member.nested.Description?)
  }

  ghost predicate InlineThroughout(description: MessageMembers) {
    forall path :: MemberAt(description, path).Some? ==> Inline(MemberAt(description, path).value)
  }

  /** The walk accepts a description exactly when, at every nesting depth, no member is a dynamic array
      or string and every nested message has a description. */
  lemma {:induction false} PodMeansInlineThroughout(description: MessageMembers)
    ensures PodSpec(description) <==> InlineThroughout(description)
    decreases description
  {
    if PodSpec(description) {
      forall path | MemberAt(description, path).Some? ensures Inline(MemberAt(description, path).value) {
        PodIsInlineAt(description, path);
      }
    }
    if InlineThroughout(description) {
      forall i | 0 <= i < |description.members|
        ensures var member := description.members[i];
                Inline(member) && (IsMessage(member) ==> PodSpec(member.nested.description))
      {
        var member := description.members[i];
        assert MemberAt(description, [i]) == Some(member);
        if IsMessage(member) {
          var nested := member.nested.description;
          forall path | MemberAt(nested, path).Some? ensures Inline(MemberAt(nested, path).value) {
            assert ([i] + path)[1..] == path;
            assert MemberAt(description, [i] + path) == MemberAt(nested, path);
          }
          PodMeansInlineThroughout(nested);
        }
      }
    }
  }

  lemma {:induction false} PodIsInlineAt(description: MessageMembers, path: seq<nat>)
    requires PodSpec(description) && MemberAt(description, path).Some?
    ensures Inline(MemberAt(description, path).value)
    decreases |path|
  {
    if |path| > 1 {
      PodIsInlineAt(description.members[path[0]].nested.description, path[1..]);
    }
  }

  /** An array of the length that is declared. */
  predicate IsFixedArray(member: Member) {
    member.isArray && member.arraySize > 0 && !member.isUpperBound
  }

  /** What the answer is used for: whether all of a member lies inside the message.  Strings of both kinds,
      and arrays that are not fixed, keep their content elsewhere. */
  predicate LiesInside(member: Member) {
    && (member.isArray ==> IsFixedArray(member))
    && match member.typeId
       case PRIMITIVE => true
       case MESSAGE => member.nested.Description?
       case STRING => false
       case WSTRING => false
  }

  /** The bytes of a message hold all of it. */
  ghost predicate SelfContained(description: MessageMembers) {
    forall path :: MemberAt(description, path).Some? ==> LiesInside(MemberAt(description, path).value)
  }

  ghost predicate HasWideString(description: MessageMembers) {
    exists path :: MemberAt(description, path).Some? && MemberAt(description, path).value.typeId == WSTRING
  }

  /** Wide strings are not recognised: on types without one the answer is right, and on every type that
      the walk accepts it is wrong exactly if there is one. */
  lemma PodIsSelfContainedWithoutWideStrings(description: MessageMembers)
    ensures SelfContained(description) <==> PodSpec(description) && !HasWideString(description)
  {
    PodMeansInlineThroughout(description);
  }

  /** A message with a single wide string is taken for self-contained. */
  lemma WideStringIsAccepted()
    ensures var wide := MessageMembers([Member(WSTRING, false, 0, false, NullHandle)], 32);
            PodSpec(wide) && !SelfContained(wide)
  {
    var wide := MessageMembers([Member(WSTRING, false, 0, false, NullHandle)], 32);
    assert MemberAt(wide, [0]) == Some(wide.members[0]);
  }

  // ----- Type supports ---------------------------------------------------------------------------------

  /** The handles a type support offers: each may be missing, and the C++ one may carry no description. */
  datatype TypeSupport = TypeSupport(cpp: Option<Option<MessageMembers>>, c: Option<MessageMembers>)

  /** Only the C++ introspection is asked. */
  predicate Pod(ts: TypeSupport) {
    ts.cpp.Some? && ts.cpp.value.Some? && PodSpec(ts.cpp.value.value)
  }

  method IsPodTypeSupport(ts: TypeSupport) returns (pod: bool)
    ensures pod <==> Pod(ts)
  {
    if ts.cpp.None? {
      return false;
    }
    pod := IsPod(ts.cpp.value);
  }

  /** The size in memory: from C++ if there is such a handle, else from C, else zero. */
  function MessageSize(ts: TypeSupport): nat
    requires ts.cpp.Some? ==> ts.cpp.value.Some?
  {
    if ts.cpp.Some? then ts.cpp.value.value.sizeOf
    else if ts.c.Some? then ts.c.value.sizeOf
    else 0
  }

  /** What is decided for a type support: it is accepted exactly if it offers a C++ description in which
      everything is inline at every depth; without wide strings that means self-contained.  The size that
      raw copies then have is that of the same description. */
  lemma PodTypeSupportMeansInline(ts: TypeSupport)
    ensures Pod(ts) <==> ts.cpp.Some? && ts.cpp.value.Some? && InlineThroughout(ts.cpp.value.value)
    ensures ts.cpp.Some? && ts.cpp.value.Some? && !HasWideString(ts.cpp.value.value) ==> (Pod(ts) <==> SelfContained(ts.cpp.value.value))
    ensures Pod(ts) ==> MessageSize(ts) == ts.cpp.value.value.sizeOf
    ensures ts.cpp.None? ==> !Pod(ts) && MessageSize(ts) == if ts.c.Some? then ts.c.value.sizeOf else 0
  {
    if ts.cpp.Some? && ts.cpp.value.Some? {
      PodMeansInlineThroughout(ts.cpp.value.value);
      PodIsSelfContainedWithoutWideStrings(ts.cpp.value.value);
    }
  }
}
