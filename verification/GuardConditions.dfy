/** Guard conditions take their ids from a counter in their context that wraps around at 2^32. */
module GuardConditions {
  import opened Names
  import opened WaitSetModel
  import opened WaitSetInvariant
  import opened WaitSetMeaning

  const UINT32_SIZE := 0x1_0000_0000

  class Context {
    const id: Uint32
    var guardConditionCounter: Uint32
    /** How many ids were generated so far. */
    ghost var created: nat

    ghost predicate Valid()
      reads this
    {
      guardConditionCounter == CounterAfter(created)
    }

    constructor (id: Uint32)
      ensures Valid() && this.id == id && created == 0
    {
      this.id := id;
      guardConditionCounter := 0;
      created := 0;
    }

    /** An atomic post-increment, so that calls from different threads take effect one after another. */
    method GenerateGuardConditionId() returns (generated: Uint32)
      requires Valid()
      modifies this
      ensures Valid() && created == old(created) + 1
      ensures generated == CounterAfter(old(created)) == old(guardConditionCounter)
      ensures guardConditionCounter as int == (old(guardConditionCounter) + 1) % UINT32_SIZE
    {
      generated := guardConditionCounter;
      guardConditionCounter := if guardConditionCounter == UINT32_SIZE - 1 then 0 else guardConditionCounter + 1;
      created := created + 1;
    }
  }

  class GuardCondition {
    const triggerId: Uint32
    const serviceName: string

    /** The id is used up even if the rest of the construction fails. */
    constructor (context: Context)
      requires context.Valid()
      modifies context
      ensures context.Valid() && context.created == old(context.created) + 1
      ensures triggerId == CounterAfter(old(context.created))
      ensures serviceName == NameOf(context.id, old(context.created))
    {
      var id := context.GenerateGuardConditionId();
      triggerId := id;
      serviceName := Names.GuardCondition(context.id, id);
    }
  }

  /** The counter after `n` creations, whatever threads made them. */
  function CounterAfter(n: nat): Uint32 {
    if n == 0 then 0 else (CounterAfter(n - 1) + 1) % UINT32_SIZE
  }

  lemma {:induction false} CounterWraps(n: nat)
    ensures CounterAfter(n) == n % UINT32_SIZE
    decreases n
  {
    if n > 0 {
      CounterWraps(n - 1);
      NextRemainder(n - 1);
    }
  }

  /** Two guard conditions of one context share a service name exactly when their creations are a multiple
      of 2^32 apart.  So among fewer than 2^32 + 1 creations all names are distinct, and the next one
      repeats the first. */
  lemma GuardConditionsAliasExactly(contextId: Uint32, i: nat, j: nat)
    ensures Names.GuardCondition(contextId, CounterAfter(i)) == Names.GuardCondition(contextId, CounterAfter(j))
            <==> (i - j) % UINT32_SIZE == 0
    ensures i < j < UINT32_SIZE ==>
              Names.GuardCondition(contextId, CounterAfter(i)) != Names.GuardCondition(contextId, CounterAfter(j))
  {
    CounterWraps(i);
    CounterWraps(j);
    SameRemainder(i, j);
    var a := GuardConditionEntity(contextId, CounterAfter(i));
    var b := GuardConditionEntity(contextId, CounterAfter(j));
    if a.ServiceName() == b.ServiceName() {
      ServiceNamesAreInjective(a, b);
    }
    if i < j < UINT32_SIZE {
      assert -UINT32_SIZE < i - j < 0;
    }
  }

  lemma NextRemainder(n: nat)
    ensures (n % UINT32_SIZE + 1) % UINT32_SIZE == (n + 1) % UINT32_SIZE
  {
    var q, r := n / UINT32_SIZE, n % UINT32_SIZE;
    assert n + 1 == UINT32_SIZE * q + (r + 1);
    if r + 1 == UINT32_SIZE {
      assert n + 1 == UINT32_SIZE * (q + 1);
    }
  }

  lemma SameRemainder(i: nat, j: nat)
    ensures i % UINT32_SIZE == j % UINT32_SIZE <==> (i - j) % UINT32_SIZE == 0
  {
  }

  /** The name of the guard condition that was the `n`-th to be created. */
  function NameOf(contextId: Uint32, n: nat): string {
    Names.GuardCondition(contextId, CounterAfter(n))
  }

  /** The names of some guard conditions of one context, given by their creation numbers. */
  function NamesOfCreated(contextId: Uint32, numbers: seq<nat>): (names: seq<string>)
    ensures |names| == |numbers| && forall k :: 0 <= k < |names| ==> names[k] == NameOf(contextId, numbers[k])
  {
    seq(|numbers|, k requires 0 <= k < |numbers| => NameOf(contextId, numbers[k]))
  }

  /** The two creations give the same id. */
  predicate Alias(i: nat, j: nat) {
    (i - j) % UINT32_SIZE == 0
  }

  predicate NoAliases(numbers: seq<nat>) {
    forall i, j :: 0 <= i < j < |numbers| ==> !Alias(numbers[i], numbers[j])
  }

  /** Different creations, all among the first 2^32. */
  predicate EarlyAndDistinct(numbers: seq<nat>) {
    (forall i, j :: 0 <= i < j < |numbers| ==> numbers[i] != numbers[j])
    && (forall i :: 0 <= i < |numbers| ==> numbers[i] < UINT32_SIZE)
  }

  /** In every valid wait set, whatever it has been through and whatever is mapped in it, two guard conditions
      of one context have the same storage index exactly if their creations are a multiple of 2^32 apart. */
  lemma GuardConditionsShareListenersExactly(contextId: Uint32, i: nat, j: nat, s: State)
    requires Inv(s)
    requires FindListener(s.guardConditions, NameOf(contextId, i)).Some?
    requires FindListener(s.guardConditions, NameOf(contextId, j)).Some?
    ensures FindListener(s.guardConditions, NameOf(contextId, i)) == FindListener(s.guardConditions, NameOf(contextId, j))
            <==> (i - j) % UINT32_SIZE == 0
  {
    GuardConditionsAliasExactly(contextId, i, j);
  }

  lemma NamesDistinctExactly(contextId: Uint32, numbers: seq<nat>)
    ensures Distinct(NamesOfCreated(contextId, numbers)) <==> NoAliases(numbers)
  {
    var names := NamesOfCreated(contextId, numbers);
    forall i, j | 0 <= i < j < |numbers| ensures names[i] == names[j] <==> Alias(numbers[i], numbers[j]) {
      GuardConditionsAliasExactly(contextId, numbers[i], numbers[j]);
    }
    if Distinct(names) {
      forall i, j | 0 <= i < j < |numbers| ensures !Alias(numbers[i], numbers[j]) {
        assert names[i] != names[j];
      }
    }
  }

  lemma EarlyHaveNoAliases(numbers: seq<nat>)
    requires EarlyAndDistinct(numbers)
    ensures NoAliases(numbers)
  {
    forall i, j | 0 <= i < j < |numbers| ensures !Alias(numbers[i], numbers[j]) {
      assert numbers[i] != numbers[j] && -UINT32_SIZE < numbers[i] - numbers[j] < UINT32_SIZE;
    }
  }

  /** Guard conditions of one context, any number of them, created at any time and mapped in any order into any
      valid wait set, are each reported under their own index exactly if no two creations are a multiple of
      2^32 apart and no left-over mapping claims one of them for another index.  The first 2^32 creations
      meet the former, and a wait set with nothing mapped the latter. */
  lemma GuardConditionsAreReportedApart(contextId: Uint32, numbers: seq<nat>, s: State, creations: seq<Creation>)
    requires Inv(s) && |creations| == |numbers|
    ensures var names := NamesOfCreated(contextId, numbers);
            var (s', outcome) := MapUpTo(s, GUARD_CONDITION, names, creations, |names|);
            outcome.Pass? ==>
              (ReportedApart(s', GUARD_CONDITION, names) <==> NoAliases(numbers) && NoForeignClaim(s, GUARD_CONDITION, names))
    ensures EarlyAndDistinct(numbers) ==> NoAliases(numbers)
    ensures s.mapping == [] ==> NoForeignClaim(s, GUARD_CONDITION, NamesOfCreated(contextId, numbers))
  {
    var names := NamesOfCreated(contextId, numbers);
    NamesDistinctExactly(contextId, numbers);
    if EarlyAndDistinct(numbers) {
      EarlyHaveNoAliases(numbers);
    }
    if MapUpTo(s, GUARD_CONDITION, names, creations, |names|).1.Pass? {
      EveryEntityKeepsItsIndex(s, GUARD_CONDITION, names, creations);
    }
  }
}
