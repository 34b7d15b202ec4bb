// NodeCount: the counters of nodes added per node list, kept while node
// lists are rebuilt, and their fieldwise sum. The C# struct is mutated by
// Increment and combined into a new value by Combine, modelled as a class
// whose counters can be read off as a NodeCounts value.
module NodeCounting {
  import opened KkutuTypes
  import Wrappers

  type NodeTypes = set<NodeType>

  predicate IsEndNode(t: NodeType)
  {
    t.EndNode? || t.ReverseEndNode? || t.KkutuEndNode? || t.KKTEndNode?
  }

  /** The switch of NodeCount.Increment: the one node type a value names, if any. */
  function SingleType(types: NodeTypes): (r: Wrappers.Option<NodeType>)
    ensures r.Some? ==> types == {r.value}
    ensures r.None? ==> forall t :: types != {t}
  {
    if types == {EndNode} then Wrappers.Some(EndNode)
    else if types == {AttackNode} then Wrappers.Some(AttackNode)
    else if types == {ReverseEndNode} then Wrappers.Some(ReverseEndNode)
    else if types == {ReverseAttackNode} then Wrappers.Some(ReverseAttackNode)
    else if types == {KkutuEndNode} then Wrappers.Some(KkutuEndNode)
    else if types == {KkutuAttackNode} then Wrappers.Some(KkutuAttackNode)
    else if types == {KKTEndNode} then Wrappers.Some(KKTEndNode)
    else if types == {KKTAttackNode} then Wrappers.Some(KKTAttackNode)
    else
      NoTypeNamed(types);
      Wrappers.None
  }

  /** A value that is none of the eight singletons names no node type. */
  lemma NoTypeNamed(types: NodeTypes)
    requires types != {EndNode} && types != {AttackNode}
    requires types != {ReverseEndNode} && types != {ReverseAttackNode}
    requires types != {KkutuEndNode} && types != {KkutuAttackNode}
    requires types != {KKTEndNode} && types != {KKTAttackNode}
    ensures forall t :: types != {t}
  {
    forall t ensures types != {t} {
      match t {
        case EndNode =>
        case AttackNode =>
        case ReverseEndNode =>
        case ReverseAttackNode =>
        case KkutuEndNode =>
        case KkutuAttackNode =>
        case KKTEndNode =>
        case KKTAttackNode =>
      }
    }
  }

  /** The twelve counters of a NodeCount, as a value. */
  datatype NodeCounts = NodeCounts(
    totalCount: int, totalError: int, totalEndCount: int, totalAttackCount: int,
    endCount: int, attackCount: int, reverseEndCount: int, reverseAttackCount: int,
    kkutuEndCount: int, kkutuAttackCount: int, kktEndCount: int, kktAttackCount: int)
  {
    /** The counter of one node list. */
    function Of(t: NodeType): int
    {
      match t
      case EndNode => endCount
      case AttackNode => attackCount
      case ReverseEndNode => reverseEndCount
      case ReverseAttackNode => reverseAttackCount
      case KkutuEndNode => kkutuEndCount
      case KkutuAttackNode => kkutuAttackCount
      case KKTEndNode => kktEndCount
      case KKTAttackNode => kktAttackCount
    }

    /** The two totals are the sums of their four counters. */
    predicate Valid()
    {
      && totalEndCount == endCount + reverseEndCount + kkutuEndCount + kktEndCount
      && totalAttackCount == attackCount + reverseAttackCount + kkutuAttackCount + kktAttackCount
    }
  }

  /** default(NodeCount). */
  const Zero: NodeCounts := NodeCounts(0, 0, 0, 0, 0, 0, 0, 0, 0, 0, 0, 0)

  /** The fieldwise sum Combine computes. */
  function Sum(a: NodeCounts, b: NodeCounts): (r: NodeCounts)
    ensures r.totalCount == a.totalCount + b.totalCount && r.totalError == a.totalError + b.totalError
    ensures r.totalEndCount == a.totalEndCount + b.totalEndCount
    ensures r.totalAttackCount == a.totalAttackCount + b.totalAttackCount
    ensures forall t :: r.Of(t) == a.Of(t) + b.Of(t)
  {
    NodeCounts(
      a.totalCount + b.totalCount, a.totalError + b.totalError,
      a.totalEndCount + b.totalEndCount, a.totalAttackCount + b.totalAttackCount,
      a.endCount + b.endCount, a.attackCount + b.attackCount,
      a.reverseEndCount + b.reverseEndCount, a.reverseAttackCount + b.reverseAttackCount,
      a.kkutuEndCount + b.kkutuEndCount, a.kkutuAttackCount + b.kkutuAttackCount,
      a.kktEndCount + b.kktEndCount, a.kktAttackCount + b.kktAttackCount)
  }

  /** Two values with the same totals and the same counter per list are equal. */
  lemma Extensionality(a: NodeCounts, b: NodeCounts)
    requires a.totalCount == b.totalCount && a.totalError == b.totalError
    requires a.totalEndCount == b.totalEndCount && a.totalAttackCount == b.totalAttackCount
    requires forall t :: a.Of(t) == b.Of(t)
    ensures a == b
  {
    assert a.Of(EndNode) == b.Of(EndNode) && a.Of(AttackNode) == b.Of(AttackNode);
    assert a.Of(ReverseEndNode) == b.Of(ReverseEndNode) && a.Of(ReverseAttackNode) == b.Of(ReverseAttackNode);
    assert a.Of(KkutuEndNode) == b.Of(KkutuEndNode) && a.Of(KkutuAttackNode) == b.Of(KkutuAttackNode);
    assert a.Of(KKTEndNode) == b.Of(KKTEndNode) && a.Of(KKTAttackNode) == b.Of(KKTAttackNode);
  }

  /** Combine is commutative. */
  lemma SumCommutes(a: NodeCounts, b: NodeCounts)
    ensures Sum(a, b) == Sum(b, a)
  {
    Extensionality(Sum(a, b), Sum(b, a));
  }

  /** Combine with the default value is the identity, on either side. */
  lemma SumZero(a: NodeCounts)
    ensures Sum(a, Zero) == a && Sum(Zero, a) == a
  {
    Extensionality(Sum(a, Zero), a);
    Extensionality(Sum(Zero, a), a);
  }

  /** Combine is associative. */
  lemma SumAssociates(a: NodeCounts, b: NodeCounts, c: NodeCounts)
    ensures Sum(Sum(a, b), c) == Sum(a, Sum(b, c))
  {
    Extensionality(Sum(Sum(a, b), c), Sum(a, Sum(b, c)));
  }

  /** The sum of two consistent values is consistent. */
  lemma SumValid(a: NodeCounts, b: NodeCounts)
    requires a.Valid() && b.Valid()
    ensures Sum(a, b).Valid()
  {
  }

  /** t's own counter grown by n. */
  function WithCounter(v: NodeCounts, t: NodeType, n: int): NodeCounts
  {
    match t
    case EndNode => v.(endCount := v.endCount + n)
    case AttackNode => v.(attackCount := v.attackCount + n)
    case ReverseEndNode => v.(reverseEndCount := v.reverseEndCount + n)
    case ReverseAttackNode => v.(reverseAttackCount := v.reverseAttackCount + n)
    case KkutuEndNode => v.(kkutuEndCount := v.kkutuEndCount + n)
    case KkutuAttackNode => v.(kkutuAttackCount := v.kkutuAttackCount + n)
    case KKTEndNode => v.(kktEndCount := v.kktEndCount + n)
    case KKTAttackNode => v.(kktAttackCount := v.kktAttackCount + n)
  }

  /** The counters after one arm of the switch of Increment: t's counter and its End or Attack total grow by n. */
  function AddedTo(v: NodeCounts, t: NodeType, n: int): NodeCounts
  {
    var w := WithCounter(v, t, n);
    if IsEndNode(t) then w.(totalEndCount := w.totalEndCount + n)
    else w.(totalAttackCount := w.totalAttackCount + n)
  }

  /** The counters after Increment(types, n). */
  function Incremented(v: NodeCounts, types: NodeTypes, n: int): NodeCounts
  {
    IncrementedCase(v, SingleType(types), n)
  }

  /** The counters after Increment, given the case of the switch its value selects. */
  function IncrementedCase(v: NodeCounts, c: Wrappers.Option<NodeType>, n: int): NodeCounts
  {
    var w := v.(totalCount := v.totalCount + n);
    match c
    case None => w
    case Some(t) => AddedTo(w, t, n)
  }

  /**
   * Increment adds n to TotalCount and, when the value names exactly one
   * node type, to that type's counter and to its End or Attack total; any
   * other value changes only TotalCount. The totals stay the sums of their
   * counters.
   */
  lemma IncrementedCounts(v: NodeCounts, types: NodeTypes, n: int)
    ensures Incremented(v, types, n).totalCount == v.totalCount + n
    ensures Incremented(v, types, n).totalError == v.totalError
    ensures forall u :: Incremented(v, types, n).Of(u) == v.Of(u) + (if SingleType(types) == Wrappers.Some(u) then n else 0)
    ensures Incremented(v, types, n).totalEndCount == v.totalEndCount
      + (if SingleType(types).Some? && IsEndNode(SingleType(types).value) then n else 0)
    ensures Incremented(v, types, n).totalAttackCount == v.totalAttackCount
      + (if SingleType(types).Some? && !IsEndNode(SingleType(types).value) then n else 0)
    ensures v.Valid() ==> Incremented(v, types, n).Valid()
  {
    CaseTotals(v, SingleType(types), n);
    CaseCounters(v, SingleType(types), n);
  }

  /** IncrementedCounts for a given case of the switch: the totals. */
  lemma CaseTotals(v: NodeCounts, c: Wrappers.Option<NodeType>, n: int)
    ensures IncrementedCase(v, c, n).totalCount == v.totalCount + n
    ensures IncrementedCase(v, c, n).totalError == v.totalError
    ensures IncrementedCase(v, c, n).totalEndCount == v.totalEndCount + (if c.Some? && IsEndNode(c.value) then n else 0)
    ensures IncrementedCase(v, c, n).totalAttackCount == v.totalAttackCount + (if c.Some? && !IsEndNode(c.value) then n else 0)
    ensures v.Valid() ==> IncrementedCase(v, c, n).Valid()
  {
    if c.Some? {
      var w := v.(totalCount := v.totalCount + n);
      assert IncrementedCase(v, c, n) == AddedTo(w, c.value, n);
      AddedToTotals(w, c.value, n);
    }
  }

  /** IncrementedCounts for a given case of the switch: the node list counters. */
  lemma CaseCounters(v: NodeCounts, c: Wrappers.Option<NodeType>, n: int)
    ensures forall u :: IncrementedCase(v, c, n).Of(u) == v.Of(u) + (if c == Wrappers.Some(u) then n else 0)
  {
    forall u
      ensures IncrementedCase(v, c, n).Of(u) == v.Of(u) + (if c == Wrappers.Some(u) then n else 0)
    {
      CaseCounter(v, c, n, u);
    }
  }

  lemma CaseCounter(v: NodeCounts, c: Wrappers.Option<NodeType>, n: int, u: NodeType)
    ensures IncrementedCase(v, c, n).Of(u) == v.Of(u) + (if c == Wrappers.Some(u) then n else 0)
  {
    var w := v.(totalCount := v.totalCount + n);
    assert w.Of(u) == v.Of(u);
    if c.Some? {
      AddedToCounter(w, c.value, n, u);
    }
  }

  /** One arm of the switch changes exactly the counter of t. */
  lemma AddedToCounter(v: NodeCounts, t: NodeType, n: int, u: NodeType)
    ensures AddedTo(v, t, n).Of(u) == v.Of(u) + (if u == t then n else 0)
  {
    assert AddedTo(v, t, n).Of(u) == WithCounter(v, t, n).Of(u);
  }

  /** One arm of the switch changes exactly t's End or Attack total, and keeps the totals the sums of their counters. */
  lemma AddedToTotals(v: NodeCounts, t: NodeType, n: int)
    ensures AddedTo(v, t, n).totalCount == v.totalCount && AddedTo(v, t, n).totalError == v.totalError
    ensures AddedTo(v, t, n).totalEndCount == v.totalEndCount + (if IsEndNode(t) then n else 0)
    ensures AddedTo(v, t, n).totalAttackCount == v.totalAttackCount + (if IsEndNode(t) then 0 else n)
    ensures v.Valid() ==> AddedTo(v, t, n).Valid()
  {
  }

  class NodeCount {
    var totalCount: int
    var totalError: int
    var totalEndCount: int
    var totalAttackCount: int
    var endCount: int
    var attackCount: int
    var reverseEndCount: int
    var reverseAttackCount: int
    var kkutuEndCount: int
    var kkutuAttackCount: int
    var kktEndCount: int
    var kktAttackCount: int

    /** The counters as a value. */
    function Value(): NodeCounts
      reads this
    {
      NodeCounts(totalCount, totalError, totalEndCount, totalAttackCount,
        endCount, attackCount, reverseEndCount, reverseAttackCount,
        kkutuEndCount, kkutuAttackCount, kktEndCount, kktAttackCount)
    }

    /** The default struct. */
    constructor()
      ensures Value() == Zero
    {
      totalCount, totalError, totalEndCount, totalAttackCount := 0, 0, 0, 0;
      endCount, attackCount, reverseEndCount, reverseAttackCount := 0, 0, 0, 0;
      kkutuEndCount, kkutuAttackCount, kktEndCount, kktAttackCount := 0, 0, 0, 0;
    }

    /** IncrementError changes only TotalError. */
    method IncrementError()
      modifies this
      ensures Value() == old(Value()).(totalError := old(totalError) + 1)
    {
      totalError := totalError + 1;
    }

    /** Increment(types, count); IncrementedCounts says what it changes. */
    method Increment(types: NodeTypes, count: int)
      modifies this
      ensures Value() == Incremented(old(Value()), types, count)
    {
      totalCount := totalCount + count;
      match SingleType(types) {
        case None =>
        case Some(t) => AddToCounter(t, count);
      }
    }

    /** One arm of the switch: the counter of t and its End or Attack total grow by count. */
    method AddToCounter(t: NodeType, count: int)
      modifies this
      ensures Value() == AddedTo(old(Value()), t, count)
    {
      var end, attack := AddToTypeCounter(t, count);
      totalEndCount := totalEndCount + end;
      totalAttackCount := totalAttackCount + attack;
    }

    /** The switch itself: t's counter grows, and end or attack carries count for the totals. */
    method AddToTypeCounter(t: NodeType, count: int) returns (end: int, attack: int)
      modifies this
      ensures Value() == WithCounter(old(Value()), t, count)
      ensures end == (if IsEndNode(t) then count else 0) && attack == (if IsEndNode(t) then 0 else count)
    {
      end, attack := 0, 0;
      match t {
        case EndNode => end := count; endCount := endCount + end;
        case AttackNode => attack := count; attackCount := attackCount + attack;
        case ReverseEndNode => end := count; reverseEndCount := reverseEndCount + end;
        case ReverseAttackNode => attack := count; reverseAttackCount := reverseAttackCount + attack;
        case KkutuEndNode => end := count; kkutuEndCount := kkutuEndCount + end;
        case KkutuAttackNode => attack := count; kkutuAttackCount := kkutuAttackCount + attack;
        case KKTEndNode => end := count; kktEndCount := kktEndCount + end;
        case KKTAttackNode => attack := count; kktAttackCount := kktAttackCount + attack;
      }
    }

    /** A NodeCount holding the given counters (the object initializer of Combine). */
    constructor FromValue(v: NodeCounts)
      ensures Value() == v
    {
      totalCount, totalError, totalEndCount, totalAttackCount := v.totalCount, v.totalError, v.totalEndCount, v.totalAttackCount;
      endCount, attackCount, reverseEndCount, reverseAttackCount := v.endCount, v.attackCount, v.reverseEndCount, v.reverseAttackCount;
      kkutuEndCount, kkutuAttackCount, kktEndCount, kktAttackCount := v.kkutuEndCount, v.kkutuAttackCount, v.kktEndCount, v.kktAttackCount;
    }

    /** Combine: a new NodeCount holding the fieldwise sum. */
    method Combine(other: NodeCount) returns (r: NodeCount)
      ensures fresh(r)
      ensures r.Value() == Sum(Value(), other.Value())
    {
      r := new NodeCount.FromValue(Sum(Value(), other.Value()));
    }

    /** Equals compares every counter. */
    predicate Equals(other: NodeCount)
      reads this, other
      ensures Equals(other) <==> Value() == other.Value()
    {
      && totalCount == other.totalCount
      && totalError == other.totalError
      && totalEndCount == other.totalEndCount
      && totalAttackCount == other.totalAttackCount
      && endCount == other.endCount
      && attackCount == other.attackCount
      && reverseEndCount == other.reverseEndCount
      && reverseAttackCount == other.reverseAttackCount
      && kkutuEndCount == other.kkutuEndCount
      && kkutuAttackCount == other.kkutuAttackCount
      && kktEndCount == other.kktEndCount
      && kktAttackCount == other.kktAttackCount
    }
  }

  /** operator +: left.Combine(right). */
  method Plus(left: NodeCount, right: NodeCount) returns (r: NodeCount)
    ensures fresh(r)
    ensures r.Value() == Sum(left.Value(), right.Value())
  {
    r := left.Combine(right);
  }
}
