// NodeManager: the eight node lists (end and attack nodes for each rule of
// the chain), the word flags they imply for a word (node lists -> word), and
// the growth of the lists when a word with known flags is added
// (word -> node lists).
module NodeLists {
  import opened Text
  import opened KkutuTypes
  import opened WordToNode
  import opened WordCounting
  import Wrappers

  /**
   * The node a node-list flag of word is computed from, or None when the
   * length rules of CalcWordFlags skip that flag.
   */
  function NodeFor(word: string, f: WordFlag): (r: Wrappers.Option<string>)
    requires |word| > 0
    ensures r.Some? ==> IsCounted(f)
    ensures r.Some? && (f.KkutuEndWord? || f.KkutuAttackWord?) ==> |word| > 2
    ensures r.Some? && (f.KKTEndWord? || f.KKTAttackWord?) ==> |word| == 3
    ensures r.Some? && (f.MiddleEndWord? || f.MiddleAttackWord?) ==> |word| > 2 && |word| % 2 == 1
  {
    match f
    case EndWord => Wrappers.Some(LaFTail(word))
    case AttackWord => Wrappers.Some(LaFTail(word))
    case ReverseEndWord => Wrappers.Some(FaLTail(word))
    case ReverseAttackWord => Wrappers.Some(FaLTail(word))
    case KkutuEndWord => if |word| > 2 then Wrappers.Some(KkutuTail(word)) else Wrappers.None
    case KkutuAttackWord => if |word| > 2 then Wrappers.Some(KkutuTail(word)) else Wrappers.None
    case KKTEndWord => if |word| == 3 then Wrappers.Some(LaFTail(word)) else Wrappers.None
    case KKTAttackWord => if |word| == 3 then Wrappers.Some(LaFTail(word)) else Wrappers.None
    case MiddleEndWord =>
      if |word| > 2 && |word| % 2 == 1 then Wrappers.Some(MaFTail(word)) else Wrappers.None
    case MiddleAttackWord =>
      if |word| > 2 && |word| % 2 == 1 then Wrappers.Some(MaFTail(word)) else Wrappers.None
    case _ => Wrappers.None
  }

  /**
   * The flag a word must already carry for UpdateNodeListsByWord to add its
   * node to the list of f: f itself, except that the KungKungTta lists are
   * fed by the plain EndWord and AttackWord flags.
   */
  function TargetOf(f: WordFlag): WordFlag
  {
    if f.KKTEndWord? then WordFlag.EndWord
    else if f.KKTAttackWord? then AttackWord
    else f
  }

  /** The node word offers the list of f when it carries its target flag. */
  function Offered(word: string, f: WordFlag, flags: WordFlags): set<string>
    requires |word| > 0
  {
    match NodeFor(word, f)
    case None => {}
    case Some(n) => Offer(n, TargetOf(f), flags)
  }

  /** A node is offered when it is not blank and the word carries the target flag. */
  function Offer(node: string, target: WordFlag, flags: WordFlags): set<string>
  {
    if !IsBlank(node) && target in flags then {node} else {}
  }

  /** UpdateNodeListsByWordInternal adds node to list: it is not blank, not yet listed, and flags carries target. */
  predicate Adds(node: string, target: WordFlag, flags: WordFlags, list: set<string>)
  {
    !IsBlank(node) && target in flags && node !in list
  }

  /** 1 when the step for f adds word's node to list, else 0. */
  function Gain(word: string, f: WordFlag, flags: WordFlags, list: set<string>): int
    requires |word| > 0
  {
    match NodeFor(word, f)
    case None => 0
    case Some(n) => if Adds(n, TargetOf(f), flags, list) then 1 else 0
  }

  /** flags with target added when node is a non-blank member of list (CalcWordFlagsInternal). */
  function FlagIfListed(node: string, list: set<string>, target: WordFlag, flags: WordFlags): (r: WordFlags)
    ensures forall g :: g in r <==> g in flags || (g == target && !IsBlank(node) && node in list)
  {
    if IsBlank(node) then flags
    else if node in list then flags + {target}
    else flags
  }

  /** The flags CalcWordFlags derives from the word's length alone. */
  function LengthFlags(word: string): set<WordFlag>
  {
    (if |word| == 2 then {KKT2} else {}) + (if |word| == 3 then {KKT3} else {})
  }

  /** The eight node lists, as values. */
  datatype NodeSets = NodeSets(
    endNodes: set<string>, attackNodes: set<string>,
    reverseEndNodes: set<string>, reverseAttackNodes: set<string>,
    kkutuEndNodes: set<string>, kkutuAttackNodes: set<string>,
    kktEndNodes: set<string>, kktAttackNodes: set<string>)

  /** The list CalcWordFlags consults for a node-list flag. */
  function ListOf(v: NodeSets, f: WordFlag): set<string>
  {
    match f
    case EndWord => v.endNodes
    case AttackWord => v.attackNodes
    case ReverseEndWord => v.reverseEndNodes
    case ReverseAttackWord => v.reverseAttackNodes
    case KkutuEndWord => v.kkutuEndNodes
    case KkutuAttackWord => v.kkutuAttackNodes
    case KKTEndWord => v.kktEndNodes
    case KKTAttackWord => v.kktAttackNodes
    case MiddleEndWord => v.endNodes
    case MiddleAttackWord => v.attackNodes
    case _ => {}
  }

  /**
   * The lists after UpdateNodeListsByWord(word, flags): each gains the nodes
   * word offers it and nothing else.
   */
  function Grown(v: NodeSets, word: string, flags: WordFlags): NodeSets
    requires |word| > 0
  {
    NodeSets(
      v.endNodes + Offered(word, WordFlag.EndWord, flags) + Offered(word, MiddleEndWord, flags),
      v.attackNodes + Offered(word, AttackWord, flags) + Offered(word, MiddleAttackWord, flags),
      v.reverseEndNodes + Offered(word, ReverseEndWord, flags),
      v.reverseAttackNodes + Offered(word, ReverseAttackWord, flags),
      v.kkutuEndNodes + Offered(word, KkutuEndWord, flags),
      v.kkutuAttackNodes + Offered(word, KkutuAttackWord, flags),
      v.kktEndNodes + Offered(word, KKTEndWord, flags),
      v.kktAttackNodes + Offered(word, KKTAttackWord, flags))
  }

  /**
   * The count UpdateNodeListsByWord returns: one per offered node that was
   * not yet in its list (the middle node is new to the plain list only if
   * the last char did not just add it), under the step's target flag, so
   * the KungKungTta additions land on EndCount and AttackCount.
   */
  function CountsAdded(v: NodeSets, word: string, flags: WordFlags): WordCounts
    requires |word| > 0
  {
    var e := Gain(word, WordFlag.EndWord, flags, v.endNodes);
    var a := Gain(word, AttackWord, flags, v.attackNodes);
    var re := Gain(word, ReverseEndWord, flags, v.reverseEndNodes);
    var ra := Gain(word, ReverseAttackWord, flags, v.reverseAttackNodes);
    var ke := Gain(word, KkutuEndWord, flags, v.kkutuEndNodes);
    var ka := Gain(word, KkutuAttackWord, flags, v.kkutuAttackNodes);
    var te := Gain(word, KKTEndWord, flags, v.kktEndNodes);
    var ta := Gain(word, KKTAttackWord, flags, v.kktAttackNodes);
    var me := Gain(word, MiddleEndWord, flags, v.endNodes + Offered(word, WordFlag.EndWord, flags));
    var ma := Gain(word, MiddleAttackWord, flags, v.attackNodes + Offered(word, AttackWord, flags));
    WordCounts(
      e + a + re + ra + ke + ka + te + ta + me + ma, 0,
      e + re + ke + te + me, a + ra + ka + ta + ma,
      e + te, a + ta, re, ra, me, ma, ke, ka, 0, 0)
  }

  /** The lists after the four steps every word makes, by its last and its first char. */
  function TailGrown(v: NodeSets, word: string, flags: WordFlags): NodeSets
    requires |word| > 0
  {
    v.(endNodes := v.endNodes + Offered(word, WordFlag.EndWord, flags),
      attackNodes := v.attackNodes + Offered(word, AttackWord, flags),
      reverseEndNodes := v.reverseEndNodes + Offered(word, ReverseEndWord, flags),
      reverseAttackNodes := v.reverseAttackNodes + Offered(word, ReverseAttackWord, flags))
  }

  /** The counts c after those four steps, made on the lists v. */
  function TailCounts(c: WordCounts, v: NodeSets, word: string, flags: WordFlags): WordCounts
    requires |word| > 0
  {
    var e := Gain(word, WordFlag.EndWord, flags, v.endNodes);
    var a := Gain(word, AttackWord, flags, v.attackNodes);
    var re := Gain(word, ReverseEndWord, flags, v.reverseEndNodes);
    var ra := Gain(word, ReverseAttackWord, flags, v.reverseAttackNodes);
    c.(totalCount := c.totalCount + e + a + re + ra,
      totalEndCount := c.totalEndCount + e + re,
      totalAttackCount := c.totalAttackCount + a + ra,
      endCount := c.endCount + e, attackCount := c.attackCount + a,
      reverseEndCount := c.reverseEndCount + re, reverseAttackCount := c.reverseAttackCount + ra)
  }

  /** The lists after the steps only words longer than two make; shorter words leave v as it is. */
  function LongGrown(v: NodeSets, word: string, flags: WordFlags): NodeSets
    requires |word| > 0
  {
    if |word| <= 2 then v
    else
      v.(endNodes := v.endNodes + Offered(word, MiddleEndWord, flags),
        attackNodes := v.attackNodes + Offered(word, MiddleAttackWord, flags),
        kkutuEndNodes := v.kkutuEndNodes + Offered(word, KkutuEndWord, flags),
        kkutuAttackNodes := v.kkutuAttackNodes + Offered(word, KkutuAttackWord, flags),
        kktEndNodes := v.kktEndNodes + Offered(word, KKTEndWord, flags),
        kktAttackNodes := v.kktAttackNodes + Offered(word, KKTAttackWord, flags))
  }

  /** The counts c after those steps, made on the lists v. */
  function LongCounts(c: WordCounts, v: NodeSets, word: string, flags: WordFlags): WordCounts
    requires |word| > 0
  {
    if |word| <= 2 then c
    else
      var ke := Gain(word, KkutuEndWord, flags, v.kkutuEndNodes);
      var ka := Gain(word, KkutuAttackWord, flags, v.kkutuAttackNodes);
      var te := Gain(word, KKTEndWord, flags, v.kktEndNodes);
      var ta := Gain(word, KKTAttackWord, flags, v.kktAttackNodes);
      var me := Gain(word, MiddleEndWord, flags, v.endNodes);
      var ma := Gain(word, MiddleAttackWord, flags, v.attackNodes);
      c.(totalCount := c.totalCount + ke + ka + te + ta + me + ma,
        totalEndCount := c.totalEndCount + ke + te + me,
        totalAttackCount := c.totalAttackCount + ka + ta + ma,
        endCount := c.endCount + te, attackCount := c.attackCount + ta,
        kkutuEndCount := c.kkutuEndCount + ke, kkutuAttackCount := c.kkutuAttackCount + ka,
        middleEndCount := c.middleEndCount + me, middleAttackCount := c.middleAttackCount + ma)
  }

  /** The lists after the Kkutu steps: the Kkutu lists gain the Kkutu tail node. */
  function KkutuGrown(v: NodeSets, word: string, flags: WordFlags): NodeSets
    requires |word| > 0
  {
    v.(kkutuEndNodes := v.kkutuEndNodes + Offered(word, KkutuEndWord, flags),
      kkutuAttackNodes := v.kkutuAttackNodes + Offered(word, KkutuAttackWord, flags))
  }

  /** The counts c after the Kkutu steps, made on the lists v. */
  function KkutuCounts(c: WordCounts, v: NodeSets, word: string, flags: WordFlags): WordCounts
    requires |word| > 0
  {
    var ke := Gain(word, KkutuEndWord, flags, v.kkutuEndNodes);
    var ka := Gain(word, KkutuAttackWord, flags, v.kkutuAttackNodes);
    c.(totalCount := c.totalCount + ke + ka,
      totalEndCount := c.totalEndCount + ke, totalAttackCount := c.totalAttackCount + ka,
      kkutuEndCount := c.kkutuEndCount + ke, kkutuAttackCount := c.kkutuAttackCount + ka)
  }

  /** The lists after the KungKungTta steps: the KungKungTta lists gain the last char of a three-letter word. */
  function KktGrown(v: NodeSets, word: string, flags: WordFlags): NodeSets
    requires |word| > 0
  {
    v.(kktEndNodes := v.kktEndNodes + Offered(word, KKTEndWord, flags),
      kktAttackNodes := v.kktAttackNodes + Offered(word, KKTAttackWord, flags))
  }

  /** The counts c after the KungKungTta steps, made on the lists v, under EndCount and AttackCount. */
  function KktCounts(c: WordCounts, v: NodeSets, word: string, flags: WordFlags): WordCounts
    requires |word| > 0
  {
    var te := Gain(word, KKTEndWord, flags, v.kktEndNodes);
    var ta := Gain(word, KKTAttackWord, flags, v.kktAttackNodes);
    c.(totalCount := c.totalCount + te + ta,
      totalEndCount := c.totalEndCount + te, totalAttackCount := c.totalAttackCount + ta,
      endCount := c.endCount + te, attackCount := c.attackCount + ta)
  }

  /** For a three-letter word the KungKungTta steps offer its last char under EndWord and AttackWord, with KKT3 set. */
  lemma KktAtThree(c: WordCounts, v: NodeSets, word: string, flags: WordFlags)
    requires |word| == 3
    ensures var node, f3 := LaFTail(word), flags + {KKT3};
      KktGrown(v, word, flags) == v.(kktEndNodes := v.kktEndNodes + Offer(node, WordFlag.EndWord, f3),
                                     kktAttackNodes := v.kktAttackNodes + Offer(node, AttackWord, f3))
    ensures var node, f3 := LaFTail(word), flags + {KKT3};
      var x := if Adds(node, WordFlag.EndWord, f3, v.kktEndNodes) then 1 else 0;
      var y := if Adds(node, AttackWord, f3, v.kktAttackNodes) then 1 else 0;
      KktCounts(c, v, word, flags) == c.(
        totalCount := c.totalCount + x + y,
        totalEndCount := c.totalEndCount + x, totalAttackCount := c.totalAttackCount + y,
        endCount := c.endCount + x, attackCount := c.attackCount + y)
  {
  }

  /** Longer words change nothing in the KungKungTta steps. */
  lemma KktBeyondThree(c: WordCounts, v: NodeSets, word: string, flags: WordFlags)
    requires |word| > 3
    ensures KktGrown(v, word, flags) == v && KktCounts(c, v, word, flags) == c
  {
  }

  /** The lists after the MiddleAndFirst steps: the plain lists gain the middle node of an odd word. */
  function MiddleGrown(v: NodeSets, word: string, flags: WordFlags): NodeSets
    requires |word| > 0
  {
    v.(endNodes := v.endNodes + Offered(word, MiddleEndWord, flags),
      attackNodes := v.attackNodes + Offered(word, MiddleAttackWord, flags))
  }

  /** The counts c after the MiddleAndFirst steps, made on the lists v. */
  function MiddleCounts(c: WordCounts, v: NodeSets, word: string, flags: WordFlags): WordCounts
    requires |word| > 0
  {
    var me := Gain(word, MiddleEndWord, flags, v.endNodes);
    var ma := Gain(word, MiddleAttackWord, flags, v.attackNodes);
    c.(totalCount := c.totalCount + me + ma,
      totalEndCount := c.totalEndCount + me, totalAttackCount := c.totalAttackCount + ma,
      middleEndCount := c.middleEndCount + me, middleAttackCount := c.middleAttackCount + ma)
  }

  /** Adding KKT3 to the flags changes neither what word offers the list of f nor whether it adds to it. */
  lemma IgnoresLengthFlags(word: string, f: WordFlag, flags: WordFlags, list: set<string>)
    requires |word| > 0 && TargetOf(f) != KKT3
    ensures Offered(word, f, flags + LengthFlags(word)) == Offered(word, f, flags)
    ensures Gain(word, f, flags + LengthFlags(word), list) == Gain(word, f, flags, list)
  {
  }

  /**
   * The steps of a word longer than two are the Kkutu steps, then the
   * KungKungTta steps, then the MiddleAndFirst steps, which already see the
   * length flags.
   */
  lemma LongInSteps(c: WordCounts, v: NodeSets, word: string, flags: WordFlags)
    requires |word| > 2
    ensures
      var v1 := KkutuGrown(v, word, flags);
      var v2 := KktGrown(v1, word, flags);
      LongGrown(v, word, flags) == MiddleGrown(v2, word, flags + LengthFlags(word)) &&
      LongCounts(c, v, word, flags) ==
        MiddleCounts(KktCounts(KkutuCounts(c, v, word, flags), v1, word, flags), v2, word, flags + LengthFlags(word))
  {
    IgnoresLengthFlags(word, MiddleEndWord, flags, v.endNodes);
    IgnoresLengthFlags(word, MiddleAttackWord, flags, v.attackNodes);
  }

  /** A word of at most two letters offers nothing to the Kkutu, KungKungTta and middle lists. */
  lemma ShortWordOffersNoLongNodes(word: string, flags: WordFlags, list: set<string>)
    requires 0 < |word| <= 2
    ensures Offered(word, KkutuEndWord, flags) == {} && Offered(word, KkutuAttackWord, flags) == {}
    ensures Offered(word, KKTEndWord, flags) == {} && Offered(word, KKTAttackWord, flags) == {}
    ensures Offered(word, MiddleEndWord, flags) == {} && Offered(word, MiddleAttackWord, flags) == {}
    ensures Gain(word, MiddleEndWord, flags, list) == 0 && Gain(word, MiddleAttackWord, flags, list) == 0
    ensures Gain(word, KkutuEndWord, flags, list) == 0 && Gain(word, KkutuAttackWord, flags, list) == 0
    ensures Gain(word, KKTEndWord, flags, list) == 0 && Gain(word, KKTAttackWord, flags, list) == 0
  {
  }

  /** Grown is the four tail steps followed by the steps of longer words. */
  lemma GrownInSteps(v: NodeSets, word: string, flags: WordFlags)
    requires |word| > 0
    ensures Grown(v, word, flags) == LongGrown(TailGrown(v, word, flags), word, flags)
  {
    if |word| <= 2 {
      ShortWordOffersNoLongNodes(word, flags, {});
    }
  }

  /** CountsAdded is the count of the tail steps followed by that of the steps of longer words. */
  lemma CountsInSteps(v: NodeSets, word: string, flags: WordFlags)
    requires |word| > 0
    ensures CountsAdded(v, word, flags) == LongCounts(TailCounts(Zero, v, word, flags), TailGrown(v, word, flags), word, flags)
  {
    if |word| <= 2 {
      var t := TailGrown(v, word, flags);
      ShortWordOffersNoLongNodes(word, flags, t.endNodes);
      ShortWordOffersNoLongNodes(word, flags, t.attackNodes);
      ShortWordOffersNoLongNodes(word, flags, t.kkutuEndNodes);
      ShortWordOffersNoLongNodes(word, flags, t.kkutuAttackNodes);
      ShortWordOffersNoLongNodes(word, flags, t.kktEndNodes);
      ShortWordOffersNoLongNodes(word, flags, t.kktAttackNodes);
    }
  }

  /** The total size of the lists. */
  function Size(v: NodeSets): int
  {
    |v.endNodes| + |v.attackNodes| + |v.reverseEndNodes| + |v.reverseAttackNodes|
    + |v.kkutuEndNodes| + |v.kkutuAttackNodes| + |v.kktEndNodes| + |v.kktAttackNodes|
  }

  /** The lists only grow, and every list then holds what word offers it. */
  lemma GrownOnlyGrows(v: NodeSets, word: string, flags: WordFlags, f: WordFlag)
    requires |word| > 0
    ensures ListOf(v, f) <= ListOf(Grown(v, word, flags), f)
    ensures Offered(word, f, flags) <= ListOf(Grown(v, word, flags), f)
  {
  }

  /**
   * The returned count is consistent, counts no error and counts every
   * addition exactly once: its total is the growth of the lists.
   */
  lemma CountsAddedTotal(v: NodeSets, word: string, flags: WordFlags)
    requires |word| > 0
    ensures CountsAdded(v, word, flags).Valid() && CountsAdded(v, word, flags).totalError == 0
    ensures CountsAdded(v, word, flags).totalCount == Size(Grown(v, word, flags)) - Size(v)
  {
    var endTail := v.endNodes + Offered(word, WordFlag.EndWord, flags);
    var attackTail := v.attackNodes + Offered(word, AttackWord, flags);
    ListGrowth(v.endNodes, word, WordFlag.EndWord, flags);
    ListGrowth(endTail, word, MiddleEndWord, flags);
    ListGrowth(v.attackNodes, word, AttackWord, flags);
    ListGrowth(attackTail, word, MiddleAttackWord, flags);
    ListGrowth(v.reverseEndNodes, word, ReverseEndWord, flags);
    ListGrowth(v.reverseAttackNodes, word, ReverseAttackWord, flags);
    ListGrowth(v.kkutuEndNodes, word, KkutuEndWord, flags);
    ListGrowth(v.kkutuAttackNodes, word, KkutuAttackWord, flags);
    ListGrowth(v.kktEndNodes, word, KKTEndWord, flags);
    ListGrowth(v.kktAttackNodes, word, KKTAttackWord, flags);
  }

  /** A list grows by one exactly when the step for f adds word's node to it, and by nothing otherwise. */
  lemma ListGrowth(list: set<string>, word: string, f: WordFlag, flags: WordFlags)
    requires |word| > 0
    ensures |list + Offered(word, f, flags)| == |list| + Gain(word, f, flags, list)
  {
    UnionGrowth(list, Offered(word, f, flags));
    match NodeFor(word, f) {
      case None =>
      case Some(n) =>
        if Adds(n, TargetOf(f), flags, list) {
          assert Offered(word, f, flags) - list == {n};
        } else {
          assert Offered(word, f, flags) - list == {};
        }
    }
  }

  /** A union grows by the elements that are new. */
  lemma UnionGrowth(a: set<string>, b: set<string>)
    ensures |a + b| == |a| + |b - a|
  {
    assert a + b == a + (b - a);
    assert a * (b - a) == {};
  }

  class NodeManager {
    var endNodes: set<string>
    var attackNodes: set<string>
    var reverseEndNodes: set<string>
    var reverseAttackNodes: set<string>
    var kkutuEndNodes: set<string>
    var kkutuAttackNodes: set<string>
    var kktEndNodes: set<string>
    var kktAttackNodes: set<string>

    /** The lists as loaded from the node tables of the database. */
    constructor(endNodes: set<string>, attackNodes: set<string>,
                reverseEndNodes: set<string>, reverseAttackNodes: set<string>,
                kkutuEndNodes: set<string>, kkutuAttackNodes: set<string>,
                kktEndNodes: set<string>, kktAttackNodes: set<string>)
      ensures this.endNodes == endNodes && this.attackNodes == attackNodes
      ensures this.reverseEndNodes == reverseEndNodes && this.reverseAttackNodes == reverseAttackNodes
      ensures this.kkutuEndNodes == kkutuEndNodes && this.kkutuAttackNodes == kkutuAttackNodes
      ensures this.kktEndNodes == kktEndNodes && this.kktAttackNodes == kktAttackNodes
    {
      this.endNodes, this.attackNodes := endNodes, attackNodes;
      this.reverseEndNodes, this.reverseAttackNodes := reverseEndNodes, reverseAttackNodes;
      this.kkutuEndNodes, this.kkutuAttackNodes := kkutuEndNodes, kkutuAttackNodes;
      this.kktEndNodes, this.kktAttackNodes := kktEndNodes, kktAttackNodes;
    }

    /** The lists as a value. */
    function Lists(): NodeSets
      reads this
    {
      NodeSets(endNodes, attackNodes, reverseEndNodes, reverseAttackNodes,
        kkutuEndNodes, kkutuAttackNodes, kktEndNodes, kktAttackNodes)
    }

    /** The list CalcWordFlags consults for a node-list flag. */
    function ListFor(f: WordFlag): set<string>
      reads this
    {
      ListOf(Lists(), f)
    }

    /** The node of word for f exists, is not blank and is in the list of f. */
    predicate Listed(word: string, f: WordFlag)
      requires |word| > 0
      reads this
      ensures Listed(word, f) ==> IsCounted(f)
      ensures Listed(word, f) && (f.KkutuEndWord? || f.KkutuAttackWord?) ==> |word| > 2
      ensures Listed(word, f) && (f.KKTEndWord? || f.KKTAttackWord?) ==> |word| == 3
      ensures Listed(word, f) && (f.MiddleEndWord? || f.MiddleAttackWord?) ==> |word| > 2 && |word| % 2 == 1
    {
      NodeFor(word, f).Some? && !IsBlank(NodeFor(word, f).value) && NodeFor(word, f).value in ListFor(f)
    }

    /** GetEndNodeForMode: the end list of the mode's chain rule. */
    function GetEndNodeForMode(mode: GameMode): (r: set<string>)
      reads this
      ensures mode == FirstAndLast ==> r == ListFor(ReverseEndWord)
      ensures mode == Kkutu ==> r == ListFor(KkutuEndWord)
      ensures mode != FirstAndLast && mode != Kkutu ==> r == ListFor(WordFlag.EndWord)
    {
      match mode
      case FirstAndLast => reverseEndNodes
      case Kkutu => kkutuEndNodes
      case _ => endNodes
    }

    /**
     * CalcWordFlags: an empty word is an ArgumentException; otherwise a
     * node-list flag is set iff the word's node for it is listed, KKT2 iff
     * the length is 2 and KKT3 iff it is 3, and no other flag is set.
     */
    function CalcWordFlags(word: string): (r: Wrappers.Result<WordFlags>)
      reads this
      ensures |word| == 0 <==> r == Wrappers.Failure(Wrappers.Argument)
      ensures r.Success? ==> forall f :: f in r.value <==> Listed(word, f) || f in LengthFlags(word)
    {
      if |word| == 0 then Wrappers.Failure(Wrappers.Argument)
      else
        FlagsOfMembers(word);
        Wrappers.Success(FlagsOf(word))
    }

    /** The checks of CalcWordFlags on a non-empty word, in the source's order. */
    function FlagsOf(word: string): WordFlags
      requires |word| > 0
      reads this
    {
      var flags := TailFlags(word);
      var flags := if |word| == 2 then flags + {KKT2} else flags;
      if |word| > 2 then LongWordFlags(word, flags) else flags
    }

    /** The checks of CalcWordFlags together set exactly the flags its contract names. */
    lemma FlagsOfMembers(word: string)
      requires |word| > 0
      ensures forall f :: f in FlagsOf(word) <==> Listed(word, f) || f in LengthFlags(word)
    {
      var flags := if |word| == 2 then TailFlags(word) + {KKT2} else TailFlags(word);
      forall f ensures f in FlagsOf(word) <==> Listed(word, f) || f in LengthFlags(word) {
        if |word| > 2 {
          assert f in FlagsOf(word) <==>
            || f in flags
            || (f == KKT3 && |word| == 3)
            || ((f.KkutuEndWord? || f.KkutuAttackWord? || f.KKTEndWord? || f.KKTAttackWord?
                 || f.MiddleEndWord? || f.MiddleAttackWord?) && Listed(word, f));
        }
      }
    }

    /** The first four checks of CalcWordFlags, made for every word. */
    function TailFlags(word: string): (r: WordFlags)
      requires |word| > 0
      reads this
      ensures forall g :: g in r <==> (g.EndWord? || g.AttackWord? || g.ReverseEndWord? || g.ReverseAttackWord?) && Listed(word, g)
    {
      var flags := {};
      var flags := FlagIfListed(LaFTail(word), endNodes, WordFlag.EndWord, flags);
      var flags := FlagIfListed(LaFTail(word), attackNodes, AttackWord, flags);
      var flags := FlagIfListed(FaLTail(word), reverseEndNodes, ReverseEndWord, flags);
      FlagIfListed(FaLTail(word), reverseAttackNodes, ReverseAttackWord, flags)
    }

    /** The part of CalcWordFlags for words longer than two chars. */
    function LongWordFlags(word: string, flags: WordFlags): (r: WordFlags)
      requires |word| > 2
      reads this
      ensures forall g :: g in r <==>
        || g in flags
        || (g == KKT3 && |word| == 3)
        || ((g.KkutuEndWord? || g.KkutuAttackWord? || g.KKTEndWord? || g.KKTAttackWord?
             || g.MiddleEndWord? || g.MiddleAttackWord?) && Listed(word, g))
    {
      MiddleFlags(word, KktFlags(word, KkutuFlags(word, flags)))
    }

    /** The Kkutu checks: the Kkutu tail node in the Kkutu lists. */
    function KkutuFlags(word: string, flags: WordFlags): (r: WordFlags)
      requires |word| > 2
      reads this
      ensures forall g :: g in r <==> g in flags || ((g.KkutuEndWord? || g.KkutuAttackWord?) && Listed(word, g))
    {
      var flags := FlagIfListed(KkutuTail(word), kkutuEndNodes, KkutuEndWord, flags);
      FlagIfListed(KkutuTail(word), kkutuAttackNodes, KkutuAttackWord, flags)
    }

    /** KKT3 and the KungKungTta checks, for three-letter words. */
    function KktFlags(word: string, flags: WordFlags): (r: WordFlags)
      requires |word| > 2
      reads this
      ensures forall g :: g in r <==> g in flags || (g == KKT3 && |word| == 3) || ((g.KKTEndWord? || g.KKTAttackWord?) && Listed(word, g))
    {
      if |word| == 3 then
        var flags := flags + {KKT3};
        var flags := FlagIfListed(LaFTail(word), kktEndNodes, KKTEndWord, flags);
        FlagIfListed(LaFTail(word), kktAttackNodes, KKTAttackWord, flags)
      else flags
    }

    /** The MiddleAndFirst checks, for odd lengths: the middle node in the plain lists. */
    function MiddleFlags(word: string, flags: WordFlags): (r: WordFlags)
      requires |word| > 2
      reads this
      ensures forall g :: g in r <==> g in flags || ((g.MiddleEndWord? || g.MiddleAttackWord?) && Listed(word, g))
    {
      if |word| % 2 == 1 then
        var flags := FlagIfListed(MaFTail(word), endNodes, MiddleEndWord, flags);
        FlagIfListed(MaFTail(word), attackNodes, MiddleAttackWord, flags)
      else flags
    }

    /**
     * UpdateNodeListsByWord: an empty word is an ArgumentException and
     * changes nothing; otherwise the lists become Grown and the returned
     * count is CountsAdded (see GrownOnlyGrows and CountsAddedTotal), and
     * flagsOut is flagsIn with KKT2 or KKT3 added by length.
     */
    method UpdateNodeListsByWord(word: string, flagsIn: WordFlags) returns (r: Wrappers.Result<WordCount>, flagsOut: WordFlags)
      modifies this
      ensures |word| == 0 ==> r == Wrappers.Failure(Wrappers.Argument) && flagsOut == flagsIn && unchanged(this)
      ensures |word| > 0 ==> r.Success? && fresh(r.value) && flagsOut == flagsIn + LengthFlags(word)
      ensures |word| > 0 ==> Lists() == Grown(old(Lists()), word, flagsIn)
      ensures r.Success? ==> r.value.Value() == CountsAdded(old(Lists()), word, flagsIn)
    {
      if |word| == 0 {
        return Wrappers.Failure(Wrappers.Argument), flagsIn;
      }
      var count := new WordCount();
      ghost var v := Lists();
      flagsOut := UpdateWordLists(word, flagsIn, count);
      GrownInSteps(v, word, flagsIn);
      CountsInSteps(v, word, flagsIn);
      r := Wrappers.Success(count);
    }

    /** The steps of UpdateNodeListsByWord for a non-empty word: the tail steps, then those of longer words. */
    method UpdateWordLists(word: string, flagsIn: WordFlags, count: WordCount) returns (flagsOut: WordFlags)
      requires |word| > 0
      modifies this, count
      ensures flagsOut == flagsIn + LengthFlags(word)
      ensures Lists() == LongGrown(TailGrown(old(Lists()), word, flagsIn), word, flagsIn)
      ensures count.Value() == LongCounts(TailCounts(old(count.Value()), old(Lists()), word, flagsIn),
        TailGrown(old(Lists()), word, flagsIn), word, flagsIn)
    {
      UpdateTailLists(word, flagsIn, count);
      if |word| > 2 {
        flagsOut := UpdateLongWordLists(word, flagsIn, count);
      } else {
        flagsOut := if |word| == 2 then flagsIn + {KKT2} else flagsIn;
      }
    }

    /** The first four steps, made for every word: the plain lists by the last char, the reverse lists by the first. */
    method UpdateTailLists(word: string, flags: WordFlags, count: WordCount)
      requires |word| > 0
      modifies this`endNodes, this`attackNodes, this`reverseEndNodes, this`reverseAttackNodes, count
      ensures Lists() == TailGrown(old(Lists()), word, flags)
      ensures count.Value() == TailCounts(old(count.Value()), old(Lists()), word, flags)
    {
      UpdateLaFLists(LaFTail(word), flags, count);
      UpdateFaLLists(FaLTail(word), flags, count);
    }

    /**
     * The steps for words longer than two: the Kkutu lists, then KKT3 and the
     * KungKungTta lists for three-letter words, then the MiddleAndFirst
     * steps into the plain lists for odd lengths. The later steps see KKT3
     * in the flags; no step's target is KKT3, so what they add is what
     * flagsIn offers.
     */
    method UpdateLongWordLists(word: string, flagsIn: WordFlags, count: WordCount) returns (flagsOut: WordFlags)
      requires |word| > 2
      modifies this, count
      ensures flagsOut == flagsIn + LengthFlags(word)
      ensures Lists() == LongGrown(old(Lists()), word, flagsIn)
      ensures count.Value() == LongCounts(old(count.Value()), old(Lists()), word, flagsIn)
    {
      ghost var v, c := Lists(), count.Value();
      UpdateKkutuStep(word, flagsIn, count);
      flagsOut := UpdateKktStep(word, flagsIn, count);
      UpdateMiddleStep(word, flagsOut, count);
      LongInSteps(c, v, word, flagsIn);
    }

    /** The Kkutu steps, for words longer than two. */
    method UpdateKkutuStep(word: string, flags: WordFlags, count: WordCount)
      requires |word| > 2
      modifies this`kkutuEndNodes, this`kkutuAttackNodes, count
      ensures Lists() == KkutuGrown(old(Lists()), word, flags)
      ensures count.Value() == KkutuCounts(old(count.Value()), old(Lists()), word, flags)
    {
      UpdateKkutuLists(KkutuTail(word), flags, count);
    }

    /** KKT3 and the KungKungTta steps, for three-letter words; longer words change nothing here. */
    method UpdateKktStep(word: string, flags: WordFlags, count: WordCount) returns (flagsOut: WordFlags)
      requires |word| > 2
      modifies this`kktEndNodes, this`kktAttackNodes, count
      ensures flagsOut == flags + LengthFlags(word)
      ensures Lists() == KktGrown(old(Lists()), word, flags)
      ensures count.Value() == KktCounts(old(count.Value()), old(Lists()), word, flags)
    {
      ghost var v, c := Lists(), count.Value();
      flagsOut := flags;
      if |word| == 3 {
        flagsOut := flagsOut + {KKT3};
        UpdateKktLists(LaFTail(word), flagsOut, count);
        KktAtThree(c, v, word, flags);
      } else {
        KktBeyondThree(c, v, word, flags);
      }
    }

    /** The MiddleAndFirst steps, for odd lengths; even words change nothing here. */
    method UpdateMiddleStep(word: string, flags: WordFlags, count: WordCount)
      requires |word| > 2
      modifies this`endNodes, this`attackNodes, count
      ensures Lists() == MiddleGrown(old(Lists()), word, flags)
      ensures count.Value() == MiddleCounts(old(count.Value()), old(Lists()), word, flags)
    {
      if |word| % 2 == 1 {
        UpdateMiddleLists(MaFTail(word), flags, count);
      }
    }

    /** The first two steps: the plain end and attack lists, fed by the last char. */
    method UpdateLaFLists(node: string, flags: WordFlags, count: WordCount)
      modifies this`endNodes, this`attackNodes, count
      ensures endNodes == old(endNodes) + Offer(node, WordFlag.EndWord, flags)
      ensures attackNodes == old(attackNodes) + Offer(node, AttackWord, flags)
      ensures
        var c := old(count.Value());
        var x := if Adds(node, WordFlag.EndWord, flags, old(endNodes)) then 1 else 0;
        var y := if Adds(node, AttackWord, flags, old(attackNodes)) then 1 else 0;
        count.Value() == c.(
          totalCount := c.totalCount + x + y,
          totalEndCount := c.totalEndCount + x, totalAttackCount := c.totalAttackCount + y,
          endCount := c.endCount + x, attackCount := c.attackCount + y)
    {
      var e := AddIfFlagged(node, endNodes, WordFlag.EndWord, flags, count);
      var a := AddIfFlagged(node, attackNodes, AttackWord, flags, count);
      endNodes, attackNodes := e, a;
    }

    /** The FirstAndLast steps: the reverse lists, fed by the first char. */
    method UpdateFaLLists(node: string, flags: WordFlags, count: WordCount)
      modifies this`reverseEndNodes, this`reverseAttackNodes, count
      ensures reverseEndNodes == old(reverseEndNodes) + Offer(node, ReverseEndWord, flags)
      ensures reverseAttackNodes == old(reverseAttackNodes) + Offer(node, ReverseAttackWord, flags)
      ensures
        var c := old(count.Value());
        var x := if Adds(node, ReverseEndWord, flags, old(reverseEndNodes)) then 1 else 0;
        var y := if Adds(node, ReverseAttackWord, flags, old(reverseAttackNodes)) then 1 else 0;
        count.Value() == c.(
          totalCount := c.totalCount + x + y,
          totalEndCount := c.totalEndCount + x, totalAttackCount := c.totalAttackCount + y,
          reverseEndCount := c.reverseEndCount + x, reverseAttackCount := c.reverseAttackCount + y)
    {
      var e := AddIfFlagged(node, reverseEndNodes, ReverseEndWord, flags, count);
      var a := AddIfFlagged(node, reverseAttackNodes, ReverseAttackWord, flags, count);
      reverseEndNodes, reverseAttackNodes := e, a;
    }

    /** The Kkutu steps, fed by the Kkutu tail node. */
    method UpdateKkutuLists(node: string, flags: WordFlags, count: WordCount)
      modifies this`kkutuEndNodes, this`kkutuAttackNodes, count
      ensures kkutuEndNodes == old(kkutuEndNodes) + Offer(node, KkutuEndWord, flags)
      ensures kkutuAttackNodes == old(kkutuAttackNodes) + Offer(node, KkutuAttackWord, flags)
      ensures
        var c := old(count.Value());
        var x := if Adds(node, KkutuEndWord, flags, old(kkutuEndNodes)) then 1 else 0;
        var y := if Adds(node, KkutuAttackWord, flags, old(kkutuAttackNodes)) then 1 else 0;
        count.Value() == c.(
          totalCount := c.totalCount + x + y,
          totalEndCount := c.totalEndCount + x, totalAttackCount := c.totalAttackCount + y,
          kkutuEndCount := c.kkutuEndCount + x, kkutuAttackCount := c.kkutuAttackCount + y)
    {
      var e := AddIfFlagged(node, kkutuEndNodes, KkutuEndWord, flags, count);
      var a := AddIfFlagged(node, kkutuAttackNodes, KkutuAttackWord, flags, count);
      kkutuEndNodes, kkutuAttackNodes := e, a;
    }

    /** The KungKungTta steps, fed by the last char and counted under EndWord and AttackWord. */
    method UpdateKktLists(node: string, flags: WordFlags, count: WordCount)
      modifies this`kktEndNodes, this`kktAttackNodes, count
      ensures kktEndNodes == old(kktEndNodes) + Offer(node, WordFlag.EndWord, flags)
      ensures kktAttackNodes == old(kktAttackNodes) + Offer(node, AttackWord, flags)
      ensures
        var c := old(count.Value());
        var x := if Adds(node, WordFlag.EndWord, flags, old(kktEndNodes)) then 1 else 0;
        var y := if Adds(node, AttackWord, flags, old(kktAttackNodes)) then 1 else 0;
        count.Value() == c.(
          totalCount := c.totalCount + x + y,
          totalEndCount := c.totalEndCount + x, totalAttackCount := c.totalAttackCount + y,
          endCount := c.endCount + x, attackCount := c.attackCount + y)
    {
      var e := AddIfFlagged(node, kktEndNodes, WordFlag.EndWord, flags, count);
      var a := AddIfFlagged(node, kktAttackNodes, AttackWord, flags, count);
      kktEndNodes, kktAttackNodes := e, a;
    }

    /** The MiddleAndFirst steps, fed by the middle char, into the plain end and attack lists. */
    method UpdateMiddleLists(node: string, flags: WordFlags, count: WordCount)
      modifies this`endNodes, this`attackNodes, count
      ensures endNodes == old(endNodes) + Offer(node, MiddleEndWord, flags)
      ensures attackNodes == old(attackNodes) + Offer(node, MiddleAttackWord, flags)
      ensures
        var c := old(count.Value());
        var x := if Adds(node, MiddleEndWord, flags, old(endNodes)) then 1 else 0;
        var y := if Adds(node, MiddleAttackWord, flags, old(attackNodes)) then 1 else 0;
        count.Value() == c.(
          totalCount := c.totalCount + x + y,
          totalEndCount := c.totalEndCount + x, totalAttackCount := c.totalAttackCount + y,
          middleEndCount := c.middleEndCount + x, middleAttackCount := c.middleAttackCount + y)
    {
      var e := AddIfFlagged(node, endNodes, MiddleEndWord, flags, count);
      var a := AddIfFlagged(node, attackNodes, MiddleAttackWord, flags, count);
      endNodes, attackNodes := e, a;
    }

    /**
     * UpdateNodeListsByWordInternal: a non-blank node joins list when it is
     * not yet listed and flagsIn carries target; each addition is counted
     * once, as Increment(target, 1).
     */
    static method AddIfFlagged(node: string, list: set<string>, target: WordFlag, flagsIn: WordFlags, count: WordCount)
      returns (list': set<string>)
      requires IsCounted(target)
      modifies count
      ensures list' == list + Offer(node, target, flagsIn)
      ensures count.Value() ==
        if Adds(node, target, flagsIn, list) then IncrementedCase(old(count.Value()), Wrappers.Some(target), 1)
        else old(count.Value())
    {
      list' := list;
      if IsBlank(node) {
        return;
      }
      if node !in list && target in flagsIn {
        list' := list + {node};
        SingletonCase(target);
        count.Increment({target}, 1);
      }
    }
  }
}
