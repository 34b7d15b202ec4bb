// WordCount: the counters of words added per flag, kept while words are
// imported. The C# struct is mutated through a ref, modelled as a class.
module WordCounting {
  import opened KkutuTypes
  import Wrappers

  /** The ten flags WordCount keeps a counter for. */
  predicate IsCounted(f: WordFlag)
  {
    IsEndFlag(f) || IsAttackFlag(f)
  }

  predicate IsEndFlag(f: WordFlag)
  {
    f.EndWord? || f.ReverseEndWord? || f.MiddleEndWord? || f.KkutuEndWord? || f.KKTEndWord?
  }

  predicate IsAttackFlag(f: WordFlag)
  {
    f.AttackWord? || f.ReverseAttackWord? || f.MiddleAttackWord? || f.KkutuAttackWord? || f.KKTAttackWord?
  }

  /**
   * The switch of WordCount.Increment on the exact flags value: the counted
   * flag it names, or None for a combination or an uncounted flag.
   */
  function CountedCase(flags: WordFlags): (r: Wrappers.Option<WordFlag>)
    ensures r.Some? ==> flags == {r.value} && IsCounted(r.value)
    ensures r.None? ==> forall f :: IsCounted(f) ==> flags != {f}
  {
    if flags == {WordFlag.EndWord} then Wrappers.Some(WordFlag.EndWord)
    else if flags == {AttackWord} then Wrappers.Some(AttackWord)
    else if flags == {ReverseEndWord} then Wrappers.Some(ReverseEndWord)
    else if flags == {ReverseAttackWord} then Wrappers.Some(ReverseAttackWord)
    else if flags == {MiddleEndWord} then Wrappers.Some(MiddleEndWord)
    else if flags == {MiddleAttackWord} then Wrappers.Some(MiddleAttackWord)
    else if flags == {KkutuEndWord} then Wrappers.Some(KkutuEndWord)
    else if flags == {KkutuAttackWord} then Wrappers.Some(KkutuAttackWord)
    else if flags == {KKTEndWord} then Wrappers.Some(KKTEndWord)
    else if flags == {KKTAttackWord} then Wrappers.Some(KKTAttackWord)
    else Wrappers.None
  }

  /** The fourteen counters of a WordCount, as a value. */
  datatype WordCounts = WordCounts(
    totalCount: int, totalError: int, totalEndCount: int, totalAttackCount: int,
    endCount: int, attackCount: int, reverseEndCount: int, reverseAttackCount: int,
    middleEndCount: int, middleAttackCount: int, kkutuEndCount: int, kkutuAttackCount: int,
    kktEndCount: int, kktAttackCount: int)
  {
    /** The counter kept for a counted flag, 0 for the others. */
    function Of(f: WordFlag): int
    {
      match f
      case EndWord => endCount
      case AttackWord => attackCount
      case ReverseEndWord => reverseEndCount
      case ReverseAttackWord => reverseAttackCount
      case MiddleEndWord => middleEndCount
      case MiddleAttackWord => middleAttackCount
      case KkutuEndWord => kkutuEndCount
      case KkutuAttackWord => kkutuAttackCount
      case KKTEndWord => kktEndCount
      case KKTAttackWord => kktAttackCount
      case _ => 0
    }

    /** The two totals are the sums of their five counters. */
    predicate Valid()
    {
      && totalEndCount == endCount + reverseEndCount + middleEndCount + kkutuEndCount + kktEndCount
      && totalAttackCount == attackCount + reverseAttackCount + middleAttackCount + kkutuAttackCount + kktAttackCount
    }
  }

  /** default(WordCount). */
  const Zero: WordCounts := WordCounts(0, 0, 0, 0, 0, 0, 0, 0, 0, 0, 0, 0, 0, 0)

  /** f's own counter grown by n. */
  function WithCounter(v: WordCounts, f: WordFlag, n: int): WordCounts
    requires IsCounted(f)
  {
    match f
    case EndWord => v.(endCount := v.endCount + n)
    case AttackWord => v.(attackCount := v.attackCount + n)
    case ReverseEndWord => v.(reverseEndCount := v.reverseEndCount + n)
    case ReverseAttackWord => v.(reverseAttackCount := v.reverseAttackCount + n)
    case MiddleEndWord => v.(middleEndCount := v.middleEndCount + n)
    case MiddleAttackWord => v.(middleAttackCount := v.middleAttackCount + n)
    case KkutuEndWord => v.(kkutuEndCount := v.kkutuEndCount + n)
    case KkutuAttackWord => v.(kkutuAttackCount := v.kkutuAttackCount + n)
    case KKTEndWord => v.(kktEndCount := v.kktEndCount + n)
    case KKTAttackWord => v.(kktAttackCount := v.kktAttackCount + n)
  }

  /** The counters after one arm of the switch of Increment: f's counter and its End or Attack total grow by n. */
  function AddedTo(v: WordCounts, f: WordFlag, n: int): WordCounts
    requires IsCounted(f)
  {
    var w := WithCounter(v, f, n);
    if IsEndFlag(f) then w.(totalEndCount := w.totalEndCount + n)
    else w.(totalAttackCount := w.totalAttackCount + n)
  }

  /** The counters after Increment(flags, n). */
  function Incremented(v: WordCounts, flags: WordFlags, n: int): WordCounts
  {
    IncrementedCase(v, CountedCase(flags), n)
  }

  /** The counters after Increment, given the case of the switch its flags select. */
  function IncrementedCase(v: WordCounts, c: Wrappers.Option<WordFlag>, n: int): WordCounts
    requires c.Some? ==> IsCounted(c.value)
  {
    var w := v.(totalCount := v.totalCount + n);
    match c
    case None => w
    case Some(f) => AddedTo(w, f, n)
  }

  /**
   * Increment adds n to TotalCount and, when flags is exactly one of the ten
   * counted flags, to that flag's counter and to its End or Attack total; a
   * combination of flags or any other flag changes only TotalCount. The
   * totals stay the sums of their counters.
   */
  lemma IncrementedCounts(v: WordCounts, flags: WordFlags, n: int)
    ensures Incremented(v, flags, n).totalCount == v.totalCount + n
    ensures Incremented(v, flags, n).totalError == v.totalError
    ensures forall g :: Incremented(v, flags, n).Of(g) == v.Of(g) + (if CountedCase(flags) == Wrappers.Some(g) then n else 0)
    ensures Incremented(v, flags, n).totalEndCount == v.totalEndCount
      + (if CountedCase(flags).Some? && IsEndFlag(CountedCase(flags).value) then n else 0)
    ensures Incremented(v, flags, n).totalAttackCount == v.totalAttackCount
      + (if CountedCase(flags).Some? && IsAttackFlag(CountedCase(flags).value) then n else 0)
    ensures v.Valid() ==> Incremented(v, flags, n).Valid()
  {
    CaseTotals(v, CountedCase(flags), n);
    CaseCounters(v, CountedCase(flags), n);
  }

  /** IncrementedCounts for a given case of the switch: the totals. */
  lemma CaseTotals(v: WordCounts, c: Wrappers.Option<WordFlag>, n: int)
    requires c.Some? ==> IsCounted(c.value)
    ensures IncrementedCase(v, c, n).totalCount == v.totalCount + n
    ensures IncrementedCase(v, c, n).totalError == v.totalError
    ensures IncrementedCase(v, c, n).totalEndCount == v.totalEndCount + (if c.Some? && IsEndFlag(c.value) then n else 0)
    ensures IncrementedCase(v, c, n).totalAttackCount == v.totalAttackCount + (if c.Some? && IsAttackFlag(c.value) then n else 0)
    ensures v.Valid() ==> IncrementedCase(v, c, n).Valid()
  {
    if c.Some? {
      var w := v.(totalCount := v.totalCount + n);
      assert IncrementedCase(v, c, n) == AddedTo(w, c.value, n);
      AddedToTotals(w, c.value, n);
    }
  }

  /** IncrementedCounts for a given case of the switch: the flag counters. */
  lemma CaseCounters(v: WordCounts, c: Wrappers.Option<WordFlag>, n: int)
    requires c.Some? ==> IsCounted(c.value)
    ensures forall g :: IncrementedCase(v, c, n).Of(g) == v.Of(g) + (if c == Wrappers.Some(g) then n else 0)
  {
    forall g
      ensures IncrementedCase(v, c, n).Of(g) == v.Of(g) + (if c == Wrappers.Some(g) then n else 0)
    {
      CaseCounter(v, c, n, g);
    }
  }

  lemma CaseCounter(v: WordCounts, c: Wrappers.Option<WordFlag>, n: int, g: WordFlag)
    requires c.Some? ==> IsCounted(c.value)
    ensures IncrementedCase(v, c, n).Of(g) == v.Of(g) + (if c == Wrappers.Some(g) then n else 0)
  {
    var w := v.(totalCount := v.totalCount + n);
    assert w.Of(g) == v.Of(g);
    match c {
      case None =>
      case Some(f) => AddedToCounter(w, f, n, g);
    }
  }

  lemma AddedToCounter(v: WordCounts, f: WordFlag, n: int, g: WordFlag)
    requires IsCounted(f)
    ensures AddedTo(v, f, n).Of(g) == v.Of(g) + (if g == f then n else 0)
  {
    assert AddedTo(v, f, n).Of(g) == WithCounter(v, f, n).Of(g);
  }

  /** One arm of the switch changes exactly f's End or Attack total, and keeps the totals the sums of their counters. */
  lemma AddedToTotals(v: WordCounts, f: WordFlag, n: int)
    requires IsCounted(f)
    ensures AddedTo(v, f, n).totalCount == v.totalCount && AddedTo(v, f, n).totalError == v.totalError
    ensures AddedTo(v, f, n).totalEndCount == v.totalEndCount + (if IsEndFlag(f) then n else 0)
    ensures AddedTo(v, f, n).totalAttackCount == v.totalAttackCount + (if IsAttackFlag(f) then n else 0)
    ensures v.Valid() ==> AddedTo(v, f, n).Valid()
  {
  }

  /** A single counted flag selects its own case of the switch. */
  lemma SingletonCase(f: WordFlag)
    requires IsCounted(f)
    ensures CountedCase({f}) == Wrappers.Some(f)
  {
  }

  class WordCount {
    var totalCount: int
    var totalError: int
    var totalEndCount: int
    var totalAttackCount: int
    var endCount: int
    var attackCount: int
    var reverseEndCount: int
    var reverseAttackCount: int
    var middleEndCount: int
    var middleAttackCount: int
    var kkutuEndCount: int
    var kkutuAttackCount: int
    var kktEndCount: int
    var kktAttackCount: int

    /** The counters as a value. */
    function Value(): WordCounts
      reads this
    {
      WordCounts(totalCount, totalError, totalEndCount, totalAttackCount,
        endCount, attackCount, reverseEndCount, reverseAttackCount,
        middleEndCount, middleAttackCount, kkutuEndCount, kkutuAttackCount,
        kktEndCount, kktAttackCount)
    }

    /** The default struct: every counter 0. */
    constructor()
      ensures Value() == Zero
    {
      totalCount, totalError, totalEndCount, totalAttackCount := 0, 0, 0, 0;
      endCount, attackCount, reverseEndCount, reverseAttackCount := 0, 0, 0, 0;
      middleEndCount, middleAttackCount, kkutuEndCount, kkutuAttackCount := 0, 0, 0, 0;
      kktEndCount, kktAttackCount := 0, 0;
    }

    /** IncrementError changes only TotalError. */
    method IncrementError()
      modifies this
      ensures Value() == old(Value()).(totalError := old(totalError) + 1)
    {
      totalError := totalError + 1;
    }

    /** Increment(flags, count); IncrementedCounts says what it changes. */
    method Increment(flags: WordFlags, count: int)
      modifies this
      ensures Value() == Incremented(old(Value()), flags, count)
    {
      totalCount := totalCount + count;
      match CountedCase(flags) {
        case None =>
        case Some(f) => AddToCounter(f, count);
      }
    }

    /** One arm of the switch. */
    method AddToCounter(f: WordFlag, count: int)
      requires IsCounted(f)
      modifies this
      ensures Value() == AddedTo(old(Value()), f, count)
    {
      var end, attack := AddToFlagCounter(f, count);
      totalEndCount := totalEndCount + end;
      totalAttackCount := totalAttackCount + attack;
    }

    /** The switch itself: f's counter grows, and end or attack carries count for the totals. */
    method AddToFlagCounter(f: WordFlag, count: int) returns (end: int, attack: int)
      requires IsCounted(f)
      modifies this
      ensures Value() == WithCounter(old(Value()), f, count)
      ensures end == (if IsEndFlag(f) then count else 0) && attack == (if IsEndFlag(f) then 0 else count)
    {
      end, attack := 0, 0;
      match f {
        case EndWord => end := count; endCount := endCount + end;
        case AttackWord => attack := count; attackCount := attackCount + attack;
        case ReverseEndWord => end := count; reverseEndCount := reverseEndCount + end;
        case ReverseAttackWord => attack := count; reverseAttackCount := reverseAttackCount + attack;
        case MiddleEndWord => end := count; middleEndCount := middleEndCount + end;
        case MiddleAttackWord => attack := count; middleAttackCount := middleAttackCount + attack;
        case KkutuEndWord => end := count; kkutuEndCount := kkutuEndCount + end;
        case KkutuAttackWord => attack := count; kkutuAttackCount := kkutuAttackCount + attack;
        case KKTEndWord => end := count; kktEndCount := kktEndCount + end;
        case KKTAttackWord => attack := count; kktAttackCount := kktAttackCount + attack;
      }
    }

    /** Equals compares all fourteen counters. */
    predicate Equals(other: WordCount)
      reads this, other
      ensures Equals(other) <==> Value() == other.Value()
    {
      && totalCount == other.totalCount
      && totalError == other.totalError
      && totalEndCount == other.totalEndCount
      && totalAttackCount == other.totalAttackCount
      && endCount == other.endCount
      && attackCount == other.attackCount
      && reverseEndCount == other.reverseEndCount
      && reverseAttackCount == other.reverseAttackCount
      && middleEndCount == other.middleEndCount
      && middleAttackCount == other.middleAttackCount
      && kkutuEndCount == other.kkutuEndCount
      && kkutuAttackCount == other.kkutuAttackCount
      && kktEndCount == other.kktEndCount
      && kktAttackCount == other.kktAttackCount
    }
  }
}
