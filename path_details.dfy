// PathDetails: the parameters of one word search (the word condition, the
// PathFlags bits, whether used words may be reused, how many results to
// show) and its flag algebra. PathFlags is a C# [Flags] enum of six bits; a
// value is the set of its bits, so | is union, & ~ is difference and
// HasFlag is inclusion. WordCondition.IsSimilar is not part of this model:
// it is a parameter of IsSimilar and Equals.
module PathDetailing {
  import opened KkutuTypes

  /** One bit of PathFlags. */
  datatype PathFlag =
    | UseEndWord
    | UseAttackWord
    | DryRun
    | ManualSearch
    | MissionWordExists
    | PreSearch

  type PathFlags = set<PathFlag>

  /** The bits IsSimilar compares. */
  const SimilarityFlags: PathFlags := {UseEndWord, UseAttackWord, MissionWordExists}

  datatype PathDetails = PathDetails(condition: WordCondition, flags: PathFlags, reuseAlreadyUsed: bool, maxDisplayed: int)

  /** PathDetails.Empty: the empty condition, no flag, no reuse, nothing displayed. */
  const Empty: PathDetails := PathDetails(WordCondition.Empty, {}, false, 0)

  /** Enum.HasFlag: every bit of flag is set (so PathFlags.None, the empty value, is always present). */
  predicate HasFlag(d: PathDetails, flag: PathFlags)
    ensures HasFlag(d, flag) <==> d.flags * flag == flag
    ensures flag == {} ==> HasFlag(d, flag)
  {
    flag <= d.flags
  }

  /** WithFlags: a copy with the given bits set. */
  function WithFlags(d: PathDetails, flags: PathFlags): (r: PathDetails)
    ensures r.condition == d.condition && r.reuseAlreadyUsed == d.reuseAlreadyUsed && r.maxDisplayed == d.maxDisplayed
    ensures HasFlag(r, flags)
    ensures forall g :: g in r.flags <==> g in d.flags || g in flags
  {
    d.(flags := d.flags + flags)
  }

  /** WithoutFlags: a copy with the given bits cleared. */
  function WithoutFlags(d: PathDetails, flags: PathFlags): (r: PathDetails)
    ensures r.condition == d.condition && r.reuseAlreadyUsed == d.reuseAlreadyUsed && r.maxDisplayed == d.maxDisplayed
    ensures HasFlag(r, flags) <==> flags == {}
    ensures forall g :: g in r.flags <==> g in d.flags && g !in flags
  {
    ClearedBitsAbsent(d.flags, flags);
    d.(flags := d.flags - flags)
  }

  /** Clearing bits leaves none of them, so only clearing no bit keeps them all present. */
  lemma ClearedBitsAbsent(a: PathFlags, b: PathFlags)
    ensures b <= a - b <==> b == {}
  {
    if b != {} {
      var g :| g in b;
      assert g !in a - b;
    }
  }

  /**
   * IsSimilar: similar conditions, the same reuse setting and the same
   * UseEndWord, UseAttackWord and MissionWordExists bits; DryRun,
   * ManualSearch, PreSearch and MaxDisplayed are ignored.
   */
  predicate IsSimilar(similar: (WordCondition, WordCondition) -> bool, d: PathDetails, other: PathDetails)
    ensures IsSimilar(similar, d, other) ==>
      && similar(d.condition, other.condition)
      && d.reuseAlreadyUsed == other.reuseAlreadyUsed
      && d.flags * SimilarityFlags == other.flags * SimilarityFlags
  {
    ComparedBitsAgree(d.flags, other.flags);
    && similar(d.condition, other.condition)
    && d.reuseAlreadyUsed == other.reuseAlreadyUsed
    && HasFlag(d, {UseEndWord}) == HasFlag(other, {UseEndWord})
    && HasFlag(d, {UseAttackWord}) == HasFlag(other, {UseAttackWord})
    && HasFlag(d, {MissionWordExists}) == HasFlag(other, {MissionWordExists})
  }

  /** Sets that agree on each of the three compared bits have the same compared part. */
  lemma ComparedBitsAgree(a: PathFlags, b: PathFlags)
    ensures (UseEndWord in a <==> UseEndWord in b) && (UseAttackWord in a <==> UseAttackWord in b)
      && (MissionWordExists in a <==> MissionWordExists in b)
      ==> a * SimilarityFlags == b * SimilarityFlags
  {
  }

  /** Equals: similar, and the same condition, flags and MaxDisplayed. */
  predicate Equals(similar: (WordCondition, WordCondition) -> bool, d: PathDetails, other: PathDetails)
  {
    IsSimilar(similar, d, other) && d.condition == other.condition && d.flags == other.flags && d.maxDisplayed == other.maxDisplayed
  }

  /** IsSimilar depends on the flags only through the three compared bits. */
  lemma SimilarIffSameComparedFlags(similar: (WordCondition, WordCondition) -> bool, d: PathDetails, other: PathDetails)
    requires similar(d.condition, other.condition) && d.reuseAlreadyUsed == other.reuseAlreadyUsed
    ensures IsSimilar(similar, d, other) <==> d.flags * SimilarityFlags == other.flags * SimilarityFlags
  {
    if IsSimilar(similar, d, other) {
      forall g | g in d.flags * SimilarityFlags ensures g in other.flags {
        assert HasFlag(d, {g});
      }
      forall g | g in other.flags * SimilarityFlags ensures g in d.flags {
        assert HasFlag(other, {g});
      }
    }
    if d.flags * SimilarityFlags == other.flags * SimilarityFlags {
      SameComparedFlagsSimilar(similar, d, other);
    }
  }

  /** Details with the same compared bits, similar conditions and the same reuse setting are similar. */
  lemma SameComparedFlagsSimilar(similar: (WordCondition, WordCondition) -> bool, d: PathDetails, other: PathDetails)
    requires similar(d.condition, other.condition) && d.reuseAlreadyUsed == other.reuseAlreadyUsed
    requires d.flags * SimilarityFlags == other.flags * SimilarityFlags
    ensures IsSimilar(similar, d, other)
  {
    assert UseEndWord in SimilarityFlags && UseAttackWord in SimilarityFlags && MissionWordExists in SimilarityFlags;
    assert UseEndWord in d.flags * SimilarityFlags <==> UseEndWord in other.flags * SimilarityFlags;
    assert UseAttackWord in d.flags * SimilarityFlags <==> UseAttackWord in other.flags * SimilarityFlags;
    assert MissionWordExists in d.flags * SimilarityFlags <==> MissionWordExists in other.flags * SimilarityFlags;
  }

  /** Equals is equality of values, for a condition similarity that is reflexive. */
  lemma EqualsIsIdentity(similar: (WordCondition, WordCondition) -> bool, d: PathDetails, other: PathDetails)
    ensures Equals(similar, d, other) ==> d == other
    ensures d == other && similar(d.condition, d.condition) ==> Equals(similar, d, other)
  {
  }

  /** Setting or clearing bits IsSimilar ignores keeps a search similar to the original. */
  lemma IgnoredFlagsKeepSimilar(similar: (WordCondition, WordCondition) -> bool, d: PathDetails, f: PathFlags)
    requires similar(d.condition, d.condition)
    requires f * SimilarityFlags == {}
    ensures IsSimilar(similar, WithFlags(d, f), d)
    ensures IsSimilar(similar, WithoutFlags(d, f), d)
  {
    assert UseEndWord in SimilarityFlags && UseAttackWord in SimilarityFlags && MissionWordExists in SimilarityFlags;
    assert UseEndWord !in f * SimilarityFlags && UseAttackWord !in f * SimilarityFlags && MissionWordExists !in f * SimilarityFlags;
  }

  /** Setting bits twice is setting them once; clearing bits after setting them is clearing them. */
  lemma FlagUpdatesIdempotent(d: PathDetails, f: PathFlags)
    ensures WithFlags(WithFlags(d, f), f) == WithFlags(d, f)
    ensures WithoutFlags(WithFlags(d, f), f) == WithoutFlags(d, f)
    ensures WithoutFlags(WithoutFlags(d, f), f) == WithoutFlags(d, f)
  {
    assert d.flags + f + f == d.flags + f;
    assert d.flags + f - f == d.flags - f;
    assert d.flags - f - f == d.flags - f;
  }
}
