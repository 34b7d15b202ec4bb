// The two integer functions the SQLite connection registers and the word
// search orders its results by: WordPriority, without a mission char, and
// MissionWordPriority, with one. The flags column and the flag arguments
// are WordFlags bit masks, so (flags & mask) != 0 is a non-empty
// intersection; the arithmetic is C# int arithmetic.
module SqlitePriority {
  import opened Text
  import opened KkutuTypes
  import opened Int32
  import Wrappers

  /** DatabaseConstants.MaxWordLength: the longest word the database holds. */
  const MaxWordLength: int := 256

  /** DatabaseConstants.MaxWordPriorityLength: 256 words' length times 256 mission chars, doubled. */
  const MaxWordPriorityLength: int := 131072

  /** Some bit of mask is set in flags: (flags & mask) != 0. */
  predicate AnyOf(flags: WordFlags, mask: WordFlags)
  {
    flags * mask != {}
  }

  /** The ordinal WordPriority scales: the end ordinal for an end word, else the attack ordinal for an attack word, else the normal one. */
  function WordOrdinal(flags: WordFlags, endWordFlag: WordFlags, attackWordFlag: WordFlags,
                       endWordOrdinal: int32, attackWordOrdinal: int32, normalWordOrdinal: int32): (r: int32)
    ensures AnyOf(flags, endWordFlag) ==> r == endWordOrdinal
    ensures !AnyOf(flags, endWordFlag) && AnyOf(flags, attackWordFlag) ==> r == attackWordOrdinal
    ensures !AnyOf(flags, endWordFlag) && !AnyOf(flags, attackWordFlag) ==> r == normalWordOrdinal
  {
    if AnyOf(flags, endWordFlag) then endWordOrdinal
    else if AnyOf(flags, attackWordFlag) then attackWordOrdinal
    else normalWordOrdinal
  }

  /** WordPriorityFunc: the chosen ordinal times MaxWordLength, as a C# int. */
  function WordPriority(flags: WordFlags, endWordFlag: WordFlags, attackWordFlag: WordFlags,
                        endWordOrdinal: int32, attackWordOrdinal: int32, normalWordOrdinal: int32): (r: int32)
    ensures
      var o := WordOrdinal(flags, endWordFlag, attackWordFlag, endWordOrdinal, attackWordOrdinal, normalWordOrdinal);
      InRange(o * MaxWordLength) ==> r == o * MaxWordLength
  {
    Mul(WordOrdinal(flags, endWordFlag, attackWordFlag, endWordOrdinal, attackWordOrdinal, normalWordOrdinal), MaxWordLength)
  }

  /** The mission char compared upper-cased, and the number of chars of word that equal it upper-cased. */
  function MissionOccurrence(word: string, missionWord: string): (n: nat)
    requires |missionWord| > 0
    ensures n <= |word|
    ensures n == multiset(UpperAll(word))[ToUpper(missionWord[0])]
  {
    CountChar(UpperAll(word), ToUpper(missionWord[0]))
  }

  /** The ordinal MissionWordPriority scales: as for WordPriority, but the mission variant of each when the word holds the mission char. */
  function MissionOrdinal(flags: WordFlags, hasMission: bool, endWordFlag: WordFlags, attackWordFlag: WordFlags,
                          endMissionWordOrdinal: int32, endWordOrdinal: int32,
                          attackMissionWordOrdinal: int32, attackWordOrdinal: int32,
                          missionWordOrdinal: int32, normalWordOrdinal: int32): (r: int32)
    ensures r == WordOrdinal(flags, endWordFlag, attackWordFlag,
      if hasMission then endMissionWordOrdinal else endWordOrdinal,
      if hasMission then attackMissionWordOrdinal else attackWordOrdinal,
      if hasMission then missionWordOrdinal else normalWordOrdinal)
  {
    if AnyOf(flags, endWordFlag) then (if hasMission then endMissionWordOrdinal else endWordOrdinal)
    else if AnyOf(flags, attackWordFlag) then (if hasMission then attackMissionWordOrdinal else attackWordOrdinal)
    else if hasMission then missionWordOrdinal else normalWordOrdinal
  }

  /**
   * MissionWordPriorityFunc: the chosen ordinal times MaxWordPriorityLength
   * plus 256 per mission char, as a C# int; an empty missionWord makes
   * missionWord[0] throw.
   */
  function MissionWordPriority(word: string, flags: WordFlags, missionWord: string,
                               endWordFlag: WordFlags, attackWordFlag: WordFlags,
                               endMissionWordOrdinal: int32, endWordOrdinal: int32,
                               attackMissionWordOrdinal: int32, attackWordOrdinal: int32,
                               missionWordOrdinal: int32, normalWordOrdinal: int32): (r: Wrappers.Result<int32>)
    ensures |missionWord| == 0 <==> r == Wrappers.Failure(Wrappers.IndexOutOfRange)
    ensures r.Success? ==>
      var occurrence := MissionOccurrence(word, missionWord);
      var o := MissionOrdinal(flags, occurrence > 0, endWordFlag, attackWordFlag,
        endMissionWordOrdinal, endWordOrdinal, attackMissionWordOrdinal, attackWordOrdinal, missionWordOrdinal, normalWordOrdinal);
      InRange(o * MaxWordPriorityLength + occurrence * 256) ==> r.value == o * MaxWordPriorityLength + occurrence * 256
  {
    if |missionWord| == 0 then Wrappers.Failure(Wrappers.IndexOutOfRange)
    else
      var occurrence := MissionOccurrence(word, missionWord);
      var o := MissionOrdinal(flags, occurrence > 0, endWordFlag, attackWordFlag,
        endMissionWordOrdinal, endWordOrdinal, attackMissionWordOrdinal, attackWordOrdinal, missionWordOrdinal, normalWordOrdinal);
      Wrappers.Success(Wrap(o * MaxWordPriorityLength + occurrence * 256))
  }

  /** The ordinals GetWordTypePriority hands the functions: -1 for an unlisted category, else below the list length. */
  predicate SmallOrdinal(o: int)
  {
    -1 <= o < 256
  }

  /** The ORDER BY key of a word without a mission char: WordPriority plus LENGTH(word). */
  function WordRank(word: string, flags: WordFlags, endWordFlag: WordFlags, attackWordFlag: WordFlags,
                    endWordOrdinal: int32, attackWordOrdinal: int32, normalWordOrdinal: int32): int
  {
    WordPriority(flags, endWordFlag, attackWordFlag, endWordOrdinal, attackWordOrdinal, normalWordOrdinal) + |word|
  }

  /**
   * With small ordinals and words the database can hold, the ordinal
   * decides the order: the word whose chosen ordinal is higher always ranks
   * first, whatever the lengths; equal ordinals leave it to the length.
   */
  lemma WordRankOrdinalFirst(w1: string, f1: WordFlags, w2: string, f2: WordFlags,
                             endWordFlag: WordFlags, attackWordFlag: WordFlags,
                             endWordOrdinal: int32, attackWordOrdinal: int32, normalWordOrdinal: int32)
    requires 0 < |w1| <= MaxWordLength && 0 < |w2| <= MaxWordLength
    requires SmallOrdinal(endWordOrdinal) && SmallOrdinal(attackWordOrdinal) && SmallOrdinal(normalWordOrdinal)
    ensures
      var o1 := WordOrdinal(f1, endWordFlag, attackWordFlag, endWordOrdinal, attackWordOrdinal, normalWordOrdinal);
      var o2 := WordOrdinal(f2, endWordFlag, attackWordFlag, endWordOrdinal, attackWordOrdinal, normalWordOrdinal);
      var k1 := WordRank(w1, f1, endWordFlag, attackWordFlag, endWordOrdinal, attackWordOrdinal, normalWordOrdinal);
      var k2 := WordRank(w2, f2, endWordFlag, attackWordFlag, endWordOrdinal, attackWordOrdinal, normalWordOrdinal);
      && (o1 > o2 ==> k1 > k2)
      && (o1 == o2 ==> (k1 > k2 <==> |w1| > |w2|))
  {
    var o1 := WordOrdinal(f1, endWordFlag, attackWordFlag, endWordOrdinal, attackWordOrdinal, normalWordOrdinal);
    var o2 := WordOrdinal(f2, endWordFlag, attackWordFlag, endWordOrdinal, attackWordOrdinal, normalWordOrdinal);
    assert o1 > o2 ==> o1 * 256 >= o2 * 256 + 256;
  }

  /** The ORDER BY key of a word with a mission char: MissionWordPriority plus LENGTH(word). */
  function MissionRank(word: string, flags: WordFlags, missionWord: string,
                       endWordFlag: WordFlags, attackWordFlag: WordFlags,
                       endMissionWordOrdinal: int32, endWordOrdinal: int32,
                       attackMissionWordOrdinal: int32, attackWordOrdinal: int32,
                       missionWordOrdinal: int32, normalWordOrdinal: int32): int
    requires |missionWord| > 0
  {
    MissionWordPriority(word, flags, missionWord, endWordFlag, attackWordFlag,
      endMissionWordOrdinal, endWordOrdinal, attackMissionWordOrdinal, attackWordOrdinal,
      missionWordOrdinal, normalWordOrdinal).value + |word|
  }

  /** The six ordinals of MissionWordPriority. */
  datatype MissionOrdinals = MissionOrdinals(
    endMission: int32, end: int32, attackMission: int32, attack: int32, mission: int32, normal: int32)
  {
    predicate Small()
    {
      SmallOrdinal(endMission) && SmallOrdinal(end) && SmallOrdinal(attackMission)
      && SmallOrdinal(attack) && SmallOrdinal(mission) && SmallOrdinal(normal)
    }
  }

  /** The ordinal MissionWordPriority chooses for word. */
  function MissionOrdinalOf(word: string, flags: WordFlags, missionWord: string, endWordFlag: WordFlags, attackWordFlag: WordFlags, o: MissionOrdinals): int32
    requires |missionWord| > 0
  {
    MissionOrdinal(flags, MissionOccurrence(word, missionWord) > 0, endWordFlag, attackWordFlag,
      o.endMission, o.end, o.attackMission, o.attack, o.mission, o.normal)
  }

  /** The key of word, with the ordinals bundled. */
  function MissionRankOf(word: string, flags: WordFlags, missionWord: string, endWordFlag: WordFlags, attackWordFlag: WordFlags, o: MissionOrdinals): int
    requires |missionWord| > 0
  {
    MissionRank(word, flags, missionWord, endWordFlag, attackWordFlag, o.endMission, o.end, o.attackMission, o.attack, o.mission, o.normal)
  }

  /**
   * With small ordinals and words the database can hold, the ordinal
   * decides the order first, then the number of mission chars, and only
   * then the length: 256 per mission char outweighs any length difference,
   * and MaxWordPriorityLength per ordinal outweighs any mission count.
   */
  lemma MissionRankOrdinalFirst(w1: string, f1: WordFlags, w2: string, f2: WordFlags, missionWord: string,
                                endWordFlag: WordFlags, attackWordFlag: WordFlags, o: MissionOrdinals)
    requires 0 < |w1| <= MaxWordLength && 0 < |w2| <= MaxWordLength && |missionWord| > 0
    requires o.Small()
    ensures
      var o1 := MissionOrdinalOf(w1, f1, missionWord, endWordFlag, attackWordFlag, o);
      var o2 := MissionOrdinalOf(w2, f2, missionWord, endWordFlag, attackWordFlag, o);
      var n1 := MissionOccurrence(w1, missionWord);
      var n2 := MissionOccurrence(w2, missionWord);
      var k1 := MissionRankOf(w1, f1, missionWord, endWordFlag, attackWordFlag, o);
      var k2 := MissionRankOf(w2, f2, missionWord, endWordFlag, attackWordFlag, o);
      && (o1 > o2 ==> k1 > k2)
      && (o1 == o2 && n1 > n2 ==> k1 > k2)
      && (o1 == o2 && n1 == n2 ==> (k1 > k2 <==> |w1| > |w2|))
  {
    var o1 := MissionOrdinalOf(w1, f1, missionWord, endWordFlag, attackWordFlag, o);
    var o2 := MissionOrdinalOf(w2, f2, missionWord, endWordFlag, attackWordFlag, o);
    var n1 := MissionOccurrence(w1, missionWord);
    var n2 := MissionOccurrence(w2, missionWord);
    assert n1 <= |w1| && n2 <= |w2|;
    MissionRankValue(w1, f1, missionWord, endWordFlag, attackWordFlag, o);
    MissionRankValue(w2, f2, missionWord, endWordFlag, attackWordFlag, o);
    assert o1 > o2 ==> o1 * 131072 >= o2 * 131072 + 131072;
    assert n1 > n2 ==> n1 * 256 >= n2 * 256 + 256;
  }

  /** With small ordinals and a word the database can hold, the key is computed without overflow. */
  lemma MissionRankValue(word: string, flags: WordFlags, missionWord: string, endWordFlag: WordFlags, attackWordFlag: WordFlags, o: MissionOrdinals)
    requires 0 < |word| <= MaxWordLength && |missionWord| > 0
    requires o.Small()
    ensures MissionRankOf(word, flags, missionWord, endWordFlag, attackWordFlag, o)
      == MissionOrdinalOf(word, flags, missionWord, endWordFlag, attackWordFlag, o) * 131072 + MissionOccurrence(word, missionWord) * 256 + |word|
  {
    var k := MissionOrdinalOf(word, flags, missionWord, endWordFlag, attackWordFlag, o);
    var n := MissionOccurrence(word, missionWord);
    assert -1 <= k < 256 && 0 <= n <= 256;
    assert InRange(k * 131072 + n * 256);
  }
}
