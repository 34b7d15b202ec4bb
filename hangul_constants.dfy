// The jamo tables, the Unicode block bounds and the cluster tables that the
// Hangul code in AutoKkutuLib builds once in its static constructor.
module HangulConstants {
  import opened Text

  /** The 19 initial consonants (choseong), in syllable index order. */
  const InitialConsonantTable: string := "ㄱㄲㄴㄷㄸㄹㅁㅂㅃㅅㅆㅇㅈㅉㅊㅋㅌㅍㅎ"
  /** The 21 medial vowels (jungseong), in syllable index order. */
  const MedialTable: string := "ㅏㅐㅑㅒㅓㅔㅕㅖㅗㅘㅙㅚㅛㅜㅝㅞㅟㅠㅡㅢㅣ"
  /** The 28 finals (jongseong); index 0, the space, is "no final". */
  const FinalConsonantTable: string := " ㄱㄲㄳㄴㄵㄶㄷㄹㄺㄻㄼㄽㄾㄿㅀㅁㅂㅄㅅㅆㅇㅈㅊㅋㅌㅍㅎ"

  const HangulJamoChoseongOrigin := 0x1100
  const HangulJamoChoseongBound := 0x115F
  const HangulJamoJungseongOrigin := 0x1160
  const HangulJamoJungseongBound := 0x11A7
  const HangulJamoJongseongOrigin := 0x11A8
  const HangulJamoJongseongBound := 0x11FF
  const HangulCompatibilityJamoConsonantOrigin := 0x3131
  const HangulCompatibilityJamoConsonantBound := 0x314E
  const HangulCompatibilityJamoVowelOrigin := 0x314F
  const HangulCompatibilityJamoVowelBound := 0x3163
  const HangulSyllablesOrigin := 0xAC00
  /** The bound the code uses; the Unicode block itself ends at U+D7A3. */
  const HangulSyllablesBound := 0xD79F

  predicate IsHangulJamoChoseong(c: char)
  {
    HangulJamoChoseongOrigin <= c as int <= HangulJamoChoseongBound
  }

  predicate IsHangulJamoJungseong(c: char)
  {
    HangulJamoJungseongOrigin <= c as int <= HangulJamoJungseongBound
  }

  predicate IsHangulJamoJongseong(c: char)
  {
    HangulJamoJongseongOrigin <= c as int <= HangulJamoJongseongBound
  }

  predicate IsHangulCompatibilityJamoConsonant(c: char)
  {
    HangulCompatibilityJamoConsonantOrigin <= c as int <= HangulCompatibilityJamoConsonantBound
  }

  predicate IsHangulCompatibilityJamoVowel(c: char)
  {
    HangulCompatibilityJamoVowelOrigin <= c as int <= HangulCompatibilityJamoVowelBound
  }

  predicate IsHangulSyllable(c: char)
  {
    HangulSyllablesOrigin <= c as int <= HangulSyllablesBound
  }

  predicate IsHangul(c: char)
  {
    || IsHangulJamoChoseong(c) || IsHangulJamoJungseong(c) || IsHangulJamoJongseong(c)
    || IsHangulCompatibilityJamoConsonant(c) || IsHangulCompatibilityJamoVowel(c)
    || IsHangulSyllable(c)
  }

  /** Every position of s holds a larger char than the positions before it. */
  predicate StrictlyIncreasing(s: string)
  {
    forall i, j :: 0 <= i < j < |s| ==> s[i] < s[j]
  }

  /** A string whose neighbours increase is strictly increasing. */
  lemma AdjacentIncreasing(s: string)
    requires forall i :: 0 <= i < |s| - 1 ==> s[i] < s[i + 1]
    ensures StrictlyIncreasing(s)
  {
    forall i, j | 0 <= i < j < |s|
      ensures s[i] < s[j]
    {
      ChainIncreasing(s, i, j);
    }
  }

  lemma {:induction false} ChainIncreasing(s: string, i: int, j: int)
    requires forall i :: 0 <= i < |s| - 1 ==> s[i] < s[i + 1]
    requires 0 <= i < j < |s|
    ensures s[i] < s[j]
    decreases j - i
  {
    if i + 1 < j {
      ChainIncreasing(s, i + 1, j);
    }
  }

  /** The three jamo tables: their sizes, their order, and what they hold. */
  lemma InitialTableShape()
    ensures |InitialConsonantTable| == 19
    ensures StrictlyIncreasing(InitialConsonantTable)
    ensures forall i :: 0 <= i < 19 ==> IsHangulCompatibilityJamoConsonant(InitialConsonantTable[i])
  {
    AdjacentIncreasing(InitialConsonantTable);
  }

  lemma MedialTableShape()
    ensures |MedialTable| == 21
    ensures StrictlyIncreasing(MedialTable)
    ensures forall i :: 0 <= i < 21 ==> IsHangulCompatibilityJamoVowel(MedialTable[i])
  {
    AdjacentIncreasing(MedialTable);
  }

  lemma FinalTableShape()
    ensures |FinalConsonantTable| == 28
    ensures StrictlyIncreasing(FinalConsonantTable)
    ensures FinalConsonantTable[0] == ' '
    ensures forall i :: 1 <= i < 28 ==> IsHangulCompatibilityJamoConsonant(FinalConsonantTable[i])
  {
    AdjacentIncreasing(FinalConsonantTable);
  }

  /** In a table without repeats, IndexOf finds each entry at its own position. */
  lemma IndexOfIncreasing(s: string, k: int)
    requires StrictlyIncreasing(s)
    requires 0 <= k < |s|
    ensures IndexOf(s, s[k]) == k
  {
    var r := IndexOf(s, s[k]);
  }

  /** No jamo, and no syllable, is white space. */
  lemma HangulIsNotWhiteSpace(c: char)
    requires IsHangul(c)
    ensures !IsWhiteSpace(c)
  {
  }

  /** The last four syllables of the Unicode block are not treated as Hangul at all. */
  lemma LastFourSyllablesAreNotHangul(c: char)
    requires 0xD7A0 <= c as int <= 0xD7A3
    ensures !IsHangulSyllable(c) && !IsHangul(c)
  {
  }

  /**
   * The syllable formula both Merge implementations share:
   * U+AC00 + (initial * 21 + medial) * 28 + final, where each index is the
   * ordinal IndexOf in its table and so may be -1. Even then the value stays
   * well inside the char range, so Convert.ToChar never throws.
   */
  function ComposeSyllable(initial: char, medial: char, final: char): (r: char)
    ensures 43415 <= r as int <= 55203
    ensures r as int == HangulSyllablesOrigin
      + (IndexOf(InitialConsonantTable, initial) * 21 + IndexOf(MedialTable, medial)) * 28
      + IndexOf(FinalConsonantTable, final)
  {
    InitialTableShape();
    MedialTableShape();
    FinalTableShape();
    var n := HangulSyllablesOrigin
      + (IndexOf(InitialConsonantTable, initial) * 21 + IndexOf(MedialTable, medial)) * 28
      + IndexOf(FinalConsonantTable, final);
    n as char
  }

  /** The initial, medial and final table indices of a syllable, section 3.12 of the Unicode Standard. */
  function InitialIndex(c: char): int { (c as int - HangulSyllablesOrigin) / 588 }
  function MedialIndex(c: char): int { (c as int - HangulSyllablesOrigin) % 588 / 28 }
  function FinalIndex(c: char): int { (c as int - HangulSyllablesOrigin) % 588 % 28 }

  /** The three indices of a syllable in range are valid table positions. */
  lemma SyllableIndicesInRange(c: char)
    requires IsHangulSyllable(c)
    ensures 0 <= InitialIndex(c) < 19 && 0 <= MedialIndex(c) < 21 && 0 <= FinalIndex(c) < 28
    ensures (InitialIndex(c) * 21 + MedialIndex(c)) * 28 + FinalIndex(c) == c as int - HangulSyllablesOrigin
  {
    var d := c as int - HangulSyllablesOrigin;
    assert d == d / 588 * 588 + d % 588;
    assert d % 588 == d % 588 / 28 * 28 + d % 588 % 28;
  }

  /** Splitting a syllable into its table entries and composing them gives it back. */
  lemma ComposeSplitSyllable(c: char)
    requires IsHangulSyllable(c)
    ensures SyllableIndicesValid(c)
    ensures ComposeSyllable(InitialConsonantTable[InitialIndex(c)], MedialTable[MedialIndex(c)],
                            FinalConsonantTable[FinalIndex(c)]) == c
  {
    SyllableIndicesInRange(c);
    var i, m, f := InitialIndex(c), MedialIndex(c), FinalIndex(c);
    ComposeEntries(i, m, f);
    var r := ComposeSyllable(InitialConsonantTable[i], MedialTable[m], FinalConsonantTable[f]);
    assert r as int == c as int;
  }

  /** Composing the table entries at i, m, f uses exactly those indices. */
  lemma ComposeEntries(i: int, m: int, f: int)
    requires 0 <= i < 19 && 0 <= m < 21 && 0 <= f < 28
    ensures ComposeSyllable(InitialConsonantTable[i], MedialTable[m], FinalConsonantTable[f]) as int
            == HangulSyllablesOrigin + (i * 21 + m) * 28 + f
  {
    InitialTableShape();
    MedialTableShape();
    FinalTableShape();
    IndexOfIncreasing(InitialConsonantTable, i);
    IndexOfIncreasing(MedialTable, m);
    IndexOfIncreasing(FinalConsonantTable, f);
  }

  predicate SyllableIndicesValid(c: char)
  {
    0 <= InitialIndex(c) < 19 && 0 <= MedialIndex(c) < 21 && 0 <= FinalIndex(c) < 28
  }

  /**
   * Composing table entries i, m, f gives a char whose indices are i, m, f
   * again; it is in the range the code treats as syllables unless it is one
   * of the last four (initial ㅎ, medial ㅣ, final ㅋ ㅌ ㅍ ㅎ).
   */
  lemma SplitComposedSyllable(i: int, m: int, f: int)
    requires 0 <= i < 19 && 0 <= m < 21 && 0 <= f < 28
    ensures var c := ComposeSyllable(InitialConsonantTable[i], MedialTable[m], FinalConsonantTable[f]);
      InitialIndex(c) == i && MedialIndex(c) == m && FinalIndex(c) == f
      && (IsHangulSyllable(c) <==> !(i == 18 && m == 20 && f >= 24))
  {
    ComposeEntries(i, m, f);
    var d := (i * 21 + m) * 28 + f;
    assert d == i * 588 + m * 28 + f;
    assert d / 588 == i && d % 588 == m * 28 + f;
    assert (m * 28 + f) / 28 == m && (m * 28 + f) % 28 == f;
  }

  type ClusterComposition = map<char, map<char, char>>
  type ClusterDecomposition = map<char, seq<char>>

  /** The four tables the static constructor publishes. */
  datatype Tables = Tables(
    consonantComposition: ClusterComposition,
    consonantDecomposition: ClusterDecomposition,
    vowelComposition: ClusterComposition,
    vowelDecomposition: ClusterDecomposition)

  /** Every decomposition [a, b] of k composes back: a then b gives k. */
  predicate DecompositionsCompose(comp: ClusterComposition, dec: ClusterDecomposition)
  {
    forall k | k in dec ::
      |dec[k]| == 2 && dec[k][0] in comp && dec[k][1] in comp[dec[k][0]]
      && comp[dec[k][0]][dec[k][1]] == k
  }

  const ConsonantClusterCompositionTable: ClusterComposition := map[
    'ㅂ' := map['ㅅ' := 'ㅄ'],
    'ㅅ' := map['ㅅ' := 'ㅆ'],
    'ㅈ' := map['ㅈ' := 'ㅉ'],
    'ㄱ' := map['ㄱ' := 'ㄲ', 'ㅅ' := 'ㄳ'],
    'ㄴ' := map['ㅈ' := 'ㄵ', 'ㅎ' := 'ㄶ'],
    'ㄷ' := map['ㄷ' := 'ㄸ'],
    'ㄹ' := map['ㄱ' := 'ㄺ', 'ㅁ' := 'ㄻ', 'ㅂ' := 'ㄼ', 'ㅅ' := 'ㄽ', 'ㅌ' := 'ㄾ', 'ㅍ' := 'ㄿ', 'ㅎ' := 'ㅀ']]

  const ConsonantClusterDecompositionTable: ClusterDecomposition := map[
    'ㄳ' := ['ㄱ', 'ㅅ'], 'ㄵ' := ['ㄴ', 'ㅈ'], 'ㄶ' := ['ㄴ', 'ㅎ'],
    'ㄺ' := ['ㄹ', 'ㄱ'], 'ㄻ' := ['ㄹ', 'ㅁ'], 'ㄼ' := ['ㄹ', 'ㅂ'], 'ㄽ' := ['ㄹ', 'ㅅ'],
    'ㄾ' := ['ㄹ', 'ㅌ'], 'ㄿ' := ['ㄹ', 'ㅍ'], 'ㅀ' := ['ㄹ', 'ㅎ'], 'ㅄ' := ['ㅂ', 'ㅅ']]

  /** The second snapshot of the shared builder: the consonant entries plus the vowel ones. */
  const VowelClusterCompositionTable: ClusterComposition :=
    ConsonantClusterCompositionTable[
      'ㅗ' := map['ㅏ' := 'ㅘ', 'ㅐ' := 'ㅙ', 'ㅣ' := 'ㅚ']][
      'ㅜ' := map['ㅓ' := 'ㅝ', 'ㅔ' := 'ㅞ', 'ㅣ' := 'ㅟ']][
      'ㅡ' := map['ㅣ' := 'ㅢ']]

  const VowelClusterDecompositionTable: ClusterDecomposition :=
    ConsonantClusterDecompositionTable[
      'ㅘ' := ['ㅗ', 'ㅏ']]['ㅙ' := ['ㅗ', 'ㅐ']]['ㅚ' := ['ㅗ', 'ㅣ']][
      'ㅝ' := ['ㅜ', 'ㅓ']]['ㅞ' := ['ㅜ', 'ㅔ']]['ㅟ' := ['ㅜ', 'ㅣ']]['ㅢ' := ['ㅡ', 'ㅣ']]

  /**
   * The static constructor. It fills one composition builder and one
   * decomposition builder, snapshots them as the consonant tables, then keeps
   * writing the vowel entries into the same two builders and snapshots them
   * again as the vowel tables. Each inner dictionary is a map display (the
   * CreateImmDict helper). The builders vcC and vcDec it creates for the
   * vowels are never written to; they are returned so that the contract can
   * say so.
   */
  method StaticConstructor() returns (t: Tables, vcC: ClusterComposition, vcDec: ClusterDecomposition)
    ensures t.consonantComposition == ConsonantClusterCompositionTable
    ensures t.consonantDecomposition == ConsonantClusterDecompositionTable
    ensures t.vowelComposition == VowelClusterCompositionTable
    ensures t.vowelDecomposition == VowelClusterDecompositionTable
    ensures vcC == map[] && vcDec == map[]
  {
    var ccC: ClusterComposition := map[];
    ccC := ccC['ㅂ' := map['ㅅ' := 'ㅄ']];
    ccC := ccC['ㅅ' := map['ㅅ' := 'ㅆ']];
    ccC := ccC['ㅈ' := map['ㅈ' := 'ㅉ']];
    ccC := ccC['ㄱ' := map['ㄱ' := 'ㄲ', 'ㅅ' := 'ㄳ']];
    ccC := ccC['ㄴ' := map['ㅈ' := 'ㄵ', 'ㅎ' := 'ㄶ']];
    ccC := ccC['ㄷ' := map['ㄷ' := 'ㄸ']];
    ccC := ccC['ㄹ' := map['ㄱ' := 'ㄺ', 'ㅁ' := 'ㄻ', 'ㅂ' := 'ㄼ', 'ㅅ' := 'ㄽ', 'ㅌ' := 'ㄾ', 'ㅍ' := 'ㄿ', 'ㅎ' := 'ㅀ']];
    var consonantComposition := ccC;

    var ccDec: ClusterDecomposition := map[];
    ccDec := ccDec['ㄳ' := ['ㄱ', 'ㅅ']];
    ccDec := ccDec['ㄵ' := ['ㄴ', 'ㅈ']];
    ccDec := ccDec['ㄶ' := ['ㄴ', 'ㅎ']];
    ccDec := ccDec['ㄺ' := ['ㄹ', 'ㄱ']];
    ccDec := ccDec['ㄻ' := ['ㄹ', 'ㅁ']];
    ccDec := ccDec['ㄼ' := ['ㄹ', 'ㅂ']];
    ccDec := ccDec['ㄽ' := ['ㄹ', 'ㅅ']];
    ccDec := ccDec['ㄾ' := ['ㄹ', 'ㅌ']];
    ccDec := ccDec['ㄿ' := ['ㄹ', 'ㅍ']];
    ccDec := ccDec['ㅀ' := ['ㄹ', 'ㅎ']];
    ccDec := ccDec['ㅄ' := ['ㅂ', 'ㅅ']];
    var consonantDecomposition := ccDec;

    vcC := map[];
    ccC := ccC['ㅗ' := map['ㅏ' := 'ㅘ', 'ㅐ' := 'ㅙ', 'ㅣ' := 'ㅚ']];
    ccC := ccC['ㅜ' := map['ㅓ' := 'ㅝ', 'ㅔ' := 'ㅞ', 'ㅣ' := 'ㅟ']];
    ccC := ccC['ㅡ' := map['ㅣ' := 'ㅢ']];
    var vowelComposition := ccC;

    vcDec := map[];
    ccDec := ccDec['ㅘ' := ['ㅗ', 'ㅏ']];
    ccDec := ccDec['ㅙ' := ['ㅗ', 'ㅐ']];
    ccDec := ccDec['ㅚ' := ['ㅗ', 'ㅣ']];
    ccDec := ccDec['ㅝ' := ['ㅜ', 'ㅓ']];
    ccDec := ccDec['ㅞ' := ['ㅜ', 'ㅔ']];
    ccDec := ccDec['ㅟ' := ['ㅜ', 'ㅣ']];
    ccDec := ccDec['ㅢ' := ['ㅡ', 'ㅣ']];

    t := Tables(consonantComposition, consonantDecomposition, vowelComposition, ccDec);
  }

  /** Every consonant decomposition [a, b] of k composes back to k. */
  lemma ConsonantDecompositionsCompose()
    ensures DecompositionsCompose(ConsonantClusterCompositionTable, ConsonantClusterDecompositionTable)
  {
    var comp, dec := ConsonantClusterCompositionTable, ConsonantClusterDecompositionTable;
    forall k | k in dec
      ensures |dec[k]| == 2 && dec[k][0] in comp && dec[k][1] in comp[dec[k][0]] && comp[dec[k][0]][dec[k][1]] == k
    {
      ComposesBackAt(comp, dec, k);
    }
  }

  lemma ComposesBackAt(comp: ClusterComposition, dec: ClusterDecomposition, k: char)
    requires comp == ConsonantClusterCompositionTable && dec == ConsonantClusterDecompositionTable
    requires k in dec
    ensures |dec[k]| == 2 && dec[k][0] in comp && dec[k][1] in comp[dec[k][0]] && comp[dec[k][0]][dec[k][1]] == k
  {
    if k == 'ㄳ' {
    } else if k == 'ㄵ' {
    } else if k == 'ㄶ' {
    } else if k == 'ㄺ' {
    } else if k == 'ㄻ' {
    } else if k == 'ㄼ' {
    } else if k == 'ㄽ' {
    } else if k == 'ㄾ' {
    } else if k == 'ㄿ' {
    } else if k == 'ㅀ' {
    } else {
      assert k == 'ㅄ';
    }
  }

  /** The same holds for the vowel tables, which also carry every consonant entry. */
  lemma VowelDecompositionsCompose()
    ensures DecompositionsCompose(VowelClusterCompositionTable, VowelClusterDecompositionTable)
  {
    var comp, dec := VowelClusterCompositionTable, VowelClusterDecompositionTable;
    forall k | k in dec
      ensures |dec[k]| == 2 && dec[k][0] in comp && dec[k][1] in comp[dec[k][0]]
              && comp[dec[k][0]][dec[k][1]] == k
    {
      if k in ConsonantClusterDecompositionTable {
        ConsonantEntryComposesInVowelTable(k);
      } else {
        VowelEntryComposes(k);
      }
    }
  }

  lemma ConsonantEntryComposesInVowelTable(k: char)
    requires k in ConsonantClusterDecompositionTable
    ensures var dec, comp := VowelClusterDecompositionTable, VowelClusterCompositionTable;
      k in dec && |dec[k]| == 2 && dec[k][0] in comp && dec[k][1] in comp[dec[k][0]]
      && comp[dec[k][0]][dec[k][1]] == k
  {
    ConsonantDecompositionsCompose();
    VowelCompositionExtendsConsonants();
    VowelDecompositionExtendsConsonants();
    var pair := ConsonantClusterDecompositionTable[k];
    assert VowelClusterCompositionTable[pair[0]] == ConsonantClusterCompositionTable[pair[0]];
  }

  lemma VowelEntryComposes(k: char)
    requires k in VowelClusterDecompositionTable && k !in ConsonantClusterDecompositionTable
    ensures var dec, comp := VowelClusterDecompositionTable, VowelClusterCompositionTable;
      |dec[k]| == 2 && dec[k][0] in comp && dec[k][1] in comp[dec[k][0]]
      && comp[dec[k][0]][dec[k][1]] == k
  {
    if k == 'ㅘ' {
    } else if k == 'ㅙ' {
    } else if k == 'ㅚ' {
    } else if k == 'ㅝ' {
    } else if k == 'ㅞ' {
    } else if k == 'ㅟ' {
    } else {
      assert k == 'ㅢ';
    }
  }

  /** The vowel writes happen after the consonant snapshot, so no vowel is a consonant key. */
  lemma ConsonantTablesHoldOnlyConsonants()
    ensures ConsonantClusterCompositionTable.Keys == {'ㅂ', 'ㅅ', 'ㅈ', 'ㄱ', 'ㄴ', 'ㄷ', 'ㄹ'}
    ensures forall k | k in ConsonantClusterCompositionTable :: IsHangulCompatibilityJamoConsonant(k)
    ensures forall k | k in ConsonantClusterDecompositionTable :: IsHangulCompatibilityJamoConsonant(k)
  {
  }

  /** The second composition snapshot adds exactly the three vowel keys. */
  lemma VowelCompositionKeys()
    ensures VowelClusterCompositionTable.Keys == ConsonantClusterCompositionTable.Keys + {'ㅗ', 'ㅜ', 'ㅡ'}
  {
  }

  /** ... and keeps every consonant entry unchanged. */
  lemma VowelCompositionExtendsConsonants()
    ensures forall k | k in ConsonantClusterCompositionTable ::
              VowelClusterCompositionTable[k] == ConsonantClusterCompositionTable[k]
  {
  }

  /** The second decomposition snapshot keeps every consonant entry unchanged ... */
  lemma VowelDecompositionExtendsConsonants()
    ensures forall k | k in ConsonantClusterDecompositionTable ::
              k in VowelClusterDecompositionTable
              && VowelClusterDecompositionTable[k] == ConsonantClusterDecompositionTable[k]
  {
  }

  /** ... and adds only vowels. */
  lemma VowelDecompositionAddsVowels()
    ensures forall k | k in VowelClusterDecompositionTable && k !in ConsonantClusterDecompositionTable ::
              IsHangulCompatibilityJamoVowel(k)
  {
  }

  /**
   * A pair of different consonants composes into a cluster that also
   * decomposes; a doubled consonant (ㄲ, ㄸ, ㅆ, ㅉ) composes but has no
   * decomposition entry.
   */
  lemma OnlyMixedClustersDecompose()
    ensures forall a, b | a in ConsonantClusterCompositionTable && b in ConsonantClusterCompositionTable[a] ::
              (ConsonantClusterCompositionTable[a][b] in ConsonantClusterDecompositionTable <==> a != b)
  {
  }
}
