// The older Hangul helpers of the desktop application: HangulSplitted with
// nullable slots, syllable merge and split, consonant clusters, and
// AppendChar, which types one more jamo onto a string.
module HangulProcessing {
  import opened Wrappers
  import opened Text
  import opened HangulConstants

  datatype JamoType = Initial | Medial | Final

  /** A split character; a missing initial or medial is None, a missing final is ' '. */
  datatype HangulSplitted = HangulSplitted(
    isHangul: bool,
    initialConsonant: Option<char>,
    medial: Option<char>,
    finalConsonant: char)
  {
    predicate IsFull()
    {
      initialConsonant.Some? && medial.Some?
    }
  }

  /** Merge(initial, medial, final): without a medial there is nothing to compose. */
  function MergeJamo(initial: char, medial: Option<char>, final: char): (r: char)
    ensures medial.None? ==> r == initial
    ensures medial.Some? ==> 43415 <= r as int <= 55203
  {
    if medial.None? then initial else ComposeSyllable(initial, medial.value, final)
  }

  /** Merge(HangulSplitted): throws without an initial, and yields the final of a non-Hangul split. */
  function Merge(s: HangulSplitted): (r: Result<char>)
    ensures r.Failure? <==> s.initialConsonant.None?
    ensures r.Failure? ==> r.error == Argument
    ensures r.Success? && !s.isHangul ==> r.value == s.finalConsonant
    ensures r.Success? && s.isHangul ==> r.value == MergeJamo(s.initialConsonant.value, s.medial, s.finalConsonant)
  {
    if s.initialConsonant.None? then Failure(Argument)
    else if !s.isHangul then Success(s.finalConsonant)
    else Success(MergeJamo(s.initialConsonant.value, s.medial, s.finalConsonant))
  }

  /** SplitConsonants: a syllable into its three table entries, a jamo into its own slot. */
  function SplitConsonants(c: char): (s: HangulSplitted)
    ensures s.isHangul <==> IsHangul(c)
    ensures IsHangulSyllable(c) ==> SyllableIndicesValid(c)
    ensures IsHangulSyllable(c) ==>
      s == HangulSplitted(true, Some(InitialConsonantTable[InitialIndex(c)]),
                          Some(MedialTable[MedialIndex(c)]), FinalConsonantTable[FinalIndex(c)])
    ensures !IsHangul(c) ==> s == HangulSplitted(false, Some(c), None, ' ')
  {
    if IsHangulSyllable(c) then
      SyllableIndicesInRange(c);
      HangulSplitted(true, Some(InitialConsonantTable[InitialIndex(c)]),
                     Some(MedialTable[MedialIndex(c)]), FinalConsonantTable[FinalIndex(c)])
    else if IsHangulCompatibilityJamoConsonant(c) || IsHangulJamoChoseong(c) then
      HangulSplitted(true, Some(c), None, ' ')
    else if IsHangulCompatibilityJamoVowel(c) || IsHangulJamoJungseong(c) then
      HangulSplitted(true, None, Some(c), ' ')
    else if IsHangulJamoJongseong(c) then
      HangulSplitted(true, None, None, c)
    else
      HangulSplitted(false, Some(c), None, ' ')
  }

  /**
   * Merge after SplitConsonants: syllables and initial jamo come back, a lone
   * medial or final jamo has no initial and throws, and any other char comes
   * back as the default final ' ' rather than as itself.
   */
  lemma MergeSplitConsonants(c: char)
    ensures IsHangulSyllable(c) || IsHangulCompatibilityJamoConsonant(c) || IsHangulJamoChoseong(c)
            ==> Merge(SplitConsonants(c)) == Success(c)
    ensures !IsHangulSyllable(c) && !IsHangulCompatibilityJamoConsonant(c) && !IsHangulJamoChoseong(c)
            && (IsHangulCompatibilityJamoVowel(c) || IsHangulJamoJungseong(c) || IsHangulJamoJongseong(c))
            ==> Merge(SplitConsonants(c)) == Failure(Argument)
    ensures !IsHangul(c) ==> Merge(SplitConsonants(c)) == Success(' ')
  {
    if IsHangulSyllable(c) {
      ComposeSplitSyllable(c);
    }
  }

  /** HasFinalConsonant: a syllable with a final, or a final jamo. */
  function HasFinalConsonant(c: char): (b: bool)
    ensures b ==> IsHangul(c)
    ensures IsHangulJamoJongseong(c) ==> b
    ensures IsHangulSyllable(c) ==> (b <==> (c as int - HangulSyllablesOrigin) % 28 != 0)
  {
    (IsHangulSyllable(c) && (c as int - HangulSyllablesOrigin) % 588 % 28 > 0) || IsHangulJamoJongseong(c)
  }

  /** HasFinalConsonant agrees with the final slot SplitConsonants fills. */
  lemma HasFinalConsonantMatchesSplit(c: char)
    ensures HasFinalConsonant(c) <==> SplitConsonants(c).isHangul && !IsWhiteSpace(SplitConsonants(c).finalConsonant)
  {
    if IsHangulSyllable(c) {
      FinalTableShape();
      SyllableIndicesInRange(c);
    }
  }

  /** ExtractInitialConsonant: the initial of a syllable; every other char unchanged. */
  function ExtractInitialConsonant(c: char): (r: char)
    ensures IsHangulSyllable(c) ==> Some(r) == SplitConsonants(c).initialConsonant
    ensures !IsHangulSyllable(c) ==> r == c
  {
    if IsHangulSyllable(c) then
      SyllableIndicesInRange(c);
      InitialConsonantTable[(c as int - HangulSyllablesOrigin) / 588]
    else c
  }

  /** The string overload maps every char. */
  function ExtractInitialConsonants(s: string): (r: string)
    ensures |r| == |s|
    ensures forall i :: 0 <= i < |s| ==> r[i] == ExtractInitialConsonant(s[i])
  {
    if |s| == 0 then [] else [ExtractInitialConsonant(s[0])] + ExtractInitialConsonants(s[1..])
  }

  /** The consonant cluster table of this file. */
  const ConsonantClusterTable: ClusterComposition := map[
    'ㄱ' := map['ㄱ' := 'ㄲ', 'ㅅ' := 'ㄳ'],
    'ㄴ' := map['ㅈ' := 'ㄵ', 'ㅎ' := 'ㄶ'],
    'ㄷ' := map['ㄷ' := 'ㄸ'],
    'ㄹ' := map['ㄱ' := 'ㄺ', 'ㅁ' := 'ㄻ', 'ㅂ' := 'ㄼ', 'ㅅ' := 'ㄽ', 'ㅌ' := 'ㄾ', 'ㅍ' := 'ㄿ', 'ㅎ' := 'ㅀ'],
    'ㅂ' := map['ㅂ' := 'ㅃ', 'ㅅ' := 'ㅄ'],
    'ㅅ' := map['ㅅ' := 'ㅆ'],
    'ㅈ' := map['ㅈ' := 'ㅉ']]

  /** Its inverse, for the clusters of two different consonants. */
  const InverseConsonantClusterTable: ClusterDecomposition := map[
    'ㄳ' := ['ㄱ', 'ㅅ'], 'ㄵ' := ['ㄴ', 'ㅈ'], 'ㄶ' := ['ㄴ', 'ㅎ'],
    'ㄺ' := ['ㄹ', 'ㄱ'], 'ㄻ' := ['ㄹ', 'ㅁ'], 'ㄼ' := ['ㄹ', 'ㅂ'], 'ㄽ' := ['ㄹ', 'ㅅ'],
    'ㄾ' := ['ㄹ', 'ㅌ'], 'ㄿ' := ['ㄹ', 'ㅍ'], 'ㅀ' := ['ㄹ', 'ㅎ'], 'ㅄ' := ['ㅂ', 'ㅅ']]

  /**
   * These tables and the library's consonant tables differ in one entry:
   * only this one composes ㅂ + ㅂ into ㅃ.
   */
  lemma ClusterTablesAgainstLibrary()
    ensures InverseConsonantClusterTable == ConsonantClusterDecompositionTable
    ensures ConsonantClusterTable.Keys == ConsonantClusterCompositionTable.Keys
    ensures forall k | k in ConsonantClusterTable && k != 'ㅂ' ::
              ConsonantClusterTable[k] == ConsonantClusterCompositionTable[k]
    ensures ConsonantClusterTable['ㅂ'] == ConsonantClusterCompositionTable['ㅂ']['ㅂ' := 'ㅃ']
    ensures 'ㅂ' !in ConsonantClusterCompositionTable['ㅂ']
  {
    InverseClusterTableAgrees();
    ClusterKeysAgree();
    ClusterEntriesAgree();
    DoubledBieupEntry();
  }

  lemma InverseClusterTableAgrees()
    ensures InverseConsonantClusterTable == ConsonantClusterDecompositionTable
  {
  }

  lemma ClusterKeysAgree()
    ensures ConsonantClusterTable.Keys == ConsonantClusterCompositionTable.Keys
  {
  }

  lemma ClusterEntriesAgree()
    ensures forall k | k in ConsonantClusterTable && k != 'ㅂ' ::
              ConsonantClusterTable[k] == ConsonantClusterCompositionTable[k]
  {
    assert ConsonantClusterTable.Keys == {'ㄱ', 'ㄴ', 'ㄷ', 'ㄹ', 'ㅂ', 'ㅅ', 'ㅈ'};
  }

  lemma DoubledBieupEntry()
    ensures ConsonantClusterTable['ㅂ'] == ConsonantClusterCompositionTable['ㅂ']['ㅂ' := 'ㅃ']
    ensures 'ㅂ' !in ConsonantClusterCompositionTable['ㅂ']
  {
  }

  /** One step of the fold: the cluster of a and b, if the table has one. */
  function ClusterStep(a: char, b: char): Option<char>
  {
    if a in ConsonantClusterTable && b in ConsonantClusterTable[a] then Some(ConsonantClusterTable[a][b])
    else None
  }

  /** Folding rest onto first through the table; an unsupported pair throws. */
  function FoldCluster(first: char, rest: seq<char>): Result<char>
  {
    if |rest| == 0 then Success(first)
    else
      match FoldCluster(first, rest[..|rest| - 1])
      case Failure(e) => Failure(e)
      case Success(c) =>
        match ClusterStep(c, rest[|rest| - 1])
        case Some(k) => Success(k)
        case None => Failure(InvalidOperation)
  }

  /** The chars of s that are not white space, in order (the LINQ Where). */
  function NonWhiteSpace(s: seq<char>): (r: seq<char>)
    ensures |r| <= |s|
    ensures forall i :: 0 <= i < |r| ==> !IsWhiteSpace(r[i])
    ensures forall c :: c in r <==> c in s && !IsWhiteSpace(c)
  {
    if |s| == 0 then []
    else (if IsWhiteSpace(s[0]) then [] else [s[0]]) + NonWhiteSpace(s[1..])
  }

  /** What MergeConsonantCluster returns or throws. */
  function MergedCluster(consonants: seq<char>): Result<char>
  {
    if |consonants| == 0 then Success(' ')
    else if |consonants| == 1 then Success(consonants[0])
    else
      var filtered := NonWhiteSpace(consonants);
      if |filtered| == 0 then Failure(IndexOutOfRange)
      else FoldCluster(filtered[0], filtered[1..])
  }

  /** MergeConsonantCluster: the foreach that folds the filtered consonants. */
  method MergeConsonantCluster(consonants: seq<char>) returns (r: Result<char>)
    ensures |consonants| == 0 ==> r == Success(' ')
    ensures |consonants| == 1 ==> r == Success(consonants[0])
    ensures (|consonants| >= 2 && forall i :: 0 <= i < |consonants| ==> IsWhiteSpace(consonants[i]))
            ==> r == Failure(IndexOutOfRange)
    ensures r == MergedCluster(consonants)
  {
    if |consonants| == 0 {
      return Success(' ');
    }
    if |consonants| == 1 {
      return Success(consonants[0]);
    }
    var filtered := NonWhiteSpace(consonants);
    if |filtered| == 0 {
      return Failure(IndexOutOfRange);
    }
    var ch := filtered[0];
    var rest := filtered[1..];
    var i := 0;
    while i < |rest|
      invariant 0 <= i <= |rest|
      invariant FoldCluster(filtered[0], rest[..i]) == Success(ch)
    {
      var step := ClusterStep(ch, rest[i]);
      FoldStep(filtered[0], rest, i, ch);
      if step.None? {
        FoldFailureIsFinal(filtered[0], rest, i + 1);
        return Failure(InvalidOperation);
      }
      ch := step.value;
      i := i + 1;
    }
    assert rest[..i] == rest;
    r := Success(ch);
  }

  /** One more char of the fold, after a prefix that folded to ch. */
  lemma FoldStep(first: char, rest: seq<char>, i: int, ch: char)
    requires 0 <= i < |rest|
    requires FoldCluster(first, rest[..i]) == Success(ch)
    ensures ClusterStep(ch, rest[i]).None? ==> FoldCluster(first, rest[..i + 1]) == Failure(InvalidOperation)
    ensures ClusterStep(ch, rest[i]).Some? ==> FoldCluster(first, rest[..i + 1]) == Success(ClusterStep(ch, rest[i]).value)
  {
    assert rest[..i + 1][..i] == rest[..i];
  }

  /** Once a prefix of the fold throws, the whole fold throws the same. */
  lemma {:induction false} FoldFailureIsFinal(first: char, rest: seq<char>, n: nat)
    requires n <= |rest|
    requires FoldCluster(first, rest[..n]).Failure?
    ensures FoldCluster(first, rest) == FoldCluster(first, rest[..n])
    decreases |rest| - n
  {
    if n < |rest| {
      assert rest[..n + 1][..n] == rest[..n];
      FoldFailureIsFinal(first, rest, n + 1);
    } else {
      assert rest[..n] == rest;
    }
  }

  /** SplitConsonantCluster: the table's pieces, or the char alone. */
  function SplitConsonantCluster(c: char): (r: seq<char>)
    ensures |r| >= 1
    ensures c !in InverseConsonantClusterTable ==> r == [c]
  {
    if c in InverseConsonantClusterTable then InverseConsonantClusterTable[c] else [c]
  }

  /** Every cluster the inverse table splits merges back into itself. */
  lemma MergeSplitCluster(k: char)
    requires k in InverseConsonantClusterTable
    ensures MergedCluster(SplitConsonantCluster(k)) == Success(k)
  {
    var pair := InverseConsonantClusterTable[k];
    LegacyDecompositionsCompose();
    InversePiecesNotBlank();
    MergePair(pair[0], pair[1]);
    assert SplitConsonantCluster(k) == [pair[0], pair[1]];
  }

  /** Every piece of the inverse table is a consonant, not white space. */
  lemma InversePiecesNotBlank()
    ensures forall k | k in InverseConsonantClusterTable ::
              |InverseConsonantClusterTable[k]| == 2
              && !IsWhiteSpace(InverseConsonantClusterTable[k][0]) && !IsWhiteSpace(InverseConsonantClusterTable[k][1])
  {
  }

  /** Two non-blank consonants merge to their table cluster. */
  lemma MergePair(a: char, b: char)
    requires !IsWhiteSpace(a) && !IsWhiteSpace(b)
    ensures ClusterStep(a, b).Some? ==> MergedCluster([a, b]) == Success(ClusterStep(a, b).value)
  {
    var pair := [a, b];
    assert NonWhiteSpace(pair) == pair by {
      assert NonWhiteSpace(pair[1..]) == [pair[1]] + NonWhiteSpace(pair[2..]);
    }
    assert pair[1..] == [b];
    assert [b][..0] == [];
    assert FoldCluster(a, []) == Success(a);
    assert ClusterStep(a, b).Some? ==> FoldCluster(a, [b]) == Success(ClusterStep(a, b).value);
  }

  /** HangulSplitted.Serialize: initial, medial, then the pieces of a non-blank final. */
  method Serialize(s: HangulSplitted) returns (r: seq<(JamoType, char)>)
    ensures r == Serialized(s)
  {
    r := [];
    if s.initialConsonant.Some? {
      r := r + [(Initial, s.initialConsonant.value)];
    }
    if s.medial.Some? {
      r := r + [(Medial, s.medial.value)];
    }
    if !IsWhiteSpace(s.finalConsonant) {
      r := AppendFinals(r, SplitConsonantCluster(s.finalConsonant));
    }
  }

  /** The loop of Serialize over the pieces of the final. */
  method AppendFinals(r: seq<(JamoType, char)>, pieces: seq<char>) returns (r': seq<(JamoType, char)>)
    ensures r' == r + Finals(pieces)
  {
    r' := r;
    for i := 0 to |pieces|
      invariant r' == r + Finals(pieces)[..i]
    {
      r' := r' + [(Final, pieces[i])];
    }
    assert Finals(pieces)[..|pieces|] == Finals(pieces);
  }

  /** What Serialize returns. */
  function Serialized(s: HangulSplitted): seq<(JamoType, char)>
  {
    (if s.initialConsonant.Some? then [(Initial, s.initialConsonant.value)] else [])
    + (if s.medial.Some? then [(Medial, s.medial.value)] else [])
    + (if IsWhiteSpace(s.finalConsonant) then [] else FinalPieces(s.finalConsonant))
  }

  /** The pieces of a final, each tagged Final. */
  function FinalPieces(f: char): (r: seq<(JamoType, char)>)
    ensures |r| == |SplitConsonantCluster(f)|
    ensures forall i :: 0 <= i < |r| ==> r[i] == (Final, SplitConsonantCluster(f)[i])
  {
    Finals(SplitConsonantCluster(f))
  }

  /** Each piece tagged Final. */
  function Finals(pieces: seq<char>): (r: seq<(JamoType, char)>)
    ensures |r| == |pieces|
    ensures forall i :: 0 <= i < |r| ==> r[i] == (Final, pieces[i])
  {
    seq(|pieces|, i requires 0 <= i < |pieces| => (Final, pieces[i]))
  }

  /** AppendChar: types one more jamo of the given kind onto str. */
  function AppendChar(str: string, t: JamoType, ch: char): (r: Result<string>)
    ensures (|str| == 0 || !IsHangul(str[|str| - 1])) ==> r == Success(str + [ch])
    ensures r.Success? ==> |r.value| == |str| || |r.value| == |str| + 1
  {
    if |str| == 0 || !SplitConsonants(str[|str| - 1]).isHangul then Success(str + [ch])
    else
      var last := SplitConsonants(str[|str| - 1]);
      var init := str[..|str| - 1];
      match t
      case Initial => AppendInitial(str, init, last, ch)
      case Medial => AppendMedial(str, init, last, ch)
      case Final => AppendFinal(init, last, ch)
  }

  /** An initial fills a missing initial; otherwise it replaces an unfinished char or follows a full one. */
  function AppendInitial(str: string, init: string, last: HangulSplitted, ch: char): Result<string>
  {
    var res := if last.initialConsonant.None? then Merge(last.(initialConsonant := Some(ch))) else Success(ch);
    if res.Failure? then Failure(res.error)
    else Success((if last.IsFull() then str else init) + [res.value])
  }

  /** A medial fills a missing medial; otherwise it replaces an unfinished char or follows a full one. */
  function AppendMedial(str: string, init: string, last: HangulSplitted, ch: char): Result<string>
  {
    var res := if last.medial.None? then Merge(last.(medial := Some(ch))) else Success(ch);
    if res.Failure? then Failure(res.error)
    else Success((if last.IsFull() then str else init) + [res.value])
  }

  /** A final fills an empty final slot, or clusters with the final already there. */
  function AppendFinal(init: string, last: HangulSplitted, ch: char): Result<string>
  {
    var res :=
      if IsWhiteSpace(last.finalConsonant) then Merge(last.(finalConsonant := ch))
      else
        match MergedCluster([last.finalConsonant, ch])
        case Failure(e) => Failure(e)
        case Success(k) => Merge(last.(finalConsonant := k));
    if res.Failure? then Failure(res.error) else Success(init + [res.value])
  }

  /** AppendChar applied to each piece in turn. */
  function AppendAll(str: string, pieces: seq<(JamoType, char)>): Result<string>
    decreases |pieces|
  {
    if |pieces| == 0 then Success(str)
    else
      match AppendChar(str, pieces[0].0, pieces[0].1)
      case Failure(e) => Failure(e)
      case Success(next) => AppendAll(next, pieces[1..])
  }

  /** The legacy tables compose every decomposition back. */
  lemma LegacyDecompositionsCompose()
    ensures DecompositionsCompose(ConsonantClusterTable, InverseConsonantClusterTable)
  {
    ClusterTablesAgainstLibrary();
    ConsonantDecompositionsCompose();
    var comp, dec := ConsonantClusterTable, InverseConsonantClusterTable;
    forall k | k in dec
      ensures |dec[k]| == 2 && dec[k][0] in comp && dec[k][1] in comp[dec[k][0]] && comp[dec[k][0]][dec[k][1]] == k
    {
      assert dec[k] == ConsonantClusterDecompositionTable[k];
    }
  }

  /** The first piece of every split final is itself a final, at a smaller index. */
  lemma FirstPieceIsSmallerFinal(f: int) returns (fa: int)
    requires 0 < f < 28 && FinalConsonantTable[f] in InverseConsonantClusterTable
    ensures 0 < fa < f
    ensures InverseConsonantClusterTable[FinalConsonantTable[f]][0] == FinalConsonantTable[fa]
  {
    fa := if f <= 3 then 1 else if f <= 6 then 4 else if f <= 15 then 8 else 17;
  }

  /** Splitting a composed syllable in the treated range gives back its three entries. */
  lemma SplitComposed(i: int, m: int, f: int)
    requires 0 <= i < 19 && 0 <= m < 21 && 0 <= f < 28
    requires !(i == 18 && m == 20 && f >= 24)
    ensures SplitConsonants(ComposeSyllable(InitialConsonantTable[i], MedialTable[m], FinalConsonantTable[f]))
            == HangulSplitted(true, Some(InitialConsonantTable[i]), Some(MedialTable[m]), FinalConsonantTable[f])
  {
    SplitComposedSyllable(i, m, f);
  }

  /** An initial after a finished char starts a new char. */
  lemma TypeInitial(str: string, i: int)
    requires 0 <= i < 19
    requires |str| == 0 || !IsHangul(str[|str| - 1]) || IsHangulSyllable(str[|str| - 1])
    ensures AppendChar(str, Initial, InitialConsonantTable[i]) == Success(str + [InitialConsonantTable[i]])
  {
    InitialTableShape();
  }

  /** A medial after a lone initial composes the syllable without a final. */
  lemma TypeMedial(str: string, i: int, m: int)
    requires 0 <= i < 19 && 0 <= m < 21
    ensures AppendChar(str + [InitialConsonantTable[i]], Medial, MedialTable[m])
            == Success(str + [ComposeSyllable(InitialConsonantTable[i], MedialTable[m], FinalConsonantTable[0])])
  {
    InitialTableShape();
    assert FinalConsonantTable[0] == ' ';
    MedialAfterConsonant(str, InitialConsonantTable[i], MedialTable[m]);
  }

  /** A medial after a lone compatibility consonant merges the two. */
  lemma MedialAfterConsonant(str: string, ini: char, med: char)
    requires IsHangulCompatibilityJamoConsonant(ini)
    ensures AppendChar(str + [ini], Medial, med) == Success(str + [MergeJamo(ini, Some(med), ' ')])
  {
    var s1 := str + [ini];
    assert s1[..|s1| - 1] == str;
    assert SplitConsonants(ini) == HangulSplitted(true, Some(ini), None, ' ');
  }

  /** A final after a syllable without one composes the syllable with it. */
  lemma TypeFirstFinal(str: string, i: int, m: int, f: int)
    requires 0 <= i < 19 && 0 <= m < 21 && 0 < f < 28
    requires !(i == 18 && m == 20 && f >= 24)
    ensures var ini, med := InitialConsonantTable[i], MedialTable[m];
      AppendChar(str + [ComposeSyllable(ini, med, FinalConsonantTable[0])], Final, FinalConsonantTable[f])
      == Success(str + [ComposeSyllable(ini, med, FinalConsonantTable[f])])
  {
    var ini, med := InitialConsonantTable[i], MedialTable[m];
    var c0 := ComposeSyllable(ini, med, FinalConsonantTable[0]);
    SplitComposed(i, m, 0);
    var last := SplitConsonants(c0);
    assert last == HangulSplitted(true, Some(ini), Some(med), ' ');
    AppendCharOnHangul(str, c0, Final, FinalConsonantTable[f]);
    FinalIntoBlank(str, last, ini, med, FinalConsonantTable[f]);
  }

  /** AppendChar after a Hangul char: the case of the jamo kind, on the split of that char. */
  lemma AppendCharOnHangul(str: string, c: char, t: JamoType, ch: char)
    requires SplitConsonants(c).isHangul
    ensures t == Final ==> AppendChar(str + [c], t, ch) == AppendFinal(str, SplitConsonants(c), ch)
  {
    var s2 := str + [c];
    assert s2[..|s2| - 1] == str;
  }

  /** A final into the empty final slot of a full split composes the syllable with it. */
  lemma FinalIntoBlank(str: string, last: HangulSplitted, ini: char, med: char, fin: char)
    requires last == HangulSplitted(true, Some(ini), Some(med), ' ')
    ensures AppendFinal(str, last, fin) == Success(str + [ComposeSyllable(ini, med, fin)])
  {
  }

  /** A final after the final a clusters with it, when the table has the pair. */
  lemma FinalIntoCluster(str: string, last: HangulSplitted, ini: char, med: char, a: char, b: char, k: char)
    requires last == HangulSplitted(true, Some(ini), Some(med), a)
    requires !IsWhiteSpace(a)
    requires MergedCluster([a, b]) == Success(k)
    ensures AppendFinal(str, last, b) == Success(str + [ComposeSyllable(ini, med, k)])
  {
  }

  /** A second final piece after the first clusters with it through the table. */
  lemma TypeSecondFinal(str: string, i: int, m: int, f: int, fa: int, b: char)
    requires 0 <= i < 19 && 0 <= m < 21 && 0 < fa < f < 28
    requires !(i == 18 && m == 20 && f >= 24)
    requires FinalConsonantTable[f] in InverseConsonantClusterTable
    requires InverseConsonantClusterTable[FinalConsonantTable[f]] == [FinalConsonantTable[fa], b]
    ensures var ini, med := InitialConsonantTable[i], MedialTable[m];
      AppendChar(str + [ComposeSyllable(ini, med, FinalConsonantTable[fa])], Final, b)
      == Success(str + [ComposeSyllable(ini, med, FinalConsonantTable[f])])
  {
    var ini, med := InitialConsonantTable[i], MedialTable[m];
    var fin, a := FinalConsonantTable[f], FinalConsonantTable[fa];
    var c1 := ComposeSyllable(ini, med, a);
    SplitComposed(i, m, fa);
    var last := SplitConsonants(c1);
    assert last == HangulSplitted(true, Some(ini), Some(med), a);
    NonBlankFinal(fa);
    assert MergedCluster([a, b]) == Success(fin) by {
      MergeSplitCluster(fin);
      assert SplitConsonantCluster(fin) == [a, b];
    }
    AppendCharOnHangul(str, c1, Final, b);
    FinalIntoCluster(str, last, ini, med, a, b, fin);
  }

  lemma NonBlankFinal(f: int)
    requires 0 < f < 28
    ensures !IsWhiteSpace(FinalConsonantTable[f])
  {
    FinalTableShape();
  }

  /** AppendAll over a sequence of pieces that each succeed. */
  lemma AppendAllCons(str: string, p: (JamoType, char), rest: seq<(JamoType, char)>, next: string)
    requires AppendChar(str, p.0, p.1) == Success(next)
    ensures AppendAll(str, [p] + rest) == AppendAll(next, rest)
  {
    assert ([p] + rest)[1..] == rest;
  }

  /** The finals Serialize emits for a final slot. */
  function FinalTail(fin: char): seq<(JamoType, char)>
  {
    if IsWhiteSpace(fin) then [] else FinalPieces(fin)
  }

  /** Typing the final pieces after the syllable without a final completes it. */
  lemma TypeFinalTail(str: string, i: int, m: int, f: int)
    requires 0 <= i < 19 && 0 <= m < 21 && 0 <= f < 28
    requires !(i == 18 && m == 20 && f >= 24)
    ensures var ini, med := InitialConsonantTable[i], MedialTable[m];
      AppendAll(str + [ComposeSyllable(ini, med, FinalConsonantTable[0])], FinalTail(FinalConsonantTable[f]))
      == Success(str + [ComposeSyllable(ini, med, FinalConsonantTable[f])])
  {
    var ini, med, fin := InitialConsonantTable[i], MedialTable[m], FinalConsonantTable[f];
    var c0 := ComposeSyllable(ini, med, FinalConsonantTable[0]);
    var c := ComposeSyllable(ini, med, fin);
    if f == 0 {
      assert FinalConsonantTable[0] == ' ';
      assert FinalTail(fin) == [];
    } else if fin !in InverseConsonantClusterTable {
      TypeSingleFinal(str, i, m, f);
    } else {
      TypeClusterFinal(str, i, m, f);
    }
  }

  /** A final of one piece is typed as itself. */
  lemma TypeSingleFinal(str: string, i: int, m: int, f: int)
    requires 0 <= i < 19 && 0 <= m < 21 && 0 < f < 28
    requires !(i == 18 && m == 20 && f >= 24)
    requires FinalConsonantTable[f] !in InverseConsonantClusterTable
    ensures var ini, med := InitialConsonantTable[i], MedialTable[m];
      AppendAll(str + [ComposeSyllable(ini, med, FinalConsonantTable[0])], FinalTail(FinalConsonantTable[f]))
      == Success(str + [ComposeSyllable(ini, med, FinalConsonantTable[f])])
  {
    var ini, med, fin := InitialConsonantTable[i], MedialTable[m], FinalConsonantTable[f];
    var c0 := ComposeSyllable(ini, med, FinalConsonantTable[0]);
    NonBlankFinal(f);
    assert FinalTail(fin) == [(Final, fin)] + [];
    TypeFirstFinal(str, i, m, f);
    AppendAllCons(str + [c0], (Final, fin), [], str + [ComposeSyllable(ini, med, fin)]);
  }

  /** A final of two pieces is typed piece by piece, the second clustering with the first. */
  lemma TypeClusterFinal(str: string, i: int, m: int, f: int)
    requires 0 <= i < 19 && 0 <= m < 21 && 0 < f < 28
    requires !(i == 18 && m == 20 && f >= 24)
    requires FinalConsonantTable[f] in InverseConsonantClusterTable
    ensures var ini, med := InitialConsonantTable[i], MedialTable[m];
      AppendAll(str + [ComposeSyllable(ini, med, FinalConsonantTable[0])], FinalTail(FinalConsonantTable[f]))
      == Success(str + [ComposeSyllable(ini, med, FinalConsonantTable[f])])
  {
    var ini, med, fin := InitialConsonantTable[i], MedialTable[m], FinalConsonantTable[f];
    var c0 := ComposeSyllable(ini, med, FinalConsonantTable[0]);
    var c := ComposeSyllable(ini, med, fin);
    var fa := FirstPieceIsSmallerFinal(f);
    var a, b := PiecesOfCluster(f);
    assert a == FinalConsonantTable[fa];
    var c1 := ComposeSyllable(ini, med, a);
    TypeFirstFinal(str, i, m, fa);
    AppendAllCons(str + [c0], (Final, a), [(Final, b)], str + [c1]);
    TypeSecondFinal(str, i, m, f, fa, b);
    AppendAllCons(str + [c1], (Final, b), [], str + [c]);
  }

  /** The final pieces Serialize emits for a cluster final are its two table pieces. */
  lemma PiecesOfCluster(f: int) returns (a: char, b: char)
    requires 0 < f < 28 && FinalConsonantTable[f] in InverseConsonantClusterTable
    ensures InverseConsonantClusterTable[FinalConsonantTable[f]] == [a, b]
    ensures FinalTail(FinalConsonantTable[f]) == [(Final, a)] + ([(Final, b)] + [])
  {
    NonBlankFinal(f);
    var fin := FinalConsonantTable[f];
    LegacyDecompositionsCompose();
    var pair := InverseConsonantClusterTable[fin];
    a, b := pair[0], pair[1];
    assert pair == [a, b];
  }

  /** Serialize emits the initial, the medial, then the pieces of the final. */
  lemma SerializedSyllableShape(c: char, i: int, m: int, f: int)
    requires 0 <= i < 19 && 0 <= m < 21 && 0 <= f < 28
    requires SplitConsonants(c)
             == HangulSplitted(true, Some(InitialConsonantTable[i]), Some(MedialTable[m]), FinalConsonantTable[f])
    ensures Serialized(SplitConsonants(c))
            == [(Initial, InitialConsonantTable[i])] + ([(Medial, MedialTable[m])] + FinalTail(FinalConsonantTable[f]))
  {
  }

  /**
   * Typing the serialized jamo of a syllable after a string whose last char
   * is not an unfinished jamo rebuilds exactly that syllable.
   */
  lemma TypingSerializedSyllable(str: string, c: char)
    requires IsHangulSyllable(c)
    requires |str| == 0 || !IsHangul(str[|str| - 1]) || IsHangulSyllable(str[|str| - 1])
    ensures AppendAll(str, Serialized(SplitConsonants(c))) == Success(str + [c])
  {
    SyllableIndicesInRange(c);
    var i, m, f := InitialIndex(c), MedialIndex(c), FinalIndex(c);
    ComposeSplitSyllable(c);
    SplitComposedSyllable(i, m, f);
    SerializedSyllableShape(c, i, m, f);
    TypeSyllableEntries(str, i, m, f);
  }

  /** Typing the initial, the medial and the final pieces of table entries composes their syllable. */
  lemma TypeSyllableEntries(str: string, i: int, m: int, f: int)
    requires 0 <= i < 19 && 0 <= m < 21 && 0 <= f < 28
    requires !(i == 18 && m == 20 && f >= 24)
    requires |str| == 0 || !IsHangul(str[|str| - 1]) || IsHangulSyllable(str[|str| - 1])
    ensures var ini, med, fin := InitialConsonantTable[i], MedialTable[m], FinalConsonantTable[f];
      AppendAll(str, [(Initial, ini)] + ([(Medial, med)] + FinalTail(fin))) == Success(str + [ComposeSyllable(ini, med, fin)])
  {
    var ini, med, fin := InitialConsonantTable[i], MedialTable[m], FinalConsonantTable[f];
    var c0 := ComposeSyllable(ini, med, FinalConsonantTable[0]);
    var tail := FinalTail(fin);
    TypeInitial(str, i);
    AppendAllCons(str, (Initial, ini), [(Medial, med)] + tail, str + [ini]);
    TypeMedial(str, i, m);
    AppendAllCons(str + [ini], (Medial, med), tail, str + [c0]);
    TypeFinalTail(str, i, m, f);
  }
}
