// HangulSplit of the library: a char split into initial, medial and final
// slots, where an empty slot holds ' ', with Parse, Merge and Serialize.
module HangulSplitting {
  import opened Text
  import opened HangulConstants
  import opened HangulCluster

  /** The slot a serialized jamo comes from; None marks a non-Hangul char. */
  datatype ConsonantType = None | Initial | Medial | Final

  datatype HangulSplit = HangulSplit(isHangul: bool, initialConsonant: char, medial: char, finalConsonant: char)
  {
    /** A slot holding ' ', the default, is empty; a slot holding a Hangul char is filled. */
    predicate HasInitialConsonant()
      ensures initialConsonant == ' ' ==> !HasInitialConsonant()
      ensures IsHangul(initialConsonant) ==> HasInitialConsonant()
    {
      HangulNotBlank(initialConsonant);
      !IsWhiteSpace(initialConsonant)
    }

    predicate HasMedial()
      ensures medial == ' ' ==> !HasMedial()
      ensures IsHangul(medial) ==> HasMedial()
    {
      HangulNotBlank(medial);
      !IsWhiteSpace(medial)
    }

    predicate HasFinalConsonant()
      ensures finalConsonant == ' ' ==> !HasFinalConsonant()
      ensures IsHangul(finalConsonant) ==> HasFinalConsonant()
    {
      HangulNotBlank(finalConsonant);
      !IsWhiteSpace(finalConsonant)
    }

    /** Merge: a Hangul split is composed, a non-Hangul split is its initial slot. */
    function Merge(): char
    {
      if isHangul then MergeHangul(initialConsonant, medial, finalConsonant) else initialConsonant
    }

    /** Equals compares all four fields. */
    predicate Equals(other: HangulSplit)
      ensures Equals(other) <==>
        isHangul == other.isHangul && initialConsonant == other.initialConsonant
        && medial == other.medial && finalConsonant == other.finalConsonant
    {
      this == other
    }

    /** What Serialize returns. */
    function Serialized(clusters: Clusters): seq<(ConsonantType, char)>
    {
      if !isHangul then [(ConsonantType.None, initialConsonant)]
      else
        (if HasInitialConsonant() then [(Initial, initialConsonant)] else [])
        + (if HasMedial() then Tagged(Medial, clusters.vowel.split(medial)) else [])
        + (if HasFinalConsonant() then Tagged(Final, clusters.consonant.split(finalConsonant)) else [])
    }

    /**
     * Serialize: a non-Hangul split is its one char; otherwise the initial,
     * then the pieces of the medial cluster, then the pieces of the final
     * cluster, each only when its slot is filled.
     */
    method Serialize(clusters: Clusters) returns (r: seq<(ConsonantType, char)>)
      ensures r == Serialized(clusters)
    {
      r := [];
      if !isHangul {
        r := r + [(ConsonantType.None, initialConsonant)];
        return;
      }
      if HasInitialConsonant() {
        r := r + [(Initial, initialConsonant)];
      }
      if HasMedial() {
        r := AppendTagged(r, Medial, clusters.vowel.split(medial));
      }
      if HasFinalConsonant() {
        r := AppendTagged(r, Final, clusters.consonant.split(finalConsonant));
      }
    }

    /** The loop of Serialize over the pieces of a cluster: each piece, tagged, appended in order. */
    static method AppendTagged(r: seq<(ConsonantType, char)>, t: ConsonantType, pieces: seq<char>)
      returns (r': seq<(ConsonantType, char)>)
      ensures r' == r + Tagged(t, pieces)
    {
      r' := r;
      for i := 0 to |pieces|
        invariant r' == r + Tagged(t, pieces)[..i]
      {
        r' := r' + [(t, pieces[i])];
      }
      assert Tagged(t, pieces)[..|pieces|] == Tagged(t, pieces);
    }
  }

  /** A Hangul char is never white space, so it always fills its slot. */
  lemma HangulNotBlank(c: char)
    ensures IsHangul(c) ==> !IsWhiteSpace(c)
  {
    if IsHangul(c) {
      HangulIsNotWhiteSpace(c);
    }
  }

  const EmptyNonHangul: HangulSplit := NonHangul(' ')
  const EmptyHangul: HangulSplit := Hangul(' ', ' ', ' ')

  /** A Hangul split with the given slots; a slot is filled exactly when its char is not white space. */
  function Hangul(initial: char, medial: char, final: char): (r: HangulSplit)
    ensures r.isHangul && r.initialConsonant == initial && r.medial == medial && r.finalConsonant == final
    ensures (r.HasInitialConsonant() <==> !IsWhiteSpace(initial)) && (r.HasMedial() <==> !IsWhiteSpace(medial))
      && (r.HasFinalConsonant() <==> !IsWhiteSpace(final))
  {
    HangulSplit(true, initial, medial, final)
  }

  /** A non-Hangul split: the char in the initial slot, the other slots empty, and it merges back to the char. */
  function NonHangul(ch: char): (r: HangulSplit)
    ensures !r.isHangul && r.Merge() == ch
    ensures !r.HasMedial() && !r.HasFinalConsonant()
  {
    HangulSplit(false, ch, ' ', ' ')
  }

  /**
   * The two empty splits: EmptyHangul is Hangul with no slot filled and
   * serializes to nothing; EmptyNonHangul is the blank non-Hangul char.
   */
  lemma EmptySplits(clusters: Clusters)
    ensures EmptyHangul.isHangul && !EmptyHangul.HasInitialConsonant() && !EmptyHangul.HasMedial()
      && !EmptyHangul.HasFinalConsonant()
    ensures EmptyHangul.Serialized(clusters) == []
    ensures !EmptyNonHangul.isHangul && !EmptyNonHangul.HasInitialConsonant() && EmptyNonHangul.Merge() == ' '
    ensures EmptyNonHangul.Serialized(clusters) == [(ConsonantType.None, ' ')]
  {
  }

  /** Each char of cs tagged with t. */
  function Tagged(t: ConsonantType, cs: seq<char>): (r: seq<(ConsonantType, char)>)
    ensures |r| == |cs|
    ensures forall i :: 0 <= i < |r| ==> r[i] == (t, cs[i])
  {
    seq(|cs|, i requires 0 <= i < |cs| => (t, cs[i]))
  }

  /**
   * Parse: a syllable into its three table entries, a jamo into its own
   * slot, any other char into the initial slot of a non-Hangul split.
   */
  function Parse(c: char): (s: HangulSplit)
    ensures s.isHangul <==> IsHangul(c)
    ensures !IsHangul(c) ==> s == NonHangul(c)
    ensures IsHangulSyllable(c) ==> SyllableIndicesValid(c)
    ensures IsHangulSyllable(c) ==>
      s == Hangul(InitialConsonantTable[InitialIndex(c)], MedialTable[MedialIndex(c)], FinalConsonantTable[FinalIndex(c)])
  {
    if IsHangulSyllable(c) then
      SyllableIndicesInRange(c);
      Hangul(InitialConsonantTable[InitialIndex(c)], MedialTable[MedialIndex(c)], FinalConsonantTable[FinalIndex(c)])
    else if IsHangulCompatibilityJamoConsonant(c) || IsHangulJamoChoseong(c) then
      Hangul(c, ' ', ' ')
    else if IsHangulCompatibilityJamoVowel(c) || IsHangulJamoJungseong(c) then
      Hangul(' ', c, ' ')
    else if IsHangulJamoJongseong(c) then
      Hangul(' ', ' ', c)
    else
      NonHangul(c)
  }

  /**
   * MergeHangul: without an initial the medial, or failing that the final,
   * stands alone; without a medial the initial does; otherwise the syllable
   * formula (which never throws, see ComposeSyllable).
   */
  function MergeHangul(initial: char, medial: char, final: char): char
  {
    if IsWhiteSpace(initial) then (if IsWhiteSpace(medial) then final else medial)
    else if IsWhiteSpace(medial) then initial
    else ComposeSyllable(initial, medial, final)
  }

  /** Parse then Merge gives back every char: syllables, jamo and non-Hangul alike. */
  lemma MergeParse(c: char)
    ensures Parse(c).Merge() == c
  {
    if IsHangulSyllable(c) {
      ComposeSplitSyllable(c);
      InitialTableShape();
      MedialTableShape();
      HangulIsNotWhiteSpace(InitialConsonantTable[InitialIndex(c)]);
      HangulIsNotWhiteSpace(MedialTable[MedialIndex(c)]);
    } else if IsHangul(c) {
      HangulIsNotWhiteSpace(c);
    }
  }

  /** A parsed syllable fills its initial and medial slot, and its final slot iff it has a final. */
  lemma ParseSyllableSlots(c: char)
    requires IsHangulSyllable(c)
    ensures Parse(c).HasInitialConsonant() && Parse(c).HasMedial()
    ensures Parse(c).HasFinalConsonant() <==> FinalIndex(c) > 0
  {
    SyllableIndicesInRange(c);
    InitialTableShape();
    MedialTableShape();
    FinalTableShape();
    HangulIsNotWhiteSpace(InitialConsonantTable[InitialIndex(c)]);
    HangulIsNotWhiteSpace(MedialTable[MedialIndex(c)]);
    if FinalIndex(c) > 0 {
      HangulIsNotWhiteSpace(FinalConsonantTable[FinalIndex(c)]);
    }
  }

  /** A non-Hangul char serializes to exactly itself, tagged None. */
  lemma SerializeNonHangul(c: char, clusters: Clusters)
    requires !IsHangul(c)
    ensures Parse(c).Serialized(clusters) == [(ConsonantType.None, c)]
  {
  }

  /** The entries of r whose type is t, in order. */
  function OfType(r: seq<(ConsonantType, char)>, t: ConsonantType): (o: seq<(ConsonantType, char)>)
    ensures |o| <= |r|
  {
    if |r| == 0 then []
    else (if r[0].0 == t then [r[0]] else []) + OfType(r[1..], t)
  }

  lemma {:induction false} OfTypeAppend(a: seq<(ConsonantType, char)>, b: seq<(ConsonantType, char)>, t: ConsonantType)
    ensures OfType(a + b, t) == OfType(a, t) + OfType(b, t)
    decreases |a|
  {
    if |a| == 0 {
      assert a + b == b;
    } else {
      var h := if a[0].0 == t then [a[0]] else [];
      calc {
        OfType(a + b, t);
        == { assert (a + b)[0] == a[0]; assert (a + b)[1..] == a[1..] + b; }
        h + OfType(a[1..] + b, t);
        == { OfTypeAppend(a[1..], b, t); }
        h + (OfType(a[1..], t) + OfType(b, t));
        ==
        (h + OfType(a[1..], t)) + OfType(b, t);
        ==
        OfType(a, t) + OfType(b, t);
      }
    }
  }

  lemma {:induction false} OfTypeTagged(u: ConsonantType, cs: seq<char>, t: ConsonantType)
    ensures OfType(Tagged(u, cs), t) == if u == t then Tagged(u, cs) else []
    decreases |cs|
  {
    if |cs| > 0 {
      assert Tagged(u, cs)[1..] == Tagged(u, cs[1..]);
      OfTypeTagged(u, cs[1..], t);
      if u == t {
        assert Tagged(u, cs) == [(u, cs[0])] + Tagged(u, cs[1..]);
      }
    }
  }

  /** The position of a slot in a syllable. */
  function Rank(t: ConsonantType): int
  {
    match t
    case None => 0
    case Initial => 1
    case Medial => 2
    case Final => 3
  }

  /** The entries Serialized gives a filled slot of kind t, and none otherwise. */
  function SlotEntries(s: HangulSplit, clusters: Clusters, t: ConsonantType): seq<(ConsonantType, char)>
  {
    match t
    case None => []
    case Initial => if s.HasInitialConsonant() then [(Initial, s.initialConsonant)] else []
    case Medial => if s.HasMedial() then Tagged(Medial, clusters.vowel.split(s.medial)) else []
    case Final => if s.HasFinalConsonant() then Tagged(Final, clusters.consonant.split(s.finalConsonant)) else []
  }

  /**
   * Serialize of a Hangul split: the entries of each kind are exactly the
   * pieces of that slot when it is not white space, and absent when it is;
   * no entry is None.
   */
  lemma SerializedSlots(s: HangulSplit, clusters: Clusters, t: ConsonantType)
    requires s.isHangul
    ensures OfType(s.Serialized(clusters), t) == SlotEntries(s, clusters, t)
  {
    var a, b, c := SlotEntries(s, clusters, Initial), SlotEntries(s, clusters, Medial), SlotEntries(s, clusters, Final);
    assert OfType(s.Serialized(clusters), t) == OfType(a, t) + OfType(b, t) + OfType(c, t) by {
      assert s.Serialized(clusters) == a + b + c;
      OfTypeAppend(a + b, c, t);
      OfTypeAppend(a, b, t);
    }
    SlotOfType(s, clusters, Initial, t);
    SlotOfType(s, clusters, Medial, t);
    SlotOfType(s, clusters, Final, t);
  }

  /** The entries of one slot are all of that slot's kind. */
  lemma SlotOfType(s: HangulSplit, clusters: Clusters, u: ConsonantType, t: ConsonantType)
    ensures OfType(SlotEntries(s, clusters, u), t) == if u == t then SlotEntries(s, clusters, u) else []
  {
    match u {
      case None =>
      case Initial =>
      case Medial =>
        if s.HasMedial() { OfTypeTagged(Medial, clusters.vowel.split(s.medial), t); }
      case Final =>
        if s.HasFinalConsonant() { OfTypeTagged(Final, clusters.consonant.split(s.finalConsonant), t); }
    }
  }

  /** Serialize of a Hangul split runs initial, then medial, then final entries. */
  lemma SerializedOrdered(s: HangulSplit, clusters: Clusters)
    requires s.isHangul
    ensures RankOrdered(s.Serialized(clusters))
  {
    var a, b, c := SlotEntries(s, clusters, Initial), SlotEntries(s, clusters, Medial), SlotEntries(s, clusters, Final);
    RunsOrdered(s.Serialized(clusters), a, b, c);
  }

  /** Every entry is of a syllable slot, and the slots never go back. */
  predicate RankOrdered(r: seq<(ConsonantType, char)>)
  {
    forall j, k :: 0 <= j < k < |r| ==> 1 <= Rank(r[j].0) <= Rank(r[k].0)
  }

  /** Initial entries, then medial entries, then final entries are ordered by rank. */
  lemma RunsOrdered(r: seq<(ConsonantType, char)>, a: seq<(ConsonantType, char)>, b: seq<(ConsonantType, char)>, c: seq<(ConsonantType, char)>)
    requires r == a + b + c
    requires forall i :: 0 <= i < |a| ==> a[i].0 == Initial
    requires forall i :: 0 <= i < |b| ==> b[i].0 == Medial
    requires forall i :: 0 <= i < |c| ==> c[i].0 == Final
    ensures RankOrdered(r)
  {
    RunRanks(a, b, c);
  }

  /** In initial, medial and final entries run together, the rank of an entry is fixed by the run it falls in. */
  lemma RunRanks(a: seq<(ConsonantType, char)>, b: seq<(ConsonantType, char)>, c: seq<(ConsonantType, char)>)
    requires forall i :: 0 <= i < |a| ==> a[i].0 == Initial
    requires forall i :: 0 <= i < |b| ==> b[i].0 == Medial
    requires forall i :: 0 <= i < |c| ==> c[i].0 == Final
    ensures var r := a + b + c;
      forall k :: 0 <= k < |r| ==> Rank(r[k].0) == if k < |a| then 1 else if k < |a| + |b| then 2 else 3
  {
    var r := a + b + c;
    assert forall k :: 0 <= k < |a| ==> r[k] == a[k];
    assert forall k :: |a| <= k < |a| + |b| ==> r[k] == b[k - |a|];
    assert forall k :: |a| + |b| <= k < |r| ==> r[k] == c[k - |a| - |b|];
  }

  /** With a cluster split never empty, a filled slot always serializes to at least one entry. */
  lemma SerializedNonEmpty(s: HangulSplit, clusters: Clusters)
    ensures |s.Serialized(clusters)| == 0 <==>
      s.isHangul && IsWhiteSpace(s.initialConsonant) && IsWhiteSpace(s.medial) && IsWhiteSpace(s.finalConsonant)
  {
    if s.isHangul && s.HasMedial() {
      assert |clusters.vowel.split(s.medial)| >= 1;
    }
    if s.isHangul && s.HasFinalConsonant() {
      assert |clusters.consonant.split(s.finalConsonant)| >= 1;
    }
  }
}
