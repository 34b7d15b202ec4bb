// HangulRecomposer: turns a list of split chars back into the key commands
// that type them on a two-set Korean keyboard, jamo by jamo.
module Recomposer {
  import Wrappers
  import opened Text
  import opened HangulCluster
  import opened HangulSplitting

  datatype ShiftState = None | Press | Release
  datatype ImeState = None | English | Korean
  datatype InputCommandType = KeyInput | ImeCompositionTermination

  /** How Append treats a jamo: a non-Hangul char, a consonant, or a vowel. */
  datatype JamoType = None | Consonant | Medial

  /**
   * One command: press key with the given IME and Shift state, and update
   * the typed text; a TextUpdate starting with '_' first overwrites the last char.
   */
  datatype InputCommand = InputCommand(
    kind: InputCommandType, imeState: ImeState, shiftState: ShiftState, key: char, textUpdate: string)

  function KeyInputCommand(imeState: ImeState, shiftState: ShiftState, key: char, textUpdate: string): InputCommand
  {
    InputCommand(KeyInput, imeState, shiftState, key, textUpdate)
  }

  const Termination: InputCommand := InputCommand(ImeCompositionTermination, ImeState.None, ShiftState.None, ' ', "")

  /** The result of Append: the previous split as modified, a new split if one was started, the command. */
  datatype Step = Step(prev: HangulSplit, newSplit: Wrappers.Option<HangulSplit>, input: InputCommand)

  /** The state of the Recompose loop: prevSplit, lastInput and the commands built so far. */
  datatype State = State(prev: HangulSplit, lastInput: Wrappers.Option<InputCommand>, output: seq<InputCommand>)

  function Consonant2Jamo(cons: ConsonantType): (j: JamoType)
    ensures j == JamoType.None <==> cons == ConsonantType.None
    ensures j == JamoType.Medial <==> cons == ConsonantType.Medial
  {
    match cons
    case None => JamoType.None
    case Initial => Consonant
    case Final => Consonant
    case Medial => JamoType.Medial
  }

  predicate IsUpperAlpha(c: char) { 'A' <= c <= 'Z' }
  predicate IsAlpha(c: char) { 'a' <= c <= 'z' || IsUpperAlpha(c) }

  predicate StartsWithUnderscore(s: string) { |s| > 0 && s[0] == '_' }

  /** The number of commands of the given kind in o. */
  function CountKind(o: seq<InputCommand>, k: InputCommandType): (n: nat)
    ensures n <= |o|
  {
    if |o| == 0 then 0 else CountKind(o[..|o| - 1], k) + (if o[|o| - 1].kind == k then 1 else 0)
  }

  lemma {:induction false} CountKindAppend(a: seq<InputCommand>, b: seq<InputCommand>, k: InputCommandType)
    ensures CountKind(a + b, k) == CountKind(a, k) + CountKind(b, k)
    decreases |b|
  {
    if |b| == 0 {
      assert a + b == a;
    } else {
      assert (a + b)[..|a + b| - 1] == a + b[..|b| - 1];
      CountKindAppend(a, b[..|b| - 1], k);
    }
  }

  /** Every command of o from position n on is a key input. */
  predicate KeyInputsFrom(o: seq<InputCommand>, n: int)
  {
    forall k :: 0 <= n <= k < |o| ==> o[k].kind == KeyInput
  }

  /** An output that extends pre by n key inputs is pre followed by those key inputs. */
  lemma SplitOutput(o: seq<InputCommand>, pre: seq<InputCommand>, n: nat) returns (k: seq<InputCommand>)
    requires |o| == |pre| + n && o[..|pre|] == pre && KeyInputsFrom(o, |pre|)
    ensures o == pre + k && |k| == n && KeyInputsFrom(k, 0)
  {
    k := o[|pre|..];
    assert o == pre + k;
  }

  lemma {:induction false} CountKeyInputsOnly(o: seq<InputCommand>)
    requires KeyInputsFrom(o, 0)
    ensures CountKind(o, KeyInput) == |o| && CountKind(o, ImeCompositionTermination) == 0
  {
    if |o| > 0 {
      CountKeyInputsOnly(o[..|o| - 1]);
    }
  }

  /** The number of jamo the pieces serialize to. */
  function SerializedCount(ps: seq<HangulSplit>, clusters: Clusters): nat
  {
    if |ps| == 0 then 0 else SerializedCount(ps[..|ps| - 1], clusters) + |ps[|ps| - 1].Serialized(clusters)|
  }

  class HangulRecomposer {
    /** KeyboardLayout.HangulToAlphabet: the key for a jamo and whether it needs Shift. */
    const layout: char -> (char, bool)
    const pieces: seq<HangulSplit>
    /** HangulCluster.Consonant and HangulCluster.Vowel. */
    const clusters: Clusters
    /** The chars IsBlacklistedFromFinalConsonant rejects as a final. */
    const finalBlacklist: set<char>

    constructor(layout: char -> (char, bool), pieces: seq<HangulSplit>, clusters: Clusters, finalBlacklist: set<char>)
      ensures this.layout == layout && this.pieces == pieces
      ensures this.clusters == clusters && this.finalBlacklist == finalBlacklist
    {
      this.layout := layout;
      this.pieces := pieces;
      this.clusters := clusters;
      this.finalBlacklist := finalBlacklist;
    }

    /**
     * A consonant joins the final of the previous char when that char has an
     * initial and a medial, the last command was not a termination, the
     * consonant may stand in a final and it clusters with the final there.
     */
    predicate JoinsFinal(prev: HangulSplit, lastInput: Wrappers.Option<InputCommand>, ch: char)
    {
      && prev.HasInitialConsonant() && prev.HasMedial()
      && !(lastInput.Some? && lastInput.value.kind == ImeCompositionTermination)
      && ch !in finalBlacklist
      && clusters.consonant.tryMerge(prev.finalConsonant, ch).Some?
    }

    /** A vowel after a full syllable steals the last piece of its final. */
    predicate StealsFinal(prev: HangulSplit)
    {
      prev.HasInitialConsonant() && prev.HasMedial() && prev.HasFinalConsonant()
    }

    /** A vowel joins the medial of a previous char that has an initial and no final. */
    predicate JoinsMedial(prev: HangulSplit, ch: char)
    {
      prev.HasInitialConsonant() && !prev.HasFinalConsonant() && clusters.vowel.tryMerge(prev.medial, ch).Some?
    }

    /** Whether Append rewrites the previous char. */
    predicate Rewrites(prev: HangulSplit, lastInput: Wrappers.Option<InputCommand>, jamo: JamoType, ch: char)
    {
      || (jamo == Consonant && JoinsFinal(prev, lastInput, ch))
      || (jamo == JamoType.Medial && (StealsFinal(prev) || JoinsMedial(prev, ch)))
    }

    function ShiftFor(ch: char): ShiftState
    {
      if layout(ch).1 then Press else Release
    }

    /** Append: types one jamo after prev, returning the modified prev, any new split and the command. */
    function Append(prev: HangulSplit, lastInput: Wrappers.Option<InputCommand>, jamo: JamoType, ch: char): (r: Step)
      ensures r.input.kind == KeyInput
      // a non-Hangul char: English IME iff a letter, Shift iff upper case, the key lowered
      ensures jamo == JamoType.None ==>
        && r.prev == prev && r.newSplit == Wrappers.Some(NonHangul(ch))
        && (r.input.imeState == English <==> IsAlpha(ch))
        && (r.input.imeState != English ==> r.input.imeState == ImeState.None)
        && (r.input.shiftState == Press <==> IsUpperAlpha(ch))
        && (r.input.shiftState != Press ==> r.input.shiftState == Release)
        && r.input.key == ToLower(ch) && r.input.textUpdate == [ch]
      // Hangul: the Korean IME, and the key and Shift of the layout
      ensures jamo != JamoType.None ==>
        r.input.imeState == Korean && r.input.key == layout(ch).0 && r.input.shiftState == ShiftFor(ch)
      // a consonant joins the previous final iff JoinsFinal, and starts a new char otherwise
      ensures jamo == Consonant ==> (r.newSplit.None? <==> JoinsFinal(prev, lastInput, ch))
      ensures jamo == Consonant && JoinsFinal(prev, lastInput, ch) ==>
        r.prev == prev.(finalConsonant := clusters.consonant.tryMerge(prev.finalConsonant, ch).value)
      ensures jamo == Consonant && !JoinsFinal(prev, lastInput, ch) ==> r.newSplit == Wrappers.Some(Hangul(ch, ' ', ' '))
      // a vowel after a full syllable moves the last final piece onto a new char
      ensures jamo == JamoType.Medial && StealsFinal(prev) ==>
        var parts := clusters.consonant.split(prev.finalConsonant);
        && r.prev == prev.(finalConsonant := if |parts| == 1 then ' ' else parts[0])
        && r.newSplit == Wrappers.Some(Hangul(parts[|parts| - 1], ch, ' '))
        && r.input.textUpdate == ['_', r.prev.Merge(), r.newSplit.value.Merge()]
      ensures jamo == JamoType.Medial && !StealsFinal(prev) && JoinsMedial(prev, ch) ==>
        r.newSplit.None? && r.prev == prev.(medial := clusters.vowel.tryMerge(prev.medial, ch).value)
      ensures jamo == JamoType.Medial && !StealsFinal(prev) && !JoinsMedial(prev, ch) ==>
        r.newSplit == Wrappers.Some(Hangul(' ', ch, ' '))
      // the text update: '_' and the rewritten char, or else just the new char
      ensures Rewrites(prev, lastInput, jamo, ch) ==>
        |r.input.textUpdate| >= 2 && r.input.textUpdate[0] == '_' && r.input.textUpdate[1] == r.prev.Merge()
      ensures !Rewrites(prev, lastInput, jamo, ch) ==>
        r.prev == prev && r.newSplit.Some? && r.input.textUpdate == [r.newSplit.value.Merge()]
    {
      var (keyboardKey, requireShift) := layout(ch);
      var shiftState := if requireShift then Press else Release;
      match jamo
      case None =>
        var newSplit := NonHangul(ch);
        var isUpperAlpha := 'A' <= ch <= 'Z';
        var isAlpha := 'a' <= ch <= 'z' || isUpperAlpha;
        Step(prev, Wrappers.Some(newSplit),
             KeyInputCommand(if isAlpha then English else ImeState.None, if isUpperAlpha then Press else Release,
                             ToLower(ch), [newSplit.Merge()]))
      case Consonant =>
        if JoinsFinal(prev, lastInput, ch) then
          var p := prev.(finalConsonant := clusters.consonant.tryMerge(prev.finalConsonant, ch).value);
          Step(p, Wrappers.None, KeyInputCommand(Korean, shiftState, keyboardKey, ['_', p.Merge()]))
        else
          var newSplit := Hangul(ch, ' ', ' ');
          Step(prev, Wrappers.Some(newSplit), KeyInputCommand(Korean, shiftState, keyboardKey, [newSplit.Merge()]))
      case Medial =>
        if StealsFinal(prev) then
          var prevSplitFinal := clusters.consonant.split(prev.finalConsonant);
          var p := prev.(finalConsonant := if |prevSplitFinal| == 1 then ' ' else prevSplitFinal[0]);
          var steal := prevSplitFinal[|prevSplitFinal| - 1];
          var newSplit := Hangul(steal, ch, ' ');
          Step(p, Wrappers.Some(newSplit), KeyInputCommand(Korean, shiftState, keyboardKey, ['_', p.Merge(), newSplit.Merge()]))
        else if JoinsMedial(prev, ch) then
          var p := prev.(medial := clusters.vowel.tryMerge(prev.medial, ch).value);
          Step(p, Wrappers.None, KeyInputCommand(Korean, shiftState, keyboardKey, ['_', p.Merge()]))
        else
          var newSplit := Hangul(' ', ch, ' ');
          Step(prev, Wrappers.Some(newSplit), KeyInputCommand(Korean, shiftState, keyboardKey, [newSplit.Merge()]))
    }

    /** A termination precedes a piece when the previous char is full and its final would swallow the piece's initial. */
    predicate NeedsTermination(prev: HangulSplit, piece: HangulSplit)
    {
      StealsFinal(prev) && clusters.consonant.tryMerge(prev.finalConsonant, piece.initialConsonant).Some?
    }

    function BeginPiece(st: State, piece: HangulSplit): State
    {
      if NeedsTermination(st.prev, piece) then State(st.prev, Wrappers.Some(Termination), st.output + [Termination])
      else st
    }

    /** One serialized jamo through Append: the new split, if any, becomes prevSplit. */
    function FeedOne(st: State, entry: (ConsonantType, char)): State
    {
      var step := Append(st.prev, st.lastInput, Consonant2Jamo(entry.0), entry.1);
      State(if step.newSplit.Some? then step.newSplit.value else step.prev, Wrappers.Some(step.input),
            st.output + [step.input])
    }

    function FeedJamo(st: State, entries: seq<(ConsonantType, char)>): State
    {
      if |entries| == 0 then st else FeedOne(FeedJamo(st, entries[..|entries| - 1]), entries[|entries| - 1])
    }

    function FeedPiece(st: State, piece: HangulSplit): State
    {
      FeedJamo(BeginPiece(st, piece), piece.Serialized(clusters))
    }

    /** The loop state after the given pieces, starting from an empty Hangul split. */
    function FeedPieces(ps: seq<HangulSplit>): State
    {
      if |ps| == 0 then State(EmptyHangul, Wrappers.None, [])
      else FeedPiece(FeedPieces(ps[..|ps| - 1]), ps[|ps| - 1])
    }

    /** Recompose: the commands for all pieces, none for an empty list. */
    method Recompose() returns (r: seq<InputCommand>)
      ensures |pieces| == 0 ==> r == []
      ensures r == FeedPieces(pieces).output
    {
      if |pieces| == 0 {
        return [];
      }
      var builder: seq<InputCommand> := [];
      var prevSplit := EmptyHangul;
      var lastInput: Wrappers.Option<InputCommand> := Wrappers.None;
      for i := 0 to |pieces|
        invariant State(prevSplit, lastInput, builder) == FeedPieces(pieces[..i])
      {
        var piece := pieces[i];
        assert pieces[..i + 1][..i] == pieces[..i];
        if prevSplit.HasInitialConsonant() && prevSplit.HasMedial() && prevSplit.HasFinalConsonant()
           && clusters.consonant.tryMerge(prevSplit.finalConsonant, piece.initialConsonant).Some?
        {
          var terminate := Termination;
          lastInput := Wrappers.Some(terminate);
          builder := builder + [terminate];
        }
        var serialized := piece.Serialize(clusters);
        assert State(prevSplit, lastInput, builder) == BeginPiece(FeedPieces(pieces[..i]), piece);
        prevSplit, lastInput, builder := AppendAllJamo(prevSplit, lastInput, builder, serialized);
      }
      assert pieces[..|pieces|] == pieces;
      r := builder;
    }

    /** The inner loop of Recompose: every serialized jamo of one piece through Append. */
    method AppendAllJamo(prev0: HangulSplit, last0: Wrappers.Option<InputCommand>, out0: seq<InputCommand>,
                         serialized: seq<(ConsonantType, char)>)
      returns (prevSplit: HangulSplit, lastInput: Wrappers.Option<InputCommand>, builder: seq<InputCommand>)
      ensures State(prevSplit, lastInput, builder) == FeedJamo(State(prev0, last0, out0), serialized)
    {
      prevSplit, lastInput, builder := prev0, last0, out0;
      for j := 0 to |serialized|
        invariant State(prevSplit, lastInput, builder) == FeedJamo(State(prev0, last0, out0), serialized[..j])
      {
        assert serialized[..j + 1][..j] == serialized[..j];
        var (t, ch) := serialized[j];
        var jamo := Consonant2Jamo(t);
        var step := Append(prevSplit, lastInput, jamo, ch);
        prevSplit := step.prev;
        if step.newSplit.Some? {
          prevSplit := step.newSplit.value;
        }
        lastInput := Wrappers.Some(step.input);
        builder := builder + [step.input];
      }
      assert serialized[..|serialized|] == serialized;
    }

    /** Feeding jamo keeps the output so far and adds exactly one key input per jamo. */
    lemma {:induction false} FeedJamoOutput(st: State, entries: seq<(ConsonantType, char)>)
      ensures var o := FeedJamo(st, entries).output;
        |o| == |st.output| + |entries| && o[..|st.output|] == st.output && KeyInputsFrom(o, |st.output|)
    {
      if |entries| > 0 {
        FeedJamoOutput(st, entries[..|entries| - 1]);
      }
    }

    /**
     * The commands after a non-empty piece list: those for all but the last
     * piece, then a termination exactly when NeedsTermination holds, then
     * one key input per serialized jamo of the last piece.
     */
    lemma FeedPieceOutput(ps: seq<HangulSplit>) returns (t: seq<InputCommand>, k: seq<InputCommand>)
      requires |ps| > 0
      ensures var before, piece := FeedPieces(ps[..|ps| - 1]), ps[|ps| - 1];
        && t == (if NeedsTermination(before.prev, piece) then [Termination] else [])
        && FeedPieces(ps).output == before.output + t + k
        && |k| == |piece.Serialized(clusters)| && KeyInputsFrom(k, 0)
    {
      var before, piece := FeedPieces(ps[..|ps| - 1]), ps[|ps| - 1];
      var st := BeginPiece(before, piece);
      t := if NeedsTermination(before.prev, piece) then [Termination] else [];
      assert st.output == before.output + t;
      FeedPiecesLast(ps);
      FeedJamoOutput(st, piece.Serialized(clusters));
      k := SplitOutput(FeedPieces(ps).output, st.output, |piece.Serialized(clusters)|);
    }

    /** FeedPieces unfolded once, at its last piece. */
    lemma FeedPiecesLast(ps: seq<HangulSplit>)
      requires |ps| > 0
      ensures var before, piece := FeedPieces(ps[..|ps| - 1]), ps[|ps| - 1];
        FeedPieces(ps) == FeedJamo(BeginPiece(before, piece), piece.Serialized(clusters))
    {
    }

    /**
     * Over all pieces: one key input per serialized jamo, and at most one
     * termination per piece.
     */
    lemma {:induction false} RecomposeCounts(ps: seq<HangulSplit>)
      ensures CountKind(FeedPieces(ps).output, KeyInput) == SerializedCount(ps, clusters)
      ensures CountKind(FeedPieces(ps).output, ImeCompositionTermination) <= |ps|
    {
      if |ps| > 0 {
        RecomposeCounts(ps[..|ps| - 1]);
        var t, k := FeedPieceOutput(ps);
        var before := FeedPieces(ps[..|ps| - 1]).output;
        CountKindAppend(before + t, k, KeyInput);
        CountKindAppend(before + t, k, ImeCompositionTermination);
        CountKindAppend(before, t, KeyInput);
        CountKindAppend(before, t, ImeCompositionTermination);
        CountKeyInputsOnly(k);
      }
    }
  }
}
