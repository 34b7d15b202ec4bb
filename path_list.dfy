// PathListExtension.ChooseBestWord: the word the auto-enter types, picked
// from the sorted result list by the time left in the turn. With delays on,
// a word qualifies when its worst-case typing time fits the remaining time
// (at least 300 ms); failing that, and when the per-char delays are
// randomised, when its best case fits. The logging and the closest-word
// search it only logs are not part of this model.
module PathLists {
  import opened Wrappers
  import opened Int32
  import opened Entering
  import opened PathObjects

  /** Which typing-time bound a filter compares with the remaining time. */
  datatype Bound = WorstCase | BestCase

  /** The typing time of a word under the given bound. */
  function DelayFor(delay: EnterOptions, bound: Bound, word: string): int32
  {
    match bound
    case WorstCase => GetMaxDelay(delay, Some(word))
    case BestCase => GetMinDelay(delay, Some(word))
  }

  /** The word fits the remaining time under the bound. */
  predicate Fits(delay: EnterOptions, bound: Bound, remain: int, word: string)
  {
    DelayFor(delay, bound, word) <= remain
  }

  /** The test of one filter: the word fits the remaining time under the bound. */
  function FitsUnder(delay: EnterOptions, bound: Bound, remain: int): string -> bool
  {
    w => Fits(delay, bound, remain, w)
  }

  /** The contents of the words that pass a test, in list order (the LINQ Where of the source). */
  function Filtered(list: seq<PathObject>, fits: string -> bool): (r: seq<string>)
    ensures |r| <= |list|
    decreases |list|
  {
    if |list| == 0 then []
    else
      var last := list[|list| - 1];
      Filtered(list[..|list| - 1], fits) + (if fits(last.content) then [last.content] else [])
  }

  /** Every word kept passes the test. */
  lemma {:induction false} FilteredPass(list: seq<PathObject>, fits: string -> bool, k: int)
    requires 0 <= k < |Filtered(list, fits)|
    ensures fits(Filtered(list, fits)[k])
    decreases |list|
  {
    var init := list[..|list| - 1];
    if k < |Filtered(init, fits)| {
      FilteredPass(init, fits, k);
    }
  }

  /** The words kept from a prefix are a prefix of the words kept. */
  lemma {:induction false} FilteredOfPrefix(list: seq<PathObject>, fits: string -> bool, j: int)
    requires 0 <= j <= |list|
    ensures Filtered(list[..j], fits) <= Filtered(list, fits)
    decreases |list| - j
  {
    if j < |list| {
      var n := |list|;
      assert list[..n] == list;
      FilteredOfPrefix(list[..n - 1], fits, j);
      assert list[..n - 1][..j] == list[..j];
    } else {
      assert list[..j] == list;
    }
  }

  /**
   * A passing word at index j of the list is the kept word numbered by how
   * many words before it pass: the filter keeps the list order.
   */
  lemma FilteredAt(list: seq<PathObject>, fits: string -> bool, j: int)
    requires 0 <= j < |list| && fits(list[j].content)
    ensures |Filtered(list[..j], fits)| < |Filtered(list, fits)|
    ensures Filtered(list, fits)[|Filtered(list[..j], fits)|] == list[j].content
  {
    FilteredOfPrefix(list, fits, j + 1);
    assert list[..j + 1][..j] == list[..j];
  }

  /** Conversely, every kept word comes from an index of the list with that many passing words before it. */
  lemma {:induction false} FilteredFrom(list: seq<PathObject>, fits: string -> bool, k: int) returns (j: int)
    requires 0 <= k < |Filtered(list, fits)|
    ensures 0 <= j < |list| && fits(list[j].content)
    ensures |Filtered(list[..j], fits)| == k
    ensures Filtered(list, fits)[k] == list[j].content
    decreases |list|
  {
    var n := |list|;
    var init := list[..n - 1];
    var head := Filtered(init, fits);
    var tail := if fits(list[n - 1].content) then [list[n - 1].content] else [];
    assert Filtered(list, fits) == head + tail;
    if k < |head| {
      j := FilteredFrom(init, fits, k);
      assert init[..j] == list[..j];
      assert (head + tail)[k] == head[k];
    } else {
      j := n - 1;
      assert init == list[..j];
    }
  }

  /** Math.Max(300, remainingTurnTime): the remaining time is never taken below 300 ms. */
  function Remain(remainingTurnTime: int32): (r: int32)
    ensures r >= 300 && r >= remainingTurnTime
    ensures r == 300 || r == remainingTurnTime
  {
    if remainingTurnTime < 300 then 300 else remainingTurnTime
  }

  /** The word at an index of an array of results, or none past its end; a negative index throws. */
  function Pick(words: seq<string>, wordIndex: int32): (r: Result<Option<string>>)
    ensures r.Failure? <==> wordIndex < 0
    ensures r.Success? && r.value.Some? <==> 0 <= wordIndex < |words|
    ensures 0 <= wordIndex < |words| ==> r == Success(Some(words[wordIndex]))
  {
    if |words| <= wordIndex then Success(None)
    else if wordIndex < 0 then Failure(IndexOutOfRange)
    else Success(Some(words[wordIndex]))
  }

  /**
   * ChooseBestWord: the word to type and whether the turn is timed out. A
   * null list throws ArgumentNullException; with delays off the word is the
   * wordIndex-th of the list, or none. Otherwise it is the wordIndex-th word
   * whose worst case fits, or, when the per-char delays are randomised, the
   * wordIndex-th whose best case fits; with neither the answer is (none,
   * timed out). `perCharRandomized` stands for EnterOptions'
   * IsDelayPerCharRandomized, which EnterOptions.cs does not define.
   */
  function ChooseBestWord(list: Option<seq<PathObject>>, delay: EnterOptions, perCharRandomized: bool,
                          remainingTurnTime: int32, wordIndex: int32): (r: Result<(Option<string>, bool)>)
    ensures list.None? ==> r == Failure(ArgumentNull)
    ensures r.Success? && r.value.0.None? && delay.delayEnabled ==> r.value.1
    ensures r.Success? && r.value.1 ==> r.value.0.None?
  {
    if list.None? then Failure(ArgumentNull)
    else
      var l := list.value;
      if !delay.delayEnabled then
        if |l| <= wordIndex then Success((None, false))
        else if wordIndex < 0 then Failure(ArgumentOutOfRange)
        else Success((Some(l[wordIndex].content), false))
      else
        var remain := Remain(remainingTurnTime);
        var worst := Pick(Filtered(l, FitsUnder(delay, WorstCase, remain)), wordIndex);
        if worst.Failure? then Failure(worst.error)
        else if worst.value.Some? then Success((worst.value, false))
        else if perCharRandomized then
          var best := Pick(Filtered(l, FitsUnder(delay, BestCase, remain)), wordIndex);
          if best.Success? && best.value.Some? then Success((best.value, false))
          else Success((None, true))
        else Success((None, true))
  }

  /** With delays off, the answer is the wordIndex-th word of the list, or none past its end, and never a time-out. */
  lemma DisabledPicksByIndex(list: seq<PathObject>, delay: EnterOptions, perCharRandomized: bool,
                             remainingTurnTime: int32, wordIndex: int32)
    requires !delay.delayEnabled && wordIndex >= 0
    ensures ChooseBestWord(Some(list), delay, perCharRandomized, remainingTurnTime, wordIndex)
      == Success((if wordIndex < |list| then Some(list[wordIndex].content) else None, false))
  {
  }

  /** A negative wordIndex always throws: the list index when delays are off, the array index of the filtered words otherwise. */
  lemma NegativeIndexThrows(list: seq<PathObject>, delay: EnterOptions, perCharRandomized: bool,
                            remainingTurnTime: int32, wordIndex: int32)
    requires wordIndex < 0
    ensures ChooseBestWord(Some(list), delay, perCharRandomized, remainingTurnTime, wordIndex).Failure?
  {
  }

  /**
   * With delays on, a chosen word is a word of the list that fits the
   * (clamped) remaining time, with exactly wordIndex fitting words before it
   * under the same bound; the best case is used only when the per-char
   * delays are randomised and fewer than wordIndex + 1 words fit in the
   * worst case.
   */
  lemma ChosenWordFits(list: seq<PathObject>, delay: EnterOptions, perCharRandomized: bool,
                       remainingTurnTime: int32, wordIndex: int32) returns (j: int, bound: Bound)
    requires delay.delayEnabled
    requires ChooseBestWord(Some(list), delay, perCharRandomized, remainingTurnTime, wordIndex).Success?
    requires ChooseBestWord(Some(list), delay, perCharRandomized, remainingTurnTime, wordIndex).value.0.Some?
    ensures 0 <= j < |list|
    ensures ChooseBestWord(Some(list), delay, perCharRandomized, remainingTurnTime, wordIndex).value == (Some(list[j].content), false)
    ensures Fits(delay, bound, Remain(remainingTurnTime), list[j].content)
    ensures |Filtered(list[..j], FitsUnder(delay, bound, Remain(remainingTurnTime)))| == wordIndex
    ensures bound == BestCase ==> perCharRandomized && |Filtered(list, FitsUnder(delay, WorstCase, Remain(remainingTurnTime)))| <= wordIndex
  {
    var remain := Remain(remainingTurnTime);
    if wordIndex < |Filtered(list, FitsUnder(delay, WorstCase, remain))| {
      bound := WorstCase;
    } else {
      bound := BestCase;
    }
    j := FilteredFrom(list, FitsUnder(delay, bound, remain), wordIndex);
  }

  /**
   * With delays on, the turn times out exactly when fewer than wordIndex + 1
   * words fit in the worst case and, if the per-char delays are randomised,
   * fewer than wordIndex + 1 fit in the best case.
   */
  lemma TimeoutIffNothingFits(list: seq<PathObject>, delay: EnterOptions, perCharRandomized: bool,
                              remainingTurnTime: int32, wordIndex: int32)
    requires delay.delayEnabled && wordIndex >= 0
    ensures ChooseBestWord(Some(list), delay, perCharRandomized, remainingTurnTime, wordIndex) == Success((None, true))
      <==> && |Filtered(list, FitsUnder(delay, WorstCase, Remain(remainingTurnTime)))| <= wordIndex
           && (perCharRandomized ==> |Filtered(list, FitsUnder(delay, BestCase, Remain(remainingTurnTime)))| <= wordIndex)
  {
  }

  /** A word typed within 300 ms in the worst case is never filtered out, however little turn time is left. */
  lemma ShortWordsAlwaysFit(delay: EnterOptions, remainingTurnTime: int32, word: string)
    requires GetMaxDelay(delay, Some(word)) <= 300
    ensures Fits(delay, WorstCase, Remain(remainingTurnTime), word)
  {
  }

  /** Without overflow, a word that fits in the worst case fits in the best case too, so the second filter only widens the first. */
  lemma WorstFitImpliesBestFit(delay: EnterOptions, remain: int, word: string)
    requires delay.delayEnabled && NonNegative(delay)
    requires |word| <= Max && NoOverflow(delay, |word|)
    requires Fits(delay, WorstCase, remain, word)
    ensures Fits(delay, BestCase, remain, word)
  {
    MinDelayNotAboveMax(delay, Some(word));
  }
}
