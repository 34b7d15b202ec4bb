// PathManager: the word sets the path finder keeps between turns (words
// already used in the round, words the game refused, words it refused as
// nonexistent), the node-presence check that feeds word flags, the word the
// next search starts from, and the filter that turns a search result into
// the list of words the player may still use. The node lists it loads, the
// database update and the reader-writer lock around the sets are not part
// of this model.
module PathManaging {
  import opened Text
  import opened KkutuTypes
  import opened WordToNode
  import opened PathObjects
  import opened Wrappers

  /** A mutable collection of nodes handed to CheckNodePresence (an ICollection<string>). */
  class NodeCollection {
    var items: set<string>

    constructor(items: set<string>)
      ensures this.items == items
    {
      this.items := items;
    }

    method Add(node: string)
      modifies this
      ensures items == old(items) + {node}
    {
      items := items + {node};
    }
  }

  /** The answer CheckNodePresence gives, the flags it leaves and the node it adds, if any. */
  datatype Presence = Presence(added: bool, flags: WordFlags, addedNode: Option<string>)

  /**
   * CheckNodePresence: nothing for a blank node, a missing list, or a tryAdd
   * without a node type; otherwise theFlag is set when the node is listed,
   * and with tryAdd an unlisted node whose flag is already set is added,
   * which is the only case that answers true.
   */
  function PresenceOf(nodeType: Option<string>, node: string, nodeList: Option<set<string>>, theFlag: WordFlags,
                      flags: WordFlags, tryAdd: bool): (r: Presence)
    ensures r.added <==> r.addedNode.Some?
    ensures r.added ==> r.addedNode == Some(node) && nodeList.Some? && node !in nodeList.value && theFlag <= flags && tryAdd
    ensures r.flags == if nodeList.Some? && !IsBlank(node) && node in nodeList.value && !(tryAdd && (nodeType.None? || |nodeType.value| == 0))
                       then flags + theFlag else flags
  {
    if (tryAdd && (nodeType.None? || |nodeType.value| == 0)) || IsBlank(node) || nodeList.None? then Presence(false, flags, Wrappers.None)
    else if node in nodeList.value then Presence(false, flags + theFlag, Wrappers.None)
    else if tryAdd && theFlag <= flags then Presence(true, flags, Some(node))
    else Presence(false, flags, Wrappers.None)
  }

  /** The list after a check: the added node, if any, joins it. */
  function AfterPresence(nodeList: set<string>, p: Presence): set<string>
  {
    if p.addedNode.Some? then nodeList + {p.addedNode.value} else nodeList
  }

  /**
   * Checking a node again after a check on the same list finds it present
   * when it was present or was just added, and then never adds: a repeated
   * check is stable.
   */
  lemma PresenceStable(nodeType: Option<string>, node: string, nodeList: set<string>, theFlag: WordFlags,
                       flags: WordFlags, tryAdd: bool)
    requires !IsBlank(node) && (tryAdd ==> nodeType.Some? && |nodeType.value| > 0)
    ensures var p := PresenceOf(nodeType, node, Some(nodeList), theFlag, flags, tryAdd);
      var q := PresenceOf(nodeType, node, Some(AfterPresence(nodeList, p)), theFlag, p.flags, tryAdd);
      && !q.added && AfterPresence(AfterPresence(nodeList, p), q) == AfterPresence(nodeList, p)
      && (node in AfterPresence(nodeList, p) <==> node in nodeList || p.added)
      && (theFlag <= q.flags <==> node in nodeList || p.added || theFlag <= flags)
  {
  }

  /** PathManager.ConvertToPresentedWord: the node the next search starts from, none for the free modes; a blank word throws. */
  function ConvertToPresentedWord(mode: GameMode, path: string): (r: Result<Option<string>>)
    ensures r.Failure? <==> IsBlank(path)
    ensures r.Success? && r.value.Some? ==> 0 < |r.value.value| <= 2
    ensures r.Success? && r.value.Some? && mode != MiddleAndFirst ==> IsEnd(r.value.value, path)
    ensures r.Success? && mode == MiddleAndFirst ==> (r.value.Some? <==> |path| > 2 && |path| % 2 == 1)
    ensures r.Success? && mode in {LastAndFirst, KungKungTta, LastAndFirstFree, FirstAndLast, Kkutu} ==> r.value.Some?
    ensures r.Success? && mode !in {LastAndFirst, KungKungTta, LastAndFirstFree, FirstAndLast, MiddleAndFirst, Kkutu} ==> r.value.None?
  {
    if IsBlank(path) then Failure(Argument)
    else
      NodesAreEnds(path);
      match mode
      case LastAndFirst => Success(Some(LaFTail(path)))
      case KungKungTta => Success(Some(LaFTail(path)))
      case LastAndFirstFree => Success(Some(LaFTail(path)))
      case FirstAndLast => Success(Some(FaLHead(path)))
      case MiddleAndFirst => if |path| > 2 && |path| % 2 == 1 then Success(Some(MaFTail(path))) else Success(Wrappers.None)
      case Kkutu => Success(Some(KkutuTail(path)))
      case _ => Success(Wrappers.None)
  }

  /** For the chain modes the presented word is the tail node the word offers the next player. */
  lemma PresentedWordIsTail(mode: GameMode, path: string)
    requires !IsBlank(path)
    ensures mode == LastAndFirst ==> ConvertToPresentedWord(mode, path) == Success(Some([path[|path| - 1]]))
    ensures mode == FirstAndLast ==> ConvertToPresentedWord(mode, path) == Success(Some([path[|path| - 1]]))
    ensures mode == Kkutu && |path| >= 4 ==> ConvertToPresentedWord(mode, path) == Success(Some(path[|path| - 2..]))
    ensures mode == MiddleAndFirst && |path| > 2 && |path| % 2 == 1 ==>
      ConvertToPresentedWord(mode, path) == Success(Some([path[|path| / 2]]))
  {
    if |path| % 2 == 1 {
      MaFTailIsMiddle(path);
    }
  }

  /** The words of a search result the player may use: neither refused nor used before, in the order of the result. */
  function Qualified(words: seq<PathObject>, unsupported: set<string>, previous: set<string>): (r: seq<PathObject>)
    ensures |r| <= |words|
    decreases |words|
  {
    if |words| == 0 then []
    else
      var last := words[|words| - 1];
      Qualified(words[..|words| - 1], unsupported, previous)
        + (if last.content !in unsupported && last.content !in previous then [last] else [])
  }

  /** A word is qualified exactly when it is in the result and neither refused nor used. */
  lemma {:induction false} QualifiedMembers(words: seq<PathObject>, unsupported: set<string>, previous: set<string>, w: PathObject)
    ensures w in Qualified(words, unsupported, previous) <==> w in words && w.content !in unsupported && w.content !in previous
    decreases |words|
  {
    if |words| > 0 {
      var init := words[..|words| - 1];
      QualifiedMembers(init, unsupported, previous, w);
      assert words == init + [words[|words| - 1]];
    }
  }

  /** Filtering a concatenation is concatenating the filtered parts, so the filter keeps the order of the result. */
  lemma {:induction false} QualifiedAppend(a: seq<PathObject>, b: seq<PathObject>, unsupported: set<string>, previous: set<string>)
    ensures Qualified(a + b, unsupported, previous) == Qualified(a, unsupported, previous) + Qualified(b, unsupported, previous)
    decreases |b|
  {
    if |b| == 0 {
      assert a + b == a;
    } else {
      var b' := b[..|b| - 1];
      QualifiedAppend(a, b', unsupported, previous);
      assert (a + b)[..|a + b| - 1] == a + b';
    }
  }

  class PathManager {
    var inexistentPathList: set<string>
    var newPathList: set<string>
    var previousPath: set<string>
    var unsupportedPathList: set<string>

    /** A manager with empty word sets. */
    constructor()
      ensures inexistentPathList == {} && newPathList == {} && previousPath == {} && unsupportedPathList == {}
    {
      inexistentPathList, newPathList, previousPath, unsupportedPathList := {}, {}, {}, {};
    }

    /** AddPreviousPath: a word that is not blank joins the used words; nothing else changes. */
    method AddPreviousPath(word: string)
      modifies this
      ensures previousPath == if IsBlank(word) then old(previousPath) else old(previousPath) + {word}
      ensures unchanged(this`inexistentPathList, this`newPathList, this`unsupportedPathList)
    {
      if !IsBlank(word) {
        previousPath := previousPath + {word};
      }
    }

    /** AddToUnsupportedWord: a word that is not blank joins the refused words, and the nonexistent ones when the game said so. */
    method AddToUnsupportedWord(word: string, isNonexistent: bool)
      modifies this
      ensures unsupportedPathList == if IsBlank(word) then old(unsupportedPathList) else old(unsupportedPathList) + {word}
      ensures inexistentPathList == if IsBlank(word) || !isNonexistent then old(inexistentPathList) else old(inexistentPathList) + {word}
      ensures unchanged(this`newPathList, this`previousPath)
    {
      if !IsBlank(word) {
        unsupportedPathList := unsupportedPathList + {word};
        if isNonexistent {
          inexistentPathList := inexistentPathList + {word};
        }
      }
    }

    /** ResetPreviousPath: the used words are forgotten. */
    method ResetPreviousPath()
      modifies this
      ensures previousPath == {}
      ensures unchanged(this`inexistentPathList, this`newPathList, this`unsupportedPathList)
    {
      previousPath := {};
    }

    /**
     * CheckNodePresence, with the ref flags as an in and an out parameter:
     * the answer and flags of PresenceOf, and the list gains the node it
     * adds.
     */
    method CheckNodePresence(nodeType: Option<string>, node: string, nodeList: Option<NodeCollection>, theFlag: WordFlags,
                             flags: WordFlags, tryAdd: bool) returns (added: bool, flagsOut: WordFlags)
      modifies if nodeList.Some? then {nodeList.value} else {}
      ensures var p := PresenceOf(nodeType, node, if nodeList.Some? then Some(old(nodeList.value.items)) else Wrappers.None, theFlag, flags, tryAdd);
        && added == p.added && flagsOut == p.flags
        && (nodeList.Some? ==> nodeList.value.items == AfterPresence(old(nodeList.value.items), p))
    {
      flagsOut := flags;
      if (tryAdd && (nodeType.None? || |nodeType.value| == 0)) || IsBlank(node) || nodeList.None? {
        return false, flagsOut;
      }
      var present := node in nodeList.value.items;
      if present {
        flagsOut := flagsOut + theFlag;
      } else if tryAdd && theFlag <= flagsOut {
        nodeList.value.Add(node);
        return true, flagsOut;
      }
      return false, flagsOut;
    }

    /** The marks CreateQualifiedWordList leaves on a word it has looked at. */
    predicate Marked(w: PathObject, removeQueued: bool, excluded: bool, alreadyUsed: bool)
      reads this, w
    {
      && w.removeQueued == (removeQueued || w.content in inexistentPathList)
      && w.excluded == (excluded || w.content in unsupportedPathList)
      && w.alreadyUsed == (alreadyUsed || (w.content !in unsupportedPathList && w.content in previousPath))
    }

    /**
     * CreateQualifiedWordList: the qualified words of the list, in order; on
     * the way every nonexistent word is queued for removal, every refused
     * word excluded and every other used word marked as used. A null list
     * throws ArgumentNullException.
     */
    method CreateQualifiedWordList(wordList: Option<seq<PathObject>>) returns (r: Result<seq<PathObject>>)
      modifies if wordList.Some? then set w | w in wordList.value else {}
      ensures wordList.None? <==> r.Failure?
      ensures wordList.Some? ==> r == Success(Qualified(wordList.value, unsupportedPathList, previousPath))
      ensures wordList.Some? ==> forall w :: w in wordList.value ==>
        Marked(w, old(w.removeQueued), old(w.excluded), old(w.alreadyUsed))
    {
      if wordList.None? {
        return Failure(ArgumentNull);
      }
      var words := wordList.value;
      var qualifiedList: seq<PathObject> := [];
      var i := 0;
      while i < |words|
        invariant 0 <= i <= |words|
        invariant qualifiedList == Qualified(words[..i], unsupportedPathList, previousPath)
        invariant forall w :: w in words[..i] ==> Marked(w, old(w.removeQueued), old(w.excluded), old(w.alreadyUsed))
        invariant forall w :: w in words && w !in words[..i] ==>
          w.removeQueued == old(w.removeQueued) && w.excluded == old(w.excluded) && w.alreadyUsed == old(w.alreadyUsed)
      {
        var word := words[i];
        MarkWord(word);
        if word.content !in unsupportedPathList && word.content !in previousPath {
          qualifiedList := qualifiedList + [word];
        }
        assert words[..i + 1][..i] == words[..i];
        assert words[..i + 1] == words[..i] + [word];
        i := i + 1;
      }
      assert words[..i] == words;
      return Success(qualifiedList);
    }

    /** The marks of one word of CreateQualifiedWordList: queued, then excluded or else used. */
    method MarkWord(word: PathObject)
      modifies word
      ensures Marked(word, old(word.removeQueued), old(word.excluded), old(word.alreadyUsed))
    {
      if word.content in inexistentPathList {
        word.removeQueued := true;
      }
      if word.content in unsupportedPathList {
        word.excluded := true;
      } else if word.content in previousPath {
        word.alreadyUsed := true;
      }
    }
  }
}
