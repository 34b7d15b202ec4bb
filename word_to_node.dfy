// WordToNodeExtension: the head and tail "nodes" of a word under each rule
// of the word chain. The head is what a word must start with, the tail what
// the next word must start with.
module WordToNode {

  /** LastAndFirst head: the first char. */
  function LaFHead(word: string): (r: string)
    requires |word| > 0
    ensures r == word[..1]
  {
    [word[0]]
  }

  /** FirstAndLast head: the last char. */
  function FaLHead(word: string): (r: string)
    requires |word| > 0
    ensures r == word[|word| - 1..]
  {
    [word[|word| - 1]]
  }

  /** Kkutu head: two chars from four on, one char for three, none below. */
  function KkutuHead(word: string): (r: string)
    ensures |word| >= 4 ==> r == word[..2]
    ensures |word| == 3 ==> r == word[..1]
    ensures |word| < 3 <==> r == []
  {
    if |word| >= 4 then word[..2] else if |word| >= 3 then [word[0]] else ""
  }

  /** LastAndFirst tail: the FirstAndLast head, the last char. */
  function LaFTail(word: string): (r: string)
    requires |word| > 0
    ensures |r| == 1 && r == word[|word| - 1..]
  {
    FaLHead(word)
  }

  /** FirstAndLast tail: the LastAndFirst head, the first char. */
  function FaLTail(word: string): (r: string)
    requires |word| > 0
    ensures |r| == 1 && r == word[..1]
  {
    LaFHead(word)
  }

  /** Kkutu tail: the last two chars from four on, the last char below. */
  function KkutuTail(word: string): (r: string)
    requires |word| > 0
    ensures |word| >= 4 ==> r == word[|word| - 2..]
    ensures |word| < 4 ==> r == word[|word| - 1..]
  {
    if |word| >= 4 then word[|word| - 2..] else [word[|word| - 1]]
  }

  /**
   * MiddleAndFirst tail: the char at (len - 1) / 2, the earlier of the two
   * middle chars when the length is even.
   */
  function MaFTail(word: string): (r: string)
    requires |word| > 0
    ensures r == [word[(|word| - 1) / 2]]
  {
    [word[(|word| - 1) / 2]]
  }

  /** s is a prefix or a suffix of word. */
  predicate IsEnd(s: string, word: string)
  {
    |s| <= |word| && (s == word[..|s|] || s == word[|word| - |s|..])
  }

  /** The tails and heads swap between LastAndFirst and FirstAndLast. */
  lemma TailsAreHeads(word: string)
    requires |word| > 0
    ensures LaFTail(word) == FaLHead(word) == [word[|word| - 1]]
    ensures FaLTail(word) == LaFHead(word) == [word[0]]
  {
  }

  /**
   * Every LastAndFirst, FirstAndLast and Kkutu node is one or two chars at
   * one end of the word; the only empty one is the Kkutu head of a word
   * shorter than three chars.
   */
  lemma NodesAreEnds(word: string)
    requires |word| > 0
    ensures IsEnd(LaFHead(word), word) && |LaFHead(word)| == 1
    ensures IsEnd(FaLHead(word), word) && |FaLHead(word)| == 1
    ensures IsEnd(KkutuTail(word), word) && 1 <= |KkutuTail(word)| <= 2
    ensures IsEnd(KkutuHead(word), word)
    ensures |word| >= 3 <==> 1 <= |KkutuHead(word)| <= 2
  {
  }

  /** For an odd length the MiddleAndFirst tail is the exact middle char. */
  lemma MaFTailIsMiddle(word: string)
    requires |word| % 2 == 1
    ensures |word[..(|word| - 1) / 2]| == |word[(|word| + 1) / 2..]|
    ensures word == word[..(|word| - 1) / 2] + MaFTail(word) + word[(|word| + 1) / 2..]
  {
    var h := (|word| - 1) / 2;
    assert word == word[..h] + [word[h]] + word[h + 1..];
  }
}
