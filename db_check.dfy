// DbCheckJob: the database integrity check. Every stored word is tested for
// validity; an invalid word, or one the online dictionary rejects, is queued
// for deletion, and otherwise each of its index columns, its flags and its
// choseong is compared with the value computed from the word, a differing
// value being noted in that column's correction dictionary. Deduplication,
// the node list refresh, the UPDATE and DELETE statements that apply the
// corrections, VACUUM and the timing logs are database I/O and are not part
// of this model. WordFlagsRecalculator.GetWordFlags, string.GetChoseong and
// the browser's online check are not part of this model either; they are
// parameters.
module DbCheck {
  import opened KkutuTypes
  import opened WordToNode
  import opened Text
  import Wrappers

  /** A char the pattern [^a-zA-Z0-9ㄱ-ㅎ가-힣] does not match. */
  predicate IsWordChar(c: char)
  {
    || 'a' <= c <= 'z' || 'A' <= c <= 'Z' || '0' <= c <= '9'
    || 'ㄱ' <= c <= 'ㅎ'
    || '가' <= c <= '힣'
  }

  /** The pattern finds a match somewhere in s. */
  predicate HasNonWordChar(s: string)
  {
    exists i :: 0 <= i < |s| && !IsWordChar(s[i])
  }

  /** The chars an invalid word may start with. */
  const OpeningMarks: set<char> := {'(', '{', '[', '-', '.'}

  /** The chars an invalid word may end with. */
  const ClosingMarks: set<char> := {')', '}', ']'}

  /** SimpleMatch: the chars an invalid word may contain. */
  const SimpleMatch: seq<char> := [' ', ':', ';', '?', '!']

  /**
   * IsInvalid: a one-char word, a word opening with a bracket, '-' or '.',
   * one closing with a bracket, one containing a SimpleMatch char and one
   * the pattern matches are invalid. The first char of an empty word is
   * read before anything else is tested, which throws.
   */
  function IsInvalid(content: string): (r: Wrappers.Result<bool>)
    ensures r.Failure? <==> |content| == 0
    ensures r.Failure? ==> r.error == Wrappers.IndexOutOfRange
    ensures |content| == 1 ==> r == Wrappers.Success(true)
    ensures |content| >= 2 && (content[0] in OpeningMarks || content[|content| - 1] in ClosingMarks) ==> r == Wrappers.Success(true)
  {
    if |content| == 1 then Wrappers.Success(true)
    else if |content| == 0 then Wrappers.Failure(Wrappers.IndexOutOfRange)
    else if content[0] in OpeningMarks then Wrappers.Success(true)
    else
      Wrappers.Success(
        || content[|content| - 1] in ClosingMarks
        || (exists k :: 0 <= k < |SimpleMatch| && SimpleMatch[k] in content)
        || HasNonWordChar(content))
  }

  /**
   * Every mark and SimpleMatch char is one the pattern matches, so a word
   * of two chars or more is invalid exactly when it has a char outside
   * a-zA-Z0-9ㄱ-ㅎ가-힣.
   */
  lemma InvalidIffNonWordChar(content: string)
    requires |content| >= 2
    ensures IsInvalid(content) == Wrappers.Success(HasNonWordChar(content))
  {
    var n := |content|;
    if content[0] in OpeningMarks {
      assert !IsWordChar(content[0]);
    } else if content[n - 1] in ClosingMarks {
      assert !IsWordChar(content[n - 1]);
    } else if k :| 0 <= k < |SimpleMatch| && SimpleMatch[k] in content {
      var i :| 0 <= i < n && content[i] == SimpleMatch[k];
      assert !IsWordChar(content[i]);
    }
  }

  /** What VerifyWordFlags writes: the recalculated flags with the preserved flags of the stored value kept. */
  function CorrectFlags(recalculated: WordFlags, current: WordFlags): (r: WordFlags)
    ensures r * PreservedFlags == recalculated * PreservedFlags + current * PreservedFlags
    ensures r - PreservedFlags == recalculated - PreservedFlags
  {
    recalculated + current * PreservedFlags
  }

  /** A corrected value passes the next check: correcting it again gives it back. */
  lemma CorrectFlagsIdempotent(recalculated: WordFlags, current: WordFlags)
    ensures CorrectFlags(recalculated, CorrectFlags(recalculated, current)) == CorrectFlags(recalculated, current)
  {
    var c := CorrectFlags(recalculated, current);
    assert c * PreservedFlags == recalculated * PreservedFlags + current * PreservedFlags;
  }

  /**
   * Noting a value in a correction dictionary: nothing when the stored
   * value is right, otherwise IDictionary.Add of the right value, which
   * throws when the word has an entry already.
   */
  function Noted<V(==)>(entries: map<string, V>, word: string, current: V, correct: V): (r: Wrappers.Result<map<string, V>>)
  {
    if correct == current then Wrappers.Success(entries)
    else if word in entries then Wrappers.Failure(Wrappers.Argument)
    else Wrappers.Success(entries[word := correct])
  }

  /**
   * Noting throws exactly when a different value meets an entry of the
   * word; otherwise the entries are kept and the word gets the correct
   * value when the stored one differs.
   */
  lemma NotedEntries<V>(entries: map<string, V>, word: string, current: V, correct: V)
    ensures Noted(entries, word, current, correct).Failure? <==> correct != current && word in entries
    ensures Noted(entries, word, current, correct).Failure? ==> Noted(entries, word, current, correct).error == Wrappers.Argument
    ensures var r := Noted(entries, word, current, correct);
      r.Success? ==> r.value.Keys == entries.Keys + (if correct != current then {word} else {})
    ensures var r := Noted(entries, word, current, correct);
      r.Success? ==> forall w :: w in entries ==> r.value[w] == entries[w]
    ensures var r := Noted(entries, word, current, correct);
      r.Success? && correct != current ==> r.value[word] == correct
  {
  }

  /** A correction dictionary of the check, keyed by word. */
  class Correction<V> {
    var entries: map<string, V>

    /** An empty dictionary. */
    constructor()
      ensures entries == map[]
    {
      entries := map[];
    }
  }

  /**
   * Notes the correct value of a column of a word in the dictionary unless
   * it is already stored; the result says whether an entry was added.
   */
  method Note<V(==)>(correction: Correction<V>, word: string, current: V, correct: V) returns (r: Wrappers.Result<bool>)
    modifies correction
    ensures r.Failure? <==> Noted(old(correction.entries), word, current, correct).Failure?
    ensures r.Failure? ==> r.error == Noted(old(correction.entries), word, current, correct).error
    ensures r.Failure? ==> correction.entries == old(correction.entries)
    ensures r.Success? ==> correction.entries == Noted(old(correction.entries), word, current, correct).value
    ensures r.Success? ==> (r.value <==> correct != current)
  {
    if correct == current {
      return Wrappers.Success(false);
    }
    if word in correction.entries {
      return Wrappers.Failure(Wrappers.Argument);
    }
    correction.entries := correction.entries[word := correct];
    r := Wrappers.Success(true);
  }

  /** VerifyWordFlags: the corrected flags are noted when they differ from the stored ones. */
  method VerifyWordFlags(recalculated: WordFlags, word: string, currentFlags: WordFlags, correction: Correction<WordFlags>)
    returns (r: Wrappers.Result<bool>)
    modifies correction
    ensures var n := Noted(old(correction.entries), word, currentFlags, CorrectFlags(recalculated, currentFlags));
      && (r.Failure? <==> n.Failure?)
      && (r.Failure? ==> r.error == n.error)
      && correction.entries == (if n.Success? then n.value else old(correction.entries))
  {
    r := Note(correction, word, currentFlags, CorrectFlags(recalculated, currentFlags));
  }

  /** The three word index columns and the node each stores. */
  datatype IndexColumn = WordIndexColumn | ReverseWordIndexColumn | KkutuWordIndexColumn

  /**
   * The supplier of a column: the LastAndFirst head, the FirstAndLast head
   * or the Kkutu head. The first two throw on an empty word: word[0]
   * throws IndexOutOfRange and Last() throws InvalidOperation.
   */
  function CorrectIndex(column: IndexColumn, word: string): (r: Wrappers.Result<string>)
    ensures r.Failure? <==> |word| == 0 && column != KkutuWordIndexColumn
    ensures r.Failure? ==> r.error == (if column == WordIndexColumn then Wrappers.IndexOutOfRange else Wrappers.InvalidOperation)
    ensures r.Success? ==> IsEnd(r.value, word) && |r.value| <= 2
  {
    if column.KkutuWordIndexColumn? then Wrappers.Success(KkutuHead(word))
    else if |word| == 0 then
      Wrappers.Failure(if column.WordIndexColumn? then Wrappers.IndexOutOfRange else Wrappers.InvalidOperation)
    else
      NodesAreEnds(word);
      Wrappers.Success(if column.WordIndexColumn? then LaFHead(word) else FaLHead(word))
  }

  /** VerifyWordIndexes: the node the column should hold is noted when it differs from the stored one. */
  method VerifyWordIndexes(column: IndexColumn, word: string, currentWordIndex: string, correction: Correction<string>)
    returns (r: Wrappers.Result<bool>)
    modifies correction
    ensures CorrectIndex(column, word).Failure? ==> r.Failure? && r.error == CorrectIndex(column, word).error && unchanged(correction)
    ensures CorrectIndex(column, word).Success? ==>
      var n := Noted(old(correction.entries), word, currentWordIndex, CorrectIndex(column, word).value);
      && (r.Failure? <==> n.Failure?)
      && (r.Failure? ==> r.error == n.error)
      && correction.entries == (if n.Success? then n.value else old(correction.entries))
  {
    var correct := CorrectIndex(column, word);
    if correct.Failure? {
      return Wrappers.Failure(correct.error);
    }
    r := Note(correction, word, currentWordIndex, correct.value);
  }

  /** VerifyChoseong: the choseong of the word is noted when it differs from the stored one. */
  method VerifyChoseong(word: string, wordChoseong: string, newCho: string, correction: Correction<string>)
    returns (r: Wrappers.Result<bool>)
    modifies correction
    ensures var n := Noted(old(correction.entries), word, wordChoseong, newCho);
      && (r.Failure? <==> n.Failure?)
      && (r.Failure? ==> r.error == n.error)
      && correction.entries == (if n.Success? then n.value else old(correction.entries))
  {
    r := Note(correction, word, wordChoseong, newCho);
  }

  /** A row of the word table, as the check reads it. */
  datatype WordModel = WordModel(
    word: string, wordIndex: string, reverseWordIndex: string, kkutuWordIndex: string,
    flags: WordFlags, choseong: string)

  /** What the search for problems collects: the words to delete and the five correction dictionaries. */
  datatype Problems = Problems(
    deletionList: seq<string>,
    wordIndex: map<string, string>, reverseWordIndex: map<string, string>, kkutuIndex: map<string, string>,
    flags: map<string, WordFlags>, choseong: map<string, string>)

  /** The external checks the search consults. */
  datatype Oracles = Oracles(
    recalc: string -> WordFlags,
    choseongOf: string -> string,
    rejectedOnline: string -> bool)

  /** Nothing found yet. */
  const NoProblems := Problems([], map[], map[], map[], map[], map[])

  /** The search over the rows in the order given, stopping at the first exception (the job then logs it and fixes nothing). */
  function Search(rows: seq<WordModel>, o: Oracles): Wrappers.Result<Problems>
    decreases |rows|
  {
    if |rows| == 0 then Wrappers.Success(NoProblems)
    else
      var before := Search(rows[..|rows| - 1], o);
      if before.Failure? then before else Step(before.value, rows[|rows| - 1], o)
  }

  /**
   * One row: an invalid word, or one the online check rejects, joins the
   * deletion list; any other word has its three indexes, its flags and its
   * choseong checked in that order.
   */
  function Step(p: Problems, e: WordModel, o: Oracles): Wrappers.Result<Problems>
  {
    var invalid := IsInvalid(e.word);
    if invalid.Failure? then Wrappers.Failure(invalid.error)
    else if invalid.value || o.rejectedOnline(Trim(e.word)) then Wrappers.Success(p.(deletionList := p.deletionList + [e.word]))
    else Checked(p, e, o)
  }

  /** The five checks of a valid word. */
  function Checked(p: Problems, e: WordModel, o: Oracles): (r: Wrappers.Result<Problems>)
    requires |e.word| >= 2
    ensures r.Success? ==> r.value.deletionList == p.deletionList
  {
    var w := e.word;
    var a := Noted(p.wordIndex, w, e.wordIndex, LaFHead(w));
    var b := Noted(p.reverseWordIndex, w, e.reverseWordIndex, FaLHead(w));
    var c := Noted(p.kkutuIndex, w, e.kkutuWordIndex, KkutuHead(w));
    var d := Noted(p.flags, w, e.flags, CorrectFlags(o.recalc(w), e.flags));
    var f := Noted(p.choseong, w, e.choseong, o.choseongOf(w));
    if a.Failure? then Wrappers.Failure(a.error)
    else if b.Failure? then Wrappers.Failure(b.error)
    else if c.Failure? then Wrappers.Failure(c.error)
    else if d.Failure? then Wrappers.Failure(d.error)
    else if f.Failure? then Wrappers.Failure(f.error)
    else Wrappers.Success(p.(wordIndex := a.value, reverseWordIndex := b.value, kkutuIndex := c.value, flags := d.value, choseong := f.value))
  }

  /** The row is one the search deletes. */
  predicate Deleted(e: WordModel, o: Oracles)
  {
    |e.word| > 0 && (IsInvalid(e.word).value || o.rejectedOnline(Trim(e.word)))
  }

  /** The words of the rows the search deletes, in row order. */
  function DeletedWords(rows: seq<WordModel>, o: Oracles): seq<string>
    decreases |rows|
  {
    if |rows| == 0 then []
    else DeletedWords(rows[..|rows| - 1], o) + (if Deleted(rows[|rows| - 1], o) then [rows[|rows| - 1].word] else [])
  }

  /** The words of the rows. */
  function Words(rows: seq<WordModel>): set<string>
  {
    set e | e in rows :: e.word
  }

  /** Every entry of a dictionary passes a test of its word and value. */
  predicate AllHold<V>(entries: map<string, V>, ok: (string, V) -> bool)
  {
    forall w :: w in entries ==> ok(w, entries[w])
  }

  /** The WordIndex column of a valid word is its LastAndFirst head. */
  predicate RightWordIndex(w: string, v: string)
  {
    |w| >= 2 && v == LaFHead(w)
  }

  /** The ReverseWordIndex column of a valid word is its FirstAndLast head. */
  predicate RightReverseIndex(w: string, v: string)
  {
    |w| >= 2 && v == FaLHead(w)
  }

  /** The KkutuWordIndex column is the Kkutu head. */
  predicate RightKkutuIndex(w: string, v: string)
  {
    v == KkutuHead(w)
  }

  /** Outside the preserved flags, the flags are the recalculated ones. */
  function RightFlags(o: Oracles): (string, WordFlags) -> bool
  {
    (w, v) => v - PreservedFlags == o.recalc(w) - PreservedFlags
  }

  /** The Choseong column is the choseong of the word. */
  function RightChoseong(o: Oracles): (string, string) -> bool
  {
    (w, v) => v == o.choseongOf(w)
  }

  /** Every key of a correction dictionary holds the value computed from the word. */
  predicate RightValues(p: Problems, o: Oracles)
  {
    && AllHold(p.wordIndex, RightWordIndex)
    && AllHold(p.reverseWordIndex, RightReverseIndex)
    && AllHold(p.kkutuIndex, RightKkutuIndex)
    && AllHold(p.flags, RightFlags(o))
    && AllHold(p.choseong, RightChoseong(o))
  }

  /** Every key of a correction dictionary is a word of the given set. */
  predicate KeysWithin(p: Problems, words: set<string>)
  {
    p.wordIndex.Keys + p.reverseWordIndex.Keys + p.kkutuIndex.Keys + p.flags.Keys + p.choseong.Keys <= words
  }

  /** Noting a value that passes the test keeps every entry passing it, and adds no key but the word. */
  lemma NotedKeepsAllHold<V>(entries: map<string, V>, word: string, current: V, correct: V, ok: (string, V) -> bool)
    requires AllHold(entries, ok) && ok(word, correct) && Noted(entries, word, current, correct).Success?
    ensures AllHold(Noted(entries, word, current, correct).value, ok)
    ensures Noted(entries, word, current, correct).value.Keys <= entries.Keys + {word}
  {
    NotedEntries(entries, word, current, correct);
  }

  /** One checked row adds at most its own word as a key, with the computed values. */
  lemma CheckedAddsRightValues(p: Problems, e: WordModel, o: Oracles, words: set<string>)
    requires |e.word| >= 2 && Checked(p, e, o).Success?
    requires RightValues(p, o) && KeysWithin(p, words)
    ensures RightValues(Checked(p, e, o).value, o)
    ensures KeysWithin(Checked(p, e, o).value, words + {e.word})
    ensures Checked(p, e, o).value.deletionList == p.deletionList
  {
    var w := e.word;
    NotedKeepsAllHold(p.wordIndex, w, e.wordIndex, LaFHead(w), RightWordIndex);
    NotedKeepsAllHold(p.reverseWordIndex, w, e.reverseWordIndex, FaLHead(w), RightReverseIndex);
    NotedKeepsAllHold(p.kkutuIndex, w, e.kkutuWordIndex, KkutuHead(w), RightKkutuIndex);
    NotedKeepsAllHold(p.flags, w, e.flags, CorrectFlags(o.recalc(w), e.flags), RightFlags(o));
    NotedKeepsAllHold(p.choseong, w, e.choseong, o.choseongOf(w), RightChoseong(o));
  }

  /** A row whose word has no entry yet in any dictionary is checked without an exception. */
  lemma CheckedSucceeds(p: Problems, e: WordModel, o: Oracles)
    requires |e.word| >= 2
    requires e.word !in p.wordIndex && e.word !in p.reverseWordIndex && e.word !in p.kkutuIndex
    requires e.word !in p.flags && e.word !in p.choseong
    ensures Checked(p, e, o).Success?
  {
    var w := e.word;
    NotedEntries(p.wordIndex, w, e.wordIndex, LaFHead(w));
    NotedEntries(p.reverseWordIndex, w, e.reverseWordIndex, FaLHead(w));
    NotedEntries(p.kkutuIndex, w, e.kkutuWordIndex, KkutuHead(w));
    NotedEntries(p.flags, w, e.flags, CorrectFlags(o.recalc(w), e.flags));
    NotedEntries(p.choseong, w, e.choseong, o.choseongOf(w));
  }

  /** One row either joins the deletion list or adds right values under its own word only. */
  lemma StepFindings(p: Problems, e: WordModel, o: Oracles, words: set<string>)
    requires Step(p, e, o).Success? && RightValues(p, o) && KeysWithin(p, words)
    ensures Step(p, e, o).value.deletionList == p.deletionList + (if Deleted(e, o) then [e.word] else [])
    ensures RightValues(Step(p, e, o).value, o)
    ensures KeysWithin(Step(p, e, o).value, words + {e.word})
  {
    if !Deleted(e, o) {
      CheckedAddsRightValues(p, e, o, words);
    }
  }

  /**
   * A successful search deletes exactly the rows whose word is invalid or
   * rejected online, keeps the row order, and notes corrections only for
   * words of the rows, each with the value computed from the word.
   */
  lemma {:induction false} SearchFindings(rows: seq<WordModel>, o: Oracles)
    requires Search(rows, o).Success?
    ensures Search(rows, o).value.deletionList == DeletedWords(rows, o)
    ensures RightValues(Search(rows, o).value, o)
    ensures KeysWithin(Search(rows, o).value, Words(rows))
    decreases |rows|
  {
    if |rows| > 0 {
      var init := rows[..|rows| - 1];
      var e := rows[|rows| - 1];
      SearchFindings(init, o);
      assert Words(init) + {e.word} <= Words(rows);
      StepFindings(Search(init, o).value, e, o, Words(init));
    }
  }

  /** Once an exception is thrown, the rest of the rows change nothing about the outcome. */
  lemma {:induction false} FailureSticks(rows: seq<WordModel>, o: Oracles, i: int)
    requires 0 <= i <= |rows| && Search(rows[..i], o).Failure?
    ensures Search(rows, o) == Search(rows[..i], o)
    decreases |rows| - i
  {
    if i < |rows| {
      assert rows[..i + 1][..i] == rows[..i];
      FailureSticks(rows, o, i + 1);
    } else {
      assert rows[..i] == rows;
    }
  }

  /** A non-empty word with no entry yet is deleted or checked without an exception. */
  lemma StepSucceeds(p: Problems, e: WordModel, o: Oracles, words: set<string>)
    requires |e.word| > 0 && KeysWithin(p, words) && e.word !in words
    ensures Step(p, e, o).Success?
  {
    if !Deleted(e, o) {
      CheckedSucceeds(p, e, o);
    }
  }

  /**
   * With distinct non-empty words, as deduplication leaves them, no check
   * throws: no word can meet a dictionary entry of its own.
   */
  lemma {:induction false} DistinctWordsNeverThrow(rows: seq<WordModel>, o: Oracles)
    requires forall i :: 0 <= i < |rows| ==> |rows[i].word| > 0
    requires forall i, j :: 0 <= i < j < |rows| ==> rows[i].word != rows[j].word
    ensures Search(rows, o).Success?
    decreases |rows|
  {
    if |rows| > 0 {
      var init := rows[..|rows| - 1];
      var e := rows[|rows| - 1];
      assert forall i :: 0 <= i < |init| ==> init[i] == rows[i];
      DistinctWordsNeverThrow(init, o);
      SearchFindings(init, o);
      forall x | x in init
        ensures x.word != e.word
      {
        var i :| 0 <= i < |init| && init[i] == x;
      }
      assert e.word !in Words(init);
      StepSucceeds(Search(init, o).value, e, o, Words(init));
    }
  }

  /** The search over one more row is the step of that row after the search so far. */
  lemma SearchExtends(rows: seq<WordModel>, o: Oracles, i: int)
    requires 0 <= i < |rows|
    ensures var before := Search(rows[..i], o);
      Search(rows[..i + 1], o) == if before.Failure? then before else Step(before.value, rows[i], o)
  {
    assert rows[..i + 1][..i] == rows[..i];
  }

  /**
   * The search loop of CheckDB over the rows, with one correction
   * dictionary per column; it returns what Search describes.
   */
  method SearchProblems(rows: seq<WordModel>, o: Oracles) returns (r: Wrappers.Result<Problems>)
    ensures r == Search(rows, o)
  {
    var deletionList: seq<string> := [];
    var wordIndexCorrection := new Correction<string>();
    var reverseWordIndexCorrection := new Correction<string>();
    var kkutuIndexCorrection := new Correction<string>();
    var flagCorrection := new Correction<WordFlags>();
    var choseongCorrection := new Correction<string>();
    ghost var acc := NoProblems;
    var i := 0;
    assert rows[..0] == [];
    while i < |rows|
      invariant 0 <= i <= |rows|
      invariant Search(rows[..i], o) == Wrappers.Success(acc)
      invariant acc.deletionList == deletionList
      invariant acc.wordIndex == wordIndexCorrection.entries
      invariant acc.reverseWordIndex == reverseWordIndexCorrection.entries
      invariant acc.kkutuIndex == kkutuIndexCorrection.entries
      invariant acc.flags == flagCorrection.entries
      invariant acc.choseong == choseongCorrection.entries
    {
      var e := rows[i];
      SearchExtends(rows, o, i);
      var invalid := IsInvalid(e.word);
      if invalid.Failure? {
        FailureSticks(rows, o, i + 1);
        return Wrappers.Failure(invalid.error);
      }
      if invalid.value || o.rejectedOnline(Trim(e.word)) {
        deletionList := deletionList + [e.word];
        acc := acc.(deletionList := acc.deletionList + [e.word]);
      } else {
        var step := CheckRow(e, o, wordIndexCorrection, reverseWordIndexCorrection, kkutuIndexCorrection,
          flagCorrection, choseongCorrection, acc);
        if step.Failure? {
          FailureSticks(rows, o, i + 1);
          return Wrappers.Failure(step.error);
        }
        acc := Checked(acc, e, o).value;
      }
      i := i + 1;
    }
    assert rows[..i] == rows;
    r := Wrappers.Success(Problems(deletionList,
      wordIndexCorrection.entries, reverseWordIndexCorrection.entries, kkutuIndexCorrection.entries,
      flagCorrection.entries, choseongCorrection.entries));
  }

  /** The five Verify calls of a valid word, in the order of the source; the dictionaries then hold Checked. */
  method CheckRow(e: WordModel, o: Oracles,
                  wordIndexCorrection: Correction<string>, reverseWordIndexCorrection: Correction<string>,
                  kkutuIndexCorrection: Correction<string>, flagCorrection: Correction<WordFlags>,
                  choseongCorrection: Correction<string>, ghost p: Problems)
    returns (r: Wrappers.Result<bool>)
    requires |e.word| >= 2
    requires p.wordIndex == wordIndexCorrection.entries && p.reverseWordIndex == reverseWordIndexCorrection.entries
    requires p.kkutuIndex == kkutuIndexCorrection.entries && p.flags == flagCorrection.entries
    requires p.choseong == choseongCorrection.entries
    requires wordIndexCorrection != reverseWordIndexCorrection && wordIndexCorrection != kkutuIndexCorrection
    requires wordIndexCorrection != choseongCorrection && reverseWordIndexCorrection != kkutuIndexCorrection
    requires reverseWordIndexCorrection != choseongCorrection && kkutuIndexCorrection != choseongCorrection
    modifies wordIndexCorrection, reverseWordIndexCorrection, kkutuIndexCorrection, flagCorrection, choseongCorrection
    ensures r.Failure? <==> Checked(p, e, o).Failure?
    ensures r.Failure? ==> r.error == Checked(p, e, o).error
    ensures r.Success? ==>
      && wordIndexCorrection.entries == Checked(p, e, o).value.wordIndex
      && reverseWordIndexCorrection.entries == Checked(p, e, o).value.reverseWordIndex
      && kkutuIndexCorrection.entries == Checked(p, e, o).value.kkutuIndex
      && flagCorrection.entries == Checked(p, e, o).value.flags
      && choseongCorrection.entries == Checked(p, e, o).value.choseong
  {
    var w := e.word;
    var a := VerifyWordIndexes(WordIndexColumn, w, e.wordIndex, wordIndexCorrection);
    if a.Failure? {
      return a;
    }
    var b := VerifyWordIndexes(ReverseWordIndexColumn, w, e.reverseWordIndex, reverseWordIndexCorrection);
    if b.Failure? {
      return b;
    }
    var c := VerifyWordIndexes(KkutuWordIndexColumn, w, e.kkutuWordIndex, kkutuIndexCorrection);
    if c.Failure? {
      return c;
    }
    var d := VerifyWordFlags(o.recalc(w), w, e.flags, flagCorrection);
    if d.Failure? {
      return d;
    }
    r := VerifyChoseong(w, e.choseong, o.choseongOf(w), choseongCorrection);
  }
}
