// FindWordQuery: the word search of one game mode. It picks the end and
// attack flags of the mode, builds the query (an index match on the
// presented word, the flag filters the search options call for, and the
// priority call the results are ordered by) and turns the rows the
// database returns into PathObjects with their categories. The SQL text
// itself is not built: the query is the list of its clauses.
module FindWord {
  import opened Text
  import opened KkutuTypes
  import opened WordCounting
  import opened PathObjects
  import PathDetailing
  import NodeLists
  import Wrappers

  /** SelectFlags: the end and attack flags of a mode's chain rule; every other mode uses the plain pair. */
  function SelectFlags(mode: GameMode): (r: (WordFlag, WordFlag))
    ensures IsEndFlag(r.0) && IsAttackFlag(r.1)
    ensures mode == FirstAndLast ==> r == (ReverseEndWord, ReverseAttackWord)
    ensures mode == MiddleAndFirst ==> r == (MiddleEndWord, MiddleAttackWord)
    ensures mode == Kkutu ==> r == (KkutuEndWord, KkutuAttackWord)
    ensures mode == KungKungTta ==> r == (KKTEndWord, KKTAttackWord)
    ensures mode !in {FirstAndLast, MiddleAndFirst, Kkutu, KungKungTta} ==> r == (WordFlag.EndWord, AttackWord)
  {
    match mode
    case FirstAndLast => (ReverseEndWord, ReverseAttackWord)
    case MiddleAndFirst => (MiddleEndWord, MiddleAttackWord)
    case Kkutu => (KkutuEndWord, KkutuAttackWord)
    case KungKungTta => (KKTEndWord, KKTAttackWord)
    case _ => (WordFlag.EndWord, AttackWord)
  }

  /**
   * The end flag a search uses is the flag of the end list the node manager
   * names for the mode, for every mode but KungKungTta, whose search uses
   * the KungKungTta list while GetEndNodeForMode answers the plain one.
   */
  lemma SelectFlagsMatchesEndNodes(m: NodeLists.NodeManager, mode: GameMode)
    ensures mode != KungKungTta ==> m.ListFor(SelectFlags(mode).0) == m.GetEndNodeForMode(mode)
    ensures mode == KungKungTta ==> m.ListFor(SelectFlags(mode).0) == m.kktEndNodes
  {
  }

  /** Distinct chain rules search by distinct flags. */
  lemma SelectFlagsDistinguishesRules(m1: GameMode, m2: GameMode)
    requires m1 in {LastAndFirst, FirstAndLast, MiddleAndFirst, Kkutu, KungKungTta}
    requires m2 in {LastAndFirst, FirstAndLast, MiddleAndFirst, Kkutu, KungKungTta}
    ensures SelectFlags(m1).0 == SelectFlags(m2).0 <==> m1 == m2
    ensures SelectFlags(m1).1 == SelectFlags(m2).1 <==> m1 == m2
  {
  }

  /** The number of chars of word equal to the first char of missionChar, or 0 when missionChar is blank. */
  function MissionCharCount(word: string, missionChar: string): (n: nat)
    ensures IsBlank(missionChar) ==> n == 0
    ensures !IsBlank(missionChar) ==> n == multiset(word)[missionChar[0]]
    ensures n > 0 ==> missionChar[0] in word
  {
    if IsBlank(missionChar) then 0 else CountChar(word, missionChar[0])
  }

  /**
   * SetupWordCategories: EndWord iff the word carries the mode's end flag,
   * AttackWord iff it carries its attack flag, MissionWord iff the word
   * holds the mission char (compared case-sensitively).
   */
  function SetupWordCategories(word: string, wordFlags: WordFlags, missionChar: string,
                               endWordFlag: WordFlag, attackWordFlag: WordFlag): (r: (WordCategories, nat))
    ensures EndCategory in r.0 <==> endWordFlag in wordFlags
    ensures AttackCategory in r.0 <==> attackWordFlag in wordFlags
    ensures MissionCategory in r.0 <==> r.1 > 0
    ensures r.1 == MissionCharCount(word, missionChar)
  {
    var category: WordCategories := {};
    var category := if endWordFlag in wordFlags then category + {EndCategory} else category;
    var category := if attackWordFlag in wordFlags then category + {AttackCategory} else category;
    var count := MissionCharCount(word, missionChar);
    (if count > 0 then category + {MissionCategory} else category, count)
  }

  /**
   * Where neither the word nor the mission char has a lower-case ASCII
   * letter, the case-sensitive count of SetupWordCategories and the
   * upper-cased count of MissionWordPriority agree; elsewhere they may
   * differ ("a" in "A" counts for the ranking but not for the category).
   */
  lemma MissionCountsAgree(word: string, missionChar: string)
    requires !IsBlank(missionChar)
    requires UpperAll(word) == word && ToUpper(missionChar[0]) == missionChar[0]
    ensures MissionCharCount(word, missionChar) == CountChar(UpperAll(word), ToUpper(missionChar[0]))
  {
  }

  /** The word a search starts from, and the substitute the head-sound rule allows (Substitution is read only when CanSubstitution). */
  datatype PresentedWord = PresentedWord(content: string, canSubstitution: bool, substitution: string)

  /** The options and the word of one search. */
  datatype PathFinderParameter = PathFinderParameter(word: PresentedWord, missionChar: string, options: PathDetailing.PathFlags)

  /** The index columns a search matches the presented word against. */
  datatype IndexColumn = WordIndex | ReverseWordIndex | KkutuIndex
  {
    /** The DatabaseConstants column name. */
    function Name(): string
    {
      match this
      case WordIndex => "word_index"
      case ReverseWordIndex => "reverse_word_index"
      case KkutuIndex => "kkutu_index"
    }
  }

  /** GetIndexColumnName: the reverse index for FirstAndLast, the Kkutu index for a two-char Kkutu word or substitute, else the plain index. */
  function GetIndexColumnName(mode: GameMode, word: PresentedWord): (r: IndexColumn)
    ensures r == ReverseWordIndex <==> mode == FirstAndLast
    ensures r == KkutuIndex <==> mode == Kkutu && (|word.content| == 2 || (word.canSubstitution && |word.substitution| == 2))
  {
    match mode
    case FirstAndLast => ReverseWordIndex
    case Kkutu =>
      if |word.content| == 2 || (word.canSubstitution && |word.substitution| == 2) then KkutuIndex
      else WordIndex
    case _ => WordIndex
  }

  /** First position of x in s, or -1 (Array.IndexOf). */
  function IndexOfCategory(s: seq<WordCategories>, x: WordCategories): (r: int)
    ensures -1 <= r < |s|
    ensures r == -1 <==> x !in s
    ensures r >= 0 ==> s[r] == x && x !in s[..r]
  {
    if |s| == 0 then -1
    else if s[0] == x then 0
    else
      var k := IndexOfCategory(s[1..], x);
      if k < 0 then -1
      else
        assert s[..k + 1] == [s[0]] + s[1..][..k];
        k + 1
  }

  /**
   * GetWordTypePriority: for the preference order of categories, the
   * number of entries after the first occurrence of attributes, so the
   * first entry ranks highest, or -1 when attributes is not listed.
   */
  function GetWordTypePriority(preference: seq<WordCategories>, attributes: WordCategories): (r: int)
    ensures attributes !in preference <==> r == -1
    ensures attributes in preference ==> r == |preference| - 1 - IndexOfCategory(preference, attributes)
    ensures -1 <= r < |preference|
  {
    var index := IndexOfCategory(preference, attributes);
    |preference| - (if index >= 0 then index else |preference|) - 1
  }

  /** A category listed before another ranks above it, and any listed category ranks above an unlisted one. */
  lemma EarlierPreferenceRanksHigher(preference: seq<WordCategories>, i: int, j: int, other: WordCategories)
    requires 0 <= i < j < |preference|
    requires preference[i] !in preference[..i] && preference[j] !in preference[..j]
    requires other !in preference
    ensures GetWordTypePriority(preference, preference[i]) > GetWordTypePriority(preference, preference[j])
    ensures GetWordTypePriority(preference, preference[j]) > GetWordTypePriority(preference, other)
  {
    FirstIndexAt(preference, i);
    FirstIndexAt(preference, j);
  }

  /** An entry that does not occur earlier is found at its own position. */
  lemma FirstIndexAt(s: seq<WordCategories>, i: int)
    requires 0 <= i < |s| && s[i] !in s[..i]
    ensures IndexOfCategory(s, s[i]) == i
  {
    assert s[i] in s;
  }

  /** One clause of the WHERE part. */
  datatype Clause =
    | IndexMatch(column: IndexColumn, withSecondary: bool)  // column = @PrimaryWord [OR column = @SecondaryWord]
    | FlagAbsent(flag: WordFlag)                            // (flags & flag = 0)
    | FlagPresent(flag: WordFlag)                           // (flags & flag != 0)

  /** The priority function call of the ORDER BY part, with its ordinals. */
  datatype PriorityCall =
    | WordPriorityCall(endFlag: WordFlag, attackFlag: WordFlag, endOrdinal: int, attackOrdinal: int, normalOrdinal: int)
    | MissionPriorityCall(endFlag: WordFlag, attackFlag: WordFlag,
        endMissionOrdinal: int, endOrdinal: int, attackMissionOrdinal: int, attackOrdinal: int,
        missionOrdinal: int, normalOrdinal: int)

  /** The query: WHERE clauses joined by AND, the parameters, ORDER BY priority + LENGTH(word) DESC, LIMIT. */
  datatype FindQuery = FindQuery(filter: seq<Clause>, parameters: map<string, string>, order: PriorityCall, limit: int)

  /** A row of the word table: the word and its flags. */
  datatype WordModel = WordModel(word: string, flags: WordFlags)

  /** The three values a PathObject is built from. */
  function Fields(o: PathObject): (string, WordCategories, int)
  {
    (o.content, o.categories, o.missionCharCount)
  }

  class FindWordQuery {
    const mode: GameMode
    const preference: seq<WordCategories>
    const maxCount: int
    const endWordFlag: WordFlag := SelectFlags(mode).0
    const attackWordFlag: WordFlag := SelectFlags(mode).1
    var parameter: Wrappers.Option<PathFinderParameter>

    /** The query of a mode, with the mode's flags; no parameter set yet. */
    constructor(mode: GameMode, preference: seq<WordCategories>, maxCount: int)
      ensures this.mode == mode && this.preference == preference && this.maxCount == maxCount
      ensures (endWordFlag, attackWordFlag) == SelectFlags(mode)
      ensures parameter.None?
    {
      this.mode := mode;
      this.preference := preference;
      this.maxCount := maxCount;
      parameter := Wrappers.None;
    }

    /** The ordinal of a category combination under this query's preference. */
    function Ordinal(attributes: WordCategories): int
    {
      GetWordTypePriority(preference, attributes)
    }

    /**
     * CreateQuery: the filter of Filter, the parameters of Parameters, the
     * priority call of CreateWordPriorityFuncCall and maxCount as limit.
     */
    method CreateQuery(p: PathFinderParameter) returns (q: FindQuery)
      ensures q == FindQuery(Filter(p), Parameters(p), CreateWordPriorityFuncCall(p.missionChar), maxCount)
    {
      var param: map<string, string> := map[];
      var filter: seq<Clause> := [];
      if mode != All {
        var word := p.word;
        var wordIndexColumn := GetIndexColumnName(mode, word);
        param := param["@PrimaryWord" := word.content];
        if word.canSubstitution {
          filter := [IndexMatch(wordIndexColumn, true)];
          param := param["@SecondaryWord" := word.substitution];
        } else {
          filter := [IndexMatch(wordIndexColumn, false)];
        }
        filter := filter + ApplyFlagFilter(p.options, PathDetailing.UseEndWord, endWordFlag);
        filter := filter + ApplyFlagFilter(p.options, PathDetailing.UseAttackWord, attackWordFlag);
        if mode == KungKungTta {
          filter := filter + [FlagPresent(KKT3)];
        }
      }
      if !IsBlank(p.missionChar) {
        param := param["@MissionChar" := p.missionChar];
      }
      q := FindQuery(filter, param, CreateWordPriorityFuncCall(p.missionChar), maxCount);
    }

    /**
     * The WHERE clauses of a search. Outside All mode: the index match on
     * the presented word (and its substitute, when allowed) first, a clause
     * excluding end words unless UseEndWord is set, one excluding attack
     * words unless UseAttackWord is set, and the KKT3 clause in
     * KungKungTta and nowhere else. All mode has no filter.
     */
    function Filter(p: PathFinderParameter): (r: seq<Clause>)
      ensures mode == All <==> r == []
      ensures mode != All ==> r[0] == IndexMatch(GetIndexColumnName(mode, p.word), p.word.canSubstitution)
      ensures forall i :: 0 < i < |r| ==> !r[i].IndexMatch?
      ensures FlagAbsent(endWordFlag) in r <==> mode != All && PathDetailing.UseEndWord !in p.options
      ensures FlagAbsent(attackWordFlag) in r <==> mode != All && PathDetailing.UseAttackWord !in p.options
      ensures forall f :: FlagAbsent(f) in r ==> f == endWordFlag || f == attackWordFlag
      ensures forall f :: FlagPresent(f) in r <==> f == KKT3 && mode == KungKungTta
    {
      if mode == All then []
      else
        [IndexMatch(GetIndexColumnName(mode, p.word), p.word.canSubstitution)]
        + ApplyFlagFilter(p.options, PathDetailing.UseEndWord, endWordFlag)
        + ApplyFlagFilter(p.options, PathDetailing.UseAttackWord, attackWordFlag)
        + (if mode == KungKungTta then [FlagPresent(KKT3)] else [])
    }

    /**
     * The query parameters: @PrimaryWord outside All mode, @SecondaryWord
     * when the substitute is allowed too, @MissionChar for a non-blank
     * mission char, and nothing else.
     */
    function Parameters(p: PathFinderParameter): (r: map<string, string>)
      ensures "@PrimaryWord" in r <==> mode != All
      ensures "@PrimaryWord" in r ==> r["@PrimaryWord"] == p.word.content
      ensures "@SecondaryWord" in r <==> mode != All && p.word.canSubstitution
      ensures "@SecondaryWord" in r ==> r["@SecondaryWord"] == p.word.substitution
      ensures "@MissionChar" in r <==> !IsBlank(p.missionChar)
      ensures "@MissionChar" in r ==> r["@MissionChar"] == p.missionChar
      ensures r.Keys <= {"@PrimaryWord", "@SecondaryWord", "@MissionChar"}
    {
      var param: map<string, string> := map[];
      var param := if mode != All then param["@PrimaryWord" := p.word.content] else param;
      var param := if mode != All && p.word.canSubstitution then param["@SecondaryWord" := p.word.substitution] else param;
      if !IsBlank(p.missionChar) then param["@MissionChar" := p.missionChar] else param
    }

    /**
     * CreateWordPriorityFuncCall: the flags of the mode and, per category
     * combination, its ordinal under the preference.
     */
    function CreateWordPriorityFuncCall(missionChar: string): (r: PriorityCall)
      ensures IsBlank(missionChar) <==> r.WordPriorityCall?
      ensures r.endFlag == endWordFlag && r.attackFlag == attackWordFlag
      ensures r.endOrdinal == Ordinal({EndCategory}) && r.attackOrdinal == Ordinal({AttackCategory})
      ensures r.normalOrdinal == Ordinal({})
      ensures r.MissionPriorityCall? ==>
        && r.endMissionOrdinal == Ordinal({EndCategory, MissionCategory})
        && r.attackMissionOrdinal == Ordinal({AttackCategory, MissionCategory})
        && r.missionOrdinal == Ordinal({MissionCategory})
    {
      if IsBlank(missionChar) then
        WordPriorityCall(endWordFlag, attackWordFlag, Ordinal({EndCategory}), Ordinal({AttackCategory}), Ordinal({}))
      else
        MissionPriorityCall(endWordFlag, attackWordFlag,
          Ordinal({EndCategory, MissionCategory}), Ordinal({EndCategory}),
          Ordinal({AttackCategory, MissionCategory}), Ordinal({AttackCategory}),
          Ordinal({MissionCategory}), Ordinal({}))
    }

    /** ApplyFlagFilter: a clause excluding words with flag, unless the options hold needle. */
    static function ApplyFlagFilter(haystack: PathDetailing.PathFlags, needle: PathDetailing.PathFlag, flag: WordFlag): (r: seq<Clause>)
      ensures r == [] <==> needle in haystack
      ensures forall c :: c in r <==> c == FlagAbsent(flag) && needle !in haystack
    {
      if needle in haystack then [] else [FlagAbsent(flag)]
    }

    /** The PathObject of one row: the trimmed word, its categories and mission char count. */
    function ObjectOf(row: WordModel, missionChar: string): (string, WordCategories, int)
    {
      var word := Trim(row.word);
      var c := SetupWordCategories(word, row.flags, missionChar, endWordFlag, attackWordFlag);
      (word, c.0, c.1)
    }

    /** o is the PathObject of row. */
    predicate Built(o: PathObject, row: WordModel, missionChar: string)
    {
      Fields(o) == ObjectOf(row, missionChar)
    }

    /** The body of the row loop of Execute: one new PathObject for the row. */
    method BuildObject(row: WordModel, missionChar: string) returns (o: PathObject)
      ensures fresh(o) && Built(o, row, missionChar)
    {
      var wordString := Trim(row.word);
      var categories := SetupWordCategories(wordString, row.flags, missionChar, endWordFlag, attackWordFlag);
      o := new PathObject(wordString, categories.0, categories.1);
    }

    /** Execute(parameter): sets the parameter, then runs the query. */
    method ExecuteWith(p: PathFinderParameter, rows: seq<WordModel>) returns (r: Wrappers.Result<seq<PathObject>>)
      modifies this
      ensures parameter == Wrappers.Some(p)
      ensures r.Success? && |r.value| == |rows|
      ensures forall i :: 0 <= i < |rows| ==> fresh(r.value[i])
      ensures forall i :: 0 <= i < |rows| ==> Built(r.value[i], rows[i], p.missionChar)
    {
      parameter := Wrappers.Some(p);
      r := Execute(rows);
    }

    /**
     * Execute: an InvalidOperationException without a parameter; otherwise
     * one PathObject per row the query returns (rows, read from the
     * database, are an input here), in the database's order.
     */
    method Execute(rows: seq<WordModel>) returns (r: Wrappers.Result<seq<PathObject>>)
      ensures parameter.None? ==> r == Wrappers.Failure(Wrappers.InvalidOperation)
      ensures parameter.Some? ==> r.Success?
      ensures r.Success? ==> |r.value| == |rows|
      ensures r.Success? ==> forall i :: 0 <= i < |rows| ==> fresh(r.value[i])
      ensures r.Success? ==> forall i :: 0 <= i < |rows| ==> Built(r.value[i], rows[i], parameter.value.missionChar)
    {
      if parameter.None? {
        return Wrappers.Failure(Wrappers.InvalidOperation);
      }
      var query := CreateQuery(parameter.value);
      var result := BuildObjects(rows, parameter.value.missionChar);
      r := Wrappers.Success(result);
    }

    /** The row loop of Execute: one new PathObject per row, in order. */
    method BuildObjects(rows: seq<WordModel>, missionChar: string) returns (result: seq<PathObject>)
      ensures |result| == |rows|
      ensures forall i :: 0 <= i < |rows| ==> fresh(result[i])
      ensures forall i :: 0 <= i < |rows| ==> Built(result[i], rows[i], missionChar)
    {
      result := [];
      var i := 0;
      while i < |rows|
        invariant 0 <= i <= |rows| && |result| == i
        invariant forall k :: 0 <= k < i ==> fresh(result[k])
        invariant AllBuilt(result, rows[..i], missionChar)
      {
        var o := BuildObject(rows[i], missionChar);
        assert (result + [o])[..i] == result;
        assert rows[..i + 1][..i] == rows[..i];
        result := result + [o];
        i := i + 1;
      }
      assert rows[..i] == rows;
      AllBuiltEach(result, rows, missionChar);
    }

    /** os[k] is the PathObject of rows[k], for every k. */
    predicate AllBuilt(os: seq<PathObject>, rows: seq<WordModel>, missionChar: string)
      decreases |os|
    {
      |os| == |rows| && (|os| == 0 || (AllBuilt(os[..|os| - 1], rows[..|rows| - 1], missionChar)
                                          && Built(os[|os| - 1], rows[|rows| - 1], missionChar)))
    }

    lemma {:induction false} AllBuiltEach(os: seq<PathObject>, rows: seq<WordModel>, missionChar: string)
      requires AllBuilt(os, rows, missionChar)
      ensures forall k :: 0 <= k < |rows| ==> Built(os[k], rows[k], missionChar)
      decreases |os|
    {
      if |os| > 0 {
        var n := |os| - 1;
        AllBuiltEach(os[..n], rows[..n], missionChar);
        forall k | 0 <= k < |rows|
          ensures Built(os[k], rows[k], missionChar)
        {
          if k < n {
            assert os[..n][k] == os[k] && rows[..n][k] == rows[k];
          }
        }
      }
    }
  }

  /**
   * The ordinal the SQL priority function of a query picks for a word
   * without a mission char is the ordinal of the word's main category —
   * end before attack before normal — as SetupWordCategories assigns it.
   */
  lemma RankMatchesCategories(q: FindWordQuery, word: string, flags: WordFlags)
    ensures
      var call := q.CreateWordPriorityFuncCall("");
      var cats := SetupWordCategories(word, flags, "", q.endWordFlag, q.attackWordFlag).0;
      call.WordPriorityCall? &&
      (if q.endWordFlag in flags then call.endOrdinal
       else if q.attackWordFlag in flags then call.attackOrdinal
       else call.normalOrdinal)
      == q.Ordinal(if EndCategory in cats then {EndCategory} else if AttackCategory in cats then {AttackCategory} else {})
  {
  }
}
