// Game.DomPoller: the pollers that read the game page and pass what they
// find to the notifications. The page reads (GetUnsupportedWord,
// GetPresentedWord, GetMissionChar, GetWordLength, GetIsMyTurn,
// GetTurnIndex, ...) are parameters; the poller tasks, their intervals and
// the cancellation are concurrency and are not part of this model.
// GameMode.ConvertWordToCondition is not part of this model either: it is a
// parameter of WordConditionOf.
module DomPoller {
  import opened KkutuTypes
  import opened TurnErrors
  import opened Text
  import Wrappers
  import GameNotify

  /** string.Contains of a single char is membership. */
  lemma HasCharIff(s: string, c: char)
    ensures HasSubstring(s, [c]) <==> c in s
  {
    if c in s {
      var i :| 0 <= i < |s| && s[i] == c;
      assert OccursAt(s, [c], i);
    }
    if HasSubstring(s, [c]) {
      var i :| 0 <= i <= |s| - 1 && OccursAt(s, [c], i);
      assert s[i..i + 1][0] == s[i];
    }
  }

  /**
   * PollWordError's classification of a refusal text: without a ':' the
   * word is unknown (NotFound); otherwise the text before the first ':'
   * decides, as DetailsCode reads it.
   */
  function ClassifyWordError(word: string): (r: TurnErrorCode)
    ensures ':' !in word ==> r == NotFound
    ensures ':' in word ==> r == DetailsCode(word[..IndexOf(word, ':')])
  {
    if ':' !in word then NotFound
    else DetailsCode(word[..IndexOf(word, ':')])
  }

  /**
   * The code of the text before the ':', from its markers tested in this
   * order: "한방" (an end word, refused on the first turn when "첫 턴" also
   * appears), "외래" (a loan word), '깐' (the strict rule), "주제" (another
   * subject) and "이미" (already used); NotFound when none appears.
   */
  function DetailsCode(details: string): TurnErrorCode
  {
    if HasSubstring(details, "한방") then
      if HasSubstring(details, "첫 턴") then NoEndWordOnBegin else TurnErrorCode.EndWord
    else if HasSubstring(details, "외래") then Loanword
    else if '깐' in details then Strict
    else if HasSubstring(details, "주제") then WrongSubject
    else if HasSubstring(details, "이미") then AlreadyUsed
    else NotFound
  }

  /** One classification rule: the markers that must all appear, and the code they give. */
  datatype Rule = Rule(markers: seq<string>, code: TurnErrorCode)

  /** The rules of the classifier, most specific first. */
  const Rules: seq<Rule> := [
    Rule(["한방", "첫 턴"], NoEndWordOnBegin),
    Rule(["한방"], TurnErrorCode.EndWord),
    Rule(["외래"], Loanword),
    Rule(["깐"], Strict),
    Rule(["주제"], WrongSubject),
    Rule(["이미"], AlreadyUsed)
  ]

  /** Every marker of the rule appears in the text. */
  predicate Matches(rule: Rule, details: string)
  {
    forall m :: m in rule.markers ==> HasSubstring(details, m)
  }

  /** The code of the first rule from index i on that the text matches, NotFound when none does. */
  function FirstMatch(rules: seq<Rule>, i: nat, details: string): TurnErrorCode
    decreases |rules| - i
  {
    if i >= |rules| then NotFound
    else if Matches(rules[i], details) then rules[i].code
    else FirstMatch(rules, i + 1, details)
  }

  /** The code of a text is the one of the first rule of Rules it matches. */
  lemma DetailsCodeIsFirstMatchingRule(details: string)
    ensures DetailsCode(details) == FirstMatch(Rules, 0, details)
  {
    HasCharIff(details, '깐');
    assert Matches(Rules[0], details) <==> HasSubstring(details, "한방") && HasSubstring(details, "첫 턴") by {
      assert Rules[0].markers == ["한방", "첫 턴"];
    }
    assert FirstMatch(Rules, 5, details) == (if HasSubstring(details, "이미") then AlreadyUsed else NotFound) by {
      assert Rules[5].markers == ["이미"];
    }
    assert FirstMatch(Rules, 4, details) == (if HasSubstring(details, "주제") then WrongSubject else FirstMatch(Rules, 5, details)) by {
      assert Rules[4].markers == ["주제"];
    }
    assert FirstMatch(Rules, 3, details) == (if '깐' in details then Strict else FirstMatch(Rules, 4, details)) by {
      assert Rules[3].markers == ["깐"];
    }
    assert FirstMatch(Rules, 2, details) == (if HasSubstring(details, "외래") then Loanword else FirstMatch(Rules, 3, details)) by {
      assert Rules[2].markers == ["외래"];
    }
    assert FirstMatch(Rules, 1, details) == (if HasSubstring(details, "한방") then TurnErrorCode.EndWord else FirstMatch(Rules, 2, details)) by {
      assert Rules[1].markers == ["한방"];
    }
  }

  /** Only the text before the first ':' decides the code; what follows it never matters. */
  lemma ClassifyIgnoresMessage(details: string, message: string)
    requires ':' !in details
    ensures ClassifyWordError(details + ":" + message) == DetailsCode(details)
  {
    var w := details + ":" + message;
    assert w == details + (":" + message);
    IndexOfAfter(details, ':', ":" + message);
    assert w[..|details|] == details;
  }

  /** The first c of a + b is the first of b, shifted, when a has none. */
  lemma IndexOfAfter(a: string, c: char, b: string)
    requires c !in a && c in b
    ensures IndexOf(a + b, c) == |a| + IndexOf(b, c)
  {
    var i := IndexOf(a + b, c);
    var j := IndexOf(b, c);
    assert (a + b)[|a| + j] == c;
    assert i >= |a|;
  }

  /**
   * PollWordError: a blank refusal text is dropped; any other is passed to
   * NotifyTurnError with its classification.
   */
  method PollWordError(game: GameNotify.Game, word: string)
    modifies game
    ensures IsBlank(word) ==> unchanged(game)
    ensures !IsBlank(word) ==>
      && game.State() == GameNotify.TurnError(old(game.State()), word, ClassifyWordError(word)).state
      && game.raised == old(game.raised) + GameNotify.TurnError(old(game.State()), word, ClassifyWordError(word)).raised
  {
    if IsBlank(word) {
      return;
    }
    var errorCode := ClassifyWordError(word);
    game.NotifyTurnError(word, errorCode);
  }

  /** string.StartsWith(prefix, StringComparison.Ordinal). */
  predicate StartsWith(s: string, prefix: string)
  {
    |prefix| <= |s| && s[..|prefix|] == prefix
  }

  /** PollWordHint: a blank hint, or the "게임 끝" (game over) banner, is dropped; any other is notified. */
  method PollWordHint(game: GameNotify.Game, word: string)
    modifies game
    ensures IsBlank(word) || StartsWith(word, "게임 끝") ==> unchanged(game)
    ensures !(IsBlank(word) || StartsWith(word, "게임 끝")) ==>
      && game.State() == GameNotify.Hint(old(game.State()), word).state
      && game.raised == old(game.raised) + GameNotify.Hint(old(game.State()), word).raised
  {
    if !IsBlank(word) && !StartsWith(word, "게임 끝") {
      game.NotifyWordHint(word);
    }
  }

  /** PollGameMode: a mode read from the page is notified unless it is None. */
  method PollGameMode(game: GameNotify.Game, gameMode: GameMode)
    modifies game
    ensures gameMode == GameMode.None ==> unchanged(game)
    ensures gameMode != GameMode.None ==>
      && game.State() == GameNotify.Mode(old(game.State()), gameMode).state
      && game.raised == old(game.raised) + GameNotify.Mode(old(game.State()), gameMode).raised
  {
    if gameMode != GameMode.None {
      game.NotifyGameMode(gameMode);
    }
  }

  /** PollWordHistory: the history list read from the page is notified unless it is null. */
  method PollWordHistory(game: GameNotify.Game, histories: Wrappers.Option<seq<string>>)
    modifies game
    ensures histories.None? ==> unchanged(game)
    ensures histories.Some? ==>
      && game.State() == GameNotify.Histories(old(game.State()), histories.value).state
      && game.raised == old(game.raised) + GameNotify.Histories(old(game.State()), histories.value).raised
  {
    if histories.Some? {
      game.NotifyWordHistories(histories.value);
    }
  }

  /** The presented word with every leading '<' and every trailing '>' dropped (the Hunmin mode's brackets). */
  function Unbracketed(presented: string): (c: string)
    ensures |c| <= |presented|
  {
    TrimEnd(TrimStart(presented, '<'), '>')
  }

  /** Dropping the brackets twice drops nothing more. */
  lemma UnbracketedIdempotent(presented: string)
    ensures Unbracketed(Unbracketed(presented)) == Unbracketed(presented)
  {
    var t := TrimStart(presented, '<');
    var c := TrimEnd(t, '>');
    if |c| > 0 {
      assert c[0] == t[0];
    }
    assert TrimStart(c, '<') == c;
    assert TrimEnd(c, '>') == c;
  }

  /**
   * PollWordCondition, from the presented word, the mission char, the
   * session's mode, the page's word length and ConvertWordToCondition. An
   * empty word, or a free mode, gives the empty condition; any other is
   * read by ConditionOfText once its brackets are dropped.
   */
  function WordConditionOf(presented: string, missionChar: string, mode: GameMode, domWordLength: int,
                           convert: (GameMode, string, string) -> Wrappers.Option<(string, string, string)>)
    : (r: Wrappers.Result<WordCondition>)
    ensures |presented| == 0 || IsFreeMode(mode) ==> r == Wrappers.Success(WordCondition.Empty)
    ensures r.Failure? ==> r.error == Wrappers.ArgumentOutOfRange
  {
    if |presented| == 0 || IsFreeMode(mode) then Wrappers.Success(WordCondition.Empty)
    else ConditionOfText(Unbracketed(presented), missionChar, mode, domWordLength, convert)
  }

  /**
   * The condition of an unbracketed text: "X(Y)" gives head X and
   * substitute Y with length 3 (the page's length in KungKungTta); a text
   * of at most one char is the head itself; a longer text, outside mode
   * None, is a previous word that the converter turns into the condition
   * of the next turn, whose length flips between 3 and 2; mode None gives
   * the empty condition. A ')' before the first '(' makes the source's
   * Substring throw.
   */
  function ConditionOfText(c: string, missionChar: string, mode: GameMode, domWordLength: int,
                           convert: (GameMode, string, string) -> Wrappers.Option<(string, string, string)>)
    : (r: Wrappers.Result<WordCondition>)
    ensures r.Failure? ==> r.error == Wrappers.ArgumentOutOfRange
  {
    if '(' in c && c[|c| - 1] == ')' then
      var open, close := IndexOf(c, '('), IndexOf(c, ')');
      if close < open then Wrappers.Failure(Wrappers.ArgumentOutOfRange)
      else
        Wrappers.Success(Condition(c[..open], c[open + 1..close], missionChar,
                                   if mode == KungKungTta then domWordLength else 3))
    else if |c| <= 1 then Wrappers.Success(Condition(c, "", missionChar, 3))
    else if mode != GameMode.None then
      var converted := convert(mode, c, missionChar);
      if converted.None? then Wrappers.Success(WordCondition.Empty)
      else
        var wordLength := if mode == KungKungTta then domWordLength else 3;
        Wrappers.Success(Condition(converted.value.0, converted.value.1, converted.value.2,
                                   if wordLength == 3 then 2 else 3))
    else Wrappers.Success(WordCondition.Empty)
  }

  /**
   * "X(Y)", with X and Y free of parentheses and X not opening with '<',
   * is read as head X and substitute Y, with the mission char given.
   */
  lemma ParenthesesSplit(x: string, y: string, missionChar: string, mode: GameMode, domWordLength: int,
                         convert: (GameMode, string, string) -> Wrappers.Option<(string, string, string)>)
    requires '(' !in x && ')' !in x && ')' !in y
    requires |x| == 0 || x[0] != '<'
    requires !IsFreeMode(mode)
    ensures WordConditionOf(x + "(" + y + ")", missionChar, mode, domWordLength, convert)
      == Wrappers.Success(Condition(x, y, missionChar, if mode == KungKungTta then domWordLength else 3))
  {
    var p := x + "(" + y + ")";
    var len := if mode == KungKungTta then domWordLength else 3;
    ParenthesesShape(x, y);
    ParenthesesPositions(x, y);
    ReadsUnbracketed(p, missionChar, mode, domWordLength, convert);
    ReadsParentheses(p, missionChar, mode, domWordLength, convert);
    assert p[..|x|] == x;
    assert p[|x| + 1..|x| + 1 + |y|] == y;
  }

  /** A text ending with ')' whose first ')' follows its first '(' is split at them. */
  lemma ReadsParentheses(c: string, missionChar: string, mode: GameMode, domWordLength: int,
                         convert: (GameMode, string, string) -> Wrappers.Option<(string, string, string)>)
    requires '(' in c && c[|c| - 1] == ')' && IndexOf(c, ')') >= IndexOf(c, '(')
    ensures var open, close := IndexOf(c, '('), IndexOf(c, ')');
      ConditionOfText(c, missionChar, mode, domWordLength, convert)
      == Wrappers.Success(Condition(c[..open], c[open + 1..close], missionChar,
                                    if mode == KungKungTta then domWordLength else 3))
  {
  }

  /** "X(Y)" with X not opening with '<' has no brackets to drop and ends with ')'. */
  lemma ParenthesesShape(x: string, y: string)
    requires |x| == 0 || x[0] != '<'
    ensures var p := x + "(" + y + ")";
      Unbracketed(p) == p && '(' in p && p[|p| - 1] == ')'
  {
    var p := x + "(" + y + ")";
    assert p[0] == (if |x| == 0 then '(' else x[0]);
    assert p[|x|] == '(';
    assert TrimStart(p, '<') == p;
    assert TrimEnd(p, '>') == p;
  }

  /** In "X(Y)" with X and Y free of parentheses, the first '(' follows X and the first ')' follows Y. */
  lemma ParenthesesPositions(x: string, y: string)
    requires '(' !in x && ')' !in x && ')' !in y
    ensures var p := x + "(" + y + ")";
      IndexOf(p, '(') == |x| && IndexOf(p, ')') == |x| + 1 + |y|
  {
    var p := x + "(" + y + ")";
    assert p == x + ("(" + y + ")");
    IndexOfAfter(x, '(', "(" + y + ")");
    assert p == (x + "(" + y) + ")";
    assert ')' !in x + "(" + y;
    IndexOfAfter(x + "(" + y, ')', ")");
  }

  /** The brackets are dropped before anything else: a bracketed word reads as its unbracketed text. */
  lemma BracketsIgnored(presented: string, missionChar: string, mode: GameMode, domWordLength: int,
                        convert: (GameMode, string, string) -> Wrappers.Option<(string, string, string)>)
    requires |Unbracketed(presented)| > 0
    ensures WordConditionOf(presented, missionChar, mode, domWordLength, convert)
      == WordConditionOf(Unbracketed(presented), missionChar, mode, domWordLength, convert)
  {
    if !IsFreeMode(mode) {
      var u := Unbracketed(presented);
      UnbracketedIdempotent(presented);
      ReadsUnbracketed(presented, missionChar, mode, domWordLength, convert);
      ReadsUnbracketed(u, missionChar, mode, domWordLength, convert);
    }
  }

  /** Outside a free mode, a non-empty presented word is read as its unbracketed text. */
  lemma ReadsUnbracketed(presented: string, missionChar: string, mode: GameMode, domWordLength: int,
                         convert: (GameMode, string, string) -> Wrappers.Option<(string, string, string)>)
    requires |presented| > 0 && !IsFreeMode(mode)
    ensures WordConditionOf(presented, missionChar, mode, domWordLength, convert)
      == ConditionOfText(Unbracketed(presented), missionChar, mode, domWordLength, convert)
  {
  }

  /**
   * A previous word the converter accepts gives the converter's condition
   * with the length flipped: 2 outside KungKungTta, and in KungKungTta 2
   * after a 3 and 3 after anything else.
   */
  lemma ConvertedLengthFlips(presented: string, missionChar: string, mode: GameMode, domWordLength: int,
                             convert: (GameMode, string, string) -> Wrappers.Option<(string, string, string)>)
    requires |presented| > 0 && !IsFreeMode(mode) && mode != GameMode.None
    requires var c := Unbracketed(presented); !('(' in c && c[|c| - 1] == ')') && |c| > 1
    requires convert(mode, Unbracketed(presented), missionChar).Some?
    ensures var w := WordConditionOf(presented, missionChar, mode, domWordLength, convert);
      var k := convert(mode, Unbracketed(presented), missionChar).value;
      && w.Success? && w.value == Condition(k.0, k.1, k.2, w.value.wordLength)
      && w.value.wordLength == (if mode == KungKungTta && domWordLength != 3 then 3 else 2)
  {
  }

  /** What the classic-turn poller remembers between polls. */
  datatype Tracker = Tracker(domIsMyTurn: bool, domTurnIndex: int)

  /** The notifications PollClassicTurn makes of Game.StateNotify.Classic, which is not part of this model. */
  datatype ClassicCall =
    | ClassicTurnStart(isMyTurn: bool, turnIndex: int, condition: WordCondition)
    | ClassicTurnEndOk(value: string)

  /**
   * One PollClassicTurn, from the page's my-turn flag, the session's
   * relative turn, the page's turn index and the condition PollWordCondition
   * would read. While the page shows this user's turn, its start is
   * notified once (with turn index -1). Otherwise a remembered index out of
   * step with the session is resynchronised and nothing is notified; and a
   * change of the page's turn index notifies the end of the previous turn
   * (if there was one) and the start of the next (if there is one), and is
   * remembered. A condition that fails to parse aborts the poll where it is
   * read, after what was done before it.
   */
  function Poll(t: Tracker, myTurn: bool, relativeTurn: int, turnIndexNow: int,
                condition: Wrappers.Result<WordCondition>): (r: (Tracker, seq<ClassicCall>))
    ensures myTurn ==> r.0.domIsMyTurn && r.0.domTurnIndex == t.domTurnIndex
    ensures myTurn && t.domIsMyTurn ==> r == (t, [])
    ensures !myTurn ==> (r.0.domIsMyTurn ==> t.domIsMyTurn)
    ensures forall k :: 0 <= k < |r.1| && r.1[k].ClassicTurnEndOk? ==> k == 0
    ensures |r.1| <= 2
  {
    if myTurn then
      if t.domIsMyTurn then (t, [])
      else
        var t' := t.(domIsMyTurn := true);
        if condition.Failure? then (t', [])
        else (t', [ClassicTurnStart(true, -1, condition.value)])
    else if t.domTurnIndex != -1 && t.domTurnIndex != relativeTurn then
      (t.(domTurnIndex := relativeTurn), [])
    else if turnIndexNow != t.domTurnIndex then
      var ended := t.domTurnIndex != -1;
      var ends := if ended then [ClassicTurnEndOk("")] else [];
      var t' := if ended then t.(domIsMyTurn := false) else t;
      if turnIndexNow == -1 then (t'.(domTurnIndex := turnIndexNow), ends)
      else if condition.Failure? then (t', ends)
      else (t'.(domTurnIndex := turnIndexNow), ends + [ClassicTurnStart(false, turnIndexNow, condition.value)])
    else (t, [])
  }

  /** While the page keeps showing this user's turn, its start is notified at most once. */
  lemma MyTurnStartsOnce(t: Tracker, relativeTurn: int, turnIndexNow: int, c1: Wrappers.Result<WordCondition>,
                         c2: Wrappers.Result<WordCondition>)
    ensures var first := Poll(t, true, relativeTurn, turnIndexNow, c1);
      && Poll(first.0, true, relativeTurn, turnIndexNow, c2) == (first.0, [])
      && |first.1| <= 1
      && (first.1 != [] <==> !t.domIsMyTurn && c1.Success?)
  {
  }

  /** A remembered index out of step with the session is replaced by the session's, with nothing notified. */
  lemma OutOfSyncResynchronises(t: Tracker, relativeTurn: int, turnIndexNow: int, c: Wrappers.Result<WordCondition>)
    requires t.domTurnIndex != -1 && t.domTurnIndex != relativeTurn
    ensures Poll(t, false, relativeTurn, turnIndexNow, c) == (t.(domTurnIndex := relativeTurn), [])
  {
  }

  /**
   * In step with the session, a move of the turn from one seat to another
   * notifies the end of the turn and then the start of the next one, and
   * forgets that it was this user's turn; the same index again notifies
   * nothing.
   */
  lemma TurnMovesEndThenStart(t: Tracker, turnIndexNow: int, condition: WordCondition)
    requires t.domTurnIndex != -1 && turnIndexNow != -1 && turnIndexNow != t.domTurnIndex
    ensures var r := Poll(t, false, t.domTurnIndex, turnIndexNow, Wrappers.Success(condition));
      && r == (Tracker(false, turnIndexNow), [ClassicTurnEndOk(""), ClassicTurnStart(false, turnIndexNow, condition)])
      && Poll(r.0, false, turnIndexNow, turnIndexNow, Wrappers.Success(condition)) == (r.0, [])
  {
    var start := ClassicTurnStart(false, turnIndexNow, condition);
    assert [ClassicTurnEndOk("")] + [start] == [ClassicTurnEndOk(""), start];
  }

  /** The classic-turn poller with its remembered state and the notifications it has made. */
  class ClassicTurnPoller {
    var domIsMyTurn: bool
    var domTurnIndex: int
    var calls: seq<ClassicCall>

    /** The remembered state as one value. */
    function Tracked(): Tracker
      reads this
    {
      Tracker(domIsMyTurn, domTurnIndex)
    }

    /** The poller starts with no turn seen. */
    constructor()
      ensures Tracked() == Tracker(false, -1) && calls == []
    {
      domIsMyTurn := false;
      domTurnIndex := -1;
      calls := [];
    }

    /** PollClassicTurn: one poll, its effect on the remembered state and the notifications it makes. */
    method PollClassicTurn(myTurn: bool, relativeTurn: int, turnIndexNow: int,
                           condition: Wrappers.Result<WordCondition>)
      modifies this
      ensures Tracked() == Poll(old(Tracked()), myTurn, relativeTurn, turnIndexNow, condition).0
      ensures calls == old(calls) + Poll(old(Tracked()), myTurn, relativeTurn, turnIndexNow, condition).1
    {
      if myTurn {
        if domIsMyTurn {
          return;
        }
        domIsMyTurn := true;
        if condition.Failure? {
          return;
        }
        calls := calls + [ClassicTurnStart(true, -1, condition.value)];
        return;
      }
      if domTurnIndex != -1 && domTurnIndex != relativeTurn {
        domTurnIndex := relativeTurn;
        return;
      }
      if turnIndexNow != domTurnIndex {
        if domTurnIndex != -1 {
          calls := calls + [ClassicTurnEndOk("")];
          domIsMyTurn := false;
        }
        if turnIndexNow != -1 {
          if condition.Failure? {
            return;
          }
          calls := calls + [ClassicTurnStart(false, turnIndexNow, condition.value)];
        }
        domTurnIndex := turnIndexNow;
      }
    }
  }
}
