// Game.StateNotify: the notifications the DOM and WebSocket handlers send
// to the game, each of which updates the game's caches and the turn flag
// and raises at most the events listed below. Every notification drops a
// value it has already seen, so that a handler polling the page many times
// per second raises each event once. The locks are concurrency and the
// logging is output; neither is part of this model. An event raised is
// appended to `raised`, whether or not a handler listens to it.
module GameNotify {
  import opened KkutuTypes
  import opened TurnErrors
  import opened Text
  import Wrappers

  /** The events of the game that the notifications raise, with their arguments. */
  datatype Event =
    | GameStarted
    | GameEnded
    | GameModeChanged(mode: GameMode)
    | HintWordPresented(hint: string)
    | TurnStarted(condition: WordCondition, isMyTurn: bool)
    | TurnEnded
    | RoundChanged(roundIndex: int)
    | UnsupportedWordEntered(word: string, isExistingWord: bool, isEndWord: bool, isMyTurn: bool)
    | DiscoverWordHistory(word: string)

  /**
   * The state the notifications read and write: the game flags and the
   * caches, a null cache being None.
   */
  datatype Notified = Notified(
    inProgress: bool,
    mode: GameMode,
    myTurn: bool,
    condition: WordCondition,
    roundIndex: int,
    presentedWordTime: int,
    turnErrorWord: Wrappers.Option<string>,
    turnHintWord: Wrappers.Option<string>,
    typingWord: Wrappers.Option<string>,
    historyWord: Wrappers.Option<string>,
    histories: Wrappers.Option<seq<string>>)

  /** The outcome of one notification: the new state and the events raised, in order. */
  datatype Step = Step(state: Notified, raised: seq<Event>)

  /** The caches a new round starts without. */
  predicate RoundCachesCleared(s: Notified)
  {
    && s.turnErrorWord.None? && s.turnHintWord.None? && s.typingWord.None?
    && s.historyWord.None? && s.histories.None?
  }

  /** The state after a game end: no game, not this user's turn, every game cache cleared. */
  predicate GameCachesCleared(s: Notified)
  {
    && !s.inProgress && !s.myTurn && s.roundIndex == -1 && s.presentedWordTime == -1
    && RoundCachesCleared(s)
  }

  /**
   * NotifyGameProgress: a start while no game is in progress raises
   * GameStarted, an end while one is raises GameEnded and clears every
   * game cache and the turn flag, and a repeated value does nothing.
   */
  function Progress(s: Notified, isGameInProgress: bool): (r: Step)
    ensures r.state.inProgress == isGameInProgress
    ensures GameStarted in r.raised <==> isGameInProgress && !s.inProgress
    ensures GameEnded in r.raised <==> !isGameInProgress && s.inProgress
    ensures |r.raised| <= 1
    ensures isGameInProgress == s.inProgress ==> r == Step(s, [])
    ensures isGameInProgress ==> r.state == s.(inProgress := true)
    ensures !isGameInProgress && s.inProgress ==>
      GameCachesCleared(r.state) && r.state.mode == s.mode && r.state.condition == s.condition
  {
    if isGameInProgress then
      if !s.inProgress then Step(s.(inProgress := true), [GameStarted]) else Step(s, [])
    else if !s.inProgress then Step(s, [])
    else
      var ended := s.(roundIndex := -1, presentedWordTime := -1, turnErrorWord := Wrappers.None,
                      turnHintWord := Wrappers.None, typingWord := Wrappers.None,
                      historyWord := Wrappers.None, histories := Wrappers.None, myTurn := false);
      Step(ended.(inProgress := false), [GameEnded])
  }

  /** Notifying the same progress twice raises the event of the first call only. */
  lemma ProgressTwice(s: Notified, isGameInProgress: bool)
    ensures var once := Progress(s, isGameInProgress);
      Progress(once.state, isGameInProgress) == Step(once.state, [])
  {
  }

  /** NotifyGameMode: a new mode is stored and raises GameModeChanged; the current one does nothing. */
  function Mode(s: Notified, mode: GameMode): (r: Step)
    ensures r.state == s.(mode := mode)
    ensures r.raised == [] <==> mode == s.mode
    ensures r.raised != [] ==> r.raised == [GameModeChanged(mode)]
  {
    if mode == s.mode then Step(s, [])
    else Step(s.(mode := mode), [GameModeChanged(mode)])
  }

  /** A mode notified again raises nothing. */
  lemma ModeTwice(s: Notified, mode: GameMode)
    ensures var once := Mode(s, mode);
      Mode(once.state, mode) == Step(once.state, [])
  {
  }

  /**
   * NotifyWordHint: a hint equal, ignoring case, to the cached one does
   * nothing; any other hint is cached and raises HintWordPresented.
   */
  function Hint(s: Notified, hint: string): (r: Step)
    ensures r.raised == [] <==> s.turnHintWord.Some? && EqualsIgnoreCase(hint, s.turnHintWord.value)
    ensures r.raised == [] ==> r.state == s
    ensures r.raised != [] ==> r.state == s.(turnHintWord := Wrappers.Some(hint)) && r.raised == [HintWordPresented(hint)]
  {
    if s.turnHintWord.Some? && EqualsIgnoreCase(hint, s.turnHintWord.value) then Step(s, [])
    else Step(s.(turnHintWord := Wrappers.Some(hint)), [HintWordPresented(hint)])
  }

  /** Once a hint is presented, the same hint in any letter case raises nothing more. */
  lemma HintRepeatIgnoresCase(s: Notified, hint: string, again: string)
    requires EqualsIgnoreCase(again, hint)
    ensures Hint(Hint(s, hint).state, again).raised == []
  {
  }

  /**
   * The turn-start half of NotifyMyTurn, which both definitions below
   * share: a start while this user's turn is already flagged does nothing
   * unless the cache is bypassed. Otherwise the turn is flagged; in Free
   * mode TurnStarted is raised with the empty condition, without a
   * condition nothing more happens, and with one the condition is stored
   * and TurnStarted raised with it.
   */
  function TurnStart(s: Notified, wordCondition: Wrappers.Option<WordCondition>, bypassCache: bool): (r: Step)
    ensures s.myTurn && !bypassCache ==> r == Step(s, [])
    ensures !(s.myTurn && !bypassCache) ==> r.state.myTurn
    ensures r.state.condition == (if !(s.myTurn && !bypassCache) && s.mode != Free && wordCondition.Some?
                                  then wordCondition.value else s.condition)
    ensures r.raised != [] <==> !(s.myTurn && !bypassCache) && (s.mode == Free || wordCondition.Some?)
    ensures r.raised != [] ==>
      r.raised == [TurnStarted(if s.mode == Free then WordCondition.Empty else wordCondition.value, true)]
    ensures r.state.(myTurn := s.myTurn, condition := s.condition) == s
  {
    if s.myTurn && !bypassCache then Step(s, [])
    else if s.mode == Free then Step(s.(myTurn := true), [TurnStarted(WordCondition.Empty, true)])
    else if wordCondition.None? then Step(s.(myTurn := true), [])
    else Step(s.(myTurn := true, condition := wordCondition.value), [TurnStarted(wordCondition.value, true)])
  }

  /** The end of the turn: the flag is cleared, the turn-error cache with it, and TurnEnded raised. */
  function EndTurn(s: Notified): (r: Step)
    ensures !r.state.myTurn && r.state.turnErrorWord.None? && r.raised == [TurnEnded]
    ensures r.state.(myTurn := s.myTurn, turnErrorWord := s.turnErrorWord) == s
  {
    Step(s.(myTurn := false, turnErrorWord := Wrappers.None), [TurnEnded])
  }

  /**
   * NotifyMyTurn as written: the turn-end branch returns when this user's
   * turn IS flagged, the test the turn-start branch makes, instead of when
   * it is not.
   */
  function MyTurnAsWritten(s: Notified, isMyTurn: bool, wordCondition: Wrappers.Option<WordCondition>,
                           bypassCache: bool): (r: Step)
    ensures isMyTurn ==> r == TurnStart(s, wordCondition, bypassCache)
    ensures !isMyTurn ==> r == (if s.myTurn && !bypassCache then Step(s, []) else EndTurn(s))
  {
    if isMyTurn then TurnStart(s, wordCondition, bypassCache)
    else if s.myTurn && !bypassCache then Step(s, [])
    else EndTurn(s)
  }

  /**
   * As written, a turn end notified without bypassing the cache while the
   * turn is flagged does nothing: the flag stays set and TurnEnded is never
   * raised; and while the turn is not flagged, every such notice raises
   * TurnEnded again.
   */
  lemma TurnNeverEndsAsWritten(s: Notified, wordCondition: Wrappers.Option<WordCondition>)
    ensures s.myTurn ==> MyTurnAsWritten(s, false, wordCondition, false) == Step(s, [])
    ensures !s.myTurn ==> MyTurnAsWritten(s, false, wordCondition, false).raised == [TurnEnded]
  {
  }

  /** A concrete run: a turn starts, then ends, and this user's turn is still flagged. */
  lemma TurnNeverEndsExample(s: Notified)
    requires s.mode == LastAndFirst && !s.myTurn
    ensures var c := Condition("가", "", "", 3);
      var started := MyTurnAsWritten(s, true, Wrappers.Some(c), false);
      var ended := MyTurnAsWritten(started.state, false, Wrappers.None, false);
      started.raised == [TurnStarted(c, true)] && ended.raised == [] && ended.state.myTurn
  {
  }

  /**
   * NotifyMyTurn as intended: a turn end while the turn is not flagged
   * does nothing unless the cache is bypassed, as the turn-start branch
   * does for a start; otherwise the turn ends.
   */
  function MyTurn(s: Notified, isMyTurn: bool, wordCondition: Wrappers.Option<WordCondition>,
                  bypassCache: bool): (r: Step)
    ensures isMyTurn ==> r == TurnStart(s, wordCondition, bypassCache)
    ensures !isMyTurn ==> r == (if !s.myTurn && !bypassCache then Step(s, []) else EndTurn(s))
  {
    if isMyTurn then TurnStart(s, wordCondition, bypassCache)
    else if !s.myTurn && !bypassCache then Step(s, [])
    else EndTurn(s)
  }

  /**
   * With the intended test, a flagged turn ends on the first turn-end
   * notice, raising TurnEnded once, and a second notice does nothing.
   */
  lemma TurnEndsOnce(s: Notified, c1: Wrappers.Option<WordCondition>, c2: Wrappers.Option<WordCondition>)
    requires s.myTurn
    ensures var ended := MyTurn(s, false, c1, false);
      && !ended.state.myTurn && ended.raised == [TurnEnded]
      && MyTurn(ended.state, false, c2, false) == Step(ended.state, [])
  {
  }

  /**
   * Without bypassing the cache, a notice agreeing with the turn flag does
   * nothing, and after any notice whose start is not dropped for a missing
   * condition the flag is the one notified.
   */
  lemma MyTurnFollowsNotice(s: Notified, isMyTurn: bool, wordCondition: Wrappers.Option<WordCondition>)
    ensures isMyTurn == s.myTurn ==> MyTurn(s, isMyTurn, wordCondition, false) == Step(s, [])
    ensures MyTurn(s, isMyTurn, wordCondition, false).state.myTurn == isMyTurn
  {
  }

  /**
   * NotifyRound: a repeated index does nothing; a new one is cached; and
   * only a new positive index clears the round caches and raises
   * RoundChanged.
   */
  function Round(s: Notified, roundIndex: int): (r: Step)
    ensures r.state.roundIndex == roundIndex
    ensures r.raised == (if roundIndex != s.roundIndex && roundIndex > 0 then [RoundChanged(roundIndex)] else [])
    ensures roundIndex != s.roundIndex && roundIndex > 0 ==> RoundCachesCleared(r.state)
    ensures !(roundIndex != s.roundIndex && roundIndex > 0) ==> r.state == s.(roundIndex := roundIndex)
    ensures r.state.inProgress == s.inProgress && r.state.mode == s.mode && r.state.myTurn == s.myTurn
    ensures r.state.condition == s.condition && r.state.presentedWordTime == s.presentedWordTime
  {
    if roundIndex == s.roundIndex then Step(s, [])
    else if roundIndex <= 0 then Step(s.(roundIndex := roundIndex), [])
    else
      Step(s.(roundIndex := roundIndex, turnErrorWord := Wrappers.None, turnHintWord := Wrappers.None,
              typingWord := Wrappers.None, historyWord := Wrappers.None, histories := Wrappers.None),
           [RoundChanged(roundIndex)])
  }

  /** A round notified again raises nothing and changes nothing. */
  lemma RoundTwice(s: Notified, roundIndex: int)
    ensures var once := Round(s, roundIndex);
      Round(once.state, roundIndex) == Step(once.state, [])
  {
  }

  /** The turn codes that say the word was refused for being an end word. */
  predicate IsEndWordCode(errorCode: TurnErrorCode)
  {
    errorCode == NoEndWordOnBegin || errorCode == TurnErrorCode.EndWord
  }

  /** string.Contains(word, "T.T", StringComparison.OrdinalIgnoreCase). */
  predicate HasCryingFace(word: string)
  {
    HasSubstring(UpperAll(word), "T.T")
  }

  /**
   * NotifyTurnError: a word equal, ignoring case, to the cached turn error,
   * or one holding "T.T" in any case, does nothing. Any other word is cached
   * and raises UnsupportedWordEntered, where the word exists in the
   * dictionary unless the code is NotFound, is an end word exactly for the
   * two end-word codes, and the turn flag is the current one.
   */
  function TurnError(s: Notified, word: string, errorCode: TurnErrorCode): (r: Step)
    ensures r.raised == [] <==>
      (s.turnErrorWord.Some? && EqualsIgnoreCase(word, s.turnErrorWord.value)) || HasCryingFace(word)
    ensures r.raised == [] ==> r.state == s
    ensures r.raised != [] ==> r.state == s.(turnErrorWord := Wrappers.Some(word))
    ensures r.raised != [] ==> |r.raised| == 1 && r.raised[0].UnsupportedWordEntered?
    ensures r.raised != [] ==> var e := r.raised[0];
      && e.word == word && e.isMyTurn == s.myTurn
      && (e.isExistingWord <==> errorCode != NotFound)
      && (e.isEndWord <==> errorCode == NoEndWordOnBegin || errorCode == TurnErrorCode.EndWord)
  {
    if (s.turnErrorWord.Some? && EqualsIgnoreCase(word, s.turnErrorWord.value)) || HasCryingFace(word) then
      Step(s, [])
    else
      Step(s.(turnErrorWord := Wrappers.Some(word)),
           [UnsupportedWordEntered(word, errorCode != NotFound, IsEndWordCode(errorCode), s.myTurn)])
  }

  /** The same refused word, in any letter case and with any code, is reported once. */
  lemma TurnErrorRepeatIgnored(s: Notified, word: string, again: string, c1: TurnErrorCode, c2: TurnErrorCode)
    requires EqualsIgnoreCase(again, word)
    ensures TurnError(TurnError(s, word, c1).state, again, c2).raised == []
  {
  }

  /**
   * A history entry worth reporting: not blank, not the word last received
   * by WebSocket, and not in the histories seen on the previous poll.
   */
  predicate Fresh(s: Notified, entry: string)
  {
    && !IsBlank(entry)
    && (s.historyWord.None? || entry != s.historyWord.value)
    && (s.histories.None? || entry !in s.histories.value)
  }

  /** The events the history loop raises for the entries, in their order. */
  function HistoryEvents(s: Notified, entries: seq<string>): seq<Event>
    decreases |entries|
  {
    if |entries| == 0 then []
    else
      var last := entries[|entries| - 1];
      HistoryEvents(s, entries[..|entries| - 1]) + (if Fresh(s, last) then [DiscoverWordHistory(last)] else [])
  }

  /** The history loop raises DiscoverWordHistory for the fresh entries and nothing else. */
  lemma {:induction false} HistoryEventsAreFreshEntries(s: Notified, entries: seq<string>)
    ensures forall e :: e in HistoryEvents(s, entries) ==> e.DiscoverWordHistory?
    ensures forall w :: DiscoverWordHistory(w) in HistoryEvents(s, entries) <==> w in entries && Fresh(s, w)
    ensures (forall w :: w in entries ==> !Fresh(s, w)) ==> HistoryEvents(s, entries) == []
    decreases |entries|
  {
    if |entries| > 0 {
      var init := entries[..|entries| - 1];
      HistoryEventsAreFreshEntries(s, init);
      assert entries == init + [entries[|entries| - 1]];
    }
  }

  /**
   * NotifyWordHistories: in a free mode nothing happens, the cache
   * included. Otherwise each fresh entry raises DiscoverWordHistory, in
   * list order (an entry listed twice is reported twice), and the list
   * then replaces the previous poll's.
   */
  function Histories(s: Notified, newHistories: seq<string>): (r: Step)
    ensures IsFreeMode(s.mode) ==> r == Step(s, [])
    ensures !IsFreeMode(s.mode) ==> r.state == s.(histories := Wrappers.Some(newHistories))
  {
    if IsFreeMode(s.mode) then Step(s, [])
    else Step(s.(histories := Wrappers.Some(newHistories)), HistoryEvents(s, newHistories))
  }

  /**
   * The events of one poll are exactly the fresh entries, and polling the
   * same list again reports nothing, since every entry is now cached.
   */
  lemma HistoriesReportOnlyNew(s: Notified, newHistories: seq<string>)
    ensures forall e :: e in Histories(s, newHistories).raised ==> e.DiscoverWordHistory?
    ensures forall w :: (DiscoverWordHistory(w) in Histories(s, newHistories).raised
      <==> !IsFreeMode(s.mode) && w in newHistories && Fresh(s, w))
    ensures var once := Histories(s, newHistories);
      Histories(once.state, newHistories).raised == []
  {
    HistoryEventsAreFreshEntries(s, newHistories);
    var once := Histories(s, newHistories);
    HistoryEventsAreFreshEntries(once.state, newHistories);
  }

  /**
   * NotifyWordHistory: an entry equal, ignoring case, to the WebSocket
   * history cache does nothing; any other raises DiscoverWordHistory. This
   * notification does not store the entry, so while the cache is null it
   * reports every entry.
   */
  function History(s: Notified, entry: string): (r: Step)
    ensures r.state == s
    ensures r.raised == [] <==> s.historyWord.Some? && EqualsIgnoreCase(s.historyWord.value, entry)
    ensures r.raised != [] ==> r.raised == [DiscoverWordHistory(entry)]
  {
    if s.historyWord.Some? && EqualsIgnoreCase(s.historyWord.value, entry) then Step(s, [])
    else Step(s, [DiscoverWordHistory(entry)])
  }

  /** The notification half of the game: its flags, its caches and the events raised so far. */
  class Game {
    var isGameInProgress: bool
    var currentGameMode: GameMode
    var isMyTurn: bool
    var currentWordCondition: WordCondition
    var roundIndexCache: int
    var currentPresentedWordCacheTime: int
    var turnErrorWordCache: Wrappers.Option<string>
    var turnHintWordCache: Wrappers.Option<string>
    var typingWordCache: Wrappers.Option<string>
    var wordHistoryCache: Wrappers.Option<string>
    var wordHistoriesCache: Wrappers.Option<seq<string>>
    var raised: seq<Event>

    /** The flags and caches as one value. */
    function State(): Notified
      reads this
    {
      Notified(isGameInProgress, currentGameMode, isMyTurn, currentWordCondition, roundIndexCache,
               currentPresentedWordCacheTime, turnErrorWordCache, turnHintWordCache, typingWordCache,
               wordHistoryCache, wordHistoriesCache)
    }

    /**
     * A game with no game in progress, not this user's turn, no condition
     * and every cache at its initial value; the mode is the given one.
     */
    constructor(mode: GameMode)
      ensures State() == Notified(false, mode, false, WordCondition.Empty, -1, -1, Wrappers.None,
                                  Wrappers.None, Wrappers.None, Wrappers.None, Wrappers.None)
      ensures GameCachesCleared(State()) && raised == []
    {
      isGameInProgress := false;
      currentGameMode := mode;
      isMyTurn := false;
      currentWordCondition := WordCondition.Empty;
      roundIndexCache := -1;
      currentPresentedWordCacheTime := -1;
      turnErrorWordCache := Wrappers.None;
      turnHintWordCache := Wrappers.None;
      typingWordCache := Wrappers.None;
      wordHistoryCache := Wrappers.None;
      wordHistoriesCache := Wrappers.None;
      raised := [];
    }

    method NotifyGameProgress(isGameInProgress: bool)
      modifies this
      ensures State() == Progress(old(State()), isGameInProgress).state
      ensures raised == old(raised) + Progress(old(State()), isGameInProgress).raised
    {
      if isGameInProgress {
        if !this.isGameInProgress {
          raised := raised + [GameStarted];
          this.isGameInProgress := true;
        }
      } else {
        if !this.isGameInProgress {
          return;
        }
        ClearGameCaches();
        raised := raised + [GameEnded];
        this.isGameInProgress := false;
      }
    }

    /** The game-specific caches cleared and the turn flag dropped, at the end of a game. */
    method ClearGameCaches()
      modifies this
      ensures State() == old(State()).(roundIndex := -1, presentedWordTime := -1, turnErrorWord := Wrappers.None,
                                       turnHintWord := Wrappers.None, typingWord := Wrappers.None,
                                       historyWord := Wrappers.None, histories := Wrappers.None, myTurn := false)
      ensures raised == old(raised)
    {
      roundIndexCache := -1;
      currentPresentedWordCacheTime := -1;
      turnErrorWordCache := Wrappers.None;
      turnHintWordCache := Wrappers.None;
      typingWordCache := Wrappers.None;
      wordHistoryCache := Wrappers.None;
      wordHistoriesCache := Wrappers.None;
      isMyTurn := false;
    }

    method NotifyGameMode(gameMode: GameMode)
      modifies this
      ensures State() == Mode(old(State()), gameMode).state
      ensures raised == old(raised) + Mode(old(State()), gameMode).raised
    {
      if gameMode == currentGameMode {
        return;
      }
      currentGameMode := gameMode;
      raised := raised + [GameModeChanged(gameMode)];
    }

    method NotifyWordHint(hint: string)
      modifies this
      ensures State() == Hint(old(State()), hint).state
      ensures raised == old(raised) + Hint(old(State()), hint).raised
    {
      if turnHintWordCache.Some? && EqualsIgnoreCase(hint, turnHintWordCache.value) {
        return;
      }
      turnHintWordCache := Wrappers.Some(hint);
      raised := raised + [HintWordPresented(hint)];
    }

    /** NotifyMyTurn, with the turn-end test corrected (see MyTurnAsWritten). */
    method NotifyMyTurn(isMyTurn: bool, wordCondition: Wrappers.Option<WordCondition>, bypassCache: bool)
      modifies this
      ensures State() == MyTurn(old(State()), isMyTurn, wordCondition, bypassCache).state
      ensures raised == old(raised) + MyTurn(old(State()), isMyTurn, wordCondition, bypassCache).raised
    {
      if isMyTurn {
        if this.isMyTurn && !bypassCache {
          return;
        }
        this.isMyTurn := true;
        if currentGameMode == Free {
          raised := raised + [TurnStarted(WordCondition.Empty, isMyTurn)];
          return;
        }
        if wordCondition.None? {
          return;
        }
        currentWordCondition := wordCondition.value;
        raised := raised + [TurnStarted(wordCondition.value, isMyTurn)];
        return;
      }
      if !this.isMyTurn && !bypassCache {
        return;
      }
      this.isMyTurn := false;
      turnErrorWordCache := Wrappers.None;
      raised := raised + [TurnEnded];
    }

    method NotifyRound(roundIndex: int)
      modifies this
      ensures State() == Round(old(State()), roundIndex).state
      ensures raised == old(raised) + Round(old(State()), roundIndex).raised
    {
      if roundIndex == roundIndexCache {
        return;
      }
      roundIndexCache := roundIndex;
      if roundIndex <= 0 {
        return;
      }
      turnErrorWordCache := Wrappers.None;
      turnHintWordCache := Wrappers.None;
      typingWordCache := Wrappers.None;
      wordHistoryCache := Wrappers.None;
      wordHistoriesCache := Wrappers.None;
      raised := raised + [RoundChanged(roundIndex)];
    }

    method NotifyTurnError(word: string, errorCode: TurnErrorCode)
      modifies this
      ensures State() == TurnError(old(State()), word, errorCode).state
      ensures raised == old(raised) + TurnError(old(State()), word, errorCode).raised
    {
      if (turnErrorWordCache.Some? && EqualsIgnoreCase(word, turnErrorWordCache.value)) || HasCryingFace(word) {
        return;
      }
      turnErrorWordCache := Wrappers.Some(word);
      raised := raised + [UnsupportedWordEntered(word, errorCode != NotFound,
                                                 errorCode == NoEndWordOnBegin || errorCode == TurnErrorCode.EndWord,
                                                 isMyTurn)];
    }

    /** NotifyWordHistories: the loop over the new list, then the cache replaced. */
    method NotifyWordHistories(newHistories: seq<string>)
      modifies this
      ensures State() == Histories(old(State()), newHistories).state
      ensures raised == old(raised) + Histories(old(State()), newHistories).raised
    {
      if IsFreeMode(currentGameMode) {
        return;
      }
      ghost var s := State();
      var i := 0;
      while i < |newHistories|
        invariant 0 <= i <= |newHistories|
        invariant State() == s
        invariant raised == old(raised) + HistoryEvents(s, newHistories[..i])
      {
        var entry := newHistories[i];
        if && !IsBlank(entry)
           && (wordHistoryCache.None? || entry != wordHistoryCache.value)
           && (wordHistoriesCache.None? || entry !in wordHistoriesCache.value)
        {
          raised := raised + [DiscoverWordHistory(entry)];
        }
        assert newHistories[..i + 1][..i] == newHistories[..i];
        i := i + 1;
      }
      assert newHistories[..i] == newHistories;
      wordHistoriesCache := Wrappers.Some(newHistories);
    }

    method NotifyWordHistory(entry: string)
      modifies this
      ensures State() == History(old(State()), entry).state
      ensures raised == old(raised) + History(old(State()), entry).raised
    {
      if wordHistoryCache.Some? && EqualsIgnoreCase(wordHistoryCache.value, entry) {
        return;
      }
      raised := raised + [DiscoverWordHistory(entry)];
    }
  }
}
