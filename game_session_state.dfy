// GameSessionState: what the helper knows about the game of the current
// session: the player sequence, whether this user takes part, the game mode
// and the per-game turn state, with the cached ordinal of this user in the
// sequence. The locks around the sequence and the mode are concurrency and
// are not part of this model; the typing-battle word list is a plain field
// no modelled operation touches and is left out.
module GameSession {
  import opened KkutuTypes
  import opened Int32

  /** IImmutableList.IndexOf: the first index of x in s, or -1. */
  function IndexOf(s: seq<string>, x: string): (r: int)
    ensures -1 <= r < |s|
    ensures r == -1 <==> x !in s
    ensures r >= 0 ==> s[r] == x && x !in s[..r]
  {
    if |s| == 0 then -1
    else if s[0] == x then 0
    else
      var k := IndexOf(s[1..], x);
      assert k >= 0 ==> s[..k + 1] == [s[0]] + s[1..][..k];
      if k < 0 then -1 else k + 1
  }

  class GameSessionState {
    var myTurnOrdinalCache: int
    const myUserId: string
    var amIGaming: bool
    var gameMode: GameMode
    var gameSequence: seq<string>
    var previousTurnMission: string
    var turnIndex: int32
    var isTurnInProgress: bool
    var wordCondition: WordCondition
    var returnMode: bool

    /**
     * The session's standing facts: the sequence fits a .NET list, this
     * user is gaming exactly when the sequence holds its id, and the cached
     * ordinal is unset or the index of its id.
     */
    predicate Valid()
      reads this
    {
      && |gameSequence| <= Max
      && (amIGaming <==> myUserId in gameSequence)
      && (myTurnOrdinalCache == -1 || myTurnOrdinalCache == IndexOf(gameSequence, myUserId))
    }

    /** GameSessionState(myUserId): no game, no sequence, every per-game field at its default. */
    constructor(myUserId: string)
      ensures Valid()
      ensures this.myUserId == myUserId && !amIGaming && gameMode == GameMode.None && gameSequence == []
      ensures previousTurnMission == "" && turnIndex == -1 && !isTurnInProgress
      ensures wordCondition == WordCondition.Empty && !returnMode && myTurnOrdinalCache == -1
    {
      this.myUserId := myUserId;
      myTurnOrdinalCache := -1;
      amIGaming := false;
      gameMode := GameMode.None;
      gameSequence := [];
      previousTurnMission := "";
      turnIndex := -1;
      isTurnInProgress := false;
      wordCondition := WordCondition.Empty;
      returnMode := false;
    }

    /** GameSessionState(other): a copy of every field of a valid session except the cached ordinal, which starts unset. */
    constructor Copy(other: GameSessionState)
      requires other.Valid()
      ensures Valid()
      ensures myUserId == other.myUserId && amIGaming == other.amIGaming && gameMode == other.gameMode
      ensures gameSequence == other.gameSequence && previousTurnMission == other.previousTurnMission
      ensures turnIndex == other.turnIndex && isTurnInProgress == other.isTurnInProgress
      ensures wordCondition == other.wordCondition && returnMode == other.returnMode
      ensures myTurnOrdinalCache == -1
    {
      myTurnOrdinalCache := -1;
      myUserId := other.myUserId;
      amIGaming := other.amIGaming;
      gameMode := other.gameMode;
      gameSequence := other.gameSequence;
      previousTurnMission := other.previousTurnMission;
      turnIndex := other.turnIndex;
      isTurnInProgress := other.isTurnInProgress;
      wordCondition := other.wordCondition;
      returnMode := other.returnMode;
    }

    /**
     * UpdateGameSequence: an equal sequence changes nothing and returns
     * false. Otherwise the sequence is replaced, the cached ordinal is
     * dropped, the per-game fields are reset when this user leaves the
     * game, and AmIGaming says whether the new sequence holds its id.
     */
    method UpdateGameSequence(s: seq<string>) returns (changed: bool)
      requires Valid() && |s| <= Max
      modifies this
      ensures Valid()
      ensures changed <==> s != old(gameSequence)
      ensures !changed ==> unchanged(this)
      ensures changed ==> gameSequence == s && amIGaming == (myUserId in s) && myTurnOrdinalCache == -1
      ensures gameMode == old(gameMode)
      ensures changed && old(amIGaming) && myUserId !in s ==>
        && previousTurnMission == "" && turnIndex == -1 && !isTurnInProgress
        && wordCondition == WordCondition.Empty && !returnMode
      ensures !(changed && old(amIGaming) && myUserId !in s) ==>
        && previousTurnMission == old(previousTurnMission) && turnIndex == old(turnIndex)
        && isTurnInProgress == old(isTurnInProgress) && wordCondition == old(wordCondition)
        && returnMode == old(returnMode)
    {
      var imGaming := myUserId in s;
      if gameSequence == s {
        return false;
      }
      gameSequence := s;
      myTurnOrdinalCache := -1;
      if amIGaming && !imGaming {
        previousTurnMission := "";
        turnIndex := -1;
        isTurnInProgress := false;
        wordCondition := WordCondition.Empty;
        returnMode := false;
      }
      amIGaming := imGaming;
      changed := true;
    }

    /** GameSessionState(myUserId, seq): a new session that has taken the sequence. */
    constructor WithSequence(myUserId: string, s: seq<string>)
      requires |s| <= Max
      ensures Valid()
      ensures this.myUserId == myUserId && gameSequence == s && amIGaming == (myUserId in s)
      ensures gameMode == GameMode.None && turnIndex == -1 && myTurnOrdinalCache == -1
    {
      this.myUserId := myUserId;
      myTurnOrdinalCache := -1;
      amIGaming := false;
      gameMode := GameMode.None;
      gameSequence := [];
      previousTurnMission := "";
      turnIndex := -1;
      isTurnInProgress := false;
      wordCondition := WordCondition.Empty;
      returnMode := false;
      new;
      var _ := UpdateGameSequence(s);
    }

    /** UpdateGameMode: false iff the mode is the current one; the mode is then the given one. */
    method UpdateGameMode(mode: GameMode) returns (changed: bool)
      modifies this
      ensures changed <==> mode != old(gameMode)
      ensures gameMode == mode
      ensures unchanged(this`myTurnOrdinalCache, this`amIGaming, this`gameSequence, this`previousTurnMission)
      ensures unchanged(this`turnIndex, this`isTurnInProgress, this`wordCondition, this`returnMode)
    {
      if mode == gameMode {
        return false;
      }
      gameMode := mode;
      changed := true;
    }

    /**
     * GetRelativeTurn: the seat of the turn, (TurnIndex + Count) % Count
     * with the truncating 32-bit remainder of the source, or -1 with no
     * sequence.
     */
    function GetRelativeTurn(): (r: int32)
      requires Valid()
      reads this
      ensures |gameSequence| == 0 ==> r == -1
    {
      var n := |gameSequence|;
      if n == 0 then -1 else Rem(Add(turnIndex, n as int32), n as int32)
    }

    /**
     * With a sequence and a turn index from -Count up to where the sum
     * still fits 32 bits, the relative turn is a seat of the sequence and
     * the turn index modulo its length.
     */
    lemma RelativeTurnIsSeat()
      requires Valid() && |gameSequence| > 0
      requires -|gameSequence| <= turnIndex && InRange(turnIndex + |gameSequence|)
      ensures 0 <= GetRelativeTurn() < |gameSequence|
      ensures GetRelativeTurn() == turnIndex % |gameSequence|
    {
      var n := |gameSequence|;
      assert Add(turnIndex, n as int32) == turnIndex + n;
      ModShift(turnIndex, n);
    }

    /** GetTurnOf: the index of the user in the sequence, or -1. */
    function GetTurnOf(userId: string): (r: int)
      reads this
      ensures r == -1 <==> userId !in gameSequence
      ensures r >= 0 ==> r < |gameSequence| && gameSequence[r] == userId
    {
      IndexOf(gameSequence, userId)
    }

    /** What GetMyTurnIndex answers: -1 when not gaming, otherwise the index of this user's id. */
    function MyTurnIndex(): int
      reads this
    {
      if amIGaming then IndexOf(gameSequence, myUserId) else -1
    }

    /** MyTurnIndex is a seat holding this user's id exactly when this user is gaming. */
    lemma MyTurnIndexIsMySeat()
      requires Valid()
      ensures MyTurnIndex() >= 0 <==> amIGaming
      ensures amIGaming ==> MyTurnIndex() < |gameSequence| && gameSequence[MyTurnIndex()] == myUserId
    {
    }

    /**
     * GetMyTurnIndex: MyTurnIndex, caching the index on the first call
     * after the sequence changed; nothing else changes.
     */
    method GetMyTurnIndex() returns (r: int)
      requires Valid()
      modifies this`myTurnOrdinalCache
      ensures Valid()
      ensures r == MyTurnIndex()
    {
      if !amIGaming {
        return -1;
      }
      if |gameSequence| > 0 && myTurnOrdinalCache < 0 {
        myTurnOrdinalCache := IndexOf(gameSequence, myUserId);
      }
      r := myTurnOrdinalCache;
    }

    /** IsMyTurn: the relative turn is a seat and it is this user's. */
    method IsMyTurn() returns (r: bool)
      requires Valid()
      modifies this`myTurnOrdinalCache
      ensures Valid()
      ensures r <==> GetRelativeTurn() >= 0 && GetRelativeTurn() == MyTurnIndex()
    {
      var turn := GetRelativeTurn();
      var mine := GetMyTurnIndex();
      r := turn >= 0 && turn == mine;
    }

    /**
     * In range, it is this user's turn exactly when this user is gaming
     * and the turn index modulo the sequence length is the seat of its id.
     */
    lemma MyTurnIffMySeat()
      requires Valid() && |gameSequence| > 0
      requires -|gameSequence| <= turnIndex && InRange(turnIndex + |gameSequence|)
      ensures (GetRelativeTurn() >= 0 && GetRelativeTurn() == MyTurnIndex())
        <==> amIGaming && turnIndex % |gameSequence| == IndexOf(gameSequence, myUserId)
    {
      RelativeTurnIsSeat();
    }

    /** What GetMyPreviousUserTurn answers: (MyTurnIndex - 1 + Count) % Count in 32 bits, or -1 with no sequence. */
    function PreviousUserTurn(): (r: int32)
      requires Valid()
      reads this
    {
      var n := |gameSequence|;
      MyTurnIndexIsMySeat();
      if n == 0 then -1 else Rem(Add(Sub(MyTurnIndex() as int32, 1), n as int32), n as int32)
    }

    /**
     * While gaming, the previous user's turn is the seat before this
     * user's, wrapping from the first seat to the last. While not, the
     * answer is not -1 but seat Count - 2 (seat 0 for one player).
     */
    lemma PreviousUserTurnIsSeatBefore()
      requires Valid() && |gameSequence| > 0 && InRange(2 * |gameSequence|)
      ensures var n, i := |gameSequence|, IndexOf(gameSequence, myUserId);
        amIGaming ==> PreviousUserTurn() == (if i == 0 then n - 1 else i - 1)
      ensures !amIGaming ==> PreviousUserTurn() == (if |gameSequence| == 1 then 0 else |gameSequence| - 2)
    {
      var n := |gameSequence|;
      MyTurnIndexIsMySeat();
      var m := MyTurnIndex();
      assert Add(Sub(m as int32, 1), n as int32) == m - 1 + n;
      if m > 0 {
        ModShift(m - 1, n);
        DivModUnique(m - 1, n, 0, m - 1);
      } else if m == 0 {
        DivModUnique(n - 1, n, 0, n - 1);
      } else if n > 1 {
        DivModUnique(n - 2, n, 0, n - 2);
      }
    }

    /** GetMyPreviousUserTurn, through GetMyTurnIndex and its cache. */
    method GetMyPreviousUserTurn() returns (r: int32)
      requires Valid()
      modifies this`myTurnOrdinalCache
      ensures Valid()
      ensures r == PreviousUserTurn()
    {
      var n := |gameSequence|;
      if n == 0 {
        return -1;
      }
      var mine := GetMyTurnIndex();
      MyTurnIndexIsMySeat();
      r := Rem(Add(Sub(mine as int32, 1), n as int32), n as int32);
    }

    /** IsEmpty: the session has no user id (string.IsNullOrEmpty; the id is never null here). */
    predicate IsEmpty()
      ensures IsEmpty() <==> myUserId == ""
    {
      |myUserId| == 0
    }
  }
}
