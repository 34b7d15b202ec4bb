// The enumerations and small records the game logic shares: game modes, the
// per-word flags stored in the database, the word categories shown to the
// user, the turn-error codes read from the page, and the word condition of a
// turn. Their declarations are not part of this model; the cases are the
// ones the modelled code uses.
module KkutuTypes {

  datatype GameMode =
    | None
    | LastAndFirst
    | FirstAndLast
    | MiddleAndFirst
    | Kkutu
    | KungKungTta
    | TypingBattle
    | All
    | AllKorean
    | AllEnglish
    | Free
    | LastAndFirstFree
    | Hunmin

  /** GameMode.IsFreeMode: the modes without a chain condition. */
  predicate IsFreeMode(mode: GameMode)
  {
    mode == Free || mode == LastAndFirstFree
  }

  /** One bit of the [Flags] enum WordFlags; a WordFlags value is a set of them. */
  datatype WordFlag =
    | EndWord
    | AttackWord
    | ReverseEndWord
    | ReverseAttackWord
    | MiddleEndWord
    | MiddleAttackWord
    | KkutuEndWord
    | KkutuAttackWord
    | KKT2
    | KKT3
    | KKTEndWord
    | KKTAttackWord
    | LoanWord
    | Dialect
    | DeadLang
    | Munhwa

  type WordFlags = set<WordFlag>

  /** The flags no recalculation can derive from the word itself. */
  const PreservedFlags: WordFlags := {LoanWord, Dialect, DeadLang, Munhwa}

  /** The node lists a node can belong to (NodeTypes). */
  datatype NodeType =
    | EndNode
    | AttackNode
    | ReverseEndNode
    | ReverseAttackNode
    | KkutuEndNode
    | KkutuAttackNode
    | KKTEndNode
    | KKTAttackNode

  /** One bit of the [Flags] enum WordCategories. */
  datatype WordCategory = EndCategory | AttackCategory | MissionCategory

  type WordCategories = set<WordCategory>

  /**
   * The condition a word must meet on a turn: its head char, an optional
   * substitute char (두음법칙), the mission char and the word length of the
   * KungKungTta mode. Empty is the condition of a free turn.
   */
  datatype WordCondition =
    | Empty
    | Condition(ch: string, subChar: string, missionChar: string, wordLength: int)
}

// The codes of a refused word, kept apart because one shares its name with
// a WordFlag.
module TurnErrors {
  /** The code read from the page when a submitted word is refused. */
  datatype TurnErrorCode =
    | NotFound
    | NoEndWordOnBegin
    | EndWord
    | Loanword
    | Strict
    | WrongSubject
    | AlreadyUsed
}
