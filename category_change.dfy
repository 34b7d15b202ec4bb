// PathObjectCategoryChangeExtension: the user re-marks a found word as an
// attack word, an end word or a normal word, and the database's node tables
// are edited so that the word's node is in the matching table of the mode.
// The node tables are the eight lists NodeManager reads; the query objects
// that delete and insert a node are not part of this model and are taken
// here as a set removal and an insert-if-absent.
module CategoryChange {
  import opened KkutuTypes
  import opened WordToNode
  import opened PathObjects
  import opened NodeLists
  import Wrappers

  /** The DatabaseConstants names of the eight node tables. */
  datatype NodeTable =
    | EndNodeIndex | AttackNodeIndex
    | ReverseEndNodeIndex | ReverseAttackNodeIndex
    | KkutuEndNodeIndex | KkutuAttackNodeIndex
    | KKTEndNodeIndex | KKTAttackNodeIndex

  /** Whether a table holds end nodes (as against attack nodes). */
  predicate IsEndTable(t: NodeTable)
  {
    t.EndNodeIndex? || t.ReverseEndNodeIndex? || t.KkutuEndNodeIndex? || t.KKTEndNodeIndex?
  }

  /** The attack table kept beside an end table, and back. */
  function Counterpart(t: NodeTable): NodeTable
  {
    match t
    case EndNodeIndex => AttackNodeIndex
    case AttackNodeIndex => EndNodeIndex
    case ReverseEndNodeIndex => ReverseAttackNodeIndex
    case ReverseAttackNodeIndex => ReverseEndNodeIndex
    case KkutuEndNodeIndex => KkutuAttackNodeIndex
    case KkutuAttackNodeIndex => KkutuEndNodeIndex
    case KKTEndNodeIndex => KKTAttackNodeIndex
    case KKTAttackNodeIndex => KKTEndNodeIndex
  }

  /** GetAttackWordListTableName: the reverse, Kkutu and KungKungTta tables for their modes, the plain one otherwise. */
  function GetAttackWordListTableName(mode: GameMode): (r: NodeTable)
    ensures !IsEndTable(r)
    ensures r == ReverseAttackNodeIndex <==> mode == FirstAndLast
    ensures r == KkutuAttackNodeIndex <==> mode == Kkutu
    ensures r == KKTAttackNodeIndex <==> mode == KungKungTta
    ensures r == AttackNodeIndex <==> mode != FirstAndLast && mode != Kkutu && mode != KungKungTta
  {
    match mode
    case FirstAndLast => ReverseAttackNodeIndex
    case Kkutu => KkutuAttackNodeIndex
    case KungKungTta => KKTAttackNodeIndex
    case _ => AttackNodeIndex
  }

  /** GetEndWordListTableName: the reverse, Kkutu and KungKungTta tables for their modes, the plain one otherwise. */
  function GetEndWordListTableName(mode: GameMode): (r: NodeTable)
    ensures IsEndTable(r)
    ensures r == ReverseEndNodeIndex <==> mode == FirstAndLast
    ensures r == KkutuEndNodeIndex <==> mode == Kkutu
    ensures r == KKTEndNodeIndex <==> mode == KungKungTta
    ensures r == EndNodeIndex <==> mode != FirstAndLast && mode != Kkutu && mode != KungKungTta
  {
    match mode
    case FirstAndLast => ReverseEndNodeIndex
    case Kkutu => KkutuEndNodeIndex
    case KungKungTta => KKTEndNodeIndex
    case _ => EndNodeIndex
  }

  /** The two tables of a mode are each other's counterparts, so they are never the same table. */
  lemma TablesOfModePair(mode: GameMode)
    ensures Counterpart(GetEndWordListTableName(mode)) == GetAttackWordListTableName(mode)
    ensures Counterpart(GetAttackWordListTableName(mode)) == GetEndWordListTableName(mode)
    ensures GetEndWordListTableName(mode) != GetAttackWordListTableName(mode)
  {
  }

  /**
   * ToNode: the node of the word under the mode's chain rule, the first
   * char for FirstAndLast, the middle char for MiddleAndFirst with an odd
   * length, the Kkutu tail for Kkutu from three chars on, and the last char
   * otherwise. An empty word throws: FirstAndLast indexes its first char
   * (IndexOutOfRange), and every other mode falls through to Last() on the
   * empty word (InvalidOperation).
   */
  function ToNode(content: string, mode: GameMode): (r: Wrappers.Result<string>)
    ensures r.Failure? <==> |content| == 0
    ensures r.Failure? ==> r.error == (if mode == FirstAndLast then Wrappers.IndexOutOfRange else Wrappers.InvalidOperation)
    ensures r.Success? ==> IsEnd(r.value, content) || (mode == MiddleAndFirst && |content| % 2 == 1)
    ensures r.Success? ==> 1 <= |r.value| <= 2
    ensures r.Success? && |r.value| == 2 ==> mode == Kkutu && |content| >= 4
  {
    if |content| == 0 then
      if mode == FirstAndLast then Wrappers.Failure(Wrappers.IndexOutOfRange) else Wrappers.Failure(Wrappers.InvalidOperation)
    else
      NodesAreEnds(content);
      match mode
      case FirstAndLast => Wrappers.Success(FaLTail(content))
      case MiddleAndFirst =>
        if |content| % 2 == 1 then Wrappers.Success(MaFTail(content)) else Wrappers.Success(LaFTail(content))
      case Kkutu =>
        if |content| > 2 then Wrappers.Success(KkutuTail(content)) else Wrappers.Success(LaFTail(content))
      case _ => Wrappers.Success(LaFTail(content))
  }

  /** The node ToNode gives, char by char: the rule falls back to the last char where its own condition fails. */
  lemma ToNodeChars(content: string, mode: GameMode)
    requires |content| > 0
    ensures var n := |content|;
      ToNode(content, mode).value ==
        if mode == FirstAndLast then [content[0]]
        else if mode == MiddleAndFirst && n % 2 == 1 then [content[(n - 1) / 2]]
        else if mode == Kkutu && n >= 4 then [content[n - 2], content[n - 1]]
        else [content[n - 1]]
  {
    var n := |content|;
    var r := ToNode(content, mode).value;
    if mode == FirstAndLast {
      assert r == FaLTail(content);
    } else if mode == MiddleAndFirst {
      assert r == if n % 2 == 1 then MaFTail(content) else LaFTail(content);
    } else if mode == Kkutu {
      assert r == if n > 2 then KkutuTail(content) else LaFTail(content);
      if n >= 4 {
        assert content[n - 2..] == [content[n - 2], content[n - 1]];
      }
    } else {
      assert r == LaFTail(content);
    }
  }

  /**
   * The WordFlag CalcWordFlags sets when a word's node is in the end table
   * of the mode: the middle flag for MiddleAndFirst words ToNode takes the
   * middle of, the mode's own end flag otherwise.
   */
  function EndFlagOf(mode: GameMode, content: string): WordFlag
  {
    match mode
    case FirstAndLast => ReverseEndWord
    case Kkutu => KkutuEndWord
    case KungKungTta => KKTEndWord
    case MiddleAndFirst => if |content| > 2 && |content| % 2 == 1 then MiddleEndWord else WordFlag.EndWord
    case _ => WordFlag.EndWord
  }

  /** The same for the attack table of the mode. */
  function AttackFlagOf(mode: GameMode, content: string): WordFlag
  {
    match mode
    case FirstAndLast => ReverseAttackWord
    case Kkutu => KkutuAttackWord
    case KungKungTta => KKTAttackWord
    case MiddleAndFirst => if |content| > 2 && |content| % 2 == 1 then MiddleAttackWord else AttackWord
    case _ => AttackWord
  }

  /** The rows of one table. */
  function TableOf(v: NodeSets, t: NodeTable): set<string>
  {
    match t
    case EndNodeIndex => v.endNodes
    case AttackNodeIndex => v.attackNodes
    case ReverseEndNodeIndex => v.reverseEndNodes
    case ReverseAttackNodeIndex => v.reverseAttackNodes
    case KkutuEndNodeIndex => v.kkutuEndNodes
    case KkutuAttackNodeIndex => v.kkutuAttackNodes
    case KKTEndNodeIndex => v.kktEndNodes
    case KKTAttackNodeIndex => v.kktAttackNodes
  }

  /** The tables with the rows of one replaced. */
  function WithTable(v: NodeSets, t: NodeTable, rows: set<string>): (r: NodeSets)
    ensures TableOf(r, t) == rows
  {
    match t
    case EndNodeIndex => v.(endNodes := rows)
    case AttackNodeIndex => v.(attackNodes := rows)
    case ReverseEndNodeIndex => v.(reverseEndNodes := rows)
    case ReverseAttackNodeIndex => v.(reverseAttackNodes := rows)
    case KkutuEndNodeIndex => v.(kkutuEndNodes := rows)
    case KkutuAttackNodeIndex => v.(kkutuAttackNodes := rows)
    case KKTEndNodeIndex => v.(kktEndNodes := rows)
    case KKTAttackNodeIndex => v.(kktAttackNodes := rows)
  }

  /** Replacing one table leaves every other table as it was. */
  lemma WithTableFrame(v: NodeSets, t: NodeTable, rows: set<string>)
    ensures forall u :: u != t ==> TableOf(WithTable(v, t, rows), u) == TableOf(v, u)
  {
  }

  /**
   * Whenever CalcWordFlags can set the mode's end or attack flag for a word,
   * it looks for the node ToNode gives in the table the mode's table name
   * gives, so the tables MakeEnd and MakeAttack edit are the ones the flags
   * are read from.
   */
  lemma ToNodeIsLookedUp(v: NodeSets, content: string, mode: GameMode)
    requires |content| > 0
    ensures ListOf(v, EndFlagOf(mode, content)) == TableOf(v, GetEndWordListTableName(mode))
    ensures ListOf(v, AttackFlagOf(mode, content)) == TableOf(v, GetAttackWordListTableName(mode))
    ensures NodeFor(content, EndFlagOf(mode, content)).Some? ==>
      NodeFor(content, EndFlagOf(mode, content)).value == ToNode(content, mode).value
    ensures NodeFor(content, AttackFlagOf(mode, content)).Some? ==>
      NodeFor(content, AttackFlagOf(mode, content)).value == ToNode(content, mode).value
  {
  }

  /** How a call ended: skipped for the word's category, the tables changed, or nothing left to change. */
  datatype Marking = Skipped | Marked | AlreadyDone

  /** MakeAttack on values: the node leaves the mode's end table and joins its attack table. */
  function AttackOutcome(v: NodeSets, content: string, categories: WordCategories, mode: GameMode): (Wrappers.Result<Marking>, NodeSets)
  {
    if AttackCategory in categories then (Wrappers.Success(Skipped), v)
    else MoveOutcome(v, content, mode, GetEndWordListTableName(mode), GetAttackWordListTableName(mode))
  }

  /** MakeEnd on values: the node leaves the mode's attack table and joins its end table. */
  function EndOutcome(v: NodeSets, content: string, categories: WordCategories, mode: GameMode): (Wrappers.Result<Marking>, NodeSets)
  {
    if EndCategory in categories then (Wrappers.Success(Skipped), v)
    else MoveOutcome(v, content, mode, GetAttackWordListTableName(mode), GetEndWordListTableName(mode))
  }

  /** Deleting the node from one table and adding it to another; marked when the add inserted a row. */
  function MoveOutcome(v: NodeSets, content: string, mode: GameMode, from: NodeTable, to: NodeTable): (Wrappers.Result<Marking>, NodeSets)
  {
    var node := ToNode(content, mode);
    if node.Failure? then (Wrappers.Failure(node.error), v)
    else
      var n := node.value;
      var deleted := WithTable(v, from, TableOf(v, from) - {n});
      (Wrappers.Success(if n in TableOf(deleted, to) then AlreadyDone else Marked),
       WithTable(deleted, to, TableOf(deleted, to) + {n}))
  }

  /** MakeNormal on values: the node leaves both tables of the mode; marked when either had it. */
  function NormalOutcome(v: NodeSets, content: string, categories: WordCategories, mode: GameMode): (Wrappers.Result<Marking>, NodeSets)
  {
    if EndCategory !in categories && AttackCategory !in categories then (Wrappers.Success(Skipped), v)
    else
      var node := ToNode(content, mode);
      if node.Failure? then (Wrappers.Failure(node.error), v)
      else
        var n := node.value;
        var endTable, attackTable := GetEndWordListTableName(mode), GetAttackWordListTableName(mode);
        var afterEnd := WithTable(v, endTable, TableOf(v, endTable) - {n});
        var afterAttack := WithTable(afterEnd, attackTable, TableOf(afterEnd, attackTable) - {n});
        (Wrappers.Success(if n in TableOf(v, endTable) || n in TableOf(afterEnd, attackTable) then Marked else AlreadyDone),
         afterAttack)
  }

  /** MakeAttack and MakeEnd do nothing to a word that already has the category, nor MakeNormal to a word with neither. */
  lemma SkipsWordsAlreadyInCategory(v: NodeSets, content: string, categories: WordCategories, mode: GameMode)
    ensures AttackCategory in categories <==> AttackOutcome(v, content, categories, mode) == (Wrappers.Success(Skipped), v)
    ensures EndCategory in categories <==> EndOutcome(v, content, categories, mode) == (Wrappers.Success(Skipped), v)
    ensures EndCategory !in categories && AttackCategory !in categories
      <==> NormalOutcome(v, content, categories, mode) == (Wrappers.Success(Skipped), v)
  {
  }

  /**
   * A word that is not skipped and is empty throws before any table
   * changes: IndexOutOfRange in FirstAndLast, InvalidOperation in every
   * other mode.
   */
  lemma EmptyWordThrows(v: NodeSets, categories: WordCategories, mode: GameMode)
    ensures var e := if mode == FirstAndLast then Wrappers.IndexOutOfRange else Wrappers.InvalidOperation;
      && (AttackCategory !in categories ==> AttackOutcome(v, "", categories, mode) == (Wrappers.Failure(e), v))
      && (EndCategory !in categories ==> EndOutcome(v, "", categories, mode) == (Wrappers.Failure(e), v))
      && (EndCategory in categories || AttackCategory in categories
          ==> NormalOutcome(v, "", categories, mode) == (Wrappers.Failure(e), v))
  {
  }

  /**
   * After the move the node is in the target table and not in the source
   * table, every other table is as it was, and the call is marked exactly
   * when the target table did not have the node.
   */
  lemma MoveResult(v: NodeSets, content: string, mode: GameMode, from: NodeTable, to: NodeTable)
    requires |content| > 0 && from != to
    ensures var n := ToNode(content, mode).value;
      var (r, w) := MoveOutcome(v, content, mode, from, to);
      && TableOf(w, to) == TableOf(v, to) + {n}
      && TableOf(w, from) == TableOf(v, from) - {n}
      && (forall u :: u != from && u != to ==> TableOf(w, u) == TableOf(v, u))
      && r == Wrappers.Success(if n in TableOf(v, to) then AlreadyDone else Marked)
  {
    var n := ToNode(content, mode).value;
    var deleted := WithTable(v, from, TableOf(v, from) - {n});
    WithTableFrame(v, from, TableOf(v, from) - {n});
    WithTableFrame(deleted, to, TableOf(deleted, to) + {n});
  }

  /**
   * MakeEnd makes the word an end word and not an attack word for
   * CalcWordFlags in that mode, whenever the length rules let it look the
   * flag up; MakeAttack the other way round.
   */
  lemma MarkingIsSeenByCalcWordFlags(v: NodeSets, content: string, categories: WordCategories, mode: GameMode)
    requires |content| > 0
    ensures var w := EndOutcome(v, content, categories, mode).1;
      var f, g := EndFlagOf(mode, content), AttackFlagOf(mode, content);
      EndCategory !in categories && NodeFor(content, f).Some? ==>
        NodeFor(content, f).value in ListOf(w, f) && NodeFor(content, g).value !in ListOf(w, g)
    ensures var w := AttackOutcome(v, content, categories, mode).1;
      var f, g := AttackFlagOf(mode, content), EndFlagOf(mode, content);
      AttackCategory !in categories && NodeFor(content, f).Some? ==>
        NodeFor(content, f).value in ListOf(w, f) && NodeFor(content, g).value !in ListOf(w, g)
  {
    TablesOfModePair(mode);
    var endTable, attackTable := GetEndWordListTableName(mode), GetAttackWordListTableName(mode);
    MoveResult(v, content, mode, attackTable, endTable);
    MoveResult(v, content, mode, endTable, attackTable);
    ToNodeIsLookedUp(EndOutcome(v, content, categories, mode).1, content, mode);
    ToNodeIsLookedUp(AttackOutcome(v, content, categories, mode).1, content, mode);
  }

  /** MakeNormal takes the node out of both tables of the mode and leaves the others; it is marked iff either had it. */
  lemma NormalClearsBothTables(v: NodeSets, content: string, categories: WordCategories, mode: GameMode)
    requires |content| > 0 && (EndCategory in categories || AttackCategory in categories)
    ensures var n := ToNode(content, mode).value;
      var (r, w) := NormalOutcome(v, content, categories, mode);
      var endTable, attackTable := GetEndWordListTableName(mode), GetAttackWordListTableName(mode);
      && TableOf(w, endTable) == TableOf(v, endTable) - {n}
      && TableOf(w, attackTable) == TableOf(v, attackTable) - {n}
      && (forall u :: u != endTable && u != attackTable ==> TableOf(w, u) == TableOf(v, u))
      && r == Wrappers.Success(if n in TableOf(v, endTable) || n in TableOf(v, attackTable) then Marked else AlreadyDone)
  {
    TablesOfModePair(mode);
    var n := ToNode(content, mode).value;
    var endTable, attackTable := GetEndWordListTableName(mode), GetAttackWordListTableName(mode);
    var afterEnd := WithTable(v, endTable, TableOf(v, endTable) - {n});
    WithTableFrame(v, endTable, TableOf(v, endTable) - {n});
    WithTableFrame(afterEnd, attackTable, TableOf(afterEnd, attackTable) - {n});
  }

  /** MakeAttack twice: the second call changes nothing and reports nothing left to change. */
  lemma AttackTwice(v: NodeSets, content: string, categories: WordCategories, mode: GameMode)
    requires |content| > 0 && AttackCategory !in categories
    ensures var w := AttackOutcome(v, content, categories, mode).1;
      AttackOutcome(w, content, categories, mode) == (Wrappers.Success(AlreadyDone), w)
  {
    TablesOfModePair(mode);
    var endTable, attackTable := GetEndWordListTableName(mode), GetAttackWordListTableName(mode);
    var w := AttackOutcome(v, content, categories, mode).1;
    MoveResult(v, content, mode, endTable, attackTable);
    MoveResult(w, content, mode, endTable, attackTable);
    assert AttackOutcome(w, content, categories, mode).1 == w;
  }

  /** MakeEnd twice: the second call changes nothing and reports nothing left to change. */
  lemma EndTwice(v: NodeSets, content: string, categories: WordCategories, mode: GameMode)
    requires |content| > 0 && EndCategory !in categories
    ensures var w := EndOutcome(v, content, categories, mode).1;
      EndOutcome(w, content, categories, mode) == (Wrappers.Success(AlreadyDone), w)
  {
    TablesOfModePair(mode);
    var endTable, attackTable := GetEndWordListTableName(mode), GetAttackWordListTableName(mode);
    var w := EndOutcome(v, content, categories, mode).1;
    MoveResult(v, content, mode, attackTable, endTable);
    MoveResult(w, content, mode, attackTable, endTable);
    assert EndOutcome(w, content, categories, mode).1 == w;
  }

  /** MakeNormal twice: the second call changes nothing and reports nothing left to change. */
  lemma NormalTwice(v: NodeSets, content: string, categories: WordCategories, mode: GameMode)
    requires |content| > 0 && (EndCategory in categories || AttackCategory in categories)
    ensures var w := NormalOutcome(v, content, categories, mode).1;
      NormalOutcome(w, content, categories, mode) == (Wrappers.Success(AlreadyDone), w)
  {
    var w := NormalOutcome(v, content, categories, mode).1;
    NormalClearsBothTables(v, content, categories, mode);
    NormalClearsBothTables(w, content, categories, mode);
    assert NormalOutcome(w, content, categories, mode).1 == w;
  }

  /** The node tables of the database connection the extension methods run on. */
  class NodeStore {
    var tables: NodeSets

    /** A store holding the given tables. */
    constructor(tables: NodeSets)
      ensures this.tables == tables
    {
      this.tables := tables;
    }

    /** DeleteNode(table).Execute(node): the row goes, and the count of deleted rows is returned. */
    method DeleteNode(t: NodeTable, node: string) returns (count: int)
      modifies this
      ensures tables == WithTable(old(tables), t, TableOf(old(tables), t) - {node})
      ensures count == if node in TableOf(old(tables), t) then 1 else 0
    {
      count := if node in TableOf(tables, t) then 1 else 0;
      tables := WithTable(tables, t, TableOf(tables, t) - {node});
    }

    /** AddNode(table).Execute(node): false when the row is there already, otherwise it is inserted. */
    method AddNode(t: NodeTable, node: string) returns (added: bool)
      modifies this
      ensures tables == WithTable(old(tables), t, TableOf(old(tables), t) + {node})
      ensures added <==> node !in TableOf(old(tables), t)
    {
      added := node !in TableOf(tables, t);
      tables := WithTable(tables, t, TableOf(tables, t) + {node});
    }

    /** MakeAttack: no change for an attack word; otherwise the node moves from the end table to the attack table. */
    method MakeAttack(pathObject: PathObject, mode: GameMode) returns (r: Wrappers.Result<Marking>)
      modifies this
      ensures (r, tables) == AttackOutcome(old(tables), pathObject.content, pathObject.categories, mode)
    {
      if AttackCategory in pathObject.categories {
        return Wrappers.Success(Skipped);
      }
      r := Move(pathObject.content, mode, GetEndWordListTableName(mode), GetAttackWordListTableName(mode));
    }

    /** MakeEnd: no change for an end word; otherwise the node moves from the attack table to the end table. */
    method MakeEnd(pathObject: PathObject, mode: GameMode) returns (r: Wrappers.Result<Marking>)
      modifies this
      ensures (r, tables) == EndOutcome(old(tables), pathObject.content, pathObject.categories, mode)
    {
      if EndCategory in pathObject.categories {
        return Wrappers.Success(Skipped);
      }
      r := Move(pathObject.content, mode, GetAttackWordListTableName(mode), GetEndWordListTableName(mode));
    }

    /** The shared body of MakeAttack and MakeEnd: delete from one table, then add to the other. */
    method Move(content: string, mode: GameMode, from: NodeTable, to: NodeTable) returns (r: Wrappers.Result<Marking>)
      modifies this
      ensures r == MoveOutcome(old(tables), content, mode, from, to).0
      ensures tables == MoveOutcome(old(tables), content, mode, from, to).1
    {
      var node := ToNode(content, mode);
      if node.Failure? {
        return Wrappers.Failure(node.error);
      }
      ghost var v := tables;
      var n := node.value;
      var _ := DeleteNode(from, n);
      ghost var deleted := tables;
      assert deleted == WithTable(v, from, TableOf(v, from) - {n});
      var added := AddNode(to, n);
      assert tables == WithTable(deleted, to, TableOf(deleted, to) + {n});
      r := Wrappers.Success(if added then Marked else AlreadyDone);
    }

    /** MakeNormal: no change for a word with neither category; otherwise the node leaves both tables. */
    method MakeNormal(pathObject: PathObject, mode: GameMode) returns (r: Wrappers.Result<Marking>)
      modifies this
      ensures (r, tables) == NormalOutcome(old(tables), pathObject.content, pathObject.categories, mode)
    {
      if EndCategory !in pathObject.categories && AttackCategory !in pathObject.categories {
        return Wrappers.Success(Skipped);
      }
      var node := ToNode(pathObject.content, mode);
      if node.Failure? {
        return Wrappers.Failure(node.error);
      }
      var endWord := DeleteNode(GetEndWordListTableName(mode), node.value);
      var attackWord := DeleteNode(GetAttackWordListTableName(mode), node.value);
      r := Wrappers.Success(if endWord > 0 || attackWord > 0 then Marked else AlreadyDone);
    }
  }
}
