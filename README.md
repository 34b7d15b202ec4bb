# AutoKkutu core in Dafny

AutoKkutu is a helper for KKuTu, a Korean word-chain game played in a browser.
This project models the core of its C# code as Dafny datatypes, functions,
classes and lemmas:

- **Hangul processing** (`hangul_processing.dfy`, `hangul_constants.dfy`,
  `hangul_split.dfy`, `hangul_cluster.dfy`, `hangul_recomposer.dfy`): splitting
  a syllable into initial, medial and final jamo, merging them back, and
  turning a word into the key presses that type it. The proofs cover the
  round trips split/merge and type/recompose and the ordering of the serialized
  pieces.
- **Word nodes and flags** (`word_to_node.dfy`, `node_manager.dfy`,
  `word_count.dfy`, `node_count.dfy`): the head and tail nodes of a word in each
  game mode, the flags a word receives from the node lists, how the node lists
  grow when a word is added, and the word and node counters.
- **Path finding and the word lists** (`path_manager.dfy`, `path_object.dfy`,
  `path_details.dfy`, `path_list.dfy`, `category_change.dfy`): the caches of used
  and unsupported words, the filtered candidate list, the choice of the best
  word under a turn-time limit, and moving a word between the attack, end and
  normal categories.
- **Database queries and checks** (`find_word_query.dfy`, `sqlite_priority.dfy`,
  `db_check.dfy`): the word-search query as a list of clauses, the SQLite
  ranking functions in 32-bit arithmetic, and the consistency check that
  collects wrong flags and indexes.
- **Input timing** (`enter_options.dfy`, `int32.dfy`): the typing delays,
  their random spread and their minimum and maximum, with C# `int` wrap-around
  written out.
- **Game state** (`game_session_state.dfy`, `game_state_notify.dfy`,
  `game_dom_poller.dfy`): the session's turn arithmetic, the notifications the
  game raises when the state it reads from the page changes, and the pollers
  that read the page.
- **Shared pieces** (`text.dfy`, `wrappers.dfy`, `kkutu_types.dfy`): the .NET
  string operations used, `Option`/`Result` with the exceptions the code throws,
  and the game's enumerations.

Exceptions the code throws become `Result` failures, and events raised become a
list of recorded events on the class that raises them. The database, the
browser page and the clock are parameters (a set of rows, a value read from the
page, a drawn number).

## Model

| member | source | states |
|---|---|---|
| HangulProcessing.MergeJamo | HangulProcessing.cs:11-17 | without a medial the initial comes back unchanged; with one the result is a composed value inside the char range |
| HangulProcessing.Merge | HangulProcessing.cs:19-28 | throws ArgumentException exactly when the initial is missing; a non-Hangul split yields its final consonant, a Hangul split the composed char |
| HangulProcessing.SplitConsonants | HangulProcessing.cs:90-118 | the split is Hangul iff the char is; a syllable splits into the table entries at delta/588, delta%588/28 and delta%28; any other char lands in the initial slot with the final left at ' ' |
| HangulProcessing.MergeSplitConsonants | HangulProcessing.cs:19-118 | Merge after SplitConsonants gives back every syllable and every initial jamo; a lone medial or final jamo has no initial and throws; a non-Hangul char comes back as the default final ' ', not as itself |
| HangulProcessing.HasFinalConsonant | HangulProcessing.cs:124-128 | only a Hangul char can have a final, and every final jamo has one. A syllable has one exactly when its offset from the first syllable is not a multiple of 28 |
| HangulProcessing.HasFinalConsonantMatchesSplit | HangulProcessing.cs:124-128 | HasFinalConsonant holds iff the split is Hangul and its final slot is not blank |
| HangulProcessing.ExtractInitialConsonant | HangulProcessing.cs:135-142 | a syllable gives the initial SplitConsonants finds; every other char, jamo included, comes back unchanged |
| HangulProcessing.ExtractInitialConsonants | HangulProcessing.cs:144 | the string overload keeps the length and maps each char by ExtractInitialConsonant |
| HangulProcessing.ClusterTablesAgainstLibrary | HangulProcessing.cs:308-376 | this file's inverse table equals the library's consonant decomposition table; its composition table has the same keys and entries except that only it composes ㅂ + ㅂ into ㅃ |
| HangulProcessing.NonWhiteSpace | HangulProcessing.cs:186 | the filtered chars are exactly the non-blank chars of the input, in order |
| HangulProcessing.MergeConsonantCluster | HangulProcessing.cs:174-196 | 0 args give ' ', 1 arg gives itself unfiltered, 2 or more args that are all blank throw IndexOutOfRange on the empty filtered array; otherwise the loop computes the table fold, which throws InvalidOperationException on the first unsupported pair |
| HangulProcessing.FoldFailureIsFinal | HangulProcessing.cs:189-193 | once a prefix of the fold throws, the whole fold throws the same error |
| HangulProcessing.SplitConsonantCluster | HangulProcessing.cs:198-203 | the result is never empty, and a char that is not a cluster key comes back as the singleton list of itself |
| HangulProcessing.MergeSplitCluster | HangulProcessing.cs:174-203 | for every key k of the inverse table, MergeConsonantCluster(SplitConsonantCluster(k)) gives k |
| HangulProcessing.LegacyDecompositionsCompose | HangulProcessing.cs:308-376 | every entry k to [a, b] of the inverse table composes back: a then b gives k |
| HangulProcessing.Serialize | HangulProcessing.cs:210-224 | the list is the initial if present, the medial if present, then each piece of a non-blank final tagged Final |
| HangulProcessing.AppendFinals | HangulProcessing.cs:219-220 | the foreach appends exactly the pieces, each tagged Final, after what was already there |
| HangulProcessing.AppendChar | HangulProcessing.cs:30-83 | an empty string or one whose last char is not Hangul gets ch appended; otherwise the last char is rewritten or kept, so the length grows by at most one |
| HangulProcessing.SplitComposed | HangulProcessing.cs:90-102 | splitting a composed syllable in the treated range gives back its three table entries |
| HangulProcessing.TypeInitial | HangulProcessing.cs:34-50 | an initial typed after a finished char starts a new char |
| HangulProcessing.TypeMedial | HangulProcessing.cs:52-60 | a medial typed after a lone initial replaces it with the syllable without a final |
| HangulProcessing.TypeFirstFinal | HangulProcessing.cs:62-70 | a final typed after a syllable without one recomposes that syllable with it |
| HangulProcessing.FinalIntoCluster | HangulProcessing.cs:71-78 | a final typed after a final that clusters with it recomposes the syllable with the cluster |
| HangulProcessing.TypeClusterFinal | HangulProcessing.cs:62-78 | typing the two pieces of a cluster final after the syllable without a final builds the syllable with the cluster |
| HangulProcessing.TypingSerializedSyllable | HangulProcessing.cs:30-83 | typing the serialized jamo of any syllable after a finished char, one AppendChar each, rebuilds exactly that syllable |
| HangulConstants.InitialTableShape | AutoKkutuLib/Hangul/HangulConstants.cs:14 | the initial table has 19 entries, in strictly increasing order, each a compatibility-jamo consonant |
| HangulConstants.MedialTableShape | AutoKkutuLib/Hangul/HangulConstants.cs:19 | the medial table has 21 entries, in strictly increasing order, each a compatibility-jamo vowel |
| HangulConstants.FinalTableShape | AutoKkutuLib/Hangul/HangulConstants.cs:24 | the final table has 28 entries in strictly increasing order; entry 0 is the space for "no final" and the other 27 are consonants |
| HangulConstants.HangulIsNotWhiteSpace | AutoKkutuLib/Hangul/HangulCharExtension.cs:39 | no char that counts as Hangul is white space, so the Has* tests never mistake a jamo for an empty slot |
| HangulConstants.LastFourSyllablesAreNotHangul | AutoKkutuLib/Hangul/HangulConstants.cs:84 | U+D7A0..U+D7A3 lie above the bound U+D79F, so they are neither syllables nor Hangul |
| HangulConstants.ComposeSyllable | AutoKkutuLib/Hangul/HangulSplit.cs:120-123 | the composed value is U+AC00 + (initial*21 + medial)*28 + final over the ordinal table indices, and it stays within U+A997..U+D7A3 even when an index is -1, so Convert.ToChar cannot throw |
| HangulConstants.SyllableIndicesInRange | AutoKkutuLib/Hangul/HangulSplit.cs:31-36 | for a syllable, delta/588, delta%588/28 and delta%28 are valid indices of the three tables and recombine to delta (section 3.12 of the Unicode Standard) |
| HangulConstants.ComposeSplitSyllable | AutoKkutuLib/Hangul/HangulSplit.cs:31-40 | taking a syllable's three table entries and composing them gives the syllable back |
| HangulConstants.ComposeEntries | AutoKkutuLib/Hangul/HangulSplit.cs:120-123 | composing the table entries at i, m, f uses exactly the indices i, m, f |
| HangulConstants.SplitComposedSyllable | AutoKkutuLib/Hangul/HangulSplit.cs:29-36 | composing entries i, m, f gives a char whose indices are i, m, f again; it counts as a syllable unless it is one of the last four the bound cuts off |
| HangulConstants.StaticConstructor | AutoKkutuLib/Hangul/HangulConstants.cs:118-181 | the four published tables are the consonant snapshots and the later snapshots of the same builders; the builders vcC and vcDec stay empty |
| HangulConstants.ConsonantDecompositionsCompose | AutoKkutuLib/Hangul/HangulConstants.cs:120-156 | every consonant decomposition k to [a, b] composes back: a then b gives k |
| HangulConstants.VowelDecompositionsCompose | AutoKkutuLib/Hangul/HangulConstants.cs:158-180 | the same holds for every entry of the vowel tables, the consonant entries included |
| HangulConstants.ConsonantTablesHoldOnlyConsonants | AutoKkutuLib/Hangul/HangulConstants.cs:142-169 | the consonant snapshots are taken before the vowel writes, so their keys are exactly the seven consonants and hold no vowel |
| HangulConstants.VowelCompositionKeys | AutoKkutuLib/Hangul/HangulConstants.cs:159-170 | the vowel composition table has the consonant keys plus exactly ㅗ, ㅜ and ㅡ |
| HangulConstants.VowelCompositionExtendsConsonants | AutoKkutuLib/Hangul/HangulConstants.cs:159-170 | the vowel composition table keeps every consonant entry unchanged |
| HangulConstants.VowelDecompositionExtendsConsonants | AutoKkutuLib/Hangul/HangulConstants.cs:173-180 | the vowel decomposition table keeps every consonant entry unchanged |
| HangulConstants.VowelDecompositionAddsVowels | AutoKkutuLib/Hangul/HangulConstants.cs:173-180 | every entry the vowel decomposition table adds is a vowel |
| HangulConstants.OnlyMixedClustersDecompose | AutoKkutuLib/Hangul/HangulConstants.cs:120-156 | a composed consonant pair has a decomposition entry iff its two consonants differ; the doubled ㄲ ㄸ ㅆ ㅉ compose but do not decompose |
| HangulSplitting.HangulSplit.HasInitialConsonant | AutoKkutuLib/Hangul/HangulSplit.cs:13 | an initial slot holding the default ' ' is empty, and one holding a Hangul char is filled |
| HangulSplitting.HangulSplit.HasMedial | AutoKkutuLib/Hangul/HangulSplit.cs:14 | a medial slot holding ' ' is empty, and one holding a Hangul char is filled |
| HangulSplitting.HangulSplit.HasFinalConsonant | AutoKkutuLib/Hangul/HangulSplit.cs:15 | a final slot holding ' ' is empty, and one holding a Hangul char is filled |
| HangulSplitting.Hangul | AutoKkutuLib/Hangul/HangulSplit.cs:64 | a Hangul split with exactly the given slots, each filled iff its char is not white space |
| HangulSplitting.NonHangul | AutoKkutuLib/Hangul/HangulSplit.cs:66 | a non-Hangul split with no medial or final, which merges back to its char |
| HangulSplitting.EmptySplits | AutoKkutuLib/Hangul/HangulSplit.cs:5-6 | EmptyHangul is Hangul with every slot empty and serializes to nothing. EmptyNonHangul is not Hangul, merges to ' ' and serializes to its one blank char |
| HangulSplitting.HangulSplit.Equals | AutoKkutuLib/Hangul/HangulSplit.cs:126 | two splits are equal iff all four fields are equal |
| HangulSplitting.HangulSplit.Serialize | AutoKkutuLib/Hangul/HangulSplit.cs:76-102 | the method's appends build exactly the serialized list: [(None, initial)] for a non-Hangul split, else the initial, the medial pieces and the final pieces of the non-blank slots |
| HangulSplitting.Tagged | AutoKkutuLib/Hangul/HangulSplit.cs:91-98 | each cluster piece becomes one entry of the given slot type, in order |
| HangulSplitting.Parse | AutoKkutuLib/Hangul/HangulSplit.cs:23-62 | the split is Hangul iff the char is; a syllable splits into the table entries at its three indices; a non-Hangul char goes to the initial slot of a non-Hangul split |
| HangulSplitting.MergeParse | AutoKkutuLib/Hangul/HangulSplit.cs:23-124 | Merge(Parse(c)) == c for every char c: syllables, every kind of jamo and non-Hangul chars alike |
| HangulSplitting.ParseSyllableSlots | AutoKkutuLib/Hangul/HangulSplit.cs:13-40 | a parsed syllable has an initial and a medial, and has a final iff its final index is not 0 |
| HangulSplitting.SerializeNonHangul | AutoKkutuLib/Hangul/HangulSplit.cs:54-84 | a non-Hangul char serializes to exactly [(None, c)] |
| HangulSplitting.SerializedSlots | AutoKkutuLib/Hangul/HangulSplit.cs:86-99 | in the serialized list of a Hangul split, the entries of each kind are exactly the pieces of that slot when it is not white space, none when it is, and no entry is tagged None |
| HangulSplitting.SerializedOrdered | AutoKkutuLib/Hangul/HangulSplit.cs:86-99 | the serialized list of a Hangul split runs initial entries, then medial, then final |
| HangulSplitting.SerializedNonEmpty | AutoKkutuLib/Hangul/HangulSplit.cs:76-102 | the serialized list is empty iff the split is Hangul and all three slots are white space |
| Recomposer.Consonant2Jamo | AutoKkutuLib/Hangul/HangulRecomposer.cs:98-104 | None maps to None, Medial to Medial, and the initial and final slots both to Consonant |
| Recomposer.HangulRecomposer.constructor | AutoKkutuLib/Hangul/HangulRecomposer.cs:13-18 | the recomposer keeps the layout and the pieces it is given, with the cluster operations and the final-consonant blacklist as parameters |
| Recomposer.HangulRecomposer.Append | AutoKkutuLib/Hangul/HangulRecomposer.cs:21-96 | every command is a key input; a non-Hangul char uses the English IME iff it is a letter, Shift iff it is upper case, and the lowered key; a consonant joins the previous final iff that char has an initial and a medial, the last command was no termination, the consonant is not blacklisted and the merge succeeds, else it starts a new char; a vowel after a full char moves the last final piece onto a new char; the text update starts with '_' and the rewritten char exactly when the previous char is rewritten |
| Recomposer.HangulRecomposer.Recompose | AutoKkutuLib/Hangul/HangulRecomposer.cs:106-142 | an empty piece list gives no commands; otherwise the loop over pieces and their serialized jamo produces exactly the output of the specification FeedPieces |
| Recomposer.HangulRecomposer.AppendAllJamo | AutoKkutuLib/Hangul/HangulRecomposer.cs:126-139 | the inner foreach leaves prevSplit, lastInput and the builder as FeedJamo describes them |
| Recomposer.HangulRecomposer.FeedJamoOutput | AutoKkutuLib/Hangul/HangulRecomposer.cs:126-139 | feeding jamo keeps the commands so far and adds exactly one key input per jamo |
| Recomposer.HangulRecomposer.FeedPieceOutput | AutoKkutuLib/Hangul/HangulRecomposer.cs:119-139 | for each piece the commands are a termination exactly when the previous char is full and its final clusters with the piece's initial, then one key input per serialized jamo |
| Recomposer.HangulRecomposer.RecomposeCounts | AutoKkutuLib/Hangul/HangulRecomposer.cs:116-139 | over all pieces there is exactly one key input per serialized jamo and at most one termination per piece |
| Recomposer.CountKindAppend | AutoKkutuLib/Hangul/HangulRecomposer.cs:123-138 | the count of commands of a kind adds up over concatenation |
| WordToNode.LaFHead | AutoKkutuLib/Extension/WordToNodeExtension.cs:14 | the LastAndFirst head of a non-empty word is its one-char prefix |
| WordToNode.FaLHead | AutoKkutuLib/Extension/WordToNodeExtension.cs:22 | the FirstAndLast head of a non-empty word is its one-char suffix |
| WordToNode.LaFTail | AutoKkutuLib/Extension/WordToNodeExtension.cs:44 | the LastAndFirst tail is one char, the suffix of length 1 |
| WordToNode.FaLTail | AutoKkutuLib/Extension/WordToNodeExtension.cs:52 | the FirstAndLast tail is one char, the prefix of length 1 |
| WordToNode.KkutuTail | AutoKkutuLib/Extension/WordToNodeExtension.cs:60-65 | the Kkutu tail is the last two chars from length 4 on and the last char below |
| WordToNode.MaFTail | AutoKkutuLib/Extension/WordToNodeExtension.cs:74 | the MiddleAndFirst tail is the char at (length - 1) / 2 |
| WordToNode.KkutuHead | AutoKkutuLib/Extension/WordToNodeExtension.cs:30-36 | the Kkutu head is the first two chars from length 4 on, the first char at length 3, and empty exactly when the word is shorter than 3 |
| WordToNode.TailsAreHeads | AutoKkutuLib/Extension/WordToNodeExtension.cs:14-52 | the LastAndFirst tail equals the FirstAndLast head (the last char) and the FirstAndLast tail equals the LastAndFirst head (the first char) |
| WordToNode.NodesAreEnds | AutoKkutuLib/Extension/WordToNodeExtension.cs:14-64 | every LastAndFirst, FirstAndLast and Kkutu node is a prefix or suffix of the word of length 1 or 2, except the Kkutu head, which is empty below length 3 |
| WordToNode.MaFTailIsMiddle | AutoKkutuLib/Extension/WordToNodeExtension.cs:74 | for an odd length the MiddleAndFirst tail has as many chars before it as after it |
| NodeLists.NodeFor | AutoKkutuLib/Node/NodeManager.cs:107-216 | the node a flag of the word is checked against exists only for the ten node-list flags, the Kkutu ones only above length 2, the KungKungTta ones only at length 3, and the middle ones only at odd lengths above 2 |
| NodeLists.FlagIfListed | AutoKkutuLib/Node/NodeManager.cs:156-163 | the target flag is added iff the node is not blank and is in the list; no other flag changes |
| NodeLists.NodeManager.Listed | AutoKkutuLib/Node/NodeManager.cs:107-148 | a flag can be listed only when the length rules of CalcWordFlags consult its list |
| NodeLists.NodeManager.GetEndNodeForMode | AutoKkutuLib/Node/NodeManager.cs:88-93 | FirstAndLast gives the reverse end list, Kkutu the Kkutu end list, and every other mode the plain end list |
| NodeLists.NodeManager.CalcWordFlags | AutoKkutuLib/Node/NodeManager.cs:100-151 | an empty word throws ArgumentException; otherwise a node-list flag is set iff the word's node for it is a listed non-blank node (EndWord iff the last char is in EndNodes, AttackWord likewise), KKT2 iff the length is 2, KKT3 iff it is 3, and nothing else; as a function of the lists it changes none of them |
| NodeLists.NodeManager.TailFlags | AutoKkutuLib/Node/NodeManager.cs:107-117 | the first four checks set exactly the listed ones of EndWord, AttackWord, ReverseEndWord and ReverseAttackWord |
| NodeLists.NodeManager.KkutuFlags | AutoKkutuLib/Node/NodeManager.cs:124-128 | the Kkutu checks add exactly the listed Kkutu flags |
| NodeLists.NodeManager.KktFlags | AutoKkutuLib/Node/NodeManager.cs:130-139 | a three-letter word gains KKT3 and the listed KungKungTta flags; a longer word gains nothing |
| NodeLists.NodeManager.MiddleFlags | AutoKkutuLib/Node/NodeManager.cs:141-148 | an odd-length word gains the listed middle flags; an even one gains nothing |
| NodeLists.NodeManager.LongWordFlags | AutoKkutuLib/Node/NodeManager.cs:122-149 | above length 2 the Kkutu, KungKungTta and middle checks together add exactly their listed flags and KKT3 at length 3 |
| NodeLists.NodeManager.UpdateNodeListsByWord | AutoKkutuLib/Node/NodeManager.cs:168-219 | an empty word throws and changes nothing; otherwise the lists become Grown (each gains exactly the nodes the word offers it), the returned count is CountsAdded, and the ref flags gain KKT2 or KKT3 by length |
| NodeLists.NodeManager.UpdateWordLists | AutoKkutuLib/Node/NodeManager.cs:175-217 | the four tail steps, then the steps of longer words, with the flags gaining KKT2 or KKT3 by length |
| NodeLists.NodeManager.UpdateTailLists | AutoKkutuLib/Node/NodeManager.cs:175-185 | the plain lists gain the last char and the reverse lists the first char, each only under its flag |
| NodeLists.NodeManager.UpdateLongWordLists | AutoKkutuLib/Node/NodeManager.cs:190-217 | above length 2: the Kkutu steps, then KKT3 and the KungKungTta steps, then the middle steps, which already see KKT3 |
| NodeLists.NodeManager.UpdateKkutuStep | AutoKkutuLib/Node/NodeManager.cs:192-196 | the Kkutu lists gain the Kkutu tail node under the Kkutu flags |
| NodeLists.NodeManager.UpdateKktStep | AutoKkutuLib/Node/NodeManager.cs:198-207 | a three-letter word sets KKT3 and feeds its last char to the KungKungTta lists under EndWord and AttackWord; a longer word changes nothing here |
| NodeLists.NodeManager.UpdateMiddleStep | AutoKkutuLib/Node/NodeManager.cs:209-216 | an odd-length word feeds its middle char to the plain lists under the middle flags; an even one changes nothing |
| NodeLists.NodeManager.UpdateLaFLists | AutoKkutuLib/Node/NodeManager.cs:176-179 | the plain end and attack lists gain the node under EndWord and AttackWord, and the count records each addition |
| NodeLists.NodeManager.UpdateFaLLists | AutoKkutuLib/Node/NodeManager.cs:182-185 | the same for the reverse lists under the reverse flags |
| NodeLists.NodeManager.UpdateKkutuLists | AutoKkutuLib/Node/NodeManager.cs:193-196 | the same for the Kkutu lists under the Kkutu flags |
| NodeLists.NodeManager.UpdateKktLists | AutoKkutuLib/Node/NodeManager.cs:203-206 | the same for the KungKungTta lists, but under EndWord and AttackWord, so they count as EndCount and AttackCount |
| NodeLists.NodeManager.UpdateMiddleLists | AutoKkutuLib/Node/NodeManager.cs:212-215 | the same for the middle node into the plain lists under the middle flags |
| NodeLists.NodeManager.AddIfFlagged | AutoKkutuLib/Node/NodeManager.cs:224-235 | a non-blank node joins the list iff it is not yet there and the flags carry the target; the count is incremented for the target once, exactly then |
| NodeLists.KktAtThree | AutoKkutuLib/Node/NodeManager.cs:198-207 | for a three-letter word the KungKungTta steps offer its last char under EndWord and AttackWord with KKT3 already set |
| NodeLists.KktBeyondThree | AutoKkutuLib/Node/NodeManager.cs:198 | a word longer than three changes neither the KungKungTta lists nor the count |
| NodeLists.IgnoresLengthFlags | AutoKkutuLib/Node/NodeManager.cs:200-215 | adding KKT3 to the flags changes neither what a word offers a list nor whether it is added, since no step targets KKT3 |
| NodeLists.ShortWordOffersNoLongNodes | AutoKkutuLib/Node/NodeManager.cs:190 | a word of one or two letters offers nothing to the Kkutu, KungKungTta or middle lists |
| NodeLists.GrownInSteps | AutoKkutuLib/Node/NodeManager.cs:175-217 | the lists after the whole update are the tail steps followed by the steps of longer words |
| NodeLists.CountsInSteps | AutoKkutuLib/Node/NodeManager.cs:175-217 | the count after the whole update is that of the tail steps followed by that of the longer-word steps |
| NodeLists.GrownOnlyGrows | AutoKkutuLib/Node/NodeManager.cs:229-231 | the node lists only grow, and each then holds the node the word offers it |
| NodeLists.CountsAddedTotal | AutoKkutuLib/Node/NodeManager.cs:229-232 | the returned count is consistent, has no error, and its total is exactly the number of nodes added to the lists |
| NodeLists.ListGrowth | AutoKkutuLib/Node/NodeManager.cs:229-232 | a list grows by one exactly when its step adds the node, and by nothing otherwise |
| WordCounting.CountedCase | AutoKkutuLib/WordCount.cs:27-59 | the switch selects a counted flag exactly when the flags value is that single flag; a combination or any other flag selects no case |
| WordCounting.IncrementedCounts | AutoKkutuLib/WordCount.cs:23-62 | Increment always adds count to TotalCount, adds it to exactly the selected flag's counter and to that flag's End or Attack total, never touches TotalError, and keeps each total the sum of its five counters |
| WordCounting.CaseTotals | AutoKkutuLib/WordCount.cs:25-61 | for each case of the switch, TotalCount grows by count and TotalEndCount or TotalAttackCount by count exactly for an end or an attack flag |
| WordCounting.CaseCounters | AutoKkutuLib/WordCount.cs:27-59 | for each case of the switch, only the selected flag's counter grows; a flag outside the ten cases changes no counter |
| WordCounting.AddedToTotals | AutoKkutuLib/WordCount.cs:29-61 | one arm of the switch changes exactly its End or Attack total and keeps the totals the sums of their counters |
| WordCounting.SingletonCase | AutoKkutuLib/WordCount.cs:27-59 | a single counted flag selects its own case |
| WordCounting.WordCount.constructor | AutoKkutuLib/WordCount.cs:2-19 | the default struct has every counter 0 |
| WordCounting.WordCount.IncrementError | AutoKkutuLib/WordCount.cs:21 | only TotalError changes, by one |
| WordCounting.WordCount.Increment | AutoKkutuLib/WordCount.cs:23-62 | the counters become exactly Incremented(old counters, flags, count), whose effect IncrementedCounts states |
| WordCounting.WordCount.AddToFlagCounter | AutoKkutuLib/WordCount.cs:27-59 | the switch grows the selected counter and hands count on as end for an end flag or as attack for an attack flag |
| WordCounting.WordCount.Equals | AutoKkutuLib/WordCount.cs:66-79 | equality holds iff all fourteen counters are equal |
| NodeCounting.SingleType | AutoKkutuLib/NodeCount.cs:25-51 | the switch selects a node type exactly when the value is that single type |
| NodeCounting.NoTypeNamed | AutoKkutuLib/NodeCount.cs:25-51 | a value that is none of the eight single types selects no case |
| NodeCounting.Sum | AutoKkutuLib/NodeCount.cs:56-73 | every total and every per-list counter of the result is the sum of the two operands' |
| NodeCounting.Extensionality | AutoKkutuLib/NodeCount.cs:76-87 | two values with equal totals and equal counters per list are the same value |
| NodeCounting.SumCommutes | AutoKkutuLib/NodeCount.cs:56-73 | Combine is commutative |
| NodeCounting.SumZero | AutoKkutuLib/NodeCount.cs:56-73 | Combine with a default NodeCount is the identity on either side |
| NodeCounting.SumAssociates | AutoKkutuLib/NodeCount.cs:56-73 | Combine is associative |
| NodeCounting.SumValid | AutoKkutuLib/NodeCount.cs:56-73 | the sum of two values whose totals are the sums of their counters keeps that property |
| NodeCounting.IncrementedCounts | AutoKkutuLib/NodeCount.cs:21-54 | Increment adds count to TotalCount and to exactly one list counter plus its End or Attack total, or to no counter when the value names no single type, and never touches TotalError |
| NodeCounting.CaseTotals | AutoKkutuLib/NodeCount.cs:23-53 | for each case of the switch, TotalCount grows by count and exactly the End or the Attack total of the selected type grows by it |
| NodeCounting.CaseCounters | AutoKkutuLib/NodeCount.cs:25-51 | for each case of the switch, only the selected type's counter grows |
| NodeCounting.AddedToTotals | AutoKkutuLib/NodeCount.cs:27-53 | one arm of the switch changes exactly its End or Attack total and keeps the totals the sums of their counters |
| NodeCounting.NodeCount.constructor | AutoKkutuLib/NodeCount.cs:2-17 | the default struct has every counter 0 |
| NodeCounting.NodeCount.IncrementError | AutoKkutuLib/NodeCount.cs:19 | only TotalError changes, by one |
| NodeCounting.NodeCount.Increment | AutoKkutuLib/NodeCount.cs:21-54 | the counters become exactly Incremented(old counters, type, count), whose effect IncrementedCounts states |
| NodeCounting.NodeCount.AddToTypeCounter | AutoKkutuLib/NodeCount.cs:25-51 | the switch grows the selected counter and hands count on as end for an end type or as attack for an attack type |
| NodeCounting.NodeCount.Combine | AutoKkutuLib/NodeCount.cs:56-73 | a new NodeCount holding the fieldwise sum; the operands are unchanged |
| NodeCounting.NodeCount.Equals | AutoKkutuLib/NodeCount.cs:76-87 | equality holds iff all twelve counters are equal |
| NodeCounting.Plus | AutoKkutuLib/NodeCount.cs:109 | operator + gives the same new value as left.Combine(right) |
| PathManaging.NodeCollection.constructor | AutoKkutu/Modules/PathManager/PathManager.cs:18-53 | a node list starts out holding exactly the given nodes |
| PathManaging.NodeCollection.Add | AutoKkutu/Modules/PathManager/PathManager.cs:241-246 | adding a node leaves the list holding its old nodes plus that one |
| PathManaging.PresenceOf | AutoKkutu/Modules/PathManager/PathManager.cs:231-248 | the check answers true exactly when it adds a node. It adds only with tryAdd, for an unlisted node whose flag is already set. The flag is added exactly when the list exists, the node is not blank, the node is listed, and a tryAdd call names a node type |
| PathManaging.PresenceStable | AutoKkutu/Modules/PathManager/PathManager.cs:231-248 | a second check against the list the first one left never adds. It finds the node listed exactly when the node was listed or was just added |
| PathManaging.ConvertToPresentedWord | AutoKkutu/Modules/PathManager/PathManager.cs:251-285 | a blank word throws. Otherwise the result is a node of 1 or 2 chars at an end of the word. The chain modes always give a node. MiddleAndFirst gives one exactly for odd lengths above 2. Every other mode gives none |
| PathManaging.PresentedWordIsTail | AutoKkutu/Modules/PathManager/PathManager.cs:258-272 | LastAndFirst presents the last char, and so does FirstAndLast. Kkutu from length 4 on presents the last two chars. MiddleAndFirst presents the middle char |
| PathManaging.Qualified | AutoKkutu/Modules/PathManager/PathManager.cs:294-310 | the qualified list is never longer than the search result |
| PathManaging.QualifiedMembers | AutoKkutu/Modules/PathManager/PathManager.cs:294-310 | a word is qualified exactly when it is in the result and is neither refused nor used before |
| PathManaging.QualifiedAppend | AutoKkutu/Modules/PathManager/PathManager.cs:294-310 | qualifying a concatenation concatenates the qualified parts, so the filter keeps the order of the result |
| PathManaging.PathManager.constructor | AutoKkutu/Modules/PathManager/PathManager.cs:60-66 | a new manager has all four word sets empty |
| PathManaging.PathManager.AddPreviousPath | AutoKkutu/Modules/PathManager/PathManager.cs:105-109 | a word that is not blank joins the used words, and the other sets stay as they were |
| PathManaging.PathManager.AddToUnsupportedWord | AutoKkutu/Modules/PathManager/PathManager.cs:111-125 | a word that is not blank joins the refused words. It also joins the nonexistent words when the game reported it as nonexistent. The new-path and used sets stay as they were |
| PathManaging.PathManager.ResetPreviousPath | AutoKkutu/Modules/PathManager/PathManager.cs:315 | the used words are forgotten and the other sets stay as they were |
| PathManaging.PathManager.CheckNodePresence | AutoKkutu/Modules/PathManager/PathManager.cs:231-248 | the answer and the ref flags are those of PresenceOf, and the list gains exactly the node the check adds |
| PathManaging.PathManager.CreateQualifiedWordList | AutoKkutu/Modules/PathManager/PathManager.cs:288-313 | a missing list throws ArgumentNullException. Otherwise the result is the qualified words in order, and every word of the list carries its marks. A nonexistent word is queued for removal, a refused word is excluded, and any other used word is marked as used |
| PathManaging.PathManager.MarkWord | AutoKkutu/Modules/PathManager/PathManager.cs:298-305 | one word gets the queued, excluded or used marks for the sets it is in, and keeps the marks it had |
| PathObjects.PathObject.constructor | AutoKkutu/Modules/PathObject.cs:80-89 | a new word keeps its content, categories and mission count, with none of its marks set |
| PathObjects.PathObject.MakeNormalAvailable | AutoKkutu/Modules/PathObject.cs:87-89 | the word can be made normal exactly when it is an end word or an attack word |
| CategoryChange.GetAttackWordListTableName | AutoKkutuLib/Extension/PathObjectCategoryChangeExtension.cs:51-57 | always an attack table: the reverse table exactly for FirstAndLast, the Kkutu table exactly for Kkutu, the KKT table exactly for KungKungTta, and the plain table for every other mode |
| CategoryChange.GetEndWordListTableName | AutoKkutuLib/Extension/PathObjectCategoryChangeExtension.cs:60-66 | always an end table, with the same mode-to-table choice as the attack tables |
| CategoryChange.TablesOfModePair | AutoKkutuLib/Extension/PathObjectCategoryChangeExtension.cs:51-66 | the end table and the attack table of one mode are two different tables and each other's counterpart |
| CategoryChange.ToNode | AutoKkutuLib/Extension/PathObjectCategoryChangeExtension.cs:68-88 | an empty word throws IndexOutOfRange in FirstAndLast, which indexes the first char, and InvalidOperation in every other mode, which falls through to Last(). Otherwise the node has 1 or 2 chars. It is at an end of the word except for the middle char that MiddleAndFirst takes for odd lengths. Two chars only in Kkutu from length 4 on |
| CategoryChange.ToNodeChars | AutoKkutuLib/Extension/PathObjectCategoryChangeExtension.cs:68-88 | FirstAndLast gives the first char and MiddleAndFirst at odd length the middle char. Kkutu from length 4 on gives the last two chars. Everything else falls back to the last char |
| CategoryChange.WithTable | AutoKkutuLib/Extension/PathObjectCategoryChangeExtension.cs:16-17 | after a table is overwritten, it holds exactly the given rows |
| CategoryChange.WithTableFrame | AutoKkutuLib/Extension/PathObjectCategoryChangeExtension.cs:16-17 | overwriting one table leaves every other table as it was |
| CategoryChange.ToNodeIsLookedUp | AutoKkutuLib/Extension/PathObjectCategoryChangeExtension.cs:68-88 | wherever the node manager can set the mode's end or attack flag, it reads the same table this extension edits and looks up the node ToNode gives |
| CategoryChange.SkipsWordsAlreadyInCategory | AutoKkutuLib/Extension/PathObjectCategoryChangeExtension.cs:12-39 | MakeAttack leaves the tables alone exactly for an attack word, and MakeEnd exactly for an end word. MakeNormal does so exactly for a word that is neither |
| CategoryChange.EmptyWordThrows | AutoKkutuLib/Extension/PathObjectCategoryChangeExtension.cs:15-41 | an empty word that is not skipped throws, and no table changes. The error is IndexOutOfRange in FirstAndLast and InvalidOperation in every other mode |
| CategoryChange.MoveResult | AutoKkutuLib/Extension/PathObjectCategoryChangeExtension.cs:15-20 | after a move the node is in the target table and not in the source table, and every other table is unchanged. The call reports success exactly when the target did not already hold the node |
| CategoryChange.MarkingIsSeenByCalcWordFlags | AutoKkutuLib/Extension/PathObjectCategoryChangeExtension.cs:23-34 | after MakeEnd the word's node counts as an end node and not as an attack node whenever the flag rules look it up. MakeAttack does the reverse |
| CategoryChange.NormalClearsBothTables | AutoKkutuLib/Extension/PathObjectCategoryChangeExtension.cs:36-48 | MakeNormal removes the node from both tables of the mode and leaves every other table unchanged. It reports success exactly when either table held the node |
| CategoryChange.AttackTwice | AutoKkutuLib/Extension/PathObjectCategoryChangeExtension.cs:10-21 | a second MakeAttack changes nothing and reports the word as already done |
| CategoryChange.EndTwice | AutoKkutuLib/Extension/PathObjectCategoryChangeExtension.cs:23-34 | a second MakeEnd changes nothing and reports the word as already done |
| CategoryChange.NormalTwice | AutoKkutuLib/Extension/PathObjectCategoryChangeExtension.cs:36-48 | a second MakeNormal changes nothing and reports the word as already done |
| CategoryChange.NodeStore.constructor | AutoKkutuLib/Extension/PathObjectCategoryChangeExtension.cs:16 | a store holds the given tables |
| CategoryChange.NodeStore.DeleteNode | AutoKkutuLib/Extension/PathObjectCategoryChangeExtension.cs:16-43 | the node leaves the one table, and the count is 1 exactly when the table held it |
| CategoryChange.NodeStore.AddNode | AutoKkutuLib/Extension/PathObjectCategoryChangeExtension.cs:17-30 | the node joins the one table, and the answer is true exactly when the table did not hold it |
| CategoryChange.NodeStore.MakeAttack | AutoKkutuLib/Extension/PathObjectCategoryChangeExtension.cs:10-21 | the result and the new tables are those of AttackOutcome on the old tables |
| CategoryChange.NodeStore.MakeEnd | AutoKkutuLib/Extension/PathObjectCategoryChangeExtension.cs:23-34 | the result and the new tables are those of EndOutcome on the old tables |
| CategoryChange.NodeStore.Move | AutoKkutuLib/Extension/PathObjectCategoryChangeExtension.cs:15-20 | the result and the new tables are those of MoveOutcome on the old tables |
| CategoryChange.NodeStore.MakeNormal | AutoKkutuLib/Extension/PathObjectCategoryChangeExtension.cs:36-48 | the result and the new tables are those of NormalOutcome on the old tables |
| DbCheck.IsInvalid | AutoKkutuLib/Database/Jobs/DbCheckJob.cs:167-178 | an empty word throws IndexOutOfRange. A one-char word is invalid. So is a longer word that opens with a bracket, '-' or '.', or closes with a bracket |
| DbCheck.InvalidIffNonWordChar | AutoKkutuLib/Database/Jobs/DbCheckJob.cs:167-181 | a word of two chars or more is invalid exactly when it has a char outside a-zA-Z0-9ㄱ-ㅎ가-힣, since every mark and SimpleMatch char lies outside that class |
| DbCheck.CorrectFlags | AutoKkutuLib/Database/Jobs/DbCheckJob.cs:131-134 | the LoanWord, Dialect, DeadLang and Munhwa flags are the union of the recalculated and stored ones. Every other flag is the recalculated one |
| DbCheck.CorrectFlagsIdempotent | AutoKkutuLib/Database/Jobs/DbCheckJob.cs:131-135 | flags already corrected pass the next check unchanged |
| DbCheck.NotedEntries | AutoKkutuLib/Database/Jobs/DbCheckJob.cs:138-158 | noting throws ArgumentException exactly when a differing value meets an existing entry of the word. Otherwise the old entries are kept, and the word gains the correct value exactly when the stored one differs |
| DbCheck.Correction.constructor | AutoKkutuLib/Database/Jobs/DbCheckJob.cs:46-50 | a correction dictionary starts empty |
| DbCheck.Note | AutoKkutuLib/Database/Jobs/DbCheckJob.cs:135-139 | a throw leaves the dictionary unchanged. Otherwise the dictionary is that of Noted, and the answer says whether a correction was added |
| DbCheck.VerifyWordFlags | AutoKkutuLib/Database/Jobs/DbCheckJob.cs:129-140 | the corrected flags are noted against the stored ones, with the result and dictionary of Noted |
| DbCheck.CorrectIndex | AutoKkutuLib/Database/Jobs/DbCheckJob.cs:83-89 | each column's value is a node of at most 2 chars at an end of the word. The WordIndex supplier throws IndexOutOfRange on an empty word and the ReverseWordIndex supplier InvalidOperation (from Last()). The Kkutu supplier never throws |
| DbCheck.VerifyWordIndexes | AutoKkutuLib/Database/Jobs/DbCheckJob.cs:142-150 | a supplier that throws changes nothing. Otherwise the correct index is noted against the stored one, with the result and dictionary of Noted |
| DbCheck.VerifyChoseong | AutoKkutuLib/Database/Jobs/DbCheckJob.cs:152-160 | the word's choseong is noted against the stored one, with the result and dictionary of Noted |
| DbCheck.NotedKeepsAllHold | AutoKkutuLib/Database/Jobs/DbCheckJob.cs:138-158 | noting a right value keeps every entry right and adds no key except the word |
| DbCheck.CheckedAddsRightValues | AutoKkutuLib/Database/Jobs/DbCheckJob.cs:83-94 | a checked row keeps every correction right, adds at most its own word as a key, and leaves the deletion list alone |
| DbCheck.CheckedSucceeds | AutoKkutuLib/Database/Jobs/DbCheckJob.cs:83-94 | a row whose word has no entry yet in any dictionary is checked without a throw |
| DbCheck.StepFindings | AutoKkutuLib/Database/Jobs/DbCheckJob.cs:61-95 | one row joins the deletion list exactly when it is invalid or rejected online, and otherwise it adds right values under its own word only |
| DbCheck.SearchFindings | AutoKkutuLib/Database/Jobs/DbCheckJob.cs:61-95 | a search without a throw deletes exactly the invalid or rejected words, in row order. It notes corrections only for words of the rows, each holding the value computed from its word |
| DbCheck.FailureSticks | AutoKkutuLib/Database/Jobs/DbCheckJob.cs:61-124 | once a row throws, the rest of the rows do not change the outcome |
| DbCheck.StepSucceeds | AutoKkutuLib/Database/Jobs/DbCheckJob.cs:61-95 | a non-empty word with no entry yet is deleted or checked without a throw |
| DbCheck.DistinctWordsNeverThrow | AutoKkutuLib/Database/Jobs/DbCheckJob.cs:61-95 | for distinct non-empty words, as deduplication leaves them, the whole search runs without a throw |
| DbCheck.SearchExtends | AutoKkutuLib/Database/Jobs/DbCheckJob.cs:61-95 | searching one more row runs that row's step after the search so far |
| DbCheck.SearchProblems | AutoKkutuLib/Database/Jobs/DbCheckJob.cs:45-95 | the loop with its five correction dictionaries returns exactly what Search describes |
| DbCheck.CheckRow | AutoKkutuLib/Database/Jobs/DbCheckJob.cs:83-94 | the five checks run in source order. A throw is the throw of Checked, and on success the five dictionaries hold the entries of Checked |
| FindWord.SelectFlags | AutoKkutuLib/Database/Sql/Query/FindWordQuery.cs:26-54 | always an end flag paired with an attack flag: the reverse pair for FirstAndLast, the middle pair for MiddleAndFirst, the Kkutu pair for Kkutu and the KKT pair for KungKungTta. Every other mode gets the plain pair |
| FindWord.SelectFlagsMatchesEndNodes | AutoKkutuLib/Database/Sql/Query/FindWordQuery.cs:26-54 | the end flag a query filters on names the node list the node manager reports as that mode's end nodes. KungKungTta reads the KKT end list |
| FindWord.SelectFlagsDistinguishesRules | AutoKkutuLib/Database/Sql/Query/FindWordQuery.cs:26-54 | across the five chain rules, two modes share an end flag or an attack flag exactly when they are the same mode |
| FindWord.MissionCharCount | AutoKkutuLib/Database/Sql/Query/FindWordQuery.cs:104-113 | the count is 0 for a blank mission char and otherwise is the number of times its first char occurs in the word. A positive count means the word holds that char |
| FindWord.SetupWordCategories | AutoKkutuLib/Database/Sql/Query/FindWordQuery.cs:92-116 | the word is an end word exactly when its flags hold the mode's end flag, and an attack word exactly when they hold the attack flag. It is a mission word exactly when the mission count is positive |
| FindWord.MissionCountsAgree | AutoKkutuLib/Database/Sql/Query/FindWordQuery.cs:106 | on upper-case text the count the query makes equals the count the SQLite mission function makes |
| FindWord.GetIndexColumnName | AutoKkutuLib/Database/Sql/Query/FindWordQuery.cs:120-133 | the reverse index is searched exactly in FirstAndLast. The Kkutu index is searched exactly in Kkutu with a 2-char word or 2-char substitution. Every other search uses the word index |
| FindWord.IndexOfCategory | AutoKkutuLib/Database/Sql/Query/FindWordQuery.cs:234 | -1 exactly when the category is absent. Otherwise the position of its first occurrence |
| FindWord.GetWordTypePriority | AutoKkutuLib/Database/Sql/Query/FindWordQuery.cs:231-236 | an unlisted category gets -1. A listed one gets the list length minus one minus its first position, so the priority lies between -1 and the list length |
| FindWord.EarlierPreferenceRanksHigher | AutoKkutuLib/Database/Sql/Query/FindWordQuery.cs:231-236 | a category earlier in the preference list has a higher priority than a later one, and any listed category outranks an unlisted one |
| FindWord.FirstIndexAt | AutoKkutuLib/Database/Sql/Query/FindWordQuery.cs:234 | the index of an element that does not occur earlier is its own position |
| FindWord.FindWordQuery.constructor | AutoKkutuLib/Database/Sql/Query/FindWordQuery.cs:18-24 | the query keeps its mode, preference and limit, takes the flag pair of SelectFlags and has no parameter yet |
| FindWord.FindWordQuery.CreateQuery | AutoKkutuLib/Database/Sql/Query/FindWordQuery.cs:135-169 | the query is the filter, parameters and priority call of its parameter, with the limit of the object |
| FindWord.FindWordQuery.Filter | AutoKkutuLib/Database/Sql/Query/FindWordQuery.cs:139-165 | mode All has no filter. Otherwise the filter opens with the index match on the column GetIndexColumnName chooses, nowhere else. It excludes end words exactly when UseEndWord is off, and attack words exactly when UseAttackWord is off. It requires KKT3 exactly in KungKungTta |
| FindWord.FindWordQuery.Parameters | AutoKkutuLib/Database/Sql/Query/FindWordQuery.cs:137-150 | @PrimaryWord, the presented word, is bound exactly when the mode is not All. @SecondaryWord, the substitution, is bound exactly when the word can be substituted. @MissionChar is bound exactly when the mission char is not blank. No other name is bound |
| FindWord.FindWordQuery.CreateWordPriorityFuncCall | AutoKkutuLib/Database/Sql/Query/FindWordQuery.cs:171-229 | a blank mission char calls WordPriority and any other calls MissionWordPriority. The call takes the mode's flags and each category combination's priority under the preference |
| FindWord.FindWordQuery.ApplyFlagFilter | AutoKkutuLib/Database/Sql/Query/FindWordQuery.cs:238-246 | the only clause added excludes the flag, and it is added exactly when the options lack the needle |
| FindWord.FindWordQuery.BuildObject | AutoKkutuLib/Database/Sql/Query/FindWordQuery.cs:73-79 | a new path object of the trimmed word, with the categories and mission count SetupWordCategories gives |
| FindWord.FindWordQuery.ExecuteWith | AutoKkutuLib/Database/Sql/Query/FindWordQuery.cs:56-60 | the parameter is stored, and every row gives one new path object, in row order |
| FindWord.FindWordQuery.Execute | AutoKkutuLib/Database/Sql/Query/FindWordQuery.cs:62-89 | without a parameter it throws InvalidOperationException. Otherwise every row gives one new path object, in row order, built with the stored mission char |
| FindWord.FindWordQuery.BuildObjects | AutoKkutuLib/Database/Sql/Query/FindWordQuery.cs:71-80 | one new path object per row, in row order, each built from its row |
| FindWord.FindWordQuery.AllBuiltEach | AutoKkutuLib/Database/Sql/Query/FindWordQuery.cs:71-80 | objects built row by row are each built from the row at their own position |
| FindWord.RankMatchesCategories | AutoKkutuLib/Database/Sql/Query/FindWordQuery.cs:186-195 | without a mission char, the ordinal the SQL priority call picks for a word is the priority of the word's main category, end before attack before normal, as SetupWordCategories assigns it |
| SqlitePriority.WordOrdinal | AutoKkutuLib.Sqlite/Database/Sqlite/SqliteDbConnection.cs:115-124 | an end word gets the end ordinal, failing that an attack word gets the attack ordinal, and any other word gets the normal ordinal |
| SqlitePriority.WordPriority | AutoKkutuLib.Sqlite/Database/Sqlite/SqliteDbConnection.cs:107-125 | the chosen ordinal times MaxWordLength, whenever that fits in a C# int |
| SqlitePriority.MissionOccurrence | AutoKkutuLib.Sqlite/Database/Sqlite/SqliteDbConnection.cs:91-92 | the number of chars of the upper-cased word equal to the upper-cased mission char, never more than the word's length |
| SqlitePriority.MissionOrdinal | AutoKkutuLib.Sqlite/Database/Sqlite/SqliteDbConnection.cs:93-104 | the same choice as WordOrdinal, taking the mission variant of each ordinal when the word holds the mission char |
| SqlitePriority.MissionWordPriority | AutoKkutuLib.Sqlite/Database/Sqlite/SqliteDbConnection.cs:79-105 | an empty mission word throws IndexOutOfRange. Otherwise the result is the chosen ordinal times MaxWordPriorityLength plus 256 per mission char, whenever that fits in a C# int |
| SqlitePriority.WordRankOrdinalFirst | AutoKkutuLib.Sqlite/Database/Sqlite/SqliteDbConnection.cs:107-125 | for small ordinals and words the database can hold, a higher ordinal always ranks first whatever the lengths. Equal ordinals leave the order to the length |
| SqlitePriority.MissionRankOrdinalFirst | AutoKkutuLib.Sqlite/Database/Sqlite/SqliteDbConnection.cs:79-105 | the ordinal decides first, then the number of mission chars, then the length. 256 per mission char outweighs any length difference |
| SqlitePriority.MissionRankValue | AutoKkutuLib.Sqlite/Database/Sqlite/SqliteDbConnection.cs:79-105 | for small ordinals and a word the database can hold, the ORDER BY key is computed without overflow |
| Entering.Make | AutoKkutuLib/Game/Enterer/EnterOptions.cs:58-85 | with delays off, the record holds no delay, no percentage and no custom parameters. With delays on, it keeps the three delays and the custom parameters, and keeps each percentage only beside a positive delay |
| Entering.MakeKeepsGated | AutoKkutuLib/Game/Enterer/EnterOptions.cs:58-85 | rebuilding a constructed record from its own fields gives it back, so the gating is all the constructor does |
| Entering.SpreadBounds | AutoKkutuLib/Game/Enterer/EnterOptions.cs:96-98 | for non-negative delays and percentages without overflow, the maximum is delay plus delay times percentage over 100 and the minimum is delay minus it. The base delay lies between them. The minimum is non-negative when the percentage is at most 100 |
| Entering.GetDelay | AutoKkutuLib/Game/Enterer/EnterOptions.cs:87-94 | delays off give 0, and a delay that is not positive is returned as it is. Otherwise the value is drawn from the minimum up to the maximum plus one in C# int arithmetic. It throws ArgumentOutOfRangeException exactly when that bound falls below the minimum |
| Entering.DrawWithinBounds | AutoKkutuLib/Game/Enterer/EnterOptions.cs:87-94 | without overflow, the draw never throws and every value it can take lies between the minimum and the maximum delay |
| Entering.LargestDelayThrows | AutoKkutuLib/Game/Enterer/EnterOptions.cs:93 | a delay of int.MaxValue with no randomisation makes maximum plus one wrap around, and the draw throws |
| Entering.GetMaxDelay | AutoKkutuLib/Game/Enterer/EnterOptions.cs:131 | delays off give 0, and an empty or missing input gives the maximum start delay alone |
| Entering.GetMinDelay | AutoKkutuLib/Game/Enterer/EnterOptions.cs:144 | delays off give 0, and an empty or missing input gives the minimum start delay alone |
| Entering.MinDelayNotAboveMax | AutoKkutuLib/Game/Enterer/EnterOptions.cs:127-144 | for non-negative fields without overflow, GetMaxDelay is the exact worst-case sum and GetMinDelay never exceeds it. The best case is non-negative when no percentage is above 100 |
| Entering.NonEmptyMinNotAboveMax | AutoKkutuLib/Game/Enterer/EnterOptions.cs:127-144 | the same bounds for a non-empty input: the worst case is start plus length times the per-char and key-up maxima, and the best case does not exceed it |
| Entering.OptionBounds | AutoKkutuLib/Game/Enterer/EnterOptions.cs:96-125 | for non-negative fields without overflow, each of the three maxima is exact and each minimum lies between its negated maximum and the maximum. The worst-case total is start plus length times per-char plus key-up, and it fits in a C# int |
| Entering.TypingTimeOrdered | AutoKkutuLib/Game/Enterer/EnterOptions.cs:131-144 | typing times built from per-part values, each bounded by its maximum, never exceed the time built from the maxima. They are non-negative when every part is |
| Entering.EqualsIsEquality | AutoKkutuLib/Game/Enterer/EnterOptions.cs:157-162 | field-by-field equality of two option records is record equality |
| PathLists.Filtered | AutoKkutuLib/Extension/PathListExtension.cs:33 | the filtered list is never longer than the list |
| PathLists.FilteredPass | AutoKkutuLib/Extension/PathListExtension.cs:33 | every word the filter keeps passes the test |
| PathLists.FilteredOfPrefix | AutoKkutuLib/Extension/PathListExtension.cs:33 | filtering a prefix of the list gives a prefix of the filtered list |
| PathLists.FilteredAt | AutoKkutuLib/Extension/PathListExtension.cs:33-34 | a word that passes the test is kept, at the position given by the number of passing words before it |
| PathLists.FilteredFrom | AutoKkutuLib/Extension/PathListExtension.cs:33-34 | every kept word comes from some position of the list. It passes the test there, with exactly as many passing words before it as its own position among the kept words |
| PathLists.Remain | AutoKkutuLib/Extension/PathListExtension.cs:30 | the remaining time is the larger of 300 ms and the given time |
| PathLists.Pick | AutoKkutuLib/Extension/PathListExtension.cs:34-47 | a negative index throws. An index inside the array gives that word, and an index past the end gives none |
| PathLists.ChooseBestWord | AutoKkutuLib/Extension/PathListExtension.cs:18-65 | a null list throws ArgumentNullException. With delays on, no word is always a time-out, and a time-out never comes with a word |
| PathLists.DisabledPicksByIndex | AutoKkutuLib/Extension/PathListExtension.cs:23-24 | with delays off, the answer is the indexed word of the list, or none past its end, and never a time-out |
| PathLists.NegativeIndexThrows | AutoKkutuLib/Extension/PathListExtension.cs:24-47 | a negative index always throws, from the list index with delays off and from the filtered array otherwise |
| PathLists.ChosenWordFits | AutoKkutuLib/Extension/PathListExtension.cs:30-53 | with delays on, a chosen word is a word of the list that fits the clamped remaining time, with exactly wordIndex fitting words before it under the same bound. The best case is used only when per-char delays are randomised and too few words fit in the worst case |
| PathLists.TimeoutIffNothingFits | AutoKkutuLib/Extension/PathListExtension.cs:33-64 | with delays on, the turn times out exactly when too few words fit in the worst case and, if per-char delays are randomised, too few fit in the best case too |
| PathLists.ShortWordsAlwaysFit | AutoKkutuLib/Extension/PathListExtension.cs:30-33 | a word whose worst case is at most 300 ms always passes the first filter, however little turn time is left |
| PathLists.WorstFitImpliesBestFit | AutoKkutuLib/Extension/PathListExtension.cs:33-46 | without overflow, a word that fits in the worst case also fits in the best case, so the second filter only widens the first |
| PathDetailing.HasFlag | AutoKkutuLib/PathDetails.cs:26 | Enum.HasFlag agrees with the bitwise (flags & flag) == flag, and the empty value None is always present |
| PathDetailing.IsSimilar | AutoKkutuLib/PathDetails.cs:32-36 | similar details have similar conditions, the same reuse setting and the same UseEndWord, UseAttackWord and MissionWordExists bits |
| PathDetailing.WithFlags | AutoKkutuLib/PathDetails.cs:27 | the condition, reuse and display limit are kept, and the flags are the old flags together with the given ones |
| PathDetailing.WithoutFlags | AutoKkutuLib/PathDetails.cs:28 | the condition, reuse and display limit are kept, and the flags are the old flags minus the given ones. The result has the given flags exactly when they are none |
| PathDetailing.SimilarIffSameComparedFlags | AutoKkutuLib/PathDetails.cs:32-36 | given similar conditions and equal reuse, two details are similar exactly when they agree on UseEndWord, UseAttackWord and MissionWordExists |
| PathDetailing.SameComparedFlagsSimilar | AutoKkutuLib/PathDetails.cs:32-36 | agreeing on the three compared flags, with similar conditions and equal reuse, makes two details similar |
| PathDetailing.EqualsIsIdentity | AutoKkutuLib/PathDetails.cs:30 | Equals holds only between identical details, and between identical details whenever the condition is similar to itself |
| PathDetailing.IgnoredFlagsKeepSimilar | AutoKkutuLib/PathDetails.cs:32-36 | adding or removing flags other than the three compared ones keeps details similar to the originals |
| PathDetailing.FlagUpdatesIdempotent | AutoKkutuLib/PathDetails.cs:27-28 | adding flags twice is adding them once, removing after adding is removing, and removing twice is removing once |
| GameSession.IndexOf | AutoKkutuLib/Game/GameSessionState.cs:154 | -1 exactly when the id is absent. Otherwise the position of its first occurrence |
| GameSession.GameSessionState.constructor | AutoKkutuLib/Game/GameSessionState.cs:100 | a new session keeps its user id: not gaming, mode None, empty sequence, turn index -1 and every per-game field at its default, with the cached ordinal unset |
| GameSession.GameSessionState.Copy | AutoKkutuLib/Game/GameSessionState.cs:87-98 | the copy has every field of the original except the cached ordinal, which starts unset |
| GameSession.GameSessionState.UpdateGameSequence | AutoKkutuLib/Game/GameSessionState.cs:104-130 | an equal sequence returns false and changes nothing. Otherwise the sequence is replaced and the cached ordinal dropped. AmIGaming then says whether the new sequence holds this user's id. The per-game fields are reset exactly when this user leaves the game, and the mode is untouched |
| GameSession.GameSessionState.WithSequence | AutoKkutuLib/Game/GameSessionState.cs:102 | a new session that has taken the sequence: gaming exactly when the sequence holds its id, with no mode and no turn |
| GameSession.GameSessionState.UpdateGameMode | AutoKkutuLib/Game/GameSessionState.cs:132-141 | the answer is true exactly when the mode differs from the current one. The mode becomes the given one and nothing else changes |
| GameSession.GameSessionState.GetRelativeTurn | AutoKkutuLib/Game/GameSessionState.cs:147 | -1 with no sequence |
| GameSession.GameSessionState.RelativeTurnIsSeat | AutoKkutuLib/Game/GameSessionState.cs:143-147 | with a sequence and a turn index from -Count up to where the 32-bit sum fits, the relative turn is a seat of the sequence and equals the turn index modulo the count |
| GameSession.GameSessionState.GetTurnOf | AutoKkutuLib/Game/GameSessionState.cs:154 | -1 exactly when the user is not in the sequence. Otherwise a seat holding that user |
| GameSession.GameSessionState.MyTurnIndexIsMySeat | AutoKkutuLib/Game/GameSessionState.cs:161-168 | this user's turn index is a seat exactly when this user is gaming, and that seat holds this user's id |
| GameSession.GameSessionState.GetMyTurnIndex | AutoKkutuLib/Game/GameSessionState.cs:161-168 | the answer is -1 when not gaming and otherwise this user's seat, whether or not the ordinal is cached. The cache only ever holds that seat |
| GameSession.GameSessionState.IsMyTurn | AutoKkutuLib/Game/GameSessionState.cs:174-178 | true exactly when the relative turn is a seat and it is this user's turn index |
| GameSession.GameSessionState.MyTurnIffMySeat | AutoKkutuLib/Game/GameSessionState.cs:170-178 | in range, it is this user's turn exactly when this user is gaming and the turn index modulo the count is this user's seat |
| GameSession.GameSessionState.PreviousUserTurnIsSeatBefore | AutoKkutuLib/Game/GameSessionState.cs:180-186 | while gaming, the previous user's turn is the seat before this user's, wrapping from the first seat to the last. While not gaming the answer is seat Count - 2, or seat 0 for a single player, rather than -1 |
| GameSession.GameSessionState.IsEmpty | AutoKkutuLib/Game/GameSessionState.cs:191 | a session is empty exactly when its user id is the empty string |
| GameSession.GameSessionState.GetMyPreviousUserTurn | AutoKkutuLib/Game/GameSessionState.cs:186 | the answer is PreviousUserTurn, computed through GetMyTurnIndex and its cache |
| GameNotify.Progress | AutoKkutuLib/Game/Game.StateNotify.cs:29-60 | the flag takes the notified value. GameStarted is raised exactly when a game starts while none is in progress, and GameEnded exactly when one ends while it is. At most one event is raised and a repeated value changes nothing. An end clears every game cache and the turn flag |
| GameNotify.ProgressTwice | AutoKkutuLib/Game/Game.StateNotify.cs:29-60 | notifying the same progress twice raises the event of the first call only |
| GameNotify.Mode | AutoKkutuLib/Game/Game.StateNotify.cs:62-72 | the mode becomes the notified one, and GameModeChanged with it is raised exactly when it differs from the current one |
| GameNotify.ModeTwice | AutoKkutuLib/Game/Game.StateNotify.cs:62-72 | a mode notified again raises nothing |
| GameNotify.Hint | AutoKkutuLib/Game/Game.StateNotify.cs:74-85 | a hint equal to the cached one, ignoring case, does nothing. Any other hint is cached and raises HintWordPresented with it |
| GameNotify.HintRepeatIgnoresCase | AutoKkutuLib/Game/Game.StateNotify.cs:74-85 | once a hint is presented, the same hint in any letter case raises nothing more |
| GameNotify.TurnStart | AutoKkutuLib/Game/Game.StateNotify.cs:92-113 | a start while the turn is already flagged does nothing unless the cache is bypassed. Otherwise the turn is flagged and the condition stored only outside Free mode and only when one is given. TurnStarted is raised exactly in Free mode or with a condition, and no other field changes |
| GameNotify.EndTurn | AutoKkutuLib/Game/Game.StateNotify.cs:118-125 | the turn flag and the turn-error cache are cleared, TurnEnded is raised, and no other field changes |
| GameNotify.MyTurnAsWritten | AutoKkutuLib/Game/Game.StateNotify.cs:88-127 | a start is TurnStart. An end does nothing when the turn is flagged and the cache is not bypassed, and otherwise is EndTurn |
| GameNotify.TurnNeverEndsAsWritten | AutoKkutuLib/Game/Game.StateNotify.cs:115-116 | as written, a turn end notified without bypassing the cache never ends a flagged turn, and it raises TurnEnded again on every notice while the turn is not flagged |
| GameNotify.TurnNeverEndsExample | AutoKkutuLib/Game/Game.StateNotify.cs:92-116 | in LastAndFirst, a turn that starts with a condition and then gets an end notice stays flagged, and TurnEnded is never raised |
| GameNotify.MyTurn | AutoKkutuLib/Game/Game.StateNotify.cs:88-127 | the corrected test: a start is TurnStart. An end does nothing when the turn is not flagged and the cache is not bypassed, and otherwise is EndTurn |
| GameNotify.TurnEndsOnce | AutoKkutuLib/Game/Game.StateNotify.cs:115-125 | with the corrected test, a flagged turn ends on the first end notice and raises TurnEnded once. A second notice does nothing |
| GameNotify.MyTurnFollowsNotice | AutoKkutuLib/Game/Game.StateNotify.cs:88-127 | without bypassing the cache, a notice that agrees with the turn flag does nothing, and after any notice the flag is the notified one |
| GameNotify.Round | AutoKkutuLib/Game/Game.StateNotify.cs:129-150 | the round index is stored. RoundChanged is raised exactly for a new positive index, which also clears every round cache. Otherwise only the index changes, and the game flags, condition and presented time never do |
| GameNotify.RoundTwice | AutoKkutuLib/Game/Game.StateNotify.cs:129-150 | a round notified again raises nothing and changes nothing |
| GameNotify.TurnError | AutoKkutuLib/Game/Game.StateNotify.cs:152-167 | a word equal to the cached error ignoring case, or containing "T.T" in any case, does nothing. Any other word is cached and raises UnsupportedWordEntered. The word counts as existing unless the code is NotFound, and as an end word exactly for NoEndWordOnBegin and EndWord. The current turn flag goes with it |
| GameNotify.TurnErrorRepeatIgnored | AutoKkutuLib/Game/Game.StateNotify.cs:152-167 | the same refused word, in any letter case and with any code, is reported once |
| GameNotify.HistoryEventsAreFreshEntries | AutoKkutuLib/Game/Game.StateNotify.cs:176-183 | the loop raises only DiscoverWordHistory, for exactly the fresh entries. A fresh entry is not blank, differs from the cached single word and is not in the previous list. With no fresh entry it raises nothing |
| GameNotify.Histories | AutoKkutuLib/Game/Game.StateNotify.cs:169-187 | a free mode does nothing, the cache included. Otherwise the new list replaces the cached one |
| GameNotify.HistoriesReportOnlyNew | AutoKkutuLib/Game/Game.StateNotify.cs:169-187 | the events of one poll are exactly the fresh entries outside the free modes, and polling the same list again reports nothing |
| GameNotify.History | AutoKkutuLib/Game/Game.StateNotify.cs:190-200 | the state never changes, since the cache is read but not written. An entry equal to the cached word ignoring case raises nothing, and any other raises DiscoverWordHistory with it |
| GameNotify.Game.constructor | AutoKkutuLib/Game/Game.StateNotify.cs:12-27 | a new game has no game in progress, no turn and every cache cleared, and has raised nothing |
| GameNotify.Game.NotifyGameProgress | AutoKkutuLib/Game/Game.StateNotify.cs:29-60 | the new state and the events raised are those of Progress |
| GameNotify.Game.ClearGameCaches | AutoKkutuLib/Game/Game.StateNotify.cs:47-55 | the round index and presented time are reset, the five caches cleared and the turn flag dropped, with nothing raised |
| GameNotify.Game.NotifyGameMode | AutoKkutuLib/Game/Game.StateNotify.cs:62-72 | the new state and the events raised are those of Mode |
| GameNotify.Game.NotifyWordHint | AutoKkutuLib/Game/Game.StateNotify.cs:74-85 | the new state and the events raised are those of Hint |
| GameNotify.Game.NotifyMyTurn | AutoKkutuLib/Game/Game.StateNotify.cs:88-127 | the new state and the events raised are those of the corrected MyTurn |
| GameNotify.Game.NotifyRound | AutoKkutuLib/Game/Game.StateNotify.cs:129-150 | the new state and the events raised are those of Round |
| GameNotify.Game.NotifyTurnError | AutoKkutuLib/Game/Game.StateNotify.cs:152-167 | the new state and the events raised are those of TurnError |
| GameNotify.Game.NotifyWordHistories | AutoKkutuLib/Game/Game.StateNotify.cs:169-187 | the new state and the events raised are those of Histories |
| GameNotify.Game.NotifyWordHistory | AutoKkutuLib/Game/Game.StateNotify.cs:190-200 | the new state and the events raised are those of History |
| DomPoller.HasCharIff | AutoKkutuLib/Game/Game.DomPoller.cs:135 | a text contains a one-char string exactly when it contains that char |
| DomPoller.ClassifyWordError | AutoKkutuLib/Game/Game.DomPoller.cs:134-148 | a refusal text without ':' is NotFound. Otherwise the code is the one DetailsCode gives for the text before the first ':' |
| DomPoller.DetailsCodeIsFirstMatchingRule | AutoKkutuLib/Game/Game.DomPoller.cs:138-147 | the code is that of the first rule whose markers all appear, in this order: "한방" with "첫 턴", "한방", "외래", '깐', "주제", "이미". It is NotFound when none matches |
| DomPoller.ClassifyIgnoresMessage | AutoKkutuLib/Game/Game.DomPoller.cs:135-137 | only the text before the first ':' decides the code, and what follows it never matters |
| DomPoller.IndexOfAfter | AutoKkutuLib/Game/Game.DomPoller.cs:137 | the first occurrence of a char in a concatenation whose first part lacks it lies in the second part, shifted by the first part's length |
| DomPoller.PollWordError | AutoKkutuLib/Game/Game.DomPoller.cs:128-150 | a blank refusal text leaves the game untouched. Any other text is passed to NotifyTurnError with its classification |
| DomPoller.PollWordHint | AutoKkutuLib/Game/Game.DomPoller.cs:155-160 | a blank hint, or one starting with the "게임 끝" banner, leaves the game untouched. Any other is passed to NotifyWordHint |
| DomPoller.PollGameMode | AutoKkutuLib/Game/Game.DomPoller.cs:172-177 | mode None leaves the game untouched, and any other mode is passed to NotifyGameMode |
| DomPoller.PollWordHistory | AutoKkutuLib/Game/Game.DomPoller.cs:119-124 | a null history list leaves the game untouched, and any other is passed to NotifyWordHistories |
| DomPoller.Unbracketed | AutoKkutuLib/Game/Game.DomPoller.cs:187 | dropping the brackets never lengthens the word |
| DomPoller.UnbracketedIdempotent | AutoKkutuLib/Game/Game.DomPoller.cs:187 | dropping the brackets twice drops nothing more |
| DomPoller.WordConditionOf | AutoKkutuLib/Game/Game.DomPoller.cs:179-185 | an empty presented word, or a free mode, gives the empty condition. The only failure is ArgumentOutOfRange |
| DomPoller.ConditionOfText | AutoKkutuLib/Game/Game.DomPoller.cs:189-230 | the only failure is the ArgumentOutOfRange that Substring throws for a ')' before the first '(' |
| DomPoller.ParenthesesSplit | AutoKkutuLib/Game/Game.DomPoller.cs:192-201 | outside a free mode, "X(Y)" with X and Y free of parentheses and X not opening with '<' reads as head X and substitute Y with the mission char. The length is 3, or the page's length in KungKungTta |
| DomPoller.ReadsParentheses | AutoKkutuLib/Game/Game.DomPoller.cs:192-201 | a text ending in ')' whose first ')' comes after its first '(' is split at those two |
| DomPoller.ParenthesesShape | AutoKkutuLib/Game/Game.DomPoller.cs:187-192 | "X(Y)" with X not opening with '<' has no brackets to drop and ends with ')' |
| DomPoller.ParenthesesPositions | AutoKkutuLib/Game/Game.DomPoller.cs:194-195 | in "X(Y)" with X and Y free of parentheses, the first '(' follows X and the first ')' follows Y |
| DomPoller.BracketsIgnored | AutoKkutuLib/Game/Game.DomPoller.cs:187 | a bracketed word reads the same as its unbracketed text |
| DomPoller.ReadsUnbracketed | AutoKkutuLib/Game/Game.DomPoller.cs:184-187 | outside a free mode, a non-empty presented word reads as its unbracketed text |
| DomPoller.ConvertedLengthFlips | AutoKkutuLib/Game/Game.DomPoller.cs:206-224 | a previous word the converter accepts gives the converter's condition with the length flipped: 2 outside KungKungTta, and in KungKungTta 2 after a 3 and 3 after anything else |
| DomPoller.Poll | AutoKkutuLib/Game/Game.DomPoller.cs:74-117 | a my-turn poll marks the turn seen and keeps the index, and a repeated one does nothing. A poll without this user's turn never sets the seen flag. A turn end is only ever the first call, and at most two calls are made |
| DomPoller.MyTurnStartsOnce | AutoKkutuLib/Game/Game.DomPoller.cs:76-88 | while the page keeps showing this user's turn, its start is notified at most once, and only when the condition parses |
| DomPoller.OutOfSyncResynchronises | AutoKkutuLib/Game/Game.DomPoller.cs:90-96 | a remembered index out of step with the session is replaced by the session's relative turn, and nothing is notified |
| DomPoller.TurnMovesEndThenStart | AutoKkutuLib/Game/Game.DomPoller.cs:98-116 | in step with the session, a move to another seat notifies the end of the turn and then the other user's start, and forgets this user's turn. The same index again notifies nothing |
| DomPoller.ClassicTurnPoller.constructor | AutoKkutuLib/Game/Game.DomPoller.cs:74-117 | the poller starts with no turn seen, turn index -1 and no calls |
| DomPoller.ClassicTurnPoller.PollClassicTurn | AutoKkutuLib/Game/Game.DomPoller.cs:74-117 | the remembered state and the calls made are those of Poll |

## Left out

- Database I/O: connections, transactions, locks, logging and table creation are left out. The tables are sets and maps of rows. DatabaseConstants appears only through the table names the model uses.
- The SQL query classes behind node and word lookups are set operations over those rows. Their SQL text and the SQLite registration of the ranking functions are not modelled.
- PathManager.UpdateDatabase, AddNewPaths, RemoveInexistentPaths and UpdateNodeLists are left out because they are database I/O over the caches. PathManager.GetEndNodeForMode is left out because it repeats NodeManager's function of the same name, which is modelled.
- The DbCheck fixing phase, the vacuum and the removal of duplicate rows are database I/O. The model covers the search for problems and the corrections it collects.
- Random delays: the random draw is a parameter, and the model states the bounds of any draw.
- The regular-expression timeout and the regex engine are left out. Each regular expression is a predicate over characters.
- GetChoseong, WordFlagsRecalculator, KeyboardLayout.HangulToAlphabet, FinalConsonantBlacklist, WordCondition.IsSimilar and the DOM reads of the game page are not part of this model. They appear as parameters.
- HangulCluster's TryMergeCluster and SplitCluster are not part of this model. They are the ClusterOps parameter, whose split is required to be non-empty.
- ConvertWordToCondition in the DOM poller is a parameter.
- Null columns and null strings are left out. A missing value is `Option.None` where the code tests for null.
- The typing-battle word list and its fields are left out. They are not part of the classic game flow modelled here.
- PathListExtension reads delay.IsDelayPerCharRandomized, which EnterOptions.cs does not define, so the model takes it as a parameter.
- PollTypingWord, PollRound, PollUserId and PollGameProgress are left out. They only copy page values into the notifications, which are modelled.
- The Game.StateNotify.Classic handlers (turn start, turn end, OK) are not part of this model. The DOM poller records the calls it makes to them.
- The poller tasks, async/await, cancellation and concurrency are left out. Each poll is one call.
- The floating-point turn time is left out. Times are integer milliseconds.
- PathObject's colours, images and tooltips are left out as presentation.
- The closest-word log message of ChooseBestWord is left out.
- ToString methods are left out.
- MinDelayNotAboveMax: proved only for non-negative fields without 32-bit overflow. The best case is non-negative only when no random percentage is above 100.
- Case folding (ToUpperInvariant, ToLowerInvariant, OrdinalIgnoreCase) covers ASCII letters only.
- WordCounting and NodeCounting: the counters are unbounded integers, so 32-bit overflow of the counts is not modelled.
- Chars are Unicode scalar values, so UTF-16 surrogate pairs are not modelled.
- WordToNode: the head and tail functions require a non-empty word. The C# code indexes the word without a check and throws on an empty one.

## Findings

| source | as written | input that shows it | evidently intended | confidence | as-written member | corrected member |
|---|---|---|---|---|---|---|
| AutoKkutuLib/Game/Game.StateNotify.cs:115-116 | the turn-end branch of NotifyMyTurn returns early while IsMyTurn is true | IsMyTurn true, then NotifyMyTurn(false) without bypassCache: IsMyTurn stays true and TurnEnded never fires; while IsMyTurn is false, every such call fires TurnEnded again | return early when IsMyTurn is already false, mirroring the start branch at lines 94-95 | not executed; high | GameNotify.MyTurnAsWritten with GameNotify.TurnNeverEndsAsWritten and GameNotify.TurnNeverEndsExample | GameNotify.MyTurn with GameNotify.TurnEndsOnce; GameNotify.Game.NotifyMyTurn uses it |

## Observations

These follow the code and are modelled as written:

- GameSessionState.GetMyPreviousUserTurn: while this user is not in a non-empty sequence it returns seat Count-2 (0 for a single player) rather than -1; with an empty sequence it returns -1.
- PollWordCondition throws ArgumentOutOfRangeException when ')' comes before the first '('. The model returns it as a failure.
- NotifyWordHistory never stores its cache. A duplicate entry in one history list fires twice, and NotifyWordHistories in a free mode does not replace the cache.
- Only the legacy HangulProcessing table composes ㅂ+ㅂ into ㅃ.
- Merging the split of a char that is not Hangul gives the split's default final ' ', not the char itself.
- A delay of int.MaxValue makes the upper bound of the random draw wrap around, and the draw then throws.
