# A verified model of the Lemon parser generator and of the byte streams around it

The repository holds an LALR(1) parser generator (`lemon.c`), the table-driven parser it generates
(`lempar.c`), and a library of byte streams (`dsk/`). This project models three parts of it in Dafny and
proves what each promises, over every input and every run.

**The generator and the generated parser.** A grammar is rules over numbered symbols: `$` is 0, terminals
are below `nterminal`, nonterminals below `nsymbol`. The stages of `main` follow each other as methods on
one class, `Builder.Generator`, whose fields are the source's global lists:

- `FirstSets`: nullability and FIRST, exact with respect to derivations (`Grammars`).
- `Items`, `ClosureWork`, `Network`, `Builder`: configurations, their closure, and the mutual recursion of
  `getstate` and `buildshifts`, which builds the canonical LR(0) collection and the links between
  configurations.
- `FollowSets`, `Lalr`, `Canonical`: propagation along the links, its least fixpoint, and what that has to do
  with LR(1).
- `Conflicts`, `Actions`, `Pipeline`, `Winners`: the action lists, with conflicts resolved and counted; which
  action wins and what is reported is stated of the prescribed actions and their precedences alone.
- `Machine`, `Uncompressed`, `Completeness`: a parser that runs on the lists. What it accepts is sound for
  every grammar, and exactly the language for a grammar without conflicts.
- `Compress`, `Compressed`, `Equivalence`: `CompressTables`, and the proof that it cannot be seen from outside.
- `ActTab`, `Tables`: the shared action array, renumbering, and the tables that are written.
- `Driver`, `Generate`: the loop of `Parse` on those tables, refined to the machine; then grammar to parser to
  verdict in one theorem.
- `Lookback`, `Progress`, `Termination`, `Loops`, `Ending`: the loop of `Parse` ends on every token and every
  stack exactly when the lists are free of loops; uncompressed lists without conflicts always are, compressed
  lists are for tight grammars. `Unending` has a grammar for which it does not end.
- `Prefixes`: the tokens shifted begin a sentence, so an error is found at the first token that cannot follow.
- `Overread` has a grammar whose parser reads behind the end of its tables.

**The buffer.** `Fragments` and `Buffer` hold a linked list of blocks, native or foreign, with the stack of
blocks kept for reuse. Every operation is proved to act on the concatenation of the blocks' data; who owns
which block, and which destroy callbacks have been made, is part of each contract.

**Streaming code.** `Doubling` (the byte doubler and undoubler), `Crc`, `Digests` (MD5, SHA-1 and SHA-256
around a given compression function) and `Cgi` (query strings) do not depend on how their input is cut up.
`Msort` is the generator's linked-list merge sort.

`Reach`, `Sorting`, `Common` and `Sinks` are shared.

## Findings

Where the code does less than its documentation or its design promises, the input is given, with the exact
condition under which the promise holds.

- **The follow-sets are not the textbook's LALR(1) lookaheads for every grammar** (lemon.c:1394-1436). Closure
  adds FIRST of what follows a symbol even for a configuration that has no lookahead itself. With
  `S -> A D; A -> B a; B -> b; D -> D`, where D derives no tokens, the item `B -> . b` of the start state gets
  the lookahead `a`, which no canonical LR(1) state gives it (`Canonical.DeadSymbolLosesExactness`). The
  follow-sets are the textbook's exactly for *tight* grammars: those in which every item of every LR(0) state
  is predicted from the kernel by items behind whose predicted symbol something can begin
  (`Canonical.ExactIfAndOnlyIfTight`). This can be checked on states and firstsets before any follow-set is
  computed; a grammar in which every nonterminal used is nullable or has a non-empty firstset is tight
  (`Canonical.LiveIsTight`).
- **A safe insert can leave the action array** (lemon.c:672-775). The array grows so that `nAction + nsymbol + 1`
  slots exist, but the search for a hole passes over any offset that follows an unused slot, since unused
  slots are marked -1. With 12 terminals and 13 symbols, inserting `{10}` after `{0, 11}` ends beyond the 34
  slots (`ActTabs.SafeInsertCanOverflow`). An insert stays inside exactly when an acceptable place lies early
  enough (`RoomFor`, in the contract of `ActTabs.ActTab.Insert`); what one insert lacks the next one's growth
  provides, so a whole run of ReportTable ends inside exactly when the last insert does
  (`ParserTables.ReportTable`, `EndsRoomy`).
- **The loop of the generated parser need not end, even for a grammar without conflicts** (lempar.c:903-917, on
  the lists that lemon.c:4641-4751 leaves). With `S -> a O | a W | b O | b A A y | b A A z; O -> A B; A -> B;
  B -> ; W -> A U; U -> O D | W; D -> D z` and the tokens `a a` the second `a` makes the parser reduce for ever
  by default reductions, on a stack that only grows, while the uncompressed lists are free of loops
  (`Unending.ReducesForEver`; the generator takes the grammar: `Unending.Generable`). For any lists that drive
  the automaton, conflicts or not, the loop ends on every token and every stack along the automaton if and
  only if the lists are free of loops: there are no state and token from which reductions lead back to that
  state, or round a circle of gotos above it, without popping it (`Loops.EndsIfAndOnlyIfLoopFree`).
  Uncompressed lists without conflicts have no loops, whatever the grammar (`Ending.PlainIsLoopFree`); nor
  have compressed lists if the grammar is tight (`Ending.TightIsLoopFree`).
- **A state without token actions is read through a substitute offset** (lemon.c:4351, lempar.c:512-562): the
  size of the action table. The read stays inside the tables exactly when the lookahead table extends
  `nterminal` slots beyond the actions (`Driver.Readable`). With terminals 0 to 4 and the rules `S -> 2 N; N -> ;`
  there are four actions and eight lookaheads, so in the state behind token 2, whose offset is 4, the lookup of
  token 4 reads slot 8 (`Overread.LookupLeavesTables`). `Generate.GenerateParser` gives no tables exactly when
  this or the last insert fails.
- **MD5 is right for feeds below 2^29 bytes only** (dsk/dsk-checksum.c:377): the length times eight is taken in
  32 bits. After a longer feed the count is wrong (`Digests.Md5.Loop`). The loop over whole blocks counts its
  position in 32 bits too: it ends exactly for feeds below `2^32 - 64 + gap % 64` bytes, where `gap` bytes are
  missing in the buffer; for the lengths from there to 2^32 - 1 its test is never false (`Digests.NeverEnds`).
- **SHA-256 is right as long as the low word of the count and the feed together stay below 2^33**
  (dsk/dsk-checksum.c:1186-1190): one carry at most is passed on. Feeds below 2^32 bytes are always right
  (`Digests.Sha256.Feed`). The documentation promises that chunks make no difference at all
  (dsk/dsk-checksum.c:27-33).
- **msort loses nodes from 2^30 nodes on** (lemon.c:1868-1892): the last of its 30 slots is overwritten
  (`Msort.Sort`: the result is a permutation if and only if the list is shorter than that).
- **A pair without `=` in a query makes the parser subtract from a null pointer** (dsk/dsk-cgi.c:67), as in the
  query `a`. The model stops there with the status `NoEquals`. `Cgi.ParsedExactly` says exactly which queries
  are taken: those in which every pair has an equals sign and every `%` of a value two hexadecimal digits
  behind it.

## Model

| member | source | states |
|---|---|---|
| FirstSets.FindFirstSets | lemon.c:831-887 | `lambda` holds exactly for the symbols that derive the empty string and `firstset` is exactly the terminals that can begin a derived form; both do-while loops end |
| FirstSets.ExactOnStrings | lemon.c:1407-1420 | the two tables then decide nullability and FIRST of any string of symbols, as closure uses them |
| Builder.Generator.ConfiglistClosure | lemon.c:1394-1436 | the list ends up as exactly the LR(0) closure of its basis, each item once, with the follow-sets and forward links that closure gives at once |
| Builder.Generator.ConfiglistAdd | lemon.c:1339-1363 | finds the configuration of an item or appends one; nothing else changes |
| Builder.Generator.StateFind | lemon.c:5379-5392 | finds the state whose sorted basis has the same items, if there is one, and only then |
| Builder.Generator.GetState | lemon.c:953-992 | the state returned has the pending kernel, every state built on the way is finished, old states are kept, and the pending back links have arrived; the recursion ends because unseen kernels run out |
| Builder.Generator.BuildShifts | lemon.c:1013-1061 | the newest state and all states built from it get exactly the shifts of the goto function |
| Builder.Generator.FindStates | lemon.c:894-947 | every state is finished, kernels are pairwise different, and state 0 has the start kernel: the canonical LR(0) collection, each kernel stored once |
| FollowSets.BackLinksExact | lemon.c:1066-1094 | in the finished net a back link exists exactly along a shift |
| FollowSets.FindLinks | lemon.c:1066-1094 | afterwards the forward links are exactly the closure links inside states and the shift links between states |
| FollowSets.FindFollowSets | lemon.c:1101-1131 | each follow-set ends up as exactly the union of the initial follow-sets of all configurations that reach it along forward links: the least fixpoint |
| Lalr.LalrExact | lemon.c:953-1131 | after FindStates, FindLinks and FindFollowSets a terminal is in a configuration's follow-set if and only if it is a lookahead of the item along some path to the state |
| Canonical.LookIsCanonical | lemon.c:1394-1436 | for a tight grammar the lookaheads along every path are those of the canonical LR(1) state, whose core is the LR(0) state |
| Canonical.MergedIsCanonical | lemon.c:953-1131 | for a tight grammar the merged lookaheads are the union over all canonical LR(1) states with the same core |
| Canonical.ExactIfAndOnlyIfTight | lemon.c:1394-1436 | the merged lookaheads are the textbook's for every state, item and terminal if and only if the grammar is tight |
| Canonical.LiveIsTight | lemon.c:831-887 | a grammar whose right-hand nonterminals are nullable or have a non-empty firstset is tight |
| Canonical.DeadSymbolLosesExactness | lemon.c:1394-1436 | a concrete grammar, not tight, with a lookahead no canonical LR(1) state has |
| Conflicts.OneSurvives | lemon.c:1219-1279 | of two live actions on one lookahead the earlier stays unless precedence decides for the later one, or is equal for a token that associates to the left; the other is dead, and its mark and the number reported say whether precedence decided |
| Conflicts.ResolveCounts | lemon.c:1219-1279 | the number of errors reported for a pair is the number of entries it newly leaves in conflict |
| Conflicts.ResolveAll | lemon.c:1177-1189 | on every lookahead the champion is untouched and all others are dead, marked with the reason; the number reported is that of entries newly left in conflict |
| Conflicts.ExactlyOneSurvives | lemon.c:1177-1189 | every lookahead with an action keeps exactly one live action |
| Actions.FindActions | lemon.c:1137-1204 | every list holds exactly the shifts, the reductions on merged lookaheads and the accept action, resolved; the result is the number of entries left in conflict |
| Winners.SurvivorWins | lemon.c:1177-1279 | on the lists FindActions leaves, an action is alive if and only if it wins among those prescribed on its lookahead: the first of them if that has no precedence, else the one of highest precedence, equal ones decided by associativity or the order in the file |
| Winners.ConflictLeft | lemon.c:1219-1279 | a reduction is marked as in conflict with a shift, or with a reduction, if and only if that wins among the actions before it and precedence does not decide between the two; no shift is marked so |
| Winners.ShiftOrReduce | lemon.c:1230-1248 | of one shift and one reduction the reduction is left exactly when its rule has a precedence symbol and both have a precedence, the symbol's higher, or the same and the token left-associative; reported exactly when one has none |
| Winners.ReduceOrReduce | lemon.c:1249-1260 | of two reductions the one later in the file is left exactly when both rules have a precedence and its own is higher; reported exactly when one has none or both the same |
| Winners.AllUnsettledIs | lemon.c:1177-1189 | the number of conflicts reported is that of all entries marked as in conflict |
| Pipeline.BuildActionLists | lemon.c:831-1204 | from a grammar, the canonical collection and its resolved LALR(1) lists; for a tight grammar the reductions are those of the canonical LR(1) states with the state's core |
| Completeness.ConflictsShow | lemon.c:1219-1279 | no state prescribes two actions for a token if and only if no list has a dead action |
| Machine.StepSound | lempar.c:638-783 | every round keeps the invariant: stack states trace a path of the automaton from state 0, the trees on the stack derive the tokens read, by the reductions done |
| Machine.AcceptSound | lempar.c:867-1033 | on accept the token is `$`, exactly one symbol is on the stack, and the reductions are those of a parse tree of the tokens read |
| Machine.AcceptIsRightmost | lempar.c:699-783 | the reductions of an accepting run, read backwards, are a rightmost derivation of the tokens from the start symbol |
| Uncompressed.ResolvedDrives | lemon.c:1137-1204 | FindActions' lists move along the goto function and reduce only what is complete, start rules on `$` only |
| Completeness.RunTree | lempar.c:903-917 | without conflicts the parser reads the yield of any tree that may stand there and does its reductions in order |
| Completeness.AcceptsExactly | lempar.c:867-1033 | without conflicts the parser accepts a token string if and only if the start symbol derives it |
| Compress.FindBest | lemon.c:4652-4670 | the default is a most frequent reduction, never one of a start rule, and of several such the one met first on the list |
| Compress.CompressTables | lemon.c:4641-4751 | defaults, shift-reduces and elided unit reductions are exactly as specified for every state, and nothing is listed that the default does as well; the elision loop ends when code-free unit rules have no cycle |
| Generate.AutoReduceExactly | lemon.c:4695-4702 | a state is auto-reduce for a rule exactly when reductions by it are all that is alive on the state's list, and it is not a start rule |
| CompressedRuns.CompressedDrives | lemon.c:4641-4751 | the compressed lists still drive the automaton, up to code-free unit rules, so every result about runs holds of them |
| CompressedRuns.CompressionPreserves | lemon.c:4641-4751 | every accepting run of the uncompressed lists is matched by one of the compressed lists, on the same tokens and with the same code-carrying reductions, conflicts or not |
| Equivalence.CompressionReflects | lemon.c:4641-4751 | and conversely |
| Equivalence.CompressionIsInvisible | lemon.c:4641-4751 | on any tokens both parsers accept or neither does, at the same token and after the same code-carrying reductions |
| CompressedRuns.CompressedSound | lemon.c:4641-4751 | if the compressed parser accepts, it has read `$` behind a sentence, one symbol is on the stack, and its code-carrying reductions are those of a parse tree |
| CompressedRuns.CompressedExactly | lemon.c:4641-4751 | without conflicts the compressed parser accepts exactly the language |
| Lookback.RightBefore | lempar.c:903-917 | a token that is a lookahead of an item behind a reduction is a lookahead for the reduction: default reductions do not outrun the lookaheads |
| Lookback.SomeTokenRight | lempar.c:903-917 | in a tight grammar any chain of reductions has a token that is right for all of them |
| Progress.RightIsPast | lempar.c:867-1033 | without conflicts a token that is right for what is on the stack is shifted or accepted after finitely many reductions |
| Termination.BoundExists | lempar.c:903-917 | for a tight grammar without conflicts no stack allows more than a fixed number of reductions in a row, whatever the tokens |
| Loops.EndsIfAndOnlyIfLoopFree | lempar.c:903-917 | for any lists that drive the automaton the loop of Parse ends on every token and every stack along it if and only if no state and token start reductions that lead back to the state, or round a circle of gotos above it, without popping it |
| Loops.EveryTokenHalts | lempar.c:903-917 | so with lists free of loops it ends on every token and every stack the parser can have |
| Ending.PlainIsLoopFree | lempar.c:903-917 | uncompressed lists without conflicts are free of loops, whatever the grammar |
| Ending.TightIsLoopFree | lemon.c:4641-4751 | compressed lists without conflicts are free of loops if the grammar is tight |
| Unending.ReducesForEver | lempar.c:903-917 | a concrete grammar without conflicts, not tight: its uncompressed lists are free of loops, its compressed lists are not, and on two tokens the compressed parser comes to a state in which the loop does not end after any number of rounds |
| Prefixes.ShiftedBeginsSentence | lempar.c:638-675 | the tokens shifted always begin a sentence if every nonterminal derives one, for grammars with conflicts and default reductions too |
| ActTabs.ActTab.Action | lemon.c:631-655 | the transaction gets one more entry |
| ActTabs.ActTab.Insert | lemon.c:672-775 | the set is in place at the offset returned, all earlier sets stay where they were and answer as before, no used slot is overwritten; the place is the last at which just this set stands, else the first hole; the array grows by as much as in the source and the used part ends behind the set; a safe insert stays inside the array if and only if there was room early enough |
| ActTabs.EarlierSetOk | lemon.c:719-775 | a set placed later leaves an earlier set answering for its own entries and no others |
| ActTabs.SafeInsertCanOverflow | lemon.c:672-775 | a concrete table in which a safe insert finds no place inside the array |
| ActTabs.ActTab.ActionSize | lemon.c:781-785 | the used part without trailing unused slots |
| ParserTables.ResortStates | lemon.c:4761-4816 | state 0 stays first; of the others those with more actions on nonterminals, then on tokens, then the later ones come first; trailing auto-reduce states are dropped, and all of them: the last state kept is not one, unless it is the first |
| Generate.KeptExactly | lemon.c:4812-4815 | if each state but the first that is not auto-reduce has an action, the states kept are the first and exactly those that are not auto-reduce |
| ParserTables.PackSets | lemon.c:4199-4244 | every non-empty action set gets the offset at which it stands; the used part ends inside the array if and only if the last insertion had room |
| ParserTables.ReportTable | lemon.c:4086-4596 | every lookup in the tables, on a token or a nonterminal, gives the code of the list's action, for every kept state; unused slots answer to no symbol; larger sets are inserted first |
| Overread.LookupLeavesTables | lemon.c:4345-4368 | a concrete grammar, its lists and the tables made of them step by step: a terminal's lookup in a state entered by a shift leaves the tables |
| Driver.Parser.FindShift | lempar.c:500-563 | reads the code of the machine's move on the token |
| Driver.Parser.FindReduce | lempar.c:569-593 | asked for a goto that the state's list has, reads the code of that goto |
| Driver.Parser.Shift | lempar.c:638-675 | pushes the state or, for a shift-reduce, the pending reduction; the stack grows when it is full |
| Driver.Parser.Reduce | lempar.c:699-783 | pops the right-hand side and pushes the goto below it, as the machine does |
| Driver.Parser.Fail | lempar.c:811-822 | the token is dropped; `$` empties the stack; the error is reported unless too close to the last |
| Driver.Parser.Parse | lempar.c:867-1033 | for tokens on which the loop ends, the rounds are those of the machine; on accept the token was `$`, one symbol was on the stack and the reductions are those of a parse tree, a rightmost derivation when lists are uncompressed |
| Generate.GenerateParser | lemon.c:4086-4816 | the whole generator: lists, compressed lists and tables as specified; no tables exactly when the last insert found no room or a lookup could leave the tables; the conflicts reported are those left |
| Generate.ParseSentence | lempar.c:867-1033 | a generated parser for a grammar without conflicts accepts every sentence |
| Generate.ParseAll | lempar.c:867-1033 | fed any tokens, a generated parser for a grammar without conflicts, with lists free of loops, accepts if and only if they are a sentence, with its code-carrying reductions; otherwise it stops at the first token with which no sentence begins |
| Generate.ErrorIsFinal | lempar.c:811-822 | where the machine reports an error no sentence goes on with the token |
| Msort.Merge | lemon.c:1816-1852 | the result links the merge of the two lists; other links are unchanged |
| Msort.Sort | lemon.c:1868-1892 | the result is ordered by the one link, other links are unchanged, and it is a permutation if and only if the list is shorter than 2^30 |
| Msort.MergedTies | lemon.c:1816-1852 | of keys that compare equal merging takes those of the first list first |
| Msort.ContentSize | lemon.c:1868-1892 | slot i being empty or 2^i nodes, k slots hold at most 2^k - 1 nodes, and so many only if all are full |
| Msort.SortIsSortBy | lemon.c:1439-1452 | when the comparison tells keys apart the result is the one sorted listing that the rest of the generator uses |
| Fragments.Pool.NewNative | dsk/dsk-buffer.c:73-98 | an empty block: the top of the stack, or a new one exactly when the stack is empty |
| Fragments.Pool.Recycle | dsk/dsk-buffer.c:126-146 | a foreign block's callback is made; a native one goes on top of the stack exactly when fewer than 16 are there |
| Fragments.KeptAre | dsk/dsk-buffer.c:126-146 | of blocks given back in turn the first native ones are kept, as many as there is room for, the last of them on top |
| Buffers.Buffer.Append | dsk/dsk-buffer.c:214-246 | the contents grow by the data; what was there has not moved; a block is added only where the one before is full, from the top of the stack, and made only when that is empty |
| Buffers.Buffer.AppendRepeatedByte | dsk/dsk-buffer.c:249-280 | the contents grow by the byte, so many times |
| Buffers.Buffer.AppendSmall | dsk/dsk-buffer.h:195-213 | the fast path does what Append does |
| Buffers.Buffer.AppendByte | dsk/dsk-buffer.h:214-228 | likewise for one byte |
| Buffers.Buffer.AppendForeign | dsk/dsk-buffer.c:1008-1037 | the contents grow by the foreign data and its callback is owed; for no data it is made at once |
| Buffers.Buffer.Read | dsk/dsk-buffer.c:351-386 | the bytes read and the bytes left are the bytes there were; callbacks owed and made together stay the same; the stack holds what giving back the emptied fragments in turn leaves on it |
| Buffers.Buffer.Peek | dsk/dsk-buffer.c:405-431 | the first bytes, nothing changed |
| Buffers.Buffer.Discard | dsk/dsk-buffer.c:550-578 | the first bytes are gone, each callback made once, and the stack is as after Read |
| Buffers.Buffer.Drain | dsk/dsk-buffer.c:879-905 | all of the source's fragments change hands, in order |
| Buffers.Buffer.Transfer | dsk/dsk-buffer.c:953-990 | exactly the first bytes asked for change buffers; whole fragments move, only the rest is copied; no fragment is in two places and no callback is lost |
| Buffers.Buffer.IndexOf | dsk/dsk-buffer.c:765-781 | the least index of the byte, or -1 if it is nowhere |
| Buffers.Buffer.StrIndexOf | dsk/dsk-buffer.c:793-847 | the least index at which the string stands, or -1 if it stands nowhere, however the bytes are split |
| Buffers.Buffer.FindFragment | dsk/dsk-buffer.c:1476-1497 | the fragment that holds the byte at an offset, and where it starts |
| Buffers.Buffer.GetByteAt | dsk/dsk-buffer.c:1503-1509 | the byte at an index |
| Buffers.Buffer.AppendPlaceholder | dsk/dsk-buffer.c:1591-1631 | so many bytes are added, and the placeholder holds their place |
| Buffers.Buffer.PlaceholderSet | dsk/dsk-buffer.c:1634-1658 | exactly the reserved range is overwritten, across any number of fragments |
| Buffers.Buffer.FillLater | dsk/dsk-buffer.c:1591-1658 | reserving a range, appending in any ways and then filling it gives what appending the data first would have given |
| Doubling.ByteDoubler.Process | dsk/dsk-byte-doubler.c:20-49 | the output grows by the input with each occurrence of the byte doubled |
| Doubling.ByteUndoubler.Process | dsk/dsk-byte-undoubler.c:22-94 | one call does what the specification of undoubling does from the state left by the last |
| Doubling.ByteUndoubler.Finish | dsk/dsk-byte-undoubler.c:80-94 | after calls without an error, and where errors count, the end is taken exactly when the bytes given are the doubler's output for some bytes |
| Doubling.AnyChunks | dsk/dsk-byte-undoubler.c:22-94 | feeding in pieces gives the verdict of feeding at once, and the same output and state unless there is an error |
| Doubling.IgnoringChunks | dsk/dsk-byte-undoubler.c:22-94 | with errors ignored there is no error and the output depends on the bytes alone |
| Doubling.RunsShrink | dsk/dsk-byte-undoubler.c:22-94 | with errors ignored a run of n copies of the byte comes out as (n + 1) / 2 copies and all other bytes as they are; a pair is begun at the end exactly when the last run is odd (`Doubling.TextIsRuns`: any bytes are such runs) |
| Doubling.StrictTakesDoubled | dsk/dsk-byte-undoubler.c:22-94 | strict mode takes exactly the doubler's outputs from start to finish |
| Doubling.RoundTrip | dsk/dsk-byte-doubler.c:20-49 | bytes doubled in any pieces and undoubled in any other pieces come back, without error and with no pair begun |
| Crc.TableRight | dsk/dsk-checksum.c:1325-1378 | every entry of the table is eight bitwise steps of its index with polynomial 0xedb88320 |
| Crc.LookUp | dsk/dsk-checksum.c:1379-1386 | one table look-up does eight bitwise steps |
| Crc.Crc32.Feed | dsk/dsk-checksum.c:1379-1404 | the register becomes what the bitwise form makes of it |
| Crc.Crc32.DoneSwap | dsk/dsk-checksum.c:1412-1421 | the four bytes of the register change places with each other, first with last |
| Crc.BitwiseAppend | dsk/dsk-checksum.c:1379-1404 | a message may be fed in parts |
| Crc.BitwisePlus | dsk/dsk-checksum.c:1379-1386 | the checksum is linear over exclusive or of messages of one length |
| Crc.BurstDetected | dsk/dsk-checksum.c:1379-1386 | damage within four bytes in a row always changes the checksum |
| Digests.Md5.Loop | dsk/dsk-checksum.c:370-394 | whole blocks are absorbed and the rest waits, for every feed on which the C loop ends; the count of bits stays right if and only if the feed is below 2^29 bytes |
| Digests.NeverEnds | dsk/dsk-checksum.c:385-387 | for every other length the test of the loop holds at each position it comes to |
| Digests.Md5.Pad | dsk/dsk-checksum.c:395-436 | the state is the fold of the block function over the padded message (RFC 1321, sections 3.1-3.4) |
| Digests.Md5InChunks | dsk/dsk-checksum.c:370-436 | any split into feeds below 2^29 bytes gives the hash of the whole |
| Digests.Sha1.Loop | dsk/dsk-checksum.c:894-920 | whole blocks are absorbed and the rest waits |
| Digests.Sha1.Pad | dsk/dsk-checksum.c:859-892 | the fold over the padded message, whose last eight bytes are the length in bits modulo 2^64, high byte first (FIPS 180-4, sections 5.1.1 and 6.1.2) |
| Digests.HighFirstWorth | dsk/dsk-checksum.c:859-892 | read with the high byte first, the length field has the value of the low 64 bits of the length |
| Digests.WordWorth | dsk/dsk-checksum.c:1215-1250 | and each of the two words it is written as that of its low 32 bits |
| Digests.PaddedWhole | dsk/dsk-checksum.c:859-892 | a padded message is the message, a one bit, zeros and the length, and ends on the first block boundary that leaves room for them |
| Digests.Sha1InChunks | dsk/dsk-checksum.c:859-920 | any split gives the hash of the whole |
| Digests.Sha256.Feed | dsk/dsk-checksum.c:1175-1213 | blocks absorbed, the rest waiting; the count stays right if and only if its low word and the feed together are below 2^33 |
| Digests.Sha256.Done | dsk/dsk-checksum.c:1215-1250 | the fold over the padded message, whose last eight bytes are the length the count stands for, high byte first (FIPS 180-4, sections 5.1.1 and 6.2.2) |
| Digests.Sha256InChunks | dsk/dsk-checksum.c:1175-1250 | any split into feeds below 2^32 bytes gives the hash of the whole |
| Digests.PaddingInjective | dsk/dsk-checksum.c:395-436 | different messages below 2^61 bytes are different when padded for MD5 |
| Digests.PaddingInjectiveHighFirst | dsk/dsk-checksum.c:859-892 | and when padded for SHA-1 and SHA-256 |
| Cgi.ParseQueryString | dsk/dsk-cgi.c:5-108 | status and variables are those of the specification, and the array sized by counting ampersands is large enough |
| Cgi.SizeValue | dsk/dsk-cgi.c:36-65 | the sizing pass accepts exactly the values with whole escapes and counts their bytes |
| Cgi.WriteValue | dsk/dsk-cgi.c:76-93 | the second pass fills the block sized by the first exactly |
| Cgi.ParsedExactly | dsk/dsk-cgi.c:13-108 | a query is taken if and only if every pair has an equals sign and whole escapes; it gives one variable a pair |
| Cgi.ReadExactly | dsk/dsk-cgi.c:76-93 | a value is read as some bytes if and only if it spells them: each as itself, a space as a plus sign, or any byte as a percent sign and its two hexadecimal digits, in either case |
| Cgi.SpellingsBack | dsk/dsk-cgi.c:13-108 | a query of pairs is read back however its values are spelled, with a question mark in front or without |
| Cgi.PrintedAs | dsk/dsk-cgi.c:299-327 | letters, digits, minus and underscore are printed as they are, a space as a plus sign, and all other bytes as a percent sign and two digits in lower case |
| Cgi.ParseFails | dsk/dsk-cgi.c:41-67 | a query fails at the first pair that is not taken: on a bad escape if that pair has an equals sign, for want of one otherwise |
| Cgi.PrintedIsQuery | dsk/dsk-cgi.c:308-314 | what is printed is a question mark and the pairs with ampersands between them, or nothing for no variables |
| Cgi.MakePath | dsk/dsk-cgi.c:299-327 | the prefix and the printed query, read back from the buffer |
| Cgi.RoundTrip | dsk/dsk-cgi.c:13-108 | parsing what is printed gives back the variables, for keys free of `&`, `=` and NUL and values of any bytes |

## Left out

The generator:

- Reading grammar files, options, reports, C code, actions with code and destructors: input and output.
- `MULTITERMINAL`, `%wildcard`, `%fallback`, `%nonassoc`, the error symbol and error recovery: the model's grammars have none, and `Parser.Fail` is the branch taken without an error symbol.
- The start symbol is on no right-hand side (`StartNotOnRight`), which the source checks and repairs with a message (lemon.c:919-930), and code-free unit rules have no cycle (`AcyclicUnits`), without which the elision loop of CompressTables does not end.
- Configurations are indices into one sequence; freeing a list and reusing its nodes is not modelled, so neither is aliasing through a stale pointer.
- `State_find` is a search and the table of configurations a map: the hash chains of `State_insert` and `Configtable_find` would be easier members.
- Follow-sets and firstsets are sets of numbers in place of byte arrays.
- The order of links in a list does not matter to any result and is not specified; nor is the order in which states are numbered before ResortStates, but that the start state is 0.
- The generator's lists are sorted by `Sorting.SortBy`; `Msort.SortIsSortBy` ties it to `msort` for comparisons that tell keys apart. `actioncmp` breaks its last ties by address; the model keeps such entries in their order.
- `qsort` is any ordering by the comparison.
- Msort.Sort: does not say in which order keys that compare equal come out; it is neither the order they had nor the reverse.
- The `canReduce` report and the widths of the integer types of the tables.
- Ending.TightIsLoopFree: goes one way; a grammar that is not tight can have compressed lists free of loops, and `Loops.EndsIfAndOnlyIfLoopFree` decides each case on the lists themselves.
- Driver.Parser.Parse: takes the number of rounds as a ghost bound, since a loop that does not end has no outcome to state. `Loops.EveryTokenHalts` gives the bound for lists free of loops; with others there are stacks and tokens that have none.
- Generate.ParseAll: asks for lists free of loops, since it feeds any tokens at all; sentences are accepted without it (`Generate.ParseSentence`).
- Prefixes.ShiftedBeginsSentence: asks that every nonterminal derives some tokens; with useless nonterminals the tokens shifted need not begin a sentence.

The buffer:

- Buffers.Buffer.Append: a buffer's size stays below 2^32, as the C field holds it; allocation always succeeds.
- The memory of a block is a field holding a sequence, written as a whole; two fragments never share memory.
- Drain and transfer are between different buffers.
- `dsk_buffer_clear`, `reset` and `read_line`, file descriptors, `printf`, `polystr_index_of`, `fragment_peek`, `fragment_advance`, and the fragments that are left empty on purpose.
- Buffers.Buffer.StrIndexOf: for ASCII strings that are not empty, as the comparison of signed characters demands.

Streams:

- The compression functions of the hashes are parameters; turning the final words into bytes is left out.
- Crc.Crc32.Feed: the length is a C `int`, so below 2^31.
- `dsk_cgi_parse_post_data`, `dsk_cgi_modify_path`; the ASCII tables are predicates.
