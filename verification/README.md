# Models of the algorithmic cores of the Skia infrastructure code

This project models, in Dafny 4.11, the pieces of the repository that have an algorithm of their own, and proves
what each of them keeps over every input, every interleaving or every history. `dafny verify dfyconfig.toml` checks
all of it.

| file | what it models |
|---|---|
| `DeepEqual.dfy` | deep equality of values on a finite, possibly cyclic heap |
| `AtomicMissConcurrent.dfy` | the atomic-miss cache as goroutines that interleave at every lock and call |
| `AtomicMissOutcome.dfy` | what its operations have done when they return, in every interleaving |
| `AtomicMissCache.dfy` | the same cache, one operation at a time, over a backing cache |
| `CalcLexer.dfy`, `CalcParser.dfy` | the formula lexer and the parser that reads its items |
| `CalcSpelling.dfy` | the texts that they accept, in literal characters |
| `Firestore.dfy` | retries, resumed iteration and recursive traversal under faults |
| `AndroidBuild.dfy` | the byte-inverted key index of Android builds |
| `Gitiles.dfy` | paged logs, first-parent walks and the memoised ancestry search |
| `Decimation.dfy` | the thinning of old builds, over histories of builds and rounds |
| `Counters.dfy` | the self-decrementing counter, over histories of increments, timers, resets and restarts |
| `PkgDataWriter.dfy` | the splitter of the output of `go list` |
| `CsvMerge.dfy`, `CsvComparer.dfy` | the comparison of two CSV files: merge join, totals, outliers |
| `Common.dfy`, `ByteStrings.dfy` | shared definitions: options, runs of a step function, byte-string order |

## Where the code differs from what is promised

Each of these is a theorem below, with the exact condition under which the code does what is promised.

- `DeepEqual` is documented to terminate because of its visited map. Only addressable values are recorded there, so two
  distinct maps that hold themselves are compared forever (`DeepEqual.SelfMapsNeverEnd`). It answers equal if and only if
  the values are deeply equal and no cycle without an addressable map, slice, pointer or interface can be reached
  (`DeepEqual.AnswersEqualIff`); without such a cycle it always answers (`DeepEqual.EndsWithoutCycle`). All of this holds
  whatever order the runtime chooses for the keys of a map at each visit.
- On a key that the backing cache stores and the cache does not hold, a rejected `Set(key, nil)`, or a `Get`, `Set` or
  `SetIfUnset` during which the backing cache fails, leaves a phantom entry, and the next `Cleanup` deletes the stored value
  (`AtomicMissCache.NilSetThenCleanupLoses`, `AtomicMissCache.FaultThenCleanupLoses`). These are the only ways
  (`AtomicMissCache.StaysApartIff`, `AtomicMissCache.HistoryStaysApartIff`).
- The lexer's `next` does not advance at the end of the input, but `backUp` steps back all the same, and the end marker
  0xff counts as a letter. An identifier or a number that touches the end of the input makes it loop forever
  (`CalcLexer.BareNameNeverEnds`), except for a number ending in a dot, which it cuts wrongly (`CalcLexer.FinalDotIsCut`);
  otherwise it is right (`CalcLexer.LexerIsRightIff`). The parser gives the right answer all the same unless it is left
  waiting for an item, and then it waits forever (`CalcParser.ParserIsRight`, `CalcParser.ParserWaitsForever`).
- A hexadecimal number takes no exponent, since `e` is a digit there: `0x1e+5` is the number `0x1e` and the number `+5`
  (`CalcSpelling.HexHasNoExponent`). The spellings that are one number are exactly those of `CalcSpelling.ValidNumberIff`.
- `iterDocsInner` and `recurseDocs` with no attempts allowed return nil without having listed anything
  (`Firestore.Iteration.IterDocs`, `Firestore.NoAttemptsOrderIff`).
- Between negative build IDs the inverted keys are in numeric order, not in reverse, so a seek is not a floor lookup
  (`AndroidBuild.KeyOrder`, `AndroidBuild.SeekIsFloorIff`, `AndroidBuild.NegativeSeekIsNoFloor`). The target list is split
  at spaces, so a pair with a space in a name is never tracked, however often it is added (`AndroidBuild.ListedIff`).
- `decimate` is documented to leave `limit`/2 of the fresh builds; it leaves n/2 + 1 of n. The last of the month-spaced
  builds counts as fresh (`Decimation.RoundSpares`). A forced rebuild lists a hash twice, and a round can then remove the
  checkout of a build it keeps (`Decimation.ForcedRebuildLosesCheckout`, `Decimation.RebuildAndDecimate`,
  `Decimation.RoundSafeIff`).
- A write that fails to decode a piece keeps its old buffer even if an earlier piece of the same write used it up
  (`PkgDataWriter.FailedWriteRepeats`); the bytes are accounted for exactly if nothing was buffered or the first piece is
  the one that does not decode (`PkgDataWriter.FailedWriteAccounts`).
- With an outlier percentage too small to discard one page, `page_values[-0:]` discards all of them;
  the field is then reported only if the minimum of pages is at most zero and the unlisted pages differ enough together
  (`CsvComparer.SmallPercentageTakesAll`, `CsvComparer.EmptyFieldIsReported`). With one above 50, pages are subtracted twice (`CsvComparer.OverlapIsTakenTwice`).

## Model

| member | source | states |
|---|---|---|
| `DeepEqual.VisitUnordered` | go/deepequal/deep_equals.go:72-83 | a recorded visit stands for one pair of slots or its mirror image, and no other pair |
| `DeepEqual.MapKeysMatch` | go/deepequal/deep_equals.go:197-210 | looking up only the first map's keys, with equal lengths, matches the two key sets and excludes NaN keys on either side |
| `DeepEqual.NeverUnequal` | go/deepequal/deep_equals.go:51-227 | whatever has been visited, values related by a bisimulation are never answered unequal |
| `DeepEqual.RunLog` | go/deepequal/deep_equals.go:72-88 | in an equal answer every comparison carried through was justified by comparisons settled before it or assumed from the visited map, and every visit recorded belongs to a comparison carried through |
| `DeepEqual.LogIsBisimulation` | go/deepequal/deep_equals.go:38-41 | assuming comparisons in progress to be equal, in either order, is sound: the comparisons carried through and their mirror images form a bisimulation |
| `DeepEqual.AnswerIsRight` | go/deepequal/deep_equals.go:51-227 | whenever the comparison ends, it answers equal exactly for deeply equal values |
| `DeepEqual.EndsWithoutCycle` | go/deepequal/deep_equals.go:62-88 | if every cycle of corresponding parts of the two values has an addressable map, slice, pointer or interface in it, the comparison ends, whatever the order of map keys |
| `DeepEqual.UnguardedCycleIff` | go/deepequal/deep_equals.go:62-88 | the loops that no visit stops are the cycles of corresponding parts, in terms of contents and addressability alone, without an addressable map, slice, pointer or interface |
| `DeepEqual.EqualHasNoCycle` | go/deepequal/deep_equals.go:62-88 | an equal answer is only reached where there is no unguarded cycle |
| `DeepEqual.AnswersEqualIff` | go/deepequal/deep_equals.go:51-227 | for every order of map keys at every visit, the comparison comes to an equal answer if and only if the values are deeply equal and no such cycle can be reached |
| `DeepEqual.SelfNodesEnd` | go/deepequal/deep_equals.go:64-88 | pointers to two structs that point to themselves are found equal |
| `DeepEqual.SelfMapsNeverEnd` | go/deepequal/deep_equals.go:193-210 | two self-containing maps are compared forever, at any depth |
| `DeepEqual.SelfMapsAreDeeplyEqual` | go/deepequal/deep_equals.go:242-245 | those two maps are deeply equal by the documented rules |
| `DeepEqual.Comparison.DeepValueEqual` | go/deepequal/deep_equals.go:51-88 | validity, type and visited checks; answer and visited map are those of the specified comparison |
| `DeepEqual.Comparison.CompareContents` | go/deepequal/deep_equals.go:90-227 | the switch over the kinds, with the nil, length and same-pointer shortcuts |
| `DeepEqual.Comparison.CompareCells` | go/deepequal/deep_equals.go:91-97 | the element loop compares corresponding cells in order and stops at the first difference |
| `DeepEqual.Comparison.CompareEntries` | go/deepequal/deep_equals.go:203-209 | the map loop compares the values of each key, in the order in which this visit lists them, failing on a key one side does not find |
| `DeepEqual.DeepEqual` | go/deepequal/deep_equals.go:282-292 | where the comparison ends, nil and typed values are equal exactly when the documentation says so |
| `AtomicMissConcurrent.StepKeepsInv` | go/atomic_miss_cache/atomic_miss_cache.go:40-278 | every step of every operation keeps lock ownership, at most one entry lock a goroutine, and valid entry references |
| `AtomicMissConcurrent.RunKeepsInv` | go/atomic_miss_cache/atomic_miss_cache.go:40-278 | that holds in every state of every interleaving |
| `AtomicMissConcurrent.EntryHolderRuns` | go/atomic_miss_cache/atomic_miss_cache.go:96-113 | a goroutine that holds an entry lock waits neither for the map lock nor for another entry lock |
| `AtomicMissConcurrent.MapHolderRuns` | go/atomic_miss_cache/atomic_miss_cache.go:206-278 | a goroutine that holds the map lock waits only for an entry lock |
| `AtomicMissConcurrent.Progress` | go/atomic_miss_cache/atomic_miss_cache.go:206-278 | while an operation is unfinished some goroutine can step |
| `AtomicMissConcurrent.RunNeverDeadlocks` | go/atomic_miss_cache/atomic_miss_cache.go:96-278 | every interleaving with an unfinished operation can go on |
| `AtomicMissConcurrent.EveryRunFinishes` | go/atomic_miss_cache/atomic_miss_cache.go:96-278 | every interleaving is bounded by the work at its start, and it cannot go on if and only if every operation has finished |
| `AtomicMissConcurrent.OthersOut` | go/atomic_miss_cache/atomic_miss_cache.go:96-113 | while one goroutine is in the middle of a miss on a key, any other at that key still waits for its entry |
| `AtomicMissConcurrent.StepKeepsKey` | go/atomic_miss_cache/atomic_miss_cache.go:153-189 | with nobody deleting or cleaning up a key, its single entry, its history, the backing cache and the results fit together after every step |
| `AtomicMissConcurrent.KeyIsRegister` | go/atomic_miss_cache/atomic_miss_cache.go:40-113 | in every interleaving without deletion of a key or cleanup, Set included, every value returned is the one installed last before it, entry and backing cache agree whenever the entry is unlocked, and getVal is called only while neither has a value |
| `AtomicMissConcurrent.MissIsAtomic` | go/atomic_miss_cache/atomic_miss_cache.go:40-113 | in every interleaving of Get and SetIfUnset on a key, at most one value is installed and every successful call returns it |
| `AtomicMissOutcome.StepTells` | go/atomic_miss_cache/atomic_miss_cache.go:40-278 | every step of every operation adds to what it has done what its further way and its result require |
| `AtomicMissOutcome.ResultsAreEarned` | go/atomic_miss_cache/atomic_miss_cache.go:40-278 | in every interleaving, what an operation returns is what it has done: a Set that returns without error has written its value through and put it into the entry, a Get finds nothing only where there is nothing, a SetIfUnset stores and returns what getVal returned, a Delete has removed the key from both, a Cleanup has scanned all entries and removed exactly the rejected ones, a ForEach has visited all; each fails only for nil, an error of getVal or one of the backing cache |
| `AtomicMissCache.BackingStore.Get` | go/atomic_miss_cache/atomic_miss_cache.go:116-119 | returns the stored value or no such entry; other errors only if unreliable |
| `AtomicMissCache.BackingStore.Set` | go/atomic_miss_cache/atomic_miss_cache.go:121-122 | stores the value or, failing, changes nothing |
| `AtomicMissCache.BackingStore.Delete` | go/atomic_miss_cache/atomic_miss_cache.go:124-127 | removes the key or, failing, changes nothing |
| `AtomicMissCache.CacheEntry.Get` | go/atomic_miss_cache/atomic_miss_cache.go:40-64 | reads through, caches what it found and never changes the value the key stands for |
| `AtomicMissCache.CacheEntry.Set` | go/atomic_miss_cache/atomic_miss_cache.go:68-87 | writes through before caching; nil and write failures change nothing |
| `AtomicMissCache.CacheEntry.SetIfUnset` | go/atomic_miss_cache/atomic_miss_cache.go:96-113 | getVal is called only on a miss, and its value is returned only then |
| `AtomicMissCache.CleanupIsExactIff` | go/atomic_miss_cache/atomic_miss_cache.go:223-259 | Cleanup removes exactly the held keys selected if and only if no phantom hides a stored value |
| `AtomicMissCache.KeyIsVariable` | go/atomic_miss_cache/atomic_miss_cache.go:40-215 | without cleanups each key is a variable: whatever fails, each Get, Set, SetIfUnset, Delete and ForEach answers as the operations before it and their answers tell |
| `AtomicMissCache.StaysApartIff` | go/atomic_miss_cache/atomic_miss_cache.go:40-165 | an operation, gone through or failed in the backing cache, makes a phantom hide a stored value exactly if it is a nil Set, or a Get, Set or SetIfUnset with a backing failure, on a key that is stored but not held |
| `AtomicMissCache.HistoryStaysApartIff` | go/atomic_miss_cache/atomic_miss_cache.go:40-278 | phantoms and stored values stay apart throughout a history, backing failures included, if and only if it has no such operation |
| `AtomicMissCache.CarefulHistoryStaysApart` | go/atomic_miss_cache/atomic_miss_cache.go:40-278 | no history without nil Sets and backing failures makes a phantom hide a value |
| `AtomicMissCache.TouchThenCleanupLoses` | go/atomic_miss_cache/atomic_miss_cache.go:234-243 | any such operation and a Cleanup that selects nothing together delete the stored value |
| `AtomicMissCache.NilSetThenCleanupLoses` | go/atomic_miss_cache/atomic_miss_cache.go:234-243 | a rejected nil Set and a Cleanup that selects nothing together delete a stored value |
| `AtomicMissCache.FaultThenCleanupLoses` | go/atomic_miss_cache/atomic_miss_cache.go:234-243 | a Get that fails in the backing cache and a Cleanup that selects nothing together delete a stored value |
| `AtomicMissCache.AtomicMissCache.GetEntry` | go/atomic_miss_cache/atomic_miss_cache.go:153-165 | the one entry of the key, created empty if missing |
| `AtomicMissCache.AtomicMissCache.Get` | go/atomic_miss_cache/atomic_miss_cache.go:170-172 | the value of the entry, or else of the backing cache, which is then held; a miss only where neither has one; no other entry and nothing stored changes; this is what the plain map answers, or a backing error leaves an empty entry at most |
| `AtomicMissCache.AtomicMissCache.Set` | go/atomic_miss_cache/atomic_miss_cache.go:176-178 | entry and backing cache have the value, or after nil or a backing error nothing has changed but for an empty entry; no other entry changes; this is what the plain map does |
| `AtomicMissCache.AtomicMissCache.SetIfUnset` | go/atomic_miss_cache/atomic_miss_cache.go:187-189 | getVal is called exactly on keys without a value, and its value is then stored in both places; otherwise the value is the one there was; no other entry changes |
| `AtomicMissCache.AtomicMissCache.Delete` | go/atomic_miss_cache/atomic_miss_cache.go:194-215 | the key is gone from the cache and the backing cache and nothing else changes, or nothing changes at all if the backing cache fails |
| `AtomicMissCache.AtomicMissCache.Doomed` | go/atomic_miss_cache/atomic_miss_cache.go:233-243 | exactly the keys whose entry has no value or one that is selected |
| `AtomicMissCache.AtomicMissCache.Purge` | go/atomic_miss_cache/atomic_miss_cache.go:245-257 | deletes the doomed keys, or a proper part of them if the backing cache fails |
| `AtomicMissCache.AtomicMissCache.Cleanup` | go/atomic_miss_cache/atomic_miss_cache.go:223-259 | exactly those keys are gone from both places, or some of them if the backing cache fails |
| `AtomicMissCache.AtomicMissCache.ForEach` | go/atomic_miss_cache/atomic_miss_cache.go:264-278 | visits a key with a value if and only if the entry of the key has that value |
| `AtomicMissCache.AtomicMissCache.Perform` | go/atomic_miss_cache/atomic_miss_cache.go:134-278 | any one operation leaves state and answer of a possible outcome on the plain map, a fault only over an unreliable backing cache |
| `AtomicMissCache.AtomicMissCache.Replay` | go/atomic_miss_cache/atomic_miss_cache.go:134-278 | any sequential history over any backing cache is a history of the plain map with possible outcomes, without faults if the backing cache is reliable; without cleanups every answer fits what the operations and answers before tell about the key |
| `CalcLexer.ClosedIsNotDangling` | go/calc/lex.go:105-117 | input ending in a closing parenthesis leaves no identifier or number touching the end |
| `CalcLexer.NumberEndIs` | go/calc/lex.go:184-202 | lexNumber ends where the longest number ends, one character short at the end of the input |
| `CalcLexer.HaltsRight` | go/calc/lex.go:120-215 | from any position with nothing dangling the state functions stop with the items of the reference lexer |
| `CalcLexer.DanglingLeads` | go/calc/lex.go:105-117 | with something dangling they get trapped, or reject a number ending in a dot |
| `CalcLexer.EndsOnce` | go/calc/lex.go:120-123 | the machine has one outcome |
| `CalcLexer.LexerIsRightIff` | go/calc/lex.go:120-215 | for every ASCII input: right items if and only if nothing dangles, a stop if and only if nothing dangles or the last character is a dot, and the items at the stop in either case |
| `CalcLexer.BareNameNeverEnds` | go/calc/lex.go:205-215 | on an input of one letter the machine never stops |
| `CalcLexer.FinalDotIsCut` | go/calc/lex.go:63-69 | a digit and a dot give the digit and an error item instead of one number |
| `CalcLexer.SendsOnly` | go/calc/lex.go:120-215 | whatever has been sent at any time is a prefix of a fixed sequence, or, once trapped, that sequence and further numbers |
| `CalcLexer.Lexer.NextChar` | go/calc/lex.go:105-112 | the next character, or the end marker without advancing |
| `CalcLexer.Lexer.Accept` | go/calc/lex.go:63-69 | accepts a character of the class, or loses one at the end of the input |
| `CalcLexer.Lexer.AcceptRun` | go/calc/lex.go:72-76 | consumes a run, with the same loss at the end |
| `CalcLexer.Lexer.RunLexExp` | go/calc/lex.go:135-162 | one step of the dispatching state |
| `CalcLexer.Lexer.RunLexString` | go/calc/lex.go:165-181 | a closed string gives its item, an open one an error item and scanning goes on |
| `CalcLexer.Lexer.RunLexNumber` | go/calc/lex.go:184-202 | emits the longest number, one character short at the end of the input |
| `CalcLexer.Lexer.RunLexIdentifier` | go/calc/lex.go:205-215 | emits the longest identifier |
| `CalcLexer.Lexer.Run` | go/calc/lex.go:120-123 | on every input on which it stops, it stops with the items that are sent, which are those of the reference lexer if nothing dangles |
| `CalcLexer.Lexer.RunUntil` | go/calc/lex.go:120-123 | on any input, any number of the items to be sent are sent after finitely many calls of state functions |
| `CalcParser.ItemReader.NextItem` | go/calc/lex.go:44-52 | items come in order without loss, whether peeked or not; the lexer runs only as far as needed |
| `CalcParser.ItemReader.PeekItem` | go/calc/lex.go:56-60 | the item NextItem will return; the buffer was empty and nothing is received after a final item |
| `CalcParser.RunParseExp` | go/calc/parser.go:138-156 | the parse of the grammar, consuming exactly its items, wherever the parser is not left waiting |
| `CalcParser.RunParseArg` | go/calc/parser.go:167-191 | one turn of the argument loop: what is left to parse is what was to be parsed, less this argument |
| `CalcParser.RunParseArgs` | go/calc/parser.go:165-194 | the arguments of the grammar, stopping in front of the closing parenthesis |
| `CalcParser.ParseTokens` | go/calc/parser.go:138-194 | wherever the items of a printed call stand in a stream, they parse as that call |
| `CalcParser.ParsesIff` | go/calc/parser.go:138-194 | what is parsed on any items, and as what: exactly those that without commas are the items of a printed call, every name followed by a parenthesis |
| `CalcParser.LexPrinted` | go/calc/lex.go:135-215 | lexing a printed call gives exactly its items |
| `CalcParser.RoundTrip` | go/calc/parser.go:127-194 | printing any valid function-rooted tree, lexing and parsing gives the same tree |
| `CalcParser.LexEnds` | go/calc/lex.go:135-215 | every item stream has a first final item |
| `CalcParser.ParserIsRight` | go/calc/parser.go:127-194 | on every input the parser makes of the items sent what it should make of the input, unless it is left waiting; it is not if the lexer stops or the input begins with a complete call |
| `CalcParser.ParserWaitsForever` | go/calc/parser.go:127-194 | where it is left waiting, nothing the lexer sends at any time lets it answer |
| `CalcParser.CallIsReadFirst` | go/calc/parser.go:127-156 | a printed call parses as that call whatever text follows it |
| `CalcParser.Parse` | go/calc/parser.go:127-130 | on every ASCII input on which the parser is not left waiting: the grammar's result, which is the tree if the input begins with a printed call |
| `CalcSpelling.ValidNameIff` | go/calc/lex.go:205-215 | the names of the lexer are exactly the letters, digits and underscores, in literal characters, that begin with a letter |
| `CalcSpelling.ValidNumberIff` | go/calc/lex.go:184-202 | the numbers of the lexer are exactly the spellings with an optional sign, 0x, digits, fraction and, without 0x, exponent, in literal characters |
| `CalcSpelling.HexHasNoExponent` | go/calc/lex.go:184-202 | after 0x an e is a digit: 0x1e+5 ends in front of the sign |
| `CalcSpelling.BadIff` | go/calc/lex.go:135-162 | the characters that are rejected are exactly those no piece of a formula begins with |
| `CalcSpelling.YieldsText` | go/calc/lex.go:135-215 | lexing any text made of names, numbers, strings and marks, with any white space between them, gives the items of these |
| `CalcSpelling.TextIsParsed` | go/calc/parser.go:127-194 | any input that begins with a text of a call, in any layout, is parsed as that call |
| `CalcSpelling.NumberIsParsed` | go/calc/parser.go:138-194 | a name with a number in parentheses is a call with exactly that spelling of the number |
| `CalcSpelling.ParseText` | go/calc/parser.go:127-130 | parse returns the call whose text the input begins with |
| `Firestore.Iteration.Callback` | go/firestore/firestore.go:477-480 | a success extends the prefix of documents seen by the next one, a failure leaves it |
| `Firestore.Iteration.Attempt` | go/firestore/firestore.go:454-487 | one attempt resumes after the last document seen and only extends the prefix; nil only at the end; a pause only after progress |
| `Firestore.RetriedNext` | go/firestore/firestore.go:383-428 | one more attempt keeps to the rule: after a retryable status or an expired deadline again, else the end |
| `Firestore.Iteration.WithRetries` | go/firestore/firestore.go:383-428 | after a retryable status or an expired deadline it tries again while attempts are left, after anything else it returns at once, with the error of the last attempt unless the context passed in has ended; if fewer faults than attempts occur, all of them retryable, it does not fail |
| `Firestore.Iteration.IterDocs` | go/firestore/firestore.go:449-496 | under any faults, pauses and callback errors the documents seen are a gap-free, repeat-free prefix, all of them on nil; restarts are bounded by the documents; if each run between pauses meets fewer retryable faults than attempts and nothing else fails, it returns nil |
| `Firestore.CallKeepsOrder` | go/firestore/firestore.go:660-681 | calling the function once all collections below are done keeps descendants first |
| `Firestore.Traversal.ListCollections` | go/firestore/firestore.go:642-659 | across retries only collections of the document are listed, and all of them on nil; retries as in WithRetries |
| `Firestore.Traversal.RecurseDocs` | go/firestore/firestore.go:638-682 | the function is called on a document only after it succeeded on every descendant; nil means it succeeded on all; if each listing meets fewer retryable faults than attempts and nothing else fails, it returns nil |
| `Firestore.Traversal.RecurseColl` | go/firestore/firestore.go:660-680 | the same for one collection, which is visited again after a retryable status or an expired deadline, nested ones included, while attempts are left |
| `Firestore.NoAttemptsOrderIff` | go/firestore/firestore.go:383-385 | with no attempts the order holds if and only if there is nothing below the root |
| `AndroidBuild.InvertBSlice` | go/androidbuild/androidbuild.go:226-233 | a new array with every byte subtracted from 0xff |
| `AndroidBuild.InvertReverses` | go/androidbuild/androidbuild.go:220-233 | inversion reverses the byte order of strings of equal length |
| `AndroidBuild.InvertTwice` | go/androidbuild/androidbuild.go:226-233 | inversion undoes itself |
| `AndroidBuild.AtoiPadded` | go/androidbuild/androidbuild.go:245-249 | reading a padded number gives the number |
| `AndroidBuild.AtoiAccepts` | go/androidbuild/androidbuild.go:245-249 | a sign and digits are read as their number exactly if it fits into 64 bits |
| `AndroidBuild.FromToKey` | go/androidbuild/androidbuild.go:244-269 | fromKey undoes toKey, up to the spelling of the number, if and only if neither name has a colon |
| `AndroidBuild.FromToKeyCanonical` | go/androidbuild/androidbuild.go:244-269 | on canonical decimals it is the identity |
| `AndroidBuild.KeyLooksSo` | go/androidbuild/androidbuild.go:244-251 | the bytes of one key |
| `AndroidBuild.KeyOrder` | go/androidbuild/androidbuild.go:235-251 | within a pair key order is reverse numeric order, except between two negative numbers |
| `AndroidBuild.SeekIsFloorIff` | go/androidbuild/androidbuild.go:105-109 | the condition on the stored IDs under which a seek finds the greatest ID not above the one asked for, exactly |
| `AndroidBuild.NegativeSeekIsNoFloor` | go/androidbuild/androidbuild.go:105-109 | with -2 and -1 stored, a seek from 5 lands on -2 |
| `AndroidBuild.ReservedCollides` | go/androidbuild/androidbuild.go:167-180 | the reserved last-build name as a branch would cover another pair's keys |
| `AndroidBuild.ConstantsSpell` | go/androidbuild/androidbuild.go:27-33 | the reserved name and the separators, as characters |
| `AndroidBuild.UnderPrefix` | go/androidbuild/androidbuild.go:254-256 | a key under a pair's prefix is the key of one of that pair's commits |
| `AndroidBuild.SeekLands` | go/androidbuild/androidbuild.go:105-109 | where a seek in the store lands, in terms of build IDs |
| `AndroidBuild.WordsOfJoin` | go/androidbuild/androidbuild.go:92-93 | appending a name to the target list, joining and splitting gives the old list and the words of the name |
| `AndroidBuild.ListedIff` | go/androidbuild/androidbuild.go:89-93 | a name added is found in the list exactly if it has no space |
| `AndroidBuild.Info.Branchtargets` | go/androidbuild/androidbuild.go:133-147 | the words of the stored list, none empty and none with a space |
| `AndroidBuild.Info.Seek` | go/androidbuild/androidbuild.go:107-109 | the least key under the prefix not below the key sought |
| `AndroidBuild.Info.Store` | go/androidbuild/androidbuild.go:150-164 | stores under the key of the build, or nothing for an invalid ID |
| `AndroidBuild.Info.SingleGet` | go/androidbuild/androidbuild.go:123-130 | answers what the API answers, storing it |
| `AndroidBuild.Info.Lookup` | go/androidbuild/androidbuild.go:101-115 | where a seek lands among the builds stored for the pair, which is the greatest ID not above the one asked for where the IDs allow it |
| `AndroidBuild.Info.Get` | go/androidbuild/androidbuild.go:85-119 | on a tracked pair the stored commit the seek lands on, asking the API only if there is none; an untracked pair is added and asked for; afterwards the pair is tracked exactly if its name has no space |
| `Gitiles.LogOptionsToQuery` | go/gitiles/gitiles.go:455-513 | the page size is the least of all limit and batch-size options, the limit is the last one, and two paths are an error |
| `Gitiles.Server.Fetch` | go/gitiles/gitiles.go:537-544 | a page is the next stretch of the log, with a cursor that advances |
| `Gitiles.TakeBatch` | go/gitiles/gitiles.go:546-557 | the page up to the limit |
| `Gitiles.Log` | go/gitiles/gitiles.go:519-580 | whatever the pages, the first min(limit, total) commits in order, or all without a limit; an error only if the server fails |
| `Gitiles.BuildMap` | go/gitiles/gitiles.go:602-605 | the commits by hash |
| `Gitiles.WalkFirstParents` | go/gitiles/gitiles.go:606-616 | exactly the chain of first parents inside the log, on every acyclic log |
| `Gitiles.ChainIff` | go/gitiles/gitiles.go:606-616 | on an acyclic log there is exactly one such sequence |
| `Gitiles.FirstParentCommits` | go/gitiles/gitiles.go:597-617 | from a fetched log the one sequence that begins with the commit asked for, goes on with first parents and ends where the first parent is not in the log |
| `Gitiles.DirectPathsRule` | go/gitiles/gitiles.go:645-678 | the chain to the first commit with `from` among its parents obeys the recursion of the search |
| `Gitiles.AncestrySearch.Search` | go/gitiles/gitiles.go:645-678 | the memoised search marks exactly the direct path and answers whether there is one |
| `Gitiles.LinearCommits` | go/gitiles/gitiles.go:635-687 | exactly the first-parent chain from the first commit to the first with `from` among its parents, in log order, or nothing |
| `Gitiles.LinearHolds` | go/gitiles/gitiles.go:635-687 | LogLinear returns exactly the commits on the way along first parents to the first commit with `from` among its parents |
| `Gitiles.LinearWithinFirstParent` | go/gitiles/gitiles.go:619-687 | with the log starting at `to`, every commit returned by LogLinear is returned by LogFirstParent |
| `Gitiles.LinearIsThePath` | go/gitiles/gitiles.go:619-687 | if commits are listed once and before their first parents, LogLinear returns the direct path itself, a prefix of what LogFirstParent returns |
| `Gitiles.NewestFirstIsRanked` | go/gitiles/gitiles.go:606-616 | such a log is acyclic |
| `Decimation.ProtectedByPrefix` | go/buildskia/continuous.go:345-371 | the protected prefix depends only on the month-spaced builds and grows with them |
| `Decimation.ThirtyDaysApart` | go/buildskia/continuous.go:345-371 | thirty days between two builds protect, a nanosecond less does not |
| `Decimation.RoundPartitions` | go/buildskia/continuous.go:369-389 | a round sorts every position into kept and removed, both in order |
| `Decimation.RoundConserves` | go/buildskia/continuous.go:369-389 | kept and removed together are the list, repetitions included |
| `Decimation.RoundSpares` | go/buildskia/continuous.go:369-389 | never two neighbours, never the newest, never a protected build; n fresh builds become n/2 + 1 when n reaches the limit |
| `Decimation.FindOldiesEnd` | go/buildskia/continuous.go:350-367 | where the month-spaced prefix ends, failing exactly if its walk meets an unknown commit |
| `Decimation.Alternate` | go/buildskia/continuous.go:380-386 | even positions are kept, odd ones removed |
| `Decimation.Decimate` | go/buildskia/continuous.go:342-390 | a round's lists, failing exactly if the walk meets an unknown commit |
| `Decimation.HistoryKeeps` | go/buildskia/continuous.go:205-390 | over any history of builds and rounds the protected prefix only grows, builds are conserved, and the newest build stays listed last |
| `Decimation.OnceSplits` | go/buildskia/continuous.go:318-329 | hashes listed once are not both kept and removed |
| `Decimation.RoundSafeIff` | go/buildskia/continuous.go:318-329 | no kept build's checkout is removed if and only if no hash is at both a dropped and a kept position |
| `Decimation.ForcedRebuildLosesCheckout` | go/buildskia/continuous.go:160-329 | from a usable list with all times known, a forced rebuild lists a hash twice and the next round removes the checkout of that build while it stays listed |
| `Decimation.RebuildAndDecimate` | go/buildskia/continuous.go:160-329 | the same done with a builder: a listed build without a checkout |
| `Decimation.ContinuousBuilder.BuildLatestSkia` | go/buildskia/continuous.go:160-217 | when a build is listed, checked out and written; unforced builds keep every listed build usable |
| `Decimation.ContinuousBuilder.DecimationRound` | go/buildskia/continuous.go:282-329 | list, file and checkouts after a round; protected builds, the newest and usability are kept |
| `Decimation.RemoveAll` | go/buildskia/continuous.go:318-325 | exactly the removable checkouts of the removed builds go |
| `Counters.RemoveFirstTakesOne` | go/counters/counters.go:102-107 | removing the first occurrence takes away exactly one, or nothing |
| `Counters.PersistentAutoDecrementCounter.Write` | go/counters/counters.go:80-84 | the file becomes the times, or stays |
| `Counters.PersistentAutoDecrementCounter.StartTimers` | go/counters/counters.go:68-75 | one timer for each time held |
| `Counters.PersistentAutoDecrementCounter.Inc` | go/counters/counters.go:87-96 | one more time and one more timer, kept even if the write fails |
| `Counters.PersistentAutoDecrementCounter.Dec` | go/counters/counters.go:99-110 | takes away the first occurrence of the timer's time and writes, or does neither |
| `Counters.PersistentAutoDecrementCounter.Reset` | go/counters/counters.go:127-133 | empties the times; timers stay |
| `Counters.PersistentAutoDecrementCounter.Get` | go/counters/counters.go:120-124 | at least the unexpired increments since the last reset, at most the timers pending, and exactly the former when no timer is overdue |
| `Counters.NewPersistentAutoDecrementCounter` | go/counters/counters.go:53-77 | a counter with the file's times and a timer for each, or none if reading or writing fails |
| `Counters.AlwaysTimed` | go/counters/counters.go:53-133 | in every history, failed writes included, each time is held no more often than it has timers |
| `Counters.TimedExactly` | go/counters/counters.go:53-110 | without resets exactly as often |
| `Counters.AlwaysDurable` | go/counters/counters.go:53-133 | in every history with successful writes the file equals memory and holds every expiry still to come |
| `Counters.CountIsBounded` | go/counters/counters.go:120-124 | in every durable state the times held lie between the unexpired increments and the pending timers, and are exactly the former when no timer is overdue |
| `Counters.CountsTheUnexpired` | go/counters/counters.go:53-133 | across restarts the count lies between the unexpired increments since the last reset and the pending timers; whenever no timer is overdue it is exactly the former; with no timer left it is zero |
| `Counters.CanDrain` | go/counters/counters.go:99-110 | from any state the timers can all fire, and the count is then zero |
| `PkgDataWriter.PiecesSpell` | go/imports/imports.go:68-94 | the pieces spell the stream up to the last cut |
| `PkgDataWriter.BoundariesAreCuts` | go/imports/imports.go:69-70 | pieces end exactly at the positions after a marker that have a later byte |
| `PkgDataWriter.PiecesOfLonger` | go/imports/imports.go:61-62 | what is cut from a stream is cut from every longer one |
| `PkgDataWriter.MarkerInBuffer` | go/imports/imports.go:69-70 | no marker straddles an earlier cut, so looking inside the buffer finds every marker |
| `PkgDataWriter.ScanIsRight` | go/imports/imports.go:68-91 | a scan resumed at any point hands out exactly the remaining pieces, or stops before the first that does not decode |
| `PkgDataWriter.ChunksDoNotMatter` | go/imports/imports.go:55-95 | however the bytes are cut into writes, the callback gets the same pieces, up to the first that does not decode, and pieces plus buffer spell all bytes |
| `PkgDataWriter.FailedWriteAccounts` | go/imports/imports.go:75-84 | after a failed write the bytes reported as read are accounted for if and only if nothing was buffered before it or the first piece it comes to does not decode |
| `PkgDataWriter.FailedWriteRepeats` | go/imports/imports.go:75-84 | a buffered piece handed out by a failing write is still in the buffer |
| `PkgDataWriter.FailsAtFirstIff` | go/imports/imports.go:68-84 | a failing scan hands out nothing exactly if the first piece it comes to does not decode |
| `PkgDataWriter.Splitter.Write` | go/imports/imports.go:55-95 | buffer, total, pieces and the returned count of one write |
| `CsvMerge.SortIsStable` | ct/py/csv_comparer.py:111-121 | sorting orders the rows by page and keeps each page's rows in file order |
| `CsvMerge.CollectNames` | ct/py/csv_comparer.py:126-134 | the pages of the first file |
| `CsvMerge.NoEarlyStopIff` | ct/py/csv_comparer.py:155-168 | on sorted files the walk is not cut short if and only if no page of the first file occurs more often in the second |
| `CsvMerge.PairsByPage` | ct/py/csv_comparer.py:155-168 | then a page's k-th row in the second file meets its k-th row in the first |
| `CsvMerge.EarlyStopLosesRest` | ct/py/csv_comparer.py:163-168 | otherwise the rows before the first one in excess are paired as if the file ended there, and the others are lost |
| `CsvMerge.ComparePairs` | ct/py/csv_comparer.py:126-168 | the same three facts for any two unsorted files |
| `CsvMerge.UniquePagesPairOnce` | ct/py/csv_comparer.py:126-168 | unique pages in the second file: exactly the pages in both are paired, once each |
| `CsvComparer.TallyKeeps` | ct/py/csv_comparer.py:191-221 | one more value keeps totals and listed pages equal to sums and selections of the values so far |
| `CsvComparer.EntryIs` | ct/py/csv_comparer.py:170-196 | a pair of rows has an entry for a column exactly if both cells show a number, a dash being zero: these, and their difference in percent of the mean |
| `CsvComparer.AllEntriesHold` | ct/py/csv_comparer.py:153-196 | the entries collected are exactly those of the pairs and columns |
| `CsvComparer.OneEntryPerPair` | ct/py/csv_comparer.py:153-196 | each pair counts once for each column, in order |
| `CsvComparer.PercentageDiffIs` | ct/py/csv_comparer.py:29-33 | the percentage difference is the one solution of d * (v1 + v2) = 200 * (v2 - v1), or zero for a mean of zero |
| `CsvComparer.PercentageChangeIs` | ct/py/csv_comparer.py:36-39 | the percentage change is the one solution of (100 + c) * v1 = 100 * v2, or zero for v1 = 0 |
| `CsvComparer.OutliersSplitIff` | ct/py/csv_comparer.py:238-245 | the three slices split the list if and only if the ends do not overlap; with a count of zero everything is discarded |
| `CsvComparer.SortDescSorts` | ct/py/csv_comparer.py:235-236 | sorting gives a descending permutation |
| `CsvComparer.OutliersNumIs` | ct/py/csv_comparer.py:239-240 | the number of outliers is the whole part of pages times percentage, cut toward zero |
| `CsvComparer.OutliersAreExtreme` | ct/py/csv_comparer.py:239-245 | discarded top pages differ at least as much as the kept ones, and these as the discarded bottom ones |
| `CsvComparer.RemainingIsConserved` | ct/py/csv_comparer.py:246-249 | without overlap the totals are those of the pages not listed and the pages kept |
| `CsvComparer.OverlapIsTakenTwice` | ct/py/csv_comparer.py:246-249 | with overlap nothing is kept and the overlap is subtracted twice |
| `CsvComparer.SmallPercentageTakesAll` | ct/py/csv_comparer.py:240-245 | a percentage that amounts to no page discards all pages; the field is reported if and only if the minimum of pages is at most zero and the unlisted pages differ enough together |
| `CsvComparer.EmptyFieldIsReported` | ct/py/csv_comparer.py:240-269 | with threshold and minimum zero a field is reported with no page left |
| `CsvComparer.TakeOut` | ct/py/csv_comparer.py:246-249 | the totals less the sums of the discarded pages |
| `CsvComparer.Conclude` | ct/py/csv_comparer.py:228-269 | totals, pages and discards of one field after the final loop |
| `CsvComparer.PublishedMeans` | ct/py/csv_comparer.py:228-284 | a line of the report: totals less the discarded pages, percentages that solve their equations, a difference at or above the threshold, and enough pages, each at or above it, greatest difference first |
| `CsvComparer.NextPair` | ct/py/csv_comparer.py:155-168 | moves the first reader past the matching row, or finds that the walk is over |
| `CsvComparer.Comparer.Record` | ct/py/csv_comparer.py:191-221 | totals and listed pages after one more value |
| `CsvComparer.Comparer.StorePair` | ct/py/csv_comparer.py:170-221 | all numeric fields of a pair are recorded, in field order |
| `CsvComparer.Comparer.Walk` | ct/py/csv_comparer.py:153-221 | exactly the values of the merge's pairs are recorded |
| `CsvComparer.Comparer.Finish` | ct/py/csv_comparer.py:228-269 | every field is concluded, in whatever order |
| `CsvComparer.Comparer.Publish` | ct/py/csv_comparer.py:271-284 | the closing assertion holds: pages and totals have the same fields |
| `CsvComparer.Comparer.Compare` | ct/py/csv_comparer.py:123-284 | the report has totals, pages and discards exactly for the fields that deserve it, computed from the entries of all pairs, which are given by equations on the cells |

## Left out

- User-defined `Equal` methods and unsafe field access in deep equality: foreign code. The fields of a struct copied because it is not addressable count as not addressable: the copy's addresses are new each time and never met again.
- DeepEqual.DeepEqual: requires that the comparison ends; when it does is the subject of `EndsWithoutCycle` and `EqualHasNoCycle`. Whether a comparison of unequal values with an unguarded cycle ends depends on which difference is met first.
- Re-entrant callbacks of the cache.
- AtomicMissConcurrent.KeyIsRegister: leaves out interleavings in which the key is also deleted or cleaned up, since an operation may then hold an entry that is no longer in the map; what each operation has done by itself is proved for all interleavings in `AtomicMissOutcome.ResultsAreEarned`.
- AtomicMissCache.KeyIsVariable: leaves out histories with cleanups; what these remove is said by `Cleanup` and `CleanupIsExactIff`.
- The channel between lexer and parser as such: the parser asks for an item, and the lexer runs until it has sent it. Error message texts and non-ASCII input are not modelled.
- CalcLexer.Lexer.Run: requires that it stops, that is, that nothing dangles or the last character is a dot; `LexerIsRightIff` proves that it does not stop on any other ASCII input, and `RunUntil` has no such condition.
- CalcParser.Parse: requires that the parser is not left waiting for an item; `ParserIsRight` says where it is not, and `ParserWaitsForever` proves that it does not return otherwise.
- The functions of go/calc/funcs.go: they compute with floating-point logarithms on vectors.
- Retry delays (`2^i` is exclusive-or), metrics, emulator checks and `BatchWrite` of the Firestore client; documents that change during a traversal.
- AndroidBuild.Info.Get: requires names without colons and a branch that is not the reserved last-build name; `FromToKey` and `ReservedCollides` show what goes wrong otherwise. Names with spaces are covered.
- Polling, LevelDB, JSON, HTTP and GCS: maps, sequences and chosen results stand for them. Failing database writes are not modelled.
- The assembly of URLs and query strings in `LogOptionsToQuery`, and commit records that cannot be converted.
- A decimation round that overlaps a build, and the slice that `append(oldies, ...)` overwrites in place: the list is a value, replaced in one step. Go's saturating time difference does not matter to the comparison with a month.
- Timers that fire while the counter's constructor is still looping, and clocks that go backwards. Times are exact numbers: the monotonic part that a restart drops is not modelled.
- `FindImportPaths` and `getPackageData` of go/imports/imports.go; JSON decoding is any predicate on byte strings.
- CSV file input and output, page set links, HTML output and floating-point rounding; values that are not finite numbers. A `min_pages_in_each_field` given on the command line stays a string, which Python 2 compares as greater than every number; the model takes a number.
- Clients of Gerrit, GitHub, GCE, Datastore and others, the web front ends and the small predicates of the repository: they would add only easy members.
