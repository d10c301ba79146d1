# zorkd, verified

zorkd hosts interactive fiction: it keeps players' games in a store, runs one turn of an opaque Z-machine per
request, and guards what a stranger can reach. This project models the parts of it whose correctness spans more
than one function, and proves what they promise. `dafny verify dfyconfig.toml` checks everything.

How the files follow the program:

| files | what they model |
|---|---|
| `GameStore`, `StoreAnswers`, `MemoryStore`, `Isolation` | the in-memory session store: as values, what each call answers and leaves, as the object with its maps and loops, and what one player's calls can see of another's |
| `Service`, `ServiceAnswers`, `GameService`, `SaveRestore` | the operations on a game served one at a time: as values, what each request is answered and leaves from record to record, as the object, and save/restore replay |
| `Locks` | the per-key mutex that keeps no entry nobody holds: the step-by-step protocol and the table itself |
| `Protocol`, `ProtocolSafety`, `ProtocolTheorems`, `ProtocolEnds`, `RestoredRuns`, `Screens` | any number of requests in any number of processes over one store, interleaved at every lock step, load, engine run and conditional write |
| `SerialSteps`, `SerialAsked`, `SerialMatch`, `SerialRuns`, `SerialMoves`, `SerialTheorem` | that the runs of one process are those of serving its requests one after the other |
| `Transcript` | the bounded scrollback |
| `Terminal`, `WrapTheorems` | greedy word wrapping |
| `Limiter`, `LimiterRuns`, `LimiterWindows`, `LimiterIdeal`, `LimiterTolerance` | the token-bucket rate limiter with pruning and a cap, its runs, how much a window lets through, the limiter that forgets nothing, and when the two can be told apart |
| `Invitations`, `InvitationAnswers`, `InvitationTables` | issuing, redeeming and sweeping invitations: interleaved runs, what each step stores and where accounts come from, and the tables updated in place |
| `Health`, `HealthTraces` | the database health probe, and what becomes of every answer it gets |
| `Base64`, `Base64Numbers`, `Password`, `PasswordGrammar` | the printed password hash, which strings are read as one, and what verifying one decides |
| `Text`, `Clock` | shared values, string functions and times |

Code that changes state in place appears twice: as a function from state to state, about which the theorems are
stated, and as a class or loop whose methods are proved equal to that function: on every input, except that saving and
restoring by name require a well-formed store, which every operation keeps. Where iteration order over a Go map decides,
the loops choose arbitrarily.

What those functions compute is stated once more without them, from the records before a call to the records after it:
`StoreAnswers`, `ServiceAnswers`, `InvitationAnswers`, `HealthTraces`, `PasswordGrammar`, `Base64Numbers`.

What the program calls and cannot be seen from here is a parameter: the engine, the story library, name folding
and quoting (`Service.World`); password hashing, address normalisation and token hashing (`Invitations.World`);
Argon2 (`Password.KeyFunction`); clock readings; random choices (`seed`). The only thing assumed of the engine is
`Service.EngineContract`, as `internal/game/session.go:50-52` and `301-308` rely on it: a halted story gives no state, a waiting
one gives some.

Four promises turned out to hold only under a condition, and the condition is proved exact:

- Incremental trimming of the transcript is not always the same as trimming the whole history once. When every append
  holds a newline, as every real one does, it differs exactly when lines were already lost and the kept text plus the
  last one fills the limit to the byte (`Transcript.DivergesExactlyWhen`); it then keeps one line more.
- The limiter overwrites the time a bucket was seen with a clock reading taken before its lock, so readings may go back.
  Attempts in a window are bounded by the window's length exactly when the clock cannot move forwards within it by more
  whole refill periods than it holds (`LimiterWindows.WindowBoundExactlyWhen`). The bound that always holds counts every
  step forwards (`LimiterRuns.AnyClockBound`).
- For the same reason a sweep can be noticed. Every run without evictions decides like the limiter that never forgets
  exactly when readings fall no further before the last sweep than a tolerance, which is nothing at all unless the cap is
  one (`LimiterTolerance.PruningIsInvisibleExactlyWhen`).
- After cancellation the health probe can still publish: exactly the one result that had passed its check of the context
  and was not stored yet (`Health.OnlyTheAcceptedIsPublished`, `Health.CancelThenPublished`).

## Model

| member | source | states |
|---|---|---|
| ProtocolTheorems.EveryRunReplays | internal/game/session.go:263-317 | in every interleaving of plays, saves, restores, restarts, deletes and new games by any number of processes, each stored session equals the sequential replay of the updates written to it, in order; its version is one more than their number; each save equals the replay at some earlier point of its game's log |
| ProtocolTheorems.NoLostUpdate | internal/game/memstore.go:72-90 | in every interleaving, a write that succeeds replaces exactly the session its request had loaded |
| ProtocolTheorems.OneProcessNeverConflicts | internal/game/session.go:279-316 | when one process serves all requests, the write after a successful load never meets a conflict or a missing session |
| ProtocolTheorems.TurnsAreAtomic | internal/game/session.go:391-431 | under one process a turn or restart leaves the store and answers the player as if the whole operation ran alone at the instant of its write |
| ProtocolTheorems.SavesAndRestoresAreAtomic | internal/game/saves.go:198-275 | under one process a save or restore hands back, and goes on to write into exactly its own game, what the whole operation run alone at the instant it touches the save would have (a restore by name once its save is found; SerialTheorem.EveryRunIsASequence covers it as asked) |
| SerialTheorem.EveryRunIsASequence | internal/game/session.go:239-262 | under one process every run is a sequence: there is an order in which each place belongs to the step that made the request served there, no step twice, of which, at every moment, a never shrinking prefix served one request after the other gives the stored games and saves (but for decided sessions still to be written, and timestamps), gives each request decided so far, each new game and each save deleted its own answer at its own place, and holds every request made so far that is not still undecided |
| SerialTheorem.QuietRunsAreServed | internal/game/session.go:263-317 | once everybody has left, the games, saves and identifier counters are those of serving exactly the requests made, each once, in some order from the empty store |
| SerialSteps.ServeAlike | internal/game/session.go:279-316 | an operation on a game answers the same on two stores that agree on that game, the saves and the counters, leaves them agreeing, and touches no other game |
| SerialAsked.AskedServes | internal/game/session.go:346-368 | under one process what is left of a restore by name, after its save was looked up, still does what the whole restore by name would |
| ProtocolTheorems.MismatchIsUnreachable | internal/game/saves.go:251-253 | in every interleaving no request is ever refused because a save belongs to another story |
| ProtocolTheorems.NoRunIsStuck | internal/game/session.go:499-524 | in every reachable state, for every request there is a request on the same game that can take a step; with no request left every lock table is empty |
| ProtocolEnds.EveryRunEnds | internal/game/session.go:499-524 | however it is scheduled, once nobody arrives any more the requests take at most eight steps each, and when none can take another all have left and every lock table is empty |
| ProtocolEnds.RunsExclude | internal/game/session.go:488-524 | in every run at most one request of a process is between the acquire and the release of a game's lock |
| ProtocolEnds.RunsKeepTablesExact | internal/game/session.go:488-498 | in every run a process's table holds a game exactly while a request of it is in line for it, and all in line hold its one entry, whose count is their number |
| ProtocolSafety.CommitReplacesWhatItRead | internal/game/memstore.go:76-83 | the version check succeeding implies the stored session is the one that was loaded, since versions count the log |
| ProtocolSafety.StepKeepsInv | internal/game/session.go:263-317 | every step of every request keeps the invariant tying store, logs, requests in flight and locks |
| ProtocolSafety.RunKeepsInv | internal/game/session.go:391-431 | and so does every run |
| Protocol.ReplayOfPrefix | internal/game/saves.go:255-267 | what is written later does not change what an earlier point of the log replays to, so a restore may name a point of its own log |
| Protocol.ReplayIdentity | internal/game/memstore.go:86-88 | replay keeps a game's identifier, owner and story, and every entry moves the version by exactly one |
| Screens.RestartIsANewGame | internal/game/session.go:370-431 | a restart answers exactly as a new game of that story would, and stores the same session but for identifier and version |
| Screens.StoredScreens | internal/game/transcript.go:17-51 | in every interleaving, a stored screen is the screen at any earlier point of its log since which there were only turns and saves, with everything since appended and trimmed once (or the exact-fit suffix), and the turn counter moved by the number of turns |
| Screens.ScreenOverStretch | internal/game/session.go:304-308 | over turns and saves the replayed screen is the incremental trimming of what they print |
| Locks.RegisterKeepsSound | internal/game/session.go:500-510 | registering keeps the table, the counts and the pointers consistent |
| Locks.AcquireKeepsSound | internal/game/session.go:512 | acquiring an entry keeps them consistent |
| Locks.ReleaseKeepsSound | internal/game/session.go:514-515 | releasing it does |
| Locks.LeaveKeepsSound | internal/game/session.go:517-522 | counting out, and dropping the entry at zero, does, although the entry may be re-created later |
| Locks.MutualExclusion | internal/game/session.go:488-524 | at most one request is between the acquire and the release of a key |
| Locks.OneEntryPerKey | internal/game/session.go:494-497 | all registered on a key hold the same entry, whose count is their number |
| Locks.TableIsExact | internal/game/session.go:488-492 | the table holds a key exactly while somebody is registered on it, and is empty once all have left |
| Locks.NoDeadlock | internal/game/session.go:499-524 | a registered request can step, or another on the same key can release |
| Locks.KeyedMutex.Enter | internal/game/session.go:500-510 | everybody entering on a key gets the one entry the table holds, made fresh only when the key is absent |
| Locks.KeyedMutex.Exit | internal/game/session.go:517-522 | whoever was given an entry finds the table still holding it under that key; the key is dropped exactly when nobody else was given it |
| GameServices.GameService.NewGame | internal/game/session.go:209-237 | the field-by-field method leaves the store and answers as the specification `Serve` says, on every input |
| GameServices.GameService.Play | internal/game/session.go:279-316 | the same for a turn |
| GameServices.GameService.Restart | internal/game/session.go:391-431 | the same for a restart |
| GameServices.GameService.Save | internal/game/saves.go:198-237 | the same for a save, notice included |
| GameServices.GameService.Restore | internal/game/saves.go:241-275 | the same for a restore, with the save it came from |
| GameServices.GameService.RestoreNamed | internal/game/session.go:346-368 | the same for a restore by name: whichever save the search meets first is the only one of that name |
| GameServices.GameService.FindSave | internal/game/saves.go:278-285 | finds a save of that name exactly when there is one |
| GameServices.GameService.Delete | internal/game/session.go:456-468 | the same for a delete |
| GameServices.GameService.DeleteSave | internal/game/saves.go:181-191 | the same for deleting a save, with the save that went |
| Service.ServeKeepsGood | internal/game/saves.go:198-275 | every operation keeps: a game is halted exactly when stateless; each save has state, belongs to an existing game of the same owner and story; at most one save per folded name and 20 per game. No operation served alone meets a conflict or a story mismatch |
| ServiceAnswers.PlayAnswers | internal/game/session.go:279-316 | a turn that is let through hands the engine the game's own story and state and the command as typed; an engine failure changes nothing; otherwise the answer and the stored session have the engine's state, status and halted flag, the next turn and version, and the screen with command, newline and output appended and trimmed to 65536 bytes; nothing else changes but its timestamp |
| ServiceAnswers.PlayIsRefused | internal/game/session.go:263-294 | and each refusal, in order: no user, a game not theirs, a game over, a story not in the library, a command over 256 bytes; none changes anything |
| ServiceAnswers.EngineIsNotAsked | internal/game/turn.go:150-158 | whatever is stored, a turn without a state or with a command over 256 bytes fails without the engine |
| ServiceAnswers.RestartAnswers | internal/game/session.go:391-431 | a restart starts the game's own story, halted or not, and stores the opening at turn 0 and the next version; every refusal changes nothing |
| ServiceAnswers.NewGameAnswers | internal/game/session.go:209-237 | a new game gets the next number, never used before, and is stored at version 1 as the story opened; every refusal changes nothing |
| ServiceAnswers.SaveReplaces | internal/game/saves.go:198-237 | a save called like one the game has, up to case, replaces that one under its identifier however many are held, says so in the answer and on the screen, and changes nothing else |
| ServiceAnswers.SaveAddsOne | internal/game/saves.go:198-237 | a save under a new name is written under the next number exactly when fewer than 20 are held, and is otherwise refused with nothing written |
| ServiceAnswers.SaveIsRefused | internal/game/saves.go:198-208 | no user, a game not theirs and a game that is over are refused, with nothing written |
| ServiceAnswers.RestoreAnswers | internal/game/saves.go:241-275 | a restore answers and stores the save's state, status and turn, un-halted, the save's screen with the notice, and the next version; nothing else changes but the timestamp |
| ServiceAnswers.RestoreIsRefused | internal/game/saves.go:241-250 | no user, a game not theirs and a save that is not that game's are refused |
| ServiceAnswers.OtherStoryIsRefused | internal/game/saves.go:251-253 | whatever is stored, a save of another story is refused and nothing written |
| ServiceAnswers.RestoreNamedAnswers | internal/game/session.go:346-368 | a restore by name is the restore of the save so called up to case, and is refused when there is none |
| ServiceAnswers.DeleteGameAnswers | internal/game/session.go:456-468 | after its owner deletes a game the game, its timestamp and every save of it are gone and everything else is as it was; anybody else is told it is missing and nothing changes |
| ServiceAnswers.DeleteSaveAnswers | internal/game/saves.go:181-191 | after the owner deletes a save that save is gone, everything else is as it was, and the answer tells what went |
| SaveRestore.SaveThenRestoreReplays | internal/game/saves.go:198-275 | save, then anything that leaves that save in place, then restore, each served whole: the game has the saved State, Status and Turn, is not halted, shows the saved screen with a notice, and any commands play out as they would have at the save |
| RestoredRuns.RestoresReplayInEveryRun | internal/game/saves.go:241-275 | in every interleaving of any number of processes, a restore in a game's log takes State, Status, Turn and Halted back to the point its save was taken, un-halted and with a state to play on from, and they stay equal for as long as the entries that follow are those that followed the save |
| SaveRestore.ServeAllKeepsSave | internal/game/session.go:379-382 | turns, restarts, restores, other saves, other games and other players never touch a save |
| SaveRestore.SaveRecords | internal/game/saves.go:198-237 | a successful save records the game as it stands and leaves everything but its screen and version alone |
| SaveRestore.RestoreByNameFindsIt | internal/game/session.go:346-368 | restoring by a name equal up to case is restoring that save |
| SaveRestore.SameFuture | internal/game/session.go:263-317 | two stores agreeing on a game's state, status, turn and halted flag play the same commands to the same result |
| GameStore.CreateKeepsWellFormed | internal/game/memstore.go:36-52 | creating keeps the store well formed and never reuses an identifier |
| GameStore.UpdateKeepsWellFormed | internal/game/memstore.go:72-90 | a conditional write keeps the store well formed |
| GameStore.DeleteKeepsWellFormed | internal/game/memstore.go:127-146 | deleting a game strands no save |
| GameStore.CreateSaveKeepsWellFormed | internal/game/memstore.go:150-184 | saving keeps names distinct and counts within the limit; it reports a replacement exactly when the identifier was already in use |
| GameStore.DeleteSaveKeepsWellFormed | internal/game/memstore.go:230-245 | deleting a save keeps the store well formed |
| GameStore.AtMostOneNamed | internal/game/memstore.go:160-167 | the save found under a name does not depend on iteration order |
| GameStore.CreateSavePuts | internal/game/memstore.go:150-184 | a successful save writes one record and nothing else; a refused one writes nothing |
| StoreAnswers.CreateAnswers | internal/game/memstore.go:36-52 | a created session is stored under the next decimal number, unused, at version 1, stamped now; without a user nothing is |
| StoreAnswers.UpdateAnswers | internal/game/memstore.go:72-90 | a write goes through exactly when the stored session has the carrier's user and version; another user's reads as missing, another version as a conflict |
| StoreAnswers.ListAnswers | internal/game/memstore.go:93-120 | the listing holds exactly the user's games, each with its stored story, turn, halted flag and timestamp |
| StoreAnswers.DeleteAnswers | internal/game/memstore.go:127-146 | a deleted game is in no map any more, no save of it is left, and every other session, timestamp and save is as it was |
| StoreAnswers.CreateSaveWrites | internal/game/memstore.go:150-184 | a save that succeeds writes what it was given, stamped now, under one identifier; one that fails writes nothing; a game not the user's fails as missing |
| StoreAnswers.SameNameReplaces | internal/game/memstore.go:158-167 | a save called like one the game has, up to case, always succeeds, under that one's identifier, and reports a replacement |
| StoreAnswers.NewNameNeedsRoom | internal/game/memstore.go:169-183 | under a new name a save succeeds, under the next number, exactly while fewer than 20 are held |
| StoreAnswers.SavesAnswers | internal/game/memstore.go:187-211 | the listing holds exactly the game's saves, each with its stored name, turn and time |
| StoreAnswers.OneSaveAnswers | internal/game/memstore.go:214-245 | a save is read and deleted only by its game's owner and through its own game; deleting it removes it and nothing else |
| MemoryStores.MemoryStore.Create | internal/game/memstore.go:36-52 | the maps after the call, and the answer, are those of the specification |
| MemoryStores.MemoryStore.Update | internal/game/memstore.go:72-90 | writes at the next version exactly when the stored version is the one carried |
| MemoryStores.MemoryStore.List | internal/game/memstore.go:93-120 | the loop collects exactly the user's games |
| MemoryStores.MemoryStore.Delete | internal/game/memstore.go:127-146 | the loop removes exactly the game's saves along with the game |
| MemoryStores.MemoryStore.FindNamed | internal/game/memstore.go:160-167 | finds a save of the game under that name exactly when there is one |
| MemoryStores.MemoryStore.CountHeld | internal/game/memstore.go:169-174 | counts the game's saves |
| MemoryStores.MemoryStore.CreateSave | internal/game/memstore.go:150-184 | on a well-formed store the two loops do what the specification says, whatever the iteration order |
| MemoryStores.MemoryStore.Saves | internal/game/memstore.go:187-211 | the loop collects exactly the game's saves |
| MemoryStores.MemoryStore.DeleteSave | internal/game/memstore.go:230-245 | removes exactly that save and returns its summary |
| Isolation.OwnSequencesAgree | internal/game/memstore.go:93-256 | in two stores that agree on a user's games, saves and on the counters, any sequence of that user's calls gets the same answers and leaves stores that still agree |
| Isolation.OtherSequencesAreInvisible | internal/game/memstore.go:59-90 | no sequence of other users' calls changes a user's games or saves |
| Isolation.OwnCallAgrees | internal/game/memstore.go:36-256 | one call of the user on stores that look the same to that user: the same answer and stores that still look the same, given the same number if it draws one |
| Isolation.InterleavedCallsAgree | internal/game/memstore.go:59-256 | in two runs where a user makes the same calls, in between whatever different calls of everybody else, the user gets the same answers and the same view, provided each game and each save the user creates draws the same number |
| Isolation.OwnCallsAgree | internal/game/memstore.go:250-256 | one call of the user: the same answer and agreeing stores |
| Isolation.OtherCallsAreInvisible | internal/game/memstore.go:250-256 | one call of somebody else changes nothing of the user's |
| Transcript.TrimKeepsTheLongestAlignedSuffix | internal/game/transcript.go:57-69 | what fits is kept whole; a cut at a newline keeps the longest line-aligned suffix strictly shorter than the limit; with no newline in reach the last `limit` bytes stay |
| Transcript.AppendKeepsAgreement | internal/game/transcript.go:57-69 | one append keeps the trimmed transcript in agreement with the untrimmed history |
| Transcript.IncrementalTrimming | internal/game/transcript.go:17-69 | after any number of appends the transcript is the whole history trimmed once, or a line-aligned suffix of it of exactly limit bytes |
| Transcript.DivergesExactlyWhen | internal/game/transcript.go:17-69 | over any number of appends that each hold a newline, exactly when the incrementally trimmed transcript is not the whole history trimmed once: lines were already lost, and what was kept plus the last text fills the limit to the byte |
| Transcript.DivergenceHappens | internal/game/transcript.go:57-69 | at every limit from three bytes up, an opening and two exchanges after which the two differ |
| Transcript.ExchangeLines | internal/game/transcript.go:17-34 | on the screen the command goes on the line of the prompt, and the output starts on the next line |
| Transcript.NoticeLines | internal/game/transcript.go:40-51 | a notice puts the echo on the line of the prompt, then the message in brackets, an empty line and a new prompt |
| Terminal.WrapLineImpl | internal/terminal/terminal.go:145-200 | the line is left alone or its words are filled into lines: exactly the greedy layout of its words and gaps |
| Terminal.FillLines | internal/terminal/terminal.go:157-200 | the loop writes exactly the greedy layout of the words it is given, first word first |
| Terminal.WrapImpl | internal/terminal/terminal.go:132-143 | every line of the text is folded, and nothing else changes |
| Terminal.FirstWord | internal/terminal/terminal.go:163-176 | the gap, the word and what follows are the text; the word is not empty and holds no blank, the gap nothing else, and what follows starts with a blank |
| Terminal.ParseIsExact | internal/terminal/terminal.go:163-176 | the line is recovered from its gaps, words and trailing blanks |
| Terminal.ParseIsSeparated | internal/terminal/terminal.go:163-176 | words hold no blanks, gaps nothing else, and every word after the first follows a real gap |
| Terminal.GapsAndWords | internal/terminal/terminal.go:163-176 | gaps and trailing blanks are spaces and tabs, words hold neither |
| Terminal.IndentIsLeadingBlanks | internal/terminal/terminal.go:150-152 | the indent is every space and tab the line starts with |
| Terminal.RemainingIsPending | internal/terminal/terminal.go:163-196 | the loop's running output is the joined layout of the unread words |
| WrapTheorems.WrapIsOptimal | internal/terminal/terminal.go:145-200 | with the indent narrower than the width, no way of breaking the line at its gaps into pieces that fit or are one word uses fewer lines |
| WrapTheorems.WrapFits | internal/terminal/terminal.go:145-200 | every output line keeps the indent and, less trailing blanks, fits or is one word |
| WrapTheorems.WrapOnlyReplacesGaps | internal/terminal/terminal.go:188-195 | wrapping only replaces some non-empty gaps by a newline and the indent; without those breaks the same pieces give the line back |
| WrapTheorems.LeftAlone | internal/terminal/terminal.go:145-155 | exactly which lines come out unchanged |
| WrapTheorems.WrapLeavesAlone | internal/terminal/terminal.go:129-155 | a text comes out unchanged exactly when there is no width to fold to, or every line of it fits less its trailing blanks, is one word, or is indented by the whole width |
| WrapTheorems.WrapIsIdempotent | internal/terminal/terminal.go:132-143 | wrapping the wrapped text again changes nothing |
| WrapTheorems.WrapKeepsTheWords | internal/terminal/terminal.go:118-131 | the text has the same words in the same order |
| Limiter.TokenBuckets.constructor | internal/httpserver/ratelimit.go:283-295 | a new limiter is empty and its cap is at least one |
| Limiter.TokenBuckets.Allow | internal/httpserver/ratelimit.go:301-326 | the decision, the wait and the new map are those of the specification for some legal eviction, and the bounds hold again |
| Limiter.TokenBuckets.Prune | internal/httpserver/ratelimit.go:350-374 | the sweep and the cap loop end; at most one bucket is evicted, a fullest one, and only when dropping full ones made no room |
| Limiter.TokenBuckets.DropFull | internal/httpserver/ratelimit.go:359-363 | exactly the full buckets go |
| Limiter.TokenBuckets.FindFullest | internal/httpserver/ratelimit.go:366-371 | the key found is a real one and no bucket has more |
| Limiter.AttemptLimit.Allow | internal/httpserver/ratelimit.go:65-74 | a refused source leaves the address's limiter as it was; an allowed one leaves the decision to it |
| Limiter.AllowKeepsBounds | internal/httpserver/ratelimit.go:301-326 | balances in [0, burst], the map within its cap, the arriving key tracked, the evicted one no emptier than any survivor |
| LimiterRuns.EveryRunIsBounded | internal/httpserver/ratelimit.go:301-374 | those bounds in every state a new limiter can reach, whatever the clock reads |
| LimiterRuns.BalanceMoves | internal/httpserver/ratelimit.go:329-335 | looking at a balance later gains at most the time between and loses nothing: a full bucket and a forgotten one are the same from then on |
| LimiterRuns.StepBalances | internal/httpserver/ratelimit.go:301-374 | an attempt moves no balance but its own key's, and an evicted one's to full |
| LimiterIdeal.PruningIsInvisible | internal/httpserver/ratelimit.go:337-349 | while the cap evicts nobody and no reading falls before the last sweep, every decision and wait equals that of a limiter that never forgets a key |
| LimiterTolerance.PruningIsInvisibleExactlyWhen | internal/httpserver/ratelimit.go:350-374 | for every burst, refill and cap, that equality holds of every run without evictions whose readings fall at most `slack` before the last sweep, if and only if slack is within a tolerance: none with room for two keys; with a cap of one, twice the refill or a full burst less a refill plus a nanosecond, whichever is less |
| LimiterIdeal.MonotoneIsCalm | internal/httpserver/ratelimit.go:302-358 | readings that never decrease never fall before a sweep |
| LimiterRuns.CreditIsConserved | internal/httpserver/ratelimit.go:301-374 | whatever the clock reads: what is left plus what was spent is at most what there was plus what came in, the clock's forward moves and a full bucket per eviction |
| LimiterRuns.AnyClockBound | internal/httpserver/ratelimit.go:301-335 | whatever the clock reads: attempts allowed one key are at most burst × (1 + its evictions) + ⌊sum of the clock's forward steps / refill⌋ |
| LimiterRuns.AllowanceIs | internal/httpserver/ratelimit.go:329-335 | the allowance these bounds speak of is burst × (1 + evictions) + ⌊span / refill⌋ |
| LimiterWindows.WindowBoundExactlyWhen | internal/httpserver/ratelimit.go:301-335 | the attempts allowed one key by every run whose readings in a window [from, to] move forwards by at most F number at most burst × (1 + its evictions) + ⌊(to − from) / refill⌋, if and only if from = to or ⌊F / refill⌋ ≤ ⌊(to − from) / refill⌋ |
| LimiterWindows.WindowBound | internal/httpserver/ratelimit.go:301-374 | so it holds of readings that never decrease |
| LimiterWindows.BackwardClockEarnsAgain | internal/httpserver/ratelimit.go:302-316 | for every burst, refill, cap and n, a run without evictions that stays within a nanosecond, moves forwards by n, and is allowed burst + ⌊n / refill⌋ attempts |
| LimiterRuns.WaitUnderAnyClock | internal/httpserver/ratelimit.go:318-325 | whatever the clock reads, the wait lies in (0, refill]; the first attempt at or after it is allowed, whatever came between; until the clock has moved forwards by it an attempt is refused unless the key was evicted, with a new wait between what the clock and what the forward moves leave |
| LimiterRuns.WaitIsExact | internal/httpserver/ratelimit.go:318-325 | with readings that never decrease an attempt before the wait is over is refused with exactly what remains, unless the key was evicted; one at or after it is allowed |
| LimiterRuns.RetryAfterIsLeast | internal/httpserver/auth.go:194-200 | the least positive whole number of seconds covering the wait |
| Invitations.AccountsAreInvited | internal/database/invitations.go:95-170 | in every interleaving each account made by an invitation has the invited address, no two invitations made one account, no address has two |
| Invitations.RedemptionIsSettledOnce | internal/invite/invite.go:197-244 | a redemption past its lookup succeeds exactly when the invitation is still there, has made no account and the address is free; a refusal changes nothing |
| Invitations.CreatedIsFinal | internal/database/invitations.go:86-94 | an invitation makes at most one account, for good |
| Invitations.InvitationsLastLongEnough | internal/invite/invite.go:246-261 | an invitation stays until a sweep after its expiry, a redeemed one until a sweep more than the TTL after its redemption |
| Invitations.SweepIsSafe | internal/database/invitations.go:177-194 | a sweep keeps every invitation redeemable now or later and every one redeemed within the TTL, and removes the rest |
| Invitations.StepKeepsInv | internal/invite/invite.go:197-261 | issuing, looking up, redeeming, registering and sweeping keep the invariant behind these |
| InvitationAnswers.EveryAccountHasItsSource | internal/invite/invite.go:197-244 | in every interleaving each stored account was registered without an invitation with its address and hash, or is the account of an invitation whose token was looked up in that run with an address that normalises to its own and a password that hashes to the hash it keeps |
| InvitationAnswers.LookUpAnswers | internal/invite/invite.go:197-228 | a lookup goes on exactly when the token is not empty, its row is there, unspent and not expired, the address normalises to the invited one and the password can be hashed; it carries that hash; which error is given otherwise |
| InvitationAnswers.TransactAnswers | internal/database/invitations.go:95-170 | a redemption that goes through stores and answers one new account with the address and hash the lookup carried, and marks the row with it; nothing else changes |
| InvitationAnswers.TransactIsRefused | internal/database/invitations.go:95-170 | it is refused exactly when the row is gone, spent, expired or for another address, or else the address has an account; and then stores nothing |
| InvitationAnswers.IssueAnswers | internal/invite/invite.go:139-158 | issuing stores one unspent row for the normalised address that expires one TTL from now, or nothing for an address that does not normalise |
| InvitationAnswers.CreateInvitationAnswers | internal/database/invitations.go:28-43 | the table takes one row for a token hash and refuses a second |
| InvitationAnswers.SweepAnswers | internal/invite/invite.go:253-261 | a sweep removes exactly the unspent rows past their expiry and the spent ones more than a TTL past their redemption |
| InvitationTables.Database.CreateInvitation | internal/database/invitations.go:28-43 | stores the invitation unless its token hash is already there |
| InvitationTables.Database.Redeem | internal/database/invitations.go:95-170 | insert-then-mark leaves the tables and answers as the one-step specification says; the conditional mark always changes its one row |
| InvitationTables.Database.MarkRedeemed | internal/database/invitations.go:156-166 | marks an unspent row and reports one change, otherwise changes nothing and reports none |
| InvitationTables.Database.DeleteSpentInvitations | internal/database/invitations.go:177-194 | removes exactly the spent rows and counts them |
| Health.EveryTraceIsSummarised | internal/httpserver/health.go:97-174 | in every trace the published snapshot is the summary of the results seen, at most one ping is out, and the loop returns only when cancelled with none out |
| Health.PublishExtendsSummary | internal/httpserver/health.go:145-171 | publishing one result keeps totals, the trailing failure run and the latest failure and success right |
| Health.OnlyTheAcceptedIsPublished | internal/httpserver/health.go:142-171 | after cancellation at most the one result that had already passed the check of the context is published, exactly when the loop goes on to store it, and no result received later ever is |
| Health.CancelThenPublished | internal/httpserver/health.go:145-170 | and that one can be: cancelled between the check and the store, the loop publishes a new snapshot after the caller has read the old one |
| Health.CancelledReturns | internal/httpserver/health.go:126-147 | once cancelled, under every schedule the loop goes through at most three events of its own plus two for each tick still picked, and until it has returned such an event is always to come |
| Health.HealthyExactlyWhen | internal/httpserver/health.go:81-87 | Healthy is read exactly when the latest result succeeded and is within the stale bound |
| HealthTraces.EveryAnswerIsAccountedFor | internal/httpserver/health.go:97-174 | in every trace a tick starts a ping exactly when none is out, and every answer, in order and with the time since its own start, was published, is underway, or was the last one of a loop that returned cancelled |
| HealthTraces.ReadingTells | internal/httpserver/health.go:81-87 | a reader is told the totals, times and error of everything published and, for a status, the latest result's or that it is more than 90 s old; before the first result only that nothing is known |
| HealthTraces.LoggedAsRead | internal/httpserver/health.go:119-171 | a tick logs the status a reader would be told, and a stored result its own |
| Health.Probe.Run | internal/httpserver/health.go:97-174 | under any schedule the loop ends where the event-by-event specification leads |
| Base64.DecodeOfEncode | internal/auth/password.go:103 | unpadded standard base64 (section 4 of RFC 4648, padding omitted as section 3.2 allows) gives every byte string back |
| Base64Numbers.EncodedNumber | internal/auth/password.go:103 | read as a number to base 64 the text is the bytes read as a number to base 256, filled with zero bits to a whole character |
| Base64Numbers.EncodedLength | internal/auth/password.go:103 | in as few characters as hold the bits |
| Base64Numbers.AlphabetIs | internal/auth/password.go:103 | the characters are those of table 1 of RFC 4648 |
| Base64Numbers.DecodedNumber | internal/auth/password.go:138-145 | what is read is the same number without the bits that fill no byte |
| Base64Numbers.DecodedExactlyWhen | internal/auth/password.go:138-145 | a string is read exactly when all but its line breaks is in the alphabet and leaves no character by itself |
| Password.DecodeOfPrint | internal/auth/password.go:69-148 | a printed hash parses exactly when no cost is zero and salt and key are non-empty, and then to the same costs, salt, key and their lengths |
| Password.DecodeAcceptsOnlyUsable | internal/auth/password.go:109-148 | whatever string is accepted, its costs are in range and its lengths those of what was decoded |
| Password.VerifyOfHash | internal/auth/password.go:69-100 | a hash made under any usable parameters decodes to them, its salt, and the key Argon2 derives from the password with that salt and those costs, and verifies exactly the passwords for which Argon2 gives that key |
| Password.VerifyExactlyWhen | internal/auth/password.go:88-100 | whatever string is kept, it lets in exactly those for whose password Argon2, with the salt, costs and key length read from it, gives its key |
| Password.HashedPasswordVerifies | internal/auth/password.go:62-67 | passwords of 8 to 1024 bytes are hashed with 9 MiB, four passes, one lane, and verify as above; others are refused as weak |
| PasswordGrammar.SixFieldsExactlyWhen | internal/auth/password.go:109-113 | a string splits into six fields, the first empty, exactly when it is five fields without a dollar sign, each after one |
| PasswordGrammar.OtherShapesAreMalformed | internal/auth/password.go:109-113 | any other string is malformed |
| PasswordGrammar.VersionIsRead | internal/auth/password.go:114-125 | another algorithm, an unreadable version and a version other than 19 are each refused, in that order |
| PasswordGrammar.FieldsAreRead | internal/auth/password.go:127-148 | then unreadable costs, a zero cost, an unreadable or empty salt, and key; what is left decodes to just those costs, salt, key and their lengths in 32 bits |
| PasswordGrammar.CostsExactlyWhen | internal/auth/password.go:127-130 | the costs are readable exactly as `m=`, `,t=`, `,p=` with numbers below 2^32, 2^32 and 2^8, blanks before a number and anything after the last ignored |
| PasswordGrammar.VersionExactlyWhen | internal/auth/password.go:118-121 | the version is readable exactly as `v=` and a number of 64 bits, signed or not, with anything after it ignored |
| PasswordGrammar.PrintedShape | internal/auth/password.go:77-79 | a printed hash is of that shape, with version 19 |
| PasswordGrammar.PrintedCosts | internal/auth/password.go:77-79 | its costs are memory, time and threads as plain numerals in that order |
| Password.ScanParamsOfPrint | internal/auth/password.go:128-131 | the printed cost field scans back to the costs |
| Text.SplitOfJoin | internal/auth/password.go:110 | splitting what was joined gives the parts back when none holds the separator |
| Text.FormatOfValue | internal/game/memstore.go:45 | an identifier is the one plain decimal numeral of its number |

## Left out

- LimiterRuns.AnyClockBound: exact arithmetic, because a balance is modelled as tokens × refill in whole nanoseconds; the source's float64 rounding and the saturation of `time.Time.Sub` are not modelled.
- MemoryStores.MemoryStore.List: the listing is a set; its order (newest first, ties by identifier as strings) is not modelled.
- MemoryStores.MemoryStore.Saves: the same.
- ProtocolEnds.EveryRunEnds: speaks of runs in which nobody arrives any more; that a waiting request is served while others keep arriving depends on the fairness of Go's mutexes and is not claimed.
- Health.CancelledReturns: a ping that never answers keeps the loop waiting; the ping's timeout is not modelled.
- Password.DecodeAcceptsOnlyUsable: `fmt.Sscanf` is modelled for blanks and tabs before a number only, not for other Unicode spaces.
- Screens.StoredScreens: one character stands for one byte, and the opening screen is kept untrimmed as the source keeps it.
- Integer widths: versions, turns, counters and identifiers are unbounded where the source has 64 bits; only the widths of the password hash fields are modelled.
- The SQLite session store, which differs from the in-memory one in identifier spelling, identifier reuse and case folding.
- The verb parser (`Interpret`), save-name cleaning and the questions asked for a bare SAVE, RESTORE or RESTART: requests arrive interpreted, with clean names.
- Reading requests with no hard property: `Games`, `Session`, `Invited`.
- Unicode case folding and `%q` quoting are parameters; names match when a folding function maps them to one string.
- A nil and an empty state are both the empty byte string, and the store's copying of byte slices is the value semantics of the model.
- Storage failures other than those named, and unreadable invitation rows; the rollback of `Redeem` is never reached, since the row is read and marked in one transaction.
- Invitation times are compared as numbers; the fixed-width UTC stamps they are stored as sort the same way.
- Token generation: a token is never issued twice. Account deletion does not exist in the source.
- Logging, and so the probe's log lines; its `lastLogged` variable is kept.
- The Z-machine, Argon2, SHA-256, HTTP handlers, templates, cookies, migrations, the browser interface and trusted-proxy parsing.
