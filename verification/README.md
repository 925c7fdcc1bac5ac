# Verified models of the Battletech MUX server core

Battletech MUX is a game server written in C around hand-made schedulers, stores and parsers: linked lists, buffers
rewritten in place and global counters. This project models eight of those parts in Dafny and proves what they are
for.

| part | files |
|---|---|
| timer wheel | `PointerLists`, `EventWheel` (the wheel as a state machine over lists), `TimerEffects` (what one operation does to which event), `TimerGuarantees` (what holds over every run), `EventHeap` (linked nodes) |
| command queue | `CommandQueue` (state machine), `QueueGuarantees` (what holds over every run), `QueueRequests` (what becomes of each command asked for), `CommandHeap` (linked blocks) |
| lock language | `Locks` (grammar and printer), `LockReaders` (who can read a printed lock), `LockParser`, `LockEval` (evaluator), `LockLaws` (what the parts of a lock mean), `LockVerdicts` (what verdicts depend on), `LockFile`, `LockStream` |
| flat file | `Decimal`, `FlatFile`, `ObjectRecord`, `DumpFile`, `DumpStream` |
| attribute store | `AttrCode`, `AttrStore` (coded lists and write-back buffer), `AttrArray` (sorted array) |
| sort and cipher | `SaneSort`, `Cipher` |
| line splitter | `Splitter` (reference), `Nesting` (the grammar it is proved against), `SplitterCode` (in place) |
| hash table and pools | `HashTable`, `BufferPool` |

Where the source changes things in place there are two layers: a value model, on which the properties over whole runs
are proved, and a class whose methods work on the fields, links and buffers of the source and are proved to do what
the value model does. Linked nodes live in a field-indexed memory: an address is a number, NULL is 0, a struct field is
a map from addresses.

What the environment does is an input. An event handler is an arbitrary list of timer operations for each event. A
command that do_top runs is an arbitrary list of queue operations. Whether a command may be queued, the time of day,
attribute tests in locks, the attribute tables, and the answers of comparison functions and of random() are parameters.

## What the code does, as opposed to what it says

- A bracket beyond the 32nd open one is not noted by parse_to, so a delimiter inside it cuts the line (`DepthExactly`).
- The wait loop of do_second looks as if it moved everything due; give_que clears the link the loop follows, so one
  pass moves one command (`PassesWakeOneEach`, `WakeLoop`).
- A time warp sets the time of every timed command to one and the same value instead of shifting it; order and counters
  survive (`WarpKeeps`).
- Queue counters stop being exact after halt-all and for commands of objects going away (`HaltAllExactness`,
  `GoingExactness`). Semaphore counters stop being exact after a wait that is refused, for want of money or for the
  quota, and after a notification without an attribute that takes a waiter, as the one destroy_obj makes; for every
  operation and for every run the condition is exact (`StaysExactIff`, `ExactThroughIff`).
- A lock with a cycle through a negation depends on the nesting limit (`NegatedCycleFlips`). Without a negated
  reference it does not, from the number of objects on (`LimitSettles`).
- Only God may name an attribute by its number in a lock; for anybody else such a lock is broken, and a broken lock is
  open. A dump parses every lock as God and writes names, so that a reload can shut out players who passed before: the
  lock "3:F" becomes "SEX:F" (`NumberedLockShuts`). Who is judged how after a reload is `ReloadVerdict`, and whose
  reading stays the same is `ReloadKeepsReading`.
- '/' is legal in attribute names, but a lock on such an attribute does not come back from a dump; which attribute locks
  come back, from the file and from the printed text, is exact (`AttrLockExactly`, `ReparseAttrExactly`,
  `SlashedNameMisread`).
- After a lock, getboolexp eats an empty line that belongs to the next field unless the lock ended with a newline of
  its own (`LockRoundTrip`). No field that can follow in an object record starts with a newline.
- db_write and db_read disagree on format words with V_ATRNAME and without V_GDBM, on words with neither V_QUOTED nor
  V_ATRNAME, and, in a panic, on words with V_GDBM; on all others they agree (`FormatsExactly`). A definition of a
  user-named attribute needs V_QUOTED (`VattrExactly`). The words the server uses are not of the failing kinds.
- Objects marked GOING and attributes whose number has no name are not in a dump; names are cut at MBUF_SIZE.
- In the MEMORY_BASED build atr_free leaves at_count as it was, so a walk started right afterwards follows a null
  pointer if the object had attributes, until the next atr_add_raw (`WalkAfterFree`, `AddAfterFree`).
- crunch_code says that it keeps only printable characters; its test is true of all (`CrunchCode`). A code with a
  character below the blank makes encryption lossy (`Cipher.RoundTrip`).

## Model

| member | source | states |
|---|---|---|
| TimerGuarantees.ExactFiring | event/event.c:91-185 | Over every run of adds, removals, ticks and by-type runs, with handlers that add and remove events while a slot is walked: an event never made a zombie is called exactly once, at tick T + max(1, d), also for d >= 70, and not before |
| TimerGuarantees.ZombiesAreReaped | event/event.c:166-262 | An event made a zombie at tick z is not called from then on and is off the lists by tick z + 70; it can have been called once before only in tick z itself |
| TimerGuarantees.ListsAgree | event/event.c:101-153 | After every run the main list, the per-type lists and the 70 slots hold the same events, each in slot due mod 70, apart from the free list, and scheduled = executed + zombies + pending |
| TimerGuarantees.HistoryIsKept | event/event.c:91-202 | Ticks, requests and journals only grow along a run: nothing that happened is revised |
| TimerGuarantees.AlwaysInv | event/event.c:91-202 | The full invariant of the wheel (lists, slots, life of each event) holds in every reachable state |
| TimerGuarantees.RemovalsHitExactly | event/event.c:219-262 | After every run, each of the four removals makes exactly those live events zombies whose own requests have the type, data and data2 it names; their journals gain one mark, and no other journal changes |
| TimerGuarantees.ByTypeExactly | event/event.c:187-202 | After every run, event_run_by_type calls each live event of the type once and marks it, in list order, unless a handler it called before removed it; zombies, other types and new events are not called, and the number returned is the number of calls |
| TimerGuarantees.ByTypeCalls | event/event.c:193-199 | For one live event of the type: its journal becomes one call and one mark of this tick, or an event called before it has a handler that removes it |
| TimerEffects.RequestExact | event/event.c:91-138 | event_add makes one live event with the type, data and data2 of its request, also in the middle of a slot walk; nothing else changes |
| TimerEffects.RemovalExact | event/event.c:219-262 | The same exactness for removals that handlers make in the middle of a slot walk |
| TimerEffects.PerformExact | event/event.c:176-179 | The operations of a handler remove exactly the events whose requests one of them names, and call none |
| TimerEffects.WalkTypeExact | event/event.c:187-202 | The walk over a type list from any state the invariant allows: who is called, who is marked, and why the others are not |
| TimerEffects.RanIsCalls | event/event.c:187-202 | The number returned is the number of calls the walk adds to the journals |
| EventWheel.ScheduleKeeps | event/event.c:91-138 | event_add keeps the invariant, in the middle of a slot walk as well |
| EventWheel.MarkKeeps | event/event.c:219-262 | Setting the zombie flag keeps the invariant, in the middle of a slot walk as well |
| EventWheel.DeleteKeeps | event/event.c:142-153 | event_delete keeps the invariant and takes the event off every list |
| EventWheel.WalkKeeps | event/event.c:166-185 | The walk over a slot with handlers that change the lists keeps the invariant |
| EventWheel.TurnKeeps | event/event.c:170-171 | Advancing the tick makes exactly the slot of the new tick the one to be walked |
| EventWheel.WalkTypeKeeps | event/event.c:187-202 | The walk of event_run_by_type keeps the invariant (what it calls and marks is TimerGuarantees.ByTypeExactly) |
| PointerLists.ChainDistinct | event/event.h:90-97 | A chain that ends never meets an address twice |
| PointerLists.ChainUnique | event/event.h:90-97 | Head and links determine the chain |
| PointerLists.AddToListHead | event/event.h:95 | ADD_TO_LIST_HEAD puts the node before the chain |
| PointerLists.RemoveFromList | event/event.h:90-91 | REMOVE_FROM_LIST leaves the chain without the node and no other link changed |
| PointerLists.AddToBidirHead | event/event.h:96-97 | ADD_TO_BIDIR_LIST_HEAD puts the node before the chain, with prev links running backwards along it |
| PointerLists.RemoveFromBidir | event/event.h:92-93 | REMOVE_FROM_BIDIR_LIST leaves the chain without the node, prev links included |
| EventHeap.Timer.constructor | event/event.c:211-217 | The wheel starts empty |
| EventHeap.Timer.EventAdd | event/event.c:91-138 | On linked nodes: the new event is on the main list, its type list and its slot, taken from the free list first; the result is the value machine's step |
| EventHeap.Timer.EventDelete | event/event.c:142-153 | On linked nodes: off all three lists, onto the free list |
| EventHeap.Timer.SetZombie | event/event.c:224-225 | Only the flag of the one node changes |
| EventHeap.Timer.MarkFrom | event/event.c:219-262 | The loop over a list marks exactly the matching events |
| EventHeap.Timer.EventRemoveData | event/event.c:219-226 | Marks the events with this data, on the main list |
| EventHeap.Timer.EventRemoveType | event/event.c:228-262 | Marks the matching events of a type; nothing for a type never used |
| EventHeap.Timer.CallEvent | event/event.c:176-179 | A handler's operations, applied while the event is still linked |
| EventHeap.Timer.RunOne | event/event.c:172-183 | One node of the slot: skipped, called and freed, or reaped |
| EventHeap.Timer.EventRun | event/event.c:166-185 | The saved successor e2 is still the right one after any handler, so that the loop is the value machine's walk |
| EventHeap.Timer.WalkSlot | event/event.c:172-184 | The pointer walk visits exactly the slot as it was at the start |
| EventHeap.Timer.EventRunByType | event/event.c:187-202 | The walk follows next_in_type after each handler; the count of calls |
| EventHeap.Timer.EventFirstTypeData | event/event.c:384-397 | The least positive time left among live events of the type with this data, or -1 |
| EventHeap.Timer.EventLastTypeData | event/event.c:370-382 | The greatest time left among live events of the type with this data, at least 0 |
| QueueGuarantees.SemaphoresNeverOverrun | src/cque.c:38-56 | In every reachable state at most max(0, counter) commands wait on a (semaphore, attribute) pair, across wait, notify, notify-all, drain, halt, timeout and time warp |
| QueueGuarantees.SemaphoresExact | src/cque.c:243-309 | Equality on runs where every semaphore wait is admitted and every notification names an attribute |
| QueueGuarantees.ExactThroughIff | src/cque.c:38-862 | Over every run from an exact state: the semaphore counters equal the numbers of waiters throughout, inside running commands as well, if and only if every operation is in step |
| QueueGuarantees.StaysExactIff | src/cque.c:109-762 | Each operation leads from exact counters to exact counters if and only if it is in step; halting, timeouts and time warps always are |
| QueueGuarantees.RefusedWaitExactness | src/cque.c:376-419 | A semaphore wait that setup_que refuses, for want of money or because the quota overflows and the owner's queue is halted, ends exactness if and only if the counter was not negative |
| QueueGuarantees.NfyExactness | src/cque.c:243-309 | A notification keeps exactness if and only if it takes no waiter without naming an attribute, and a count below one finds nothing to disturb; the drain of a destroyed object (attribute 0) ends it exactly if the object had waiters |
| QueueGuarantees.QuotasHold | src/cque.c:408-418 | In every reachable state live commands <= queue counter <= QueueMax for every owner, the overflow path that halts the owner's queue included |
| QueueGuarantees.QuotasExact | src/cque.c:168-175 | Live commands = queue counter on runs without halt-all and without commands of objects going away |
| QueueGuarantees.HaltAllExactness | src/cque.c:168-175 | Halt-all leaves the counters exact if and only if all counters but the one it resets were zero |
| QueueGuarantees.GoingExactness | src/cque.c:793-799 | Taking off the command of an object going away leaves the counters exact if and only if the command had been halted |
| QueueGuarantees.EveryCommandOnce | src/cque.c:63-86 | Every admitted command is in exactly one of the four queues or was served once or removed once; the player queue is served in order of arrival; the wait queue is in order of time |
| QueueGuarantees.TiesInOrder | src/cque.c:525-534 | Over every run: the wait queue is in order of time, and commands of equal time that were never warped stand in the order in which they were queued |
| QueueGuarantees.PassesWakeOneEach | src/cque.c:733-737 | n passes of do_second take n due commands off the wait queue, or all of them if fewer are due: one pass moves the head only |
| QueueGuarantees.AlwaysInv | src/cque.c:109-862 | The full invariant of the queues holds in every reachable state |
| QueueRequests.AlwaysTold | src/cque.c:63-862 | Over every run: one record for each admitted request, made from the requests and operations alone, says who asked, for when, on which semaphore, and what happened since; every queue is as the records say |
| QueueRequests.WaitsAsAsked | src/cque.c:511-515 | Over every run: a command on the wait queue has the time of its request plus the seconds asked for, one on the semaphore queue likewise or no time if it asked for none, unless it was warped, and then what the warps made of it; it waits for whoever asked, on the semaphore and attribute asked for |
| QueueRequests.NeverEarly | src/cque.c:497-762 | Over every run: a command is on a run queue or was served only if it was asked for at once, or do_second was called at or after its time, or its semaphore was notified, or it was warped |
| QueueRequests.ExpiredExactly | src/cque.c:743-762 | After every run: do_second takes a command off the semaphore queue if and only if it has a timeout and its time has come, and then it is on the run queue of its cause |
| QueueRequests.ObjectsAPassLater | src/cque.c:67-86 | Over every run: only what a player caused goes to the player queue at once; what another object caused gets there with a pass of do_second after it could first run, and nothing a player caused is on the object queue |
| QueueRequests.HaltedNeverRuns | src/cque.c:109-135 | Over every run: the command at the head is run for whoever asked for it, unless a halt that meant its player or owner, or the overflow of its owner's quota, came after the request; then it does nothing |
| QueueRequests.EndedOnRequest | src/cque.c:137-166 | Over every run: a command is removed unrun only by a halt, an overflow or a drain that meant it, and none that one of them meant still waits |
| QueueRequests.NotifiesFirst | src/cque.c:260-297 | A notification with a count lets exactly the first so many of the matching waiters run, in their order; the others stay in theirs |
| CommandQueue.InsertPlace | src/cque.c:525-534 | A timed command goes behind all commands due no later and before all due later: ties stay in order |
| CommandQueue.HaltKeeps | src/cque.c:109-176 | halt_que keeps the invariant and gives back the semaphore counts of what it removes |
| CommandQueue.WaitQueKeeps | src/cque.c:497-544 | wait_que keeps the invariant, with overflow and refusal |
| CommandQueue.SemWaitKeeps | src/cque.c:619-630 | A semaphore wait keeps the invariant on every path: run at once, queued, refused |
| CommandQueue.NfyKeeps | src/cque.c:243-309 | Notify, notify-all and drain keep the invariant |
| CommandQueue.SecondKeeps | src/cque.c:696-762 | do_second keeps the invariant: object queue appended, one due command, semaphore timeouts |
| CommandQueue.WarpKeeps | src/cque.c:1048-1064 | A time warp keeps the invariant and the order of the wait queue |
| CommandQueue.TopKeeps | src/cque.c:772-862 | do_top keeps the invariant whatever the command it runs does to the queues |
| CommandQueue.PerformHeads | src/cque.c:793-858 | Nothing a running command does takes its own entry off the head of the player queue |
| CommandHeap.CommandQueues.constructor | src/cque.c:63-86 | The queues start empty |
| CommandHeap.CommandQueues.HaltQue | src/cque.c:109-176 | On linked blocks: the value machine's halt, with the number halted; first and last pointers of all queues stay right |
| CommandHeap.CommandQueues.SetupQue | src/cque.c:376-419 | Charges the owner's counter, or halts the owner's queue on overflow and refuses |
| CommandHeap.CommandQueues.WaitQue | src/cque.c:497-544 | On linked blocks: into the player or object queue, into its place in the wait queue, or behind the semaphore queue |
| CommandHeap.CommandQueues.DoWait | src/cque.c:619-630 | The counter is raised first; a non-positive result runs the command at once |
| CommandHeap.CommandQueues.NfyQue | src/cque.c:243-309 | On linked blocks: the first matching commands up to the count, or all of them, or none of them run |
| CommandHeap.CommandQueues.DoSecond | src/cque.c:696-762 | On linked blocks: the wait loop ends after one command because give_que cleared the link it would follow |
| CommandHeap.CommandQueues.DoWarp | src/cque.c:1048-1064 | The clocks of both waiting queues are moved and a second passes |
| CommandHeap.CommandQueues.DoTop | src/cque.c:772-862 | The head of the player queue is served and taken off, its counter given back unless the object is going away |
| CommandHeap.GiveLinks | src/cque.c:63-86 | give_que appends at the true tail of the right queue |
| CommandHeap.InsertLoop | src/cque.c:525-534 | The insertion loop splices the block in at its place |
| CommandHeap.WakeLoop | src/cque.c:733-737 | The wait loop of do_second: at most the head is moved |
| CommandHeap.ExpireLoop | src/cque.c:743-762 | Expired semaphore waits run and give back their count |
| CommandHeap.NfyLoop | src/cque.c:260-297 | The loop of nfy_que over the semaphore queue |
| CommandHeap.HaltWaitLoop | src/cque.c:137-147 | The loop of halt_que over the wait queue |
| CommandHeap.HaltSemsLoop | src/cque.c:153-166 | The loop of halt_que over the semaphore queue |
| CommandHeap.MergeLinks | src/cque.c:715-722 | The object queue is appended to the player queue, tails right |
| Decimal.AtoiOfShow | src/db.c:2906-2996 | atoi undoes printf("%d") whatever non-digit follows |
| Locks.ParsedIsLegal | src/boolexp.c:266-619 | Every lock parse_boolexp builds has only legal children, existing objects, and keys without connectives, closing parentheses or trailing blanks |
| Locks.ReparseIsNormal | src/unparse.c:64-240 | Parsing the text unparse_boolexp_quiet prints gives the lock back with its conjunctions and disjunctions hung to the right |
| LockReaders.ReparseTwice | src/unparse.c:64-240 | Printing and parsing a second time changes nothing more |
| LockReaders.ParseNarrow | src/boolexp.c:266-322 | A reader who finds fewer objects, or is not God, makes the same lock of a text or the open lock |
| LockReaders.ReparseNarrow | src/boolexp.c:294-309 | Of a printed lock any reader makes the lock hung to the right if it finds every object and, not being God, a name for every attribute; otherwise the open lock |
| LockReaders.ReparseAttrExactly | src/boolexp.c:266-322 | An attribute lock is parsed again from its printed text if and only if its attribute has a name without separators and connectives that leads back to it, or God parses its number |
| LockReaders.PrefixesMean | src/boolexp.c:459-553 | What each prefix before an object number is parsed as |
| LockReaders.AndBindsCloser | src/boolexp.c:557-603 | '&' binds closer than '|', on either side of it |
| LockParser.Parser.SkipWhitespace | src/boolexp.c:254-258 | The cursor ends at the first non-blank |
| LockParser.Parser.LoadWord | src/boolexp.c:360-365 | The word up to the next connective or closing parenthesis |
| LockParser.Parser.ParseReference | src/boolexp.c:352-448 | The cursor parser agrees with the grammar on references |
| LockParser.Parser.ParseL | src/boolexp.c:329-455 | The cursor parser agrees with L |
| LockParser.Parser.ParseF | src/boolexp.c:459-553 | The cursor parser agrees with F |
| LockParser.Parser.ParseT | src/boolexp.c:557-579 | The cursor parser agrees with T |
| LockParser.Parser.ParseE | src/boolexp.c:583-603 | The cursor parser agrees with E |
| LockParser.ParseBoolexp | src/boolexp.c:605-619 | parse_boolexp is the grammar's parse; empty and broken texts are the open lock |
| LockEval.Evaluator.EvalBoolexp | src/boolexp.c:59-219 | Ends for every assignment of locks, cycles included; restores lock_nest_lev on every path; equals the value of the formula with references replaced down to the remaining depth and false there |
| LockEval.Evaluator.EvalBoolexpAtr | src/boolexp.c:223-238 | The same for a stored text |
| LockEval.Evaluator.EvalLeaf | src/boolexp.c:124-214 | The tests on the player and what it carries |
| LockEval.Evaluator.CheckContents | src/boolexp.c:139-143 | True exactly if something carried passes |
| LockLaws.BeOrCarry | src/boolexp.c:124-145 | A plain key opens if and only if being it or carrying it does, for objects and attributes |
| LockLaws.BeingIsAlone | src/boolexp.c:175-191 | '=' does not look at what is carried; before an object it opens for exactly that one, before an attribute for exactly those who have it with that value |
| LockLaws.CarryingIsBeing | src/boolexp.c:192-210 | '+' opens if and only if some one carried thing, carried alone, would open it, which is when '=' opens for that thing |
| LockLaws.OwningIsShared | src/boolexp.c:211-212 | '$' opens for the object itself, for all things of one owner alike, and for no thing of another owner |
| LockLaws.NoSuchAttr | src/boolexp.c:126-131 | A lock on an attribute that does not exist opens for nobody, behind any prefix |
| LockLaws.EvalAsks | src/boolexp.c:146-174 | '/' on an existing attribute asks for its evaluation on the asking object, or else the locked one, for this player |
| LockLaws.Connectives | src/boolexp.c:59-123 | The truth tables of '!', '&' and '|', the open lock, and '@' as the lock of the other object one level deeper |
| LockLaws.MorePasses | src/boolexp.c:59-214 | Without '!' in the locks, carrying more never shuts one, references to other locks and attributes included |
| LockLaws.KeyOpens | src/boolexp.c:124-125 | An object locked to a key, as the text is stored, opens for exactly the key and those who carry it |
| LockVerdicts.LimitIrrelevant | src/boolexp.c:80-123 | Where no chain of references is cyclic the nesting limit has no effect, once it exceeds the chains |
| LockVerdicts.LimitSettles | src/boolexp.c:80-123 | Where no negation stands above a reference, cycles or not, the verdict only grows with the nesting limit and is the same for every limit from the number of objects referred to on |
| LockVerdicts.VerdictGrows | src/boolexp.c:80-123 | Without negated references a lock that opens at a nesting limit opens at every larger one |
| LockVerdicts.SelfReferenceFails | src/boolexp.c:80-123 | A lock that only refers to itself never opens |
| LockVerdicts.NegatedCycleFlips | src/boolexp.c:78-123 | On a cycle through a negation the answer alternates with the depth left |
| LockVerdicts.RewritingKeepsMeaning | src/boolexp.c:59-238 | Locks that were all hung to the right let through exactly whom they let through before, cycles included |
| LockVerdicts.ReloadVerdict | src/db_rw.c:2110-2117 | After a dump and a reload every player is judged, cycles included, by the locks as God read them before the dump: each one in which the player finds all objects and attributes, and no lock in place of the others |
| LockVerdicts.ReloadKeepsReading | src/db_rw.c:2110-2117 | A player reads the lock of an object after the reload as before, hung to the right, if and only if it read the old text as God does where it can read the new one, and as no lock where it cannot |
| LockVerdicts.ReloadKeepsMeaning | src/db_rw.c:1928-1933 | Every verdict on a player who reads all locks alike stays the same, cycles included, if no lock names an object that is going away |
| LockVerdicts.ReloadShuts | src/db_rw.c:2110-2117 | Where a player did not read a lock alike, the object stood open for it, and after the reload it does so only if the lock as God read it lets the player through |
| LockVerdicts.NumberedLockShuts | src/boolexp.c:294-309 | The lock "3:F", 3 being SEX: everybody but God passes before a reload, and nobody without the right sex after it |
| LockFile.GetPut | src/db_rw.c:39-253 | getboolexp1 reads back what putbool_subexp wrote and leaves what follows |
| LockFile.LockRoundTrip | src/db_rw.c:258-281 | getboolexp reads from putboolexp's output exactly the tree; it stops at the next field if and only if that field is no empty line or the lock brought its own newline |
| LockFile.AttrLockExactly | src/db_rw.c:171-243 | An attribute lock comes back from the file, with the stream at the next field, if and only if its attribute is found again (a name without separators that mkattr maps to it, or its number) and its key ends where it should |
| LockFile.SlashedNameMisread | src/predicates.c:508-522 | A lock on an attribute named "A/B", which is a legal name, comes back as an evaluation lock on "A", or not at all |
| LockFile.ParsedLockSurvives | src/db_rw.c:649-657 | The lock of any one-line text survives the flat file, broken ones as the open lock |
| LockFile.LockThroughDump | src/db_rw.c:2110-2117 | Parsed, written, read and printed as stored text again, a lock parses to the old one hung to the right |
| LockStream.ReadKey | src/db_rw.c:233-242 | The loop over a key on the file |
| LockStream.ReadName | src/db_rw.c:194-202 | The loop over an attribute name on the file |
| LockStream.ReadNumber | src/db_rw.c:188-191 | The loop over a number on the file |
| LockStream.ReadReference | src/db_rw.c:171-243 | A reference on the file |
| LockStream.ReadQuotedRef | src/db_rw.c:135-170 | A reference that starts with a quoted name |
| LockStream.ReadBoolexp1 | src/db_rw.c:39-253 | getboolexp1 with getc and ungetc is the reading function of the round trip |
| LockStream.ReadBoolexp | src/db_rw.c:258-281 | getboolexp likewise |
| FlatFile.StringRoundTrip | src/db.c:2913-2986 | getstring_noalloc undoes putstring on a C string, quotes, backslashes and newlines included, if and only if it is shorter than LBUF_SIZE; a longer one loses its end only; the stream is left behind it |
| FlatFile.LineRoundTrip | src/db.c:2943-2968 | An old-style string is a line that does not end in a carriage return |
| FlatFile.RefRoundTrip | src/db.c:2906-2996 | getref undoes putref on every 32-bit int |
| FlatFile.Stream.ReadString | src/db.c:2933-2986 | getstring_noalloc on the file |
| FlatFile.Stream.ReadQuoted | src/db.c:2969-2985 | Its loop for quoted strings |
| FlatFile.Stream.ReadUnquoted | src/db.c:2943-2968 | Its loop for old strings |
| FlatFile.Stream.ReadRef | src/db.c:2989-2996 | getref on the file |
| FlatFile.WriteString | src/db.c:2913-2931 | The loop of putstring |
| ObjectRecord.RecordRoundTrip | src/db_rw.c:1736-2048 | For every format word reader and writer agree on, also ones without strings: each header word the format holds, the name, the money, the lock and each saved attribute come back, nothing else changes, the CONNECTED bit of players goes, the attribute list stays exact, and the stream is left at the next record |
| ObjectRecord.AttrsBack | src/db_rw.c:404-444 | get_list reads back the saved attributes |
| ObjectRecord.AddedAttrs | src/db_rw.c:2139-2176 | Exactly the saved attributes of the list get their texts |
| ObjectRecord.FormatsExactly | src/db_rw.c:1487-1528 | The format words under which every object comes back, for all tables and contents, are exactly those reader and writer agree on: quoted or without strings, no V_ATRNAME without V_GDBM, no panic with V_GDBM |
| ObjectRecord.LockRestored | src/db_rw.c:1928-1933 | The object read back has the lock of the object written, hung to the right, or the very lock where it travels as an attribute |
| ObjectRecord.LocationReadAsName | src/db_rw.c:1508-1511 | With V_ATRNAME but without V_GDBM the reader takes the location for the name and the next word for the location: no object comes back in which the two differ |
| ObjectRecord.QuoteReadAsName | src/db_rw.c:1520 | With neither V_QUOTED nor V_ATRNAME the quotes become part of the name: an object without attributes and name does not come back |
| ObjectRecord.ListLeftBehind | src/db_rw.c:2133-2178 | A dump in a panic with V_GDBM leaves every attribute list unread: no object comes back with the stream at the next record |
| DumpFile.DumpRoundTrip | src/db_rw.c:2183-2253 | Loading a dumped database restores every object not being destroyed, up to the last such one, the user-named attributes and the counters |
| DumpFile.ObjsBack | src/db_rw.c:2225-2245 | The records of all objects from number i on come back; skipped numbers are blank objects |
| DumpFile.VattrExactly | src/db_rw.c:1586-1602 | A "+A" line comes back if and only if the format has quoted strings |
| DumpFile.VattrBack | src/db_rw.c:1586-1602 | A "+A" line defines the attribute it was written from |
| DumpStream.ReadAttrs | src/db_rw.c:404-560 | The loop of get_list on the file |
| DumpStream.ReadObject | src/db_rw.c:1871-2044 | The '!' record on the file |
| DumpStream.ReadHeader | src/db_rw.c:1443-1628 | The '+' tags on the file |
| DumpStream.ReadTag | src/db_rw.c:1383-2076 | One turn of db_read |
| DumpStream.ReadDb | src/db_rw.c:1287-2081 | db_read on the file is the reading function of the round trip |
| DumpStream.WriteAttrs | src/db_rw.c:2139-2178 | The attribute loop of db_write_object |
| AttrCode.DecodeCode | src/db.c:1212-1259 | al_decode undoes al_code whatever follows |
| AttrCode.CodeNoZero | src/db.c:1241-1259 | The code of a positive number holds no zero byte |
| AttrCode.CodeFits | src/attrs.h:214 | A number below 2^31 and the zero byte take at most ATR_BUF_INCR bytes |
| AttrCode.CodesUnique | src/db.c:1212-1259 | Different lists have different codes |
| AttrCode.AlDecode | src/db.c:1212-1234 | The loop of al_decode |
| AttrCode.AlCode | src/db.c:1241-1259 | The loop of al_code; no byte behind the code changes |
| AttrStore.AlSearch | src/db.c:1371-1376 | Whether the number is in the list, and the end of the list |
| AttrStore.AlAppend | src/db.c:1397-1398 | The number goes behind the list, within ATR_BUF_INCR bytes of the old end |
| AttrStore.AlMove | src/db.c:1430-1434 | The in-place rewrite: the writer stays behind the reader and what is left is the list without the one number |
| AttrStore.AlRemove | src/db.c:1425-1437 | al_delete's scan leaves the old list minus the one number |
| AttrStore.AttrDb.constructor | src/db.c:1299-1344 | The store starts empty, with no list in the buffer |
| AttrStore.AttrDb.AlStore | src/db.c:1299-1309 | The buffered list goes to the store; no attribute changes |
| AttrStore.AttrDb.AlFetch | src/db.c:1315-1344 | The list of the object is in the buffer, the old one in the store |
| AttrStore.AttrDb.AlAdd | src/db.c:1350-1400 | The object's list gains the number if it lacked it |
| AttrStore.AttrDb.AlDelete | src/db.c:1406-1439 | The object's list loses the number |
| AttrStore.AttrDb.AlDestroy | src/db.c:1456-1464 | The object's list is gone from buffer and store; the lists still name exactly the attributes if and only if the object had none |
| AttrStore.AttrDb.AtrAddRaw | src/db.c:1953-2003 | One attribute changes; every list, in the buffer or in the store, still names exactly the attributes of its object |
| AttrStore.AttrDb.AtrClr | src/db.c:1793-1797 | One attribute goes; every list stays exact |
| AttrStore.AttrDb.AtrGetRaw | src/db.c:2137-2160 | An attribute is found if and only if the effective list of its object names it; the stored list is the code of the effective one unless that one is in the buffer, and without a stored list the object has no attribute |
| AttrStore.AttrDb.AtrHead | src/db.c:2500-2545 | The walk starts on a copy of the effective list |
| AttrStore.AtrNext | src/db.c:2414-2440 | The walk yields the rest of that list in order, then 0 |
| AttrStore.AttrDb.AtrFree | src/db.c:2314-2328 | The object has nothing left in the store, and no other object has lost anything |
| AttrArray.Bisect | src/db.c:1893-1916 | The index of the number, or the gap it belongs into |
| AttrArray.Insert | src/db.c:1932-1940 | The entries from the gap on move up in place |
| AttrArray.MoveDown | src/db.c:1781-1785 | The entries behind the removed one move down in place |
| AttrArray.Attrs.AtrGetRaw | src/db.c:2097-2135 | Bisection answers as plain search does |
| AttrArray.Attrs.AtrClr | src/db.c:1761-1791 | Removal: the array stays strictly sorted, and only the one number answers otherwise |
| AttrArray.Attrs.AtrAddRaw | src/db.c:1838-1951 | Update: the array stays strictly sorted, and only the one number answers otherwise; the empty text removes |
| AttrArray.Attrs.AtrFree | src/db.c:2330-2331 | Nothing is left, but the count stays |
| AttrArray.Attrs.AtrHead | src/db.c:2504-2514 | The first number, 0 without attributes; follows a null pointer if and only if the count is positive without an array |
| AttrArray.Attrs.AtrNext | src/db.c:2417-2429 | The numbers in order, each once, then 0 |
| AttrArray.Attrs.WalkAfterFree | src/db.c:2330-2331 | A walk right after atr_free follows the null pointer if and only if the object had attributes |
| AttrArray.Attrs.AddAfterFree | src/db.c:1871-1885 | The next atr_add_raw with a text repairs the count: the object has exactly that attribute, and a walk finds it |
| SaneSort.SaneQsort | src/funceval.c:1925-2004 | For every comparison and every pivot choice, also ones that change from call to call: ends, permutes its range, touches nothing else, nests at most floor(log2 n) + 1 deep; sorts when the comparison is by a total preorder |
| SaneSort.Partition | src/funceval.c:1956-1986 | What compares less than the pivot stands before it, the rest behind |
| SaneSort.LevelsIsLog | src/funceval.c:1995-2003 | The bound on the nesting is floor(log2 n) + 1 |
| SaneSort.OneDeeper | src/funceval.c:1995-2003 | Recursing on the smaller side costs one level |
| Cipher.RoundTrip | src/funceval.c:592-653 | Decrypting an encrypted text gives back its printable characters, for all texts if and only if no character of the code lies below the blank |
| Cipher.CryptCode | src/funceval.c:612-653 | The loop with its two cursors |
| Cipher.CrunchCode | src/funceval.c:592-610 | The filter lets every character through |
| Splitter.CutsVerbatim | src/eval.c:66-207 | Without stripping, piece, delimiter and remainder are the line, whatever the nesting; which delimiter is the cut is Nesting.CutsOutside |
| Splitter.PiecesRejoin | src/cque.c:815-847 | Calling it until nothing remains ends, and the pieces rejoin to the line |
| Splitter.PieceIsPart | src/eval.c:30-207 | In every mode the piece is the line up to the cut with some characters left out: nothing is invented or moved |
| Splitter.PiecesAreWhole | src/cque.c:815-847 | No piece can be cut again |
| Nesting.CutsOutside | src/eval.c:91-201 | Against a grammar of texts (characters, escape pairs, braces, round and square brackets, lost brackets, at most 32 noted at a time): a line is cut exactly at the first delimiter outside all nesting, and not at all where every delimiter is nested |
| Nesting.PieceRendered | src/eval.c:66-207 | The piece of such a line, where blanks are not squeezed: the text without outer braces under EV_STRIP and without backslashes under EV_STRIP_ESC, and the remainder behind the delimiter |
| Nesting.AroundStripped | src/eval.c:30-55 | EV_STRIP_AROUND takes one brace off either end of the piece exactly when there is one at both |
| Nesting.DepthExactly | src/eval.c:185-197 | For n brackets opened and m closed before a delimiter: it is the cut if and only if m is at least min(n, 32), so that from the 33rd bracket on nesting does not protect |
| Nesting.PieceSqueezed | src/eval.c:176-184 | Under mudconf.space_compress a piece without braces is the part before the cut, of blanks in a row only one, and none at its end |
| SplitterCode.ParseTo | src/eval.c:66-207 | In every mode: the piece and the remainder of the reference, in place; nothing outside the line changes |
| SplitterCode.LineBuffer.NextChar | src/eval.c:58-63 | NEXTCHAR keeps the writer at or behind the reader and the unread part intact |
| SplitterCode.LineBuffer.WalkBrace | src/eval.c:138-164 | The loop over the inside of a brace |
| SplitterCode.LineBuffer.Turn | src/eval.c:92-200 | One turn of the loop is one move of the scanner |
| SplitterCode.LineBuffer.Walk | src/eval.c:91-201 | The loop stops where the scanner stops, in every mode |
| SplitterCode.LineBuffer.Finish | src/eval.c:30-55 | parse_to_cleanup gives the piece of the reference; where it looks at *rstr although the piece is empty, there is no brace, so that it never looks before the piece |
| SplitterCode.CleanBuffer | src/eval.c:30-55 | Trimming, stripping the braces around and ending the piece, in place |
| SplitterCode.FindOnStack | src/eval.c:110 | The innermost matching bracket |
| HashTable.HashVal | src/htab.c:24-43 | The loop of hashval, with 32-bit wrap-around |
| HashTable.HashIsPolynomial | src/htab.c:24-43 | The running sum, wrapped at every character, is the polynomial in 33 of the signed characters, wrapped once |
| HashTable.GetHashmask | src/htab.c:51-64 | The least power of two that is at least the size |
| HashTable.Seek | src/htab.c:121-145 | The search loop: the entry with the key and the one before it |
| HashTable.Touch | src/htab.c:129-141 | Counting a hit and moving the entry to the front change no answer |
| HashTable.HashTab.constructor | src/htab.c:71-90 | The empty map |
| HashTable.HashTab.HashFind | src/htab.c:111-150 | Lookup; the map stays the same although entries move |
| HashTable.HashTab.HashAdd | src/htab.c:157-184 | Adds a new key and refuses an old one; entries and nulls stay exact |
| HashTable.HashTab.HashDelete | src/htab.c:191-216 | Removes one key; entries and nulls stay exact |
| HashTable.HashTab.HashRepl | src/htab.c:264-281 | Replaces the data of one key if it is there |
| HashTable.HashTab.HashReplAll | src/htab.c:283-296 | Replaces one pointer by another wherever it is the data |
| HashTable.HashTab.HashFlush | src/htab.c:223-257 | The empty map, of the new size if one is asked for |
| HashTable.HashTab.HashFirstEntry | src/htab.c:321-333 | The first entry of the walk, or null for the empty table |
| HashTable.HashTab.HashNextEntry | src/htab.c:335-362 | The next entry of the walk, null after the last |
| HashTable.WalkMeetsEachOnce | src/htab.c:321-362 | The walk has as many entries as are counted, all different |
| HashTable.Rebucket | src/htab.c:111-296 | A change inside one bucket changes no answer for keys of other buckets |
| BufferPool.Pool.constructor | src/alloc.c:71-82 | An empty pool |
| BufferPool.Pool.Alloc | src/alloc.c:163-250 | Never a buffer in use; the buffers in use keep their words; counters exact |
| BufferPool.Pool.Store | src/alloc.c:248-249 | A client's write to a buffer it holds keeps the pool right unless it is the magic number |
| BufferPool.Pool.Free | src/alloc.c:252-320 | The buffer is not in use any more; one of another size or already free changes nothing |
| BufferPool.Pool.Reset | src/alloc.c:397-428 | The chain is exactly the buffers in use, and their words are unchanged |
| BufferPool.Sweep | src/alloc.c:405-422 | The loop relinks the kept buffers |

## Left out

- Sockets, signals, the dump process, command dispatch and exec: calls into the operating system or the interpreter.
- Timer: event types that do not fit a char, overflow of the tick, a zombie flag passed to event_add, handlers that call
  event_run or event_run_by_type, and the release of event data; the event_count_* queries, which only count list entries.
- Command queue: the texts and registers of commands, money (whether a command is admitted is an input), a change of
  owner while commands are queued, the nested do_top of @kick, the CF_DEQUEUE and CF_INTERP switches, and reuse of the
  address of a freed block.
- Locks: limits of text buffers, the player-typed form of object references, the text the parser would find before an
  empty buffer, and display forms of unparse_boolexp other than the quiet one. Attribute numbers typed by God that
  have no name are covered as numbers.
- Locks.ReparseIsNormal: does not cover attributes whose names hold a separator or a connective, because their locks do
  not come back; `LockReaders.ReparseAttrExactly` has the exact condition, where the table gives an attribute to
  spellings of one length.
- LockFile.GetPut: does not cover attribute names that begin with something other than a letter or hold ':', '/' or a
  newline, because getboolexp1 does not find their end; `LockFile.AttrLockExactly` has the exact condition. The same
  holds for LockFile.LockRoundTrip, LockFile.ParsedLockSurvives and DumpFile.DumpRoundTrip.
- LockStream.ReadQuotedRef: does not cover a quoted name without a key, because the lock node getboolexp1 then returns
  has whatever type its memory held; the model stops there.
- LockVerdicts.ReloadVerdict: does not cover a change of what players carry, because the lists of contents are taken as
  unchanged by the reload.
- Flat file: what the readers do when the input ends inside a record (getref repeats its last line and get_list does not
  return); creation of attributes by mkattr while locks are read; the owner and flag prefix of the name and lock
  attributes, which a dump drops; the cached money of players; foreign formats and flag upgrades; the loop of db_write
  over objects, which is the recursion of PutObjs here.
- ObjectRecord.RecordRoundTrip: does not cover the stored owner and flags of the name and lock attributes, because
  db_write_object writes their text only.
- DumpFile.DumpRoundTrip: does not cover attribute names with a quote or a backslash, because db_write does not escape
  them.
- Attribute store: RADIX_COMPRESSION, side effects of certain attributes on flags, failing allocations, and the
  over-read of al_extend when it copies.
- AttrStore.AttrDb.AtrAddRaw: does not cover writes to A_LIST by clients, because they would replace the list itself.
- AttrStore.AttrDb.AtrClr: does not cover clearing A_LIST by clients, for the same reason; al_destroy, which does it, is
  AttrStore.AttrDb.AlDestroy.
- SplitterCode.ParseTo: does not cover EV_STRIP together with EV_STRIP_AROUND, because no caller asks for both and the
  cleanup would then read before the piece of "{}".
- HashTable.HashTab.HashAdd: does not cover null data, because hashfind cannot tell them from a missing key.
- HashTable.HashTab.HashRepl: does not cover null data, for the same reason.
- HashTable.HashTab.HashReplAll: does not cover a null new pointer, for the same reason.
- Hash table: the numeric twins, which differ in the hash only; the statistics apart from entries and nulls.
- Buffer pools: corrupted headers and footers, two pools of one buffer size, logging and statistics texts.
- Channels, macros, history lists, help files, name tables and configuration: smaller versions of the same ideas, or data.
