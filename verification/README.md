# Shared-memory store, payload printer and interrupt handshake

This project models three parts of the co-simulation wrapper and proves properties of the models.

**The store** (`simdb.hpp`) keeps keys and values in shared memory. `CncrLst` is a lock-free list of free
blocks, `CncrStr` keeps lists of blocks that hold a key followed by a value, `CncrHsh` is an array of slots
that name lists, and `simdb` is the map on top. It is modelled twice.

* *Any number of threads, lists of one block.* `FreeListSteps` and `StoreSteps` are state machines whose
  steps are the accesses to shared memory: loads, plain reads and writes, and compare-and-swaps. A schedule
  picks the thread of each step. `StoreInvariant` says what every step keeps, `StoreProof`, `StoreProbe`,
  `StoreSwap` and `StoreAlloc` prove it step by step, and `StoreRuns` draws the conclusions for whole runs.
  `StoreFresh` says how fresh a get is, `StorePins` what is never undone, `StoreSearch` how a put goes through
  the slots and `StorePaths` what every such search keeps. `StoreFills` and `StoreVain` say when a put gives up, and
  `StoreMiss` when a get or del does not find its key. `StoreAnswers` takes every answer of every call back to the step
  that justifies it, and `StoreProgress` says that calls come nearer to their answers, and in which order they look at
  the slots. `StoreAlone` is about calls that no other thread disturbs;
  from them `StoreGivesUp` and `StoreOverlooks` build a run in which a put gives up, and one in which a get
  overlooks its key. The version test and the swap of a reader count are one
  step; `ReaderRace` takes them apart. `ChainSplices` says what becomes of longer lists. Lists of one block are how the
  wrapper uses the store: its keys are short and its payloads have at most 16 bytes, in blocks of 1024.
* *One call at a time, lists of any length.* The classes `CncrLst`, `CncrStr`, `CncrHsh` and `simdb` in
  `FreeList`, `Store`, `HashTable` and `SimDb` have the fields, loops and branches of the originals. Their
  methods are proved against values: `BlockLists` (which records, links and free indices fit together),
  `Flats` (bytes laid end to end), `SlotTable` and `ProbeTable` (the slots as a table and as a map),
  `KeySearch` and `KeyLap` (the enumeration, and which keys it finds) and `StartUp` (deleting all that it finds).
* `SlotWords` goes below the slots, to 64-bit words with swapped halves, and `Layout` to addresses. `Circle` has the
  steps around the slots that all of them share.

**The payload printer** (`gp2str.cpp`) is `PayloadText`: the printer, and a reader that gets the payload back.
The payload attributes are those of clause 14 of IEEE Std 1666-2011.

**The interrupt handshake** (`irq2gss.cpp`) is `IrqHandshake`: a thread and a peer over two mailboxes. The peer
publishes only into an empty up mailbox and is the only one to empty the down mailbox while the thread waits.

Where the code falls short of the map it implements, the model follows the code and the lemmas say exactly when:

* `del` never looks at the slot probed last, and it removes one of several slots that may hold a key. The exact
  condition is `DelIsRemoval`; `DelUncoversAnOlderValue` is a run in which it fails.
* `put` copies the value only behind a key that does not fill its last block (`CncrStr.Put`).
* `get` and `getKey` with too small a buffer leave a reader behind, and the block never comes back
  (`CncrStr.Get`, `PinnedForever`).
* `getKey` of a key that fills its last block writes one block too many (`CncrStr.GetKey`).
* `getKeyStrs` finds every live slot if and only if no search of its lap begins right at one, but for the slot met
  last and the last slot of the array (`AllFoundIffComplete`, and `AllKeysIffComplete` for the keys);
  `ThirdOfThreeIsMissed` has five slots. The constructor of the interrupt thread clears the mailboxes this way. It
  clears the table if and only if every key is found and can be removed (`StartClearsIff`); otherwise a message stays
  (`MessageSurvives`), and the complaint about one left in the down mailbox can come if and only if there is one at the
  start (`ComplaintIffMessageLeft`).
* With several threads a put may give up (`APutCanGiveUp`), always beside a free slot (`GivenUpBesideAFreeSlot`). It
  gives up if and only if it has passed every slot (`GivesUpIffAllExamined`), each because it found a live list there
  that did not, or no longer, store its key (`ExaminedInVain`), and only if another put filled a free slot since it
  began to look (`GivingUpNeedsAFill`).
  So where puts do not overlap none gives up, beside any number of gets and dels (`OnePutNeverGivesUp`). The list and
  block of a put that gave up are lost for good (`GivenUpIsLost`, `LostForever`). One call at a time, on chains of any
  length, a put always finds a slot (`NeverFull`).
* With several threads, freeing a list of several blocks gives back just these if and only if each stood right behind
  the one before it on the free list when that one was taken (`WholeIffTakenInOrder`). So it is if nobody disturbed
  the alloc (`TakenTogether`); if another thread took blocks in between, its blocks may end up on the free list
  (`TakenApart`).
* A handle can take a reader of a later list. It does if and only if the block is reused after the last version
  test that passed (`LandsElsewhereIffReused`), and that reader is then counted for good (`StrayReaderStays`).
* A get may answer that its key is missing although the key is in the table throughout the call, because another put
  replaces the list under it (`AGetCanOverlook`). It is right about every slot that did not change during the call
  (`GetMissIsRight`), and while no slot changes it finds what is there (`UndisturbedGetIsRight`). A del is then right
  about all slots but the one probed last (`DelMissIsRight`). Whatever changes, a call that misses its key has passed
  each of its slots for a reason, or is a del that compared a list that went away (`MissIsTrue`).
* When `alloc` runs out of blocks in the middle of a list it frees what it has linked so far, along the record of the
  last free block, which it has not written (`CncrStr.Alloc`). With one block popped, the block is lost. With more the
  free ends if and only if that record does not lead to a free block (`ShortWalkEndsIff`); in a store where nothing was
  ever stored it does (`FreshShortNeverEnds`). If it ends, all free blocks return, and the store is as before if and
  only if the record ends a list or leads to the last block of one (`ShortRestoredIff`). Otherwise the list it leads
  into loses versions (`ShortClears`), and is lost if and only if that is its first block (`ShortLosesIff`,
  `AShortAllocCanLose`).
* An opener of an existing store takes a power of two for the number of slots; it agrees with the owner only if the
  block count is a power of two (`SizeIsKeptIffPowerOf2`, `TooManySlotsRunIntoTheStore`).

Verify everything with `dafny verify dfyconfig.toml`.

## Model

| member | source | states |
|---|---|---|
| FreeListSteps.ListAndOwnersPartition | fpga/aws-fpga/cosim_sc_wrapper/include/shm_lib/simdb.hpp:447-471 | In every interleaving of `nxt()` and `free(idx)`, with head load, link read, link write and compare-and-swap as separate steps, the list from the head is acyclic and ends in LIST_END, and each index is exactly one of: listed, handed out, being returned by the one thread that names it |
| FreeListSteps.StepIsStackStep | fpga/aws-fpga/cosim_sc_wrapper/include/shm_lib/simdb.hpp:447-471 | Each step refines a stack: it leaves the list alone, or is the winning swap that takes the top, or the winning swap that pushes; the head reads LIST_END exactly when the list is empty |
| FreeListSteps.NoIndexHasTwoOwners | fpga/aws-fpga/cosim_sc_wrapper/include/shm_lib/simdb.hpp:439-471 | Over any run, how often an index was handed out exceeds how often it came back by one while it is owned and by none while it is listed, although a stale thread may read a link that was reused (the head version excludes ABA) |
| FreeListSteps.LostSwapsAreBounded | fpga/aws-fpga/cosim_sc_wrapper/include/shm_lib/simdb.hpp:447-471 | Lock freedom: the head version counts the successful swaps, no thread has lost more swaps than the system has won, and all losses together are at most threads x wins |
| FreeListSteps.NxtEndsRightly | fpga/aws-fpga/cosim_sc_wrapper/include/shm_lib/simdb.hpp:447-459 | In every run a thread leaves `nxt()` only by a swap of its own that takes the first listed index, or because the list was empty at some moment while it was inside; a lost swap is tried again |
| FreeListSteps.StepAdvances | fpga/aws-fpga/cosim_sc_wrapper/include/shm_lib/simdb.hpp:447-471 | Every step inside `nxt()` or `free()` brings the thread nearer to its end, or loses a swap after another thread has won one since it loaded the head |
| ChainSplices.WholeIffTakenInOrder | fpga/aws-fpga/cosim_sc_wrapper/include/shm_lib/simdb.hpp:472-483 | In every run of threads that take and return blocks, freeing a chain puts just its blocks in front of the free list iff each stood right behind the one before it there when that one was taken |
| ChainSplices.WholeIffFollows | fpga/aws-fpga/cosim_sc_wrapper/include/shm_lib/simdb.hpp:472-483 | The splice is right iff the links of the free list lead from each block of the chain to the next |
| ChainSplices.LinkIsNextAtPop | fpga/aws-fpga/cosim_sc_wrapper/include/shm_lib/simdb.hpp:447-483 | In every run the link of a block handed out still names what stood behind it when it was taken |
| ChainSplices.TakenTogether | fpga/aws-fpga/cosim_sc_wrapper/include/shm_lib/simdb.hpp:718-730 | The blocks of an alloc that no other thread disturbs can be freed together, from every state of every run |
| ChainSplices.TakenApart | fpga/aws-fpga/cosim_sc_wrapper/include/shm_lib/simdb.hpp:472-483 | Two threads take blocks in turn: after the first frees its chain, a block of the other one is on the free list |
| FreeListSteps.AdvanceInv | fpga/aws-fpga/cosim_sc_wrapper/include/shm_lib/simdb.hpp:447-471 | Every step of a thread inside `nxt` or `free` keeps the free-list invariant |
| FreeListSteps.PopWinInv | fpga/aws-fpga/cosim_sc_wrapper/include/shm_lib/simdb.hpp:455 | A winning swap of `nxt` takes the first listed index even if the link it installs was read long before |
| FreeListSteps.StepCounts | fpga/aws-fpga/cosim_sc_wrapper/include/shm_lib/simdb.hpp:447-471 | One step changes the ownership of an index by exactly the swap it wins |
| StoreRuns.StepKeeps | fpga/aws-fpga/cosim_sc_wrapper/include/shm_lib/simdb.hpp:569-607 | Every atomic step of put, get and del by any thread keeps the whole-store invariant: one place per block, exact reader counts, protected bytes, honest slots |
| StoreRuns.EveryBlockIsInOnePlace | fpga/aws-fpga/cosim_sc_wrapper/include/shm_lib/simdb.hpp:1076-1159 | After any schedule each block is in exactly one place: it is free iff it is on the list, a slot is live iff its block is published there under that version, published lists are not marked deleted, and no two slots name one block |
| StoreRuns.ReadersProtectTheirList | fpga/aws-fpga/cosim_sc_wrapper/include/shm_lib/simdb.hpp:569-607 | While a thread holds a reader its list keeps version and bytes, is neither free nor on its way there, and its count equals the readers taken and not dropped plus those get left behind |
| StoreRuns.LastOneOutFrees | fpga/aws-fpga/cosim_sc_wrapper/include/shm_lib/simdb.hpp:583-607 | `doFree` begins only with the deleted flag set, no reader left and none left behind, on a list already taken out of its slot |
| StoreRuns.FreedExactlyOnce | fpga/aws-fpga/cosim_sc_wrapper/include/shm_lib/simdb.hpp:583-607 | Over any run, `doFree` ran for version v exactly once if v has left its slot and its last reader, and not at all before |
| StoreRuns.FreesWhere | fpga/aws-fpga/cosim_sc_wrapper/include/shm_lib/simdb.hpp:593-603 | A step begins `doFree` if and only if it drops the last reader of a deleted list or deletes an unread list |
| StoreRuns.StaleHandlesStayDead | fpga/aws-fpga/cosim_sc_wrapper/include/shm_lib/simdb.hpp:569-582 | A handle alloc ever gave out is admitted by `incReaders` only while that very allocation lives, however often its block was reused since |
| StoreRuns.GetReturnsAValueThatWasPut | fpga/aws-fpga/cosim_sc_wrapper/include/shm_lib/simdb.hpp:790-837 | Whatever get copies in any schedule is, whole and unmixed, a value some put stored under exactly the key asked for |
| StoreFresh.GetIsFresh | fpga/aws-fpga/cosim_sc_wrapper/include/shm_lib/simdb.hpp:790-837 | In every run, what get returns stood in a slot, under just the key asked for, at some moment between the start of the call and its return |
| StoreFresh.StepCall | fpga/aws-fpga/cosim_sc_wrapper/include/shm_lib/simdb.hpp:1113-1127 | A step of any thread gives a call only handles from the slots it loads, and only bytes it has read |
| StoreRuns.SlotsChangeForOwnKey | fpga/aws-fpga/cosim_sc_wrapper/include/shm_lib/simdb.hpp:1076-1159 | Whatever a put or del takes out of a slot, or puts in, is a list under its own key, however long ago it compared the slot |
| StoreRuns.QuiescentBlocks | fpga/aws-fpga/cosim_sc_wrapper/include/shm_lib/simdb.hpp:1224-1250 | Once all calls have returned every block is free, or in a slot, or kept by readers a too small get left behind, or lost to a put that gave up |
| StoreRuns.SlotsNeverEmptyAgain | fpga/aws-fpga/cosim_sc_wrapper/include/shm_lib/simdb.hpp:1082-1159 | No step of any thread makes a slot EMPTY again |
| StoreRuns.GoneStepHolds | fpga/aws-fpga/cosim_sc_wrapper/include/shm_lib/simdb.hpp:583-607 | A step makes a list disappear exactly if it begins to free it, and only once |
| StoreAlloc.AllocKeeps | fpga/aws-fpga/cosim_sc_wrapper/include/shm_lib/simdb.hpp:699-751 | Popping a block, drawing a version, writing the record, its head fields and the bytes keep the invariant, against all other threads |
| StoreSwap.SwapKeeps | fpga/aws-fpga/cosim_sc_wrapper/include/shm_lib/simdb.hpp:1085-1106 | The slot swaps of put and del, and deleting the list that was in the slot, keep the invariant |
| StoreProbe.ProbeKeeps | fpga/aws-fpga/cosim_sc_wrapper/include/shm_lib/simdb.hpp:873-912 | Loading a slot and comparing its key under a reader keep the invariant, also when dropping that reader frees the list |
| StoreProbe.ReadKeeps | fpga/aws-fpga/cosim_sc_wrapper/include/shm_lib/simdb.hpp:790-837 | The reader-protected copy of get keeps the invariant |
| StoreProbe.HeldIsShared | fpga/aws-fpga/cosim_sc_wrapper/include/shm_lib/simdb.hpp:569-607 | A list some thread holds a reader of is in a slot, just unlinked, or condemned, and still stores what was put |
| StoreAlloc.FreeKeeps | fpga/aws-fpga/cosim_sc_wrapper/include/shm_lib/simdb.hpp:650-654 | Clearing the version and pushing the block back keep the invariant |
| StorePins.PinnedForever | fpga/aws-fpga/cosim_sc_wrapper/include/shm_lib/simdb.hpp:798-799 | After a get whose buffer was too small, in no continuation does the block of the list return to the free list or serve another list |
| StorePins.TooSmallPins | fpga/aws-fpga/cosim_sc_wrapper/include/shm_lib/simdb.hpp:796-799 | That get returns without dropping the reader it took |
| StorePins.LostForever | fpga/aws-fpga/cosim_sc_wrapper/include/shm_lib/simdb.hpp:1096-1099 | The list of a put that gave up is never in a slot, and its block never comes back, in any continuation |
| StoreSearch.SearchMoves | fpga/aws-fpga/cosim_sc_wrapper/include/shm_lib/simdb.hpp:1082-1099 | Every step of a searching put stays at its slot, goes on to the next one or gives up after the last, takes its slot, or returns |
| StoreSearch.GivingUpLoses | fpga/aws-fpga/cosim_sc_wrapper/include/shm_lib/simdb.hpp:1096-1099 | Whichever step of any thread makes a put give up, or begins to free another list on the way to giving up, its own list is lost from then on |
| StoreSearch.PassesOnMismatch | fpga/aws-fpga/cosim_sc_wrapper/include/shm_lib/simdb.hpp:884-912 | A put goes past a slot only if the live list it found there does not, or no longer, store its key |
| StorePaths.SearchKeeps | fpga/aws-fpga/cosim_sc_wrapper/include/shm_lib/simdb.hpp:1076-1159 | Every step of any thread keeps all searches on filled paths: nothing EMPTY behind any search and any live key, failed comparisons are real, a put that gave up has lost its list |
| StorePaths.PathsAreFilled | fpga/aws-fpga/cosim_sc_wrapper/include/shm_lib/simdb.hpp:1076-1159 | After any schedule no slot between the home of a key in the table and the slot it stands in is EMPTY |
| StorePaths.GivenUpIsLost | fpga/aws-fpga/cosim_sc_wrapper/include/shm_lib/simdb.hpp:1096-1099 | In every run the list of a put that has given up is lost |
| StoreFills.GivingUpNeedsAFill | fpga/aws-fpga/cosim_sc_wrapper/include/shm_lib/simdb.hpp:1082-1099 | In every run a put that has given up has been searching since some step at which another put won a swap into a slot that was not live |
| StoreFills.OnePutNeverGivesUp | fpga/aws-fpga/cosim_sc_wrapper/include/shm_lib/simdb.hpp:1082-1099 | In every run in which no two puts overlap, beside any number of gets and dels, no put gives up |
| StoreVain.GivesUpIffAllExamined | fpga/aws-fpga/cosim_sc_wrapper/include/shm_lib/simdb.hpp:1082-1099 | In every run a searching put has given up iff it has passed every slot |
| StoreVain.ExaminedInVain | fpga/aws-fpga/cosim_sc_wrapper/include/shm_lib/simdb.hpp:1082-1099 | Each slot it passed held, during this very search, a live list that did not, or no longer, store its key when the put went past it |
| StoreFills.GivenUpBesideAFreeSlot | fpga/aws-fpga/cosim_sc_wrapper/include/shm_lib/simdb.hpp:1082-1099 | In every run, while a put that has given up returns, some slot is free |
| StoreMiss.GetMissIsRight | fpga/aws-fpga/cosim_sc_wrapper/include/shm_lib/simdb.hpp:1113-1127 | In every run, when a get answers that its key is missing, no slot that has not changed since the call began stores it |
| StoreMiss.DelMissIsRight | fpga/aws-fpga/cosim_sc_wrapper/include/shm_lib/simdb.hpp:1129-1159 | When a del answers so and no slot has changed since the call began, no slot but the one probed last stores the key |
| StoreMiss.UndisturbedGetIsRight | fpga/aws-fpga/cosim_sc_wrapper/include/shm_lib/simdb.hpp:790-837 | A get during which no slot changes, with its key in a slot and no longer value than its buffer under that key, has copied the whole value of such a slot |
| StoreMiss.CallSeeks | fpga/aws-fpga/cosim_sc_wrapper/include/shm_lib/simdb.hpp:873-912 | Every step of a get or del stays at its slot, also after a lost swap; goes on because what it found does not store its key; is a del that stops at a comparison whose list is gone or marked deleted; is a get that goes on to read the list that compared equal; is a del that marks the slot it has matched; or is past the slots |
| StoreMiss.OnlyValueIsRead | fpga/aws-fpga/cosim_sc_wrapper/include/shm_lib/simdb.hpp:790-837 | If just one slot has the key, what an undisturbed get returns is the value of that slot |
| StoreAnswers.OutOfBlocksIsTrue | fpga/aws-fpga/cosim_sc_wrapper/include/shm_lib/simdb.hpp:1224-1235 | In every run a put answers that there is no block only if the free list was empty at a step of its own during the call |
| StoreAnswers.StoredIsTrue | fpga/aws-fpga/cosim_sc_wrapper/include/shm_lib/simdb.hpp:1085-1106 | A put answers that it has stored only after a step of its own that put its list into a slot |
| StoreAnswers.RemovedIsTrue | fpga/aws-fpga/cosim_sc_wrapper/include/shm_lib/simdb.hpp:1140-1150 | A del answers that it has removed only after a step of its own that took a list under its key out of a slot |
| StoreAnswers.TooBigIsTrue | fpga/aws-fpga/cosim_sc_wrapper/include/shm_lib/simdb.hpp:796-799 | A get answers that the value is too big only if a value longer than its buffer stood in the table under its key at some moment of the call |
| StoreAnswers.VanishedIsTrue | fpga/aws-fpga/cosim_sc_wrapper/include/shm_lib/simdb.hpp:790-837 | A get answers that its list went away only if it found the list it had matched gone or marked deleted |
| StoreAnswers.MissIsTrue | fpga/aws-fpga/cosim_sc_wrapper/include/shm_lib/simdb.hpp:1113-1159 | Whatever slots change: a get misses its key only after passing every slot, and a del every slot but the one probed last, each at a step of the call at which the slot was free or its list did not, or no longer, store the key; or it is a del that compared a list gone or marked deleted. A lost swap of the slot is neither |
| StoreAnswers.ComparisonIsChecked | fpga/aws-fpga/cosim_sc_wrapper/include/shm_lib/simdb.hpp:884-898 | Before the bytes of a list are compared, hash, version and key length were each found equal at a step of the call |
| StoreProgress.CallsAdvance | fpga/aws-fpga/cosim_sc_wrapper/include/shm_lib/simdb.hpp:1082-1159 | In every run, each step inside a call brings it nearer to its return, which with n slots is at most 40 n + 13 steps of its own away, or loses a swap: of the free list, or of a slot that has changed since it was loaded |
| StoreProgress.ProbesInOrder | fpga/aws-fpga/cosim_sc_wrapper/include/shm_lib/simdb.hpp:1082-1159 | In every run a call comes to the slots at hash modulo their number, goes from each only to the one behind it, and a del never to the one in front of the first |
| StoreOverlooks.AGetCanOverlook | fpga/aws-fpga/cosim_sc_wrapper/include/shm_lib/simdb.hpp:884-912 | There is a run in which a get answers that its key is missing although the key is in one slot at every moment of the call |
| StoreOverlooks.KeyStays | fpga/aws-fpga/cosim_sc_wrapper/include/shm_lib/simdb.hpp:1076-1111 | While no del is in progress a key stays in its slot |
| StoreGivesUp.APutCanGiveUp | fpga/aws-fpga/cosim_sc_wrapper/include/shm_lib/simdb.hpp:1082-1099 | There is a run of two threads over two blocks in which a put gives up, and what the slots hold then |
| ReaderRace.LandsElsewhereIffReused | fpga/aws-fpga/cosim_sc_wrapper/include/shm_lib/simdb.hpp:569-582 | With version test and swap as two steps: in every run the winning swap lands on a record of another version iff the block was reused since the last test that passed |
| ReaderRace.CountIsExactUnlessStrayed | fpga/aws-fpga/cosim_sc_wrapper/include/shm_lib/simdb.hpp:569-607 | In every run the reader count is the readers that are held, iff this thread has not taken one on another list |
| ReaderRace.StrayReaderStays | fpga/aws-fpga/cosim_sc_wrapper/include/shm_lib/simdb.hpp:569-607 | A reader taken on another list is never dropped: in every continuation the record keeps that version and counts one more than are held |
| ReaderRace.NoReaderOnDeleted | fpga/aws-fpga/cosim_sc_wrapper/include/shm_lib/simdb.hpp:569-582 | The winning swap takes a reader only of a record not marked deleted at that moment, and adds just one |
| ReaderRace.RefusedForAReason | fpga/aws-fpga/cosim_sc_wrapper/include/shm_lib/simdb.hpp:569-582 | A thread is refused only if the record was of another version, or marked deleted, at a step before |
| ReaderRace.DoneForAReason | fpga/aws-fpga/cosim_sc_wrapper/include/shm_lib/simdb.hpp:583-607 | A thread is done with its reader only after it has dropped one, or found the record to be of another version |
| ReaderRace.ReaderAdvances | fpga/aws-fpga/cosim_sc_wrapper/include/shm_lib/simdb.hpp:569-607 | Every step of the thread brings it nearer to its end, unless it loses a swap because the word has changed |
| ReaderRace.ReaderCanStray | fpga/aws-fpga/cosim_sc_wrapper/include/shm_lib/simdb.hpp:576-594 | For every two versions there is a run in which it happens |
| FreeList.CncrLst.Nxt | fpga/aws-fpga/cosim_sc_wrapper/include/shm_lib/simdb.hpp:447-459 | Takes the first free index, or LIST_END exactly when there is none; the version skips 0 after its maximum |
| FreeList.CncrLst.FreeRun | fpga/aws-fpga/cosim_sc_wrapper/include/shm_lib/simdb.hpp:472-483 | Splices a linked run, in order, in front of the free list and changes no link but that of its end |
| FreeList.CncrLst.Splice | fpga/aws-fpga/cosim_sc_wrapper/include/shm_lib/simdb.hpp:472-483 | For any two indices: free afterwards is what the links from the first lead through, once that of the second leads to the old head |
| FreeList.CncrLst.FreeOne | fpga/aws-fpga/cosim_sc_wrapper/include/shm_lib/simdb.hpp:460-471 | Puts one index in front of the free list |
| FreeList.CncrLst.LnkCnt | fpga/aws-fpga/cosim_sc_wrapper/include/shm_lib/simdb.hpp:492-501 | Counts the free indices and ends |
| FreeList.CncrLst.constructor | fpga/aws-fpga/cosim_sc_wrapper/include/shm_lib/simdb.hpp:428-445 | All indices free, in ascending order |
| Store.CncrStr.BlocksNeeded | fpga/aws-fpga/cosim_sc_wrapper/include/shm_lib/simdb.hpp:629-638 | The least number of blocks that hold the bytes, and the bytes in a last block that is not full |
| Flats.NeededIsEnough | fpga/aws-fpga/cosim_sc_wrapper/include/shm_lib/simdb.hpp:629-638 | That many blocks have room and one less has not |
| Store.CncrStr.Alloc | fpga/aws-fpga/cosim_sc_wrapper/include/shm_lib/simdb.hpp:699-751 | The first blocks of the free list, as many as needed and in their order, become one list under a version never used before; with no free block nothing changes; with too few, one block is lost, or all return and the store is valid iff the record of the last free block ends a list or leads to the last block of one |
| BlockLists.ShortWalkEndsIff | fpga/aws-fpga/cosim_sc_wrapper/include/shm_lib/simdb.hpp:639-649 | The walk over what was linked ends iff the record of the last free block does not lead to a free block |
| BlockLists.FreshShortNeverEnds | fpga/aws-fpga/cosim_sc_wrapper/include/shm_lib/simdb.hpp:639-649 | Where no record was ever written the walk never ends |
| BlockLists.ShortRestoredIff | fpga/aws-fpga/cosim_sc_wrapper/include/shm_lib/simdb.hpp:639-654 | If the walk ends, the store is consistent again, with the same free list, iff that record has the end mark or leads to a block that has it |
| BlockLists.ShortClears | fpga/aws-fpga/cosim_sc_wrapper/include/shm_lib/simdb.hpp:639-649 | Which versions such a free clears in a live list: from the block the record leads to up to, and without, the last one; and none in any other list |
| BlockLists.ShortLosesIff | fpga/aws-fpga/cosim_sc_wrapper/include/shm_lib/simdb.hpp:569-582 | The handle of a live list is refused afterwards iff the record leads to its first block and it has more than one |
| BlockLists.AShortAllocCanLose | fpga/aws-fpga/cosim_sc_wrapper/include/shm_lib/simdb.hpp:718-722 | There is a consistent store of four blocks in which it does |
| BlockLists.AllocKeeps | fpga/aws-fpga/cosim_sc_wrapper/include/shm_lib/simdb.hpp:699-751 | Allocation keeps every live list, its links in both arrays, the partition of the blocks and the deadness of old handles |
| BlockLists.WrittenIsLinked | fpga/aws-fpga/cosim_sc_wrapper/include/shm_lib/simdb.hpp:720-736 | The records written one by one make the popped blocks one list that ends in LIST_END |
| BlockLists.ListIsRun | fpga/aws-fpga/cosim_sc_wrapper/include/shm_lib/simdb.hpp:472-483 | `s_lv` links every live list in the same order as `s_bls[].idx` |
| BlockLists.BlocksArePartitioned | fpga/aws-fpga/cosim_sc_wrapper/include/shm_lib/simdb.hpp:699-751 | A block is free iff it is in no live list, and is in at most one |
| BlockLists.AllocThenFreeRestores | fpga/aws-fpga/cosim_sc_wrapper/include/shm_lib/simdb.hpp:639-654 | Allocating a list and freeing it at once restores the free-list sequence, the lists and the owners |
| BlockLists.HandleIsCurrentIffLive | fpga/aws-fpga/cosim_sc_wrapper/include/shm_lib/simdb.hpp:569-582 | The version of a record matches a handle alloc once gave out iff that list lives, wherever its blocks have been since |
| Store.CncrStr.FindEndSetVersion | fpga/aws-fpga/cosim_sc_wrapper/include/shm_lib/simdb.hpp:639-649 | Returns the last block; writes the version into the head and every block but the last, and nothing else |
| Store.CncrStr.DoFree | fpga/aws-fpga/cosim_sc_wrapper/include/shm_lib/simdb.hpp:650-654 | Splices exactly the blocks of the list, in order, in front of the free list, clears the version of its head, and touches no other block |
| Store.CncrStr.Restock | fpga/aws-fpga/cosim_sc_wrapper/include/shm_lib/simdb.hpp:650-654 | For any blocks the records lead through: what it writes into each record, and the free list by its own links |
| Store.CncrStr.IncReaders | fpga/aws-fpga/cosim_sc_wrapper/include/shm_lib/simdb.hpp:569-582 | Counts a reader iff the version matches and the list is not marked deleted; otherwise returns the empty record and changes nothing |
| Store.CncrStr.DecReadersOrDel | fpga/aws-fpga/cosim_sc_wrapper/include/shm_lib/simdb.hpp:583-607 | Drops a reader or deletes, iff the version matches; frees the list exactly at the delete that finds no reader and at the last reader of a deleted list, and answers false then and for a stale handle |
| Store.CncrStr.Free | fpga/aws-fpga/cosim_sc_wrapper/include/shm_lib/simdb.hpp:752-755 | Frees a live list nobody reads, marks one that is read, ignores a list that is gone |
| Store.CncrStr.WriteBlock | fpga/aws-fpga/cosim_sc_wrapper/include/shm_lib/simdb.hpp:655-664 | Overwrites exactly the given bytes of one block; length 0 is a whole block |
| Store.CncrStr.WriteWhole | fpga/aws-fpga/cosim_sc_wrapper/include/shm_lib/simdb.hpp:771-774 | Copies whole blocks along the list and nothing else |
| Store.CncrStr.SplitOf | fpga/aws-fpga/cosim_sc_wrapper/include/shm_lib/simdb.hpp:756-769 | How key and value fall into whole blocks, one shared block and a rest, for all keys |
| Flats.JaggedIsRemainder | fpga/aws-fpga/cosim_sc_wrapper/include/shm_lib/simdb.hpp:761 | The remainder test of put is what `Jagged` says: the last block is not full |
| Flats.SplitCounts | fpga/aws-fpga/cosim_sc_wrapper/include/shm_lib/simdb.hpp:760-769 | The blocks put writes are exactly the needed ones |
| Flats.PutDone | fpga/aws-fpga/cosim_sc_wrapper/include/shm_lib/simdb.hpp:771-787 | After the writes of put every block of the list holds its share of key and value, and no other block changed |
| Flats.SharesMakeTheWhole | fpga/aws-fpga/cosim_sc_wrapper/include/shm_lib/simdb.hpp:756-788 | If every block holds its share, the blocks end to end are the data |
| Store.CncrStr.Put | fpga/aws-fpga/cosim_sc_wrapper/include/shm_lib/simdb.hpp:756-788 | Stores key and value and leaves the bytes of every other list alone; behind a key that fills its last block the value bytes stay what they were |
| BlockLists.OtherListsKeepBytes | fpga/aws-fpga/cosim_sc_wrapper/include/shm_lib/simdb.hpp:756-788 | Writing into one list changes the bytes of no other |
| Store.CncrStr.ReadBlock | fpga/aws-fpga/cosim_sc_wrapper/include/shm_lib/simdb.hpp:665-675 | Copies a piece of a block under a reader and leaves no reader behind |
| Store.CncrStr.ReadTail | fpga/aws-fpga/cosim_sc_wrapper/include/shm_lib/simdb.hpp:818-826 | The continuation copies everything behind the key up to maxlen or the end of the last block |
| Store.CncrStr.Get | fpga/aws-fpga/cosim_sc_wrapper/include/shm_lib/simdb.hpp:790-837 | With room for the value: the bytes behind the key, the value first, state unchanged; a refused handle gets nothing; too small a buffer gets nothing and leaves a reader |
| BlockLists.ReadsValueFirst | fpga/aws-fpga/cosim_sc_wrapper/include/shm_lib/simdb.hpp:813-826 | What get copies begins with the value |
| Store.CncrStr.GetKey | fpga/aws-fpga/cosim_sc_wrapper/include/shm_lib/simdb.hpp:838-872 | The key, byte for byte; a key that fills its last block comes with the whole next block |
| Store.CncrStr.MemcmpBlk | fpga/aws-fpga/cosim_sc_wrapper/include/shm_lib/simdb.hpp:873-883 | TRUE iff the bytes of the block agree, REMOVED iff no reader could be taken |
| Store.CncrStr.Compare | fpga/aws-fpga/cosim_sc_wrapper/include/shm_lib/simdb.hpp:884-912 | MATCH_TRUE iff hash, length and every byte of the key agree, for chains of every length; a stale handle is FALSE, a deleted list REMOVED; ends; leaves every count as it was |
| Store.CncrStr.Len | fpga/aws-fpga/cosim_sc_wrapper/include/shm_lib/simdb.hpp:913-921 | The lengths of a live list, deleted or not, and 0 for a stale handle |
| Store.CncrStr.AdmitsIffAccepts | fpga/aws-fpga/cosim_sc_wrapper/include/shm_lib/simdb.hpp:569-582 | For every handle alloc gave out, a reader can be taken iff its list lives and is not marked deleted |
| ProbeTable.PutIsUpdate | fpga/aws-fpga/cosim_sc_wrapper/include/shm_lib/simdb.hpp:1076-1111 | For every table, also with tombstones and duplicates: after put the key finds the new value and every other key what it found before |
| ProbeTable.DelIsRemoval | fpga/aws-fpga/cosim_sc_wrapper/include/shm_lib/simdb.hpp:1129-1159 | del changes no other key, and its own key is gone iff it was in at most one slot and not in the slot probed last |
| ProbeTable.DelUncoversAnOlderValue | fpga/aws-fpga/cosim_sc_wrapper/include/shm_lib/simdb.hpp:1129-1159 | A table reached by put and del in which deleting a key uncovers its older value |
| ProbeTable.PutKeepsOnce | fpga/aws-fpga/cosim_sc_wrapper/include/shm_lib/simdb.hpp:1082-1106 | put stores a key twice iff it takes a free slot in front of the one that holds the key |
| ProbeTable.RunIsMap | fpga/aws-fpga/cosim_sc_wrapper/include/shm_lib/simdb.hpp:1076-1159 | Over every run of puts that find a slot and dels that can remove, lookups agree with a map |
| ProbeTable.RunKeepsPath | fpga/aws-fpga/cosim_sc_wrapper/include/shm_lib/simdb.hpp:1082-1159 | In every run from an empty table a search that stops at the first EMPTY slot finds what the full circle finds |
| ProbeTable.PutKeepsPath | fpga/aws-fpga/cosim_sc_wrapper/include/shm_lib/simdb.hpp:1082-1106 | put keeps the path from home to every live key free of EMPTY slots, and empties no slot |
| ProbeTable.DelKeepsPath | fpga/aws-fpga/cosim_sc_wrapper/include/shm_lib/simdb.hpp:1129-1159 | So does del |
| SlotTable.NeverFull | fpga/aws-fpga/cosim_sc_wrapper/include/shm_lib/simdb.hpp:1082-1099 | Each live slot owns a block and the new list another, so with as many slots as blocks put always finds a slot |
| SlotTable.SwapDone | fpga/aws-fpga/cosim_sc_wrapper/include/shm_lib/simdb.hpp:1085-1106 | After the swap of put the table differs in one slot, and the list that was there is in no slot |
| HashTable.CncrHsh.constructor | fpga/aws-fpga/cosim_sc_wrapper/include/shm_lib/simdb.hpp:1054-1068 | The owner starts with as many slots as blocks, all EMPTY |
| HashTable.CncrHsh.PutHashed | fpga/aws-fpga/cosim_sc_wrapper/include/shm_lib/simdb.hpp:1076-1111 | Swaps the handle into the first probed slot that is not live or holds the key and returns what was there; otherwise EMPTY and no change |
| HashTable.CncrHsh.RunMatch | fpga/aws-fpga/cosim_sc_wrapper/include/shm_lib/simdb.hpp:1113-1127 | Finds the first probed slot that holds the key, after at most one full circle |
| HashTable.CncrHsh.DelHashed | fpga/aws-fpga/cosim_sc_wrapper/include/shm_lib/simdb.hpp:1129-1159 | Marks the first slot that holds the key deleted, but never looks at the slot probed last |
| HashTable.CncrHsh.Get | fpga/aws-fpga/cosim_sc_wrapper/include/shm_lib/simdb.hpp:1212-1223 | Found iff the key is in a slot; a buffer with room gets the value |
| HashTable.CncrHsh.Len | fpga/aws-fpga/cosim_sc_wrapper/include/shm_lib/simdb.hpp:1193-1211 | The lengths of the key and value found, 0 for a missing or empty key |
| HashTable.CncrHsh.Put | fpga/aws-fpga/cosim_sc_wrapper/include/shm_lib/simdb.hpp:1224-1241 | Succeeds iff there are enough free blocks; then the table takes key and value in one slot, and the list that was there is freed or left to its readers; otherwise the table stays, and what becomes of the store is that of `Alloc` |
| HashTable.CncrHsh.Del | fpga/aws-fpga/cosim_sc_wrapper/include/shm_lib/simdb.hpp:1242-1250 | The table loses the first slot that holds the key, and its list is freed or left to its readers |
| HashTable.CncrHsh.NothingIsLost | fpga/aws-fpga/cosim_sc_wrapper/include/shm_lib/simdb.hpp:1224-1250 | With no reader left behind, free blocks and the blocks of the lists in the slots partition all blocks |
| HashTable.CncrHsh.Nxt | fpga/aws-fpga/cosim_sc_wrapper/include/shm_lib/simdb.hpp:1174-1189 | The cyclically first live slot, or SLOT_END iff there is none |
| KeySearch.NoLiveSlot | fpga/aws-fpga/cosim_sc_wrapper/include/shm_lib/simdb.hpp:1174-1189 | The circle finds nothing iff no slot is live |
| SimDb.simdb.Put | fpga/aws-fpga/cosim_sc_wrapper/include/shm_lib/simdb.hpp:1695-1698 | Succeeds iff there are enough free blocks; then the map takes the key, with the value passed if the key does not fill its last block, and every other key is untouched; with too few the map is untouched, and the store valid iff there were no free blocks or alloc restores it |
| SimDb.simdb.Get | fpga/aws-fpga/cosim_sc_wrapper/include/shm_lib/simdb.hpp:1699-1713 | Returns exactly what the map holds, "" for a missing key, and changes nothing |
| SimDb.simdb.Del | fpga/aws-fpga/cosim_sc_wrapper/include/shm_lib/simdb.hpp:1755-1758 | No other key changes; the key is gone iff it was in one slot at most and not in the slot probed last |
| SimDb.simdb.Nxt | fpga/aws-fpga/cosim_sc_wrapper/include/shm_lib/simdb.hpp:1633-1645 | The next live slot from where the last search ended, and where the next one begins |
| SimDb.simdb.NxtKey | fpga/aws-fpga/cosim_sc_wrapper/include/shm_lib/simdb.hpp:1714-1739 | One round of the enumeration, with the distance as the code computes it |
| SimDb.simdb.GetKeyStrs | fpga/aws-fpga/cosim_sc_wrapper/include/shm_lib/simdb.hpp:1740-1754 | Sorted, without repetition; each entry is the non-empty key, without a zero byte, of a live slot under its version; every such key of the table is there if the lap is complete, and only then if keys are in one slot each and have no zero byte |
| KeySearch.KeysAreSound | fpga/aws-fpga/cosim_sc_wrapper/include/shm_lib/simdb.hpp:1740-1754 | The enumeration never invents a key, from any slot and any count |
| KeySearch.RoundsAreBounded | fpga/aws-fpga/cosim_sc_wrapper/include/shm_lib/simdb.hpp:1721-1752 | It takes at most as many rounds as there are blocks, because each counts at least 1 |
| KeyLap.AllFoundIffComplete | fpga/aws-fpga/cosim_sc_wrapper/include/shm_lib/simdb.hpp:1714-1754 | The rounds find every live slot iff each live slot, but the one the lap meets last, is the last slot of the array or is neither the start nor right behind a live slot |
| KeyLap.KeysAreHits | fpga/aws-fpga/cosim_sc_wrapper/include/shm_lib/simdb.hpp:1714-1754 | The strings returned are exactly the non-empty keys without a zero byte of the slots found |
| KeyLap.AllKeysIffComplete | fpga/aws-fpga/cosim_sc_wrapper/include/shm_lib/simdb.hpp:1740-1754 | A complete lap returns the key of every live slot whose key is not empty and has no zero byte; if keys are in one slot each and have no zero byte, only a complete lap does |
| KeyLap.ThirdOfThreeIsMissed | fpga/aws-fpga/cosim_sc_wrapper/include/shm_lib/simdb.hpp:1714-1754 | Three live slots in a row among five, behind a start that is not live: the third is not found |
| StartUp.GoneIff | fpga/aws-fpga/cosim_sc_wrapper/src/transactors/irq2gss.cpp:38-41 | After the listed keys were deleted one by one, a key is gone iff it was not there, or was listed and could be removed |
| StartUp.StartClearsIff | fpga/aws-fpga/cosim_sc_wrapper/src/transactors/irq2gss.cpp:38-41 | The start leaves no key behind iff every key of the table is listed and can be removed |
| StartUp.MessageSurvives | fpga/aws-fpga/cosim_sc_wrapper/src/transactors/irq2gss.cpp:38-41 | With a key in slot 0, where the first search starts, every other message survives the start |
| SimDb.simdb.DeleteAll | fpga/aws-fpga/cosim_sc_wrapper/src/transactors/irq2gss.cpp:38-41 | Enumerating and deleting leaves just the table that deleting the enumerated keys one by one gives |
| KeySearch.InsertSorts | fpga/aws-fpga/cosim_sc_wrapper/include/shm_lib/simdb.hpp:1684-1689 | Insertion into the ordered set keeps order and keeps the entry that is there |
| KeySearch.LessIsLexicographic | fpga/aws-fpga/cosim_sc_wrapper/include/shm_lib/simdb.hpp:1684-1689 | The order of the set is that of the bytes: at the first difference the smaller byte, or the proper prefix, comes first |
| KeySearch.KeyAtIs | fpga/aws-fpga/cosim_sc_wrapper/include/shm_lib/simdb.hpp:1735 | A slot yields a string iff it is live and its key is not empty and has no zero byte, and then that key |
| SlotWords.WordRoundTrip | fpga/aws-fpga/cosim_sc_wrapper/include/shm_lib/simdb.hpp:992-1016 | For all 64-bit words and both parities, words and handles correspond one to one |
| SlotWords.VerIdxs.Load | fpga/aws-fpga/cosim_sc_wrapper/include/shm_lib/simdb.hpp:1251-1260 | load returns the handle the slot stands for |
| SlotWords.VerIdxs.StoreVi | fpga/aws-fpga/cosim_sc_wrapper/include/shm_lib/simdb.hpp:992-1005 | store_vi exchanges the slot for the handle given and returns the one it held |
| SlotWords.VerIdxs.CmpexVi | fpga/aws-fpga/cosim_sc_wrapper/include/shm_lib/simdb.hpp:1006-1016 | cmpex_vi succeeds iff load equals `expected`, and then the slot loads as `desired`; no other slot changes |
| SlotWords.VerIdxs.Init | fpga/aws-fpga/cosim_sc_wrapper/include/shm_lib/simdb.hpp:1161-1172 | After init every slot loads as EMPTY, the number 0xFFFFFFFF |
| SlotWords.IndicesTouch | fpga/aws-fpga/cosim_sc_wrapper/include/shm_lib/simdb.hpp:996-999 | The indices of an even slot and its neighbour are the facing halves of their words, bit for bit |
| SlotWords.StepsAreInverse | fpga/aws-fpga/cosim_sc_wrapper/include/shm_lib/simdb.hpp:1261-1262 | nxtIdx and prevIdx are inverse, with the 32-bit wrap at 0 |
| SlotWords.StepsAreTheCircle | fpga/aws-fpga/cosim_sc_wrapper/include/shm_lib/simdb.hpp:1261-1262 | With the 32-bit wrap they are the steps around the slots that the table models use |
| Circle.HomeIsRemainder | fpga/aws-fpga/cosim_sc_wrapper/include/shm_lib/simdb.hpp:1082 | The first slot of a hash is its remainder by the number of slots |
| SlotWords.HandleIsFaithful | fpga/aws-fpga/cosim_sc_wrapper/include/shm_lib/simdb.hpp:992-1016 | Handles of words and handles of the table models correspond one to one |
| SlotWords.MarksAgree | fpga/aws-fpga/cosim_sc_wrapper/include/shm_lib/simdb.hpp:992-1016 | A slot word is live iff its handle is; 0xFFFFFFFF marks an empty slot and 0xFFFFFFFE a deleted one, in words and in handles |
| SlotWords.ProbesCoverOnce | fpga/aws-fpga/cosim_sc_wrapper/include/shm_lib/simdb.hpp:1082-1099 | A loop from the home slot to the one before it visits every slot exactly once |
| SlotWords.SizeIsKeptIffPowerOf2 | fpga/aws-fpga/cosim_sc_wrapper/include/shm_lib/simdb.hpp:951-963 | nextPowerOf2 keeps a nonzero size iff it is a power of two |
| SlotWords.NextPowerOf2IsLeast | fpga/aws-fpga/cosim_sc_wrapper/include/shm_lib/simdb.hpp:951-963 | It is the least power of two not below its argument, up to 2^31 |
| Layout.PartsAreDisjoint | fpga/aws-fpga/cosim_sc_wrapper/include/shm_lib/simdb.hpp:1505-1511 | On a page-aligned base flags, slots, version, records, head, links and blocks never overlap, and all lie within MemSize iff block size times block count fits 32 bits |
| Layout.HeadAddr | fpga/aws-fpga/cosim_sc_wrapper/include/shm_lib/simdb.hpp:428-433 | The head of the free list lies at a multiple of 64, 1 to 64 bytes behind its region |
| Layout.AtomicsAreAligned | fpga/aws-fpga/cosim_sc_wrapper/include/shm_lib/simdb.hpp:428-436 | Slots and version are 8-byte aligned, and the head has a 64-byte line to itself |
| Layout.WhereThingsAre | fpga/aws-fpga/cosim_sc_wrapper/include/shm_lib/simdb.hpp:1505-1511 | Start and size of every part in numbers, for slots of 8 bytes, records of 24 and links of 4, and the size of the whole |
| Layout.BlocksAreDisjoint | fpga/aws-fpga/cosim_sc_wrapper/include/shm_lib/simdb.hpp:626-628 | Blocks do not overlap and lie in the block area |
| Layout.TooManySlotsRunIntoTheStore | fpga/aws-fpga/cosim_sc_wrapper/include/shm_lib/simdb.hpp:1054-1068 | The slots stay in front of the store iff there are at most one more than blocks |
| PayloadText.Gp2Str | models/nvdla/src/adaptors/gp2str.cpp:17-77 | The loops print the line of the payload; or one of the three complaints, word for word, for a mask without length, a length without mask, or data missing, in this order |
| PayloadText.LineRoundTrip | models/nvdla/src/adaptors/gp2str.cpp:17-77 | From the line a reader gets back direction, address, length, response, and for each byte its value if there is no mask or the mask byte at its index modulo the mask length is 0xff, and otherwise that it is disabled; a complaint is not read as a payload |
| PayloadText.GroupsRoundTrip | models/nvdla/src/adaptors/gp2str.cpp:34-70 | For every address, length and mask the groups can be read back, breaks at multiples of 4, whole words or joined cells: byte k comes back iff there is no mask or its mask byte is 0xff |
| PayloadText.WordRoundTrip | models/nvdla/src/adaptors/gp2str.cpp:50-55 | A group of four enabled bytes printed as a little-endian word |
| PayloadText.WordText | models/nvdla/src/adaptors/gp2str.cpp:53-54 | The word prints its bytes from the last to the first |
| PayloadText.CellRoundTrip | models/nvdla/src/adaptors/gp2str.cpp:86-99 | A cell tells its byte, or that it is disabled |
| PayloadText.WrapIsModulo | models/nvdla/src/adaptors/gp2str.cpp:79-84 | The mask index is the byte index modulo the mask length |
| PayloadText.CellIs | models/nvdla/src/adaptors/gp2str.cpp:79-84 | A byte is enabled iff there is no mask or the mask byte at its index modulo the mask length is 0xff |
| PayloadText.FieldsOfLine | models/nvdla/src/adaptors/gp2str.cpp:72-74 | Every line has its labels in this order, the direction as a digit, the address in base 16 and the length in base 10 |
| PayloadText.ALine | models/nvdla/src/adaptors/gp2str.cpp:17-77 | One line in full, with a partial first group, a disabled byte, a whole word and a rest |
| PayloadText.NumberRoundTrip | models/nvdla/src/adaptors/gp2str.cpp:72-74 | Hexadecimal and decimal numbers are read back and have no leading zero |
| IrqHandshake.StepKeeps | fpga/aws-fpga/cosim_sc_wrapper/src/transactors/irq2gss.cpp:52-91 | Every step of the thread and of the peer keeps the handshake invariant |
| IrqHandshake.ExactlyOnceInOrder | fpga/aws-fpga/cosim_sc_wrapper/src/transactors/irq2gss.cpp:52-91 | In every run the transmitted values are the low bits of the first published ones, at most two behind |
| IrqHandshake.AcknowledgedBeforeSent | fpga/aws-fpga/cosim_sc_wrapper/src/transactors/irq2gss.cpp:68-89 | The peer takes just the values it published, in order, each before it is transmitted |
| IrqHandshake.ComplaintOnlyAtStart | fpga/aws-fpga/cosim_sc_wrapper/src/transactors/irq2gss.cpp:60-64 | The complaint comes at most once, never after a transmission, and not at all if the down mailbox was empty at the start |
| IrqHandshake.ComplaintIffMessageLeft | fpga/aws-fpga/cosim_sc_wrapper/src/transactors/irq2gss.cpp:60-64 | From any initial state the complaint can come iff the down mailbox is not empty there |
| IrqHandshake.ThreadAdvances | fpga/aws-fpga/cosim_sc_wrapper/src/transactors/irq2gss.cpp:52-91 | Every step of the thread brings it nearer to a transmission, or transmits, unless nothing is up or the peer has yet to take the message down |
| IrqHandshake.SentGrows | fpga/aws-fpga/cosim_sc_wrapper/src/transactors/irq2gss.cpp:86-89 | Transmitted values are never taken back |
| IrqHandshake.RoundDelivers | fpga/aws-fpga/cosim_sc_wrapper/src/transactors/irq2gss.cpp:58-89 | A message that is up is put down and, once taken, transmitted |

## Left out

- StoreRuns.StepKeeps: lists of one block, because what the step models state is false of longer ones once a splice goes wrong: `ChainSplices.WholeIffTakenInOrder` says exactly when it does, and what happens afterwards is not modelled; the version test and the swap of a reader count are one step (`ReaderRace` has them apart), and each plain read or write of a record field or of a block is one step; weaker memory orders and torn stores are not modelled.
- StoreRuns.EveryBlockIsInOnePlace: lists of one block; `BlockLists.BlocksArePartitioned` has chains, one call at a time.
- StoreRuns.ReadersProtectTheirList: version test and swap of the reader count are one step; `ReaderRace.CountIsExactUnlessStrayed` says what two steps add.
- StoreRuns.LastOneOutFrees: version test and swap of the reader count are one step.
- StoreRuns.FreedExactlyOnce: lists of one block.
- StoreRuns.GetReturnsAValueThatWasPut: values that share one block with their key, and a buffer as large as the value or too small; chains and larger buffers are covered one call at a time.
- StoreRuns.QuiescentBlocks: lists of one block; `HashTable.CncrHsh.NothingIsLost` has chains, one call at a time.
- StoreRuns.StaleHandlesStayDead: versions are unbounded numbers, so the wrap of the 32-bit list version is not modelled; nor is that of the 30-bit reader count.
- StoreFresh.GetIsFresh: lists of one block.
- StoreMiss.GetMissIsRight: lists of one block; so are `StoreMiss.DelMissIsRight` and `StoreMiss.UndisturbedGetIsRight`.
- StoreMiss.DelMissIsRight: says nothing about a del during which some slot changed, because a del stops at the first list that goes away while it compares it, and does not look at the slots behind; `StoreAnswers.MissIsTrue` says what such a del has seen.
- StoreAnswers.MissIsTrue: lists of one block; so are the other answers in `StoreAnswers`. Each reason held at some step of the call, not at its return.
- StoreProgress.CallsAdvance: lists of one block; a call that keeps losing swaps need not return.
- StoreAlloc.AllocKeeps: allocation of one block; `BlockLists.AllocKeeps` has chains, one call at a time.
- StoreAlloc.FreeKeeps: a list of one block; `Store.CncrStr.DoFree` has chains, one call at a time.
- StoreSearch.PassesOnMismatch: keys that share one block with their value.
- StoreProbe.ProbeKeeps: a key that lies in one block, so there is one comparison of bytes per slot; `Store.CncrStr.Compare` has chains, one call at a time.
- StoreProbe.ReadKeeps: a value that lies in one block; `Store.CncrStr.Get` has chains, one call at a time.
- FreeListSteps.NoIndexHasTwoOwners: the head version is unbounded, so its 32-bit wrap is not modelled; `FreeList.CncrLst` has it, one call at a time.
- StoreGivesUp.APutCanGiveUp: one run; the runs in which a put gives up are characterised by `StoreVain.GivesUpIffAllExamined` and `StoreFills.GivingUpNeedsAFill`, and a fill by another put is necessary, not sufficient.
- HashTable.CncrHsh.Put: requires a value of at least one byte, because behind the key of an empty one the source copies a whole block from the value's address over the end of the block; and a key that does not fill its last block or a value of at most one block, because otherwise the source reads on behind the caller's key; and, with too few free blocks but more than one, that the record of the last one does not lead to a free block, because the source never returns otherwise.
- SimDb.simdb.Put: requires the same; behind a key that fills its last block it stores some value of the same length, and `Store.CncrStr.Put` says which.
- Store.CncrStr.Put: requires the same of key and value.
- Store.CncrStr.Alloc: requires klen and vlen of at least 1, for the lists that put can fill; and, with too few free blocks but more than one, that the record of the last one does not lead to a free block, because the source never returns otherwise (`BlockLists.ShortWalkEndsIff`). What later calls do in a store that it left invalid is not modelled.
- Store.CncrStr.GetKey: bytes behind the caller's buffer are returned as bytes; that they overwrite the caller's memory is not modelled.
- SimDb.simdb.GetKeyStrs: if two slots hold one key, or a key has a zero byte, an incomplete lap may still return every other key; `KeyLap.KeysAreHits` says which keys it returns in all cases.
- The mailboxes of the handshake are values that one step reads or writes; that the store keeps them so is what the store models prove.
- Failed compare-and-swaps and the loops that repeat them are in the step models only; in the classes every swap succeeds.
- The classes keep slots as (index, version) pairs and the block area as rows of bytes; `SlotWords` and `Layout` relate them to words and addresses on their own.
- The hash function is a parameter; nothing depends on it but that put stores the hash of its key.
- Version fields returned by `len`, the number of blocks returned by `alloc` and the first block returned by `put` are not modelled.
- `SharedMem` and everything that opens, maps, counts or closes the shared memory: operating-system calls.
- `ipd`, `prev`, `CncrHsh::doFree`, `operator[]` and the vector overloads of put and get: accessors with nothing to prove.
- The clock waits of the interrupt thread, the initiator socket and its extension: the transmission is one step with a value.
- The peer of the interrupt thread beyond the handshake, and the other transactors, adaptors and command-line code.
