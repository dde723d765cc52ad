# A verified model of flashmap

flashmap is a concurrent map with one writer and any number of readers. It keeps two copies of the
map. Readers use one copy and the writer edits the other, logging each edit. Dropping the write guard
swaps the copies handle by handle, and the next write guard replays the log on the copy that readers have
left. This project models that design in Dafny and proves that it works in every interleaving.

| module | what it holds |
|---|---|
| `Store`, `Bits`, `RefCounts` | map indices; masks and shifts on words of any width; the packed reference count, as a class and as a pair of index and count |
| `Cores` | the shared memory (`residual`, the registered counts, the registered thread, the writer's map index), as a value and as a class over packed words |
| `Protocol`, `ProtocolInv`, `ProtocolTheorems` | the reader/writer protocol as a state machine of atomic steps, its invariant, and what follows for all runs |
| `Progress` | why a waiting writer gets on, and that it is the one that is woken |
| `Overflow` | how few guards it takes to reach the two windows before an abort |
| `OpLog` | the log, its unchecked replay, and the bookkeeping of identities |
| `Ownership`, `OwnershipInv` | the writer's data: both tables, the log, the user's tokens, and the fate of every key and value |
| `WriteHandles` | the writer as an object that edits maps and log in place, proved against `Ownership` |
| `System`, `SystemInv`, `SystemTheorems` | protocol and data together, next to an abstract map with versions |
| `SystemFates` | every fate told from the acts of the users alone: what was given, leaked, reclaimed, handed back |
| `SystemEnd` | from where the map can be brought to its end |

How the pieces meet:

- `Protocol.Next` changes the memory with the same functions (`Incremented`, `Decremented`, `Swapped`,
  `AddResidual`) that the methods of `RefCount` and `Core` are proved to compute on packed words.
- `System.Do` changes the data with the functions that the methods of `WriteHandle` are proved to compute.
- Both aborts are steps of their own. An increment that finds the overflow bit stays in the word
  (`Failing`) until it aborts the process, and `publish` may count it meanwhile; an overflowed sum
  (`Doomed`) waits for its sign test while readers go on. What holds in these two windows is part of the
  invariant and of the theorems.
- The width of a word is a parameter. `half` stands for `-isize::MIN`, which is also the weight of the flag bit.
- Every key and value passed to the map gets an identity, shared by all aliases of it. One equation over
  multisets (`Ownership.Conserved`) says where each identity is. Destroying an alias or taking it back
  requires that its identity is alive.
- The version of a guard, the cycle number, the set of cycles that had a waker, and the abstract map's
  versions are bookkeeping that the program does not have.
- The borrow rules that the types enforce are part of what is enabled: a handle is dropped only when it has
  no guard in any stage, and no call that synchronizes begins while a write guard or an `Evicted` lives.
- A function returned by `reclaimer` shares the borrow of the handle, so it may be used until the next write
  guard begins, also across further calls that synchronize.
- An `Evicted` may outlive its write guard: its lifetime is that of the borrow of the handle. The text at
  src/write.rs:445-446 says otherwise; the model follows the signatures, so leaking is possible after the publish.

## Model

| member | source | states |
|---|---|---|
| Bits.SplitWord | src/core/refcount.rs:13-29 | on words of any width the shift finds the flag, the mask the count, and the single-bit mask the bit below the flag |
| RefCounts.Layout | src/core/refcount.rs:13-29 | what each shift and mask of the source reads from a word, for every word |
| RefCounts.RefCount.ToMapIndex | src/core/refcount.rs:26-29 | the top bit alone decides the index, and it is always one of the two encodings |
| RefCounts.RefCount.constructor | src/core/refcount.rs:20-24 | a new word points to the given map and counts nothing |
| RefCounts.RefCount.Increment | src/core/refcount.rs:32-57 | adds one guard and returns the index before it; aborts exactly when the count had reached the overflow bit; a full count would carry into the flag |
| RefCounts.RefCount.Decrement | src/core/refcount.rs:60-63 | removes one guard and returns the current index; an empty count would borrow from the flag |
| RefCounts.RefCount.SwapMaps | src/core/refcount.rs:67-73 | toggles the index only, and returns the count, which fits in an isize |
| RefCounts.FlagIsIsolated | src/core/refcount.rs:32-73 | in every interleaving with fewer than half/2 increments between overflow check and abort, swaps alone toggle the flag and the count is the number of guards and failed increments |
| RefCounts.FlagIsIsolatedExactly | src/core/refcount.rs:32-73 | over any run of increments, decrements and swaps that holds all along if and only if guards and failed increments never add up to half |
| RefCounts.CarryNeedsFailing | src/core/refcount.rs:44-55 | the bound half/2 is tight: half increments in a row toggle the flag without a swap |
| Cores.Core.constructor | src/core/mod.rs:63-70 | the empty map: residual zero, no thread, the writer on the second copy |
| Cores.Core.NewReader | src/core/mod.rs:80-89 | registers a word that points away from the writer's map; nothing else changes |
| Cores.Core.ReleaseRefcount | src/core/mod.rs:91-95 | unregisters that word only |
| Cores.Core.Guard | src/read.rs:96-104 | counts a guard and returns the index to read, or aborts |
| Cores.Core.DropGuard | src/read.rs:158-167 | uncounts the guard and releases `residual` exactly when the handle points elsewhere |
| Cores.Core.ReleaseResidual | src/core/mod.rs:98-128 | subtracts one; exactly the last-residual value makes it store zero and unpark the registered thread |
| Cores.Core.Announce | src/core/mod.rs:138-155 | parks exactly when guards are left at the announcement; if readers have released the last ones meanwhile, residual is zero again |
| Cores.Core.Synchronize | src/core/mod.rs:131-156 | parks exactly when guards are left, with its thread registered and the offset added; otherwise nothing changes |
| Cores.Core.SwapAll | src/core/mod.rs:174-188 | swaps every registered word once; the wrapped sum turns negative exactly when the true sum exceeds isize::MAX, else it is the true sum |
| Cores.Core.Publish | src/core/mod.rs:164-195 | flips the writer's map, swaps all words, adds the true sum to residual; aborts exactly on overflow |
| ProtocolInv.RunKeeps | src/core/mod.rs:79-196 | the invariant holds after every run of reader, writer and stray-unpark steps, through failed increments and overflowed sums |
| ProtocolTheorems.MutualExclusion | src/core/mod.rs:131-195 | while the writer flushes or edits, all reading guards and all failed increments have the last version, none points at its map and no release is under way |
| ProtocolTheorems.ResidualAccounting | src/core/mod.rs:98-195 | residual plus the pending sum is the number of residual guards and of failed increments that publish has counted, offset by isize::MIN exactly while the announcement stands; this equation holds if and only if no overflowed sum awaits its test, or one does and residual is positive, counted down past isize::MIN; residual is zero whenever publish starts |
| ProtocolTheorems.NoLostWakeup | src/core/mod.rs:98-155 | a parked writer has a residual guard, a reader about to store zero or to unpark, a token, or a counted increment about to abort; a value read again is zero exactly when nothing is outstanding, and negative otherwise |
| ProtocolTheorems.RegistrationIsConsistent | src/core/mod.rs:80-95 | whenever the lock is free every word points away from the writer's map; every word counts its handle's guards and failed increments and stays below the flag |
| ProtocolTheorems.OnlyCrowdsAreExcluded | src/core/refcount.rs:44-55 | an increment the protocol excludes would find the overflow bit while half/2 - 1 others on its handle are failing already |
| ProtocolTheorems.RegistrationFollowsSteps | src/core/mod.rs:80-95 | in every run a handle is registered exactly from the step that makes it to the step that drops it |
| ProtocolTheorems.DroppedReaderIsGone | src/read.rs:113-117 | until its key is taken again, no guard of a dropped handle is made and no publish swaps it, in any run; the other handles keep words and versions |
| ProtocolTheorems.WakersAreTimely | src/core/mod.rs:107-127 | a reader about to store zero belongs to the current cycle, and overwrites exactly its announcement if and only if no overflowed sum awaits its test; an unpark finds a thread if and only if the run has registered one, and misses it only in the cycle of an overflowed sum |
| ProtocolTheorems.LastResidualIsExact | src/core/mod.rs:99-127 | a release finds the last-residual value with no overflowed sum pending if and only if the writer waits for this one release; one that finds it finds the writer waiting and its thread registered if and only if no overflowed sum is pending |
| ProtocolTheorems.OverflowTestIsExact | src/core/mod.rs:174-192 | through one whole publish, interleaved with readers, the next sign test aborts if and only if the counts, each at the moment of its swap, exceed isize::MAX in sum; otherwise the accumulator is that sum |
| ProtocolTheorems.SwappedAtMostOnce | src/read.rs:160-165 | a handle is swapped at most once in the life of a guard, and the guard releases residual if and only if it was |
| ProtocolTheorems.EachHandleSwappedOnce | src/core/mod.rs:169-190 | between any two points of one publish, exactly the handles that leave its list are swapped, each once |
| ProtocolTheorems.PublishSwapsAll | src/core/mod.rs:169-190 | one publish swaps exactly the handles registered when it took the lock, each once, whatever readers do |
| ProtocolTheorems.MonotoneReads | src/core/refcount.rs:32-57 | over any run, a later guard of a handle never has an older version than an earlier one |
| ProtocolTheorems.CloneIsNotOlder | src/read.rs:107-111 | guards of a clone are never older than any guard made before the clone |
| ProtocolTheorems.PublishIsVisible | src/core/mod.rs:164-195 | guards made after a publish has released the lock see that version or a later one |
| ProtocolTheorems.OneWakerPerCycle | src/core/mod.rs:99-127 | two readers that find the last-residual value in one run do so in different cycles, overflowed sums included |
| Overflow.MisfireWhileDoomed | src/core/mod.rs:98-127 | for every even half, with never more than half/2 guards at one time, a reachable reader takes the last-residual branch with no thread registered, between an overflowing swap and the abort |
| Overflow.ParkedForNobody | src/core/refcount.rs:32-57 | for every even half from 4 on, half/2 guards and one failed increment reach a state where the writer is parked with no residual guard, no waker and no token |
| Progress.WaitIsBounded | src/core/mod.rs:98-104 | over any run between publishes the residual guards only become fewer, and every helpful reader step pays one of at most `Debt`, whatever is created meanwhile |
| Progress.EveryRunWakes | src/core/mod.rs:98-155 | in every run before the waiting writer moves, helpful steps and the debt left add up to the debt at the start; while some is left an old guard's owner can take another such step; when none is left residual is zero and a parked writer has its token, if and only if publish counted no failed increment |
| Progress.EveryRunReturns | src/core/mod.rs:131-156 | in every run through a call of synchronize, spurious wake-ups included, at most `Debt` helpful steps occur, one can be taken while debt is left, and after the last of them three steps of the writer end the call |
| Progress.SynchronizeReturns | src/core/mod.rs:131-156 | from every state inside synchronize the old guards' owners and the writer can finish within `Debt` + 6 steps without a spurious wake-up, when publish counted no failed increment |
| Progress.StuckBlocks | src/core/mod.rs:131-156 | when it counted one, synchronize returns in no run, and that increment can abort all the while |
| Progress.CallerIsWoken | src/core/mod.rs:131-156 | the thread that calls synchronize is the registered one from its announcement until the call ends, in every run; an unpark leaves the token to it, and it has one once no debt is left |
| Progress.TokensFollowSteps | src/core/mod.rs:111-143 | over every run a thread has a token exactly if an unpark of the registered thread or a stranger gave it one after its last return from park as the writer |
| Progress.AbortIsFinal | src/core/refcount.rs:44-55 | a failed increment can abort at any time, and no step follows |
| OpLog.ReplayAppend | src/write.rs:221-255 | logging an edit extends the replay by that edit and what is dropped by its drops |
| OpLog.LeakSuppressesOneDrop | src/write.rs:235-250 | a leaky mark changes no table and removes exactly the displaced value from what the replay drops |
| OpLog.ApplyConserves | src/write.rs:230-253 | replaying one operation loses no identity and invents none |
| OpLog.KeysEndSomewhere | src/write.rs:242-251 | a key of the stale copy ends in the replayed table or is dropped on the way, leaky or not |
| OwnershipInv.FlushTouchesTheLiving | src/write.rs:221-255 | one turn of the replay drops living, distinct identities, and no key it may hash or compare, in the table or its own, is dead |
| OwnershipInv.DrainEndsAll | src/core/mod.rs:198-208 | after the last flush, draining the readers' copy alone settles every identity exactly once |
| OwnershipInv.LeakMarksTheRightEntry | src/write.rs:538-544 | leaking takes the evicted value, and no other, off what the replay will drop |
| WriteHandles.WriteHandle.Destroy | src/util/aliasing.rs:264-306 | demands that nobody destroyed or took back the value before; every call in this project meets that |
| WriteHandles.WriteHandle.FlushOperations | src/write.rs:221-255 | the log is empty, both copies agree alias for alias, and exactly what the log was to drop has been dropped |
| WriteHandles.WriteHandle.Guard | src/write.rs:127-143 | a write guard starts from a copy of the readers' table |
| WriteHandles.WriteHandle.Insert | src/write.rs:319-342 | edits the writer's table and the log; hands out the displaced value exactly when the key was present |
| WriteHandles.WriteHandle.Replace | src/write.rs:345-366 | the same for a value computed from the old one; an absent key changes no table and only the key is dropped |
| WriteHandles.WriteHandle.Remove | src/write.rs:369-384 | the same for a removal |
| WriteHandles.WriteHandle.DropLazily | src/write.rs:387-397 | the token's value joins the log; a foreign token panics and changes nothing |
| WriteHandles.WriteHandle.MakeLeaky | src/write.rs:538-544 | marks the entry that evicted the value, during or after the write guard, and hands out its token |
| WriteHandles.WriteHandle.Publish | src/write.rs:406-414 | the copies change roles and neither changes content |
| WriteHandles.WriteHandle.Reclaim | src/write.rs:211-218 | gives back the living value of the token; a foreign token panics and changes nothing |
| WriteHandles.WriteHandle.DropCore | src/core/mod.rs:198-208 | the final drain destroys only what is alive, and leaves every identity dropped once, returned once, or still leaked |
| SystemTheorems.SysReachableInv | src/write.rs:127-414 | in every reachable state the protocol's invariant holds, the log leads from the stale copy to the other one, every identity is in one place, and both copies show the abstract versions they stand for |
| SystemTheorems.Snapshot | src/read.rs:96-104 | a read guard's table is the abstract map after a whole number of published write guards; the write guard's table is the last version changed by its own edits |
| SystemTheorems.SnapshotIsStable | src/read.rs:146-156 | over any run in which a guard is not ended its table does not change, alias for alias, nor do published versions |
| SystemTheorems.WriterIsAlone | src/write.rs:127-218 | while the writer flushes or edits, and as long as a function returned by `reclaimer` may be alive, no reading guard points at the writer's map |
| SystemTheorems.ReplayEquivalence | src/write.rs:221-255 | in every reachable state the log replays legally at every position and turns the stale copy into the other one, alias for alias |
| SystemTheorems.ReplayIsSafe | src/write.rs:221-255 | each turn of every flush is legal, drops living identities once, and hashes and compares living keys only, its own included |
| SystemTheorems.NoDeadAliasIsVisible | src/util/aliasing.rs:213-306 | nothing dropped or given back is in a table that a read or write guard exposes |
| SystemTheorems.TokensAreAlive | src/write.rs:547-553 | the value of an `Evicted` or of an unreturned `Leaked` is alive |
| SystemTheorems.LeakIsExact | src/write.rs:485-544 | the index of a living `Evicted` names a non-leaky entry that displaces exactly its value, and leaking suppresses that drop only |
| SystemTheorems.EvictedLasts | src/write.rs:485-501 | an `Evicted` keeps that meaning through any run, since nothing is flushed while it lives |
| SystemTheorems.EvictedValue | src/write.rs:319-384 | an edit hands out an `Evicted` exactly when the abstract map has the key, with the value it has |
| SystemTheorems.ReclaimedIsGone | src/write.rs:205-218 | a value reclaimed at any time before the next write guard, further synchronizing calls included, was alive, and no guard sees it from then on, in any run |
| SystemTheorems.ExactlyOnce | src/core/mod.rs:198-208 | at the end of every run nothing is stored, and each key and value given was dropped once, or given back once, or is a leaked value never returned |
| SystemFates.FateFollowsActs | src/write.rs:211-397 | over every run the map was given exactly what the acts pass (2 per insertion or replacement of a present key, 1 per other replacement or removal); an identity was given back exactly if an act reclaims it, is out exactly if it was leaked and not brought back; at the end all others were dropped once |
| SystemFates.EditWritesOneEntry | src/write.rs:319-384 | an edit changes one entry of the writer's table: an entry keeps the key alias it was first inserted with, the value is the one just given; the readers' table is untouched |
| SystemFates.AbsentKeyIsDropped | src/write.rs:345-384 | replacing or removing an absent key gives the map one key, which is dropped at once, and changes nothing else |
| SystemFates.ReclaimGivesBack | src/write.rs:211-218 | an own token goes in and its living value is recorded as given back, once; a foreign token changes nothing |
| SystemFates.DropLazilyEnlists | src/write.rs:387-397 | an own token goes in and the replay drops its value once more than before; no table and no other identity is touched; a foreign token changes nothing |
| SystemFates.LazyDropHappens | src/write.rs:387-397 | that value has been dropped exactly once, and never given back, whenever the log is empty afterwards, in any run |
| SystemFates.TokenIsSpent | src/write.rs:211-218 | once a token was reclaimed or handed back, no run reaches a state that takes a token of that value again |
| SystemFates.ReclaimerKeepsWorking | src/write.rs:205-218 | a function returned by `reclaimer` takes every token still out until the next write guard begins, in any run |
| SystemFates.WriterTakesAll | src/write.rs:319-397 | a live write guard takes every edit and every token; every living `Evicted` can be leaked or dropped, during the guard and after it |
| SystemEnd.EndIsReachable | src/core/mod.rs:198-208 | from a reachable state some run ends the map if and only if no increment has failed, no overflowed sum awaits its test, and no abort has happened |

## Left out

- Increments that would carry into the flag are not steps of `Protocol` (`HasRoom`): they take at least half/2 - 1 other threads on one handle between a failed overflow test and the abort. `RefCounts.FlagIsIsolatedExactly` shows that the words lose their meaning exactly there.
- Cores.Core.ReleaseResidual: is one uninterrupted release; the interleavings of its three operations are steps of `Protocol`.
- Cores.Core.DropGuard: is uninterrupted; decrement and release are separate steps of `Protocol`.
- Cores.Core.Synchronize: ends at the first park; the park loop with spurious wake-ups and stale tokens is in `Protocol`.
- Cores.Core.Publish: is uninterrupted; the swaps interleave with readers in `Protocol`.
- Memory orderings and fences: every atomic operation is a sequentially consistent step.
- Fused steps: taking the lock and setting `writer_map` are one step, and so is each critical section of `new_reader` and `release_refcount`.
- Data races on the `writer_thread` cell: it is read and written atomically.
- Forgotten guards, handles and tokens that bypass destructors (`mem::forget`): a reading guard is always ended by its owner.
- Panics in user closures, hashing and the equality of keys: maps are mathematical, keys with lawful equality; hashbrown and slab internals are not part of this model, and a slab key is any vacant one.
- The debug-build overflow panic in the sum of `publish`: the wrapping release build is modelled.
- Writer identifiers: unbounded, and only compared.
- `Leaked::into_inner` followed by the user's own unsafe code.
- `View` and its iterators, `Builder`, `TrustedHashEq`, `CachePadded`, loom shims, branch hints, `shrink_to`, `Send`/`Sync`: thin or about performance only.
