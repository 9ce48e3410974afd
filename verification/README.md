# Verified models of a dynamic linker, POSIX AIO and getifaddrs

This project models the most intricate parts of a musl-derived C library in Dafny and
proves what they are for.

- **Dynamic linker** (`ldso/dynlink.c`, `ldso/dlstart.c`): the protocol under which
  threads run constructors and destructors; the constructor sort and the closure of
  dependency lists; `dlopen` as a transaction; symbol lookup; relocation, with deferred
  relocations and their replay, the linker's relocation of itself, and packed relative
  relocations; static and dynamic thread-local storage; mapping of ELF images; expansion
  of `$ORIGIN`.
- **Asynchronous I/O** (`src/aio/aio.c`, `src/aio/aio_suspend.c`): queue lifetime,
  sequencing of operations, and the wake-ups of `aio_suspend`, over every interleaving.
- **Interface enumeration** (`src/bsd/getifaddrs.c`): a sizing pass and a filling pass.

Loops that update arrays, buffers or linked structures are methods, proved against a
specification about which further lemmas are proved. Code run by several threads is a
state machine whose steps are the atomic actions of the source, with an inductive
invariant; the theorems are about every finite run. Allocation succeeds unless a module
says otherwise; in `Dependencies`, `Dlopen`, `MapLibrary`, `Rpath` and `Getifaddrs` it may
fail.

| file | subject |
|---|---|
| `CtorProtocol.dfy`, `CtorCalls.dfy`, `Constructors.dfy` | constructors and destructors, across threads |
| `DepGraph.dfy`, `CtorQueue.dfy`, `ListGrowth.dfy`, `BfsDeps.dfy`, `Dependencies.dfy` | dependency lists and constructor order |
| `LoaderState.dfy`, `LazyOrder.dfy`, `LazyCircle.dfy`, `Dlopen.dfy` | loading, the global scope, rollback, the lazy list |
| `SymbolHash.dfy`, `SymbolLookup.dfy` | hash functions and tables, scope search |
| `Relocs.dfy`, `RelocAbi.dfy`, `LazyRelocs.dfy`, `LazyList.dfy`, `SelfRelocs.dfy`, `SelfStages.dfy`, `Relr.dfy` | relocation |
| `Bits.dfy`, `StaticTls.dfy`, `DynamicTls.dfy` | mask arithmetic and thread-local storage |
| `MapLibrary.dfy`, `Rpath.dfy` | ELF images, search paths |
| `AioSuspend.dfy`, `SuspendCalls.dfy`, `AioSequence.dfy`, `AioRuns.dfy`, `AioLifetime.dfy`, `QueueCalls.dfy`, `FdMap.dfy` | asynchronous I/O |
| `Getifaddrs.dfy` | interface enumeration |
| `Collections.dfy`, `Wrappers.dfy` | sets, duplicate-free lists, reversal, options |

Three promises turned out not to hold of the code as it stands; for each there is a
concrete run and the exact condition under which the code keeps the promise.

- A thread in `aio_suspend` with a list of requests can adopt another thread's futex token
  and be left asleep although one of its requests has finished
  (`AioSuspend.LostWakeup`). With at most one list waiter at a time no wake-up is lost, and
  with more it can be (`AioSuspend.NoWakeupLostIff`).
- `dlopen` with `RTLD_LAZY` prepares a DSO once for each time it is on the dependency
  list, and then the lazy list is turned into a circle: if a file needs another under two
  names (`Dlopen.OpenTwoNames`), or needs itself through others (`Dlopen.OpenCircle`). A
  successful call leaves the lazy list a list if and only if it was not lazy, or opened a
  file that was loaded, or no two needed names of that file are the same unloaded file,
  and it does not need itself through unloaded files, either of them leaving aside files
  that ask to be bound at once (`Dlopen.Loader.Dlopen`). The circle has lost the DSOs before
  the last repetition, so their records are never replayed (`LazyCircle.PushedCircle`); the
  replay ends, and leaves a list if and only if the DSO at which the circle closes has no
  records left (`LazyCircle.RedoCircle`).
- A failed reallocation in `extend_bfs_deps` leaves marks on DSOs that survive. A later
  dependency list can then miss DSOs, and the buffer of `queue_ctors`, which is sized by
  that list, is overrun by its terminator (`Dependencies.AfterFailedOpen`). The list is
  complete if and only if every DSO that was marked and is depended on is a direct
  dependency (`Dependencies.Linker.ExtendBfsDeps`), and the sort stays in its buffer if and
  only if that covers what is reached and the terminator (`Dependencies.Linker.QueueCtors`).

## Model

| member | source | states |
|---|---|---|
| CtorProtocol.StepKeepsInv | ldso/dynlink.c:1606-1634 | every step of a thread in `do_init_fini`, re-entered from a constructor or not, or in `__libc_exit_fini`, keeps the invariant of the protocol |
| CtorProtocol.RunKeepsInv | ldso/dynlink.c:1716-1754 | the invariant holds at every point of every interleaving from the initial state |
| CtorProtocol.HistoriesGrow | ldso/dynlink.c:1606-1634 | once shutdown is set it stays set, no constructor starts, and the list of destructors to run is frozen |
| CtorProtocol.ConstructorsStartOnce | ldso/dynlink.c:1716-1754 | in every run the constructors of each DSO start at most once |
| CtorProtocol.ConstructorsExclude | ldso/dynlink.c:1723-1728 | two activations inside constructors are inside those of different DSOs |
| CtorProtocol.EarlierInQueueFirst | ldso/dynlink.c:1723-1728 | when a thread starts a DSO, every DSO earlier in its queue is constructed or under construction by that thread |
| CtorProtocol.FiniListReversesStarts | ldso/dynlink.c:1730-1734 | the fini list has no duplicates and lists the started DSOs with destructors, latest start first |
| CtorProtocol.DestructorsReverseConstructors | ldso/dynlink.c:1606-1634 | destructors run at most once, only for constructed DSOs, in reverse order of constructor start |
| CtorProtocol.ExitIsComplete | ldso/dynlink.c:1618-1633 | when the walk ends, the destructors have run of exactly the constructed DSOs that have some |
| CtorCalls.CallGoesThrough | ldso/dynlink.c:1716-1754 | in every run, when a call of `do_init_fini` has returned, every DSO of the queue it was given is constructed, or under construction by the same thread further out; after an outermost call all are constructed |
| CtorCalls.VisitorsRun | ldso/dynlink.c:1723-1752 | whoever is the visitor of a DSO is inside its constructors |
| CtorCalls.Dispatch | ldso/dynlink.c:1721-1735 | at each DSO of its queue a thread sleeps exactly while another thread is inside its constructors or the process exits; else it starts them if nobody ever has, and goes on to the next DSO if somebody has |
| CtorCalls.GoesOnAfter | ldso/dynlink.c:1748-1752 | done with the constructors of a DSO, a thread marks it constructed and goes on to the next of its queue |
| CtorCalls.WalkDispatch | ldso/dynlink.c:1618-1632 | at each DSO of the fini list the exit walk sleeps exactly while another thread is inside its constructors, runs the destructors of a constructed one, and passes the others |
| CtorCalls.Forward | ldso/dynlink.c:1606-1754 | every step of a call of `do_init_fini` or of the exit walk brings it nearer to its end, but those that go to sleep or into a nested call |
| CtorCalls.NotBlocked | ldso/dynlink.c:1606-1754 | a thread in a call or in the exit walk has a step to take whenever the lock is free or its own |
| Constructors.OpenedIsConstructed | ldso/dynlink.c:1647-1754 | when a call on the queue of `queue_ctors` for a DSO has returned, everything it depends on is constructed, or under construction by the same thread further out |
| Constructors.DependenciesConstructedFirst | ldso/dynlink.c:1647-1754 | with the queue of `queue_ctors`, when a DSO's constructors start each of its dependencies is constructed, under construction by the same thread, or depends on it in turn |
| DepGraph.ClosedContainsReachable | ldso/dynlink.c:1453-1478 | a set of DSOs closed under direct dependencies has everything reachable from its members |
| CtorQueue.Descend | ldso/dynlink.c:1689-1702 | entering an unmarked dependency keeps the search invariant |
| CtorQueue.Emit | ldso/dynlink.c:1689-1702 | moving a DSO whose dependencies are all marked to the queue keeps the order: an edge goes backwards in the queue unless it is on a cycle |
| CtorQueue.SearchFits | ldso/dynlink.c:1678-1702 | queue and stack together never hold more DSOs than are reachable |
| CtorQueue.Complete | ldso/dynlink.c:1689-1704 | at the end the queue has each reachable DSO exactly once, dependencies first except around cycles |
| CtorQueue.CutQueue | ldso/dynlink.c:1689-1704 | the search gives the constructor order if and only if no DSO it should reach was marked when it began |
| ListGrowth.GrowOne | ldso/dynlink.c:1471-1476 | appending an unmarked dependency keeps the invariant of the growing list |
| ListGrowth.GrownAll | ldso/dynlink.c:1457-1480 | a fully visited list has all dependencies outside a closed set if and only if whatever is depended on there and was marked at the start is a direct dependency |
| BfsDeps.GrownIsClosure | ldso/dynlink.c:1434-1483 | a fully visited list is exactly what is reachable in one or more steps if and only if whatever is reachable and was marked at the start is a direct dependency |
| Dependencies.Linker.ExtendBfsDeps | ldso/dynlink.c:1434-1483 | from any marks the list keeps its direct prefix and gains further DSOs once each, within each reallocation; it becomes the closure iff the marks found were harmless, and all marks are clear again; a failed reallocation leaves exactly the marks found and those of the list; the loop ends |
| Dependencies.Linker.VisitMember | ldso/dynlink.c:1457-1477 | one member: the new list has room for exactly what is counted |
| Dependencies.Linker.CountNew | ldso/dynlink.c:1459-1460 | the count bounds what will be appended, repetitions included |
| Dependencies.Linker.QueueCtors | ldso/dynlink.c:1647-1714 | on any graph and any marks the writes stay in the buffer iff it covers the DSOs reached through unmarked ones and the terminator; the result is then their null-terminated order, and that of everything reachable iff none was hidden by a mark; in a state without failed reallocations, which loading and a successful `extend_bfs_deps` keep, it always fits and nothing is hidden |
| Dependencies.Linker.Sort | ldso/dynlink.c:1678-1702 | queue and stack stay apart iff the DSOs reached fit, and the loop ends with their order in the queue |
| Dependencies.Linker.Load | ldso/dynlink.c:1380-1382 | DSOs loaded at the end of the chain change nothing that is reached from the earlier ones, so every built list stays complete |
| Dependencies.OpenSeveral | ldso/dynlink.c:2405-2410 | in any number of calls, up to one whose reallocations are short of the longest possible list, every constructor queue fits its buffer and is the order of everything reachable |
| Dependencies.AfterFailedOpen | ldso/dynlink.c:1461-1469 | a run in which a failed reallocation leaves a mark, and the constructor queue of a library opened later does not fit its buffer |
| Dependencies.Linker.Scan | ldso/dynlink.c:1690-1700 | the inner loop stops at a DSO whose dependencies are all marked, with those on the way on the stack |
| Dependencies.Linker.ClearMarks | ldso/dynlink.c:1658-1667 | the size of the buffer, and which marks are left |
| Dlopen.Loader.AddSyms | ldso/dynlink.c:1499-1505 | the scope stays a list from the head to `syms_tail` without duplicates, with the DSO appended unless it was a member |
| Dlopen.Loader.RevertSyms | ldso/dynlink.c:1507-1517 | the scope is cut back to the given member, everything past it unlinked |
| Dlopen.Loader.LoadLibrary | ldso/dynlink.c:1301-1389 | returns a DSO of the named file, loaded before or appended now; fails without any change, and only for a reason given; with RTLD_NOLOAD it succeeds exactly for a file that is loaded |
| Dlopen.Loader.FindLoaded | ldso/dynlink.c:1301-1311 | finds a DSO of the same file past the head if there is one |
| Dlopen.Loader.LinkTls | ldso/dynlink.c:1358-1377 | a DSO with TLS becomes the last module of the list |
| Dlopen.Loader.LoadDirectDeps | ldso/dynlink.c:1390-1425 | the list becomes the DSOs of the needed names, in order and never the head; whatever fails, the older DSOs, the scope and the lazy list are untouched, and dependency lists name live DSOs |
| Dlopen.Loader.LoadDeps | ldso/dynlink.c:1427-1432 | the walk along the growing chain ends, and on success every DSO has its dependencies, those loaded now exactly the DSOs of their needed names |
| Dlopen.Loader.ExtendBfsDeps | ldso/dynlink.c:1434-1483 | the list of a new DSO becomes everything it depends on, each DSO past the direct ones once, if and only if the marks found did no harm; whatever they were, it has everything loaded since; direct dependencies never change, also when it fails half-way |
| Dlopen.Loader.PrepareLazy | ldso/dynlink.c:2301-2328 | prepends the DSO to the lazy list unless its file asks to be bound at once |
| Dlopen.Loader.PrepareAll | ldso/dynlink.c:2411-2416 | prepares the DSO and each unrelocated member of its list, once per occurrence |
| Dlopen.Loader.AddAllSyms | ldso/dynlink.c:2417-2423 | the scope is the old one followed by the DSO and the members of its list that were not in it, in order |
| LazyOrder.NothingElse | ldso/dynlink.c:1390-1432 | whatever is loaded is the DSO itself or something it depends on |
| Dlopen.Loader.RelocAll | ldso/dynlink.c:1539-1569 | on success everything from the DSO on is relocated; the older DSOs are untouched |
| Dlopen.Loader.Rollback | ldso/dynlink.c:2364-2393 | after any partial loading the chain, scope, TLS list and counters, and lazy list are exactly what they were, and no surviving DSO refers to a freed one |
| Dlopen.Loader.FreeAdded | ldso/dynlink.c:2367-2380 | exactly the DSOs past the old end are freed, none used afterwards |
| Dlopen.Loader.Dlopen | ldso/dynlink.c:2330-2432 | a failure at any point restores the earlier state exactly; if nothing is missing or refused the call succeeds with a DSO of the named file, with RTLD_NOLOAD exactly if that is loaded; a file that was loaded gives its DSO and nothing is loaded; otherwise the list of the new DSO is everything it depends on through needed names, nothing else is loaded, and everything new is relocated in the old scope followed by the DSO and its list; without RTLD_GLOBAL the scope is then as it was, with it that longer one; constructors are queued exactly if they have not run, and which marks remain is exact; the lazy list stays a list iff the call is not lazy, the file was loaded, or no needed name repeats an unloaded file and the file does not need itself |
| LazyOrder.PushedList | ldso/dynlink.c:2326-2327 | if no DSO is prepared twice the lazy list is the prepared ones, last first, followed by the old list |
| LazyOrder.LazyListIff | ldso/dynlink.c:2411-2416 | the lazy list remains a finite list if and only if no DSO is prepared twice |
| LazyCircle.PushedCircle | ldso/dynlink.c:2326-2327 | if some DSO is prepared twice, the lazy list is a circle through the DSOs prepared after the last that is prepared again, latest first |
| LazyCircle.CircleWalk | ldso/dynlink.c:610-614 | a walk along it never ends and meets exactly those DSOs |
| LazyCircle.RedoCircle | ldso/dynlink.c:610-628 | replaying a circle ends, replays exactly the DSOs it leads to, and leaves a list, of those with records left, if and only if the DSO at which it closes has none |
| LazyOrder.SameByFile | ldso/dynlink.c:1301-1311 | two DSOs loaded by one call from the same file are the same |
| LazyOrder.ItselfIff | ldso/dynlink.c:1390-1432 | a DSO loaded by the call depends on itself iff its file needs itself through files that were not loaded |
| LazyOrder.TwiceIff | ldso/dynlink.c:2411-2416 | a DSO is prepared twice iff two needed names of the opened file are the same unloaded file, or that file needs itself, files bound at once left aside |
| Dlopen.OpenTwoNames | ldso/dynlink.c:2411-2416 | a run of `dlopen` on a file that needs another under two names, after which the lazy list is a circle |
| Dlopen.OpenCircle | ldso/dynlink.c:2411-2416 | a run of `dlopen` on two files that need each other, with the same result |
| SymbolHash.GnuHash | ldso/dynlink.c:272-279 | whatever the width of the accumulator, the result is the sum of the bytes, each times 33 to the power of its distance from the end, and of 5381 times 33 to the power of the length, modulo 2^32 |
| SymbolHash.SysvHash | ldso/dynlink.c:261-270 | the shortened loop computes the hash of the System V gABI; its accumulator has the 32 bits that arch/generic/bits/stdint.h gives `uint_fast32_t` on every architecture |
| SymbolLookup.MatchInBucket | ldso/dynlink.c:295-326 | a symbol of that name is in its hash's bucket, has a matching chain word, and passes the filter |
| SymbolLookup.GnuLookup | ldso/dynlink.c:295-314 | returns exactly what a linear scan of the hashed symbols finds: the first of that name that is not hidden, or none |
| SymbolLookup.GnuLookupFiltered | ldso/dynlink.c:316-326 | the Bloom filter changes nothing in that result |
| SymbolLookup.SysvLookup | ldso/dynlink.c:281-293 | the loop ends at the first match along the chain of the name |
| SymbolLookup.SysvComplete | ldso/dynlink.c:281-293 | it fails only if no visible symbol has the name |
| SymbolLookup.LookupUnique | ldso/dynlink.c:342-351 | a DSO has one lookup result for a name |
| SymbolLookup.FindSym2 | ldso/dynlink.c:338-367 | the first DSO, along the global scope or a DSO's list, whose looked-up symbol is acceptable, with the architecture's say on undefined ones, or none if every one is rejected |
| SymbolLookup.LastBucket | ldso/dynlink.c:1128-1131 | the bucket with the largest first symbol holds the last symbol |
| SymbolLookup.CountSyms | ldso/dynlink.c:1121-1138 | the number of symbols; zero exactly if there is only a GNU table that hashes none |
| Relocs.DeferredAre | ldso/dynlink.c:464-479 | deferred entries are exactly those with missing symbols, in order, with their addends; a pass fails exactly on a missing symbol that cannot be deferred |
| RelocAbi.FailsAbi | ldso/dynlink.c:464-479 | a pass fails if and only if the symbol of some entry has no value in the scope and is not weak, and the entry is no GOT or PLT slot or there is no lazy list |
| RelocAbi.WrittenIsAbi | ldso/dynlink.c:436-514 | the word written is S + A for symbolic, GOT and PLT entries, S + A less the place for offsets, B + A for relative ones, and one of the first and last for symbol-or-relative ones, modulo the word size; S is what the scope has, a definition exactly for PLT entries, or zero without a symbol or for a missing weak one; A is the table's, zero for GOT and PLT entries of a table without addends, or the word in place |
| RelocAbi.PassIsAbi | ldso/dynlink.c:412-514 | with distinct targets a pass leaves that word, computed from the original one, in the place of every entry with a symbol or that needs none, and changes no other |
| LazyRelocs.DoRelocs | ldso/dynlink.c:412-514 | a pass over a table, also over the array of deferred records while it is rewritten, has the effect of its entries one by one, so with distinct targets the words that the ABI asks for; it fails exactly on a missing symbol that cannot be put off; records are never lost or overwritten before they are read |
| LazyRelocs.ReplayKeeps | ldso/dynlink.c:610-628 | replaying cannot fail and keeps exactly the still unresolved records, in order |
| LazyRelocs.DeferThenReplay | ldso/dynlink.c:436-479 | deferring, and replaying in any number of later scopes, never fails and applies every entry once, in the first scope that has its symbol and to its original addend; what remains is what no scope had, in order |
| LazyRelocs.ReplayIsAbi | ldso/dynlink.c:436-514 | the word left by that is the one the ABI asks for with the symbol of the first scope that has it, and no other word changes |
| LazyRelocs.CapacitySuffices | ldso/dynlink.c:2315 | the computed capacity exceeds the number of entries of all three tables |
| LazyRelocs.RelocTables | ldso/dynlink.c:1547-1550 | relocating the three tables never exceeds that capacity, leaves the unresolved entries of all three in order, and has the effect on memory of one table after the other; it fails if and only if an entry of one of them has a missing symbol that cannot be put off |
| LazyRelocs.TablesAreAbi | ldso/dynlink.c:1547-1550 | with distinct targets that effect is the word the ABI asks for in the place of each entry, whichever table it is in, from its original addend, and no other change |
| LazyList.Replay | ldso/dynlink.c:615-626 | one DSO: its memory is relocated, and it is put back on the list iff records remain |
| LazyList.RedoLazyRelocs | ldso/dynlink.c:610-628 | every DSO of the list is replayed, and the new list has exactly those with records left |
| SelfRelocs.CountSymbolic | ldso/dynlink.c:1924-1934 | the array has a slot for every entry that uses one |
| SelfRelocs.DoSelfRelocs | ldso/dynlink.c:427-455 | a pass uses one slot per inline addend, in table order, whether or not symbols are found |
| SelfRelocs.SavedAddend | ldso/dynlink.c:446-452 | stage 2 saves each addend before it is overwritten |
| SelfRelocs.SecondPass | ldso/dynlink.c:446-452 | stage 3 reads each addend from the slot of the same entry |
| SelfRelocs.RelocatedTwice | ldso/dynlink.c:1936-1939 | both passes together equal relocating the original image once with the final scope |
| SelfStages.BootRelocs | ldso/dlstart.c:127-141 | the loops over REL and RELA apply the relative entries, in place or with the addend of the table |
| SelfStages.BootedIsAbi | ldso/dlstart.c:127-141 | stage 1 leaves the word the ABI asks for, B + A, in the place of the relative entries and those without a symbol of the kind that may be either, and no other word changes |
| SelfStages.DoOtherRelocs | ldso/dynlink.c:430-444 | a pass over the linker's PLT or RELA table skips relative entries and applies the others |
| SelfStages.AllStages | ldso/dynlink.c:1924-1939 | stage 1, stage 2 with any scope and stage 3 with one that has all symbols equal relocating all tables of the pristine image once, with the RELR stream on top |
| SelfStages.RelocSelf | ldso/dynlink.c:1924-1939 | running all stages does that, without an error in stage 3, exactly if the addends to save are below the limit |
| Relr.NamedOnce | ldso/dynlink.c:592-608 | no word is named by two entries of a stream |
| Relr.ApplyBitmap | ldso/dynlink.c:601-605 | the scan that stops at the last bit has the effect of all bits of the word |
| Relr.DoRelrRelocs | ldso/dynlink.c:592-608 | the base is added exactly once to the words the stream names and to no other |
| Relr.BootstrapRelr | ldso/dlstart.c:144-157 | the bootstrap loop has the same effect |
| Relr.OneResult | ldso/dlstart.c:144-157 | that effect determines the memory, so the two loops agree |
| Bits.MaxP2IsMax | ldso/dynlink.c:65 | on powers of two the macro MAXP2 is the maximum |
| Bits.AlignUpIs | ldso/dynlink.c:69 | ALIGN gives the next multiple |
| StaticTls.GapIs | ldso/dynlink.c:1362-1364 | the masked gap leads to the next offset congruent to the image |
| StaticTls.Layout.Load | ldso/dynlink.c:1358-1370 | in both variants a loaded module is placed past the others, congruent to its image, and `tls_align` is the largest alignment; `tls_offset` grows by the size and less than the alignment |
| StaticTls.Layout.LoadApp | ldso/dynlink.c:2141-2155 | the application's block starts the layout, past the gap above the thread pointer |
| StaticTls.BlocksWellPlaced | ldso/dynlink.c:1358-1370 | for every aligned thread pointer blocks are disjoint and congruent to their images |
| StaticTls.ThreadAreaFits | src/env/__init_tls.c:63-96 | an area of the size of `update_tls_size` holds DTV, thread structure and all blocks apart from each other |
| DynamicTls.ReservationSuffices | ldso/dynlink.c:1336-1374 | rows and blocks of all threads lie in the DSO's allocation one after the other |
| DynamicTls.ReservedIsStorage | ldso/dynlink.c:1336-1374 | what the loads reserved is the storage that installation relies on, for any number of modules and up to as many threads as at each load; the new DTVs are in the allocation of the module loaded last, apart from every block and image |
| DynamicTls.SlotsDisjoint | ldso/dynlink.c:1808-1817 | blocks of different threads or modules share no byte |
| DynamicTls.OneBlock | ldso/dynlink.c:1808-1812 | installing a block fills it with the image and zeros and disturbs no other block, no image and no row |
| DynamicTls.OneEntry | ldso/dynlink.c:1813-1814 | storing its address changes one entry of one row and disturbs no block |
| DynamicTls.CopyDtvs | ldso/dynlink.c:1797-1803 | every row gets the old entries of its thread and the new size, and nothing outside the rows changes |
| DynamicTls.InstallNewTls | ldso/dynlink.c:1786-1873 | every thread gets a row of the last module's reservation that keeps its entries and has one more for each new module, leading to a block with the image and zeros; no byte outside rows and blocks changes; the early `break` skips no module |
| MapLibrary.PageMask | ldso/dynlink.c:836-839 | masking with the negated page size rounds down to a page |
| MapLibrary.Scan | ldso/dynlink.c:756-794 | finds the lowest segment and the end of the highest |
| MapLibrary.BreakPages | ldso/dynlink.c:884-886 | rounding the break as an address equals rounding it relative to the load address |
| MapLibrary.MapSegment | ldso/dynlink.c:873-890 | one segment is loaded and only its own pages change; it fails exactly if the kernel refuses a mapping that is asked for |
| MapLibrary.LowestOnly | ldso/dynlink.c:879-882 | only the lowest segment reuses the first mapping, which is what it needs |
| MapLibrary.MapLibrary | ldso/dynlink.c:836-897 | all mappings are in the reservation; each segment has its file bytes, its protection, or with DT_TEXTREL all of them, and, if writable, zeros after them; `phdr` points at a copy of the program headers; the call fails exactly if the kernel refuses a mapping or protection that is asked for, or another address is taken for a file that cannot be moved |
| Rpath.CountTokens | ldso/dynlink.c:1021-1029 | the number of dollars, if each starts `$ORIGIN` or `${ORIGIN}` |
| Rpath.Piece | ldso/dynlink.c:1086-1095 | one round of the copying loop copies up to the next dollar and replaces its token |
| Rpath.CopyExpanded | ldso/dynlink.c:1080-1096 | the copy is the expansion, and fits the allocation with its terminator |
| Rpath.ExpandClean | ldso/dynlink.c:1086-1096 | no dollar of the path is left |
| Rpath.Dso.FixupRpath | ldso/dynlink.c:1010-1098 | which of unchanged, expanded and unusable the path is, and exactly when the call reports an error |
| AioSuspend.SingleWaiterNotLost | src/aio/aio_suspend.c:50-54 | a thread asleep on one finished request has its worker's wake ahead |
| SuspendCalls.ZeroMeansFinished | src/aio/aio_suspend.c:26-46 | in every run a call returns 0 only if one of the requests it was given is finished at that step |
| SuspendCalls.FinishedIff | src/aio/aio.c:178-182 | a request counts as finished exactly if its worker has said so or it was never submitted |
| SuspendCalls.FinishedIsFound | src/aio/aio_suspend.c:41-62 | a pass, of whatever length, with a finished request ahead is still before it or has ended the call with 0, whatever the others do |
| SuspendCalls.FinishedAtOnce | src/aio/aio_suspend.c:26-30 | a call on a list with a finished request never sleeps and returns only 0 |
| SuspendCalls.PassesBegin | src/aio/aio_suspend.c:26-62 | every pass begins with the first request and goes on one by one; the second follows the first and each sleep, the third the attempt on `__aio_fut` |
| SuspendCalls.ReturnedStays | src/aio/aio_suspend.c:69-76 | a call that has returned does nothing more |
| SuspendCalls.UnfinishedSleeps | src/aio/aio_suspend.c:26-67 | a call with none of its requests finished, undisturbed, sleeps after looking at each of them in two passes, or three for a list: on the only request, on `__aio_fut`, or on nothing |
| SuspendCalls.WokenBy | src/aio/aio.c:178-184 | a sleeper is woken by the worker of its only request or by one that found `__aio_fut` taken, after finishing, and looks again from the start |
| SuspendCalls.WakesForSomeone | src/aio/aio.c:178-184 | a worker wakes the sleepers on its request only if some call had marked it, and those on `__aio_fut` only if some call had tried for it |
| SuspendCalls.WorkerGoesOn | src/aio/aio.c:178-184 | a worker that finishes has a step to take until it is through with all wake-ups, and every step brings it nearer |
| AioSuspend.ListWaiterNotLost | src/aio/aio_suspend.c:55-67 | a list waiter that tried for the token in the tenure it sleeps in, with a finished request, has the swap or a wake ahead |
| AioSuspend.OwnTokenInTime | src/aio/aio_suspend.c:56-59 | a waiter whose token is its own thread id is such a waiter |
| AioSuspend.AloneNotLost | src/aio/aio_suspend.c:41-67 | with one list waiter no wake-up is lost |
| AioSuspend.LostWakeup | src/aio/aio.c:178-184 | a run in which a thread that adopted a token sleeps with its request finished and no finished request's worker left to wake it |
| AioSuspend.NoWakeupLostIff | src/aio/aio_suspend.c:41-67 | wake-ups of list waiters are never lost if and only if there is at most one at a time |
| AioSequence.Queue.Insert | src/aio/aio.c:232-242 | a worker becomes the head of the list |
| AioSequence.Queue.Unlink | src/aio/aio.c:186-190 | a worker leaves the list, the others stay in order |
| AioSequence.Queue.EarlierWrite | src/aio/aio.c:254-262 | the scan finds exactly whether a write inserted earlier is still listed |
| AioOrder.ChainIsEarlierListed | src/aio/aio.c:186-242 | over every run a worker's `next` chain is exactly the still listed operations inserted before it |
| AioRuns.ModeIsDecided | src/aio/aio.c:244-249 | the first worker on the list decides for good whether the queue appends: if the descriptor cannot seek or was opened for appending |
| AioRuns.AppendsExclude | src/aio/aio.c:244-262 | in every run on such a descriptor at most one write executes at a time |
| AioRuns.AppendsBeginInOrder | src/aio/aio.c:244-262 | in every run on such a descriptor writes begin in the order in which they were put on the list |
| AioRuns.BeginsAfterEarlierWrites | src/aio/aio.c:254-262 | an fsync, and on such a descriptor a write, begins only after every write put on the list before it has left |
| AioRuns.CanBegin | src/aio/aio.c:254-262 | a waiting worker can begin exactly if it is a read, a write on a descriptor not for appending, or every write put on the list before it has left |
| AioLifetime.StepKeepsInv | src/aio/aio.c:85-161 | every atomic step of submitters, workers and cancellers keeps the invariant |
| AioLifetime.LastReferenceAlone | src/aio/aio.c:143-155 | a thread with the last reference and both locks is the only one that knows the queue |
| AioLifetime.NoUseAfterFree | src/aio/aio.c:85-161 | in every run no thread holds a pointer to a freed queue |
| AioLifetime.RefCountsHolders | src/aio/aio.c:290-336 | `ref` is the number of submissions and workers holding the queue |
| AioLifetime.FreedUnknown | src/aio/aio.c:146-155 | when a queue is freed no other thread knows it, not even an `aio_cancel` without a reference |
| AioLifetime.MapIsExact | src/aio/aio.c:96-125 | the map leads only to live queues under their own descriptors, and to all of them but those a single thread is about to free |
| AioRuns.CanAct | src/aio/aio.c:186-242 | when a worker may be put on the list, be cancelled while it waits, and leave |
| QueueCalls.QueueAskedFor | src/aio/aio.c:85-161 | in every run, from its first step to its last, a submission or cancellation deals only with the queue of the descriptor it was given |
| QueueCalls.FirstLook | src/aio/aio.c:95-97 | the first look at the map finds the queue of the descriptor, and misses exactly if there is none apart from those being freed |
| QueueCalls.SecondLook | src/aio/aio.c:103-123 | the second look, unless something fails, finds the queue of the descriptor if one has appeared, and makes one exactly if there is none |
| QueueCalls.OneQueue | src/aio/aio.c:103-123 | a descriptor has at most one queue apart from those being freed |
| QueueCalls.EndsOnFailure | src/aio/aio.c:97-125 | a submission ends without a reference to a queue only if something failed |
| QueueCalls.WorkerGetsQueue | src/aio/aio.c:291-323 | a worker is given the queue of its submission's descriptor |
| QueueCalls.LastOneFrees | src/aio/aio.c:132-160 | a reference is given up at once if another is held, and otherwise with the map locked, where the queue is taken out exactly if still no other is held |
| QueueCalls.NoneLeaked | src/aio/aio.c:85-161 | every queue is known to some thread; when no call and no worker is left there is no queue, the map is empty and `aio_fd_cnt` is zero |
| QueueCalls.NoDeadlock | src/aio/aio.c:85-161 | while some call or worker is in the middle of something, one of them can go on with nothing failing |
| QueueCalls.CallEnds | src/aio/aio.c:85-336 | every step of a submission, of a cancellation and of a worker that has done its work brings it nearer to its end |
| AioLifetime.CountIsExact | src/aio/aio.c:117-152 | `aio_fd_cnt` is the number of mapped queues whenever the map is not write-locked |
| FdMap.PathsDiffer | src/aio/aio.c:93-94 | different descriptors have different index paths, all in range |
| FdMap.Map.Get | src/aio/aio.c:96-97 | the four-level lookup is the lookup in a plain map |
| FdMap.Map.Put | src/aio/aio.c:108-119 | storing through freshly allocated levels is the update of a plain map |
| FdMap.Map.Clear | src/aio/aio.c:147-151 | clearing an entry is removal from a plain map |
| Getifaddrs.Sizes | src/bsd/getifaddrs.c:99-157 | counts one node more than there are entries, and the bytes of data and names they need |
| Getifaddrs.RLenIs | src/bsd/getifaddrs.c:46-47 | SA_RLEN is the next multiple of the word size, one word for an empty address |
| Getifaddrs.ScanAddr | src/bsd/getifaddrs.c:129-142 | finds the padded length of the interface address, or zero |
| Getifaddrs.FillAddrs | src/bsd/getifaddrs.c:226-274 | places netmask, address and broadcast address one after the other, an empty netmask as zeros of the address's length |
| Getifaddrs.FillLink | src/bsd/getifaddrs.c:197-209 | places the link address and, aligned, the interface data within what was counted |
| Getifaddrs.Fits | src/bsd/getifaddrs.c:178-275 | at every message there is room for its node, data and name |
| Getifaddrs.Getifaddrs | src/bsd/getifaddrs.c:99-290 | the result is a null-terminated list with exactly one node per entry, each showing the name, flags and addresses the messages give it |

## Left out

- Fork handlers, weak-memory effects, NOMMU, FDPIC and MIPS-specific branches.
- System calls, file access, path search, names and `shortname`; files are given by what they contain.
- TLSDESC, copy, DTPMOD, DTPOFF and TPOFF relocations, 32-bit offsets; string tables (a symbol has its name).
- `aio_cancel` is modelled as far as it touches queues; that it ends when it cancels a worker asleep in `pthread_cond_wait` is not.
- Timeouts and signal handlers that call `aio_suspend` again; resubmission of an aiocb that is waited for.
- During startup a failed reallocation is reported and skipped; it is modelled as at run time.
- Opening the linker by name when it is not on the chain yet.
- The debugger hooks, `ldd` mode, error texts and argument parsing.
- Dlopen.Loader.Dlopen: ends before `redo_lazy_relocs` and `install_new_tls`, which cannot fail and are modelled on their own; of `queue_ctors` it has the marks and the failure, not the buffer; the order of independent stores for a new DSO differs.
- Dlopen.Loader.LoadLibrary: a name is resolved to a file without the search for it; short names, and the redirection of a second libc, are not modelled.
- Dlopen.Loader.LinkTls: leaves the new offset and alignment open; they are those of `StaticTls.Layout.Load`.
- SelfStages.RelocSelf: the linker's PLT table has only jump slots and GOT entries, as the ABI has it; the order of other work between the stages is not modelled.
- LazyRelocs.DoRelocs: memory is one word per offset, so partly overlapping targets are not modelled.
- DynamicTls.InstallNewTls: a word is held at its lowest address, its other bytes are cleared; signals and the memory barrier are not modelled.
- MapLibrary.MapLibrary: addresses are unbounded integers, and reading the ELF header is not modelled.
- Getifaddrs.Getifaddrs: starts from parsed messages in the kernel's order, for which the source does not abort; the retry around `sysctl` is not modelled.
