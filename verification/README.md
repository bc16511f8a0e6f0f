# A paging simulator and a unisex bathroom, modelled and proved

Two programs of the repository are modelled.

**The demand-paging simulator** (`project4/memory.c`). Four physical frames of 16 bytes hold
the pages of up to four processes and, in the same memory, the page tables that say where the
pages are. What does not fit goes to an append-only text file. The central result is that none of
this shows: every session of map, store and load commands is answered as if each process had a flat
memory of its own (`PagerTransparency.PagingIsTransparent`), that is, every load gives the byte last
stored (`PagerHistory.PagingAnswersByHistory`). It is proved at three levels: for the commands on
values, for byte-level page tables inside memory, and for the class `PagerMachine.Machine`, with the
arrays, the loops and the text file of the C code (`PagerSimulation.Session`). What no process sees is
settled too: which frame is taken or emptied, where the hand goes and what is written, under any repairs
(`PagerBooks.SessionBooks`, `PagerMoves`, `SwapSpelling`).

**The unisex bathroom** (`project3/bathroom.c`, `project3/bathroomsim.c`). Any number of threads of
two genders enter and leave a bathroom guarded by one lock, one condition variable, a flag and
counters. It is modelled as a transition system with one step for each critical section, under any
scheduler, with spurious wakeups, and as the class `BathroomMonitor.Bathroom` driven by
`BathroomMonitor.Simulate`.

## Departures of the code from its design

The C code departs from its own description in places. Each operation of the models takes a record of
the repairs applied to it, so one definition serves both the code as it stands (`AS_WRITTEN`) and the
design (`REPAIRED`). For the pager as it stands, `PagerExactness.RightExactlyWhenHarmless` says exactly
which commands it carries out as flat memory would, answer and pages, in any coherent state, and
`PagerWrittenRuns.RunRightExactly` says it for sessions. Going wrong underneath is not enough to go wrong:
two evictions that each record their line in the other's entry come out right when their pages are equal,
and `PagerCrossedSession.CrossingHappens` is a session in which that happens. Each departure below has a
session or schedule from the start that goes wrong by it, and the condition under which it matters.

| departure | where | goes wrong | exactly when it matters |
|---|---|---|---|
| `removePage` takes any table byte equal to the frame's address for the page's entry | `project4/memory.c:210-214` | `PagerSessions.ProtectionTakenForAddress` | `PagerAsWritten.RemovePageExact` |
| `freespace` evicts a page table as a page when all frames hold tables | `project4/memory.c:277-289` | `PagerFourTables.FourthTableLosesOne` | `PagerAsWritten.EvictExact` |
| `store` does not bring back a page whose table is in memory, and writes where its swap line number points | `project4/memory.c:369-377` | `PagerSessions.StoreToDiskIsLost` | `PagerStray.StrayStoreExact` |
| `map` of a page on disk gives it a new, empty frame | `project4/memory.c:432-441` | `PagerSessions.MapTwiceForgets` | `PagerExactness.MapAgainExact` |
| `load` of a page never allocated indexes memory with -1 | `project4/memory.c:475-476` | `PagerSessions.LoadOfUnallocatedPage` | `PagerExactness.LoadExact` |
| physical address 0 counts as not found | `project4/memory.c:359`, `project4/memory.c:464` | `PagerAddressZero.AddressZeroFails` | `PagerAddressZero.AddressZeroExact` |
| a swap line number is kept in one byte | `project4/memory.c:215-216` | `PagerLineNumbers.LineNumbersRunOut` | `PagerLimits.LineNumberExact` |
| a swap line reads back as 17 values, into room for 16 | `project4/memory.c:149-153`, `project4/memory.c:170`, `project4/memory.c:184` | `SwapText.ReadsBack` | `SwapText.ReadsBack` |
| a thread that wakes does not look at the flag again | `project3/bathroom.c:118-119` | `BathroomMixing.OvertakingMixes`, `BathroomMixing.StirringMixes` | `BathroomExclusion.AsWrittenApartExactlyWhenPolite` |
| the histogram of users has no slot for all of them | `project3/bathroom.c:43` | `BathroomProtocol.OneThreadOverruns` | `BathroomProtocol.StepsInBounds` |
| an entry after a wait counts in the slot of all threads | `project3/bathroom.c:121` | `BathroomMixing.WaitingMiscounts` | `BathroomProtocol.HistogramsHold` |

The buffer of `Machine.PageFromFile` has the seventeenth element that the C code lacks; everything else
about the reader is as written. The histogram cells of the bathroom start at -1 in both forms, so a cell
is one less than a count. `project4/readme.txt` describes the eviction of a table once there are four;
the code does not reach the loop that does it, and the model follows the code.

## Layout

| file | content |
|---|---|
| `Options.dfy` | the optional value |
| `PagerModel.dfy` | the pager: state, routines, commands, sessions |
| `PagerTables.dfy` | its page tables as records, coherence, and the moves of pages and tables |
| `PagerBytes.dfy` | the bytes in memory do what the moves say |
| `PagerEviction.dfy`, `PagerCommands.dfy` | making room is invisible; each command is its flat counterpart |
| `PagerTransparency.dfy`, `PagerHistory.dfy` | whole sessions, against flat memory and against their history |
| `PagerPhases.dfy` | which frames are free between commands |
| `PagerQuiet.dfy`, `PagerBooks.dfy`, `PagerMoves.dfy` | under any repairs: commands that need no frame, the bookkeeping, the bytes |
| `PagerAsWritten.dfy`, `PagerSoundness.dfy` | the code as it stands: which evictions and commands are as designed |
| `PagerStray.dfy`, `PagerCrossing.dfy` | what goes astray there and comes out right all the same |
| `PagerSpoils.dfy`, `PagerDepartures.dfy`, `PagerExactness.dfy`, `PagerWrittenRuns.dfy` | that nothing else does; commands and sessions |
| `PagerLanding.dfy`, `PagerLimits.dfy` | the frame a page comes back to; addresses and line numbers |
| `PagerSessions.dfy`, `PagerFourTables.dfy`, `PagerAddressZero.dfy`, `PagerLineNumbers.dfy`, `PagerCrossedSession.dfy` | sessions from the start |
| `SwapText.dfy`, `SwapSpelling.dfy` | the text of the swap file |
| `PagerMachine.dfy`, `PagerSimulation.dfy` | the simulator with its arrays, loops and file |
| `BathroomModel.dfy`, `BathroomCounts.dfy` | the monitor and its threads; counting them |
| `BathroomProtocol.dfy`, `BathroomThreads.dfy`, `BathroomExclusion.dfy`, `BathroomMixing.dfy`, `BathroomEnds.dfy` | invariants, what a step does to each thread, exclusion, schedules that break it, termination |
| `BathroomMonitor.dfy` | the shared object and the simulation |

## Model

| member | source | states |
|---|---|---|
| `PagerHistory.PagingAnswersByHistory` | project4/memory.c:325-490 | every session of the repaired pager has a defined outcome; a load of a mapped page answers the byte last stored there and not refused, or 0; a store is taken exactly when the last map of its page gave protection 1; an unmapped page reads as no value |
| `PagerTransparency.PagingIsTransparent` | project4/memory.c:325-490 | a session of any length answers as four private flat memories do, so long as each page it evicts finds a swap line number below 256 (a table needs none), ends coherent, and writes at most two lines a command |
| `PagerTransparency.LinesLastLongEnough` | project4/memory.c:215-217 | line numbers fit their byte through any 128 commands |
| `PagerTransparency.StepRefines` | project4/memory.c:325-490 | from any coherent state one command changes what processes see, and answers, as on flat memory; coherence is kept, old swap lines are never rewritten, exactly one is added for each frame it needs and finds taken, no frame becomes free |
| `PagerTransparency.RunRefines` | project4/memory.c:325-490 | for whole sessions from any coherent state: pages and answers as on flat memory, coherence, swap lines only added and at most two a command, no frame free that was not |
| `PagerHistory.FlatAnswers` | project4/memory.c:367-490 | flat memory answers by the last map and the last accepted store, for all sessions |
| `PagerCommands.MapMakes` | project4/memory.c:397-443 | map sets the protection of the page, creates it as zeros if new, keeps its bytes wherever they are, and touches no other page of any process |
| `PagerCommands.StoreMakes` | project4/memory.c:367-394 | store writes one byte of a page with protection 1 and is refused otherwise, wherever table and page are; no other page changes |
| `PagerCommands.LoadMakes` | project4/memory.c:446-490 | load answers the byte its process sees and changes no page |
| `PagerCommands.ReviveBrings` | project4/memory.c:325-345 | bringing a table and its page back changes no page of any process, costs a line for each frame short, and leaves the table resident and the page not on disk |
| `PagerCommands.LoadPageBrings` | project4/memory.c:181-192 | a page comes back as it left, one frame fewer is free |
| `PagerCommands.LoadPageTableBrings` | project4/memory.c:167-179 | a table comes back with every entry it had |
| `PagerEviction.FreeSpaceHidden` | project4/memory.c:258-321 | `freespace` ends with at least n frames free; no page or protection of any process changes; the table of pid stays where it is; each freed frame costs one line; each eviction of the chain takes a table only when no data page was left before it |
| `PagerEviction.EvictHidden` | project4/memory.c:258-321 | one eviction is invisible, frees exactly one frame, and takes a table only when no data page was left |
| `PagerEviction.RemovePageHidden` | project4/memory.c:207-223 | evicting a page changes nothing that any process sees |
| `PagerEviction.RemovePageTableHidden` | project4/memory.c:194-205 | evicting a table changes nothing that any process sees, once no data page is resident |
| `PagerEviction.DataFrameOwner` | project4/memory.c:207-214 | a data frame's owner has its table in memory, with one entry for the frame, which the repaired lookup finds |
| `PagerTables.PageOutKeeps` | project4/memory.c:207-223 | turning an entry into a swap line keeps all bookkeeping coherent and every page as it is |
| `PagerTables.PageAtKeeps` | project4/memory.c:181-192 | giving a free frame to a page keeps the bookkeeping coherent and changes that page only |
| `PagerTables.TableOutKeeps` | project4/memory.c:194-205 | a table may leave when no data page is resident: no entry of a table on disk then says a page is in memory |
| `PagerTables.TableInKeeps` | project4/memory.c:167-179 | the converse move |
| `PagerTables.TableNewKeeps` | project4/memory.c:398-410 | a new table maps nothing and disturbs nothing |
| `PagerBytes.RemovePageView` | project4/memory.c:207-223 | the bytes after `removePage` are the tables with exactly one entry changed and the frame cleared |
| `PagerBytes.LoadPageView` | project4/memory.c:181-192 | the bytes after `loadPage` are the tables with exactly that entry pointing to the frame with the page's bytes |
| `PagerBytes.RemovePageTableView` | project4/memory.c:194-205 | all entries survive the move of their table to disk |
| `PagerBytes.LoadPageTableView` | project4/memory.c:167-179 | and the move back |
| `PagerBytes.NewTableView` | project4/memory.c:400-409 | writing VPN and VALPRES bytes alone makes a proper empty table, because free frames are zero |
| `PagerBytes.LookupFinds` | project4/memory.c:208-214 | the repaired scan settles on the one entry that maps the frame |
| `PagerPhases.StepKeepsPhase` | project4/memory.c:251-321 | free frames never grow between commands: four, then two, perhaps one, then none, the hand standing so that eviction meets no free frame |
| `PagerPhases.ReachableIsCoherent` | project4/memory.c:60-77 | in every reachable state each frame is exactly one of free (and zero), table or data page, all arrays, hardware pointers and entries agree on it, and no two entries share a frame |
| `PagerLimits.ConvertInOwnFrame` | project4/memory.c:228-248 | a present page converts to an address inside a data frame of its own process |
| `PagerLimits.ConvertIsInjective` | project4/memory.c:228-248 | two present addresses, of one process or two, share a physical address only if they are the same |
| `PagerLimits.StoreStaysHome` | project4/memory.c:377-383 | the write to a present page changes one byte of its frame; tables and frames of others keep all bytes |
| `PagerLimits.WholeStoreStaysHome` | project4/memory.c:325-394 | so does a whole store, whatever it has to bring back first: that part is invisible, and the rest changes at most one byte, in a frame of the process that stores |
| `PagerLimits.LineNumberExact` | project4/memory.c:215-216 | evicting a page keeps it if and only if fewer than 256 lines were written, or the line its byte wraps round to happens to be the same |
| `PagerBooks.StepBooks` | project4/memory.c:251-490 | under any repairs and in any state whose tables on disk are on written lines, free list, owners, table flags, table pointers, line count and hand after a command follow from those before it and the entry of its page: the page nearest ahead of the hand is emptied, else the nearest table of another process; the lowest free frame is taken; the hand moves only past what is emptied and before each call of `freespace` |
| `PagerBooks.SessionBooks` | project4/memory.c:251-490 | and so after every session from the start, of the code as written or repaired, however much it has got wrong |
| `PagerBooks.EvictBooks` | project4/memory.c:270-320 | the same for one eviction; as written, with four tables, the frame at the hand is emptied and still counts as a table |
| `PagerQuiet.QuietStays` | project4/memory.c:367-490 | a command that asks for no frame changes, under any repairs and in any state, one byte of memory at most, and nothing else; a load and a refused store change nothing at all |
| `PagerQuiet.QuietExactly` | project4/memory.c:367-490 | repaired, these are exactly the commands that need no frame |
| `PagerMoves.ScanIs` | project4/memory.c:208-214 | the scan settles on the byte before its last match, on 0 without one, and on none when the first byte of memory matches |
| `PagerMoves.RemovePageMoves` | project4/memory.c:215-222 | a page leaves: each byte of memory and the swap file afterwards, the entry settled on included, right or wrong |
| `PagerMoves.RemoveTableMoves` | project4/memory.c:194-203 | the same for a table that leaves |
| `PagerMoves.LoadTableMoves` | project4/memory.c:167-178 | for one that comes back, to the lowest free frame |
| `PagerMoves.LoadPageMoves` | project4/memory.c:181-191 | for a page that comes back |
| `PagerMoves.NewTableMoves` | project4/memory.c:400-409 | for a new table |
| `PagerMoves.PlaceMoves` | project4/memory.c:432-440 | for a new page |
| `PagerLineNumbers.LineNumbersRunOut` | project4/memory.c:215-216 | 262 commands from the start, all else repaired, the last of which reads a 7 from a page of zeros, because the 257th line is recorded as the first |
| `PagerLanding.SwapInLands` | project4/memory.c:181-192 | the frame that a page comes back to, told from the free list, the table flags and the hand before anything moves |
| `PagerLanding.ReviveLands` | project4/memory.c:325-345 | the same for a page whose table comes back first |
| `PagerAddressZero.AddressZeroExact` | project4/memory.c:463-467 | with all else repaired, treating address 0 as not found changes a load if and only if its page is on disk, the address is the first of the page, and the frame it will come back to is frame 0; the load then finds no value where there is one |
| `PagerAddressZero.AddressZeroFails` | project4/memory.c:463-467 | seven commands from the start, all else repaired, the last of which finds no value where flat memory reads 0 |
| `PagerAsWritten.RemovePageExact` | project4/memory.c:207-223 | `removePage` as written agrees with its repair, and leaves the bookkeeping coherent, if and only if the byte before the last table byte equal to the address is the page's number |
| `PagerAsWritten.PfnByteLast` | project4/memory.c:210-214 | which holds when the PFN byte is the last such byte |
| `PagerAsWritten.WrongEntryUpdated` | project4/memory.c:208-217 | otherwise the entry of the evicted page is left saying that the page is in memory |
| `PagerAsWritten.EvictExact` | project4/memory.c:258-321 | an eviction as written agrees with its repair, and keeps coherence, if and only if not every frame holds a table and the scan, if a page goes, hits its entry |
| `PagerSoundness.SoundAgrees` | project4/memory.c:325-490 | a command whose evictions are all sound, and that meets no other departure, ends in the state and with the answer of the design |
| `PagerSoundness.SoundSessionIsTransparent` | project4/memory.c:325-490 | the code as written answers a session of sound commands as flat memory would |
| `PagerStray.StrayStoreExact` | project4/memory.c:369-383 | a store to a writeable page on disk is right if and only if the byte it writes astray changes nothing and the page has the stored byte already, or the byte lands on the line number of a page on disk and names a line on which that page is as it should be; unless that is the page stored to, it too has the byte already |
| `PagerCrossing.NewCrossing` | project4/memory.c:258-299 | two wrong evictions of equal pages of one process, for a process that gets its first table, come out as designed for every process |
| `PagerCrossing.BackCrossing` | project4/memory.c:325-345 | the same around a table that comes back between them |
| `PagerCrossedSession.CrossingHappens` | project4/memory.c:258-299 | four maps from the start, after which a map departs from the design in both its evictions and is right |
| `PagerExactness.LoadExact` | project4/memory.c:446-490 | a load is right if and only if its page was allocated or its table is not in memory, its evictions are sound or cross, and its page does not come back to put the address at 0 |
| `PagerExactness.StoreExact` | project4/memory.c:367-394 | a store is right if and only if its evictions, for a table on disk, are sound or cross, and its stray byte, for a page on disk, does no harm |
| `PagerExactness.MapAgainExact` | project4/memory.c:421-441 | mapping again a page on disk, its table in memory, is right if and only if its swap line is all zeros and the eviction sound |
| `PagerExactness.MapExact` | project4/memory.c:397-443 | a map is right if and only if its page is not on disk or all zeros there, and its evictions are sound or cross |
| `PagerExactness.RightExactlyWhenHarmless` | project4/memory.c:325-490 | on every coherent state the code as written ends coherent, shows every process its pages, and answers, as flat memory does, if and only if the command is harmless, which the state before it tells |
| `PagerWrittenRuns.RunRightExactly` | project4/memory.c:325-490 | a session is right at every command if and only if each command is harmless in the state it meets |
| `PagerWrittenRuns.HarmlessSessionAnswers` | project4/memory.c:325-490 | the code as written answers a session of harmless commands by its history |
| `PagerSessions.StoreToDiskIsLost` | project4/memory.c:369-377 | six commands after which a stored 7 reads as 0 |
| `PagerSessions.MapTwiceForgets` | project4/memory.c:421-441 | seven commands after which a stored 7 reads as 0 because its page was mapped again |
| `PagerSessions.ProtectionTakenForAddress` | project4/memory.c:210-217 | four maps, one with protection 32, after which the code writes outside memory |
| `PagerSessions.LoadOfUnallocatedPage` | project4/memory.c:474-478 | a map and a load with no defined outcome |
| `PagerFourTables.FourthTableLosesOne` | project4/memory.c:277-297 | four processes map a page each and one reads; a table then leaves as if it were a page, and the read of its process has no defined outcome where flat memory reads 0 |
| `SwapText.ReadsBack` | project4/memory.c:116-156 | line k of a file of n lines reads back as its 16 bytes and a zero for the newline if k < n, and is never found otherwise |
| `SwapText.FileTextInjective` | project4/memory.c:116-125 | different pages make different files |
| `SwapText.CoreFits` | project4/memory.c:138-145 | every line fits the 128-byte buffer, for every line number of an int |
| `SwapText.AtoiOfDecimal` | project4/memory.c:118-151 | a number printed in decimal is read back as itself |
| `SwapSpelling.DecimalSpelled` | project4/memory.c:118-120 | a number is printed as its decimal digits, digit by digit, with no zero before them |
| `SwapSpelling.LineSpelled` | project4/memory.c:118-122 | a line is its number, the bytes of its page from the first to the last and a newline, with a space after each |
| `SwapSpelling.OneLine` | project4/memory.c:118-122 | one line written out |
| `SwapSpelling.FileSpelled` | project4/memory.c:116-125 | the file is its lines in the order of writing, numbered from 0 |
| `SwapSpelling.AtoiReads` | project4/memory.c:143-151 | one digit more is read as ten times the number and the digit |
| `SwapSpelling.AtoiStops` | project4/memory.c:143-151 | reading a number ends at the first character that is no digit |
| `SwapSpelling.SomeNumbers` | project4/memory.c:143-151 | four numbers as they are read |
| `SwapSpelling.TakenIs` | project4/memory.c:141-145 | one `fgets` takes up to a newline, or what there is room for, or what there is |
| `SwapSpelling.WordsOfSpaced` | project4/memory.c:142-152 | `strtok` takes spaced words apart again, leading space or not |
| `PagerMachine.Machine.PageNumber` | project4/memory.c:83-91 | the subtraction loop divides by 16 |
| `PagerMachine.Machine.FindFree` | project4/memory.c:103-111 | the lowest free frame is taken, and nothing else changes |
| `PagerMachine.Machine.PageToFile` | project4/memory.c:116-125 | the file grows by exactly the line of the 16 bytes |
| `PagerMachine.Machine.PageFromFile` | project4/memory.c:130-156 | a line past the last is refused; for a written one the loop over lines ends, having filled the buffer with the 16 bytes of the line and a zero, and no more of it |
| `PagerMachine.Machine.LoadPageTable` | project4/memory.c:167-179 | arrays and file after it are those of the model; the address returned is that of the lowest free frame, where the table now is |
| `PagerMachine.Machine.LoadPage` | project4/memory.c:181-192 | arrays and file after it are those of the model; the address returned is that of the lowest free frame, which the entry of the page now names |
| `PagerMachine.Machine.ScanTable` | project4/memory.c:209-214 | the scan of 16 bytes, last match winning |
| `PagerMachine.Machine.RemovePage` | project4/memory.c:207-223 | arrays and file after it are those of the model |
| `PagerMachine.Machine.RemovePageTable` | project4/memory.c:194-205 | arrays and file after it are those of the model |
| `PagerMachine.Machine.SkipTables` | project4/memory.c:271-283 | the hand passes tables only, at most four, and stops at a frame that holds none or has gone full circle |
| `PagerMachine.Machine.EvictPages` | project4/memory.c:270-299 | the first loop evicts the next data pages and leaves at most one frame to the second |
| `PagerMachine.Machine.EvictTables` | project4/memory.c:302-320 | the second loop ends, having evicted the next table other than that of pid |
| `PagerMachine.Machine.FreeSpace` | project4/memory.c:258-321 | both loops together are exactly as many evictions as frames are short |
| `PagerMachine.Machine.NumberEntries` | project4/memory.c:406-409 | the VPN and VALPRES bytes of a new table |
| `PagerMachine.Machine.TableForMap` | project4/memory.c:397-418 | the table that `map` needs, created or brought back, as in the model |
| `PagerMachine.Machine.Store` | project4/memory.c:367-394 | arrays, file and answer are those of the model, for every set of repairs |
| `PagerMachine.Machine.Map` | project4/memory.c:397-443 | arrays, file and answer are those of the model, for every set of repairs |
| `PagerMachine.Machine.Load` | project4/memory.c:446-490 | arrays, file and answer are those of the model, for every set of repairs |
| `PagerMachine.Machine.Command` | project4/memory.c:325-363 | the store or load of a process whose table is on disk |
| `PagerSimulation.LoopsReady` | project4/memory.c:270-320 | between commands the loops of `freespace` never stop at a frame that is free already |
| `PagerSimulation.Session` | project4/memory.c:325-490 | the arrays, loops and text file, driven by any session, answer as flat memory: repaired always, as written when each command is harmless |
| `BathroomProtocol.StepKeeps` | project3/bathroom.c:96-138 | every critical section of any thread, as written or repaired, keeps: users and quers are the true counts, uses are the entries, the flag is VACANT exactly when nobody is inside, nobody sleeps while it is VACANT, both histograms add up |
| `BathroomProtocol.ReachableKeeps` | project3/bathroom.c:96-138 | hence all of it in every state of every schedule of any number of threads |
| `BathroomProtocol.StepsInBounds` | project3/bathroom.c:103-121 | with a slot for everyone no step leaves an array, the queue included; without it a step does if and only if it lets the last thread in with all others, or, as written, lets one in after a wait |
| `BathroomProtocol.OneThreadOverruns` | project3/bathroom.c:43-105 | a single thread writes outside the histogram |
| `BathroomProtocol.HistogramsHold` | project3/bathroom.c:105-121 | with a slot for everyone, over any schedule, a cell of users grows by the entries that made it so many inside, less those counted elsewhere, plus those misplaced here; only entries after a wait are misplaced, and only in the last slot |
| `BathroomProtocol.HistogramsCount` | project3/bathroom.c:105-121 | with the slot repaired too, exactly by the entries that made it so many inside, and a cell of the queue by the queuings that made it so many waiting |
| `BathroomThreads.FlagFollows` | project3/bathroom.c:99-133 | in any state and under any repairs: whoever enters, politely or not, leaves the flag at its own gender, the last one out leaves it VACANT, and no other step changes it |
| `BathroomThreads.WhoEnters` | project3/bathroom.c:99-119 | who ends a turn inside: an arriving thread that finds the bathroom vacant or its gender inside, and a woken one, which as written need find neither |
| `BathroomThreads.CountersFollow` | project3/bathroom.c:103-131 | users, uses, quers and ques go up and down by one with the threads |
| `BathroomThreads.CellsFollow` | project3/bathroom.c:105-121 | one cell of one histogram goes up at a time, and which |
| `BathroomThreads.WhoMayMove` | project3/bathroomsim.c:37-49 | any sleeper may wake, any thread inside may leave; only those outside with loops to go arrive and only the woken resume |
| `BathroomThreads.ThreadsKeep` | project3/bathroomsim.c:7-49 | no step changes a gender; only its own departure takes from what a thread has left; a thread moves only on its own turn, unless it sleeps and the last one out wakes it |
| `BathroomThreads.ThreadsStayThemselves` | project3/bathroomsim.c:7-49 | after any schedule every thread has the gender it was given, its departures and what it has left are its loops, and its entries are its departures, and one more while it is inside |
| `BathroomExclusion.GendersStayApart` | project3/bathroom.c:96-138 | with the second look: in every reachable state all inside were given the gender of the flag and all asleep the other, spurious wakeups included |
| `BathroomExclusion.AsWrittenApartExactlyWhenPolite` | project3/bathroom.c:118-119 | without it: a schedule keeps the genders given apart throughout if and only if every thread that returns from its wait finds the bathroom vacant or its own gender inside |
| `BathroomExclusion.PoliteRunsAgree` | project3/bathroom.c:118-119 | such a schedule is the same with and without the second look |
| `BathroomExclusion.BatchesKeepApart` | project3/bathroom.c:129-138 | as written, exclusion holds throughout when everyone woken gets the lock before anyone else |
| `BathroomMixing.OvertakingMixes` | project3/bathroom.c:118-119 | two threads and five steps that put both genders inside |
| `BathroomMixing.StirringMixes` | project3/bathroom.c:118-119 | four steps that do so by a spurious wakeup |
| `BathroomMixing.WaitingMiscounts` | project3/bathroom.c:121 | a schedule of two threads, with a slot for everyone, after which the histogram counts an entry that made it two inside where, with the right slot, it counts two that made it one |
| `BathroomEnds.SomeoneCanGo` | project3/bathroom.c:96-138 | no deadlock and no lost wakeup: while a thread is unfinished, some thread that is not asleep has a step |
| `BathroomEnds.StepLowers` | project3/bathroomsim.c:37-70 | every step but a spurious wakeup lowers a measure, which that raises by one |
| `BathroomEnds.EveryScheduleEnds` | project3/bathroomsim.c:107-113 | every schedule has a bounded number of steps, spurious wakeups aside; where it can go no further all threads have finished, users and quers are 0, the flag is VACANT and uses are the loops of all threads |
| `BathroomEnds.CanFinish` | project3/bathroomsim.c:107-113 | from every reachable state all threads can finish |
| `BathroomMonitor.Bathroom.Initialize` | project3/bathroom.c:26-50 | the fields and both arrays as they start |
| `BathroomMonitor.Bathroom.Enter` | project3/bathroom.c:96-117 | the first critical section of `Enter`, on the shared fields and arrays |
| `BathroomMonitor.Bathroom.Reenter` | project3/bathroom.c:118-126 | the second |
| `BathroomMonitor.Bathroom.Leave` | project3/bathroom.c:129-138 | fields and broadcast as in the model |
| `BathroomMonitor.Simulation.Go` | project3/bathroomsim.c:37-70 | one turn of one thread is one step of the transition system |
| `BathroomMonitor.Simulate` | project3/bathroomsim.c:95-116 | for any scheduler, with as many spurious wakeups as it likes up to a bound, the simulation ends, having taken a schedule of the transition system, with everyone finished, the bathroom vacant, the queue empty, all loops counted and each thread having left as often as it was to |

## Left out

- Evict: passes over a frame that is already free, where the C loops would take it for a page of process -1; `PagerPhases.StepKeepsPhase` and `PagerSimulation.LoopsReady` show that between commands of the repaired pager this never comes up, and the methods of `Machine` require that it does not.
- RightExactlyWhenHarmless: leaves out a store by a process whose table is on disk while exactly one frame is free; `PagerWrittenRuns.NoLastFrame` shows that between commands a frame is free only while nothing is on disk. It and the lemmas beside it are about states with at most 254 swap lines written; past them `PagerLimits.LineNumberExact` judges each eviction.
- StoreExact: leaves out the same store.
- Machine.PageFromFile: is not called for the line just past the last one, which the C guard lets through and for which the search never ends, as `SwapText.ReadsBack` says; lines further on are refused as in the C code.
- BathroomMonitor.Bathroom.Enter: is the part of `Enter` up to the wait, and `Reenter` the rest, since the lock is free in between.
- Overflow of `uses` and `ques`, which count entries in an int, and of `linecount` beyond an int.
- `main` of the paging simulator, with its parsing of commands: commands come typed, with processes 0 to 3 and addresses 0 to 63.
- The messages both programs print, and the lock around those of the bathroom.
- `FILE` operations and their failures: the swap file is a string.
- Time: arrival and use times, vacancy and queue times, the random generator, and the averages that `Finalize` computes from the histograms in floating point; loop counts are any numbers.
- The pthread library below its lock and condition variable.
- project0, project1 and project2: kernel modules and process launching, which would add little to prove.
