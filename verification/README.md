# Intel CPU package: the SMM rendezvous, page tables, MTRR refresh and MP dispatch

This project models the parts of `IA32FamilyCpuPkg` in which several processors, several passes or several
representations have to agree, and proves that they do. `dafny verify dfyconfig.toml` checks all of it.

**SMM rendezvous** (`Smm*.dfy`). n processors enter an SMI, one of them is elected BSP, the entry counter is locked,
and everybody goes through semaphore barriers around the backing up, replacing and restoring of the MTRRs, while the BSP
runs procedures on the APs. The model is a step system. A processor's position is the line of `MpService.c` it executes
next. One step is one access to shared memory: a compare-exchange loop that succeeds is one step, an MTRR is read or
written one register at a time, and the threads of a core share the registers. Two steps are coarser: ReleaseAllAPs reads
a Present flag and posts in one step, and line 493 reads BspIndex and posts in one step. A run is any interleaving, over
any number of rounds. Sync timeouts may strike at any moment. `SmmInvariant.dfy` says what holds in every state of every run
(a round is gathering, led by one BSP, or draining); `SmmApSteps.dfy`, `SmmBspSteps.dfy` and `SmmMtrrs.dfy` show that
every step keeps it, `SmmPreserve.dfy` puts them together, and `SmmTheorems.dfy`, `SmmCalls.dfy`, `SmmProgress.dfy` and
`SmmTiming.dfy` state what follows. The configuration is BSP election on, blocking `SmmStartupThisAp`, and MTRR configuration on or off.

Two conditions on runs are made explicit, and both are necessary: `SmmWitness.dfy` builds runs that get to where they
matter.

* A processor may enter only when no Present flag of the previous round is left (`SmmState.Draining`). It is not enough
  that the BSP has passed line 352 or line 357: in every draining state, any processor that entered could post a token to
  any processor with its flag still set, so that the assertion of line 815 fails (`SmmOverlap.EarlyEntryLeaks`), and there
  are runs that end in such states (`SmmOverlap.EntryRuleIsNecessary`).
* The SMM core starts a procedure on an AP only after the AP has initialised its Busy lock (line 455), or finds the lock
  held (`SmmState.Timely`). `SmmTiming.CallIsSafeIffTimely` shows that exactly then the procedure has always been run by
  the time `SmmStartupThisAp` returns, and `SmmTiming.CallRuleIsNecessary` gives a run that gets to a call for which it
  fails: the AP's lock is still released from the round before.

**SMM profile page table** (`PagingRanges.dfy`, `PagingTable.dfy`, `ProfileFaults.dfy`). Protected ranges, the split of
2MB pages into 4KB pages, the two passes of `InitPaging` over arrays of page directory slots, and the page fault and
single-step handlers. The mixed table equals a flat table with one rule for each 4KB page. An opened page is closed again
by the debug exception exactly when there have been at most ten faults since the previous one.

**SMM page table of the first 4GB** (`StackGuards.dfy`), **SMRAM** (`SmramRange.dfy`) and **SMI tiles** (`SmmTiles.dfy`). It
is the assertion of `MpService.c:896`, not the tile size, that keeps the SMI handler of one processor off the descriptor of
another: `SmmTiles.HandlersMissDescriptors` says exactly when the tile size alone would let them overlap, and
`SmmTiles.GuardedNeverOverlap` that with the assertion they never do.

**MTRR to GCD refresh** (`GcdMap.dfy`, `GcdRefresh.dfy`). The passes of interval writes, and the coalescing of the 88 fixed
sub-ranges into runs, give every address the effective type of the precedence rules in section 11.11.4.1 of the Intel SDM,
volume 3A. The GCD map is sorted, without gaps, and reaches at least to 1MB; `SetMemorySpaceAttributes` succeeds.

**MP Services dispatch** (`Dispatch.dfy`, `Timeouts.dfy`), **APIC IDs** (`ApicIds.dfy`) and **P-states** (`PStates.dfy`). The
APs run concurrently with the BSP: before the BSP looks at the state of an AP, and before it wakes or resets one, they take
any number of steps. Taking an AP off the list and setting it idle is one step of the BSP.

## Where the code does less than its comments say

* A variable MTRR that begins inside the GCD map and ends past it is ignored as a whole (`MemoryAttribute.c:188`):
  `GcdRefresh.RefreshIsDocumented`. WP is not in the mask that is cleared, so a WP attribute survives a change of type:
  `GcdRefresh.BlendReplacesType`.
* Without an MMIO descriptor `InitProtectedMemRange` leaves no range at all, and `InitPaging` then makes every page absent:
  `PagingTable.InitProfileTable`. One split slot is allocated for each range, and that is enough exactly when as many ranges
  need none as need two; else the source writes past the allocation: `PagingRanges.InitProtectedMemRange`.
* `SetCacheability` gives the new directory entry no write bit, and bit 7 (PS in the directory, PAT in a page table) stays
  set in the other 511 entries: `StackGuards.PageTables.SetCacheability`.
* A second `StartupAllAPs` while one is pending is refused, but takes the first outstanding AP off the list:
  `Dispatch.SecondStartLosesAnAp`.
* The test for duplicate socket IDs (`X2Apic.c:209`) never fires; uniqueness rests on lines 250-257:
  `ApicIds.CpuTable.CheckDuplicates`, `ApicIds.CpuTable.ConstructNewApicId`.
* When the SMRAM around the chosen region reaches up to 4GB, the 32-bit sum of base and size is 0, and a region that begins
  at 0 is taken for an adjacent one (`PiSmmCpuDxeSmm.c:1200`): `SmramRange.WrapLeavesTheComponent` shows a list of two
  regions, `SmramRange.ComponentIsQuietIff` and `SmramRange.Coalesce` that the result is wrong exactly in that case. If
  everything below 4GB is SMRAM the loop does not end at all: `SmramRange.LoopNeverEnds`.

## Model

| member | source | states |
|---|---|---|
| SmmApSteps.RendezvousShape | IA32FamilyCpuPkg/PiSmmCpuDxeSmm/MpService.c:734-826 | a processor that enters or leaves while a BSP leads keeps the positions and flags of the round: Counter is the number of participants until the lock, Present is set from line 780 to line 814, a latecomer has neither flag nor token |
| SmmApSteps.RendezvousTokens | IA32FamilyCpuPkg/PiSmmCpuDxeSmm/MpService.c:734-826 | it keeps the balance of tokens given and taken, its own and that of the BSP |
| SmmBspSteps.GatherSteps | IA32FamilyCpuPkg/PiSmmCpuDxeSmm/MpService.c:188-252 | the BSP's steps up to the lock keep the positions, the token balance and the procedure protocol, with ApCount the number of the other participants |
| SmmBspSteps.InsideSteps | IA32FamilyCpuPkg/PiSmmCpuDxeSmm/MpService.c:296-349 | so do its steps on its own Busy lock, at the end of the SMM core, and at the resetting of BspIndex |
| SmmBspSteps.OwnBusy | IA32FamilyCpuPkg/PiSmmCpuDxeSmm/MpService.c:296-302 | the BSP initialises its own Busy lock and acquires it |
| SmmBspSteps.WaitDone | IA32FamilyCpuPkg/PiSmmCpuDxeSmm/MpService.c:121-131 | so does leaving WaitForAllAPs for the next barrier |
| SmmBspSteps.ReleaseVisits | IA32FamilyCpuPkg/PiSmmCpuDxeSmm/MpService.c:138-152 | a visit of ReleaseAllAPs gives one token to a participant other than the BSP, and changes no other semaphore |
| SmmBspSteps.StartupTokens | IA32FamilyCpuPkg/PiSmmCpuDxeSmm/MpService.c:701-723 | every step of SmmStartupThisAp, rejections included, keeps the token balance, with one extra token for the AP of a posted procedure |
| SmmBspSteps.StartupTasks | IA32FamilyCpuPkg/PiSmmCpuDxeSmm/MpService.c:701-723 | a timely step keeps the procedure protocol: the target waits at line 461 with Busy acquired, its procedure and parameter are stored before it gets the token, and Busy is free again when the call returns |
| SmmApSteps.ArriveTokens | IA32FamilyCpuPkg/PiSmmCpuDxeSmm/MpService.c:367-450 | a step of APHandler before the work loop keeps the token balance of the AP and of the BSP |
| SmmApSteps.TaskToken | IA32FamilyCpuPkg/PiSmmCpuDxeSmm/MpService.c:452-488 | a step of the work loop keeps the token balance of the AP, tokens for procedures and the one for leaving apart |
| SmmApSteps.TaskTasks | IA32FamilyCpuPkg/PiSmmCpuDxeSmm/MpService.c:452-488 | a step of the work loop keeps the procedure protocol: what is accepted and not yet run is exactly the posted procedure |
| SmmApSteps.DepartTokens | IA32FamilyCpuPkg/PiSmmCpuDxeSmm/MpService.c:490-512 | a step of APHandler after the work loop keeps the token balance of the AP and of the BSP |
| SmmPreserve.Elected | IA32FamilyCpuPkg/PiSmmCpuDxeSmm/MpService.c:779-790 | the first processor to try the election becomes the BSP of the round |
| SmmApSteps.ApStep | IA32FamilyCpuPkg/PiSmmCpuDxeSmm/MpService.c:367-512 | a step of any other processor keeps the positions, the token balance and the procedure protocol of the round |
| SmmApSteps.ArriveSignals | IA32FamilyCpuPkg/PiSmmCpuDxeSmm/MpService.c:415-450 | an arriving AP's signal goes to the elected BSP and belongs to the barrier the BSP has reached |
| SmmApSteps.DepartSignals | IA32FamilyCpuPkg/PiSmmCpuDxeSmm/MpService.c:490-511 | the same of a departing AP's signals |
| SmmBspSteps.AllArrived | IA32FamilyCpuPkg/PiSmmCpuDxeSmm/MpService.c:121-131 | when WaitForAllAPs ends, every participant has signalled this barrier and no token is left |
| SmmBspSteps.BarrierSteps | IA32FamilyCpuPkg/PiSmmCpuDxeSmm/MpService.c:253-343 | the BSP's barrier steps keep the positions, the token balance and the procedure protocol |
| SmmMtrrs.Apart | IA32FamilyCpuPkg/PiSmmCpuDxeSmm/MpService.c:253-343 | while anybody backs up nobody has replaced, and while anybody replaces nobody has restored |
| SmmMtrrs.AccessStep | IA32FamilyCpuPkg/PiSmmCpuDxeSmm/MpService.c:160-179 | every access to one shared register keeps each register at the value the phase calls for |
| SmmPreserve.RoundEnds | IA32FamilyCpuPkg/PiSmmCpuDxeSmm/MpService.c:345-352 | at the end of a round no semaphore holds a token and the MTRRs are restored |
| SmmPreserve.InvAlways | IA32FamilyCpuPkg/PiSmmCpuDxeSmm/MpService.c:188-512 | the invariant of the rendezvous holds in every state of every run of any number of rounds |
| SmmTheorems.OneBsp | IA32FamilyCpuPkg/PiSmmCpuDxeSmm/MpService.c:776-790 | at most one processor is BSP at a time |
| SmmTheorems.LockCountsParticipants | IA32FamilyCpuPkg/PiSmmCpuDxeSmm/MpService.c:247-252 | the ApCount read at the lock is the number of APs that got a nonzero Counter |
| SmmTheorems.ReleaseFindsParticipants | IA32FamilyCpuPkg/PiSmmCpuDxeSmm/MpService.c:138-152 | whenever ReleaseAllAPs looks at a processor, it is present exactly if it is such an AP |
| SmmTheorems.LateTouchesNothing | IA32FamilyCpuPkg/PiSmmCpuDxeSmm/MpService.c:742-748 | a processor arriving after the lock changes no Run, Present, MTRR or other shared state |
| SmmTheorems.NobodyLeavesEarly | IA32FamilyCpuPkg/PiSmmCpuDxeSmm/MpService.c:821-823 | between the lock and line 357 nobody passes line 821 |
| SmmTheorems.BarriersDoNotMix | IA32FamilyCpuPkg/PiSmmCpuDxeSmm/MpService.c:121-131 | the tokens in Run of the BSP all belong to the barrier it waits for, and no AP is further ahead than the barriers allow |
| SmmTheorems.NoTokenLeaks | IA32FamilyCpuPkg/PiSmmCpuDxeSmm/MpService.c:814-815 | the assertion of line 815: no semaphore keeps a token once its processor is done |
| SmmTheorems.RoundsAreClean | IA32FamilyCpuPkg/PiSmmCpuDxeSmm/MpService.c:345-358 | when everybody has left, the shared data and the MTRRs are as before the round |
| SmmTheorems.NoStateIsStuck | IA32FamilyCpuPkg/PiSmmCpuDxeSmm/MpService.c:188-512 | until everybody has left, some processor inside SMM has an enabled step |
| SmmTheorems.NobodyReplacesEarly | IA32FamilyCpuPkg/PiSmmCpuDxeSmm/MpService.c:265-290 | nobody replaces an MTRR before every participant has backed up all of its own, with the values from before the round |
| SmmTheorems.CoreRunsOnSmiMtrrs | IA32FamilyCpuPkg/PiSmmCpuDxeSmm/MpService.c:280-307 | while the SMM core runs, every participating core has the SMI values in all its MTRRs |
| SmmTheorems.MtrrsRestored | IA32FamilyCpuPkg/PiSmmCpuDxeSmm/MpService.c:327-352 | when the BSP ends the round, every core holds its MTRRs from before the SMI |
| SmmTheorems.TasksRunExactlyOnce | IA32FamilyCpuPkg/PiSmmCpuDxeSmm/MpService.c:701-723 | outside SmmStartupThisAp, the accepted procedures have been run exactly once each, in order, by the right AP with the right parameter |
| SmmTheorems.BusyIsHeld | IA32FamilyCpuPkg/PiSmmCpuDxeSmm/MpService.c:708-721 | from acceptance until the AP has run it, the AP's Busy lock is held |
| SmmTheorems.WokenApIsBusy | IA32FamilyCpuPkg/PiSmmCpuDxeSmm/MpService.c:471-476 | the assertion of line 474: a woken AP finds its Busy lock acquired |
| SmmCalls.IdleApIsFree | IA32FamilyCpuPkg/PiSmmCpuDxeSmm/MpService.c:452-488 | in every run, whenever the SMM core is about to call, the Busy lock of an AP that waits for work is free, and that of the BSP is held |
| SmmCalls.AcceptedIffWaiting | IA32FamilyCpuPkg/PiSmmCpuDxeSmm/MpService.c:701-723 | a timely call is accepted if and only if its AP waits for work; else it changes nothing |
| SmmCalls.CallRuns | IA32FamilyCpuPkg/PiSmmCpuDxeSmm/MpService.c:701-723 | such a call has run its procedure exactly once when it returns, and the AP waits for work again, whatever the others do in between |
| SmmCalls.TwoCallsBothRun | IA32FamilyCpuPkg/PiSmmCpuDxeSmm/MpService.c:701-723 | two calls to the same AP, one right after the other, both run, in order |
| SmmProgress.BudgetStep | IA32FamilyCpuPkg/PiSmmCpuDxeSmm/MpService.c:188-512 | every step inside SMM, but starting one more procedure, uses up a bounded budget |
| SmmProgress.SomebodyAdvances | IA32FamilyCpuPkg/PiSmmCpuDxeSmm/MpService.c:188-512 | until everybody has left, some such step is possible |
| SmmProgress.RoundsEnd | IA32FamilyCpuPkg/PiSmmCpuDxeSmm/MpService.c:188-512 | every round ends: the number of such steps in a row is at most the budget |
| SmmProgress.RoundCanComplete | IA32FamilyCpuPkg/PiSmmCpuDxeSmm/MpService.c:188-512 | from every state of every run the round can be completed, without anybody else entering |
| SmmTiming.TaskIsLost | IA32FamilyCpuPkg/PiSmmCpuDxeSmm/MpService.c:452-455 | an AP that initialises Busy after SmmStartupThisAp has taken it lets the call return before the procedure has run |
| SmmTiming.CallIsSafeIffTimely | IA32FamilyCpuPkg/PiSmmCpuDxeSmm/MpService.c:701-723 | a call has run its procedure by the time it returns, under every interleaving, if and only if the AP is past line 455 or Busy is not free |
| SmmTiming.CallRuleIsNecessary | IA32FamilyCpuPkg/PiSmmCpuDxeSmm/MpService.c:701-723 | some run leads to a call that is not timely, between any two processors, and from there the procedure is lost |
| SmmWitness.DrainIsReachable | IA32FamilyCpuPkg/PiSmmCpuDxeSmm/MpService.c:188-357 | a run whose round is draining, with the last processor at line 357 or at line 814 |
| SmmWitness.CompletesCalmly | IA32FamilyCpuPkg/PiSmmCpuDxeSmm/MpService.c:452-512 | a round in which no procedure is started leaves the Busy lock of an AP released |
| SmmWitness.RunsToCore | IA32FamilyCpuPkg/PiSmmCpuDxeSmm/MpService.c:255-307 | the BSP can reach the SMM core while the AP is still at line 455 |
| SmmWitness.UntimelyIsReachable | IA32FamilyCpuPkg/PiSmmCpuDxeSmm/MpService.c:452-455 | a run of two rounds that ends before line 710 with an AP at line 455 and its lock released |
| SmmOverlap.EarlyEntryLeaks | IA32FamilyCpuPkg/PiSmmCpuDxeSmm/MpService.c:352-357 | in every draining state, any processor that enters can make any processor with its Present flag still set fail the assertion of line 815, by steps that are all allowed |
| SmmOverlap.EntryRuleIsNecessary | IA32FamilyCpuPkg/PiSmmCpuDxeSmm/MpService.c:352-357 | such a state ends some run, with the other processor at line 357 or at line 814 |
| GcdMap.Gcd.SetMemorySpaceAttributes | IA32FamilyCpuPkg/CpuArchDxe/MemoryAttribute.c:260-264 | the GCD service replaces the attributes of exactly the addresses of the range |
| GcdMap.SearchGcdMemorySpaces | IA32FamilyCpuPkg/CpuArchDxe/MemoryAttribute.c:164-189 | found exactly when the range ends inside the map, with the descriptors of its first and last byte |
| GcdMap.SetGcdMemorySpaceAttributes | IA32FamilyCpuPkg/CpuArchDxe/MemoryAttribute.c:207-268 | writes the type, as far as the capabilities allow, at exactly the existing addresses of the range, or nothing at all |
| GcdRefresh.AttributeBits | IA32FamilyCpuPkg/CpuArchDxe/MemoryAttribute.c:95-114 | the attribute bit of each memory type; no bit for any other code |
| GcdRefresh.TypeBytes | IA32FamilyCpuPkg/CpuArchDxe/MemoryAttribute.c:405 | sub-range k of a fixed register is its byte k, from the low end |
| GcdRefresh.LastOf | IA32FamilyCpuPkg/CpuArchDxe/MemoryAttribute.c:347-390 | the last valid range of a pass that covers an address |
| GcdRefresh.FixedTiles | IA32FamilyCpuPkg/CpuArchDxe/MemoryAttribute.c:27-83 | the 88 fixed sub-ranges tile the first megabyte |
| GcdRefresh.FixedNext | IA32FamilyCpuPkg/CpuArchDxe/MemoryAttribute.c:424-429 | the table holds the sub-ranges, eight to a register |
| GcdRefresh.DefaultPass | IA32FamilyCpuPkg/CpuArchDxe/MemoryAttribute.c:332-342 | every existing address shows the default type |
| GcdRefresh.VariablePass | IA32FamilyCpuPkg/CpuArchDxe/MemoryAttribute.c:347-390 | a pass gives every address the type of the last covering range of its kind, and leaves the others |
| GcdRefresh.FixedPass | IA32FamilyCpuPkg/CpuArchDxe/MemoryAttribute.c:395-441 | writing runs of equal types equals writing all 88 sub-ranges one by one |
| GcdRefresh.RefreshGcdMemoryAttributes | IA32FamilyCpuPkg/CpuArchDxe/MemoryAttribute.c:277-452 | every existing address gets the effective type by MTRR precedence; nothing else changes |
| GcdRefresh.RefreshIsDocumented | IA32FamilyCpuPkg/CpuArchDxe/MemoryAttribute.c:182-188 | that type is the documented one, in attribute bits, for all types of ranges, if and only if every range that begins inside the map ends inside it |
| GcdRefresh.RefreshTwice | IA32FamilyCpuPkg/CpuArchDxe/MemoryAttribute.c:277-452 | a second refresh, on the map as it reads after the first, with the same MTRRs, changes no attribute of any address |
| GcdRefresh.BlendReplacesType | IA32FamilyCpuPkg/CpuArchDxe/MemoryAttribute.c:263 | other attribute bits are kept; the cache type bits (0x101F with WP) become exactly the new type if and only if no stale WP bit is left |
| PagingRanges.IsAddressValid | IA32FamilyCpuPkg/PiSmmCpuDxeSmm/SmmProfile.c:245-267 | the verdict of the first range that has the address; absent and executable without one |
| PagingRanges.IsAddressSplit | IA32FamilyCpuPkg/PiSmmCpuDxeSmm/SmmProfile.c:276-295 | whether some split range has the address |
| PagingRanges.CollectRanges | IA32FamilyCpuPkg/PiSmmCpuDxeSmm/SmmProfile.c:333-371 | the template and one range for each MMIO descriptor, or nothing without any |
| PagingRanges.MmioRangeOf | IA32FamilyCpuPkg/PiSmmCpuDxeSmm/SmmProfile.c:360-371 | the ranges of the MMIO descriptors, in order: all of it, present, not executable |
| PagingRanges.InitProtectedMemRange | IA32FamilyCpuPkg/PiSmmCpuDxeSmm/SmmProfile.c:302-436 | the ranges, and the split ranges of all of them in the allocated slots, if and only if no more ranges need two slots than need none |
| PagingRanges.SplitIsPartial | IA32FamilyCpuPkg/PiSmmCpuDxeSmm/SmmProfile.c:384-422 | exactly the 2MB pages that a range covers partly are split |
| PagingRanges.UnsplitUniform | IA32FamilyCpuPkg/PiSmmCpuDxeSmm/SmmProfile.c:384-422 | all addresses of a 2MB page left unsplit have the same first range |
| PagingRanges.EnoughSlots | IA32FamilyCpuPkg/PiSmmCpuDxeSmm/SmmProfile.c:353-354 | one slot for each range is enough if and only if no more ranges need two than need none |
| PagingTable.SplitPages | IA32FamilyCpuPkg/PiSmmCpuDxeSmm/SmmProfile.c:482-517 | exactly the 2MB pages in split ranges become tables of 512 identity pages |
| PagingTable.PatchPages | IA32FamilyCpuPkg/PiSmmCpuDxeSmm/SmmProfile.c:523-567 | every entry is patched by the verdict on its own address |
| PagingTable.TwoPassesAreFlat | IA32FamilyCpuPkg/PiSmmCpuDxeSmm/SmmProfile.c:482-567 | for every 4KB page the two passes over mixed pages amount to the flat rule |
| PagingTable.InitPaging | IA32FamilyCpuPkg/PiSmmCpuDxeSmm/SmmProfile.c:443-576 | the flat rule holds of every page of the table, for the flags and the other bits; missing directories stay untouched |
| PagingTable.InitProfileTable | IA32FamilyCpuPkg/PiSmmCpuDxeSmm/SmmProfile.c:302-576 | when the slots suffice, every byte is present exactly if it was and IsAddressValid accepts it, still maps to itself, and is not executable if its first range says so |
| ProfileFaults.Walk | IA32FamilyCpuPkg/PiSmmCpuDxeSmm/SmmProfile.c:1017-1071 | finds the entry that maps the faulting address |
| ProfileFaults.WalkBits | IA32FamilyCpuPkg/PiSmmCpuDxeSmm/SmmProfile.c:1017-1075 | each level takes nine bits of the address, from bit 39, 30, 21 and 12 on, and the table at bits 12 to 51 of the entry before |
| ProfileFaults.ProfileHandler.OnFault | IA32FamilyCpuPkg/PiSmmCpuDxeSmm/SmmProfile.c:1004-1095 | a fault opens the page, with every bit of the new entry fixed, records at most ten entries, and changes no other entry |
| ProfileFaults.ProfileHandler.OnTrap | IA32FamilyCpuPkg/PiSmmCpuDxeSmm/SmmProfile.c:205-235 | the debug exception restores the recorded entries in order |
| ProfileFaults.SmallMaps | IA32FamilyCpuPkg/PiSmmCpuDxeSmm/SmmProfile.c:1089-1093 | an opened 4KB entry allows every access and maps the address to itself |
| ProfileFaults.LargeMaps | IA32FamilyCpuPkg/PiSmmCpuDxeSmm/SmmProfile.c:1055-1060 | an opened 2MB entry allows every access and maps the address to itself |
| ProfileFaults.FaultKeepsInv | IA32FamilyCpuPkg/PiSmmCpuDxeSmm/SmmProfile.c:1044-1060 | no entry is recorded twice, and every recorded value is the one from before the first fault |
| ProfileFaults.TableIsRestoredIffFewFaults | IA32FamilyCpuPkg/PiSmmCpuDxeSmm/SmmProfile.c:222-229 | in every run the table after each debug exception is the original one, if and only if none comes after more than ten faults |
| ProfileFaults.FaultOpensItsPage | IA32FamilyCpuPkg/PiSmmCpuDxeSmm/SmmProfile.c:1052-1093 | the faulting access then succeeds: the walk ends at the same entry, now open |
| StackGuards.EndIs | IA32FamilyCpuPkg/PiSmmCpuDxeSmm/PiSmmCpuDxeSmm.c:981-985 | the end of the stacks, as the source computes it |
| StackGuards.NextStep | IA32FamilyCpuPkg/PiSmmCpuDxeSmm/MpService.c:594-607 | the walk meets each guard page once, and marks exactly the guard pages |
| StackGuards.Boundaries | IA32FamilyCpuPkg/PiSmmCpuDxeSmm/MpService.c:541-552 | all guard pages lie in the windows between the two boundaries |
| StackGuards.PageTables.FillDirectories | IA32FamilyCpuPkg/PiSmmCpuDxeSmm/MpService.c:563-580 | four directories of identity 2MB pages |
| StackGuards.PageTables.AddWindows | IA32FamilyCpuPkg/PiSmmCpuDxeSmm/MpService.c:582-611 | the windows get page tables of their own, one page after the other, as many as were counted |
| StackGuards.PageTables.Gen4GPageTable | IA32FamilyCpuPkg/PiSmmCpuDxeSmm/MpService.c:522-614 | every page below 4GB maps to itself and is present, except exactly the guard pages |
| StackGuards.PageTables.SetCacheability | IA32FamilyCpuPkg/PiSmmCpuDxeSmm/MpService.c:625-682 | frames and presence never change; the page gets its cacheability, and the exact effect of a split on the other pages |
| StackGuards.PageTables.GuardedTable | IA32FamilyCpuPkg/PiSmmCpuDxeSmm/MpService.c:522-682 | after any number of SetCacheability calls every page still maps to itself and is present except exactly the guard pages, and the last page has its cacheability |
| SmramRange.FindLargest | IA32FamilyCpuPkg/PiSmmCpuDxeSmm/PiSmmCpuDxeSmm.c:1169-1188 | the largest eligible region, the last one of that size |
| SmramRange.OnePass | IA32FamilyCpuPkg/PiSmmCpuDxeSmm/PiSmmCpuDxeSmm.c:1194-1204 | one pass of the loop, for any list and any 32-bit base and size |
| SmramRange.QuietPass | IA32FamilyCpuPkg/PiSmmCpuDxeSmm/PiSmmCpuDxeSmm.c:1194-1205 | a pass finds nothing if and only if neither test accepts any region, and then it changes nothing |
| SmramRange.PassGrows | IA32FamilyCpuPkg/PiSmmCpuDxeSmm/PiSmmCpuDxeSmm.c:1194-1204 | a pass keeps the range SMRAM throughout, modulo 4GB; a productive one absorbs a region not yet inside |
| SmramRange.ComponentIsQuietIff | IA32FamilyCpuPkg/PiSmmCpuDxeSmm/PiSmmCpuDxeSmm.c:1196-1203 | at the connected SMRAM the tests accept nothing, if and only if it does not reach up to 4GB with SMRAM at address 0 |
| SmramRange.Coalesce | IA32FamilyCpuPkg/PiSmmCpuDxeSmm/PiSmmCpuDxeSmm.c:1193-1205 | the loop ends with the connected SMRAM around the region, if and only if that does not reach up to 4GB with SMRAM at address 0; else with a range that passes 4GB |
| SmramRange.LoopNeverEnds | IA32FamilyCpuPkg/PiSmmCpuDxeSmm/PiSmmCpuDxeSmm.c:1193-1205 | in the one case left, with everything below 4GB SMRAM, every pass finds something |
| SmramRange.WrapLeavesTheComponent | IA32FamilyCpuPkg/PiSmmCpuDxeSmm/PiSmmCpuDxeSmm.c:1200-1202 | two regions for which the loop leaves the connected SMRAM |
| SmramRange.ComponentIsUnique | IA32FamilyCpuPkg/PiSmmCpuDxeSmm/PiSmmCpuDxeSmm.c:1193-1205 | that range is determined by the region |
| SmramRange.FindSmramInfo | IA32FamilyCpuPkg/PiSmmCpuDxeSmm/PiSmmCpuDxeSmm.c:1129-1221 | the connected SMRAM around the largest eligible region, under the condition of Coalesce, with the IED region on top |
| SmmTiles.TileSize | IA32FamilyCpuPkg/PiSmmCpuDxeSmm/PiSmmCpuDxeSmm.c:932-937 | a power of two that holds all three parts, and the least one |
| SmmTiles.LayOut | IA32FamilyCpuPkg/PiSmmCpuDxeSmm/PiSmmCpuDxeSmm.c:937-965 | the returned addresses span the allocation exactly, one tile apart, each save state at the end of its 64KB; no two save states overlap, no handler overlaps a save state, and under the assertion of line 896 none overlaps a descriptor |
| SmmTiles.HandlersMissSaveStates | IA32FamilyCpuPkg/PiSmmCpuDxeSmm/PiSmmCpuDxeSmm.c:942-956 | no SMI handler overlaps any save state |
| SmmTiles.SaveStatesDisjoint | IA32FamilyCpuPkg/PiSmmCpuDxeSmm/PiSmmCpuDxeSmm.c:954-956 | save states are pairwise disjoint |
| SmmTiles.InsideBuffer | IA32FamilyCpuPkg/PiSmmCpuDxeSmm/PiSmmCpuDxeSmm.c:942-956 | handlers, descriptors and save states all lie inside the allocation |
| SmmTiles.HandlersMissDescriptors | IA32FamilyCpuPkg/PiSmmCpuDxeSmm/PiSmmCpuDxeSmm.c:932-956 | the tile size alone, without the assertion of `MpService.c:896`: some handler overlaps some descriptor if and only if the two do not fit in a tile and there are enough processors |
| SmmTiles.GuardedNeverOverlap | IA32FamilyCpuPkg/PiSmmCpuDxeSmm/MpService.c:892-897 | with that assertion, for any interval up to the tile size, no handler overlaps a descriptor |
| SmmTiles.SourceTile | IA32FamilyCpuPkg/Include/Library/SocketLga775Lib.h:116-121 | with the source's offsets and interval the assertion leaves only tiles of 2KB |
| SmmTiles.SourceNumbers | IA32FamilyCpuPkg/Include/Library/SocketLga775Lib.h:116-121 | those sizes in numbers |
| SmmTiles.SourceSizesNeverOverlap | IA32FamilyCpuPkg/PiSmmCpuDxeSmm/MpService.c:892-897 | so with the source's offsets no handler overlaps a descriptor, whatever the number of processors |
| Dispatch.ApStepPending | IA32FamilyCpuPkg/CpuMpDxe/MpService.c:1279-1353 | a step of an AP keeps the invariant of a pending dispatch |
| Dispatch.Acknowledges | IA32FamilyCpuPkg/CpuMpDxe/MpService.c:917-923 | acknowledging an AP keeps the count of finished and outstanding processors |
| Dispatch.Wakes | IA32FamilyCpuPkg/CpuMpDxe/MpService.c:928-938 | waking the first outstanding AP keeps the single-thread discipline |
| Dispatch.SingleThreadSerialises | IA32FamilyCpuPkg/CpuMpDxe/MpService.c:319-345 | in single-thread mode at most one AP is between being woken and being acknowledged |
| Dispatch.AllAcknowledged | IA32FamilyCpuPkg/CpuMpDxe/MpService.c:942-947 | FinishCount and the list add up to StartCount; they are equal exactly when the list is empty, and then everybody has run once |
| Dispatch.MpServices.RunAps | IA32FamilyCpuPkg/CpuMpDxe/MpService.c:1279-1353 | any number of AP steps keep the invariant, and change nothing about an AP that is waiting |
| Dispatch.MpServices.GetNextWaitingProcessorNumber | IA32FamilyCpuPkg/CpuMpDxe/MpService.c:1163-1178 | the first processor on the list, if there is one |
| Dispatch.MpServices.CheckOneAp | IA32FamilyCpuPkg/CpuMpDxe/MpService.c:901-940 | a processor that has finished is taken off the list, nobody else, and the invariant is kept |
| Dispatch.MpServices.CheckAllAPs | IA32FamilyCpuPkg/CpuMpDxe/MpService.c:885-983 | success means every started AP has run exactly once, in ascending order in single-thread mode; on timeout the failed list is exactly the outstanding APs |
| Dispatch.MpServices.ReportFailures | IA32FamilyCpuPkg/CpuMpDxe/MpService.c:956-980 | the failed list is ascending, ends with the terminator and fills its allocation exactly |
| Dispatch.MpServices.MarkIdleAps | IA32FamilyCpuPkg/CpuMpDxe/MpService.c:292-310 | the list after the check for busy APs, also when it stops early |
| Dispatch.MpServices.StartupAllAPs | IA32FamilyCpuPkg/CpuMpDxe/MpService.c:249-370 | when each status is returned, and that a dispatch begins pending with exactly the idle APs |
| Dispatch.MpServices.WaitForAllAPs | IA32FamilyCpuPkg/CpuMpDxe/MpService.c:380-384 | the polling loop: success means every started AP has run exactly once; a timeout comes at the first poll that finds the timer expired, reports exactly the outstanding APs, and everybody else has run once |
| Dispatch.SecondStartLosesAnAp | IA32FamilyCpuPkg/CpuMpDxe/MpService.c:292-302 | a second start while one is pending drops the first outstanding AP; the count comes out right if and only if exactly one idle AP precedes it |
| Timeouts.Timer.CheckTimeout | IA32FamilyCpuPkg/CpuMpDxe/MpService.c:1114-1149 | adds the true elapsed ticks, modulo one counter cycle, on counters that count up or down |
| Timeouts.Timer.PollAt | IA32FamilyCpuPkg/CpuMpDxe/MpService.c:1114-1149 | polls less than one cycle apart add up to the elapsed time, and each reports whether the total exceeds the timeout |
| Timeouts.ExactIffWithinCycle | IA32FamilyCpuPkg/CpuMpDxe/MpService.c:1136-1143 | one poll is exact if and only if less than a cycle has passed |
| ApicIds.CpuTable.CheckDuplicates | IA32FamilyCpuPkg/CpuMpDxe/X2Apic.c:199-216 | the test for duplicates never disables reassignment |
| ApicIds.NewIdIs | IA32FamilyCpuPkg/CpuMpDxe/X2Apic.c:227-245 | the first entry for the package decides; the package field becomes its new socket ID, the thread and core bits stay |
| ApicIds.CpuTable.ConstructNewApicId | IA32FamilyCpuPkg/CpuMpDxe/X2Apic.c:175-265 | reassignment stays enabled if and only if all new APIC IDs are different; then the three arrays say what the configuration says of each processor |
| ApicIds.CpuTable.SortProcessors | IA32FamilyCpuPkg/CpuMpDxe/X2Apic.c:292-338 | one permutation is applied to the records and, with reassignment, to all parallel arrays; the keys ascend |
| ApicIds.CpuTable.FindBsp | IA32FamilyCpuPkg/CpuMpDxe/X2Apic.c:340-349 | BspNumber is the first record with the caller's APIC ID |
| ApicIds.CpuTable.SortApicId | IA32FamilyCpuPkg/CpuMpDxe/X2Apic.c:275-351 | end to end: sorted, the records permuted, the new IDs with their records and strictly ascending, BspNumber the caller's record; nothing at all without an AP |
| ApicIds.CpuTable.CheckApicId | IA32FamilyCpuPkg/CpuMpDxe/X2Apic.c:395-475 | when it fails and when x2APIC is forced; success with x2APIC off means at most 255 processors with different low bytes |
| ApicIds.AssignPackageBsp | IA32FamilyCpuPkg/CpuMpDxe/X2Apic.c:485-500 | marks the first processor of every run of equal packages: exactly one of each package when the packages ascend |
| ApicIds.OneBspPerPackage | IA32FamilyCpuPkg/CpuMpDxe/DataCollection.c:272-274 | with ascending APIC IDs that is exactly one processor of each package, the one with the least APIC ID |
| PStates.FindStep | IA32FamilyCpuPkg/CpuMpDxe/Eist.c:342-362 | the search ends with the least step that gives at most 16 states |
| PStates.CalculateFvidTable | IA32FamilyCpuPkg/CpuMpDxe/Eist.c:339-459 | every slot is filled; ratios descend in equal steps after a first gap of one to two steps; without underflow or overflow every power below P1 is the formula of the comments up to truncation, powers never increase and never exceed the TDP |
| PStates.PowerMonotone | IA32FamilyCpuPkg/CpuMpDxe/Eist.c:441-457 | the fixed-point power does not decrease with the ratio and never exceeds the TDP |
| PStates.SlopeExactIff | IA32FamilyCpuPkg/CpuMpDxe/Eist.c:447 | the 64-bit subtraction does not underflow if and only if the ratio is at most 176 below P1 |
| PStates.SlopeNear | IA32FamilyCpuPkg/CpuMpDxe/Eist.c:441-449 | without underflow the slope is ((176 - below) / 176)^2 in units of 0.00001, less than 3 too low |
| PStates.PowerNear | IA32FamilyCpuPkg/CpuMpDxe/Eist.c:441-457 | the power is the formula of the comments with the ratio in whole percent: never more, and less by at most 0.00004 of the TDP and one unit |
| PStates.PowerBelowIdeal | IA32FamilyCpuPkg/CpuMpDxe/Eist.c:451-457 | and never more than the formula with the exact ratio |

## Left out

- SmmState.StepRendezvous: as StepBsp. BSP election switched off (and with it the way an AP gives up on the BSP), non-blocking `SmmStartupThisAp`, IDT, CR4, SMM profile and debug agent set-up.
- SmmState.StepBsp: the contract of a step function says only that the state stays well typed; what the steps do is stated by the lemmas about them. SMI IPIs and chipset accesses are not modelled.
- SmmState.StepBarrier: as StepBsp; disabling and re-enabling SMRR around the MTRR accesses is not modelled.
- SmmState.StepStartup: as StepBsp; the SMM core may start any procedure on any processor number, or return, at any time.
- SmmState.StepArrive: as StepBsp.
- SmmState.StepTask: as StepBsp; a procedure is one step, and has no effect but the record of its call.
- SmmState.StepDepart: as StepBsp.
- PagingTable.InitPaging: more than one PML4 entry (the address in lines 494 and 535 ignores the first level); page tables are values in the slots of the directory array, so sharing of one page table between two directory entries is not modelled.
- PagingRanges.InitProtectedMemRange: what happens after the first write past the allocation, and range bounds within 2MB of 2^64.
- ProfileFaults.ProfileHandler.OnFault: the 32-bit page table, faults above 4GB (shared page pool), several processors on one table, the debug-build assertion on the eleventh fault, and profile logging.
- StackGuards.PageTables.Gen4GPageTable: the extra pages for the x64 PML4 and page pool.
- SmramRange.FindSmramInfo: overlapping regions, regions that cross 4GB, sums of base and size above 2^64, and lists that cover everything below 4GB, for which the source does not return (`LoopNeverEnds`).
- SmramRange.Coalesce: likewise.
- Dispatch.MpServices.StartupAllAPs: the checks of the caller and of the procedure, `StartupThisAP`, `EnableDisableAP` and `SwitchBSP` during a dispatch, and events; interference of APs during the check for idle APs, which cannot make an AP idle.
- Dispatch.MpServices.WaitForAllAPs: the unbounded polling loop is followed for a given number of polls.
- Timeouts.Timer.PollAt: counters of 2^63 values or more.
- ApicIds.CpuTable.SortApicId: reading CPUID for the topology; the width of the thread and core bits is a parameter, the same for all processors.
- PStates.CalculateFvidTable: the other processor families, P1 below the lowest ratio, and the truncation of Power to 32 bits on IA32.
- GcdRefresh.RefreshGcdMemoryAttributes: ranges whose base and length add up to more than 2^64, MtrrLib, PCDs, failing GCD services, and the enable bits of the MTRRs, which the source ignores too.
- SwitchBSP, semaphore hooks, AP start-up code and SMI entry are assembly or stack exchange that is not shown.
- SMM profile ring buffer, BTS and PEBS set-up are hardware programming.
- Feature detection and configuration files copy flags.
