# AXI DMA driver stack: a verified model

The repository drives a Xilinx AXI DMA engine from Linux and uses it for AES offload, Ethernet and iSCSI. This project
models the parts of it where the difficulty lies and proves what they are for.

**The BD ring.** A ring of buffer descriptors (BDs) is shared with an engine that runs concurrently. `RingModel` says
what the ring means without addresses or counters: four queues of slots, the BDs, the run state and the engine, with one
step for each operation of the driver and for each BD the engine completes. `RingTheorems`, `RingRuns`, `RingReap`,
`RingRestart`, `RingCreated`, `RingLag` and `RingReplay` prove what holds of every run, and `RingLaws` what each
operation does in counts and words of memory. `RingAddress`, `Descriptor` and `RingRefinement` are the u32 addresses,
the packed words and the redundant heads and counters of the real thing, and the class in `BdRingDriver` updates them in
place as the driver does; every method of it is proved to be one step of the model. `DmaEngine` puts two rings under
reset, pause and resume. The engine follows the next pointers from CDESC, completes BDs in order up to TDESC and is idle
after that until TDESC is written; an error halt of the engine is not part of the model.

**The AES client.** `Scatter`, `SubmitModel` and `AesSubmit` turn a scatter list into a chain of BDs; `ReapModel` and
`AesReap` drain a ring while the engine works. `RequestRefs` is the reference counting of requests across both rings as
a step system (a section under one lock is one step, and so is each access to a callback field), `RequestCallbacks` says
when callbacks run exactly once, `RequestRings` runs it together with the two rings, and `RequestProgress` says that
requests get on. `IrqHandoff` is the handoff from interrupt handlers to the bottom half, and `IrqPackets` reads its
counters off the ring.

**Ethernet transmit.** `SkbOwnership` and `EthTx`: which BD owns which socket buffer, from sending to teardown.

**The AES routines.** `AesSpec` is FIPS 197; `AesWords`, `AesTable` and `AesEncrypt` are the table-driven routines on
32-bit little-endian words, proved equal to it for all keys and blocks of all three key sizes. `AesLaws` says what each
step of the cipher does to a byte, and `AesVectors` works out the example vectors of FIPS 197 with its S-box. For the
routines the S-box is a parameter: they are given a table whose row for b is (S, S, {03}S, {02}S) of S(b).

**iSCSI.** `Crc32c` and `Digest` are the digests over scatter lists (RFC 3720, sections 10.2.3 and 12.1), with its
examples in `DigestVectors`; `Reinstatement` and `IscsiSession` are connection reinstatement (RFC 3720, section 5.3.4).

Some promises turn out not to hold everywhere. Each is stated with the exact condition under which it does:

- a restart can begin at the wrong BD if the saved place lags behind and the ring was requeued all the way round while
  halted (`RingLag.LaggingInEveryRun`, `RingLag.LaggingResetExact`, `RingReplay.RestartCanReplay`);
- the address check of BdRingCreate is wrong for rings of more than 2^32 bytes (`RingAddress.SpanCheckIsExact`);
- a scatter list with an empty segment leaves allocated BDs behind (`SubmitModel.AllHandedOver`,
  `SubmitModel.RunHandedOver`, `SubmitModel.ZeroLengthStrands`);
- a piece that is too long or misaligned for its BD need not make the call fail: the BD keeps its old length or address
  (`SubmitModel.AcceptedExact`, `SubmitModel.DescribesExact`, `SubmitModel.OversizedKeepsLength`);
- an AES callback can get lost if its descriptor is reused inside `aes_free_desc`, in two windows
  (`RequestCallbacks.ExactlyOnceIffLossless`, `RequestCallbacks.FirstWindow`, `RequestCallbacks.SecondWindow`);
- an error interrupt can strand packets whose completion it acknowledges (`IrqHandoff.ErrorExact`,
  `IrqHandoff.ErrorStrands`, `IrqHandoff.StrandedForGood`);
- `digest_data` looks past its list for an empty range right behind a full last page (`Digest.PagesCovered`,
  `Digest.PastTheList`);
- UnAlloc accepts one address below or above the ring as well (`RingRefinement.UnAllocExact`,
  `RingRefinement.UnAllocTakesAlias`);
- the chain of iSCSI reinstatements breaks if a session's own reinstatement ends while a connection in it has a
  successor (`Reinstatement.FinishSessionExact`, `Reinstatement.FinishSessionDangles`, `Reinstatement.SessionDangles`).

`dafny verify dfyconfig.toml` checks the whole project.

## Model

| member | source | states |
|---|---|---|
| RingAddress.SeekAheadIsIndexStep | linux-drv/xaxidma_bdring.c:135-146 | SEEKAHEAD in wrapping u32 arithmetic is index + n modulo the BD count, for every n up to a full turn, also when the sum crosses 2^32 |
| RingAddress.SeekBackIsIndexStep | linux-drv/xaxidma_bdring.c:165-176 | SEEKBACK is index - n modulo the BD count |
| RingAddress.SeeksAreInverse | linux-drv/xaxidma_bdring.c:135-176 | the two seeks undo each other, in both orders |
| RingAddress.NextIsIndexStep | linux-drv/xaxidma_bdring.h:294-318 | mBdRingNext is one index step and mBdRingPrev takes it back |
| RingAddress.NextTimesIsSeekAhead | linux-drv/xaxidma_bdring.h:294-298 | n steps of mBdRingNext end where one SEEKAHEAD by n ends |
| RingAddress.TranslationRoundTrip | linux-drv/xaxidma_bdring.c:110-115 | physical and virtual BD addresses translate back and forth wherever the two regions lie |
| RingAddress.SpanCheckIsExact | linux-drv/xaxidma_bdring.c:388-398 | the u32 test for a ring that spans address 0 is right for every base address if and only if the ring has at most 2^32 bytes |
| Descriptor.SetLength | linux-drv/xaxidma_bd.c:102-117 | the length read back is the length set, SOF and EOF stay, and a zero or oversized length leaves the BD as it was |
| Descriptor.SetCtrl | linux-drv/xaxidma_bd.c:254-265 | SOF and EOF become the given bits and the length field stays, under both length masks |
| Descriptor.SetBufAddr | linux-drv/xaxidma_bd.c:133-155 | only the buffer address can change: to the given address with a realignment engine or if the address is a multiple of the bus width, else not at all |
| Descriptor.EofReads | linux-drv/xaxidma_hw.h:240-253 | a BD ends a packet if and only if bit 26 of its status word (receive) or control word (transmit) is set, whatever the bits above and below are |
| Descriptor.TxSofReads | linux-drv/xaxidma_hw.h:239 | a BD starts a transmitted packet if and only if bit 27 of its control word is set |
| Descriptor.CompleteReads | linux-drv/xaxidma_hw.h:247 | a BD is complete if and only if bit 31 of its status word is set |
| Descriptor.LengthReads | linux-drv/xaxidma_bd.c:102-117 | the length is the low 23 bits of the control word, or the low 16 with several channels |
| Descriptor.StatusReads | linux-drv/xaxidma_hw.h:247-254 | clearing the complete bit leaves the other 31 bits, and the status bits are the upper six |
| RingRuns.GroupsInEveryRun | linux-drv/xaxidma_bdring.c:815-1337 | in every run of operations and engine steps Post, Hw, Pre and Free are four disjoint consecutive arcs in ring order that cover every BD |
| RingRuns.FifoInEveryRun | linux-drv/xaxidma_bdring.c:982-1277 | in every run BDs leave FromHw in exactly the order in which they entered ToHw |
| RingRuns.NotHandedOutTwice | linux-drv/xaxidma_bdring.c:1182-1337 | in every run, between two steps that hand out the same BD there is a Free that gives it back |
| RingRuns.StaysInPost | linux-drv/xaxidma_bdring.c:1302-1337 | a BD handed out stays in Post under every step other than a Free that names it |
| RingRuns.ToHwAllOrNothing | linux-drv/xaxidma_bdring.c:982-1108 | ToHw of a nonempty set succeeds if and only if the set starts at PreHead, fits, has no zero length and (transmit) has SOF first and EOF last; then every BD in it is incomplete; on failure nothing moves and only status words of Pre BDs may differ |
| RingRuns.LinksInEveryRun | linux-drv/xaxidma_bdring.c:405-535 | no operation, Clone included, ever changes a next pointer or hardware-info word |
| RingCreated.EngineInEveryRun | linux-drv/xaxidma_bdring.c:557-609 | in every run from creation on, with any operations in any order and each reset saving the current descriptor as the driver does, the engine completes BDs in queue order, goes on exactly where it stopped and stops inside the Hw group; a reset before the first start counts as one that saves slot 0, though the driver would save a CDESC nobody has written |
| RingCreated.TailPublishedInEveryRun | linux-drv/xaxidma_bdring.c:1076-1105 | in every such run, while RunState is NOT_HALTED and some Hw BD is incomplete, the engine is working and TDESC names the last Hw BD |
| RingCreated.RestartInEveryRun | linux-drv/xaxidma_bdring.c:201-289 | in every such run a start from a halt fails if and only if every BD of the ring is complete, and then none is to do; else the engine goes on at the place where it has to and is given exactly the BDs to do |
| RingCreated.SearchFromFrontier | linux-drv/xaxidma_bdring.c:229-262 | counted from the place where the engine has to go on the incomplete BDs come first, so a search from there ends there or nowhere |
| RingRuns.EngineIfReady | linux-drv/xaxidma_bdring.c:557-609 | for resets with any snapshot: the same of the engine in every run whose starts from a halt fail or find the restart point in place |
| RingRuns.PausedEngineSeesNothingNew | linux-drv/xaxidma.c:477-525 | from a pause until the next start, in every run, what the engine completes plus what it is still going to process is a prefix of what had been published before: BDs queued after the pause stay invisible |
| RingReap.ReapableIsLargest | linux-drv/xaxidma_bdring.c:1204-1263 | the count FromHw returns is the largest one within the limit for which all BDs are complete and the last ends a packet |
| RingReap.ReapableGrows | linux-drv/xaxidma_bdring.c:1213-1253 | if the engine completes BDs during the scan the answer lies between those for the states before and after |
| RingReap.LastEndsPacket | linux-drv/xaxidma_bdring.c:1225-1247 | the last BD FromHw hands back has bit 26 set in its status word (receive) or control word (transmit) |
| RingReap.HalfPacketStays | linux-drv/xaxidma_bdring.c:1225-1263 | a receive BD with the start-of-packet bit and without the end-of-packet bit is never the last one handed back |
| RingRestart.StartResumesAtFirstIncomplete | linux-drv/xaxidma_bdring.c:217-289 | a start from a halt puts CDESC at the first incomplete Hw BD if and only if every BD between BdaRestart and it is complete |
| RingRestart.RestartReleasesExactlyTodo | linux-drv/xaxidma_bdring.c:557-650 | after such a start exactly the incomplete Hw BDs are released to the engine: none is lost, none replayed |
| RingRestart.SearchFailsIffAllComplete | linux-drv/xaxidma_bdring.c:229-262 | the search for a current descriptor gives up if and only if every BD of the ring is complete |
| RingRestart.QueueingKeepsRestart | linux-drv/xaxidma_bdring.c:982-1108 | queueing BDs while halted keeps the restart right if and only if the BDs to do do not reach around the ring to the restart point |
| RingLag.LaggingInEveryRun | linux-drv/xaxidma_bdring.c:201-289 | in every run from creation on in which each reset saves the current descriptor or the BD before it, every start from a halt is right if and only if each finds the restart point in place or some BD of the ring complete, and then the engine is where it should be |
| RingLag.LaggingResetExact | linux-drv/xaxidma_bdring.c:217-289 | after a reset that saved the BD completed last, and whatever is done while halted short of a Clone or a set refused midway, the next start is right if and only if the BDs to do do not fill the whole ring |
| RingReplay.RestartCanReplay | linux-drv/xaxidma_bdring.c:201-289 | a run of a new two-BD ring whose reset saves the BD completed last: after both BDs are queued again the start puts CDESC at that BD, though the other is the first to do |
| RingRestart.RestartAfterReset | linux-drv/xaxidma.c:260-305 | from every state in order: after a reset that saves the place of a working engine, and any operations while it is halted, the next start resumes at the first BD to do and releases exactly those to do |
| RingTheorems.RestartExact | linux-drv/xaxidma_bdring.c:229-285 | the search ends at the place where the engine has to go on if and only if that BD is incomplete and all BDs from BdaRestart up to it are complete |
| RingRestart.StartTwice | linux-drv/xaxidma.c:543-605 | starting a started ring again succeeds and changes nothing |
| RingLaws.AllocLaw | linux-drv/xaxidma_bdring.c:815-840 | Alloc succeeds if and only if 0 < n <= FreeCnt; then ring order is kept and the boundary between Pre and Free moves by n, else nothing changes |
| RingLaws.UnAllocLaw | linux-drv/xaxidma_bdring.c:906-947 | the boundary moves back by n if the set is the end of Pre, else nothing changes |
| RingLaws.UnAllocUndoesAlloc | linux-drv/xaxidma_bdring.c:815-947 | UnAlloc of the set just allocated succeeds and restores the ring |
| RingLaws.ToHwStatusLaw | linux-drv/xaxidma_bdring.c:982-1062 | the status of ToHw for every argument, with the condition on the set written out over the control words: nonzero low bits everywhere and (transmit) bit 27 in the first and bit 26 in the last |
| RingLaws.ToHwLaw | linux-drv/xaxidma_bdring.c:1066-1105 | a set that is taken moves the boundary between Hw and Pre by n and TDESC of a started channel names its last BD; a refused one moves nothing |
| RingLaws.SentWords | linux-drv/xaxidma_bdring.c:1005-1070 | of a set that is taken each status word loses bit 31, the first one its low 26 bits as well, and no other word of any BD changes |
| RingLaws.FromHwLaw | linux-drv/xaxidma_bdring.c:1255-1277 | the boundary between Post and Hw moves by the count returned, and no BD is written |
| RingLaws.FreeLaw | linux-drv/xaxidma_bdring.c:1302-1337 | Free succeeds if and only if n is 0 or the set is the head of Post; then ring order begins n BDs further on, else nothing changes |
| RingLaws.ThereAndBack | linux-drv/xaxidma_bdring.c:815-1337 | in a started ring with every BD free, a set that is allocated, sent and completed comes back whole: all BDs are free again in an order that begins behind the set, its BDs carry the status words the engine wrote, and nothing else has changed in memory |
| RingLaws.TurnIsRun | linux-drv/xaxidma_bdring.c:815-1337 | that round trip is a run: Alloc, ToHw, one engine step for each BD, FromHw, Free |
| RingLaws.StartStatusLaw | linux-drv/xaxidma_bdring.c:201-289 | a start succeeds if and only if the engine is up or comes up and, if it was halted, some BD is incomplete |
| RingLaws.StartLaw | linux-drv/xaxidma_bdring.c:557-609 | then RunState says running and, unless the last Hw BD is complete, the engine works with TDESC at that BD; else the run state is as it was |
| RingLaws.StopLaw | linux-drv/xaxidma.c:260-525 | a pause changes RunState alone; a reset also halts the engine and saves the place to restart from |
| RingLaws.FillLaw | linux-drv/xaxidma_bd.c:102-265 | the application writes the words of a BD in Pre or Post, and of no other BD |
| RingLaws.CloneLaw | linux-drv/xaxidma_bdring.c:482-535 | every BD of an idle ring gets the words of the template with bit 31 of the status cleared, except its link and hardware words |
| RingLaws.CreateTakes | linux-drv/xaxidma_bdring.c:331-398 | Create succeeds if and only if the count is positive, the alignment a power of two of at least 64, both addresses are aligned and the ring ends at or below 2^32 |
| BdRingDriver.BdRing.constructor | linux-drv/xaxidma.c:158-178 | a ring after initialisation: no BDs, halted, not running |
| BdRingDriver.BdRing.Create | linux-drv/xaxidma_bdring.c:331-456 | status for every argument; on success the BDs lie from the given address on, as far apart as the alignment, all are free, clear, linked into one cycle in slot order and carry the hardware words, and the ring can be started |
| BdRingDriver.BdRing.Clone | linux-drv/xaxidma_bdring.c:482-535 | status, and every BD gets the template but keeps its own link and hardware words, with the complete bit cleared |
| BdRingDriver.BdRing.Alloc | linux-drv/xaxidma_bdring.c:815-840 | status, counters and new state for every count: the first BDs of Free become the last of Pre |
| BdRingDriver.BdRing.UnAlloc | linux-drv/xaxidma_bdring.c:906-947 | status for every count and address, and new state: the last BDs of Pre go back to the front of Free if SEEKAHEAD leads from the set to FreeHead, which for a set in the ring means that it is the end of Pre; else nothing changes |
| RingAddress.SeekAheadExact | linux-drv/xaxidma_bdring.c:135-146 | SEEKAHEAD by n reaches a BD from exactly two u32 addresses: n BDs before it, and the length of the ring above that; one of the two is no BD and lies below or above the ring |
| RingRefinement.UnAllocExact | linux-drv/xaxidma_bdring.c:928-940 | in every valid state UnAlloc takes exactly the set that is the end of Pre and its alias a ring's length away |
| RingRefinement.UnAllocTakesAlias | linux-drv/xaxidma_bdring.c:928-946 | after one BD of a new ring has been allocated, the address right behind the ring passes for it |
| BdRingDriver.BdRing.ToHw | linux-drv/xaxidma_bdring.c:982-1108 | the update in place over u32 heads, BD words and registers is the ToHw step of the model, with its status for every argument |
| BdRingDriver.BdRing.FromHw | linux-drv/xaxidma_bdring.c:1182-1277 | with the engine completing BDs before every read of the scan, the result is that of some moment during the scan; the test for HwTail never cuts it short; the counters move by the count returned, and the last BD handed back has the end-of-packet bit |
| BdRingDriver.BdRing.Free | linux-drv/xaxidma_bdring.c:1302-1337 | status and new state: the first BDs of Post become the last of Free if the set starts at PostHead, else nothing changes |
| BdRingDriver.BdRing.Check | linux-drv/xaxidma_bdring.c:1365-1508 | for any contents of the ring: success if and only if heads and counters fit and the BDs are linked into one physical cycle in slot order |
| BdRingDriver.BdRing.ValidPassesCheck | linux-drv/xaxidma_bdring.c:1388-1508 | every state the operations lead to passes Check when not running |
| BdRingDriver.BdRing.UpdateCDesc | linux-drv/xaxidma_bdring.c:201-289 | CDESC is moved to the first incomplete BD at or after BdaRestart in fewer than AllCnt steps, or the error is returned |
| BdRingDriver.BdRing.FindIncomplete | linux-drv/xaxidma_bdring.c:230-285 | every BD passed is complete, and the one found is not unless the search went all the way round |
| BdRingDriver.BdRing.StartHw | linux-drv/xaxidma_bdring.c:557-609 | RunState and TDESC after the run bit is set, for an engine that does or does not come up |
| BdRingDriver.BdRing.Start | linux-drv/xaxidma_bdring.c:631-650 | status and new state of a start, from every state |
| BdRingDriver.BdRing.Pause | linux-drv/xaxidma.c:477-525 | only RunState changes |
| BdRingDriver.BdRing.Reset | linux-drv/xaxidma_bdring.h:238-258 | the current descriptor is saved as BdaRestart and the ring is halted |
| BdRingDriver.BdRing.HwStep | linux-drv/xaxidma.h:108-153 | the engine writes the status of the BD at CDESC, follows its next pointer and goes idle after TDESC |
| RingRefinement.TailIndex | linux-drv/xaxidma_bdring.c:1076-1082 | in every valid state with HwCnt above 0, HwTail is the last BD of the Hw group |
| RingRefinement.IntactShape | linux-drv/xaxidma_bdring.c:815-1337 | in every valid state the u32 heads and counters stand for four consecutive arcs that cover the ring |
| DmaEngine.AxiDma.constructor | linux-drv/xaxidma.c:128-238 | two halted rings without BDs, initialised if and only if the reset finished in time |
| DmaEngine.AxiDma.Reset | linux-drv/xaxidma.c:260-305 | both channels are reset and their places saved |
| DmaEngine.AxiDma.Pause | linux-drv/xaxidma.c:477-525 | RunState of each channel present becomes HALTED and nothing else changes |
| DmaEngine.AxiDma.Started | linux-drv/xaxidma.c:622-658 | whether every channel present has left the halt |
| DmaEngine.AxiDma.Start | linux-drv/xaxidma.c:380-455 | which channels are started, and when that succeeds; then every channel present runs; the uninitialised driver is refused |
| DmaEngine.AxiDma.Resume | linux-drv/xaxidma.c:543-605 | succeeds if and only if every channel present can be started, and then each is as after exactly one start; what is left of both channels when either fails |
| Scatter.PiecesMemory | linux-drv/aesdma.c:219-261 | the pieces of a scatter list describe exactly its first min(sz, total) bytes, in order |
| Scatter.CountSegs | linux-drv/aesdma.c:115-128 | the number of segments counted is the number of pieces, for every list and size |
| Scatter.DmaBuf.constructor | linux-drv/aesdma.c:130-153 | the copied prefix of the list has the same pieces as the whole list |
| Scatter.DmaBuf.First | linux-drv/aesdma.c:219-240 | the first piece |
| Scatter.DmaBuf.Next | linux-drv/aesdma.c:242-261 | the next piece, or none |
| SubmitModel.SubmitTakes | linux-drv/aesdma.c:406-451 | pieces that suit their BDs are taken: the BDs move from Free to Hw, hold the pieces in order with SOF on the first and EOF on the last alone, are incomplete and carry the request; Pre is empty again and no other BD changes |
| SubmitModel.SubmitDescribes | linux-drv/aesdma.c:115-153 | for positive segments and sz > 0 the BDs submitted describe exactly the first min(sz, total) bytes of the list |
| SubmitModel.AcceptedExact | linux-drv/aesdma.c:427-450 | the call succeeds if and only if every BD of the set has a length afterwards, be it one left from an earlier transfer |
| SubmitModel.DescribesExact | linux-drv/aesdma.c:432-435 | then the BDs describe the pieces if and only if each BD takes address and length of its piece or already held the one it refused |
| SubmitModel.OversizedKeepsLength | linux-drv/xaxidma_bd.c:102-117 | an oversized piece for a BD that still has length 64: the call succeeds, and the BD describes 64 bytes |
| SubmitModel.AllHandedOver | linux-drv/aesdma.c:427-450 | for calls that succeed: as many BDs are committed as were allocated if and only if no piece after the first has length 0 or less; otherwise the rest stay in Pre |
| SubmitModel.RunHandedOver | linux-drv/aesdma.c:426-450 | if the pieces up to the first without a positive length suit their BDs, the call succeeds, those are committed and the BDs of all other pieces stay in Pre |
| SubmitModel.ZeroLengthStrands | linux-drv/aesdma.c:242-261 | on every ring a list with lengths 4, 0, 4 succeeds and leaves two BDs in Pre |
| SubmitModel.SubmitKeeps | linux-drv/aesdma.c:417-450 | submitting keeps everything that holds of the ring and its engine in every run |
| AesSubmit.DescToHw | linux-drv/aesdma.c:406-451 | the loop over cursor and BDs does exactly that submission, and takes one reference for each BD |
| AesReap.ReapOnce | linux-drv/aesdma.c:838-855 | one round hands back whole packets, tells their owners in queue order, clears the ids and frees the BDs without error, whatever the engine does meanwhile |
| AesReap.Drain | linux-drv/aesdma.c:836-856 | the drain ends (the size of Hw decreases), BdRingFree never fails, each BD handed back is told exactly once in queue order, and nothing can be reaped at the end |
| ReapModel.NoPacketLeft | linux-drv/aesdma.c:838-856 | when nothing can be reaped no packet is complete |
| RequestRefs.CountsInEveryRun | linux-drv/aesdma.c:406-490 | in every interleaving the reference count is one for an unfinished submission plus the BDs on both rings not yet reaped, and no put meets a free descriptor |
| RequestCallbacks.ExactlyOnceIffLossless | linux-drv/aesdma.c:374-404 | in every interleaving that comes to an end every callback has run exactly once if and only if no submission cleared a descriptor whose last release had not read its callback yet and no release cleared a field that another request had stored in by then |
| RequestCallbacks.CallbackExactlyOnce | linux-drv/aesdma.c:374-404 | in every interleaving without such a step, at any time, a callback has run once if its request is released and read, and not before |
| RequestCallbacks.LateTakesExactlyOnce | linux-drv/aesdma.c:324-349 | no such step happens if descriptors are taken only when no context is inside aes_free_desc with them |
| RequestCallbacks.FirstWindow | linux-drv/aesdma.c:393-401 | taken before the callback is read: a run in which the first request's callback never runs |
| RequestCallbacks.SecondWindow | linux-drv/aesdma.c:400-403 | taken after it has run and before the field is cleared: a run in which the second request's callback never runs |
| RequestCallbacks.HarmlessTake | linux-drv/aesdma.c:400-403 | taken in the same window without a loss |
| RequestCallbacks.CallbackRunsEarly | linux-drv/aesdma.c:330-349 | a run in which a callback runs before the BDs of its request are queued |
| RequestRefs.ReleaseLast | linux-drv/aesdma.c:801-813 | the step that releases a request leaves no BD of it on either ring, with its submission finished |
| RequestRings.SubmitQueues | linux-drv/aesdma.c:468-481 | a submission adds the request to the ring's queue once for each BD |
| RequestRings.DrainDequeues | linux-drv/aesdma.c:836-856 | a drain takes the requests it tells off the front of the queue |
| RequestRings.CountsOnTheRings | linux-drv/aesdma.c:453-490 | in every run of both rings from creation on, together with all submissions and releases, the reference count is one for an unfinished submission plus the BDs queued on the rings or taken off and not told yet; no such BD names a released descriptor |
| RequestRings.CallbacksOnTheRings | linux-drv/aesdma.c:815-910 | in every such run that comes to an end every callback has run exactly once if and only if no step lost one |
| RequestProgress.RequestQueued | linux-drv/aesdma.c:453-490 | on two rings just opened, a request whose buffers can be sent ends up queued on both: callback stored, one reference for each BD, none for the submission |
| RequestProgress.SendQueues | linux-drv/aesdma.c:406-451 | in every state of a run a buffer that can be sent is queued behind the others, with one reference more for each BD |
| RequestProgress.EngineCompletes | linux-drv/aesdma.c:838-856 | a started engine with something to do completes one BD more, and no request is told by that |
| RequestProgress.FetchTakes | linux-drv/aesdma.c:838-856 | a fetch takes whole packets off the front and leaves no complete one behind |
| RequestProgress.TellPuts | linux-drv/aesdma.c:801-813 | telling the request at the front takes one of its references, and releases it with the last one |
| RequestProgress.BackIsReleased | linux-drv/aesdma.c:374-404 | in every interleaving a submitted request of which no BD is left on either ring has been released |
| IrqHandoff.NothingStranded | linux-drv/aesdma.c:815-861 | in every interleaving without error interrupts an acknowledged packet is reaped, or a handler is about to queue its device, or the device is on the list, once, or being drained; while the list is not empty the bottom half runs or is scheduled; interrupts are disabled only for a device whose drain will enable them |
| IrqHandoff.ListedIsServed | linux-drv/aesdma.c:815-861 | from every state of a run, with a device at position k of the list: when the bottom half has finished what it is at and drained k + 1 devices, all packets of the device are reaped and its interrupts enabled |
| IrqHandoff.AckedIsServed | linux-drv/aesdma.c:815-861 | from every state of a run there are steps of handler and bottom half after which all acknowledged packets of a device are reaped |
| IrqHandoff.EnqueueQueues | linux-drv/aesdma.c:932-946 | after an event the device is on the list; if it was not before, its interrupts are disabled and the bottom half is scheduled |
| IrqHandoff.ErrorExact | linux-drv/aesdma.c:920-930 | a handler that acknowledges an event together with an error strands nothing if and only if all acknowledged packets are reaped, or the device is on the list or being drained, or another handler is about to queue it |
| IrqHandoff.ErrorStrands | linux-drv/aesdma.c:914-930 | a run in which the first packet of a device is stranded |
| IrqHandoff.StrandedForGood | linux-drv/aesdma.c:914-949 | stranded packets stay unreaped, in every run, until the device raises another event |
| IrqPackets.EngineCompletes | linux-drv/xaxidma_bdring.c:1213-1253 | the packets completed and not reaped are the completed BDs of Hw that end a packet: one more when the engine completes such a BD |
| IrqPackets.LastScanExact | linux-drv/aesdma.c:838-858 | the scan that ends a drain finds nothing if and only if no completed packet is left |
| IrqPackets.ScanReapsAll | linux-drv/aesdma.c:838-855 | a scan of the whole ring hands back all completed packets |
| IrqPackets.ScanIsReap | linux-drv/aesdma.c:838-855 | a scan of the ring is the Reap step of the handoff: the counters read off the ring before and after are those of the step |
| IrqPackets.EmptyScanIsLast | linux-drv/aesdma.c:838-858 | the drain loop is left if and only if a scan of the whole ring hands back nothing |
| IrqPackets.EngineIsComplete | linux-drv/xaxidma_bdring.c:1213-1253 | a BD completed that ends a packet is its Complete step, and any other leaves the counters alone |
| EthTx.Send | linux-drv/ethdma.c:821-955 | dropped, put aside, sent or rejected, for every packet; the ring is touched only in the last two cases and then as by one submission whose header BD alone carries the socket buffer |
| EthTx.SendHandler | linux-drv/ethdma.c:487-532 | exactly the buffers of the packets taken off the ring are freed, in order; BdRingFree never fails and nothing is left to reap |
| EthTx.Teardown | linux-drv/ethdma.c:1155-1169 | the buffers freed are exactly those still owned by the ring, each once |
| SkbOwnership.ReapOwns | linux-drv/ethdma.c:498-522 | what is reaped is whole packets all of whose header and fragment BDs are complete, and just their buffers are freed |
| SkbOwnership.SkbsInEveryRun | linux-drv/ethdma.c:863-938 | in every run from the creation of the transmit ring on, the buffers sent are those freed followed by those named by BDs of the Hw group, in order; no other BD names a buffer |
| SkbOwnership.SkbsFrom | linux-drv/ethdma.c:498-522 | the same from every state in which the ring owns the packets it should |
| SkbOwnership.TeardownFreesRest | linux-drv/ethdma.c:1121-1169 | looking at all BDs in memory order finds each remaining buffer exactly as often as ring order does |
| SkbOwnership.SendSends | linux-drv/ethdma.c:863-938 | in every state of a run a packet that can be sent is queued last, and its buffer is the last one the BDs name |
| SkbOwnership.ReapFreesDone | linux-drv/ethdma.c:498-522 | the bottom half frees the buffers of exactly the packets that are complete: all BDs of those are done, and not all of the next one |
| SkbOwnership.AllFreed | linux-drv/ethdma.c:487-532 | once a started engine has completed the BDs it still had to do, the bottom half has freed every buffer sent |
| AesEncrypt.Encrypt128 | tb/dma/aes.c:60-114 | for every block and key the result is the FIPS 197 cipher (section 5.1) under its key expansion (section 5.2) |
| AesEncrypt.Encrypt128NoBranch | tb/dma/aes.c:116-176 | the same result from the variant with the last round unrolled |
| AesEncrypt.Encrypt192 | tb/dma/aes.c:178-301 | the same for 192-bit keys, with the jump into the loop |
| AesEncrypt.Encrypt256 | tb/dma/aes.c:303-386 | the same for 256-bit keys, with the jump into the loop |
| AesTable.TableRound | tb/dma/aes.c:87-112 | four lookups per column, rotated or masked, are AddRoundKey after MixColumns (except in the last round), ShiftRows and SubBytes |
| AesTable.LastRound | tb/dma/aes.c:163-175 | the unrolled last round is ShiftRows, SubBytes and AddRoundKey |
| AesTable.SubBytesOf | tb/dma/aes.c:26-32 | the first byte of each row is the S-box |
| AesWords.NextRconIsXtime | tb/dma/aes.c:78-81 | the signed shift and fold of the round constant is multiplication by {02} |
| AesLaws.ShiftRowsLaw | tb/dma/aes.c:87-112 | row r, column c after ShiftRows is row r, column (c + r) mod 4 before |
| AesLaws.MixColumnLaw | tb/dma/aes.c:87-112 | MixColumns multiplies each column by {03}x^3 + {01}x^2 + {01}x + {02} modulo x^4 + 1 |
| AesLaws.XtimeLaw | tb/dma/aes.c:78-81 | Xtime and Mul3 are multiplication by x and x + 1 modulo x^8 + x^4 + x^3 + x + 1 |
| AesLaws.RoundLaw | tb/dma/aes.c:87-112 | a whole round, byte by byte |
| AesLaws.RotWordLaw | tb/dma/aes.c:74-77 | byte r after RotWord is byte (r + 1) mod 4 before |
| AesLaws.RoundExample | tb/dma/aes.c:87-112 | the four steps of round 1 of FIPS 197, appendix B |
| AesVectors.Vector128 | tb/dma/aes.c:60-114 | with the S-box of FIPS 197 the cipher gives the ciphertext of appendix C.1 |
| AesVectors.Vector192 | tb/dma/aes.c:178-301 | that of appendix C.2 |
| AesVectors.Vector256 | tb/dma/aes.c:303-386 | that of appendix C.3 |
| Crc32c.CrcConcat | cg/iscsi-scst/kernel/digest.c:75-83 | the checksum of bytes in two pieces is that of the bytes in a row |
| Crc32c.BurstDetected | cg/iscsi-scst/kernel/digest.c:61-87 | every change confined to four consecutive bytes changes the checksum |
| Digest.Evaluate | cg/iscsi-scst/kernel/digest.c:61-87 | the digest of the first n bytes of any list is the inverted CRC32C of those bytes and the padding to whole words, however the bytes are split into entries |
| Digest.DigestData | cg/iscsi-scst/kernel/digest.c:106-132 | on a page-shaped list the result is the digest of bytes [offset, offset + size), and the list is restored |
| Digest.DigestHeader | cg/iscsi-scst/kernel/digest.c:89-104 | the digest of the basic header and the additional header rounded up to whole words, without padding |
| Digest.PagesCovered | cg/iscsi-scst/kernel/digest.c:114-122 | for every range of bytes inside the list the page count check passes; the entry the range starts in is past the list if and only if the range starts right behind a full last page, and then it is empty |
| Digest.PastTheList | cg/iscsi-scst/kernel/digest.c:122-126 | a one-page list and an empty range that passes the check and starts past the list |
| Digest.CorruptionDetected | cg/iscsi-scst/kernel/digest.c:205-214 | data that differs from the data digested within four consecutive bytes has another digest |
| DigestVectors.Residue | cg/iscsi-scst/kernel/digest.c:61-87 | data, padding and digest together have the residue 0xB798B438, for all data |
| DigestVectors.ZeroExample | cg/iscsi-scst/kernel/digest.c:61-87 | the digest of 32 zero bytes is 0x8A9136AA (RFC 3720, appendix B.4) |
| DigestVectors.IncrementingExample | cg/iscsi-scst/kernel/digest.c:61-87 | that of the bytes 0 to 31 is 0x46DD794E |
| IscsiSession.ConnList.Lookup | cg/iscsi-scst/kernel/conn.c:338-352 | the latest connection with the cid, or none |
| IscsiSession.ConnList.Add | cg/iscsi-scst/kernel/conn.c:951-983 | result and new list for every session state |
| IscsiSession.ConnList.Finish | cg/iscsi-scst/kernel/nthread.c:355-359 | a successor that is marked as reinstating, as the source demands, is released together with the pointer to it: the pointer of the connection becomes null and the connection it named no longer waits, and no other field of any connection changes |
| IscsiSession.ConnList.FinishSession | cg/iscsi-scst/kernel/session.c:126-142 | for a session that is reinstating, as the source demands: every connection is released and no pointer is cleared |
| IscsiSession.ConnList.Free | cg/iscsi-scst/kernel/conn.c:793-844 | the connection leaves the list and the pointer of its predecessor is cleared |
| Reinstatement.LatestIsLast | cg/iscsi-scst/kernel/conn.c:957-974 | the connection that gets a successor is the last of the list and had none: no live pointer is overwritten |
| Reinstatement.FinishReleases | cg/iscsi-scst/kernel/nthread.c:355-359 | in every state of a run the end of a connection clears its successor pointer and releases the successor, field by field |
| Reinstatement.FinishedInEveryRun | cg/iscsi-scst/kernel/conn.c:793-844 | in every run in which the session's own reinstatement ends only while no connection has a successor: a connection that has been shut down and then finished may be freed from then on |
| Reinstatement.AddReinstates | cg/iscsi-scst/kernel/conn.c:951-983 | a login with the cid of a live connection appends a waiting connection, named by the old one, which is closing |
| Reinstatement.AddFirst | cg/iscsi-scst/kernel/conn.c:951-983 | the first login of a session makes its only connection |
| Reinstatement.AddRefused | cg/iscsi-scst/kernel/conn.c:957-974 | any other login is refused |
| Reinstatement.FreeRemoves | cg/iscsi-scst/kernel/conn.c:793-844 | a freed connection leaves the list, no pointer names it, and nothing else changes |
| Reinstatement.FinishSessionReleases | cg/iscsi-scst/kernel/session.c:126-142 | when the session's own reinstatement ends no connection of it waits |
| Reinstatement.OnlyPredecessor | cg/iscsi-scst/kernel/conn.c:816-826 | no connection has two predecessors |
| Reinstatement.InvInEveryRun | cg/iscsi-scst/kernel/conn.c:793-983 | in every run one cid per session, each successor is the next connection and waits, all but the last are closing, and a connection waits only for one that names it |
| Reinstatement.SuccessorsInEveryRun | cg/iscsi-scst/kernel/conn.c:819-828 | in every run a successor pointer names exactly one connection, a later listed one that is reinstating, and nobody else names it |
| Reinstatement.FinishSessionExact | cg/iscsi-scst/kernel/session.c:136-139 | ending the session's own reinstatement keeps the chain if and only if no connection in it has a successor |
| Reinstatement.FinishSessionDangles | cg/iscsi-scst/kernel/session.c:126-142 | otherwise freeing the successor leaves its predecessor with a pointer to nothing, in every such state |
| Reinstatement.SessionDangles | cg/iscsi-scst/kernel/session.c:126-142 | a run from a new session that leads there |

## Left out

- Error halts of the engine: the model has no step in which the hardware stops by itself, and so nothing about recovery from one.
- Clearing of CDESC by a reset: the register keeps its value, and a reset requires it to hold the address of some BD of the ring, as the driver assumes; the model's engine moves CDESC on with each BD it completes, and the statements with BdaRestart further behind cover an engine that does so later.
- RX channels with RingIndex above 0 and simple (non scatter-gather) mode: they change register offsets or bypass the ring.
- Interrupt coalescing settings, cache maintenance and barriers, register dumps.
- BdRingDriver.BdRing.Create: the precondition asks for a ring of less than 2^32 bytes (`RingAddress.SpanCheckIsExact` says why) and for an engine that is halted, as it is after initialisation.
- BdRingDriver.BdRing.FromHw: the precondition asks that BDs were completed in order, which holds in every run from creation on.
- BdRingDriver.BdRing.StartHw: the precondition asks that CDESC of a halted engine holds the address of a BD, which UpdateCDesc has put there in BdRingStart, its only caller.
- BdRingDriver.BdRing.Start: the precondition excludes an engine that has halted by itself.
- BdRingDriver.BdRing.Reset: the precondition asks that CDESC holds the address of a BD, as it does once the ring has been started.
- Descriptor.SetBufAddr: the bus width in the hardware word is a power of two (the mask test is written with `%`), and addresses are 32 bits wide.
- RingRestart.RestartAfterReset: speaks of starts with a BD to do; `RingCreated.RestartInEveryRun` covers the others for rings from creation on.
- RingRuns.EngineIfReady: assumes of each start what `RingLag.LaggingInEveryRun` shows to be necessary; snapshots more than one BD behind have the step lemma `RingRestart.QueueingKeepsRestart` alone.
- DmaEngine.AxiDma.Reset: the precondition asks that CDESC of both channels holds the address of a BD; a channel that is not present is left alone, while the driver still reads its register.
- AesSubmit.DescToHw: a buffer given by one address instead of a list is a list with one entry; DMA mapping and unmapping are not modelled.
- Submission of a request whose receive half is accepted and whose transmit half is rejected: the driver codes no recovery.
- RequestCallbacks.ExactlyOnceIffLossless: testing the callback field and calling what it holds are one step, and every request has a callback. The request list, its timer and the timeout dump are left out.
- IrqHandoff.NothingStranded: excludes error interrupts, which strand packets as `IrqHandoff.ErrorExact` states; liveness (that a scheduled bottom half runs) is the kernel's.
- EthTx.Send: what follows a rejected handover (freeing the buffer, clearing the id, resetting the engine), checksum words and statistics are left out; `SkbOwnership` covers packets that are accepted.
- The deferred packet, queue wake-up, NAPI polling and the receive side of the Ethernet driver.
- The 256 rows of the lookup table in `tb/dma/sbox.h`: that they are made from the S-box is a precondition of the AES routines, and the S-box itself is `AesVectors.Fips`. Decryption has no counterpart in the source.
- Undefined C behaviour in the round-constant shift: a signed `char` and arithmetic right shift are assumed.
- Digest.Evaluate: the debug option that simulates digest failures and builds without CRC32C are left out; the checksum routine itself is the kernel's and is modelled by its definition.
- Digest.DigestData: an empty range right behind a full last page makes the code read one entry past the list, so the precondition asks that the page of the offset exists.
- IscsiSession.ConnList.Add: the reasons why setting up a connection can fail are one parameter; sockets, threads and sysfs entries are left out.
- IscsiSession.ConnList.Free: the command lists and reference count that must be empty, and freeing the session with its last connection, are left out.
- PCI probe and remove, the rest of the iSCSI target, test benches and the copies of the driver for simulation: input and output, plumbing, or the same code again.
