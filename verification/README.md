# Verified model of the stack gate, the YMODEM transfer and their neighbours

This project models, in Dafny, the parts of the repository whose correctness other parts
rely on, and proves what they promise over all inputs and all runs.

**The stack gate** (`cmake/thumb_stack_analysis.py`). The build refuses a linked Thumb image
unless an analysis of every function body, and a walk over the call graph, gives a number
that bounds its stack. The model takes decoded instructions and follows the analysis step by
step: the pass over IT blocks, the frame, the flow and its refusals, Tarjan's algorithm and
the rule about changes of sp in loops, the fixpoint over sp, lr, saved return addresses and
registers, the memoised walk. Beside it stands a machine: registers, bytes of memory, 32-bit
addresses, calls, returns, conditional execution, exceptions. It takes one thing from the
analysis, the words that stores at unknown positions are assumed to spare (below); all else it
does on its own. The main theorem (`StackGate.Check`) says that when the gate accepts a root
and gives a need, every run of the machine from that root stays within it and returns to its
caller with sp where it was; exceptions on the running stack are included where no body rises
above the saved words of its callers.

- `Graph`, `Tarjan`: reachability, components, the iterative algorithm.
- `Thumb`, `Machine`: what the decoder says of an instruction, and what executing it may do.
- `BodyRules`, `BodyAnalysis`, `ItBlocks`, `FrameBound`, `ReturnAnalysis`: the analysis of one
  body, as rules and as the loops that check them.
- `BodyAccount`, `FlowMeaning`, `FrameExact`, `TransferExact`: what is accepted, refused,
  charged and forgotten, told without the analysis and in both directions.
- `StepSoundness`, `Runs`, `RunInvariant`, `RunSteps`, `RunTransfers`, `RunHeights`,
  `StackSafety`: from one sound step to whole runs.
- `CallGraph`, `CallWalk`, `StackGate`: the walk with its memo, and the gate as a whole.
- `StackLimits`, `RisingBody`, `UnreachedRise`, `CopiedSp`: where the promises end.

**The YMODEM sender and receiver** (`svc/ymodem.c`). Each side is a step machine over a trace
of bytes, timeouts and aborts; beside it the imperative code, over the same buffers and
loops, is proved to do what the machine does. The two machines are then joined by a
channel that loses and detectably damages packets and replies and delivers others late: what
is delivered is right in every run (`YmodemSafety.ProtocolSafe`), and when every packet is lost
or spoilt up to ten times in a row the file still arrives (`YmodemRetry.TransferDespite`).

- `Crc16`, `CrcDetection`: the check, its algebra, and what it detects.
- `YmodemWire`, `YmodemBlock0`: frames and block 0, written and read.
- `YmodemReceiver`, `YmodemContract`, `YmodemRecvCode`: the receiver, its contract, its code.
- `YmodemSender`, `YmodemSendCode`: the sender and its code.
- `YmodemCancel`, `YmodemRetry`, `YmodemBatch`: how one side's failure ends the other, which
  faults are repaired and how many in a row, what comes of any well-formed batch.
- `YmodemLink`, `YmodemSafety`, `YmodemWrap`, `YmodemFinish`, `YmodemStall`, `YmodemRoundTrip`:
  both together.

**Algorithms with an exact specification**: the table-driven CRC-32 (`Crc32`), the rotating
blit (`GfxRot`), the outline rule and its cost (`RectGeom`), the clipped text rasteriser
(`PluginText`, `PluginPixels`), the container packer, its reader and its manifest (`Container`,
`Manifest`), the printf formatter (`Fmt`, and `FmtFields` for formats as they are written).

`dafny verify dfyconfig.toml` checks everything.

## What the proofs assume of the machine

- A store whose position is not sp plus a known constant spares the words that hold a live
  return address (`StepSoundness.UnknownStoresSpare`). This is the line the analysis draws
  itself, `cmake/thumb_stack_analysis.py:1572-1587`.
- A callee gives r4 to r11 back as it found them (section 6.1.1 of AAPCS32); the analysis
  forgets only r0 to r3, r12 and lr at a call. It is part of the step relation's return.
- Exceptions write only below sp. On the running stack they are admitted where the rise of
  what is called stays below the caller's saved words at every call (`RunInvariant.Calm`).
  Without them no such condition is needed.
- The need is at most 2^31, so that signed positions do not meet modulo 2^32.
- The decoder keeps its word on the instructions of the bodies walked
  (`RunInvariant.Decoded`): what each may write, and where it may go.

That a callee does not store at or above the sp it was called with is not assumed for
known positions; it is what acceptance checks and the proof uses.

## Where the code and its promise part

- A body that raises sp above its entry and comes back is accepted, and an exception taken
  meanwhile may overwrite the caller's saved return address (`RisingBody`). In any state the
  exact condition is that no word holding the return address of an activation that can still
  return lies below sp (`RunHeights.InterruptExact`); a condition on the bodies that gives it
  in every state of every run is `RunInvariant.Calm`.
- Positions are reduced modulo 2^32, but the drop that is charged to the frame is not:
  `add.w sp, sp, #0xff000000` moves sp down 16 MiB and is charged nothing
  (`StackLimits.SpWraps`). Addresses follow the bound where the rise of the root, computed like
  the need, fits above the start (`StackLimits.AddressBound`). The converse does not hold: the
  place that rises may be behind a call that never returns (`UnreachedRise`).
- The receiver's comment says a truncated file cannot be reported as success
  (`svc/ymodem.c:574-578`). It can: 129 bytes given for a file of 130 are received, the last
  byte being padding (`YmodemFinish.ShortSucceeds`). A transfer can succeed if and only if the
  source gives the announced size, or ends without a fault and its length, the last block
  padded to 128 or 1024, reaches that size (`YmodemFinish.SucceedsIff`). The file received is
  exactly the file when the source gives as many bytes as announced, and only then free of
  padding (`YmodemSafety.DeliveredIsFile`).
- When the first acknowledgement of block 0 is lost or garbled the transfer never recovers
  (`YmodemStall.LossStalls`): the receiver answers the repeated block with ACK and prompts with
  NAK from then on, the sender waits for 'C'. Which states are beyond recovery is known exactly
  up to the first data block (`YmodemStall.RecoversIff`).
- Block numbers wrap at 256. The protocol is safe in every run if and only if at most 255
  messages are under way when the sender puts a packet (`YmodemWrap.SafeIffRoom`).
- The comment at `svc/rect_geom.c:46-48` says the order of the two clamps matters. It does not
  (`RectGeom.ClampOrder`).
- The formatter's "emit verbatim" for an unknown conversion drops flags, width and length
  (`Fmt.UnknownVerbatim`, which says exactly when it does not).

## Model

| member | source | states |
|---|---|---|
| `Tarjan.Sccs` | cmake/thumb_stack_analysis.py:1810-1850 | the work-list form of Tarjan's algorithm, with its explicit stack of (node, next edge), returns sets that are each a maximal set of mutually reaching nodes, together exactly the given nodes, for every finite successor-closed graph; terminates |
| `Tarjan.Finish` | cmake/thumb_stack_analysis.py:1832-1849 | the end of a node's turn: closes its component exactly when its low is its own number, hands its low to the node below it, and keeps the invariant of the search |
| `Tarjan.PopComponent` | cmake/thumb_stack_analysis.py:1838-1845 | popping down to a node cuts the stack just below it and returns what lay above as one set |
| `Tarjan.Close` | cmake/thumb_stack_analysis.py:1838-1845 | what is popped is a strongly connected component of the graph and disjoint from all earlier ones, and the search invariant survives |
| `Tarjan.Leave` | cmake/thumb_stack_analysis.py:1846-1849 | a node that reaches below itself is no component root: it has a predecessor on the path, and handing it the lower number keeps the invariant |
| `Tarjan.SameComponentIffMutual` | cmake/thumb_stack_analysis.py:1810-1850 | two nodes share a returned set exactly when each reaches the other |
| `Tarjan.CycleIffComponent` | cmake/thumb_stack_analysis.py:1506-1510 | a node is on a cycle exactly when its set has a second member or it is its own successor, which is the test of the loop rule |
| `BodyAnalysis.Analyse` | cmake/thumb_stack_analysis.py:1315-1522 | for every well laid out body: the frame and edges returned are the specified ones, there is no refusal at all exactly when every acceptance rule holds of what was found, and for a body without stores through a copy of sp none whenever any findings at all make the rules hold; a veneer gets one edge to the function its literal names or an error |
| `BodyAnalysis.ScanIt` | cmake/thumb_stack_analysis.py:1345-1367 | the linear pass over IT blocks finds exactly the instructions inside blocks, and reports none exactly when every block is complete and holds nothing that may not stand where it does |
| `BodyAnalysis.ScanFrame` | cmake/thumb_stack_analysis.py:1368-1384 | the frame is the sum of the drops of sp over the body, and errors are absent exactly when every instruction decodes and every change of sp is a known constant |
| `BodyAnalysis.ScanFlow` | cmake/thumb_stack_analysis.py:1421-1504 | the reachability loop visits exactly the nodes reachable from the entry along its own successor lists; its errors and edges are exactly those of the visited instructions |
| `BodyAnalysis.ScanLoops` | cmake/thumb_stack_analysis.py:1505-1518 | an error is reported exactly when some visited instruction that writes sp lies on a cycle of the flow graph |
| `BodyAnalysis.BadLoopMeaning` | cmake/thumb_stack_analysis.py:1505-1518 | judging component by component is the same as judging each sp-writing instruction by whether it lies on a cycle |
| `BodyAnalysis.ScanReturns` | cmake/thumb_stack_analysis.py:1739-1788 | after the fixpoint, an error is reported exactly when two positions of sp clash or some reached instruction stores at or above the entry sp, returns or hands over with the wrong sp or link |
| `ReturnAnalysis.Run` | cmake/thumb_stack_analysis.py:1708-1722 | the work-list loop terminates on every flow graph; on exit the entry state and the state on every edge of every visited node are respected, no clash means no position of sp is lost, and without stores through a copy of sp the result is the greatest: no states that respect every edge and always know sp claim more anywhere |
| `ReturnAnalysis.Merge` | cmake/thumb_stack_analysis.py:1715-1722 | merging one edge state into a node only lowers what is claimed, queues the node when it changes, and keeps the loop's invariant |
| `ReturnAnalysis.Edges` | cmake/thumb_stack_analysis.py:1710-1722 | one node's turn re-establishes its edges and makes progress in the termination measure or changes nothing |
| `ReturnAnalysis.MeetLeq` | cmake/thumb_stack_analysis.py:1622-1633 | the meet claims no more than either state |
| `ReturnAnalysis.MeetGreatest` | cmake/thumb_stack_analysis.py:1622-1633 | and all that both states claim: it is the greatest lower bound |
| `ReturnAnalysis.EdgeRises` | cmake/thumb_stack_analysis.py:1635-1706 | knowing more before an instruction is knowing more on every edge out of it, when its stores go through sp or through registers that never hold sp plus a constant |
| `BodyAnalysis.BestAccepted` | cmake/thumb_stack_analysis.py:1708-1788 | for such a body: if there is any state assignment with which every rule of returns, stores and hand overs holds, the one the work loop finds has it too |
| `CopiedSp.KnowingRefuses` | cmake/thumb_stack_analysis.py:1739-1755 | the restriction is needed: in `mov r0, sp; str r1, [r0]; bx lr` states that do not know where r0 points respect every edge and satisfy every rule, and the states that follow the instructions exactly do not |
| `BodyAccount.ExecutedMeans` | cmake/thumb_stack_analysis.py:1635-1684 | what holds after an executed instruction, told by its fields alone: which words the stores through sp leave or save, when lr still holds or again holds the return address, where sp is |
| `BodyAccount.AccountAccepts` | cmake/thumb_stack_analysis.py:1315-1788 | a body whose author can say for each instruction where sp is, whether lr holds the return address and which words do, such that it holds together from each instruction to the next and at every store, return and hand over, is accepted |
| `BodyAccount.AcceptedAccount` | cmake/thumb_stack_analysis.py:1315-1788 | and every accepted body has such an account |
| `BodyAccount.PassesIff` | cmake/thumb_stack_analysis.py:1315-1788 | the verdict without the analysis: a body whose known stores, loads of lr and of pc go through sp is refused nothing if and only if its extent, IT blocks, flow and loops are in order and it has an account |
| `FlowMeaning.FlowExact` | cmake/thumb_stack_analysis.py:1436-1503 | an instruction is refused for its flow if and only if some way on from it in the machine, skipped and returned-to ones included, leaves the program or enters an IT block from outside, or it is a loop instruction that leaves its body |
| `FlowMeaning.CallsExact` | cmake/thumb_stack_analysis.py:1463-1486 | the edges of an instruction not refused are exactly the functions that a way on from it begins, on top of the running one for a call and in its place for a tail call |
| `TransferExact.ForgetsOnlyUnknown` | cmake/thumb_stack_analysis.py:1656-1667 | a register's position is given up only where, for every position, some processor the state speaks of and some effect of the instruction put it elsewhere |
| `TransferExact.AddressUnknown` | cmake/thumb_stack_analysis.py:1608-1620 | the address of an access at a constant offset is unknown only where no one address is right in every processor the state speaks of |
| `TransferExact.CallKeeps` | cmake/thumb_stack_analysis.py:1668-1671 | over a call exactly r4 to r11 keep their known positions |
| `ReturnAnalysis.HeightDrops` | cmake/thumb_stack_analysis.py:1622-1633 | a state strictly below another has a strictly smaller height, so the lattice admits no endless descent |
| `FrameBound.OncePerActivation` | cmake/thumb_stack_analysis.py:1505-1518 | in an accepted body no walk passes the same sp-writing instruction twice |
| `FrameBound.SpWithinFrame` | cmake/thumb_stack_analysis.py:1368-1384 | in an accepted body every reached instruction has a known position of sp, never more than the frame below the entry |
| `FrameExact.DropExact` | cmake/thumb_stack_analysis.py:1374-1379 | what an instruction adds to the frame is exactly how far it lowers a known sp |
| `FrameExact.SpExact` | cmake/thumb_stack_analysis.py:1672-1673 | the position found at the end of a walk is the sum of the moves of sp along it, skipped instructions moving nothing |
| `FrameExact.FrameReached` | cmake/thumb_stack_analysis.py:1368-1384 | at the end of a walk through an accepted body sp is the whole frame below the entry if and only if the walk made every drop of the body and no rise: the frame is no larger than it must be |
| `ItBlocks.FallPlace` | cmake/thumb_stack_analysis.py:1345-1367 | control falling from one instruction to the next keeps the count of IT instructions left in step with the layout, so a conditional instruction is exactly one the analysis treats as conditional |
| `ItBlocks.LastPlace` | cmake/thumb_stack_analysis.py:1359-1366 | an accepted transfer of control ends its IT block, and a conditional branch of its own is in none |
| `StepSoundness.AddrSound` | cmake/thumb_stack_analysis.py:1608-1620 | a position the analysis computes, modulo 2^32, is the address the instruction uses |
| `StepSoundness.StoresSound` | cmake/thumb_stack_analysis.py:1635-1684 | the words said to hold the return address after the stores of one instruction do hold it in every possible memory after it |
| `StepSoundness.TransferSound` | cmake/thumb_stack_analysis.py:1635-1684 | abstract interpretation is sound for one executed instruction: sp, lr, saved words and registers all hold in the concrete state after it |
| `StepSoundness.ExecutedEdge` | cmake/thumb_stack_analysis.py:1686-1706 | the state on an edge holds whenever an executed instruction goes that way |
| `StepSoundness.SkippedEdge` | cmake/thumb_stack_analysis.py:1686-1706 | the state on an edge out of a conditional instruction also holds when the instruction is not executed |
| `StepSoundness.SimWeaker` | cmake/thumb_stack_analysis.py:1622-1633 | whatever is true stays true after a meet |
| `StepSoundness.OuterWordKept` | cmake/thumb_stack_analysis.py:1739-1755 | the stores of an accepted body leave every live saved word above its entry sp unchanged: the rule about stores at or above the entry makes this a theorem for known positions |
| `RunInvariant.BaseBound` | cmake/thumb_stack_analysis.py:2115-2133 | every activation on the stack starts no lower than the start of the run less what the callers above it were charged |
| `RunInvariant.OuterPlace` | cmake/thumb_stack_analysis.py:1550-1557 | the saved words of every waiting activation that can still return lie at or above the sp of the running body |
| `RunTransfers.ReturnExact` | cmake/thumb_stack_analysis.py:1756-1788 | an accepted return, by lr or by a pop, leaves with sp at the entry position and goes to the return address |
| `RunTransfers.Calls` | cmake/thumb_stack_analysis.py:1668-1671 | a call keeps the run invariant: saved words above the call survive, r4 to r11 keep their values, lr and the scratch registers are forgotten |
| `RunTransfers.Returns` | cmake/thumb_stack_analysis.py:1756-1788 | a return to a waiting caller keeps the run invariant |
| `RunTransfers.HandsOver` | cmake/thumb_stack_analysis.py:1756-1788 | a tail call or a veneer keeps the run invariant, and the new body inherits the return address |
| `RunHeights.StepMoves` | cmake/thumb_stack_analysis.py:1668-1788 | every step of a run moves the stack of activations in one of five ways: not at all, on in the body, to a body handed over to at the same sp, to a callee called from a known position, back to the caller |
| `RunHeights.HeightsKept` | cmake/thumb_stack_analysis.py:1556-1566 | every step keeps each activation, and as far as it may rise, below what its caller may reach, and below the caller's saved words where the rise of what is called is below them |
| `RunHeights.CalmAbove` | cmake/thumb_stack_analysis.py:1550-1557 | when the rise of what is called stays below the caller's saved words at every call, then at any depth every word holding the return address of an activation that can still return is at or above sp |
| `RunHeights.InterruptKeeps` | cmake/thumb_stack_analysis.py:1550-1553 | an exception that writes only below sp keeps the run invariant in a state where all those words are at or above sp |
| `RunHeights.InterruptExact` | cmake/thumb_stack_analysis.py:1550-1553 | that condition is exact: every exception keeps the invariant if and only if none of those words lies below sp, as long as sp is less than half the address space above the body's entry |
| `StackSafety.StepKeeps` | cmake/thumb_stack_analysis.py:1315-1788 | every step of every run of an accepted program keeps the invariant: in-body steps, skipped instructions, calls, tail calls, veneers, returns, exceptions |
| `StackSafety.RunKeeps` | cmake/thumb_stack_analysis.py:1315-1788 | the invariant holds in every state of every run |
| `StackSafety.WholeRunStackBound` | cmake/thumb_stack_analysis.py:2115-2133 | along every run from the root, to any depth of calls, sp never falls more than the root's bound below where it began |
| `StackSafety.WholeRunReturns` | cmake/thumb_stack_analysis.py:1536-1566 | no run leaves the program, and a run that ends does so with sp where it began and control at the root's return address |
| `StackSafety.EveryReturnExact` | cmake/thumb_stack_analysis.py:1756-1788 | every return of every activation in every run leaves with sp at that activation's entry and goes to the address it was called with |
| `StackSafety.EveryTailCallExact` | cmake/thumb_stack_analysis.py:1756-1788 | every tail call in every run hands over sp and lr as the activation received them |
| `CallWalk.Walk.Total` | cmake/thumb_stack_analysis.py:2115-2133 | with memo and path: complete exactly when no refused body and no cycle is reachable; then the need is the largest sum of frames over all call chains and the chain returned attains it; a body on the path is reported as recursion |
| `CallWalk.Walk.PartsOf` | cmake/thumb_stack_analysis.py:2082-2113 | the same for the two halves: complete exactly when nothing bad is reachable, own is the largest cost of any chain, cross the largest of a chain that reaches a crossing, absent exactly when none does |
| `CallWalk.Walk.Recursion` | cmake/thumb_stack_analysis.py:2064-2071 | the recorded path segment is a real cycle of the call graph, recorded once |
| `CallWalk.Walk.Store` | cmake/thumb_stack_analysis.py:2111-2113 | a finished body's memo entry is complete exactly when nothing bad lies below it |
| `CallWalk.Walk.StoreWhole` | cmake/thumb_stack_analysis.py:2131-2133 | the same for the firmware's walk |
| `CallWalk.OkMeansClean` | cmake/thumb_stack_analysis.py:2064-2113 | an entry remembered as complete has no refused body and no cycle below it, although its callees were looked up and not walked again |
| `CallWalk.CycleReported` | cmake/thumb_stack_analysis.py:2064-2113 | a cycle reachable from a remembered body has been reported as recursion, memoisation notwithstanding |
| `CallGraph.PartsDecompose` | cmake/check_plugin_image.py:968-970 | A1 <= A0, and for every cost c charged at a crossing max(A0, A1 + c) is an upper bound of the cost of every chain and is attained by one |
| `StackGate.AnalyseAll` | cmake/thumb_stack_analysis.py:1315-1522 | every body of the image is analysed, with the verdict Analyse promises, whatever its code; instructions are only taken to be in the order of addresses |
| `StackGate.NeedFalls` | cmake/thumb_stack_analysis.py:2115-2133 | on every edge of the walked graph the callee's need plus the caller's frame is within the caller's need |
| `StackGate.WalkedProgramOk` | cmake/thumb_stack_analysis.py:2115-2133 | a complete walk over analysed bodies is an accepted program in the sense the run theorems ask for |
| `StackGate.Check` | cmake/thumb_stack_analysis.py:2115-2133 | the whole gate: the walk of the root is complete exactly when no refused body or cycle is reachable, and if so, with need up to 2^31 and the decoder's word on the instructions of the bodies walked, every run for every starting sp and link stays within the need and returns to its caller; with exceptions on the same stack too, where no body rises above its callers' saved words |
| `StackGate.ProgramBounds` | cmake/thumb_stack_analysis.py:2115-2133 | an accepted program bounds every state of every run |
| `StackLimits.AddressBound` | cmake/thumb_stack_analysis.py:1594-1597 | as 32-bit addresses, sp stays between start minus need and start plus the rise of the root in every run, when both fit the address space; the rise of a body bounds its positions of sp, and with what it calls |
| `StackLimits.LevelCalm` | cmake/thumb_stack_analysis.py:1374-1378 | where no body raises sp above its entry a rise of nothing will do, for addresses and for exceptions |
| `UnreachedRise.RiseNotNeeded` | cmake/thumb_stack_analysis.py:1374-1378 | the condition of AddressBound cannot be necessary: a program is accepted for which every bound of the rise leaves the address space |
| `UnreachedRise.NeverRises` | cmake/thumb_stack_analysis.py:1374-1378 | and in no run of which sp moves, because the place that rises is behind a call that never returns |
| `StackLimits.SpWraps` | cmake/thumb_stack_analysis.py:1374-1378 | a program with frame 0 is accepted whose run moves the 32-bit sp 16 MiB down: the drop of `add.w sp, sp, #0xff000000` is not reduced modulo 2^32, unlike positions |
| `RisingBody.RisingBodyLosesReturn` | cmake/thumb_stack_analysis.py:1550-1553 | a program in which every body is accepted, one of them rising above its entry sp, loses the return address when an exception is taken while it is up: the root does not go back to its caller; no bound of the rise satisfies the condition on exceptions |
| `Crc16.Compute` | svc/ymodem.c:73-83 | the byte and bit loop computes the recursive CRC of the stretch, for every length |
| `Crc16.CrcXor` | svc/ymodem.c:73-83 | the CRC is linear over XOR of messages of equal length, starting values included |
| `Crc16.Residue` | svc/ymodem.c:73-83 | appending two bytes to a message leaves 0 exactly when they are its CRC, high byte first |
| `Crc16.CheckIsResidue` | svc/ymodem.c:431-449 | the receiver's comparison accepts exactly the messages whose CRC over data and check bytes is 0 |
| `Crc16.CheckValue` | svc/ymodem.c:73-83 | the standard check value 0x31C3 of "123456789" |
| `CrcDetection.MessageDivides` | svc/ymodem.c:73-83 | the CRC is the remainder of the message's bits under polynomial division, an independent bit-serial definition |
| `CrcDetection.BurstDetected` | svc/ymodem.c:431-449 | every nonzero error within 16 consecutive bits of data and check, at any length and place, makes the comparison fail |
| `CrcDetection.OddErrorDetected` | svc/ymodem.c:431-449 | so does every error in an odd number of bits |
| `YmodemWire.FrameIsRead` | svc/ymodem.c:117-130 | what the sender frames, the receiver reads back: the block, and no byte too many |
| `YmodemWire.DamageIsSeen` | svc/ymodem.c:386-454 | a frame whose data or check bytes suffered a burst of up to 16 bits or an odd number of bit errors is read as damaged and never as a block |
| `YmodemWire.BlockCame` | svc/ymodem.c:363-454 | whatever the line carries, a block accepted is a whole valid frame that stood in the input |
| `YmodemWire.NoiseIgnored` | svc/ymodem.c:363-379 | up to 8191 bytes of noise in front change nothing of what is read; 8192 end the wait as silence does |
| `YmodemWire.CancelIsRead` | svc/ymodem.c:363-379 | two CANs in a row, noise in front or not, end the transfer |
| `YmodemWire.FrameCut` | svc/ymodem.c:386-429 | a frame that breaks off: an abort ends the transfer at any place, silence makes a bad block of it once its header has come |
| `YmodemWire.StopCame` | svc/ymodem.c:363-429 | the transfer is ended by nothing but an abort or two CANs in a row, which are the last thing read |
| `YmodemBlock0.PrintDecimal` | svc/ymodem.c:86-94 | the digits pushed low first and turned round are the decimal numeral, at most 10 characters for 32 bits |
| `YmodemBlock0.DecimalSpells` | svc/ymodem.c:86-94 | the numeral consists of digits and reads back as the number |
| `YmodemBlock0.BuildBlock0` | svc/ymodem.c:207-223 | block 0 is the name cut to 100, a NUL, the size in decimal, zeros to 128, and nothing else in the buffer changes |
| `YmodemBlock0.Copy` | svc/ymodem.c:207-223 | copies as much as fits and leaves the rest alone |
| `YmodemBlock0.Parse` | svc/ymodem.c:466-493 | the parse loops over the buffer agree with the parse function, NUL and all |
| `YmodemBlock0.SizeExact` | svc/ymodem.c:466-493 | for every block 0 the parse is: refused exactly when no NUL ends the name or the digits after it spell more than 2^32-1, else the name, the number the digits spell, and whether there were any |
| `YmodemBlock0.Block0RoundTrip` | svc/ymodem.c:207-223 | parsing a built block 0 gives back the name cut to 100 characters ("file.bin" for none) and the exact size for every 32-bit value |
| `YmodemBlock0.NullBlockParses` | svc/ymodem.c:466-493 | the closing block parses as an empty name with no declared size |
| `YmodemReceiver.StepProgress` | svc/ymodem.c:502-667 | every step uses up input or, with the line silent, retries left in its phase: the receiver terminates on every finite input |
| `YmodemContract.ReceiveContract` | svc/ymodem.c:502-682 | on arbitrary input the sink is called once to begin, before any write; every write is data of a CRC-valid block of the input, numbered 1, 2, 3 ... modulo 256 in order; success needs the declared size met and the closing block seen; anything else ends with exactly one cancel |
| `YmodemContract.DeclaredSizeKept` | svc/ymodem.c:573-627 | never more than the declared size is written, and on success exactly that much |
| `YmodemContract.Conserved` | svc/ymodem.c:610-627 | bytes written plus bytes still owed are the declared size after every block |
| `YmodemContract.SeqApart` | svc/ymodem.c:597-609 | two block numbers agree exactly when they agree modulo 256, hence never within 255 of each other unless equal |
| `YmodemContract.RefusalIsFinal` | svc/ymodem.c:541-627 | the sink is not called again after it refuses, and the result is the sink error exactly then |
| `YmodemRecvCode.Receiver.DrainLine` | svc/ymodem.c:352-361 | drains until silence, an abort or the limit |
| `YmodemRecvCode.Receiver.WaitHdr` | svc/ymodem.c:363-379 | waits for SOH, STX, EOT or a double CAN, skipping at most the discard limit of other bytes |
| `YmodemRecvCode.Receiver.ReadRest` | svc/ymodem.c:386-454 | reads number, complement, data and check into the buffer and tells intact, damaged and aborted apart |
| `YmodemRecvCode.Receiver.AwaitFile` | svc/ymodem.c:502-556 | the handshake loop with its retries and its answers is the machine's first phase |
| `YmodemRecvCode.Receiver.ReceiveData` | svc/ymodem.c:561-627 | the block loop, with re-acknowledged duplicates, the switch of the prompt and the trimmed delivery, is the machine's second phase |
| `YmodemRecvCode.Receiver.AwaitClose` | svc/ymodem.c:628-667 | the closing loop is the machine's third phase |
| `YmodemRecvCode.Receiver.ReceiveFile` | svc/ymodem.c:669-682 | the whole imperative receiver gives the result, the sent bytes and the sink calls of the step machine, for every input and every behaviour of port and sink |
| `YmodemSender.SStepProgress` | svc/ymodem.c:226-294 | every step of the sender goes on to a later stage, uses up input or uses up a retry: it terminates on every input |
| `YmodemSender.TransmissionsBounded` | svc/ymodem.c:117-294 | a whole send puts at most 11 packets per block, header, EOT and closing block on the line, and one cancel |
| `YmodemSendCode.Sender.PutUntilAck` | svc/ymodem.c:131-147 | transmits 1 to 11 times whatever arrives, and its outcome is the machine's |
| `YmodemSendCode.Sender.SendBlock` | svc/ymodem.c:117-147 | the frame put in the static buffer is kind, number, complement, data, CRC, and goes out 1 to 11 times |
| `YmodemSendCode.Sender.WaitC` | svc/ymodem.c:151-183 | both waits for 'C', with their patience and their answers to other bytes |
| `YmodemSendCode.Sender.ReadBlock` | svc/ymodem.c:254-268 | fills a block by as many reads as the source needs, stopping at its end or its error |
| `YmodemSendCode.Sender.PadBlock` | svc/ymodem.c:268-271 | a short block is filled up with CPMEOF to 128 or 1024 bytes, the data in front unchanged |
| `YmodemSendCode.Sender.SendData` | svc/ymodem.c:248-280 | the data loop: block sizes, padding, numbers and the early end of a short source |
| `YmodemSendCode.Sender.SendFile` | svc/ymodem.c:296-302 | the whole imperative sender gives the result, the sent packets and the source left of the step machine, for every reply sequence and source |
| `YmodemCancel.HaltExact` | svc/ymodem.c:110-114 | a wait for a reply is cut off exactly by an abort or two CANs in a row |
| `YmodemCancel.SenderCancelled` | svc/ymodem.c:131-183 | whatever it waits for, a sender that reads the cancel sequence ends there with nothing more put on the line |
| `YmodemCancel.ReceiverCancelled` | svc/ymodem.c:363-379 | whatever it waits for, a receiver that reads it, noise in front or not, ends there with nothing more put or written |
| `YmodemCancel.FailedReceiveEndsSend` | svc/ymodem.c:669-682 | what a failed receive puts on the line last ends the sender that reads it |
| `YmodemCancel.FailedSendEndsReceive` | svc/ymodem.c:296-302 | what a failed send puts on the line last ends the receiver that reads it |
| `YmodemRetry.OneTrouble` | svc/ymodem.c:502-667 | silence, a bad block, a repeated block or EOT: the receiver's answer and next state in every phase, with what follows on the line untouched |
| `YmodemRetry.Endures` | svc/ymodem.c:502-667 | a row of such troubles is answered one by one and the run goes on as if it had not been, or it has timed out |
| `YmodemRetry.Patience` | svc/ymodem.c:502-540 | before and after the data as many troubles are borne as the limit, 40 and 10, in all, and one more is a timeout |
| `YmodemRetry.DataPatience` | svc/ymodem.c:565-605 | among the data any number of bad and repeated blocks is borne and ten silences in a row, and one more silence is a timeout |
| `YmodemRetry.DamagedSpoils` | svc/ymodem.c:352-454 | a frame with a burst or odd number of wrong bits, and up to 8191 bytes behind it, is read and drained as one bad block |
| `YmodemRetry.CutSpoils` | svc/ymodem.c:352-454 | so is one that breaks off anywhere after its header |
| `YmodemRetry.ReceivesDespite` | svc/ymodem.c:541-667 | the receiver on the packets of a file, each behind troubles within those limits: success, the file, and exactly the stated replies |
| `YmodemRetry.PacketDespite` | svc/ymodem.c:131-147 | a packet goes out once more for each reply that is no ACK, and with the eleventh in a row the sender gives up |
| `YmodemRetry.AskDespite` | svc/ymodem.c:151-183 | waiting for a 'C' only silence counts, and it is borne as often as the limit |
| `YmodemRetry.SendsDespite` | svc/ymodem.c:226-294 | with up to ten denials of every packet the sender succeeds and puts every packet as often as it was denied and once more, in order |
| `YmodemLink.PacketIsItem` | svc/ymodem.c:117-130 | every packet the sender can have out is read by the receiver as the message the link model carries |
| `YmodemLink.ReplyIsRead` | svc/ymodem.c:131-147 | every reply byte the receiver sends is read by the sender as that reply |
| `YmodemSafety.StepSafe` | svc/ymodem.c:117-667 | every move of the composed system keeps the invariant: transmissions, losses and detected damage either way, timeouts, stale replies, sink and port failures, the sender putting a packet only with at most 255 messages under way |
| `YmodemSafety.RunSafe` | svc/ymodem.c:117-667 | the invariant holds in every reachable state |
| `YmodemSafety.ProtocolSafe` | svc/ymodem.c:248-293 | in every reachable state the bytes delivered are a prefix of what the sender committed to, the receiver's block is at most one ahead of the sender's and less than the channel's room behind, and a successful receiver has all of it |
| `YmodemSafety.DeliveredIsFile` | svc/ymodem.c:573-582 | in every run in which the receiver succeeds it holds exactly the file when the source gives the announced size, and exactly then nothing but source bytes; else what the source gives and padding up to the size |
| `YmodemFinish.UsedUp` | svc/ymodem.c:608-627 | the blocks of the pieces sent use up the declared size exactly when their padded length does |
| `YmodemFinish.SuccessNeeds` | svc/ymodem.c:573-582 | in every run that ends in success, whatever the line did, the source gave the declared size, or came to its end without a fault with a padded length of at least that |
| `YmodemFinish.SucceedsIff` | svc/ymodem.c:248-281 | some run succeeds if and only if that holds, and then the run in which nothing goes wrong does |
| `YmodemFinish.ShortSucceeds` | svc/ymodem.c:573-582 | a truncated file reported as received, contrary to the comment at lines 574-578: a run that succeeds with 129 bytes given for a file announced with 130, the missing byte being padding |
| `YmodemSafety.LockStep` | svc/ymodem.c:248-293 | when the sender puts a packet only on an empty line, the receiver expects the sender's block or the one after it |
| `YmodemWrap.WrongBlock` | svc/ymodem.c:597-609 | over a line of 256 messages or more a run is reached in which block 283 of a file is delivered where block 27 was due: repeated blocks pile up acknowledgements on which the sender runs ahead |
| `YmodemWrap.SafeIffRoom` | svc/ymodem.c:597-609 | the sink is given the beginning of the file in every state of every run, for every file and source, if and only if at most 255 messages are under way when the sender puts a packet |
| `YmodemStall.LossStalls` | svc/ymodem.c:600-605 | in every run, when the first acknowledgement of block 0 under way is lost or garbled, the transfer is stalled from the next state on |
| `YmodemStall.StallKept` | svc/ymodem.c:169-183 | no move of the system leaves the stalled states, and none writes anything |
| `YmodemStall.RecoversIff` | svc/ymodem.c:169-183 | the exact condition: in every run, before the first data block and while both ends have a try left, a transfer whose source gives enough can still succeed if and only if it is not stalled; stalled means that no 'C' under way is behind an acknowledgement of block 0, or none at all once the sender has it, and that the receiver prompts with NAK or has no acknowledgement left to arrive |
| `YmodemStall.LostAckStalls` | svc/ymodem.c:600-605 | a run reaches that state, for every file, with nothing else going wrong and no packet put before the line is empty |
| `YmodemStall.StallForever` | svc/ymodem.c:169-183 | from there no run ends in success or delivers anything more |
| `YmodemRoundTrip.ReceivesFile` | svc/ymodem.c:541-667 | the receiver run on exactly the frames of a file returns success, the name cut to 100, the size and the bytes, padding trimmed |
| `YmodemRoundTrip.SendsFile` | svc/ymodem.c:226-294 | the sender with prompt replies emits exactly those frames |
| `YmodemRoundTrip.RoundTrip` | svc/ymodem.c:226-294 | the receiver run on what the sender emitted gives back the file, for every size and every way the source splits its reads |
| `YmodemRetry.RoundTripDespite` | svc/ymodem.c:226-294 | over a line that loses or spoils every packet up to ten times in a row, and on which the sender may hear anything but an ACK each time, the file arrives |
| `YmodemRetry.TransferDespite` | svc/ymodem.c:226-294 | the two ends closed into one exchange: the sender reads exactly what the receiver puts on the line, the receiver what the line makes of what the sender puts on it, any packet is lost or spoilt up to ten times in a row, and both end in success with the file received |
| `YmodemBatch.ReceivesAny` | svc/ymodem.c:541-667 | from any sender, blocks of either size in any order: without a declared size all their bytes are written, with one as many as declared, and it succeeds if and only if there are that many |
| `Crc32.Update` | svc/crc32.c:48-60 | two table steps per byte compute the bit-serial reflected CRC-32 with complements at both ends (section 8 of RFC 1952), for every buffer and starting value |
| `Crc32.TableExact` | svc/crc32.c:37-42 | every entry of the nibble table is four bit-serial steps of its index |
| `Crc32.NibbleStep` | svc/crc32.c:55-56 | one table step is four bit-serial steps, for all 2^32 values |
| `Crc32.Resumes` | svc/crc32.c:44-47 | a CRC over a then b is the CRC over their concatenation; the empty chunk changes nothing |
| `Crc32.CheckValue` | svc/crc32.c:44-47 | the standard check value of "123456789" |
| `GfxRot.Gather` | svc/gfx_rot.c:97-103 | a run takes the next pixels down a source column |
| `GfxRot.StoreRun` | svc/gfx_rot.c:105-128 | the pair store with its odd tail and the halfword store both write the run and nothing else |
| `GfxRot.BlitColumn` | svc/gfx_rot.c:89-132 | staging in runs of 64 copies one column into one row stretch |
| `GfxRot.BlitRot` | svc/gfx_rot.c:68-134 | every source pixel lands at its rotated cell, every other cell is unchanged, and nothing at all happens for null or empty input |
| `GfxRot.CellsDiffer` | svc/gfx_rot.c:89 | the rotated index map is injective |
| `GfxRot.Turned` | svc/gfx_rot.c:85-90 | column sx of the picture is row rows-1-(x0+sx) of the frame buffer, and its row sy the column y0+sy there |
| `RectGeom.NormExact` | svc/rect_geom.c:17-62 | for all inputs the result is the clipped box with stroke min(stroke, ceil(w/2), ceil(h/2)), or none exactly when stroke or box is empty; no clamp to 1 is ever needed |
| `RectGeom.ClampOrder` | svc/rect_geom.c:46-52 | either order of the two clamps gives the same stroke, contrary to the comment |
| `RectGeom.NormFits` | svc/rect_geom.c:24-33 | the box lies in the frame buffer and the stroke in the box |
| `RectGeom.OutlineSize` | svc/rect_geom.c:70-78 | the number of distinct outline pixels, counted as a set, is the sum over rows |
| `RectGeom.WritesExact` | svc/rect_geom.c:64-83 | the cost is the number of distinct outline pixels plus one for each middle row exactly when 2t = w+1 |
| `RectGeom.NeverSaturates` | svc/rect_geom.c:80-82 | the total is at most 65535*65536, so the saturation is never taken |
| `PluginText.ClipExact` | asset/common/plugin_text.c:190-207 | the clipped span holds exactly the places of the span that lie on the target |
| `PluginText.Fill` | asset/common/plugin_text.c:209-235 | a fill paints exactly the pixels of the rectangle on the target, stride gap and all else unchanged, for all int32 arguments; a refused target is left alone |
| `PluginText.DrawGlyph` | asset/common/plugin_text.c:237-272 | one glyph paints exactly the blocks of its set bits that can be named |
| `PluginText.DrawText` | asset/common/plugin_text.c:274-302 | the whole text paints exactly the union of its glyphs and returns the advance, or does nothing and returns 0 when refused |
| `PluginText.DrawingIsIdeal` | asset/common/plugin_text.c:237-302 | for targets up to INT32_MAX and texts up to 65535 characters that union is the ideal drawing over the integers: a pixel is set exactly when it lies in some set font bit's scale by scale block, so the blocks dropped as not representable lose nothing visible; the advance is 6*scale*length |
| `PluginText.GlyphIdeal` | asset/common/plugin_text.c:237-272 | the same for one glyph |
| `PluginText.LongTextAdvance` | asset/common/plugin_text.c:165-175 | a text of more than 65535 characters advances by 0 |
| `PluginPixels.PixelExact` | asset/common/plugin_text.c:132-302 | every target with pixels whose stride is at least its width is drawn on, and a pixel is set if and only if the bit of the font for its place in the scaled cell of its character is, bit 0 of a column byte being the top row |
| `PluginPixels.CharPixel` | asset/common/plugin_text.c:237-272 | the same for character k of a string, with the division that finds column and row |
| `Container.AlignedUp` | asset/tools/pack_container.py:107 | the bit mask rounds up to the next multiple, for a power of two |
| `Container.Build` | asset/tools/pack_container.py:92-185 | fails exactly when a size does not fit a word; else every word, entry and field is in place, the parts stand where the entries say, the gap before the model is zero, and the digest is that of the plugin section as it stands in the result |
| `Container.Reparse` | asset/tools/pack_container.py:188-215 | for every sequence of bytes: sections are returned if and only if the bytes begin with magic and format word, hold their own length, a table of which every entry is there and lies inside, a plugin section with the recorded digest and an aligned model section; and they are those of the table, the last of a type |
| `Container.ReadsExactly` | asset/tools/pack_container.py:188-215 | the same of the parse function, told by bytes in their places |
| `Container.ChangedPlugin` | asset/tools/pack_container.py:208-213 | a built container whose plugin section was changed is accepted if and only if the digest of the section is what it was |
| `Container.RoundTrip` | asset/tools/pack_container.py:188-215 | for every layout without overlaps the reader accepts what was built and finds the sections, in bounds, one after the other, the model aligned; image, model and data are the inputs, and the model extracted is the model |
| `Container.ModelExtracted` | cmake/build_asset.py:59-73 | the first section marked as a model is the model that went in |
| `Manifest.CrossingBits` | asset/tools/pack_container.py:158-167 | bit i of the crossing word is set exactly when slot i is present and reaches a crossing |
| `Manifest.CrossingFits` | asset/tools/pack_container.py:158-167 | up to 32 slots fit the word |
| `Manifest.DeclarationRead` | asset/tools/pack_container.py:158-173 | from a container that was built a loader reads of every slot its entry and its two stack figures, or zeros when it is absent, its crossing bit, and both names cut so that a NUL fits |
| `Fmt.Utoa` | svc/fmt.c:63-74 | the digits, collected low first in 20 places and turned round, are the numeral, for every 64-bit number; the rest of the buffer is unchanged |
| `Fmt.TwentyEnough` | svc/fmt.c:66 | no 64-bit number needs more than 20 digits in base 10 or 16 |
| `Fmt.DigitsBack` | svc/fmt.c:63-74 | a numeral reads back as its number |
| `Fmt.DigitsOnly` | svc/fmt.c:63-74 | a numeral has no leading zero but in "0" |
| `Fmt.NumberReadsBack` | svc/fmt.c:38-59 | a number in its field reads back whatever the width, the flags and the prefix |
| `Fmt.FieldExact` | svc/fmt.c:38-59 | every field, of every conversion, is exactly max(width, natural length) characters, and just its text where it needs that many |
| `Fmt.IntegersReadBack` | svc/fmt.c:154-181 | every integer conversion prints a field that reads back as its argument, LLONG_MIN included, exactly as wide as asked or as the number needs |
| `Fmt.ReadConv` | svc/fmt.c:111-137 | the loops over flags and width and the length test find the conversion the format string specifies, the width being the number written, capped at 4096 |
| `Fmt.Sink.Put` | svc/fmt.c:197-205 | stores what still fits beside the NUL; what lies behind is untouched |
| `Fmt.Sink.Format` | svc/fmt.c:103-191 | one pass streams exactly the rendering of the format's items, in order |
| `Fmt.FormatInto` | svc/fmt.c:207-215 | the buffer holds the first min(L, size-1) characters of that stream, NUL-terminated, and nothing else is written; size 0 writes nothing |
| `Fmt.UnknownVerbatim` | svc/fmt.c:185-188 | an unknown conversion comes out as written exactly when nothing stood between the percent sign and its letter, although the comment says verbatim |
| `Fmt.WidthDropped` | svc/fmt.c:185-188 | for one, "%5q" comes out as "%q" |
| `FmtFields.SpecRead` | svc/fmt.c:111-137 | a conversion written as flags, width, length and letter is read as that |
| `FmtFields.NumberPrints` | svc/fmt.c:154-181 | for every such conversion of a number: its numeral in the digits of its base, small for %x and %p and capital for %X; with '-' the room is spaces behind, with '0' and no '-' zeros behind the sign, else spaces in front |
| `FmtFields.TextPrints` | svc/fmt.c:143-153 | for %c and %s: spaces behind with '-', else in front; a '0' changes nothing |
| `FmtFields.OtherPrints` | svc/fmt.c:139-190 | any other letter prints as a percent sign and itself, a percent sign as one |
| `FmtFields.PartsJoin` | svc/fmt.c:103-191 | a format in two parts, cut between conversions, prints the one and then the other, each with its own arguments |
| `FmtFields.TextIsItself` | svc/fmt.c:103-109 | text without a percent sign prints as itself |
| `FmtFields.LonePercent` | svc/fmt.c:182-184 | a percent sign with nothing but flags behind it prints as one |

## Left out

- StackLimits.AddressBound: sufficient only; UnreachedRise.RiseNotNeeded shows a program for which the condition fails although no run leaves the addresses.
- RunHeights.CalmAbove: the condition on the bodies is sufficient for all states; the exact one, RunHeights.InterruptExact, is on the state, since which states runs reach is not decided by the flow alone.
- CallWalk.Walk.PartsOf: its two halves are proved exact over call chains; runs are followed only as far as the image's own code, so no run theorem continues past a crossing.
- BodyAnalysis.Analyse: refusals are told apart by kind and instruction, not by their wording, and the notes on which store killed a saved word are not kept; nodes are visited in the order of the work list, since no sorted order changes whether there is an error.
- ReturnAnalysis.Run: that the result is the greatest is promised where no store goes through a copy of sp; with such a store less knowledge can justify more (CopiedSp.KnowingRefuses), and what is found then may depend on the order of the work list.
- BodyAccount.PassesIff: speaks of bodies whose stores at known offsets, loads of lr and loads of pc go through sp or through registers that never hold sp plus a constant; of others BodyAnalysis.Analyse says that they are refused nothing exactly when the rules hold of what was found.
- Tarjan.Sccs: the outer loop, the exploration, the end of a node's turn and the popping are methods of their own, with the algorithm's variables passed as one value.
- StackGate.AnalyseAll: analyses every body beforehand, where the program does it when the walk first asks; the analysis of a body depends on nothing else.
- CallWalk.Walk.Recursion: the text of the message is left out; that it is recorded once per set of bodies is kept.
- The instruction tables of the decoder, reading of ELF, map and stack-usage files, the search for witnesses, and all printing: input and output around the analysis; instructions come decoded.
- The Thumb bit of `bx` targets: control is compared by instruction address.
- The other build gates under `cmake/`: they compare fields of tool output or of image bytes.
- YmodemReceiver.StepProgress: real time is left out; a timeout is an event in the input, and input that has run out is silence.
- YmodemContract.ReceiveContract: the diagnostics counters are left out, and so is any negative result of getc other than timeout and abort.
- YmodemWire.DamageIsSeen: an error in the two number bytes is seen by their comparison and not by the CRC; an error that changes both into another complementary pair is not covered, nor is one in the first byte of a frame.
- YmodemSafety.ProtocolSafe: the channel keeps the order of what it does not lose, and damage is detected; a line that reorders, or damages undetected, is outside the model.
- YmodemStall.RecoversIff: speaks of the exchange up to the first data block and of ends with a try left; which later states, and which states on the last try, can still succeed is left out.
- YmodemRoundTrip.SendsFile: is about the fault-free exchange; YmodemRetry.SendsDespite is the same with faults, and YmodemSafety.ProtocolSafe says what is kept under any.
- YmodemRetry.TransferDespite: packets are lost or spoilt and replies arrive; lost replies are in the contracts of the two sides apart (ReceivesDespite for repeated blocks, SendsDespite for unheard replies), the one after block 0 excepted, which YmodemStall.LossStalls shows cannot be repaired.
- YmodemRetry.SendsDespite: a CAN that is no cancel takes the next event with it; such single CANs are left out of the faults counted.
- YmodemSendCode.Sender.ReadBlock: a source that returns more than it was asked for would overrun the buffer in C and is excluded by the source's type here.
- GfxRot.BlitRot: memory is an array of pixels; volatile access and bus width are left out, but both store paths are modelled, and index arithmetic is unbounded where 32 bits suffice for any buffer that exists.
- PluginText.DrawText: the font's bytes are a parameter; the string buffer and `pl_text_height` beside it are left out as easy.
- Container.Build: takes the manifest as a list of fields; Manifest.DeclarationRead says what they are for the slots and the names, the other words being given with their places. The digest is any function of the plugin section; asset digests, JSON and ELF reading are outside.
- Container.RoundTrip: needs the magic at 0 and the format word at 4, where the reader looks for them whatever the layout says.
- Fmt.Sink.Format: int, long, size_t and pointers are 32 bits and long long is 64, as on the target; an argument of the wrong kind, undefined in C, is a precondition; the other sinks of the same pass are left out.
