# Machine-checked models of the driver and test-bench state machines

A Dafny 4.11 project about the parts of this repository whose correctness is an argument over
whole runs rather than something one function shows: the Corundum queue protocol of the `cndm`
drivers, the PTP time distribution link, the BASE-R physical coding models, two Mersenne
Twisters, the segmented parallel RAM and the segmented PCIe TLP bus, the I2C init compiler with
the state machine that runs its output, and COBS/XFCP framing.

`dafny verify dfyconfig.toml` checks everything. Each file is one module.

| files | what they model |
|---|---|
| `Base`, `Arith`, `Packed` | option and result types, byte-wide types; quotients, remainders, powers of two; bit fields or-ed into a number and cut out again |
| `PhaseRing`, `SlotRing`, `PhaseQueue` | phase-tagged rings and slot rings on wrapping registers |
| `TxProtocol`, `TxQueue` | kernel transmit: the interleaving protocol, and the driver's registers refining it |
| `RxQueue`, `EventQueue` | kernel receive and event handling |
| `DpdkTx`, `DpdkRx` | the burst calls of the DPDK driver |
| `PtpClock`, `PtpSerial`, `PtpTd`, `PtpLayout` | the clock, the one-wire serial format, the two ends in lock-step, and messages and line in numbers |
| `PcsCodec`, `Scrambler`, `PcsMac`, `PcsLink`, `PcsLayout`, `Gearbox` | 64b/66b blocks, scrambler, lanes and gaps, the whole serdes link, every bit of every block, the bit counters |
| `Twister`, `TwisterStream`, `TwisterNumbers`, `TwisterMixed` | both generators, batch and incremental; what their numbers say about each other; the numbers themselves; what drawing in both ways from one generator gives |
| `PsdpRam`, `PsdpWrite`, `PsdpRead`, `PsdpMemory`, `PsdpWires` | words of a segmented memory, the write and read ends as clocked machines, both ends at work on one memory, and the wide signals between them |
| `TlpSegments`, `TlpLayout`, `TlpBus` | segments packed into a transaction; headers and signals in numbers; the two ends of the segmented TLP bus |
| `I2cInit`, `I2cCompile`, `I2cFsm`, `I2cBus`, `I2cHost`, `I2cBringUp` | command words and interpreter, the register list compiler, the module clock by clock, the bus master it is wired to, all of it end to end |
| `Cobs`, `Xfcp` | byte stuffing and XFCP frames |

## How the models are made

Code that updates state is a class or a method with that state, and is proved against a
specification: the method's `ensures` gives the new state, and the promises of the source are
lemmas about the specification. A clocked machine is one method per edge. Where several parties
run at once, either the steps are atomic and interleave freely (`TxProtocol`), or the other
party's freedom is an argument: `arrivals`, `allocs`, `stalls`, `grant`, `pause`, `Ready` and the
like are chosen by nobody in particular, and every contract holds for all of them. Ghost fields
(`sent`, `posted`, `hist`, `landed`, `issued`, `ops` and so on) only remember what happened, so
that a contract can speak about it.

What the device does in the queue models follows `src/cndm/rtl/cndm_micro_queue_state.sv`:
descriptors are completed in order once a doorbell covers them, a completion carries the
complement of the wrap bit of its number, and a completion for a queue that looks full is
discarded. That last case is modelled and proved not to arise.

Where both ends of a link are proved against one specification, that specification is also stated
in plain numbers, independent of either end: bits, types, words and constants in `PcsLayout`,
`PtpLayout`, `TlpLayout` and `TwisterNumbers`, elsewhere beside it.

Two widths of one generator are one model: `Twister.Params` holds the constants and the three
functions in which they differ, and `Mt19937` and `Mt19937b64` are its two instances.

## Findings

- `cndm_process_tx_cq`: the second half of the wake test, `sq->prod_ptr == sq->cons_ptr`, never
  decides anything (`TxProtocol.EmptyTestIsRedundant`). The transmit ring really reaches 129
  outstanding packets, one over its threshold (`TxProtocol.BoundIsTight`).
- `cndm_xmit_pkt_burst` returns how many packets it took, but skips packets of several segments,
  so the count names the leading packets if and only if the packets of one segment the burst starts
  with fill the room, or none of one segment comes after them (`DpdkTx.CountNamesPrefix`). A long
  packet, a short one and room for one is a burst where it does not (`DpdkTx.SkippedPacket`).
- The receive queue lives on the descriptors it has posted: frames lead to a completion, and with it
  to a poll that refills the ring, if and only if one is posted (`RxQueue.RxQueue.Round`). A fresh
  queue that has been filled and then receives 128 frames while no page can be allocated has none
  posted any more (`RxQueue.RunDry`), and nothing fills it again (`RxQueue.RxQueue.Starves`).
- In the ordered-set block OS_0 encoder and decoder disagree on where the codes of lanes 4 to 7 are.
  A column with that block comes back if and only if these lanes hold the control characters of the
  displaced codes (`PcsCodec.RoundTrip`); lane 4 always arrives as an error (`PcsCodec.OsZeroLost`),
  so four idles do not come back (`PcsCodec.IdlesLost`) and four errors do (`PcsCodec.ErrorsKept`).
- The deficit idle count keeps the sum of the gaps in every run if and only if the gap asked for is
  at least eight: then it always does (`PcsMac.DeficitIdleCount`), and for each smaller one a run
  of two shortest frames misses the sum (`PcsMac.GapTooLong`). With `force_offset_start` half of
  the half columns go uncharged, and no such account is kept.
- `set_gbx_cfg` without a sequence length turns the gearbox off and then raises all the same, because
  it goes on to compute with the missing length. A negative length without stalls is
  accepted (`Gearbox.Counter.SetGbxCfg`).
- The two ways of drawing from one generator may change between batches: the stream goes on
  (`TwisterMixed.DrawTidily`). In the middle of a batch a batch draw after incremental ones gives the
  number of one batch ago (`TwisterMixed.BatchAfterWords`), and an incremental draw after batch ones
  that of one batch ahead, or past word n - m one of words the recurrence never combines
  (`TwisterMixed.WordAfterBatches`). With the default seed of the 64-bit generator both orders miss
  the second number (`TwisterMixed.SecondNumbers`).
- `init_by_array` with an empty key raises IndexError after the seed has been replaced
  (`Twister.Generator.InitByArray`).
- `parse_cobs` fails on the output of `build_cobs` as it stands; the zero delimiter has to be taken
  off first (`Xfcp.DelimiterMustGo`). Frames come back exactly when all path bytes are below 0xFE.
- The register compiler writes exactly what is listed if and only if every address has 16 bits and
  no line for the page register that selects another page is followed by a line of its own page
  (`I2cCompile.WritesListed`, with a failing list in `I2cCompile.AstrayList`).
- The I2C bus master never offers to take a command and a data byte in the same cycle, and may give
  up the bus whenever no command is there. The init module does not need the first
  (`I2cFsm.Module.RunToEnd`), and its compiled programs survive the second because the compiler
  forgets the address at a delay, so that every write follows a start or another write directly
  (`I2cBus.CompiledJoined`, `I2cBringUp.InitialiseOnBoard`).
- In the PTP sink the clock of a locked sink is one cycle behind what the source's own delay line
  gives out (`PtpTd.SinkLocks`).

## Model

| member | source | states |
|---|---|---|
| Cobs.CobsEncode | src/xfcp/tb/xfcp.py:14-45 | the byte-by-byte loop produces exactly the groups of the specification: a full group of 254, a zero-ended group, or a last group that is left out after a full one |
| Cobs.CobsDecode | src/xfcp/tb/xfcp.py:48-69 | the loop decodes exactly the group specification, None for a zero byte or a group that runs past the end |
| Cobs.Groups | src/xfcp/tb/xfcp.py:14-45 | a code byte counts up to the next zero byte, which is left out, or is 255 before 254 bytes with no zero among them |
| Cobs.RoundTrip | src/xfcp/tb/xfcp.py:14-69 | decoding the encoding of any byte string gives it back |
| Cobs.NoZeroByte | src/xfcp/tb/xfcp.py:14-45 | an encoding never contains a zero byte |
| Cobs.Overhead | src/xfcp/tb/xfcp.py:14-45 | at least one byte more, and at most one for every started 254 bytes |
| Cobs.ReencodeIffCanonical | src/xfcp/tb/xfcp.py:14-69 | re-encoding what a received string decodes to gives that string exactly when it has canonical form |
| Xfcp.BuildFrame | src/xfcp/tb/xfcp.py:95-112 | path, marker and return path if there is one, end marker, type and payload, in that order |
| Xfcp.ParseFrame | src/xfcp/tb/xfcp.py:117-144 | the two scanning loops give the specified parse, with IndexError where the data ends early and AssertionError where the end marker is missing |
| Xfcp.Accepts | src/xfcp/tb/xfcp.py:117-144 | a byte string is accepted as a frame if and only if all path bytes are below 0xFE and it is path, 0xFE and return path, 0xFF, type and payload, or without a return path the same without 0xFE |
| Xfcp.Refuses | src/xfcp/tb/xfcp.py:117-144 | of the others those with a second return path mark fail the assertion, and all the rest run out of bytes |
| Xfcp.RoundTrip | src/xfcp/tb/xfcp.py:95-144 | parsing undoes building if and only if all bytes of path and return path are below 0xFE |
| Xfcp.ParsedShape | src/xfcp/tb/xfcp.py:117-144 | every accepted byte string is a routable frame's path, optional marked return path and trailer, split at the first marker |
| Xfcp.Rebuild | src/xfcp/tb/xfcp.py:95-144 | building what was parsed gives the same bytes, but for an announced empty return path |
| Xfcp.CobsRoundTrip | src/xfcp/tb/xfcp.py:114-148 | a stuffed frame without its delimiter is parsed back if and only if it is routable |
| Xfcp.DelimiterMustGo | src/xfcp/tb/xfcp.py:114-148 | with the delimiter left on every built frame fails to parse |
| PhaseRing.Truncated | src/cndm/modules/cndm/cndm_eq.c:185-207 | cutting a pointer to a width the double ring divides changes neither slot nor wrap bit |
| PhaseRing.RingFitsRegisters | src/cndm/modules/cndm/cndm_cq.c:58-59 | every ring size the drivers can ask for divides the 32-bit pointer range twice |
| PhaseRing.ProduceHolds | src/cndm/rtl/cndm_micro_queue_state.sv:482-488 | an entry written with its phase keeps the ring's history: every slot holds the newest entry that maps to it |
| PhaseRing.PhaseTestExactly | src/cndm/modules/cndm/cndm_eq.c:201-208 | what the phase test answers for any lead of the producer at all: yes exactly when the number of started rings ahead is odd |
| PhaseRing.PhaseTest | src/cndm/modules/cndm/cndm_eq.c:201-240 | with the producer at most one ring ahead an entry is reported exactly when it has been produced, and it is the right one |
| PhaseRing.OverrunHides | src/cndm/modules/cndm/cndm_eq.c:201-208 | one entry more than a ring ahead the test misses an entry that is there |
| PhaseRing.RegistersAgree | src/cndm/modules/cndm/cndm_cq.c:167-175 | 32-bit consumer and 16-bit producer registers give the same ring contents and the same answers as counters that never wrap |
| SlotRing.Post | src/cndm/modules/cndm/cndm_rq.c:255-268 | with fewer entries outstanding than slots a new one goes into a free slot and leaves all others as they are |
| SlotRing.Take | src/cndm/modules/cndm/cndm_rq.c:304-319 | the slot at the consumer pointer holds the oldest entry, and clearing it leaves exactly the later ones |
| SlotRing.AllVacant | src/cndm/modules/cndm/cndm_rq.c:204-217 | with nothing outstanding no slot holds anything |
| PhaseQueue.RoundupPow2 | src/cndm/modules/cndm/cndm_cq.c:58 | for every size from 1 on the smallest power of two that is no smaller; a ring size the registers allow for requests up to 0x8000 |
| PhaseQueue.PhaseQueue.constructor | src/cndm/modules/cndm/cndm_cq.c:58-83 | for every size from 1 on a fresh queue has the smallest power of two entries that is no smaller than asked for, none written and no phase tag set; up to 0x8000 it works as a queue |
| PhaseQueue.PhaseQueue.Full | src/cndm/rtl/cndm_micro_queue_state.sv:235 | the device's test on 16-bit registers says full exactly when it is a whole ring ahead of what it was told |
| PhaseQueue.PhaseQueue.DeviceWrite | src/cndm/rtl/cndm_micro_queue_state.sv:482-501 | an entry is added to the history, or discarded exactly when the ring is full |
| PhaseQueue.PhaseQueue.Peek | src/cndm/modules/cndm/cndm_eq.c:201-208 | the phase test at a 32-bit cursor finds an entry exactly when the device has written that many, and returns that entry |
| PhaseQueue.PhaseQueue.Publish | src/cndm/modules/cndm/cndm_eq.c:242-243 | the stored consumer pointer becomes the cursor, for the true count it stands for |
| PhaseQueue.PhaseQueue.WriteConsPtr | src/cndm/modules/cndm/cndm_cq.c:167-175 | the doorbell tells the device the true consumer count through 16 bits |
| EventQueue.NextEvent | src/cndm/modules/cndm/cndm_eq.c:204-240 | a turn of the loop finds the next event exactly when there is one and does what that event asks |
| EventQueue.Turns | src/cndm/modules/cndm/cndm_eq.c:204-240 | after any number of turns, whatever arrives during them, the events up to the cursor have been handled once and in order, and the loop has left early only if none was left; so also of a run that never ends |
| EventQueue.Finish | src/cndm/modules/cndm/cndm_eq.c:242-244 | the queue and the device both learn how many events were consumed |
| EventQueue.ProcessEq | src/cndm/modules/cndm/cndm_eq.c:193-245 | whatever arrives during the turns, once no more does all events have been handled once and in order, none is left, and queue and device know it |
| EventQueue.DispatchedCount | src/cndm/modules/cndm/cndm_eq.c:212-220 | a handler runs exactly as often as events name its queue, whatever else is interleaved, and one of an unknown queue never |
| TxProtocol.InvStep | src/cndm/modules/cndm/cndm_sq.c:207-353 | every enabled step of the stack, the poll and the device keeps the protocol invariant |
| TxProtocol.ReachableInv | src/cndm/modules/cndm/cndm_sq.c:207-353 | every state of every interleaving satisfies the invariant |
| TxProtocol.NoLostWakeup | src/cndm/modules/cndm/cndm_sq.c:250-258 | in every reachable state with the queue stopped, either something is outstanding or a poll that consumed something is still before its wake check |
| TxProtocol.StoppedCanMove | src/cndm/modules/cndm/cndm_sq.c:207-353 | a stopped queue never deadlocks: the driver or the device has an enabled step, polls without budget apart |
| TxProtocol.RankFalls | src/cndm/modules/cndm/cndm_sq.c:207-353 | every step other than a new transmit and the beginning of a poll without budget lowers a natural-number rank; the latter raises it by at most eight |
| TxProtocol.StoppedQueueWakes | src/cndm/modules/cndm/cndm_sq.c:255-256 | along every run, whatever the scheduling, the queue is not stopped at some point within a bound fixed by the state it started in, and nine steps more for every poll without budget |
| TxProtocol.EmptyTestIsRedundant | src/cndm/modules/cndm/cndm_sq.c:255 | the wake check wakes exactly when the poll consumed something |
| TxProtocol.RingNeverOverruns | src/cndm/modules/cndm/cndm_sq.c:303-346 | at most 129 packets outstanding, at most a ring's worth not yet freed, at most 128 when a transmit may begin |
| TxProtocol.BoundIsTight | src/cndm/modules/cndm/cndm_sq.c:250-256 | a run reaches 129 outstanding packets |
| TxProtocol.FreedInOrder | src/cndm/modules/cndm/cndm_sq.c:224-248 | packets come back in the order sent, each once, none before its completion |
| TxProtocol.TakeIsSafe | src/cndm/modules/cndm/cndm_sq.c:224-248 | a completion the poll can see belongs to a packet that was sent |
| TxProtocol.NothingDropped | src/cndm/modules/cndm/cndm_sq.c:224-253 | the completion queue never fills up, so no completion is discarded |
| TxProtocol.PollsAreSerial | src/cndm/modules/cndm/cndm_sq.c:261-281 | no event is ever missed, none is raised while a poll with a budget runs, and a queue is re-armed only after its poll has been completed |
| TxQueue.TxQueue.WriteDescriptor | src/cndm/modules/cndm/cndm_sq.c:303-336 | the descriptor write on wrapping registers is the protocol's step, and the slot it takes is free |
| TxQueue.TxQueue.CompareFull | src/cndm/modules/cndm/cndm_sq.c:340 | the 32-bit difference decides as the true number outstanding does |
| TxQueue.TxQueue.HasCompletion | src/cndm/modules/cndm/cndm_sq.c:225-229 | the phase test answers yes exactly when the device has completed more than the poll has taken |
| TxQueue.TxQueue.FreeTxDesc | src/cndm/modules/cndm/cndm_sq.c:233-243 | the packet in the slot reached is the oldest one not freed, and its slot is emptied |
| TxQueue.TxQueue.PollNext | src/cndm/modules/cndm/cndm_sq.c:224-248 | a turn of the loop is the protocol's take or exit step, and a take frees the packet that is due |
| TxQueue.TxQueue.PublishCons | src/cndm/modules/cndm/cndm_sq.c:250-251 | both consumer pointers are published as the protocol's step says |
| TxQueue.TxQueue.DecideWake | src/cndm/modules/cndm/cndm_sq.c:255 | the wake test on registers decides as the protocol's step does |
| TxQueue.TxQueue.DeviceComplete | src/cndm/rtl/cndm_micro_queue_state.sv:482-501 | the device on its 16-bit pointers completes exactly when a doorbell covers the next descriptor |
| TxQueue.TxQueue.CqFull | src/cndm/rtl/cndm_micro_queue_state.sv:235 | the device's test for a full completion queue never succeeds |
| TxQueue.TxQueue.FreeTxBuf | src/cndm/modules/cndm/cndm_sq.c:192-205 | what is freed on close after what polls freed is everything sent, in order and once, and no slot keeps a packet |
| RxQueue.RxQueue.PostOne | src/cndm/modules/cndm/cndm_rq.c:219-253 | an allocated and mapped page goes into the next slot; a page that cannot be mapped is given back; neither changes anything else |
| RxQueue.RxQueue.Refill | src/cndm/modules/cndm/cndm_rq.c:255-274 | with fewer than eight missing nothing happens, otherwise the ring is filled to 128 or to the first failure and the doorbell rung; missing never underflows |
| RxQueue.RxQueue.TakeOne | src/cndm/modules/cndm/cndm_rq.c:304-349 | the page of the oldest posted descriptor leaves its slot, which is never null; an skb gets it if and only if the completion says at least 14 octets and there is an skb, with as many octets as it says up to 4096 |
| RxQueue.RxQueue.PollLoop | src/cndm/modules/cndm/cndm_rq.c:295-350 | the loop consumes completions in order up to the budget and stops early only when none is left, whatever arrives meanwhile; each page goes to its skb exactly if its completion says at least 14 octets and there is one, else back to the allocator |
| RxQueue.RxQueue.ProcessRxCq | src/cndm/modules/cndm/cndm_rq.c:276-359 | so does a poll, then tops the ring up to 128 or to the first allocation that gives no page if eight or more are missing, and tells the device the true count |
| RxQueue.RxQueue.FreeRxBuf | src/cndm/modules/cndm/cndm_rq.c:204-217 | all pages still posted are freed in order and no slot keeps one |
| RxQueue.RxQueue.Round | src/cndm/modules/cndm/cndm_rq.c:276-381 | from rest, incoming frames lead to a poll if and only if a descriptor is posted, and a poll with room in its budget leads back to rest |
| RxQueue.RunDry | src/cndm/modules/cndm/cndm_rq.c:255-359 | a history that starves the queue: filled when fresh, then 128 frames in two polls without memory, and it is at rest with nothing posted |
| RxQueue.RxQueue.Starves | src/cndm/modules/cndm/cndm_rq.c:255-274 | with no descriptor posted no frame is ever received again and nothing is posted |
| RxQueue.RxQueue.Conservation | src/cndm/modules/cndm/cndm_rq.c:187-359 | in every state the pages the allocator handed out are, as multisets, those in the slots, in skbs, freed after completion and given back unmapped |
| DpdkTx.DpdkTx.EnqueueBurst | src/cndm/dpdk/cndm/cndm_sq.c:221-247 | the packets taken are the single-segment ones in order, as many as the ring has room for, and their number is returned |
| DpdkTx.AcceptedShort | src/cndm/dpdk/cndm/cndm_sq.c:221-247 | taken are the first single-segment packets of the burst, as many as there is room for |
| DpdkTx.DpdkTx.Reap | src/cndm/dpdk/cndm/cndm_sq.c:257-277 | every completion there is when the loop ends has freed its packet, in order, with a completion queue no larger than the ring |
| DpdkTx.DpdkTx.DeviceComplete | src/cndm/rtl/cndm_micro_queue_state.sv:482-501 | the device completes the next descriptor exactly when it is announced; its completion queue, of equal size, is never full |
| DpdkTx.DpdkTx.XmitPktBurst | src/cndm/dpdk/cndm/cndm_sq.c:207-285 | a burst sends what fits, rings the doorbell only if it sent something, and frees exactly what is completed, in order and once |
| DpdkTx.CountNamesPrefix | src/cndm/dpdk/cndm/cndm_sq.c:221-247 | the packets taken are the first so many of the burst if and only if the leading single-segment packets fill the room or no single-segment packet follows them |
| DpdkTx.SkippedPacket | src/cndm/dpdk/cndm/cndm_sq.c:229-232 | a long packet, a short one and room for one: the count is one, and it is the second that was taken |
| DpdkRx.DpdkRx.PostBatch | src/cndm/dpdk/cndm/cndm_rq.c:244-258 | a batch of buffers is posted in order |
| DpdkRx.DpdkRx.Missing | src/cndm/dpdk/cndm/cndm_rq.c:224 | the register difference is the true number of free slots and never underflows |
| DpdkRx.DpdkRx.Refill | src/cndm/dpdk/cndm/cndm_rq.c:222-266 | with fewer than eight missing nothing happens; otherwise the ring is filled if and only if every bulk allocation that takes succeeds, and else stops in front of the batch of 32 of the first that fails; the doorbell is rung |
| DpdkRx.DpdkRx.PollLoop | src/cndm/dpdk/cndm/cndm_rq.c:286-317 | the loop hands out completions up to the burst size and stops early only when none is left |
| DpdkRx.DpdkRx.RecvPktBurst | src/cndm/dpdk/cndm/cndm_rq.c:268-329 | buffers come out in the order posted, each once, with the length of its own completion cut to the data room; after something was received, and with eight or more missing, the ring is refilled from the pool as far as bulk allocations succeed |
| Scrambler.ScrambleBlock | src/eth/tb/baser.py:501-510 | the loop's output is the scrambling of the block, every bit xored with line bits 39 and 58 before it, and the register it leaves is the last 58 line bits |
| Scrambler.DescrambleBlock | src/eth/tb/baser.py:820-827 | the loop descrambles the block, every bit xored with line bits 39 and 58 before it, and leaves the last 58 line bits in the register |
| Scrambler.ScrambleBlocks | src/eth/tb/baser.py:501-510 | block after block is the scrambling of the whole stream |
| Scrambler.DescrambleBlocks | src/eth/tb/baser.py:820-827 | block after block is the descrambling of the whole stream |
| Scrambler.SelfSynchronises | src/eth/tb/baser.py:501-510 | whatever the two registers hold, every output bit from the 58th on equals the input, for streams of any length |
| Scrambler.InSync | src/eth/tb/baser.py:820-827 | with equal registers every descrambled bit is the input bit |
| Scrambler.StartupErrors | src/eth/tb/baser.py:820-827 | exactly which of the first 58 bits are wrong |
| Scrambler.RegistersMeet | src/eth/tb/baser.py:820-827 | after 58 line bits the two registers are equal whatever they held |
| Scrambler.ErrorSpread | src/eth/tb/baser.py:820-827 | one flipped line bit i corrupts exactly the outputs i, i+39 and i+58 |
| Scrambler.Through | src/eth/tb/baser.py:501-510 | through both ends, whatever their registers, every block that starts 58 bits in or later comes out equal, and with equal registers every block |
| Scrambler.Received | src/eth/tb/baser.py:820-827 | one flipped bit of one block corrupts exactly three bits of the stream of blocks received, 0, 39 and 58 on |
| PcsCodec.EncodeColumn | src/eth/tb/baser.py:405-499 | the source's chain of cases with its shifting and or-ing builds the specified block |
| PcsLayout.EveryBit | src/eth/tb/baser.py:405-499 | what every bit of every block is: header 2 and eight octets, or header 1, the type and the octets, seven-bit codes and O codes that belong to it |
| PcsLayout.BlockType | src/eth/tb/baser.py:416-499 | the first eight bits of a block as a number, for every case of a column |
| PcsLayout.CodeNumbers | src/eth/tb/baser.py:403 | the codes of the control characters and the characters of the codes, everything unknown an error |
| PcsCodec.DecodeEncode | src/eth/tb/baser.py:405-499 | what every column arrives as: lanes carried as codes become the character of their code, those of OS_0 the character of the displaced code, all others stay |
| PcsCodec.RoundTrip | src/eth/tb/baser.py:829-963 | any column comes back if and only if every lane carried as a code is a control character with a code of its own, or in OS_0 the character of the displaced code |
| PcsCodec.OsZeroLost | src/eth/tb/baser.py:447 | in every OS_0 block lane 4 comes back as an error, so a column with an idle there is lost |
| PcsCodec.IdlesLost | src/eth/tb/baser.py:447 | an OS_0 column with four idles does not come back |
| PcsCodec.ErrorsKept | src/eth/tb/baser.py:447 | an OS_0 column with four errors does |
| PcsCodec.TermWord | src/eth/tb/baser.py:461-496 | a terminate block keeps the lanes before the terminate character, puts it in its lane and recodes those after it |
| PcsMac.Source.Send | src/eth/tb/baser.py:154-162 | a frame goes to the end of the queue and changes nothing else |
| PcsMac.Source.ChargeGap | src/eth/tb/baser.py:309-315 | four lanes of gap are charged, and gap and deficit together keep what the lanes sent so far owe |
| PcsMac.Source.BeginFrame | src/eth/tb/baser.py:316-340 | the oldest frame is begun, the shortfall of the gap becomes the deficit, and the finished gap is recorded |
| PcsMac.Source.Decide | src/eth/tb/baser.py:307-346 | at the head of a half column, the second alone if the start lane is forced, the source charges, begins or clears, losing no frame; a waiting frame comes nearer every time |
| PcsMac.Source.EmitLane | src/eth/tb/baser.py:348-380 | the lane put out is what brings a sink from what was sent before to what has been sent now |
| PcsMac.Source.Column | src/eth/tb/baser.py:303-380 | a column brings a sink exactly to the source's position in its frames, has a shape the block code carries, makes progress, and leaves the gap accounts as its lanes charge them |
| PcsMac.ShapedRoundTrip | src/eth/tb/baser.py:405-499 | every column the source can fill survives encoding and decoding unchanged |
| PcsMac.Sink.TakeColumn | src/eth/tb/baser.py:985-1036 | the lane loop of the sink has the effect of the frame specification |
| PcsLayout.FrameOnLanes | src/eth/tb/baser.py:1001-1033 | a frame on the lanes is the start character in place of its first octet, the other octets and a terminate character; another control character ends it and is kept |
| PcsMac.DeficitIdleCount | src/eth/tb/baser.py:306-346 | with DIC on and a gap of at least eight the deficit stays in 0..3, the gaps of n back-to-back frames sum to n times the gap plus initial minus final deficit, and each is within three lanes of it |
| PcsMac.GapsWithoutDic | src/eth/tb/baser.py:309-315 | without DIC every gap is at least what was asked for or the terminate column leaves, and at most three lanes more |
| PcsMac.TotalOf | src/eth/tb/baser.py:357-365 | for any gap setting the sum of the gaps is at least that, and equal if and only if no terminate column alone leaves more than was asked for |
| PcsMac.GapTooLong | src/eth/tb/baser.py:357-365 | for every gap setting below eight a run of two shortest frames with DIC on has a sum that misses by eight less the gap |
| PcsLink.TurnedTwice | src/eth/tb/baser.py:532-535 | reversing bits at both ends cancels |
| PcsLink.PlaceNext | src/eth/tb/baser.py:809-810 | or-ing in the next beat extends the received part of the block by exactly that beat |
| PcsLink.SerdesSource.Edge | src/eth/tb/baser.py:285-542 | an unstalled edge sends the next beat of the current block, or fills, encodes and scrambles a new one and sends its first beat; bit i of beat n is block bit width * n + i, or with bit reversal width * n + width - 1 - i, and the two header bits stand in the same order |
| PcsLink.SerdesSink.Collect | src/eth/tb/baser.py:793-817 | the first beat of a block gives its first bits and its header, turned round if and only if bit reversal is asked for |
| PcsLink.SerdesSink.CollectMore | src/eth/tb/baser.py:801-810 | a further beat adds its bits behind those |
| PcsLink.SerdesSink.Recover | src/eth/tb/baser.py:820-827 | the payload of a block is descrambled if and only if that is asked for |
| PcsLink.SerdesSink.Edge | src/eth/tb/baser.py:792-1036 | a beat is collected, and with the last one the block is descrambled, decoded and its lanes taken |
| PcsLink.Link.Edge | src/eth/tb/baser.py:244-542 | an edge, stalled or not, of source and sink with the registered line between them keeps them coupled: what has arrived, is on the line or is still queued is what was queued, in order |
| PcsLink.Link.Run | src/eth/tb/baser.py:717-1036 | under any schedule of stalls what has arrived is a beginning of what was queued |
| PcsLink.Link.Drain | src/eth/tb/baser.py:717-1036 | left to itself the link delivers every queued frame, none of them twice, and comes to rest |
| PcsLink.Deliver | src/eth/tb/baser.py:221-544 | for every width, reversal, scrambling, gap, DIC and forced start lane setting the frames queued on a fresh link come out as they went in |
| Gearbox.StallsInWindow | src/eth/tb/baser.py:257-273 | any seq_len consecutive cycles hold every stall cycle once |
| Gearbox.NoDrift | src/eth/tb/baser.py:130-139 | over any whole sequence the bits in and out balance, at either end |
| Gearbox.RunFrom | src/eth/tb/baser.py:275 | a run from any count is the unclamped drift from it or the run from empty, whichever is more |
| Gearbox.Periodic | src/eth/tb/baser.py:256-276 | from any count, after one sequence the counter repeats with period seq_len |
| Gearbox.TwoSequences | src/eth/tb/baser.py:256-276 | from any count and any phase, the count after one sequence and after two are the same |
| Gearbox.NeverClamped | src/eth/tb/baser.py:766 | after one sequence the clamp at zero never changes the count again |
| Gearbox.Counter.SetGbxCfg | src/eth/tb/baser.py:110-152 | for any length and stall list, each missing or not: accepted exactly when the stalls are in range and bits balance over the sequence, with the error of every other case and the state it leaves |
| Gearbox.AcceptsIff | src/eth/tb/baser.py:123-143 | of the positive lengths those are accepted whose stalls lie inside and whose cycles without them make whole bits at 66 a cycle, of the negative ones all without stalls |
| Gearbox.Counter.Preset | src/eth/tb/baser.py:653-657 | the loop presets the counter to a whole sequence from empty |
| Gearbox.Counter.Cycle | src/eth/tb/baser.py:748-772 | one edge moves phase and count on by one cycle, at the sink with gbx_sync to the start of the sequence, and says whether it is a stall |
| Gearbox.Counter.Settle | src/eth/tb/baser.py:256-276 | after n cycles, n at least a sequence, a further sequence brings the counter back to what it was |
| Twister.Generator.Seed | src/math/tb/mt19937.py:21-25 | the state is the seeding recurrence, cut to the word size, and a batch is due |
| Twister.Generator.Absorb | src/math/tb/mt19937.py:29-40 | the first loop of init_by_array works through its rounds at the specified places of state and key |
| Twister.Generator.Stir | src/math/tb/mt19937.py:41-46 | the second loop works through its n rounds at the specified places of the state |
| Twister.Generator.InitByArray | src/math/tb/mt19937.py:27-47 | a key gives the specified state; an empty one fails with the array seed in place |
| Twister.Generator.Twist | src/math/tb/mt19937.py:75-93 | twisting word k in place turns a state part old and part new into one with one more new word of the recurrence |
| Twister.Generator.Refill | src/math/tb/mt19937.py:50-63 | the batch loops turn n words of the recurrence into the next n |
| Twister.Generator.Int | src/math/tb/mt19937.py:49-73 | the number of the word at hand, or of the first after a whole batch, in any state; of a batch generator the t-th number is the tempered t-th word of the recurrence after its seed, across all refills |
| Twister.Generator.IntB | src/math/tb/mt19937_64.py:75-103 | the word at hand, or again the first, is twisted in place in any state and nothing else; of an incremental generator the t-th number is the tempered t-th word of the recurrence |
| Twister.Streams | src/math/tb/mt19937.py:49-103 | set up the same way both produce the same stream, for any length, seed or key, and for both widths |
| TwisterNumbers.FirstNumbers | src/math/tb/mt19937.py:21-73 | the first two numbers after the default seed, 3499211612 and 581869302, and 14514284786278117030 and 4620546740167642908 with 64 bits |
| TwisterNumbers.DrawFirst | src/math/tb/mt19937.py:49-103 | drawn from a generator nobody has seeded, by batches or by single words, they are these |
| TwisterNumbers.TwistHigh32 | src/math/tb/mt19937.py:54-56 | what twisting makes of every single bit of the first word |
| TwisterNumbers.TwistLow32 | src/math/tb/mt19937.py:54-57 | and of the second |
| TwisterNumbers.TwistHigh64 | src/math/tb/mt19937_64.py:54-56 | the same with 64 bits |
| TwisterNumbers.TwistLow64 | src/math/tb/mt19937_64.py:54-57 | and of the second word |
| TwisterNumbers.NarrowKeyed | src/math/tb/mt19937.py:27-47 | what init_by_array makes of a key of four in a state of three words |
| TwisterNumbers.WideKeyed | src/math/tb/mt19937_64.py:27-47 | the same with 64 bits |
| TwisterStream.Tells32 | src/math/tb/mt19937.py:68-71 | tempering never gives two 32-bit words the same number |
| TwisterStream.Tells64 | src/math/tb/mt19937_64.py:68-71 | nor two 64-bit words |
| TwisterStream.NumbersDecide | src/math/tb/mt19937.py:49-73 | if n numbers on end of one state and n of another agree, all later ones do |
| TwisterStream.Decided | src/math/tb/mt19937_64.py:49-73 | that holds of both generators as they are, for any two set-ups and any two places in their streams |
| TwisterMixed.DrawTidily | src/math/tb/mt19937.py:49-103 | drawn in both ways in any order, the way changing only where a batch is used up, every number is that of the recurrence |
| TwisterMixed.BatchAfterWords | src/math/tb/mt19937.py:49-73 | a batch draw after incremental ones goes on with the stream where a batch is used up; anywhere else it gives exactly the number of n draws ago, the right one if and only if the two words are equal |
| TwisterMixed.WordAfterBatches | src/math/tb/mt19937.py:75-103 | an incremental draw after batch ones goes on with the stream where a batch is used up; anywhere else it gives exactly the number of n draws later, or from place n - m on that of a word twisted with one of the batch before |
| TwisterMixed.SecondNumbers | src/math/tb/mt19937_64.py:49-103 | with the default seed the second number is the same drawn either way, and drawn one way after the other it is another, in either order |
| Twister.AliveSlides | src/math/tb/mt19937.py:54-62 | one twist keeps the effective state non-zero and never makes a zero one non-zero |
| Twister.AliveForever | src/math/tb/mt19937.py:49-103 | the state after any number of words is non-zero exactly when the first is |
| Twister.NeverDegenerate | src/math/tb/mt19937.py:21-63 | after any seed, non-empty key or default set-up, and any number of words, the effective state is non-zero |
| Twister.Healthy | src/math/tb/mt19937_64.py:21-63 | after any set-up of either generator and any number of words the effective state is non-zero |
| Twister.Zero32 | src/math/tb/mt19937.py:55-57 | the 32-bit twist is zero exactly when its joined word is |
| Twister.Zero64 | src/math/tb/mt19937_64.py:55-57 | the 64-bit twist is zero exactly when its joined word is |
| PtpClock.Clock.Advance | src/ptp/tb/ptp_td.py:222-245 | one edge is one tick of the specification, in source and sink alike |
| PtpClock.ExactTime | src/ptp/tb/ptp_td.py:222-245 | after n cycles fraction, relative time (modulo 2^48) and time of day are exactly what was added, across carries, rollovers and wraps |
| PtpLayout.Calendar | src/ptp/tb/ptp_td.py:222-245 | seconds have 1000000000 nanoseconds, and time of day, relative time and fraction are exactly what the cycles have added |
| PtpClock.WholeDrift | src/ptp/tb/ptp_td.py:225-230 | drift_denom cycles add drift_denom periods and drift_num, and bring the drift counter back |
| PtpClock.WholeDriftLater | src/ptp/tb/ptp_td.py:225-230 | any drift_denom consecutive cycles of a run add the same |
| PtpLayout.NoDrift | src/ptp/tb/ptp_td.py:225-230 | without a drift denominator every cycle adds the period alone |
| PtpClock.OffsetsAgree | src/ptp/tb/ptp_td.py:247-258 | both published second and offset pairs fit one constant C, offset = C - second*10^9 modulo 2^32 |
| PtpClock.OriginStays | src/ptp/tb/ptp_td.py:222-258 | the constant of the published pairs is the same at every cycle of the run |
| PtpLayout.AltSecond | src/ptp/tb/ptp_td.py:251-258 | the second published pair is for the next second if and only if the nanoseconds are 939524096 or more, and else for the one before |
| PtpSerial.Sender.Edge | src/ptp/tb/ptp_td.py:332-344 | idle, start bit and data bits of the words leave in order, lowest bit first |
| PtpSerial.Receiver.Edge | src/ptp/tb/ptp_td.py:579-596 | a sample moves the receiver as specified, and completes a message or does not |
| PtpSerial.FirstSample | src/ptp/tb/ptp_td.py:579-591 | a quiet receiver takes the first start bit of a message |
| PtpSerial.NextSample | src/ptp/tb/ptp_td.py:579-596 | every further line value of a message moves the receiver along it, and the message is handed over at the first idle cycle and no other |
| PtpSerial.AllWords | src/ptp/tb/ptp_td.py:581-586 | words of 16 bits are recovered unchanged |
| PtpLayout.LineBits | src/ptp/tb/ptp_td.py:330-344 | a word goes out as a low start bit and its sixteen bits, the lowest first, and behind the last the line is high |
| PtpTd.Carried | src/ptp/tb/ptp_td.py:260-326 | applying a message gives a sink the period, fraction and relative time of the source, with the drift or the time of day by index (seconds modulo 2^48), and leaves the rest |
| PtpLayout.EveryMessage | src/ptp/tb/ptp_td.py:260-327 | the words of every message read back as its index and flags, fraction, relative time and period |
| PtpLayout.MessageZero | src/ptp/tb/ptp_td.py:273-285 | those of message 0 as the time of day and whether it was set |
| PtpLayout.MessageOne | src/ptp/tb/ptp_td.py:286-297 | those of message 1 as the offset for this second and the drift |
| PtpLayout.MessageTwo | src/ptp/tb/ptp_td.py:298-309 | those of message 2 as the other second and the offset for it |
| PtpTd.Source.Build | src/ptp/tb/ptp_td.py:260-328 | a message of the clock as it stands, the next index, and 255 cycles to the next |
| PtpTd.Source.Delay | src/ptp/tb/ptp_td.py:217-220 | the delay line holds the newest 238 plus td_delay times |
| PtpTd.Source.Edge | src/ptp/tb/ptp_td.py:214-344 | an edge delays, ticks, publishes offsets, builds a message when one is due and moves the wire |
| PtpTd.Sink.Process | src/ptp/tb/ptp_td.py:491-577 | a message is applied exactly when its delay runs out |
| PtpTd.Sink.Receive | src/ptp/tb/ptp_td.py:579-596 | a completed message is held with its delay, and nothing else changes what is held |
| PtpTd.InStepTick | src/ptp/tb/ptp_td.py:466-489 | an edge without a message keeps the sink in step with the source of Lag cycles ago |
| PtpTd.InStepTake | src/ptp/tb/ptp_td.py:491-577 | taking over a message keeps what is in step so and puts the fields it carries in step |
| PtpTd.Link.Edge | src/ptp/tb/ptp_td.py:214-344 | an edge of both ends keeps the coupling of clock, wire, receiver and pending message |
| PtpTd.SinkLocks | src/ptp/tb/ptp_td.py:452-596 | once message 3, the fourth, has been taken, at every later edge the sink's rate is the source's and its fraction, relative time, time of day and drift counter are those of Lag cycles ago, for every td_delay in 1..255 and whatever the sink held |
| PsdpRam.OwnSegment | src/dma/tb/dma_psdp_ram.py:714-720 | what happens to a byte is decided by the words of its own segment alone |
| PsdpRam.ByteGoes | src/dma/tb/dma_psdp_ram.py:256-275 | byte a of a write goes to lane a % lanes of row a / (lanes * segments) of segment a / lanes % segments, with its own value and enabled |
| PsdpRam.WordBounds | src/dma/tb/dma_psdp_ram.py:256-272 | the enabled bytes of a word are a run, with the place in the data they come from |
| PsdpRam.RowOf | src/dma/tb/dma_psdp_ram.py:274-275 | the row computed from the byte address is the row of the word's chunk |
| PsdpRam.SplitStores | src/dma/tb/dma_psdp_ram.py:238-281 | all words of a write together change memory as the write does |
| PsdpRam.AllWordsStore | src/dma/tb/dma_psdp_ram.py:233-283 | the words of any writes leave memory as the writes one after another do |
| PsdpWrite.MasterWrite.ProcessWrite | src/dma/tb/dma_psdp_ram.py:233-283 | each segment's queue gets the words of the write meant for it, in order |
| PsdpWrite.MasterWrite.Edge | src/dma/tb/dma_psdp_ram.py:310-355 | per segment: a word accepted makes way for the next unless paused, one not accepted stays, and acknowledgements are counted |
| PsdpWrite.RamWrite.Runs | src/dma/tb/dma_psdp_ram.py:722-741 | the runs found under the byte enables change memory as the enables say |
| PsdpWrite.RamWrite.WriteWord | src/dma/tb/dma_psdp_ram.py:743-745 | writing the runs changes exactly the enabled bytes |
| PsdpWrite.RamWrite.Edge | src/dma/tb/dma_psdp_ram.py:691-758 | a word lands exactly when it is offered while its segment is ready, and is acknowledged then |
| PsdpWrite.EdgeKeeps | src/dma/tb/dma_psdp_ram.py:310-355 | an edge of both ends loses and repeats no word and no acknowledgement, in any segment |
| PsdpWrite.IssueKeeps | src/dma/tb/dma_psdp_ram.py:233-283 | issuing a write keeps every word on its way exactly once |
| PsdpWrite.TokenKeeps | src/dma/tb/dma_psdp_ram.py:285-294 | counting an acknowledgement keeps the balance of words landed and counted |
| PsdpWrite.Link.Write | src/dma/tb/dma_psdp_ram.py:213-231 | a write out of range is refused and changes nothing, any other is issued |
| PsdpWrite.Link.Edge | src/dma/tb/dma_psdp_ram.py:691-758 | an edge under any grants and any pause keeps the link's invariant |
| PsdpWrite.Link.Report | src/dma/tb/dma_psdp_ram.py:285-308 | writes are reported in the order issued |
| PsdpWrite.ReportedHasLanded | src/dma/tb/dma_psdp_ram.py:285-308 | when a write is reported all its words and those of earlier writes have landed in every segment |
| PsdpWrite.ReportedVisible | src/dma/tb/dma_psdp_ram.py:233-355 | at any moment, a byte that no write after a reported one touches holds what the writes up to it make of a flat memory |
| PsdpWrite.FlatMemory | src/dma/tb/dma_psdp_ram.py:691-758 | with every write reported memory is the flat memory all of them were made to in order |
| PsdpWrite.Link.Settle | src/dma/tb/dma_psdp_ram.py:310-355 | with every segment granted and no pause all words land and are acknowledged |
| PsdpWrite.Link.Drain | src/dma/tb/dma_psdp_ram.py:285-308 | left to itself, from any state, the link reports every write, and memory is the flat one |
| PsdpWrite.WriteAll | src/dma/tb/dma_psdp_ram.py:213-355 | writes made through a fresh link leave memory as a flat memory would be |
| PsdpRead.RamPart | src/dma/tb/dma_psdp_ram.py:848-883 | what the memory holds moves on by what the master takes, the word asked for is read behind it as memory is at this edge, and it is ready exactly when it has room |
| PsdpRead.MasterPart | src/dma/tb/dma_psdp_ram.py:557-581 | requests leave in order, one accepted makes way for the next, an answer taken is queued |
| PsdpRead.EdgeOf | src/dma/tb/dma_psdp_ram.py:822-888 | an edge of both ends answers exactly the requests made, in order, with what memory holds when each is served, and without pauses comes nearer to rest |
| PsdpRead.NextBytes | src/dma/tb/dma_psdp_ram.py:504-515 | word k of a read brings exactly the next bytes of it |
| PsdpRead.Link.Read | src/dma/tb/dma_psdp_ram.py:447-465 | a read out of range or of negative length is refused, any other is issued, to return what memory holds there |
| PsdpRead.Link.AskWords | src/dma/tb/dma_psdp_ram.py:467-490 | each segment's queue gets the rows of the read meant for it, in order |
| PsdpRead.Link.Edge | src/dma/tb/dma_psdp_ram.py:534-586 | an edge with any pauses, and with memory changed anywhere but under reads in flight, keeps every segment's answers right |
| PsdpRead.Link.Report | src/dma/tb/dma_psdp_ram.py:519-532 | a read is returned with the bytes it was issued for, in the order issued |
| PsdpRead.Link.Drain | src/dma/tb/dma_psdp_ram.py:492-532 | left to itself, from any state, the link returns every read with the bytes it was issued for |
| PsdpRead.ReadAll | src/dma/tb/dma_psdp_ram.py:447-586 | reads made through a fresh link return exactly the bytes asked for, in order |
| PsdpMemory.Memory.Write | src/dma/tb/dma_psdp_ram.py:213-231 | a write beside the reads in flight is issued, or refused where it does not fit, and takes nothing from them |
| PsdpMemory.Memory.Read | src/dma/tb/dma_psdp_ram.py:447-465 | a read of bytes that no write after the first so many reported ones goes to is issued for what memory holds, or refused where it does not fit |
| PsdpMemory.Memory.Edge | src/dma/tb/dma_psdp_ram.py:691-758 | an edge of both memory ends and both masters, in either order, under any grants and pauses, keeps what every write and read in flight is to do |
| PsdpMemory.Memory.ReturnedFlat | src/dma/tb/dma_psdp_ram.py:492-532 | every read returned has brought what the writes it was to see, all of them reported when it was made, make of a flat memory, whatever else was in flight |
| PsdpMemory.RunAccesses | src/dma/tb/dma_psdp_ram.py:213-586 | accesses made one after another through both links, each waited for, are those of a flat memory, refusals included: every read brings what the writes before it left |
| PsdpMemory.FlatMore | src/dma/tb/dma_psdp_ram.py:213-231 | that flat memory changes with a write that fits, in the bytes it goes to, and with nothing else |
| Packed.SetAmong | src/dma/tb/dma_psdp_ram.py:329-343 | a field cleared and or-ed in anew reads as it was given, and every other field of the signal as before |
| Packed.BitSet | src/dma/tb/dma_psdp_ram.py:336-347 | a valid bit or-ed in or cleared is read so, and every other bit as before |
| PsdpWires.Wide.Drive | src/dma/tb/dma_psdp_ram.py:329-343 | driving one segment's field and valid bit puts it at seg times the width, and changes nothing any other segment reads |
| PsdpWires.Wide.Drop | src/dma/tb/dma_psdp_ram.py:346-347 | and so does dropping its valid bit |
| PsdpWires.BytesBack | src/dma/tb/dma_psdp_ram.py:706-716 | the bytes of a word, sent as one number with byte j at bit 8 j, are read back |
| Packed.PutReads | src/pcie/tb/pcie_if.py:656-672 | a field or-ed in above what is there is read back by shifting and masking |
| Packed.PutKeeps | src/pcie/tb/pcie_if.py:508-528 | or-ing a field in above others leaves every one of them as it was |
| TlpSegments.SegmentRead | src/pcie/tb/pcie_if.py:508-528 | a segment or-ed into all sixteen numbers of a transaction is read back from them, and the segments below it as before |
| TlpSegments.PacksMore | src/pcie/tb/pcie_if.py:490-534 | a transaction built segment by segment reads as exactly these segments |
| TlpLayout.Announces | src/pcie/tb/pcie_if.py:660-665 | a header announces data words if and only if bit 126 is set, as many as bits 96 to 105 say, 1024 for zero |
| TlpLayout.OneSegment | src/pcie/tb/pcie_if.py:653-687 | a TLP in one segment is handed over with exactly that many of its words |
| TlpLayout.AcceptedLength | src/pcie/tb/pcie_if.py:660-687 | and so is every frame the sink lets through, whatever segments it has come in |
| TlpLayout.OnTheWires | src/pcie/tb/pcie_if.py:490-534 | where in each signal the fields of segment i stand |
| TlpLayout.WordsOnTheWires | src/pcie/tb/pcie_if.py:519-526 | and its words, four bytes and a parity nibble each |
| TlpLayout.NumbersOnTheWires | src/pcie/tb/pcie_if.py:509-515 | and the fields whose widths depend on the bus |
| TlpLayout.SegmentsOfFrame | src/pcie/tb/pcie_if.py:503-534 | what the segments cut from a frame hold: the header in the first, the end in the last, the words in order, zeros behind them and their number as empty |
| TlpSegments.CutTaken | src/pcie/tb/pcie_if.py:653-687 | a segment cut from a frame takes the sink on by exactly its words, and ends the frame with the last |
| TlpBus.Source.PutFrame | src/pcie/tb/pcie_if.py:503-534 | what the source ors in, field by field and word by word, is the segment specified, function numbers cut to their fields |
| TlpBus.Source.Emit | src/pcie/tb/pcie_if.py:503-534 | the segment of the current frame is or-ed in, and the frame moves on by its words |
| TlpBus.Source.MakeTransaction | src/pcie/tb/pcie_if.py:490-534 | the packed transaction, read back, brings a sink exactly from the place of the source before it to the one after, across ends and beginnings of frames |
| TlpBus.Sink.TakeTransaction | src/pcie/tb/pcie_if.py:648-691 | the segment loop, shifting and masking every field out, has the effect of the frame specification, framing errors included |
| TlpSegments.AcceptedAgrees | src/pcie/tb/pcie_if.py:660-687 | whatever it is given, every frame the sink lets through has as much data as its header says |
| TlpBus.Link.Edge | src/pcie/tb/pcie_if.py:454-481 | under any pauses of either side a transaction waits on the bus until it is accepted, and frames stay in order |
| TlpBus.Link.Drain | src/pcie/tb/pcie_if.py:613-691 | all queued frames arrive and no framing assertion has fired |
| TlpBus.Deliver | src/pcie/tb/pcie_if.py:483-536 | for every segment count and every field width the frames queued on a fresh bus come out with the same headers, data, parity and sideband, function numbers modulo their field widths, in order |
| I2cInit.WordReads | src/eth/example/HTG9200/fpga/pll/si5341_i2c_init.py:235-269 | each command word passes exactly the interpreter's test for its command, with its operand |
| I2cInit.RunsPlain | src/eth/example/HTG9200/fpga/pll/si5341_i2c_init.py:376-437 | plain commands are executed one after another |
| I2cInit.OneRound | src/eth/example/HTG9200/fpga/pll/si5341_i2c_init.py:468-577 | one address of an address block runs the data block with its starts going there and returns behind that address |
| I2cInit.LeavesTable | src/eth/example/HTG9200/fpga/pll/si5341_i2c_init.py:438-577 | in any table state a halt stops the bus and the program, an exit goes on behind it, and the start of a data block begins a table anew |
| I2cInit.RunsBlocks | src/eth/example/HTG9200/fpga/pll/si5341_i2c_init.py:438-577 | a data block followed by an address block does what the data block written out once per address does |
| I2cInit.UnrolledProgram | src/eth/example/HTG9200/fpga/pll/si5341_i2c_init.py:335-584 | a program of straight commands and any number of blocks ends with exactly the bus operations of the program with the blocks written out |
| I2cInit.WorksItems | src/eth/example/HTG9200/fpga/pll/si5341_i2c_init.py:376-577 | wherever it stands in the ROM, a list of straight runs and blocks does what it does written out, in the steps counted |
| I2cInit.RunsProgram | src/eth/example/HTG9200/fpga/pll/si5341_i2c_init.py:335-584 | with a halt behind it it does so from the start, stops the bus and is idle |
| I2cCompile.Compile | src/eth/example/HTG9200/fpga/pll/si5341_i2c_init.py:9-51 | the loop over the list produces the specified commands, page and address writes left out where they are known; among them are as many delays of ten as the list has delay comments, and no other delay |
| I2cCompile.LinesBecome | src/eth/example/HTG9200/fpga/pll/si5341_i2c_init.py:29-49 | what the first line of a list becomes, command by command, and a line that goes on behind another, in its page or the next |
| I2cCompile.DelayPlace | src/eth/example/HTG9200/fpga/pll/si5341_i2c_init.py:22-27 | the delay a comment asks for stands directly behind what the lines before it have been compiled to |
| I2cCompile.AfterReg | src/eth/example/HTG9200/fpga/pll/si5341_i2c_init.py:29-49 | the commands for a register line write exactly its byte, provided what is remembered is true, and what is remembered afterwards is true |
| I2cCompile.Follows | src/eth/example/HTG9200/fpga/pll/si5341_i2c_init.py:9-51 | over a whole list the remembered page and address stay what the device was given, and the device has had, besides the page selections, each line own byte at the address its page and pointer make of it |
| I2cCompile.WritesListed | src/eth/example/HTG9200/fpga/pll/si5341_i2c_init.py:9-51 | of all a paged auto-incrementing device has had written, page selections apart, exactly the listed writes in order if and only if every address has 16 bits and no line straying to another page is followed by one of its own page |
| I2cCompile.DelayHeard | src/eth/example/HTG9200/fpga/pll/si5341_i2c_init.py:22-27 | on the bus there is a wait where a line asks for it, and up to there exactly the bytes listed before it have been written if and only if their addresses have 16 bits and no straying line is followed by one of its page |
| I2cCompile.AstrayList | src/eth/example/HTG9200/fpga/pll/si5341_i2c_init.py:36-43 | a list of two lines whose second byte goes to another page than listed |
| I2cFsm.WireCarries | src/eth/example/HTG9200/fpga/pll/si5341_i2c_init.py:314-331 | the two outputs, put together by giving each write command the next byte, are the operations executed, delays apart |
| I2cFsm.CarriedSoFar | src/eth/example/HTG9200/fpga/pll/si5341_i2c_init.py:346-353 | what has been accepted is at any time a beginning of that, and all of it when neither output is waiting |
| I2cFsm.RoundMore | src/eth/example/HTG9200/fpga/pll/si5341_i2c_init.py:346-353 | edges among which either output has been ready, together or not, complete a round more |
| I2cFsm.Module.Handshake | src/eth/example/HTG9200/fpga/pll/si5341_i2c_init.py:346-353 | an output that is ready is accepted once, and the interpreter's state does not change |
| I2cFsm.Module.Execute | src/eth/example/HTG9200/fpga/pll/si5341_i2c_init.py:365-582 | a state's next-state logic is one step of the interpreter |
| I2cFsm.Module.Clock | src/eth/example/HTG9200/fpga/pll/si5341_i2c_init.py:335-634 | an edge waits for the outputs or the delay, or executes exactly one command, or starts the program; a write shows its byte and the address, a stop the address, a delay of d sets the counter to 2^(d + 16), or 2^d in a simulation that asks for it |
| I2cFsm.Module.Rest | src/eth/example/HTG9200/fpga/pll/si5341_i2c_init.py:357-361 | while a delay lasts nothing is executed and nothing put out, for as many edges as the counter says |
| I2cFsm.Module.RunToEnd | src/eth/example/HTG9200/fpga/pll/si5341_i2c_init.py:335-634 | whatever the outputs are offered, a beginning of the program has been executed and of its operations accepted, once and in order, and all of them at its end; it ends after enough rounds in each of which either output has been ready once, together or not |
| I2cHost.Master.Edge | src/lss/rtl/taxi_i2c_master.sv:289-560 | the master takes a command or a byte only when it offers to, puts each byte on the bus behind the starts and stops it owes, and comes nearer to its next offer unless others hold the bus |
| I2cHost.Board.Edge | src/eth/example/HTG9200/fpga/rtl/fpga_core.sv:109-165 | an edge of module and master, wired together, keeps both and what the bus has carried, and brings the program nearer its end |
| I2cHost.Board.Run | src/eth/example/HTG9200/fpga/rtl/fpga_core.sv:109-165 | however long bus operations take and whenever others hold the bus, a program ends, with exactly its operations taken |
| I2cHost.FreeBus | src/lss/rtl/taxi_i2c_master.sv:289-560 | with the bus free, 19 times the longest operation and one for each of these are enough with the master |
| I2cBus.AlikeEdge | src/lss/rtl/taxi_i2c_master.sv:326-412 | if writes stand behind a start or another write, any device has written for the starts, bytes and stops on the bus what it would have for the commands taken |
| I2cBus.JoinedTight | src/eth/example/HTG9200/fpga/pll/si5341_i2c_init.py:376-437 | a list in which every write stands directly behind a start or a write leaves the master no time to stop before it |
| I2cBus.CompiledJoined | src/eth/example/HTG9200/fpga/pll/si5341_i2c_init.py:18-49 | every compiled list is such a list, because the address is forgotten at a delay |
| I2cBringUp.DelaysUnseen | src/eth/example/HTG9200/fpga/pll/si5341_i2c_init.py:398-408 | the device is the same with and without the delays |
| I2cBringUp.DelaysKept | src/eth/example/HTG9200/fpga/pll/si5341_i2c_init.py:9-51 | in the operations of the program the list is part of there are as many waits as it asks for, each where, of the lines' own bytes, exactly those listed before it have been written |
| I2cBringUp.RunProgram | src/eth/example/HTG9200/fpga/pll/si5341_i2c_init.py:335-634 | on the clocked module a program with any blocks puts out a beginning of the bus operations of the program written out, under any stalls, and exactly them once it is over, which it is after enough rounds in each of which either output has been ready |
| I2cBringUp.PlainEnough | src/eth/example/HTG9200/fpga/pll/si5341_i2c_init.py:335-634 | the edges that are enough for a program without blocks: three for every command, and the cycles it waits |
| I2cBringUp.RunOnBoard | src/eth/example/HTG9200/fpga/rtl/fpga_core.sv:109-165 | the same with the bus master the module is wired to, however long its operations take; and for programs in which every write stands behind a start or a write, of the bus itself |
| I2cBringUp.Initialise | src/eth/example/HTG9200/fpga/pll/si5341_i2c_init.py:9-51 | the compiled list behind any other start of the program, run on the module: the device has had a beginning of the listed writes at any time if every address has 16 bits and no straying line is followed by one of its page, and when the program is over exactly the listed writes if and only if so; every delay comment has its wait between the bytes it stands between, and the program takes 2^26 cycles for each |
| I2cBringUp.InitialiseOnBoard | src/eth/example/HTG9200/fpga/rtl/fpga_core.sv:109-165 | the same of what the device makes of the bus, with a master that may stop whenever no command is there |

## Left out

- Kernel and DPDK services (DMA mapping, NAPI, skb and mbuf contents, locks, barriers): pages, packets and buffers are identities, transmits are serialised with each other and polls with each other, and steps are sequentially consistent.
- Short frames and DMA mapping failures in cndm_start_xmit, which free the packet without touching the ring; hardware time stamps everywhere.
- Queue creation and destruction through the mailbox, and DPDK queue close, whose buffer release is not written yet.
- EventQueue.ProcessEq: events stop arriving at some point; a run in which they never do is EventQueue.Turns.
- Resets, clock enables, simulation time stamps and occupancy limits of the test-bench models.
- PcsLink.Deliver: no ordered sets, repetition or bit slip, frames of at least eight octets without error octets, a header valid signal whenever a block takes several beats, and a data valid signal or equal schedules for the stalls.
- PcsMac.Source.Send: without the occupancy limits that make send wait for room.
- Gearbox.Counter.Cycle: delays derived from the count are simulation time and not modelled.
- TwisterMixed.WordAfterBatches: one draw in the middle of a batch; what numbers follow a mix there is not followed.
- PtpTd.SinkLocks: for a period below 256 ns and constant rate, no set calls or resets, and td_delay in 1..255; the sink's offset fields, which only store what messages carry, are not part of the model.
- PtpTd.Carried: the two flag bits of a message say that the time was set; nothing reads them.
- PsdpWrite.Link.Write: a write is split as soon as it is made, where the source has a queue without a bound between (`queue_occupancy_limit` is set on a cocotb Queue, which bounds itself by `maxsize` alone).
- PsdpRead.Link.Read: a read is split as soon as it is made, in the same way.
- PsdpMemory.Memory.Write: only beside reads in flight; the bytes of a read that a write overtakes depend on the edges and are not described. The response pipeline has the one stage the source gives it.
- PsdpWrite.MasterWrite.Edge: the fields of a segment are values of their own; that the wide signals carry them without touching each other is proved by itself, in PsdpWires.
- PsdpWrite.RamWrite.Edge: the same.
- PsdpRead.RamPart: the same.
- PsdpRead.MasterPart: the same.
- TlpBus.Deliver: header packing is not part of the model, so a header is its 128 bits; fields other than the function numbers are within their widths and data agrees with the header's length; all optional signals are there, and tlp_abort is not carried.
- I2cFsm.Module.Clock: addresses do not wrap; past the end of the ROM the word is taken as a halt. The busy output, a delayed copy of the state, is left out.
- I2cCompile.Compile: starts from lines already taken apart into blank, comment and register lines; comments in the output are not modelled.
- I2cBringUp.Initialise: what stands before the list has to leave the device with no write, or the log would begin with it.
- I2cBringUp.RunOnBoard: the bus itself is described for programs in which every write stands behind a start or another write; elsewhere a master that stops on idle starts anew, which a device can notice.
- I2cHost.Master.Edge: read commands and missed acknowledgements, which the init module does not use, and the bits on the two wires; the bit engine is the time it takes.
- The other init scripts, the cndm_proto drivers and src/cndm/tb/cndm.py, which repeat these algorithms in simpler form; pyrite utilities, fpga_id, basex.py, and the benches for RTL.
- PhaseQueue.PhaseQueue.constructor: a ring of more than 0x8000 entries is built and nothing is promised of its use; PhaseQueue.LargeNeverFull says what 16 bits do not tell apart from 0x10000 on.
