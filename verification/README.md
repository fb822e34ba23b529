# SD host controller driver: model and proofs

A Dafny model of an SD-card driver component: the host controller driver with its command queue and
interrupt handler (`sdhc.c`), the card layer (`mmc.c`), the block storage service on top of it
(`SdHostController.c`) and the SD clock set-up (`plat/rpi3/plat_sdhc.c`, the same code as in
`plat/rpi4/plat_sdhc.c`). `dafny verify dfyconfig.toml` checks all of it.

## What is proved

* **Queue and handler.** The driver is a class over heap-allocated commands linked through `next`, with
  a tail slot that is either the head field or the `next` field of the last command. Every operation
  keeps the shape and is proved equal to a function on values (`HostModel`): `SdhcDev.HandleIrq` is
  `Irq`, `SdhcDev.SendCmd` is `Send` or `BlockingSend`. Callbacks re-enter without restriction of kind:
  they submit commands of their own, start transfers of the block layer, and block in the driver, polling
  the handler they were called from.
* **Whole runs.** Over every interleaving of submissions and interrupts, commands reach the bus in
  submission order, each once and only as head, at most one at a time; completions and callbacks come in
  that order and once. A blocking send returns with the first event after which its own command has
  completed, after all earlier ones. It does return, within a stated number of polls, when each head
  completes within a bounded number of events of becoming head; nothing is asked about commands that are
  not at the head.
* **Commands and answers in bits.** What a command puts on the bus is read back from the registers latched
  when it starts: argument, transfer type, enabled interrupts, block size, block count, timeout and DMA
  address. What comes back is told from the status words and response registers of the events observed:
  verdict and code by bit positions, each word of the response array by the event that brought it.
* **Memory.** Command, data segment and completion token of a transfer are freed exactly once on every
  path: failed allocation, synchronous success or error, completion callback. No method touches a command
  of which anything has been freed, and what is queued has not been.
* **Storage.** Requests are admitted exactly when, over the integers, they are aligned and in range. For
  every pattern of lock, allocation, transfer and unlock failures the count reported is that of the
  successful prefix of blocks. Against a card and controller that obey the protocol a successful write
  stores exactly the requested bytes and a successful read loads them, so that writing and reading back
  returns the data, for cards addressed by block and by byte, whatever the interrupt thread does between
  the blocks and between the calls.
* **Two threads.** In all interleavings of RPC and interrupt threads the interrupt thread only ever
  acknowledges status bits: the queue is empty whenever it holds the mutex. The block loops of the service
  are such interleavings.
* **Answers of the service.** A call answers by an exact table: card absent, then malformed, then out of
  bounds, each with no bytes; otherwise success with all bytes, or aborted with fewer.
* **Card.** Bit slicing, register realignment and the decoding of the CSD are arithmetic on the 128-bit
  register value; the capacity is the one sections 5.3.2 and 5.3.3 of the SD Physical Layer Simplified
  Specification define. Initialisation succeeds exactly when the card's replies meet a stated condition, and
  then it has sent one determined sequence of commands, which takes the card of section 4.3 of that
  specification from any state to the transfer state, selected by its own address, on a four-bit bus, with
  512-byte blocks. After a start-up that kept no card every request is refused.
* **Clock.** The divider field decodes to the least sufficient divider, and the register is changed in
  the order of section 3.2 of the SD Host Controller Simplified Specification 3.00.

## How the pieces fit

| file | content |
|---|---|
| `Base`, `WordBits`, `Registers` | bytes, words, shifts; register words as 32-bit vectors |
| `HostModel` | the handler, the queue, callbacks and the polling loop as functions on values |
| `QueueRuns` | runs: order, exactly-once, what is latched on the bus, completion and termination of blocking sends |
| `Responses` | what a command brings back: response words and code, by the bits of the events observed |
| `Memory`, `Commands` | the heap; the driver's records and who owns the memory of queued ones |
| `HostController` | the driver class and the block layer's transfers, proved against `HostModel` |
| `CardRegisters`, `CardInit`, `InitOnBus` | register decoding and capacity; the initialisation handshake, and its commands on the bus |
| `CardStates` | the card's states during the handshake, and where it ends |
| `ClockControl` | divider selection and the clock change sequence |
| `StorageService` | start-up, validation and the block loops |
| `CardModel`, `EndToEnd` | a card behind the bus; what requests do to its bytes |
| `MutexProtocol` | the interleavings of RPC and interrupt threads |

One call of the handler is driven by an `Event`: the status word read, the response registers, the words
the data port delivers and the calls a callback makes into the driver, each with the events its own polling
loop observes. A `script` is what successive handler calls observe; the proofs quantify over all of them. A
failed C `assert` stops the component (`Crash`, `Died`): no claim is made about a state after it, and
exactly when it happens is part of the contracts. Progress of the controller is assumed only where a
theorem names it (`Prompt`), obedience of the card likewise (`Obeys`).

The block layer's `transfer_data` stands in `HostController` beside the driver class, because the two call
each other: a completion callback may start the next transfer.

The handler completes whatever command is at the head when transfer-complete is set, and commands
without data, R1b ones too, already on command-complete. That a status word belongs to the head command
is therefore an assumption on the environment. It is part of `Obeys`; the queue theorems do not need it.

## Where the code differs from what it documents

* `OS_ERROR_INVALID_STATE` is documented (`SdHostController.c:400`) but never returned: the mark of an
  uninitialised service has the card-absent bit set (`OnlyAbsenceIsNoticed`).
* The completion callback always hears status 0 (`sdhc.c:320`), so the error branch at `mmc.c:416-418` is
  dead, and it always hears the full length. The report is right exactly when the status word that completed
  the command had no error bit and the whole buffer went through: by DMA, or as the one block it is
  (`TruthfulIffDelivered`). It is wrong for a command that timed out (`TimeoutIsReportedAsSuccess`), for two
  blocks moved by the driver, which both go through the first 512 bytes (`TwoBlocksLandInOne`), and for a
  transfer that completes without its buffer having been ready (`NothingMovesWithoutBufferReady`).
* Of the errors the handler tests, auto-CMD12 and DMA errors are never enabled, so code -10 cannot occur.
  Over-current is enabled and only logged, but shows in the summary bit and so ends the command with -1, the
  code of a card removal (`VerdictUnderMask`, `OverCurrentLooksLikeRemoval`).
* The voltage loop makes up to twelve rounds although only the first ten can succeed
  (`ReadyByTheTenth`).
* The card's clock exceeds the target exactly when the quotient of base clock and target is beyond the
  host's limit, or is met exactly by a divisor and leaves a remainder (`NotTooFast`): at 201 MHz the
  operational clock is 25.125 MHz (`TooFastAt201MHz`). A host older than version 3.00 that would need a
  divider of 256 gets 0, the undivided clock (`UndividedOnOldHosts`).
* The storage area check alone is right exactly for storage sizes that are not negative; the guard in
  front of it is needed for the capacity -1 of an unreadable card (`AreaCheckNeedsItsGuard`).
* A bit slice of size 0, which no caller asks for, yields 32 bits (`SliceIsQuotient`).

## Model

| member | source | states |
|---|---|---|
| HostController.SdhcDev.constructor | sdhc.c:492-493 | the queue starts empty with the tail slot at the head field |
| HostController.SdhcDev.NextCmd | sdhc.c:57-148 | starting the head command makes the register writes of `Issue`, which put on the bus what `IssueOnBus` says, and arms the block counter |
| Registers.TransferType | sdhc.c:104-146 | the word assembled bit by bit, by clearing and setting fields, is the transfer type of `TransferTypeIsDecodable` |
| Registers.TransferTypeIsDecodable | sdhc.c:104-146 | decoding the transfer type gives back index, response length, checksum and index checks, presence and direction of data, single or multiple blocks and DMA, and nothing else is set |
| Registers.ResponseTypeIsEncoded | sdhc.c:111-139 | per response type the length field and the two check bits are those the specification asks for, no other bit |
| Registers.TransferModeIsEncoded | plat/rpi3/plat_sdhc.c:178-194 | multi-block, read direction and DMA each have their own bit, set exactly when they apply, and no bit of another field is set |
| Registers.WordsOfCommands | sdhc.c:104-146 | the transfer type of every command of the driver, and the interrupt mask, as numbers |
| Registers.AttributesAreDecodable | sdhc.c:90-93 | the block attributes hold the block size in bits 11:0 and the count in bits 31:16, in full when they fit, and nothing in between |
| Registers.TimeoutIsDefault | sdhc.c:84-88 | bits 23:16 of the system control register become 0x0E, all others stay |
| HostModel.VerdictUnderMask | sdhc.c:62-71 | what the status register can show under the mask written before a start, summary bit included: code -10 never occurs, -1 means card removal or over-current without an error of its own code, other codes are those of the conditions, and DMA never asks for data movement |
| HostModel.OverCurrentLooksLikeRemoval | sdhc.c:169-175 | over-current, which the handler only logs, ends a transfer with the code of a card removal |
| HostController.SdhcDev.Link | sdhc.c:357-359 | writing through the tail slot appends to the chain and keeps its shape |
| HostController.SdhcDev.Submit | sdhc.c:352-367 | queue shape and ownership are kept, the command is last, and it is started iff the queue was empty |
| HostController.SdhcDev.RecordErrors | sdhc.c:165-232 | the completion code is the one of `CodeByBits`, and untouched when no error bit is set |
| HostModel.CodeByBits | sdhc.c:165-232 | by register bits: each code is given exactly when its error bit is set and none that goes before it (-2 bit 16, -3 bit 17, -4 bit 18, -5 bit 19, -6 bit 20, -7 bit 21, -8 bit 22, -11 bit 25, -10 bit 24, -1 bit 7 before all, bit 28 and the summary bit last), and success exactly when all of them are clear |
| HostModel.JudgeInOrder | sdhc.c:165-302 | the verdict on a status word (abort, running, done with code) is what the sequence of tests and assertions arrives at |
| Responses.VerdictByBits | sdhc.c:165-302 | when a status word trips an assertion, completes the head with 1, with an error or not at all, by its bits, the presence of data and the buffer |
| HostController.SdhcDev.SaveResponse | sdhc.c:244-264 | the saving step leaves the response array that `HandlerSaves` describes word by word |
| Responses.HandlerSaves | sdhc.c:243-264 | in any handler call on any queue: with status bit 0 the head's array gets all four registers (R2), none (no response), word 3 alone (R1b to CMD12) or word 0 alone (all others), the other words as they were; without it nothing; the commands behind are left alone, and a completion carries that array |
| Responses.SendBrings | sdhc.c:243-380 | a blocking send on an idle host returns the code that the bits of its last event's status word stand for, and the response of the last event that had one, over the array as submitted, also when the response came in an earlier event than the end of the transfer |
| Responses.PlainCommandBrings | sdhc.c:243-380 | when a command without data returns 1, the last event had no error bit, and either bit 0, and then the array holds that event's registers, or bit 1 instead, and then it is as submitted |
| HostController.SdhcDev.ReadBlock | sdhc.c:281-287 | the word copy loop puts exactly one block of port words at the buffer, little-endian, and changes no other byte |
| HostController.SdhcDev.WriteBlock | sdhc.c:288-293 | the port receives exactly the words of the buffer in order |
| HostController.SdhcDev.Evaluate | sdhc.c:165-304 | an assertion fails iff the verdict is abort; otherwise completion code, response, data and acknowledgement are those of the verdict |
| HostController.SdhcDev.Unhook | sdhc.c:306-317 | the head is unlinked, shape kept, its `next` cleared, and its successor started iff there is one |
| HostController.SdhcDev.Complete | sdhc.c:306-322 | unlink, start the successor, report, call back: equal to `Retire` and the calls the callback makes; shape, ownership and memory are kept although the callback re-enters and may block |
| HostController.SdhcDev.MakeCalls | sdhc.c:318-321 | the calls of a callback, asynchronous or blocking, own commands or block transfers, do what the value model says and come back with queue and memory in order |
| HostController.SdhcDev.HandleIrq | sdhc.c:154-325 | the handler on the linked structure equals `Irq` on values; shape and memory are kept, commands that completed, in nested polling too, are recorded and out of the queue, the others have moved up |
| HostController.SdhcDev.Await | sdhc.c:369-380 | the polling loop computes `Poll`: it ends with this command completed, intact, out of the queue and out of the tail slot, and returns 0 or its negative code |
| HostController.SdhcDev.SendCmd | sdhc.c:342-385 | with a callback the command is queued and left; without one it is a `BlockingSend`, after which nothing refers to the command |
| HostModel.DoneIsNonzero | sdhc.c:307 | only a nonzero code takes a command out of the queue |
| QueueRuns.IssueOnBus | sdhc.c:57-148 | after the register writes of a start, exactly that command is on the bus, and what is latched then (argument, transfer type, interrupt mask, block size, count, timeout, DMA address when DMA is on) is what the command asks for |
| QueueRuns.IrqKeepsOrder | sdhc.c:154-325 | a handler call, with all its callback does and waits for, keeps queue, bus, completions and callbacks in submission order and only adds to the history |
| QueueRuns.StepKeepsOrder | sdhc.c:154-385 | so does every submission and every handler call |
| QueueRuns.RunsKeepOrder | sdhc.c:154-385 | the same for runs of any length |
| QueueRuns.BusFollowsSubmissions | sdhc.c:57-385 | from the initial state the bus shows a prefix of the submissions, each once; at most one command is in flight, and none is only when all are completed; completions and callbacks follow, each once |
| QueueRuns.CallbacksHearSuccess | sdhc.c:318-321 | in every run every callback is passed status 0, whatever the completion code |
| QueueRuns.TruthfulIffDelivered | mmc.c:413-420 | over all runs the report on a completion goes to the callback of its command, and is truthful, status and bytes transferred, iff the status word that completed the command had no error bit and, for a block transfer, the whole buffer was transferred: by DMA, or as one block that moved |
| QueueRuns.OneReportEach | sdhc.c:318-321 | there are as many reports as completed commands with a callback |
| QueueRuns.CopiesAreCounted | sdhc.c:272-297 | a handler call moves one block of ceil(size / 4) words, into the buffer with status bit 5 and out of it with bit 4 alone, when blocks remain, and counts one; otherwise it moves and counts nothing; it always acknowledges the status it read |
| QueueRuns.FinishStartsSuccessor | sdhc.c:306-317 | a completion adds the start of the next command to the bus, and nothing when there is none |
| QueueRuns.TwoBlocksLandInOne | sdhc.c:279-286 | a two-block read is reported as 1024 bytes while only 512 bytes of memory are written |
| QueueRuns.NothingMovesWithoutBufferReady | sdhc.c:298-302 | a transfer that completes before its buffer was ready is reported as 512 bytes while none moved |
| QueueRuns.TimeoutIsReportedAsSuccess | mmc.c:413-420 | a block transfer that timed out with code -2 is reported as 512 bytes moved |
| QueueRuns.PollIsARun | sdhc.c:371-374 | a polling loop is the run of the handler over the events it used, and ends with the first of them after which the awaited command has completed |
| QueueRuns.BlockingSendCompletes | sdhc.c:361-380 | when a blocking send returns all commands before it have completed in order and then itself, with its own code and response, and it did not return later than that |
| QueueRuns.CompletionCallsBack | sdhc.c:306-322 | a completion takes the head out and, when it has a callback, appends all that this asks for, in order; without one nothing is submitted |
| QueueRuns.CallIsMade | sdhc.c:317-322 | a call made by a callback submits its command, unless its transfer lacks memory, and if it blocks it comes back with that command completed |
| QueueRuns.PollEnds | sdhc.c:371-374 | each polling round decreases (commands ahead, events left for the head), so the loop ends within the stated number of rounds, nested loops included |
| QueueRuns.BlockingSendEnds | sdhc.c:361-380 | when each head completes within `bound` events of becoming head, a blocking send behind n commands ends within bound * (n + 1) polls |
| QueueRuns.UnlikeCommandsArePrompt | sdhc.c:243-302 | a controller that completes a command without data and a block read behind it, each in its own events, meets that assumption |
| HostController.NewCommand | mmc.c:118-135 | a new command without data, allocated or not, shared with nothing in the queue |
| HostController.BuildCommand | mmc.c:523-536 | command and data segment with the transfer's argument and buffer, or nothing left allocated |
| HostController.Release | mmc.c:162-168 | a live command that is not queued and whose memory no queued command uses is freed with its segment; the queue stays intact |
| Commands.OwnedWithout | mmc.c:162-168 | memory that no queued command uses can be freed without touching what queued ones own |
| HostController.TransferBlocks | mmc.c:494-570 | without a callback: result of the blocking send or -1, and the memory at rest is afterwards what it was before |
| HostController.StartTransfer | mmc.c:494-570 | with a callback: queued with everything it allocated in flight, or nothing sent and nothing left allocated |
| HostController.SdhcDev.BlockopCompletion | mmc.c:403-424 | the client hears of the bytes moved and may start the next transfer or block; then command, segment and token, untouched by that, are freed once each |
| HostController.KeepsReleased | mmc.c:419-423 | whatever a client's callback queued shares nothing with the three objects freed after it, and memory is accounted for |
| HostController.KeepsOn | sdhc.c:317-322 | calls that keep memory keep it in sequence: nothing is lost, and freed is only what was in flight or new |
| CardModel.DirectionOnBus | sdhc.c:82-146 | a single-block read is a read of one block of 512 bytes on the bus, a single-block write a write of one |
| CardModel.TransferOnBus | mmc.c:506-551 | a block transfer on the bus: the address in the card's unit cut to 32 bits, a checked short response, so many blocks of 512 bytes, DMA and its address exactly when there is a physical address |
| CardModel.SendReachesBus | sdhc.c:352-367 | a send on an idle host puts its one command on the bus and pushes no data |
| CardModel.PollTransfers | sdhc.c:272-302 | while one transfer is polled to its end its block moves at most once, and success means that it moved |
| CardModel.TransferEffect | sdhc.c:272-380 | a blocking transfer that returns success has moved exactly its block between buffer and addressed card block; failed ones touch nothing else |
| EndToEnd.AddressIsTrue | mmc.c:506-511 | the 32-bit argument is the true card address iff block number or byte address fits 32 bits |
| EndToEnd.AdmittedIsOnCard | SdHostController.c:433-447 | every admitted request, on a card whose CSD and capacity class agree, lies on the card and is addressed without loss |
| EndToEnd.IdleStaysIdle | SdHostController.c:345-386 | the interrupt thread's handler calls between blocks leave an idle host idle and only acknowledge |
| EndToEnd.LoopWrites | SdHostController.c:446-514 | for every failure pattern the counted blocks are on the card in order from consecutive chunks, at most the one failed block more is touched, nothing else |
| EndToEnd.LoopReads | SdHostController.c:586-654 | the converse for reads, the card unchanged |
| EndToEnd.WriteStores | SdHostController.c:408-525 | a write answers success iff all bytes count; then the card is the old one with the dataport's bytes at the offset; counted bytes are always stored, and at most the failed block beyond them is touched |
| EndToEnd.ReadLoads | SdHostController.c:548-664 | the converse: dataport filled with the card's bytes, other memory and card unchanged |
| EndToEnd.WriteThenRead | README.md:124-180 | writing blocks and reading them back returns the data, whatever happened to memory and in the interrupt thread in between |
| EndToEnd.RpcWriteStores | SdHostController.c:408-525 | a write call answers success iff admitted with all bytes counted; then card bytes [offset, offset+size) are dataport bytes [0, size) and no other changed; bytes outside the range never change |
| EndToEnd.RpcReadLoads | SdHostController.c:548-664 | a read call, conversely; the card and memory outside the range never change |
| EndToEnd.RpcWriteThenRead | README.md:124-180 | a successful write call and a successful read call for the same range return the data to the dataport |
| StorageService.ValidationIsExact | SdHostController.c:141-199 | each of the three outcomes holds exactly under its condition over the integers |
| StorageService.AreaCheckNeedsItsGuard | SdHostController.c:82-100 | the area check alone is exact iff the storage size is not negative |
| StorageService.OnlyAbsenceIsNoticed | SdHostController.c:249-262 | the result is DEVICE_NOT_PRESENT iff the card-absent bit is set, before start-up too, and otherwise success; INVALID_STATE never is |
| StorageService.AdmissionIsExact | SdHostController.c:423-444 | a request is admitted iff initialised, both locks granted, aligned, within the dataport and within a positive capacity; never without a card |
| StorageService.SdHostController.PostInit | SdHostController.c:265-343 | a card is kept iff the handshake initialised it, with its own address and capacity; without one every later request is refused and nothing stays allocated; the error mark is 1, 2, 4, 8 or 16 for the first stage that failed, and 0 only with a card |
| StorageService.SdHostController.IrqHandle | SdHostController.c:345-386 | the interrupt thread's entry point is one handler call when start-up kept a card and the lock is granted, nothing when start-up is refused or the lock is, and a fault on the null card after a start-up that failed unnoticed |
| StorageService.SdHostController.Admit | SdHostController.c:425-444 | the verdict computed is the one of `RulingByTable`, and an admitted request has a card |
| StorageService.RulingByTable | SdHostController.c:423-444 | card absent first, then malformed (a lock refused, no positive capacity, misaligned, negative, larger than the dataport), then beyond the capacity, else success |
| StorageService.SdHostController.TransferLoop | SdHostController.c:452-514 | the loop over the class state, with the interrupt thread's turns between rounds, ends as `BlockLoop` does, with memory at rest as before |
| StorageService.SdHostController.StorageRpcWrite | SdHostController.c:408-525 | rejected or empty requests change nothing; others perform the block loop for writes. The answer is exact: DEVICE_NOT_PRESENT iff the card-absent bit is set, else INVALID_PARAMETER iff malformed, else OUT_OF_BOUNDS iff beyond the capacity, each with 0 bytes, else SUCCESS with all bytes or ABORTED with fewer whole blocks |
| StorageService.SdHostController.StorageRpcRead | SdHostController.c:548-664 | the same for reads |
| StorageService.CountIsSuccessfulPrefix | SdHostController.c:456-525 | the count is the length of the successful prefix: every block before it succeeded and the next one did not |
| MutexProtocol.StepKeepsExclusive | SdHostController.c:345-386 | every step of either thread keeps: the queue is empty unless an RPC polls for its one command |
| MutexProtocol.InterleavingsKeepExclusive | SdHostController.c:345-513 | the same over all interleavings |
| MutexProtocol.IrqThreadOnlyAcknowledges | SdHostController.c:356-372 | in every reachable state the interrupt thread writes back the status and changes nothing else |
| MutexProtocol.RpcFinishesItsOwn | SdHostController.c:474-513 | what completes while an RPC polls is its own command, and the queue is empty then |
| MutexProtocol.LoopIsAnInterleaving | SdHostController.c:456-514 | the block loop of a request, with the interrupt thread between its rounds, is such an interleaving, from a free mutex to a free or abandoned one |
| CardRegisters.SliceIsQuotient | mmc.c:25-54 | a slice is the 128-bit value divided by 2^start, modulo 2^size, word boundaries or not |
| CardRegisters.Realign | mmc.c:212-216 | the in-place shift of four words is multiplication by 256 modulo 2^128 |
| CardRegisters.BytesMoveUp | mmc.c:236-241 | the same, word by word: each gets the top byte of the one below |
| CardRegisters.CsdIsDecoded | mmc.c:87-116 | every decoded field is the field at its place in the raw response, for both versions of the register, and other versions are refused |
| CardRegisters.CapacityIsDeclared | mmc.c:617-640 | realignment, decoding and capacity arithmetic together give the specification's formula on the raw response |
| CardRegisters.CapacityBounds | mmc.c:87-116 | capacities lie in 4..2^36 for version 1 and 2^19..2^41 for version 2, at most 2^32 for block lengths of 2^9 to 2^11 |
| CardInit.ResetCard | mmc.c:354-401 | the reset succeeds iff the card echoes voltage and pattern without error |
| CardInit.WaitUntilReady | mmc.c:315-330 | the loop makes one to twelve rounds, stopping at the first ready reply |
| CardInit.ReadyByTheTenth | mmc.c:315-335 | it succeeds iff some round up to the tenth is ready |
| CardInit.ValidateVoltage | mmc.c:280-352 | on success the stored OCR has the ready bit and the capacity class is its bit 30 |
| CardInit.RegisterCard | mmc.c:194-275 | fails iff the first request does; otherwise the requests of a registration carry the address the card chose (in numbers: `TraceInNumbers`); registers stored realigned |
| CardInit.InitCard | mmc.c:426-492 | success exactly when there is memory, both host steps succeed and the card's replies are as `Answers` states; it sends exactly `InitTrace` and hands out a card with its own address and capacity; failure hands out no card and frees it, and `Aborted` is exactly when an assertion of the code stops it |
| CardStates.TraceInNumbers | mmc.c:194-492 | index, argument and response type of every request of that trace: CMD9, CMD13, CMD7 and the last CMD55 carry the card's address in the upper half, ACMD6 carries 2, CMD16 with 512 is last exactly for a card addressed by byte |
| CardStates.HandshakeSelects | mmc.c:194-492 | a card in any state that answers as a success needs it is taken through ready, identification and stand-by to the transfer state, selected by the address it chose, on four bits, with block length 512 iff addressed by byte; no request is illegal in its state or made to another card |
| CardInit.ApplicationCommandsAreAnnounced | mmc.c:285-328 | in that trace every application command directly follows its announcement |
| InitOnBus.InitialisationOnBus | mmc.c:194-492 | made as blocking sends on an idle driver, the requests of the trace are exactly what the controller sees on the bus, in order, each with its index, argument and response type |
| InitOnBus.DialogueOnBus | sdhc.c:342-385 | the same for any dialogue of blocking requests |
| ClockControl.GetClockDivider | plat/rpi3/plat_sdhc.c:72-115 | the two-part field, low byte in bits 15:8 and the two bits above it in 7:6, decodes to the least sufficient divider the host version allows |
| ClockControl.InstallByBits | plat/rpi3/plat_sdhc.c:156-159 | the masks by which the code installs a divider set bit 0, replace bits 15:5 and keep all others |
| ClockControl.PowerOfTwoDivider | plat/rpi3/plat_sdhc.c:83-90 | the loop finds the least power of two, and 256, which the field cannot hold, beyond the limit |
| ClockControl.WithinOneStep | plat/rpi3/plat_sdhc.c:78-104 | base < (divisor + 1) * target iff the quotient is within the host's limit |
| ClockControl.NotTooFast | plat/rpi3/plat_sdhc.c:78-104 | the target is not exceeded iff the quotient is within the limit and either leaves no remainder or is not one a divisor meets exactly (even, or a power of two on older hosts) |
| ClockControl.TooFastAt201MHz | plat/rpi3/plat_sdhc.c:92-104 | an input for which the target is exceeded |
| ClockControl.UndividedOnOldHosts | plat/rpi3/plat_sdhc.c:86-107 | an input for which an older host gets divider 0 |
| ClockControl.ClockRegs.SetClock | plat/rpi3/plat_sdhc.c:118-176 | the selected divider is installed with other fields kept, only while the SD clock is off, and the clock goes on only after being read as stable |

## Left out

- DMA: that a controller which reports no error has moved all data is assumed; the storage service never asks for it.
- Transfers of more than one block per command against a card: the storage service never asks for them, and the copy loop restarts at the buffer for each block (`TwoBlocksLandInOne`).
- Busy-waits on inhibit, reset and line-active bits, delays, logging and interrupt acknowledgement.
- `sdhc_reset`, bus width, voltage level and presence detection; `mmc_get_voltage` is a parameter of the handshake.
- The clock code of i.MX6 boards; `plat_defaults.h`, `soc_defaults.h` and the mailbox, whose clock rate is a parameter.
- CAmkES and CMake glue; `storage_rpc_erase`, `storage_rpc_getState`, `storage_rpc_getSize` and `storage_rpc_getBlockSize`, thin wrappers or unimplemented.
- `mmc_decode_cid`: its fields are slices of the realigned register and are only logged.
- HostController.SdhcDev.Await: a loop that is still polling after the events of its script is `StillPolling`; the model then says nothing about the driver's state.
- HostController.SdhcDev.MakeCalls: a callback that submits the very command it was called for is modelled as submitting a new one with the same contents.
- HostController.SdhcDev.SendCmd: the heap is the driver's own; that a client keeps its own commands valid while they are queued is its business, and is not tracked.
- HostController.SdhcDev.WriteBlock: the buffer is mapped memory of whole words, at most three bytes beyond a block size that is not a multiple of four.
- CardInit.InitCard: the card is an arbitrary sequence of replies to `host_send_command`; `InitOnBus` relates the requests to blocking sends on the values of `HostModel`, and a send that does not come back is not modelled in the handshake.
- Responses.SendBrings: for an idle host; behind other commands the response is described handler call by handler call (`HandlerSaves`).
- CardStates.HandshakeSelects: the voltage argument, a parameter, is not 0; with 0 a card is only asked and does not leave the idle state.
- ClockControl.ClockRegs.SetClock: the register is a record of its fields; `StopByBits`, `StartByBits` and `InstallByBits` say what the masks of the code do to them.
- HostController.TransferBlocks: `transfer_data` with and without a callback is two methods; the number of blocks fits the 32-bit byte count.
- StorageService.SdHostController.Serve: read and write loops of the C code are the same text but for the command, and are modelled once.
- MutexProtocol.InterleavingsKeepExclusive: threads act on the values of `HostModel`; start-up has finished successfully, and a mutex whose unlocking failed stays locked.
- Integer widths are those of a 64-bit platform: 64-bit `off_t`, `size_t` and `unsigned long`, 32-bit register words; `blocks_remaining` and block counts do not wrap.
