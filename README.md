# SpiMasterStm transfer engine, in Dafny

This project models the transfer state machine of the STM32 SPI master
driver `SpiMasterStm` (`hal_st/stm32fxxx/SpiMasterStm.cpp`) and proves
properties about it.

- `SendAndReceive` sets up a full-duplex transfer. It stores the completion
  callback and opens a chip-select session unless the previous request asked
  to continue it. It loads the send and receive ranges and pads an empty
  direction with dummy bytes. Then it arms the interrupt registration and
  enables the TXE and RXNE interrupts.
- Each run of `HandleInterrupt` serves one status snapshot:
  - the receive branch first: discard or store one byte;
  - then the transmit branch: write one padding zero or one data byte;
  - then the completion test, which disarms the registration, ends the
    session unless it is continued, and schedules the callback.
- The configurator setters attach and detach the chip-select and
  communication configurators.

The project has three parts:

- `spi_state.dfy` (module `SpiState`) holds the engine as a value
  (`EngineState`, one `Channel` per direction). `Begin` is what
  `SendAndReceive` does. `Step` is one run of the handler. `Run` is the
  handler driven by any sequence of interrupts. The invariant `Inv` says:
  - the cursors agree with the flags;
  - the ranges have the shape the driver accepts;
  - what crossed the data register is accounted for in each direction;
  - with no registration armed, nothing is left to move.
- `spi_steps.dfy` and `spi_runs.dfy` hold the lemmas:
  - single runs: the invariant, progress, ordering and completion;
  - whole transfers, with the status flags raised in any order and
    combination as long as there are enough RXNE and TXE interrupts: what the
    data register saw, and that one dispatcher entry is added;
  - chains of requests: chip-select session bracketing.
- `spi_master.dfy` (module `SpiMaster`) is the driver object. `SpiMasterStm`
  is a class whose fields are the driver's members:
  - the send range is a sequence with a cursor;
  - the receive range is the caller's `array<byte>`, written in place at a
    cursor;
  - the CR2 enables and the registration are booleans.

  Its methods change these fields step by step as the source does. Each is
  proved to change the abstract state `State()` as `Begin` or `Step`
  specifies, and to keep `Valid()`. `Valid()` ties the ghost mirror of the
  receive buffer to the caller's array only while a transfer is armed. Once
  the transfer completes, the caller may write its buffer and call the
  driver again.

Every data register access of the current transfer is recorded, in order, in
a ghost trace of `Read`/`Write` events. That is how "receive before
transmit" and "the bytes written are the send range" are stated. The status
flags (RXNE, TXE, OVR) and the byte a read of DR yields are inputs to
`HandleInterrupt`. No assumption is made about when hardware raises them.

The driver's checks are preconditions:
- the range shape (line 50). This is a plain `assert`, so it is compiled
  out under `NDEBUG`: a release build accepts ranges of mismatched lengths
  without stopping. The model covers only the accepted shapes;
- no registration armed in `SendAndReceive` (line 61, `really_assert`, fatal
  in every build);
- no overrun (line 130, `really_assert`).

The handler's use of the registration (line 132) makes "armed" a
precondition of `HandleInterrupt`.

When a direction has data, `SendAndReceive` leaves its padding counter as
it was; it does not reset it. `BeginKeepsInv` proves this is harmless: with
no registration armed, the invariant makes both padding counters zero.

## Model

| member | source | states |
|---|---|---|
| SpiState.Load | hal_st/stm32fxxx/SpiMasterStm.cpp:50-59 | a loaded direction starts at the beginning of its range, with its flag set exactly when the range is non-empty; an empty range owes the other range's length in padding; a non-empty one keeps its counter |
| SpiState.Begin | hal_st/stm32fxxx/SpiMasterStm.cpp:43-67 | after setup: the registration is armed and both enables are set; each flag is set exactly when its range is non-empty; an empty side owes the other side's length; the callback is stored but not scheduled; a session is started exactly when a configurator is attached and the previous request did not continue; continuedSession records this request's action |
| SpiState.RxAdvance | hal_st/stm32fxxx/SpiMasterStm.cpp:91-108 | receive branch: one dummy is discarded while padding is owed, otherwise the byte is stored at the cursor, which advances by one; the bytes owed drop by exactly one when any were owed; the cursor stays in range; the RXNE enable stays set exactly when bytes are still owed; nothing changes but the enable when nothing was owed |
| SpiState.TxAdvance | hal_st/stm32fxxx/SpiMasterStm.cpp:110-128 | transmit branch: a zero is written while padding is owed, otherwise the next send byte, and the cursor advances by one; the bytes owed drop by exactly one when any were owed; the TXE enable is always cleared |
| SpiState.Step | hal_st/stm32fxxx/SpiMasterStm.cpp:88-142 | one handler run changes the receive channel only when RXNE is set and the transmit channel only when TXE is set, each by its branch, and keeps the cursors in range |
| SpiState.Run | hal_st/stm32fxxx/SpiMasterStm.cpp:88-142 | any sequence of interrupts: the work measure never grows; once disarmed, nothing changes; the handler never touches the send range, the receive buffer's length, the session start count, continuedSession or the stored callback |
| SpiSteps.BeginKeepsInv | hal_st/stm32fxxx/SpiMasterStm.cpp:43-67 | setup on an idle engine establishes the invariant; the padding counter of a side with data is zero; both sides owe the longer range's length |
| SpiSteps.RxAccounted | hal_st/stm32fxxx/SpiMasterStm.cpp:91-108 | the receive branch keeps the receive log accounted for: padding read plus padding owed is the other range's length, or the log is the filled prefix of the buffer |
| SpiSteps.TxAccounted | hal_st/stm32fxxx/SpiMasterStm.cpp:110-128 | the transmit branch keeps the write log accounted for: all padding zeros, or the sent prefix of the send range |
| SpiSteps.StepKeepsInv | hal_st/stm32fxxx/SpiMasterStm.cpp:88-142 | one handler run on an armed engine keeps the invariant, including "disarmed only when drained" |
| SpiSteps.StepProgress | hal_st/stm32fxxx/SpiMasterStm.cpp:90-128 | each direction moves at most one byte, and only when its flag is set; the measure never increases and drops by at most 2; with RXNE set the RXNE enable ends up cleared exactly when nothing is left to receive; the TXE enable is cleared exactly when TXE was set |
| SpiSteps.StepTrace | hal_st/stm32fxxx/SpiMasterStm.cpp:90-123 | one run appends to the data register trace only: the incoming byte is read if a byte was expected, then the next send byte or a zero is written if a byte was owed |
| SpiSteps.StepOrder | hal_st/stm32fxxx/SpiMasterStm.cpp:90-123 | receive before transmit: one run adds at most two accesses, and any read it adds precedes any write it adds; the reads grow by the incoming byte and the writes by the next transmit byte exactly when something was owed |
| SpiSteps.StepTraceAgrees | hal_st/stm32fxxx/SpiMasterStm.cpp:90-123 | one run keeps the trace's reads equal to the receive log and its writes equal to the transmit log |
| SpiSteps.StepCompletion | hal_st/stm32fxxx/SpiMasterStm.cpp:134-141 | completion happens exactly when nothing is left in either direction; it hands one entry for the stored callback to the dispatcher and ends the session exactly when a configurator is attached and the request does not continue; the session start count and stored callback are unchanged |
| SpiSteps.CompletedTransferAccounted | hal_st/stm32fxxx/SpiMasterStm.cpp:88-142 | once disarmed, the bytes written are the send range, or one zero per byte received; the bytes read are the receive buffer, or one per byte sent |
| SpiSteps.RunKeepsInv | hal_st/stm32fxxx/SpiMasterStm.cpp:88-142 | any sequence of interrupts keeps the invariant |
| SpiSteps.RunTraceAgrees | hal_st/stm32fxxx/SpiMasterStm.cpp:88-142 | any sequence of interrupts keeps the trace in agreement with both logs |
| SpiSteps.RunCompletesOnce | hal_st/stm32fxxx/SpiMasterStm.cpp:134-141 | over any sequence of interrupts at most one dispatcher entry is added, exactly when the run goes from armed to disarmed, and the session is ended in that same run unless continued |
| SpiRuns.AnyPacingDrains | hal_st/stm32fxxx/SpiMasterStm.cpp:90-141 | with RXNE and TXE raised in any order and combination, an armed transfer completes once it has had at least one interrupt and as many RXNE and TXE interrupts as bytes owed each way; the receive log gains exactly the bytes of the first RXNE interrupts, one per byte owed |
| SpiRuns.PacedFirst | hal_st/stm32fxxx/SpiMasterStm.cpp:90-141 | the first run of such a sequence reads the incoming byte exactly when RXNE is set and a byte is owed, owes one byte less on that side, and leaves the rest of the sequence enough interrupts for what is still owed |
| SpiRuns.LockstepPaces | hal_st/stm32fxxx/SpiMasterStm.cpp:65 | the peripheral's lockstep pacing (TXE alone first, then RXNE with TXE, RXNE alone last) gives enough RXNE and TXE interrupts for a transfer of its length, and its RXNE interrupts carry the shifted-in bytes in order |
| SpiRuns.LockstepTransfer | hal_st/stm32fxxx/SpiMasterStm.cpp:43-142 | a full-duplex transfer paced in lockstep completes in one interrupt more than it has bytes, writes the send range in order, leaves the shifted-in bytes in the receive buffer, and adds one dispatcher entry |
| SpiRuns.TransferData | hal_st/stm32fxxx/SpiMasterStm.cpp:43-142 | a transfer driven by interrupts paced in any order, with at least one interrupt and as many RXNE and TXE interrupts as the longer range has bytes, completes: full duplex writes the send range in order and the receive buffer holds the bytes of the first RXNE interrupts, in order; send-only reads and discards one byte per byte sent; receive-only writes one zero per byte received |
| SpiRuns.TransferBookkeeping | hal_st/stm32fxxx/SpiMasterStm.cpp:43-141 | a transfer paced as for TransferData hands exactly one entry to the dispatcher, carrying the callback this request stored; it starts a session unless the previous request continued, and ends it unless this one continues |
| SpiRuns.ServeAll | hal_st/stm32fxxx/SpiMasterStm.cpp:43-67 | serving requests one after another, each with its own interrupts, keeps the cursors in range; it stops at a request that would find the registration still armed (the fatal assert of line 61: its interrupts did not drain the previous transfer) or whose ranges have a shape the line-50 assert refuses |
| SpiRuns.SessionBracketing | hal_st/stm32fxxx/SpiMasterStm.cpp:46-138 | a chain of continueSession requests ending in one endSession request, each paced as for TransferData in any order, gets exactly one session end, and at most one start (none if the session was already open); one dispatcher entry per request, in request order, each recorded with the callback stored when it was handed over (see Left out on late binding) |
| SpiMaster.ChipSelectConfigurator.StartSession | hal_st/stm32fxxx/SpiMasterStm.cpp:46-47 | the configurator records one more session start |
| SpiMaster.ChipSelectConfigurator.EndSession | hal_st/stm32fxxx/SpiMasterStm.cpp:137-138 | the configurator records one more session end |
| SpiMaster.CommunicationConfigurator.ActivateConfiguration | hal_st/stm32fxxx/SpiMasterStm.cpp:77 | the configurator records one more activation |
| SpiMaster.CommunicationConfigurator.DeactivateConfiguration | hal_st/stm32fxxx/SpiMasterStm.cpp:83 | the configurator records one more deactivation |
| SpiMaster.SpiMasterStm.SendAndReceive | hal_st/stm32fxxx/SpiMasterStm.cpp:43-67 | the driver's new abstract state is Begin of the old one; the object stays valid; the receive array is the caller's |
| SpiMaster.SpiMasterStm.OpenSession | hal_st/stm32fxxx/SpiMasterStm.cpp:44-47 | stores the callback; a session start is recorded exactly when a configurator is attached and the previous request did not continue |
| SpiMaster.SpiMasterStm.StartSessionUnlessContinued | hal_st/stm32fxxx/SpiMasterStm.cpp:46-47 | the attached configurator gets one session start unless the session is continued, and no session end |
| SpiMaster.SpiMasterStm.LoadAndArm | hal_st/stm32fxxx/SpiMasterStm.cpp:48-66 | records the next action; loads both directions; arms the registration; enables both interrupts; starts an empty trace |
| SpiMaster.SpiMasterStm.Setup | hal_st/stm32fxxx/SpiMasterStm.cpp:48-66 | the fields after loading and arming, one by one |
| SpiMaster.SpiMasterStm.LoadRanges | hal_st/stm32fxxx/SpiMasterStm.cpp:50-59 | both ranges are taken with their cursors at the start; each flag says whether its range is non-empty; an empty side's padding counter is the other side's length, and a non-empty side's is unchanged |
| SpiMaster.SpiMasterStm.Register | hal_st/stm32fxxx/SpiMasterStm.cpp:61-66 | the registration is armed and both the TXE and RXNE enables are set |
| SpiMaster.SpiMasterStm.SetChipSelectConfigurator | hal_st/stm32fxxx/SpiMasterStm.cpp:69-72 | only the attachment changes; the object stays valid |
| SpiMaster.SpiMasterStm.SetCommunicationConfigurator | hal_st/stm32fxxx/SpiMasterStm.cpp:74-78 | the configurator is attached and activated exactly once; the transfer state is unchanged |
| SpiMaster.SpiMasterStm.ResetCommunicationConfigurator | hal_st/stm32fxxx/SpiMasterStm.cpp:80-86 | an attached configurator is deactivated once; none is attached afterwards; the transfer state is unchanged |
| SpiMaster.SpiMasterStm.HandleInterrupt | hal_st/stm32fxxx/SpiMasterStm.cpp:88-142 | the driver's new abstract state is Step of the old one; the object stays valid; it requires the registration armed and no overrun, so no run is possible after completion |
| SpiMaster.SpiMasterStm.ServeFlags | hal_st/stm32fxxx/SpiMasterStm.cpp:90-128 | the receive branch and then the transmit branch, each taken when its flag is set, move the abstract state as the two channel advances do; the read is traced before the write |
| SpiMaster.SpiMasterStm.ServeRx | hal_st/stm32fxxx/SpiMasterStm.cpp:91-108 | with RXNE set, only the receive channel and the trace change, as RxAdvance says |
| SpiMaster.SpiMasterStm.ServeTx | hal_st/stm32fxxx/SpiMasterStm.cpp:110-128 | with TXE set, only the transmit channel and the trace change, as TxAdvance says |
| SpiMaster.SpiMasterStm.ReceiveByte | hal_st/stm32fxxx/SpiMasterStm.cpp:91-108 | the receive fields and the caller's buffer change as RxAdvance says; a read is traced exactly when a byte was expected |
| SpiMaster.SpiMasterStm.TransmitByte | hal_st/stm32fxxx/SpiMasterStm.cpp:110-128 | the transmit fields change as TxAdvance says; a write of the next byte or a zero is traced exactly when a byte was owed |
| SpiMaster.SpiMasterStm.CompleteIfDrained | hal_st/stm32fxxx/SpiMasterStm.cpp:134-141 | when nothing is left, the registration is dropped, the session is ended unless continued, and one entry for the stored callback is handed to the dispatcher; otherwise nothing changes |

## Left out

- The constructor (lines 8-41) is not modelled. It does clock gating, pin setup, HAL handle initialisation and per-family register tweaks. The Dafny constructor of `SpiMasterStm` only sets the members' defaults: nothing attached, no registration, no transfer. `SpiMasterStm.hpp`, which declares those defaults, is not part of this model.
- Register semantics are not modelled:
  - the volatile byte-wide write to DR;
  - the two separate reads of SR;
  - peripheral timing, including whether hardware raises TXE again after a byte drains.

  RXNE, TXE, OVR and the incoming DR byte are parameters of `HandleInterrupt`.
- The interrupt registration (`Emplace`, `ClearPending`, lines 62-63 and 132) is one armed/disarmed boolean.
- `EventDispatcher` is not modelled, and `onDone` is never executed. Each dispatcher entry is recorded in `scheduled` as the callback token stored at the moment the entry is handed over.
- Late binding of the completion callback is not modelled. The entry the source schedules (lines 139-140) is a closure that calls the `onDone` member when the dispatcher runs it. It does not capture the value at scheduling time. Suppose a further `SendAndReceive` stores a new callback before an earlier entry has run. Then that entry calls the new callback, and the earlier request's callback never runs. So `scheduled` names the callback each entry runs only if every entry is dispatched before the next `SendAndReceive`. SpiRuns.SessionBracketing and SpiRuns.TransferBookkeeping state their callback order under that reading only.
- The configurators are interfaces with no code here. They are reduced to counters of the calls they receive.
- `dummyToSend` and `dummyToReceive` are unbounded `nat`s rather than the driver's unsigned counters. They are only loaded from range sizes and only decremented while non-zero, so no wrap-around can occur.
- Interleaving between the caller's context and the interrupt context is not modelled, nor is liveness when the bus stalls. Each handler run is atomic and runs on a state that satisfies `Valid()`.
- The receive range is modelled as the whole caller array plus a cursor, rather than as a range that shrinks from the front. The ghost field `received` mirrors the array's contents for the abstract state. Aliasing between that array and other objects is not considered beyond Dafny's own heap model.
- Overlapping send and receive ranges are not modelled. The send range is a value taken at the call, so an in-place exchange such as `SendAndReceive(buf, buf, …)` is outside the model. In the source, the receive branch (line 100) overwrites a byte that the transmit branch (line 119) may send later in the same transfer. SpiRuns.TransferData's claim that the bytes written are the send range holds only for disjoint ranges.
- While a transfer is armed, the caller is assumed not to write into its receive buffer. `Valid()` requires the mirror to agree with the array during that time.
- SpiMaster.SpiMasterStm.SetChipSelectConfigurator: the attached configurator's counters become the abstract session counts. Calls made to a previously attached configurator are not carried over.
