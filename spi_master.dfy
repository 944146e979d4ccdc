/**
 * The driver object: SpiMasterStm with the fields it updates in place, the
 * configurators it calls into, and its methods, each proved to do to the
 * abstract state what Begin and Step specify.
 */
module SpiMaster {
  import opened SpiState
  import opened SpiSteps

  /** The chip-select configurator: only the calls it receives are recorded. */
  class ChipSelectConfigurator {
    var sessionsStarted: nat
    var sessionsEnded: nat

    constructor ()
      ensures sessionsStarted == 0 && sessionsEnded == 0
    {
      sessionsStarted := 0;
      sessionsEnded := 0;
    }

    method StartSession()
      modifies this
      ensures sessionsStarted == old(sessionsStarted) + 1 && sessionsEnded == old(sessionsEnded)
    {
      sessionsStarted := sessionsStarted + 1;
    }

    method EndSession()
      modifies this
      ensures sessionsEnded == old(sessionsEnded) + 1 && sessionsStarted == old(sessionsStarted)
    {
      sessionsEnded := sessionsEnded + 1;
    }
  }

  /** The communication configurator: only the calls it receives are recorded. */
  class CommunicationConfigurator {
    var activations: nat
    var deactivations: nat

    constructor ()
      ensures activations == 0 && deactivations == 0
    {
      activations := 0;
      deactivations := 0;
    }

    method ActivateConfiguration()
      modifies this
      ensures activations == old(activations) + 1 && deactivations == old(deactivations)
    {
      activations := activations + 1;
    }

    method DeactivateConfiguration()
      modifies this
      ensures deactivations == old(deactivations) + 1 && activations == old(activations)
    {
      deactivations := deactivations + 1;
    }
  }

  /**
   * The SPI master. The send range is a sequence with a cursor (the driver
   * pops bytes off the front of a const range); the receive range is the
   * caller's array, written in place at the receive cursor. The interrupt
   * registration is a flag, the two interrupt enables of CR2 are flags, and
   * each entry handed to the event dispatcher is recorded, in order, by the
   * callback stored at that moment.
   * The logs and the trace are ghost bookkeeping of what crossed the data
   * register during the current transfer.
   */
  class SpiMasterStm {
    var sendData: seq<byte>
    var sendPos: nat
    var receiveData: array<byte>
    var receivePos: nat
    var sending: bool
    var receiving: bool
    var dummyToSend: nat
    var dummyToReceive: nat
    var continuedSession: bool
    var onDone: Callback
    var interruptRegistered: bool
    var txeInterruptEnabled: bool
    var rxneInterruptEnabled: bool
    var chipSelectConfigurator: ChipSelectConfigurator?
    var communicationConfigurator: CommunicationConfigurator?
    var scheduled: seq<Callback>
    ghost var sendLog: seq<byte>
    ghost var receiveLog: seq<byte>
    ghost var trace: seq<DrAccess>
    /** The contents of the receive buffer, as the abstract state sees them. */
    ghost var received: seq<byte>

    ghost function TxChannel(): Channel
      reads this
    {
      Channel(sendData, sendPos, sending, dummyToSend, txeInterruptEnabled, sendLog)
    }

    ghost function RxChannel(): Channel
      reads this
    {
      Channel(received, receivePos, receiving, dummyToReceive, rxneInterruptEnabled, receiveLog)
    }

    /** The abstract state of the driver and what it has done to its collaborators. */
    ghost function State(): EngineState
      reads this, chipSelectConfigurator
    {
      EngineState(TxChannel(), RxChannel(), continuedSession, onDone, interruptRegistered,
                  chipSelectConfigurator != null,
                  if chipSelectConfigurator != null then chipSelectConfigurator.sessionsStarted else 0,
                  if chipSelectConfigurator != null then chipSelectConfigurator.sessionsEnded else 0,
                  trace, scheduled)
    }

    /**
     * The invariant of the abstract state, and, while a transfer is armed, the
     * mirror agrees with the caller's buffer. Once the transfer completes the
     * buffer is the caller's again and may be written freely.
     */
    ghost predicate Valid()
      reads this, receiveData, chipSelectConfigurator
    {
      && (interruptRegistered ==> received == receiveData[..])
      && Inv(State())
      && TraceAgrees(State())
    }

    /**
     * The members' defaults: nothing attached, no registration, no transfer.
     * The peripheral setup the real constructor does is not part of this model.
     */
    constructor ()
      ensures Valid() && State() == Initial()
      ensures communicationConfigurator == null
    {
      sendData := [];
      sendPos := 0;
      receiveData := new byte[0];
      receivePos := 0;
      sending := false;
      receiving := false;
      dummyToSend := 0;
      dummyToReceive := 0;
      continuedSession := false;
      onDone := 0;
      interruptRegistered := false;
      txeInterruptEnabled := false;
      rxneInterruptEnabled := false;
      chipSelectConfigurator := null;
      communicationConfigurator := null;
      scheduled := [];
      sendLog := [];
      receiveLog := [];
      trace := [];
      received := [];
    }

    /**
     * Start a transfer: keep the callback, start a chip-select session unless
     * the previous request continued one, load both ranges, pad the idle
     * direction, register the interrupt handler and enable TXE and RXNE.
     * Both asserts of the driver are preconditions: the ranges have the
     * accepted shape and no transfer is in progress.
     */
    method SendAndReceive(send: seq<byte>, receive: array<byte>, nextAction: SpiAction, done: Callback)
      requires Valid() && !interruptRegistered
      requires SizesMatch(send, receive[..])
      modifies this`onDone, this`continuedSession, this`sendData, this`sendPos, this`sending,
               this`dummyToSend, this`sendLog, this`receiveData, this`receivePos, this`receiving,
               this`dummyToReceive, this`receiveLog, this`interruptRegistered,
               this`txeInterruptEnabled, this`rxneInterruptEnabled, this`trace, this`received,
               chipSelectConfigurator
      ensures Valid()
      ensures State() == Begin(old(State()), send, receive[..], nextAction, done)
      ensures receiveData == receive
    {
      ghost var before := State();
      OpenSession(done, before);
      LoadAndArm(send, receive, nextAction, State());
      BeginKeepsInv(before, send, receive[..], nextAction, done);
      assert Writes([]) == [] && Reads([]) == [];
    }

    /** Keep the callback and start a session unless the previous request continued it. */
    method OpenSession(done: Callback, ghost e: EngineState)
      requires e == State()
      modifies this`onDone, chipSelectConfigurator
      ensures State() == e.(onDone := done,
                            sessionsStarted := if e.chipSelect && !e.continuedSession then e.sessionsStarted + 1
                                               else e.sessionsStarted)
    {
      onDone := done;
      StartSessionUnlessContinued();
    }

    /** Record the next action, load both ranges, arm the registration and enable both interrupts. */
    method LoadAndArm(send: seq<byte>, receive: array<byte>, nextAction: SpiAction, ghost e: EngineState)
      requires e == State()
      modifies this`continuedSession, this`sendData, this`sendPos, this`sending, this`dummyToSend,
               this`sendLog, this`receiveData, this`receivePos, this`receiving, this`dummyToReceive,
               this`receiveLog, this`received, this`interruptRegistered, this`txeInterruptEnabled,
               this`rxneInterruptEnabled, this`trace
      ensures receiveData == receive && received == receiveData[..]
      ensures State() == e.(continuedSession := nextAction == ContinueSession,
                            tx := Load(e.tx, send, receive.Length).(enabled := true),
                            rx := Load(e.rx, receive[..], |send|).(enabled := true),
                            armed := true,
                            trace := [])
    {
      Setup(send, receive, nextAction);
    }

    /** The session opened for this request, unless the previous one continued it. */
    method StartSessionUnlessContinued()
      modifies chipSelectConfigurator
      ensures chipSelectConfigurator != null ==>
        && chipSelectConfigurator.sessionsStarted ==
             old(chipSelectConfigurator.sessionsStarted) + (if continuedSession then 0 else 1)
        && chipSelectConfigurator.sessionsEnded == old(chipSelectConfigurator.sessionsEnded)
    {
      if chipSelectConfigurator != null && !continuedSession {
        chipSelectConfigurator.StartSession();
      }
    }

    /** The rest of SendAndReceive, once the session is open. */
    method Setup(send: seq<byte>, receive: array<byte>, nextAction: SpiAction)
      modifies this`continuedSession, this`sendData, this`sendPos, this`sending, this`dummyToSend,
               this`sendLog, this`receiveData, this`receivePos, this`receiving, this`dummyToReceive,
               this`receiveLog, this`received, this`interruptRegistered, this`txeInterruptEnabled,
               this`rxneInterruptEnabled, this`trace
      ensures continuedSession == (nextAction == ContinueSession)
      ensures sendData == send && sendPos == 0 && sending == (|send| != 0) && sendLog == []
      ensures dummyToSend == if |send| == 0 then receive.Length else old(dummyToSend)
      ensures receiveData == receive && receivePos == 0 && receiving == (receive.Length != 0)
      ensures receiveLog == [] && received == receive[..]
      ensures dummyToReceive == if receive.Length == 0 then |send| else old(dummyToReceive)
      ensures interruptRegistered && txeInterruptEnabled && rxneInterruptEnabled && trace == []
    {
      continuedSession := nextAction == ContinueSession;
      LoadRanges(send, receive);
      Register();
    }

    /** Take both ranges; a direction whose range is empty owes the other one's length in padding. */
    method LoadRanges(send: seq<byte>, receive: array<byte>)
      modifies this`sendData, this`sendPos, this`sending, this`dummyToSend, this`sendLog,
               this`receiveData, this`receivePos, this`receiving, this`dummyToReceive, this`receiveLog,
               this`received
      ensures sendData == send && sendPos == 0 && sending == (|send| != 0) && sendLog == []
      ensures dummyToSend == if |send| == 0 then receive.Length else old(dummyToSend)
      ensures receiveData == receive && receivePos == 0 && receiving == (receive.Length != 0)
      ensures receiveLog == [] && received == receive[..]
      ensures dummyToReceive == if receive.Length == 0 then |send| else old(dummyToReceive)
    {
      sendData, sendPos := send, 0;
      receiveData, receivePos := receive, 0;
      sending := |send| != 0;
      receiving := receive.Length != 0;

      if !sending {
        dummyToSend := receive.Length;
      }
      if !receiving {
        dummyToReceive := |send|;
      }
      sendLog, receiveLog, received := [], [], receive[..];
    }

    /** Register the handler and enable TXE and RXNE; the new transfer's trace starts empty. */
    method Register()
      modifies this`interruptRegistered, this`txeInterruptEnabled, this`rxneInterruptEnabled, this`trace
      ensures interruptRegistered && txeInterruptEnabled && rxneInterruptEnabled && trace == []
    {
      interruptRegistered := true;
      txeInterruptEnabled := true;
      rxneInterruptEnabled := true;
      trace := [];
    }

    /**
     * Attach a chip-select configurator. Attached while a transfer is armed,
     * it is told to end that transfer's session at completion without having
     * been told to start it.
     */
    method SetChipSelectConfigurator(configurator: ChipSelectConfigurator)
      requires Valid()
      modifies this`chipSelectConfigurator
      ensures Valid()
      ensures chipSelectConfigurator == configurator
      ensures State() == old(State()).(chipSelect := true,
                                       sessionsStarted := configurator.sessionsStarted,
                                       sessionsEnded := configurator.sessionsEnded)
    {
      chipSelectConfigurator := configurator;
    }

    /** Attach the communication configurator and activate its configuration. */
    method SetCommunicationConfigurator(configurator: CommunicationConfigurator)
      requires Valid()
      modifies this`communicationConfigurator, configurator
      ensures Valid() && State() == old(State())
      ensures communicationConfigurator == configurator
      ensures configurator.activations == old(configurator.activations) + 1
      ensures configurator.deactivations == old(configurator.deactivations)
    {
      communicationConfigurator := configurator;
      communicationConfigurator.ActivateConfiguration();
    }

    /** Deactivate the attached communication configuration, if any, and detach it. */
    method ResetCommunicationConfigurator()
      requires Valid()
      modifies this`communicationConfigurator, communicationConfigurator
      ensures Valid() && State() == old(State())
      ensures communicationConfigurator == null
      ensures old(communicationConfigurator) != null ==>
        && old(communicationConfigurator).deactivations == old(communicationConfigurator.deactivations) + 1
        && old(communicationConfigurator).activations == old(communicationConfigurator.activations)
    {
      if communicationConfigurator != null {
        communicationConfigurator.DeactivateConfiguration();
      }
      communicationConfigurator := null;
    }

    /**
     * The interrupt handler, on a status snapshot (`rxne`, `txe`), the byte a
     * read of the data register yields (`incoming`) and the overrun flag of
     * the second status read. The handler is reachable only while the
     * registration is armed; an overrun is fatal, so both are preconditions.
     */
    method HandleInterrupt(rxne: bool, txe: bool, incoming: byte, overrun: bool)
      requires Valid() && interruptRegistered
      requires !overrun
      modifies this`receivePos, this`receiving, this`dummyToReceive, this`rxneInterruptEnabled,
               this`receiveLog, this`sendPos, this`sending, this`dummyToSend,
               this`txeInterruptEnabled, this`sendLog, this`trace,
               this`received, this`interruptRegistered, this`scheduled, receiveData, chipSelectConfigurator
      ensures Valid() && received == receiveData[..]
      ensures State() == Step(old(State()), rxne, txe, incoming)
    {
      ghost var before := State();
      ServeFlags(rxne, txe, incoming, before);
      CompleteIfDrained(State());
      StepKeepsInv(before, rxne, txe, incoming);
      StepTraceAgrees(before, rxne, txe, incoming);
    }

    // The handler is split in layers. ReceiveByte and TransmitByte update the
    // fields as the source does and state the new channel; ServeRx and ServeTx
    // restate that as a change of the whole abstract state; ServeFlags and
    // CompleteIfDrained compose those changes into Step. Each layer keeps its
    // own proof small enough for the verifier. SendAndReceive is split the same
    // way: OpenSession, then LoadAndArm, which calls Setup, which calls
    // LoadRanges and then Register.

    /** The RXNE branch, then the TXE branch, each taken when its status flag is set. */
    method ServeFlags(rxne: bool, txe: bool, incoming: byte, ghost e: EngineState)
      requires e == State() && CursorsAgree(e) && received == receiveData[..]
      modifies this`receivePos, this`receiving, this`dummyToReceive, this`rxneInterruptEnabled,
               this`receiveLog, this`sendPos, this`sending, this`dummyToSend,
               this`txeInterruptEnabled, this`sendLog, this`trace, this`received, receiveData
      ensures State() == Transfer(e, rxne, txe, incoming)
      ensures received == receiveData[..]
    {
      ServeRx(rxne, incoming, e);
      ServeTx(txe, State());
    }

    /** The RXNE branch, taken when its status flag is set. */
    method ServeRx(rxne: bool, incoming: byte, ghost e: EngineState)
      requires e == State() && Cursor(e.rx) && received == receiveData[..]
      modifies this`receivePos, this`receiving, this`dummyToReceive, this`rxneInterruptEnabled,
               this`receiveLog, this`trace, this`received, receiveData
      ensures State() == e.(rx := if rxne then RxAdvance(e.rx, incoming) else e.rx,
                            trace := e.trace + (if rxne && Pending(e.rx) then [Read(incoming)] else []))
      ensures received == receiveData[..]
    {
      ReceiveByte(rxne, incoming, e.rx);
    }

    /** The TXE branch, taken when its status flag is set. */
    method ServeTx(txe: bool, ghost e: EngineState)
      requires e == State() && Cursor(e.tx) && received == receiveData[..]
      modifies this`sendPos, this`sending, this`dummyToSend, this`txeInterruptEnabled,
               this`sendLog, this`trace
      ensures received == receiveData[..]
      ensures State() == e.(tx := if txe then TxAdvance(e.tx) else e.tx,
                            trace := e.trace + (if txe && Pending(e.tx) then [Write(NextTx(e.tx))] else []))
    {
      TransmitByte(txe, e.tx);
    }

    /** Discard or store one byte, recompute `receiving`, drop RXNE once nothing more is expected. */
    method ReceiveByte(rxne: bool, incoming: byte, ghost c: Channel)
      requires c == RxChannel() && Cursor(c) && received == receiveData[..]
      modifies this`receivePos, this`receiving, this`dummyToReceive, this`rxneInterruptEnabled,
               this`receiveLog, this`trace, this`received, receiveData
      ensures RxChannel() == (if rxne then RxAdvance(c, incoming) else c) && received == receiveData[..]
      ensures trace == old(trace) + (if rxne && Pending(c) then [Read(incoming)] else [])
    {
      if !rxne {
        return;
      }
      if dummyToReceive != 0 {
        trace := trace + [Read(incoming)];
        receiveLog := receiveLog + [incoming];
        dummyToReceive := dummyToReceive - 1;
      } else if receiving {
        trace := trace + [Read(incoming)];
        receiveLog := receiveLog + [incoming];
        receiveData[receivePos] := incoming;
        received := received[receivePos := incoming];
        receivePos := receivePos + 1;
      }

      receiving := receiving && receivePos < receiveData.Length;

      if dummyToReceive == 0 && !receiving {
        rxneInterruptEnabled := false;
      }
    }

    /** Write one padding or data byte, recompute `sending`, drop TXE. */
    method TransmitByte(txe: bool, ghost c: Channel)
      requires c == TxChannel() && Cursor(c)
      modifies this`sendPos, this`sending, this`dummyToSend, this`txeInterruptEnabled,
               this`sendLog, this`trace
      ensures TxChannel() == (if txe then TxAdvance(c) else c)
      ensures trace == old(trace) + (if txe && Pending(c) then [Write(NextTx(c))] else [])
    {
      if !txe {
        return;
      }
      if dummyToSend != 0 {
        trace := trace + [Write(0)];
        sendLog := sendLog + [0];
        dummyToSend := dummyToSend - 1;
      } else if sending {
        trace := trace + [Write(sendData[sendPos])];
        sendLog := sendLog + [sendData[sendPos]];
        sendPos := sendPos + 1;
      }

      sending := sending && sendPos < |sendData|;

      // Every run that finds TXE set drops its enable, written or not: the
      // next write waits for an interrupt that the receive side raises.
      txeInterruptEnabled := false;
    }

    /** Once nothing is left to move: drop the registration, end the session, schedule onDone. */
    method CompleteIfDrained(ghost e: EngineState)
      requires e == State()
      modifies this`interruptRegistered, this`scheduled, chipSelectConfigurator
      ensures State() == Completion(e)
    {
      if !sending && !receiving && dummyToSend == 0 && dummyToReceive == 0 {
        interruptRegistered := false;
        if chipSelectConfigurator != null && !continuedSession {
          chipSelectConfigurator.EndSession();
        }
        scheduled := scheduled + [onDone];
      }
    }
  }
}
