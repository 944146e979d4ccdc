/**
 * The transfer engine of the STM32 SPI master as a value: the fields the
 * driver keeps, the setup done by SendAndReceive (Begin) and one run of the
 * interrupt handler (Step).
 */
module SpiState {

  newtype byte = b: int | 0 <= b < 0x100

  /** What the caller asks for once this transfer completes. */
  datatype SpiAction = ContinueSession | EndSession

  /** One access to the data register, recorded in the order it is made. */
  datatype DrAccess = Read(value: byte) | Write(value: byte)

  /** A token standing for the completion callback handed to SendAndReceive. */
  type Callback = nat

  /** One interrupt: the status snapshot and the byte DR would yield if read. */
  datatype Irq = Irq(rxne: bool, txe: bool, incoming: byte)

  /**
   * One direction of the transfer. On the transmit side `data`/`pos` are the
   * send range, `active` is `sending`, `dummies` is `dummyToSend` and `enabled`
   * is the TXE interrupt enable in CR2; on the receive side they are the
   * receive range (the caller's buffer), `receiving`, `dummyToReceive` and the
   * RXNE interrupt enable. The part of the range still to do is data[pos..].
   * `log` records the bytes that crossed the data register in this direction
   * during the current transfer, padding included.
   */
  datatype Channel = Channel(data: seq<byte>, pos: nat, active: bool, dummies: nat, enabled: bool,
                             log: seq<byte>)

  /**
   * The engine's fields, plus what it has done to its collaborators: whether
   * the interrupt registration is armed, whether a chip-select configurator is
   * attached and how many sessions it was told to start and end, the data
   * register accesses of the current transfer and, for each entry handed to
   * the event dispatcher, the callback stored when it was handed over (the
   * entry itself calls whatever callback is stored when it runs).
   */
  datatype EngineState = EngineState(
    tx: Channel, rx: Channel,
    continuedSession: bool,
    onDone: Callback,
    armed: bool,
    chipSelect: bool,
    sessionsStarted: nat, sessionsEnded: nat,
    trace: seq<DrAccess>,
    scheduled: seq<Callback>)

  /** The bytes written to the data register, in order. */
  function Writes(t: seq<DrAccess>): (w: seq<byte>)
    ensures |w| <= |t|
  {
    if t == [] then []
    else Writes(t[..|t| - 1]) + (if t[|t| - 1].Write? then [t[|t| - 1].value] else [])
  }

  /** The bytes read from the data register, in order, discarded ones included. */
  function Reads(t: seq<DrAccess>): (r: seq<byte>)
    ensures |r| <= |t|
  {
    if t == [] then []
    else Reads(t[..|t| - 1]) + (if t[|t| - 1].Read? then [t[|t| - 1].value] else [])
  }

  predicate AllZero(s: seq<byte>)
  {
    forall i | 0 <= i < |s| :: s[i] == 0
  }

  function Max(a: nat, b: nat): nat
  {
    if a < b then b else a
  }

  /** Bytes still owed in one direction: the rest of the range plus padding. */
  function Left(c: Channel): nat
  {
    if c.pos <= |c.data| then |c.data| - c.pos + c.dummies else c.dummies
  }

  /** |send range| + |receive range| + dummyToSend + dummyToReceive */
  function Measure(e: EngineState): nat
  {
    Left(e.tx) + Left(e.rx)
  }

  /** The condition under which a branch of the handler moves a byte. */
  predicate Pending(c: Channel)
  {
    c.dummies != 0 || c.active
  }

  /** The handler's completion test. */
  predicate Drained(e: EngineState)
  {
    !e.tx.active && !e.rx.active && e.tx.dummies == 0 && e.rx.dummies == 0
  }

  /** The cursor stays in its range and the flag says whether the range is non-empty. */
  predicate Cursor(c: Channel)
  {
    c.pos <= |c.data| && c.active == (c.pos < |c.data|)
  }

  predicate CursorsAgree(e: EngineState)
  {
    Cursor(e.tx) && Cursor(e.rx)
  }

  /**
   * What crossed the data register in this direction is accounted for. With
   * an empty range it is all padding, and padding done plus padding owed is
   * the other range's length; otherwise no padding is owed and it is the
   * consumed part of the range.
   */
  predicate Accounted(c: Channel, otherLen: nat)
  {
    if |c.data| == 0 then |c.log| + c.dummies == otherLen
    else c.pos <= |c.data| && c.dummies == 0 && c.log == c.data[..c.pos]
  }

  /** The shape SendAndReceive accepts: equal lengths, or one side empty. */
  predicate SizesMatch(send: seq<byte>, receive: seq<byte>)
  {
    |send| == |receive| || |send| == 0 || |receive| == 0
  }

  /**
   * What the driver keeps true between calls: both cursors agree with their
   * flags, the ranges have the shape SendAndReceive accepts, the bytes that
   * crossed the data register are accounted for in each direction (padding
   * written is zeros), and with no registration armed nothing is left to move.
   * TraceAgrees, kept alongside, ties the per-direction logs to the trace.
   */
  predicate Inv(e: EngineState)
  {
    && CursorsAgree(e)
    && SizesMatch(e.tx.data, e.rx.data)
    && Accounted(e.tx, |e.rx.data|)
    && (|e.tx.data| == 0 ==> AllZero(e.tx.log))
    && Accounted(e.rx, |e.tx.data|)
    && (!e.armed ==> Drained(e))
  }

  /** The trace of data register accesses agrees with the two per-direction logs. */
  predicate TraceAgrees(e: EngineState)
  {
    Writes(e.trace) == e.tx.log && Reads(e.trace) == e.rx.log
  }

  /** The state before the first transfer: nothing attached, nothing armed. */
  function Initial(): (e: EngineState)
    ensures Inv(e) && TraceAgrees(e)
    ensures !e.armed && !e.continuedSession && !e.chipSelect && e.scheduled == []
  {
    var idle := Channel([], 0, false, 0, false, []);
    EngineState(idle, idle, false, 0, false, false, 0, 0, [], [])
  }

  /**
   * Loading one direction in SendAndReceive: take the range, set the flag to
   * whether it is non-empty and, when it is empty, owe as much padding as the
   * other range is long; nothing has crossed the data register yet.
   */
  function Load(c: Channel, data: seq<byte>, otherLen: nat): (d: Channel)
    ensures Cursor(d) && d.data == data && d.log == [] && d.enabled == c.enabled
    ensures d.pos == 0 && d.active == (|data| != 0)
    ensures d.dummies == (if |data| == 0 then otherLen else c.dummies)
  {
    c.(data := data, pos := 0, active := |data| != 0,
       dummies := if |data| == 0 then otherLen else c.dummies, log := [])
  }

  /**
   * SendAndReceive: store the callback, start a chip-select session unless the
   * previous request continued one, record whether this one continues it, load
   * the two ranges, pad the idle direction with the other one's length, arm the
   * registration and enable both interrupts. The fatal asserts are the
   * requires clauses. A direction that is not idle keeps its old padding
   * counter (BeginKeepsInv shows it is zero).
   */
  function Begin(e: EngineState, send: seq<byte>, receive: seq<byte>,
                 nextAction: SpiAction, onDone: Callback): (r: EngineState)
    requires SizesMatch(send, receive)
    requires !e.armed
    ensures r.armed && CursorsAgree(r)
    ensures r.tx.data == send && r.rx.data == receive && r.trace == [] && r.tx.log == [] && r.rx.log == []
    ensures r.tx.active == (|send| != 0) && r.rx.active == (|receive| != 0)
    ensures |send| == 0 ==> r.tx.dummies == |receive|
    ensures |receive| == 0 ==> r.rx.dummies == |send|
    ensures r.tx.enabled && r.rx.enabled
    ensures r.onDone == onDone && r.scheduled == e.scheduled
    ensures r.chipSelect == e.chipSelect
    ensures r.sessionsStarted == e.sessionsStarted + (if e.chipSelect && !e.continuedSession then 1 else 0)
    ensures r.sessionsEnded == e.sessionsEnded
    ensures r.continuedSession == (nextAction == ContinueSession)
  {
    e.(onDone := onDone,
       sessionsStarted := if e.chipSelect && !e.continuedSession then e.sessionsStarted + 1 else e.sessionsStarted,
       continuedSession := nextAction == ContinueSession,
       tx := Load(e.tx, send, |receive|).(enabled := true),
       rx := Load(e.rx, receive, |send|).(enabled := true),
       armed := true,
       trace := [])
  }

  /**
   * The receive-channel part of the RXNE branch: discard one byte while
   * padding is owed, otherwise store the byte at the receive cursor and
   * advance it; recompute the flag; drop the RXNE enable once nothing more is
   * expected.
   */
  function RxAdvance(c: Channel, incoming: byte): (d: Channel)
    requires Cursor(c)
    ensures Cursor(d) && |d.data| == |c.data|
    ensures Left(d) == if Left(c) > 0 then Left(c) - 1 else 0
    ensures Pending(c) == (Left(c) > 0)
    ensures c.dummies != 0 ==> d.dummies == c.dummies - 1 && d.data == c.data && d.pos == c.pos
    ensures c.dummies == 0 && c.active ==>
      d.dummies == 0 && d.data == c.data[c.pos := incoming] && d.pos == c.pos + 1
    ensures !Pending(c) ==> d == c.(enabled := false)
    ensures d.enabled == (c.enabled && Left(d) > 0)
    ensures d.log == c.log + (if Pending(c) then [incoming] else [])
  {
    var c1 :=
      if c.dummies != 0 then c.(dummies := c.dummies - 1, log := c.log + [incoming])
      else if c.active then c.(data := c.data[c.pos := incoming], pos := c.pos + 1, log := c.log + [incoming])
      else c;
    var c2 := c1.(active := c1.active && c1.pos < |c1.data|);
    if c2.dummies == 0 && !c2.active then c2.(enabled := false) else c2
  }

  /** The byte the TXE branch writes next: a zero while padding is owed. */
  function NextTx(c: Channel): byte
  {
    if c.dummies != 0 || c.pos >= |c.data| then 0 else c.data[c.pos]
  }

  /**
   * The transmit-channel part of the TXE branch: one padding byte while
   * padding is owed, otherwise one byte of the send range; recompute the flag;
   * drop the TXE enable whatever happened.
   */
  function TxAdvance(c: Channel): (d: Channel)
    requires Cursor(c)
    ensures Cursor(d) && d.data == c.data
    ensures Left(d) == if Left(c) > 0 then Left(c) - 1 else 0
    ensures Pending(c) == (Left(c) > 0)
    ensures c.dummies != 0 ==> d.dummies == c.dummies - 1 && d.pos == c.pos
    ensures c.dummies == 0 && c.active ==> d.dummies == 0 && d.pos == c.pos + 1
    ensures !Pending(c) ==> d == c.(enabled := false)
    ensures !d.enabled
    ensures d.log == c.log + (if Pending(c) then [NextTx(c)] else [])
  {
    var c1 :=
      if c.dummies != 0 then c.(dummies := c.dummies - 1, log := c.log + [0])
      else if c.active then c.(pos := c.pos + 1, log := c.log + [c.data[c.pos]])
      else c;
    c1.(active := c1.active && c1.pos < |c1.data|, enabled := false)
  }

  /**
   * The completion test at the end of the handler: once both directions are
   * drained, drop the registration, end the chip-select session unless this
   * request continues it, and hand the stored callback to the dispatcher.
   */
  function Completion(e: EngineState): EngineState
  {
    if Drained(e) then
      e.(armed := false,
         sessionsEnded := if e.chipSelect && !e.continuedSession then e.sessionsEnded + 1 else e.sessionsEnded,
         scheduled := e.scheduled + [e.onDone])
    else
      e
  }

  /**
   * One run of HandleInterrupt on a status snapshot: the RXNE branch (read the
   * data register iff a byte is expected), then the TXE branch (write it iff a
   * byte is owed), then the completion test. The two branches touch disjoint
   * fields, so each is its channel's advance; the trace gets the read before
   * the write. The handler is only reachable through an armed registration
   * (it dereferences it).
   */
  function Step(e: EngineState, rxne: bool, txe: bool, incoming: byte): (r: EngineState)
    requires CursorsAgree(e) && e.armed
    ensures CursorsAgree(r)
    ensures r.tx == (if txe then TxAdvance(e.tx) else e.tx)
    ensures r.rx == (if rxne then RxAdvance(e.rx, incoming) else e.rx)
  {
    Completion(Transfer(e, rxne, txe, incoming))
  }

  /** The two branches of the handler, before the completion test. */
  function Transfer(e: EngineState, rxne: bool, txe: bool, incoming: byte): EngineState
    requires CursorsAgree(e)
  {
    var read := if rxne && Pending(e.rx) then [Read(incoming)] else [];
    var write := if txe && Pending(e.tx) then [Write(NextTx(e.tx))] else [];
    e.(rx := if rxne then RxAdvance(e.rx, incoming) else e.rx,
       tx := if txe then TxAdvance(e.tx) else e.tx,
       trace := e.trace + read + write)
  }

  /**
   * The handler run once per interrupt in irqs, for as long as the
   * registration stays armed: after completion the handler is no longer
   * reachable, so later interrupts change nothing.
   */
  function Run(e: EngineState, irqs: seq<Irq>): (r: EngineState)
    requires CursorsAgree(e)
    ensures CursorsAgree(r)
    ensures !e.armed ==> r == e
    ensures Measure(r) <= Measure(e)
    ensures r.sessionsStarted == e.sessionsStarted && r.chipSelect == e.chipSelect
    ensures r.continuedSession == e.continuedSession && r.onDone == e.onDone
    ensures r.tx.data == e.tx.data && |r.rx.data| == |e.rx.data|
    decreases |irqs|
  {
    if irqs == [] || !e.armed then e
    else Run(Step(e, irqs[0].rxne, irqs[0].txe, irqs[0].incoming), irqs[1..])
  }
}
