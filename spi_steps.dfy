/**
 * What SendAndReceive and one run of the interrupt handler guarantee: the
 * invariant is established and kept, each run moves at most one byte per
 * direction with the read before the write, and completion happens exactly
 * once, when nothing is left to move.
 */
module SpiSteps {
  import opened SpiState

  lemma TraceAppend(t: seq<DrAccess>, a: DrAccess)
    ensures Writes(t + [a]) == Writes(t) + (if a.Write? then [a.value] else [])
    ensures Reads(t + [a]) == Reads(t) + (if a.Read? then [a.value] else [])
  {
    assert (t + [a])[..|t|] == t;
  }

  /** Appending at most one read and then at most one write to a trace. */
  lemma TraceExtend(t: seq<DrAccess>, rd: bool, rv: byte, wr: bool, wv: byte)
    ensures var u := t + (if rd then [Read(rv)] else []) + (if wr then [Write(wv)] else []);
      && |t| <= |u| <= |t| + 2
      && u[..|t|] == t
      && (forall i, j | |t| <= i < j < |u| :: u[i].Read? && u[j].Write?)
      && Reads(u) == Reads(t) + (if rd then [rv] else [])
      && Writes(u) == Writes(t) + (if wr then [wv] else [])
  {
    var m := t + (if rd then [Read(rv)] else []);
    if rd {
      TraceAppend(t, Read(rv));
    } else {
      assert m == t;
    }
    if wr {
      TraceAppend(m, Write(wv));
    } else {
      assert m + [] == m;
    }
    var u := m + (if wr then [Write(wv)] else []);
    assert u[..|t|] == t;
  }

  /**
   * SendAndReceive on an idle engine establishes the invariant. In particular
   * the padding counter of a direction that has data is zero (the code leaves
   * it as it was, and an idle engine has none owed), so both directions owe
   * the same number of bytes: the longer range's length.
   */
  lemma BeginKeepsInv(e: EngineState, send: seq<byte>, receive: seq<byte>,
                      nextAction: SpiAction, onDone: Callback)
    requires Inv(e) && !e.armed
    requires SizesMatch(send, receive)
    ensures var r := Begin(e, send, receive, nextAction, onDone);
      && Inv(r)
      && r.tx.dummies == (if |send| == 0 then |receive| else 0)
      && r.rx.dummies == (if |receive| == 0 then |send| else 0)
      && Left(r.tx) == Left(r.rx) == Max(|send|, |receive|)
  {
  }

  lemma RxAccounted(c: Channel, incoming: byte, otherLen: nat)
    requires Cursor(c) && Accounted(c, otherLen)
    ensures Accounted(RxAdvance(c, incoming), otherLen)
  {
    if c.dummies == 0 && c.active {
      assert c.data[c.pos := incoming][..c.pos + 1] == c.data[..c.pos] + [incoming];
    }
  }

  lemma TxAccounted(c: Channel, otherLen: nat)
    requires Cursor(c) && Accounted(c, otherLen)
    requires |c.data| == 0 ==> AllZero(c.log)
    ensures Accounted(TxAdvance(c), otherLen)
    ensures |c.data| == 0 ==> AllZero(TxAdvance(c).log)
  {
    if c.dummies == 0 && c.active {
      assert c.data[..c.pos + 1] == c.data[..c.pos] + [c.data[c.pos]];
    }
  }

  /**
   * One run of the handler keeps the invariant: a discarded byte is one
   * padding byte less owed, a stored byte extends the filled part of the
   * buffer, a padding write is a zero and a data write is the next byte of
   * the send range.
   */
  lemma StepKeepsInv(e: EngineState, rxne: bool, txe: bool, incoming: byte)
    requires Inv(e) && e.armed
    ensures Inv(Step(e, rxne, txe, incoming))
  {
    var r := Step(e, rxne, txe, incoming);
    if rxne {
      RxAccounted(e.rx, incoming, |e.tx.data|);
    }
    if txe {
      TxAccounted(e.tx, |e.rx.data|);
    }
    StepCompletion(e, rxne, txe, incoming);
    assert !r.armed ==> Drained(r);
  }

  /**
   * Each direction moves at most one byte per run, and only when its status
   * flag is set: the work measure never grows and drops by at most two. The
   * RXNE enable is dropped in a run with RXNE set exactly when nothing is left
   * to receive; the TXE enable is dropped by every run with TXE set.
   */
  lemma StepProgress(e: EngineState, rxne: bool, txe: bool, incoming: byte)
    requires CursorsAgree(e) && e.armed
    ensures var r := Step(e, rxne, txe, incoming);
      && Left(r.tx) == (if txe && Left(e.tx) > 0 then Left(e.tx) - 1 else Left(e.tx))
      && Left(r.rx) == (if rxne && Left(e.rx) > 0 then Left(e.rx) - 1 else Left(e.rx))
      && Measure(e) - 2 <= Measure(r) <= Measure(e)
      && (rxne ==> r.rx.enabled == (e.rx.enabled && Left(r.rx) > 0))
      && (!rxne ==> r.rx.enabled == e.rx.enabled)
      && r.tx.enabled == (e.tx.enabled && !txe)
  {
  }

  /**
   * Receive before transmit: one run only appends to the data register trace,
   * at most one read and one write, and a read it makes comes before its
   * write. The read is the incoming byte; the write is the next send byte or
   * a padding zero.
   */
  lemma StepTrace(e: EngineState, rxne: bool, txe: bool, incoming: byte)
    requires CursorsAgree(e) && e.armed
    ensures Step(e, rxne, txe, incoming).trace ==
      e.trace + (if rxne && Pending(e.rx) then [Read(incoming)] else [])
              + (if txe && Pending(e.tx) then [Write(NextTx(e.tx))] else [])
  {
  }

  lemma StepOrder(e: EngineState, rxne: bool, txe: bool, incoming: byte)
    requires CursorsAgree(e) && e.armed
    ensures var r := Step(e, rxne, txe, incoming);
      && |e.trace| <= |r.trace| <= |e.trace| + 2
      && r.trace[..|e.trace|] == e.trace
      && (forall i, j | |e.trace| <= i < j < |r.trace| :: r.trace[i].Read? && r.trace[j].Write?)
      && Reads(r.trace) == Reads(e.trace) + (if rxne && Left(e.rx) > 0 then [incoming] else [])
      && Writes(r.trace) == Writes(e.trace) + (if txe && Left(e.tx) > 0 then [NextTx(e.tx)] else [])
  {
    StepTrace(e, rxne, txe, incoming);
    TraceExtend(e.trace, rxne && Pending(e.rx), incoming, txe && Pending(e.tx), NextTx(e.tx));
  }

  /** One run of the handler keeps the trace in agreement with the two logs. */
  lemma StepTraceAgrees(e: EngineState, rxne: bool, txe: bool, incoming: byte)
    requires CursorsAgree(e) && e.armed && TraceAgrees(e)
    ensures TraceAgrees(Step(e, rxne, txe, incoming))
  {
    StepTrace(e, rxne, txe, incoming);
    TraceExtend(e.trace, rxne && Pending(e.rx), incoming, txe && Pending(e.tx), NextTx(e.tx));
  }

  /**
   * Completion happens in exactly the run that leaves nothing to move: it
   * drops the registration, hands one entry for the stored callback to the
   * dispatcher and ends the chip-select session unless the request continues
   * it.
   */
  lemma StepCompletion(e: EngineState, rxne: bool, txe: bool, incoming: byte)
    requires CursorsAgree(e) && e.armed
    ensures var r := Step(e, rxne, txe, incoming);
      && r.armed == (Left(r.tx) > 0 || Left(r.rx) > 0)
      && r.scheduled == e.scheduled + (if r.armed then [] else [e.onDone])
      && r.sessionsEnded == e.sessionsEnded + (if !r.armed && e.chipSelect && !e.continuedSession then 1 else 0)
      && r.sessionsStarted == e.sessionsStarted && r.chipSelect == e.chipSelect
      && r.continuedSession == e.continuedSession && r.onDone == e.onDone
  {
  }

  /**
   * Once the registration is dropped every byte has crossed the data
   * register: the send range was written in order (or one padding zero per
   * byte received) and the receive buffer holds the bytes read, in order (or
   * one byte was read and discarded per byte sent).
   */
  lemma CompletedTransferAccounted(e: EngineState)
    requires Inv(e) && !e.armed
    ensures |e.tx.data| != 0 ==> e.tx.log == e.tx.data
    ensures |e.tx.data| == 0 ==> |e.tx.log| == |e.rx.data| && AllZero(e.tx.log)
    ensures |e.rx.data| != 0 ==> e.rx.log == e.rx.data
    ensures |e.rx.data| == 0 ==> |e.rx.log| == |e.tx.data|
  {
    assert e.tx.data[..e.tx.pos] == e.tx.data;
    assert e.rx.data[..e.rx.pos] == e.rx.data;
  }

  /** Any sequence of interrupts keeps the invariant. */
  lemma {:induction false} RunKeepsInv(e: EngineState, irqs: seq<Irq>)
    requires Inv(e)
    ensures Inv(Run(e, irqs))
    decreases |irqs|
  {
    if irqs != [] && e.armed {
      StepKeepsInv(e, irqs[0].rxne, irqs[0].txe, irqs[0].incoming);
      RunKeepsInv(Step(e, irqs[0].rxne, irqs[0].txe, irqs[0].incoming), irqs[1..]);
    }
  }

  /** Any sequence of interrupts keeps the trace in agreement with the logs. */
  lemma {:induction false} RunTraceAgrees(e: EngineState, irqs: seq<Irq>)
    requires CursorsAgree(e) && TraceAgrees(e)
    ensures TraceAgrees(Run(e, irqs))
    decreases |irqs|
  {
    if irqs != [] && e.armed {
      StepTraceAgrees(e, irqs[0].rxne, irqs[0].txe, irqs[0].incoming);
      RunTraceAgrees(Step(e, irqs[0].rxne, irqs[0].txe, irqs[0].incoming), irqs[1..]);
    }
  }

  /**
   * Over any sequence of interrupts at most one dispatcher entry for the
   * stored callback is added, exactly when the run takes the engine from armed
   * to disarmed;
   * the chip-select session is ended in that same run, unless the request
   * continues it.
   */
  lemma {:induction false} RunCompletesOnce(e: EngineState, irqs: seq<Irq>)
    requires CursorsAgree(e)
    ensures var r := Run(e, irqs);
      && r.scheduled == e.scheduled + (if e.armed && !r.armed then [e.onDone] else [])
      && r.sessionsEnded == e.sessionsEnded + (if e.armed && !r.armed && e.chipSelect && !e.continuedSession then 1 else 0)
    decreases |irqs|
  {
    if irqs != [] && e.armed {
      var q := irqs[0];
      var s := Step(e, q.rxne, q.txe, q.incoming);
      StepCompletion(e, q.rxne, q.txe, q.incoming);
      RunCompletesOnce(s, irqs[1..]);
    }
  }
}
