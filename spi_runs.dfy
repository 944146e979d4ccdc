/**
 * Whole transfers and chains of transfers: what crosses the data register
 * once a transfer started by SendAndReceive has been driven to completion by
 * the interrupt handler, and how the chip-select session brackets a chain of
 * requests that continue it.
 */
module SpiRuns {
  import opened SpiState
  import opened SpiSteps

  /** The bytes the data register yields in the interrupts that find RXNE set, in order. */
  function RxIncoming(irqs: seq<Irq>): (s: seq<byte>)
    ensures |s| <= |irqs|
  {
    if irqs == [] then []
    else (if irqs[0].rxne then [irqs[0].incoming] else []) + RxIncoming(irqs[1..])
  }

  /** How many of the interrupts find TXE set. */
  function TxCount(irqs: seq<Irq>): (n: nat)
    ensures n <= |irqs|
  {
    if irqs == [] then 0 else (if irqs[0].txe then 1 else 0) + TxCount(irqs[1..])
  }

  /**
   * Enough interrupts to move n bytes each way, paced in any order: at least
   * one interrupt, at least n that find RXNE set and at least n that find TXE
   * set. Nothing is assumed about which flags come together.
   */
  predicate Paced(irqs: seq<Irq>, n: nat)
  {
    irqs != [] && |RxIncoming(irqs)| >= n && TxCount(irqs) >= n
  }

  /**
   * However the two flags are paced, an armed transfer with enough RXNE and
   * TXE interrupts for what it still owes completes. The receive log gains
   * the bytes of the first interrupts that find RXNE set, one per byte owed.
   */
  lemma {:induction false} AnyPacingDrains(e: EngineState, irqs: seq<Irq>)
    requires CursorsAgree(e) && e.armed
    requires irqs != [] && |RxIncoming(irqs)| >= Left(e.rx) && TxCount(irqs) >= Left(e.tx)
    ensures var r := Run(e, irqs);
      && !r.armed
      && r.rx.log == e.rx.log + RxIncoming(irqs)[..Left(e.rx)]
    decreases |irqs|
  {
    var q := irqs[0];
    var rest := irqs[1..];
    var s := Step(e, q.rxne, q.txe, q.incoming);
    var got := if q.rxne && Left(e.rx) > 0 then [q.incoming] else [];
    PacedFirst(e, irqs);
    IncomingTake(irqs, Left(e.rx));
    if s.armed {
      AnyPacingDrains(s, rest);
      AppendAssoc(e.rx.log, got, RxIncoming(rest)[..Left(s.rx)]);
    } else {
      assert RxIncoming(rest)[..Left(s.rx)] == [];
    }
  }

  /** The first run of a paced sequence, and that the rest still paces what is left. */
  lemma PacedFirst(e: EngineState, irqs: seq<Irq>)
    requires CursorsAgree(e) && e.armed
    requires irqs != [] && |RxIncoming(irqs)| >= Left(e.rx) && TxCount(irqs) >= Left(e.tx)
    ensures var q := irqs[0];
      var s := Step(e, q.rxne, q.txe, q.incoming);
      && Run(e, irqs) == Run(s, irqs[1..])
      && s.rx.log == e.rx.log + (if q.rxne && Left(e.rx) > 0 then [q.incoming] else [])
      && Left(s.rx) == (if q.rxne && Left(e.rx) > 0 then Left(e.rx) - 1 else Left(e.rx))
      && TxCount(irqs[1..]) >= Left(s.tx)
      && (s.armed ==> irqs[1..] != [])
      && (!s.armed ==> Run(s, irqs[1..]) == s && Left(s.rx) == 0)
  {
    var q := irqs[0];
    var rest := irqs[1..];
    StepProgress(e, q.rxne, q.txe, q.incoming);
    StepCompletion(e, q.rxne, q.txe, q.incoming);
    RunFirst(e, irqs);
    assert TxCount(irqs) == (if q.txe then 1 else 0) + TxCount(rest);
    if rest == [] {
      assert |RxIncoming(irqs)| <= 1 && TxCount(irqs) <= 1;
    }
  }

  /** Taking the first L bytes of the RXNE interrupts, the first interrupt's share and the rest's. */
  lemma IncomingTake(irqs: seq<Irq>, L: nat)
    requires irqs != [] && |RxIncoming(irqs)| >= L
    ensures var q := irqs[0];
      var L2 := if q.rxne && L > 0 then L - 1 else L;
      && |RxIncoming(irqs[1..])| >= L2
      && RxIncoming(irqs)[..L] == (if q.rxne && L > 0 then [q.incoming] else []) + RxIncoming(irqs[1..])[..L2]
  {
    var q := irqs[0];
    var rest := irqs[1..];
    assert RxIncoming(irqs) == (if q.rxne then [q.incoming] else []) + RxIncoming(rest);
    if q.rxne && L > 0 {
      TakePastHead([q.incoming], RxIncoming(rest), L);
    } else if q.rxne {
      assert RxIncoming(irqs)[..L] == [] == RxIncoming(rest)[..L];
    }
  }

  lemma TakePastHead<T>(h: seq<T>, t: seq<T>, n: nat)
    requires |h| <= n <= |h| + |t|
    ensures (h + t)[..n] == h + t[..n - |h|]
  {
    assert (h + t)[..n] == h + t[..n - |h|];
  }

  lemma AppendAssoc<T>(a: seq<T>, b: seq<T>, c: seq<T>)
    ensures a + b + c == a + (b + c)
  {
  }

  /** The run of a non-empty sequence of interrupts on an armed engine starts with one step. */
  lemma RunFirst(e: EngineState, irqs: seq<Irq>)
    requires CursorsAgree(e) && e.armed && irqs != []
    ensures Run(e, irqs) == Run(Step(e, irqs[0].rxne, irqs[0].txe, irqs[0].incoming), irqs[1..])
  {
  }

  /**
   * A transfer from an idle engine, driven by interrupts paced in any order
   * with at least as many RXNE and as many TXE interrupts as the longer range
   * has bytes, completes, and the data register saw the following. Full
   * duplex: the send range was written in order, and the receive buffer ends
   * up holding the bytes of the first RXNE interrupts, in order. Send only:
   * the send range was written and one byte was read and discarded per byte
   * sent. Receive only: one zero was written per byte received, and the
   * buffer holds the bytes read.
   */
  lemma TransferData(e: EngineState, send: seq<byte>, receive: seq<byte>,
                     nextAction: SpiAction, onDone: Callback, irqs: seq<Irq>)
    requires Inv(e) && !e.armed
    requires SizesMatch(send, receive)
    requires Paced(irqs, Max(|send|, |receive|))
    ensures var r := Run(Begin(e, send, receive, nextAction, onDone), irqs);
      var n := Max(|send|, |receive|);
      && !r.armed && Inv(r)
      && Reads(r.trace) == RxIncoming(irqs)[..n]
      && (|send| != 0 ==> Writes(r.trace) == send)
      && (|send| == 0 ==> |Writes(r.trace)| == n && AllZero(Writes(r.trace)))
      && r.tx.data == send
      && (|receive| != 0 ==> r.rx.data == RxIncoming(irqs)[..n])
      && (|receive| == 0 ==> r.rx.data == [])
  {
    var b := Begin(e, send, receive, nextAction, onDone);
    BeginKeepsInv(e, send, receive, nextAction, onDone);
    AnyPacingDrains(b, irqs);
    var r := Run(b, irqs);
    RunKeepsInv(b, irqs);
    assert Writes(b.trace) == [] && Reads(b.trace) == [];
    RunTraceAgrees(b, irqs);
    CompletedTransferAccounted(r);
  }

  /**
   * The pacing of a full-duplex peripheral: the first interrupt finds only
   * TXE (nothing has been shifted in yet); each later one finds the byte
   * shifted in by the previous write, with TXE set again, and the last one
   * finds only RXNE.
   */
  function Lockstep(ins: seq<byte>): seq<Irq>
    requires ins != []
  {
    [Irq(false, true, 0)] + Echo(ins)
  }

  function Echo(ins: seq<byte>): seq<Irq>
    requires ins != []
    decreases |ins|
  {
    if |ins| == 1 then [Irq(true, false, ins[0])]
    else [Irq(true, true, ins[0])] + Echo(ins[1..])
  }

  lemma {:induction false} EchoPaces(ins: seq<byte>)
    requires ins != []
    ensures RxIncoming(Echo(ins)) == ins && TxCount(Echo(ins)) == |ins| - 1 && |Echo(ins)| == |ins|
    decreases |ins|
  {
    var t := Echo(ins);
    if |ins| > 1 {
      EchoPaces(ins[1..]);
      assert t[1..] == Echo(ins[1..]);
      assert RxIncoming(t) == [ins[0]] + ins[1..];
    } else {
      assert t[1..] == [];
    }
  }

  /** Lockstep pacing of n incoming bytes paces a transfer of n bytes each way. */
  lemma LockstepPaces(ins: seq<byte>)
    requires ins != []
    ensures Paced(Lockstep(ins), |ins|) && RxIncoming(Lockstep(ins)) == ins
  {
    var t := Lockstep(ins);
    EchoPaces(ins);
    assert t[1..] == Echo(ins);
  }

  /**
   * A full-duplex transfer paced as the peripheral paces it completes in one
   * interrupt more than it has bytes: the send range is written in order, the
   * receive buffer holds the bytes shifted in, in order, and one dispatcher
   * entry is added.
   */
  lemma LockstepTransfer(e: EngineState, send: seq<byte>, receive: seq<byte>,
                         nextAction: SpiAction, onDone: Callback, ins: seq<byte>)
    requires Inv(e) && !e.armed
    requires |send| == |receive| == |ins| && ins != []
    ensures var r := Run(Begin(e, send, receive, nextAction, onDone), Lockstep(ins));
      && |Lockstep(ins)| == |ins| + 1
      && !r.armed
      && Writes(r.trace) == send
      && r.rx.data == ins
      && r.scheduled == e.scheduled + [onDone]
  {
    LockstepPaces(ins);
    EchoPaces(ins);
    TransferData(e, send, receive, nextAction, onDone, Lockstep(ins));
    TransferBookkeeping(e, send, receive, nextAction, onDone, Lockstep(ins));
    assert ins[..|ins|] == ins;
  }

  /**
   * The same transfer, paced the same way, as seen by the collaborators: exactly one entry for
   * the stored callback is handed to the dispatcher, a chip-select session is started
   * unless the previous request continued one, and it is ended unless this
   * request continues it.
   */
  lemma TransferBookkeeping(e: EngineState, send: seq<byte>, receive: seq<byte>,
                            nextAction: SpiAction, onDone: Callback, irqs: seq<Irq>)
    requires Inv(e) && !e.armed
    requires SizesMatch(send, receive)
    requires Paced(irqs, Max(|send|, |receive|))
    ensures var r := Run(Begin(e, send, receive, nextAction, onDone), irqs);
      && !r.armed && Inv(r)
      && r.scheduled == e.scheduled + [onDone]
      && r.chipSelect == e.chipSelect
      && r.sessionsStarted == e.sessionsStarted + (if e.chipSelect && !e.continuedSession then 1 else 0)
      && r.sessionsEnded == e.sessionsEnded + (if e.chipSelect && nextAction == EndSession then 1 else 0)
      && r.continuedSession == (nextAction == ContinueSession)
  {
    var b := Begin(e, send, receive, nextAction, onDone);
    BeginKeepsInv(e, send, receive, nextAction, onDone);
    AnyPacingDrains(b, irqs);
    RunKeepsInv(b, irqs);
    RunCompletesOnce(b, irqs);
  }

  /** One call of SendAndReceive and the interrupts that drive it. */
  datatype Request = Request(send: seq<byte>, receive: seq<byte>, nextAction: SpiAction,
                             onDone: Callback, irqs: seq<Irq>)

  /** A request SendAndReceive accepts, driven by enough interrupts, paced in any order, to complete. */
  predicate Acceptable(q: Request)
  {
    SizesMatch(q.send, q.receive) && Paced(q.irqs, Max(|q.send|, |q.receive|))
  }

  /**
   * Serve the requests one after the other, each issued once the interrupts
   * of the previous one have run. Serving stops at a request the driver's
   * asserts refuse: one issued while a transfer is still armed (its
   * interrupts did not drain it), or one whose ranges have a shape
   * SendAndReceive does not accept.
   */
  function ServeAll(e: EngineState, reqs: seq<Request>): (r: EngineState)
    requires CursorsAgree(e)
    ensures CursorsAgree(r)
    ensures reqs == [] || e.armed || !SizesMatch(reqs[0].send, reqs[0].receive) ==> r == e
    ensures r.chipSelect == e.chipSelect
    decreases |reqs|
  {
    if reqs == [] || e.armed || !SizesMatch(reqs[0].send, reqs[0].receive) then e
    else
      var q := reqs[0];
      ServeAll(Run(Begin(e, q.send, q.receive, q.nextAction, q.onDone), q.irqs), reqs[1..])
  }

  function Callbacks(reqs: seq<Request>): (cs: seq<Callback>)
    ensures |cs| == |reqs|
  {
    if reqs == [] then [] else [reqs[0].onDone] + Callbacks(reqs[1..])
  }

  /**
   * A chain of requests that all continue the session but the last, which
   * ends it, each driven by enough interrupts paced in any order, is bracketed by exactly one session: one start (none when the
   * previous chain left the session open) and one end, and the dispatcher
   * gets one entry per request, in order, each recorded with the callback
   * stored when it was handed over.
   */
  lemma {:induction false} SessionBracketing(e: EngineState, reqs: seq<Request>)
    requires Inv(e) && !e.armed && e.chipSelect
    requires |reqs| >= 1
    requires forall i | 0 <= i < |reqs| :: Acceptable(reqs[i])
    requires forall i | 0 <= i < |reqs| - 1 :: reqs[i].nextAction == ContinueSession
    requires reqs[|reqs| - 1].nextAction == EndSession
    ensures var r := ServeAll(e, reqs);
      && !r.armed && !r.continuedSession
      && r.sessionsStarted == e.sessionsStarted + (if e.continuedSession then 0 else 1)
      && r.sessionsEnded == e.sessionsEnded + 1
      && r.scheduled == e.scheduled + Callbacks(reqs)
    decreases |reqs|
  {
    var q := reqs[0];
    var s := Run(Begin(e, q.send, q.receive, q.nextAction, q.onDone), q.irqs);
    TransferBookkeeping(e, q.send, q.receive, q.nextAction, q.onDone, q.irqs);
    ServeFirst(e, reqs);
    if |reqs| > 1 {
      var rest := reqs[1..];
      assert forall i | 0 <= i < |rest| - 1 :: rest[i].nextAction == ContinueSession by {
        forall i | 0 <= i < |rest| - 1
          ensures rest[i].nextAction == ContinueSession
        {
          assert rest[i] == reqs[i + 1];
        }
      }
      assert rest[|rest| - 1] == reqs[|reqs| - 1];
      SessionBracketing(s, rest);
      AppendAssoc(e.scheduled, [q.onDone], Callbacks(rest));
    }
  }

  /** Serving a chain on an idle engine serves its first request, then the rest. */
  lemma ServeFirst(e: EngineState, reqs: seq<Request>)
    requires CursorsAgree(e) && !e.armed && reqs != []
    requires forall i | 0 <= i < |reqs| :: Acceptable(reqs[i])
    ensures Acceptable(reqs[0])
    ensures var q := reqs[0];
      var s := Run(Begin(e, q.send, q.receive, q.nextAction, q.onDone), q.irqs);
      && (forall i | 0 <= i < |reqs| - 1 :: Acceptable(reqs[1..][i]))
      && ServeAll(e, reqs) == ServeAll(s, reqs[1..])
      && Callbacks(reqs) == [q.onDone] + Callbacks(reqs[1..])
      && (|reqs| == 1 ==> ServeAll(s, reqs[1..]) == s && Callbacks(reqs[1..]) == [])
  {
    assert Acceptable(reqs[0]);
    assert forall i | 0 <= i < |reqs| - 1 :: reqs[1..][i] == reqs[i + 1];
  }
}
