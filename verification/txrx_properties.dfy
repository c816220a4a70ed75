/** What the streaming controller keeps true across its operations: the
    countdown stays within one batch while streaming and the latched command
    is the immediate chained one, frames are stamped with consecutive
    sequence numbers, exactly one command is enqueued per batch of frames,
    stopping twice is stopping once, and the poll loop runs each fault
    handler exactly when its bit is pending. */
module TxRxProperties {
  import opened U2Types
  import opened RxHardware
  import opened TxRx

  /** While streaming, between 1 and `FramesPerCmd` frames remain in the
      current batch, and the command register holds the command every
      re-arm enqueues. */
  predicate StreamingInvariant(fw: Firmware) {
    fw.session.streaming ==>
      && 1 <= fw.session.frameCount <= FramesPerCmd
      && fw.hw.rx.cmd == ImmediateCmd(fw.session.itemsPerFrame)
  }

  lemma InitialStateKeepsInvariant(hw: Hw, ram: seq<seq<Word>>)
    ensures StreamingInvariant(Firmware(InitialSession, hw, ram))
  {
  }

  lemma RestartEstablishesInvariant(fw: Firmware)
    ensures StreamingInvariant(RestartStreaming(fw))
    ensures RestartStreaming(fw).session.frameCount == FramesPerCmd
  {
  }

  lemma StopKeepsInvariant(fw: Firmware)
    ensures StreamingInvariant(StopRx(fw))
  {
  }

  /** `n` re-arm commands: immediate, time 0, as the command register holds them. */
  function Rearms(cmd: RxCmd, n: nat): (r: seq<Event>)
    ensures |r| == n
    ensures forall k :: 0 <= k < n ==> r[k] == CmdEnqueued(cmd, 0, 0)
  {
    seq(n, _ => CmdEnqueued(cmd, 0, 0))
  }

  lemma CountdownStep(m: nat)
    ensures m % FramesPerCmd == FramesPerCmd - 1 ==>
      (m + 1) % FramesPerCmd == 0 && (m + 1) / FramesPerCmd == m / FramesPerCmd + 1
    ensures m % FramesPerCmd != FramesPerCmd - 1 ==>
      (m + 1) % FramesPerCmd == m % FramesPerCmd + 1 && (m + 1) / FramesPerCmd == m / FramesPerCmd
  {
  }

  /** A run of the inspector over `k` frames, from a countdown of `c`:
      with `m = k + FramesPerCmd - c`, the countdown ends at
      `FramesPerCmd - m % FramesPerCmd` and `m / FramesPerCmd` re-arm
      commands have been enqueued, nothing else; without streaming nothing
      at all happens to the hardware. */
  lemma {:induction false} InspectAllCountdown(fw: Firmware, bufs: seq<nat>)
    requires AllInspectable(fw.ram, bufs) && StreamingInvariant(fw)
    ensures var r := InspectAll(fw, bufs);
      var m := |bufs| + FramesPerCmd - fw.session.frameCount;
      && StreamingInvariant(r)
      && r.hw.rx.cmd == fw.hw.rx.cmd
      && (fw.session.streaming ==>
            && m >= 0
            && r.session.frameCount == FramesPerCmd - m % FramesPerCmd
            && r.hw.log == fw.hw.log + Rearms(fw.hw.rx.cmd, m / FramesPerCmd))
      && (!fw.session.streaming ==> r.hw == fw.hw)
  {
    if fw.session.streaming {
      InspectAllCounts(fw, bufs);
      CountdownClosedForm(fw.session.frameCount, |bufs|);
    }
  }

  /** The countdown after `k` frames from `c`, frame by frame as the
      inspector counts while streaming: down by one, back to
      `FramesPerCmd` where it would reach zero. */
  function Countdown(c: int, k: nat): int
    decreases k
  {
    if k == 0 then c
    else if Countdown(c, k - 1) == 1 then FramesPerCmd
    else Countdown(c, k - 1) - 1
  }

  /** How many of those `k` frames enqueued a re-arm command. */
  function Rearmed(c: int, k: nat): nat
    decreases k
  {
    if k == 0 then 0
    else Rearmed(c, k - 1) + (if Countdown(c, k - 1) == 1 then 1 else 0)
  }

  /** While streaming, the inspector follows the frame-by-frame countdown
      and enqueues one re-arm per return to `FramesPerCmd`. */
  lemma {:induction false} InspectAllCounts(fw: Firmware, bufs: seq<nat>)
    requires AllInspectable(fw.ram, bufs) && fw.session.streaming
    ensures var r := InspectAll(fw, bufs);
      && r.session.frameCount == Countdown(fw.session.frameCount, |bufs|)
      && r.hw.log == fw.hw.log + Rearms(fw.hw.rx.cmd, Rearmed(fw.session.frameCount, |bufs|))
    decreases |bufs|
  {
    if |bufs| == 0 {
      assert fw.hw.log + Rearms(fw.hw.rx.cmd, 0) == fw.hw.log;
    } else {
      var front := bufs[..|bufs| - 1];
      assert AllInspectable(fw.ram, front);
      InspectAllCounts(fw, front);
      InspectCountsOne(InspectAll(fw, front), bufs[|bufs| - 1], fw.hw.log, fw.session.frameCount, |front|);
    }
  }

  /** One inspected frame takes the countdown one step along. */
  lemma InspectCountsOne(prev: Firmware, b: nat, log0: seq<Event>, c: int, k: nat)
    requires CanInspect(prev.ram, b) && prev.session.streaming
    requires prev.session.frameCount == Countdown(c, k)
    requires prev.hw.log == log0 + Rearms(prev.hw.rx.cmd, Rearmed(c, k))
    ensures var r := Inspect(prev, b).0;
      && r.session.frameCount == Countdown(c, k + 1)
      && r.hw.log == log0 + Rearms(prev.hw.rx.cmd, Rearmed(c, k + 1))
  {
    var cmd := prev.hw.rx.cmd;
    var n := Rearmed(c, k);
    if prev.session.frameCount == 1 {
      assert Rearms(cmd, n) + [CmdEnqueued(cmd, 0, 0)] == Rearms(cmd, n + 1);
    }
  }

  /** The countdown in closed form: with `m = k + FramesPerCmd - c`, it reads
      `FramesPerCmd - m % FramesPerCmd` after `m / FramesPerCmd` re-arms. */
  lemma {:induction false} CountdownClosedForm(c: int, k: nat)
    requires 1 <= c <= FramesPerCmd
    ensures var m := k + FramesPerCmd - c;
      && Countdown(c, k) == FramesPerCmd - m % FramesPerCmd
      && Rearmed(c, k) == m / FramesPerCmd
    decreases k
  {
    if k == 0 {
      assert 0 <= FramesPerCmd - c < FramesPerCmd;
    } else {
      CountdownClosedForm(c, k - 1);
      CountdownStep(k - 1 + FramesPerCmd - c);
    }
  }

  /** The inspector keeps the invariant. */
  lemma InspectKeepsInvariant(fw: Firmware, b: nat)
    requires CanInspect(fw.ram, b) && StreamingInvariant(fw)
    ensures StreamingInvariant(Inspect(fw, b).0)
  {
  }

  /** The `j`-th frame of a run is stamped with the counter's value plus `j`,
      modulo 256. */
  lemma {:induction false} StampsInOrder(fw: Firmware, bufs: seq<nat>, j: nat)
    requires AllInspectable(fw.ram, bufs) && j < |bufs|
    ensures AllInspectable(fw.ram, bufs[..j + 1])
    ensures var r := InspectAll(fw, bufs[..j + 1]);
      SeqnoField(r.ram[bufs[j]][SeqnoLine]) == LowByte(fw.session.seqno + j)
  {
    var upto := bufs[..j + 1];
    assert AllInspectable(fw.ram, upto);
    assert upto[..|upto| - 1] == bufs[..j];
    assert AllInspectable(fw.ram, bufs[..j]);
    var prev := InspectAll(fw, bufs[..j]);
    assert prev.session.seqno == fw.session.seqno + j;
  }

  /** Start preloads the Rx buffers without changing any buffer's size. */
  lemma StartKeepsBufferSizes(fw: Firmware, host: MacAddr, op: StartOp, plat: Platform, bufs: seq<nat>)
    requires CanPreload(fw.ram, plat.image(FrameHeader(host, plat)))
    requires AllInspectable(fw.ram, bufs)
    ensures AllInspectable(StartRxStreaming(fw, host, op, plat).ram, bufs)
  {
    var r := StartRxStreaming(fw, host, op, plat);
    forall i | 0 <= i < |bufs|
      ensures CanInspect(r.ram, bufs[i])
    {
      assert CanInspect(fw.ram, bufs[i]);
    }
  }

  /** After a start, the `k`-th frame inspected (counting from 0) carries
      sequence number `k mod 256`. */
  lemma StartThenStampsFromZero(fw: Firmware, host: MacAddr, op: StartOp, plat: Platform, bufs: seq<nat>, k: nat)
    requires CanPreload(fw.ram, plat.image(FrameHeader(host, plat)))
    requires AllInspectable(fw.ram, bufs) && k < |bufs|
    ensures AllInspectable(StartRxStreaming(fw, host, op, plat).ram, bufs[..k + 1])
    ensures var r := InspectAll(StartRxStreaming(fw, host, op, plat), bufs[..k + 1]);
      SeqnoField(r.ram[bufs[k]][SeqnoLine]) == LowByte(k)
  {
    StartKeepsBufferSizes(fw, host, op, plat, bufs);
    StampsInOrder(StartRxStreaming(fw, host, op, plat), bufs, k);
  }

  /** A restart enqueues exactly two commands: one batch each,
      chained; the first at the requested time (immediate exactly when the
      requested ticks are the "now" value), the second immediate at time 0. */
  lemma RestartEnqueuesTwo(fw: Firmware)
    ensures var s := fw.session;
      var lines := BatchLines(s.itemsPerFrame);
      Commands(RestartStreaming(fw).hw.log) == Commands(fw.hw.log) + [
        CmdEnqueued(RxCmd(lines, s.timeTics == TimeNow, true), s.timeSecs, s.timeTics),
        CmdEnqueued(RxCmd(lines, true, true), 0, 0)]
  {
    var s := fw.session;
    var lines := BatchLines(s.itemsPerFrame);
    var first := CmdEnqueued(RxCmd(lines, s.timeTics == TimeNow, true), s.timeSecs, s.timeTics);
    var second := CmdEnqueued(RxCmd(lines, true, true), 0, 0);
    var events := [ClearOverrun, DbsmStarted(DspRxSm), first, second];
    CommandsAppend(fw.hw.log, events);
    RestartEventCommands(first, second);
  }

  lemma RestartEventCommands(first: Event, second: Event)
    requires first.CmdEnqueued? && second.CmdEnqueued?
    ensures Commands([ClearOverrun, DbsmStarted(DspRxSm), first, second]) == [first, second]
  {
    var e := [ClearOverrun, DbsmStarted(DspRxSm), first, second];
    assert e[..3] == [ClearOverrun, DbsmStarted(DspRxSm), first];
    assert e[..3][..2] == [ClearOverrun, DbsmStarted(DspRxSm)];
    assert e[..3][..2][..1] == [ClearOverrun];
    assert e[..3][..2][..1][..0] == [];
    assert Commands(e[..3][..2]) == [];
    assert Commands(e[..3]) == [first];
  }

  /** A start followed by `k` frames: the counter reads `k`, and the
      commands enqueued since are the two of the start and then
      one immediate command per completed batch of `FramesPerCmd` frames. */
  lemma StartThenFrames(fw: Firmware, host: MacAddr, op: StartOp, plat: Platform, bufs: seq<nat>)
    requires CanPreload(fw.ram, plat.image(FrameHeader(host, plat)))
    requires AllInspectable(fw.ram, bufs)
    ensures AllInspectable(StartRxStreaming(fw, host, op, plat).ram, bufs)
    ensures var r := InspectAll(StartRxStreaming(fw, host, op, plat), bufs);
      var lines := BatchLines(op.itemsPerFrame);
      && r.session.streaming
      && r.session.seqno == |bufs|
      && r.session.frameCount == FramesPerCmd - |bufs| % FramesPerCmd
      && Commands(r.hw.log) == Commands(fw.hw.log) + [
           CmdEnqueued(RxCmd(lines, op.timeTics == TimeNow, true), op.timeSecs, op.timeTics),
           CmdEnqueued(RxCmd(lines, true, true), 0, 0)]
           + Rearms(RxCmd(lines, true, true), |bufs| / FramesPerCmd)
  {
    StartKeepsBufferSizes(fw, host, op, plat, bufs);
    var s := StartRxStreaming(fw, host, op, plat);
    var before := s.(hw := fw.hw, session := s.session.(streaming := fw.session.streaming, frameCount := fw.session.frameCount));
    RestartEnqueuesTwo(before);
    InspectAllCountdown(s, bufs);
    var lines := BatchLines(op.itemsPerFrame);
    var rearms := Rearms(RxCmd(lines, true, true), |bufs| / FramesPerCmd);
    CommandsAppend(s.hw.log, rearms);
    CommandsOfRearms(RxCmd(lines, true, true), |bufs| / FramesPerCmd);
  }

  /** A run of frames after a start keeps the sample and VRT registers the
      restart programmed. */
  lemma StartThenFramesKeepsRegisters(fw: Firmware, host: MacAddr, op: StartOp, plat: Platform, bufs: seq<nat>)
    requires CanPreload(fw.ram, plat.image(FrameHeader(host, plat)))
    requires AllInspectable(fw.ram, bufs)
    ensures AllInspectable(StartRxStreaming(fw, host, op, plat).ram, bufs)
    ensures var r := InspectAll(StartRxStreaming(fw, host, op, plat), bufs);
      && r.hw.rx.nsamplesPerPkt == op.itemsPerFrame
      && r.hw.rx.nchannels == 1
      && r.hw.rx.vrtHeader.flags == RxVrtFlags
      && r.hw.rx.vrtHeader.frameWords == (VrtHeaderWords + op.itemsPerFrame + VrtTrailerWords) % 0x1_0000_0000
      && r.hw.rx.vrtStreamId == 0 && r.hw.rx.vrtTrailer == 0
      && r.hw.rx.cmd == ImmediateCmd(op.itemsPerFrame)
  {
    StartKeepsBufferSizes(fw, host, op, plat, bufs);
  }

  lemma {:induction false} CommandsOfRearms(cmd: RxCmd, n: nat)
    ensures Commands(Rearms(cmd, n)) == Rearms(cmd, n)
    decreases n
  {
    if n > 0 {
      assert Rearms(cmd, n)[..n - 1] == Rearms(cmd, n - 1);
      CommandsOfRearms(cmd, n - 1);
    }
  }

  /** One full batch after a start with the "now" start time: three
      commands in all, the counter at `FramesPerCmd`, a full batch ahead. */
  lemma StartThenOneBatch(fw: Firmware, host: MacAddr, items: U32, plat: Platform, bufs: seq<nat>)
    requires CanPreload(fw.ram, plat.image(FrameHeader(host, plat)))
    requires AllInspectable(fw.ram, bufs) && |bufs| == FramesPerCmd
    ensures AllInspectable(StartRxStreaming(fw, host, StartOp(items, TimeNow, TimeNow), plat).ram, bufs)
    ensures var r := InspectAll(StartRxStreaming(fw, host, StartOp(items, TimeNow, TimeNow), plat), bufs);
      && r.session.seqno == FramesPerCmd
      && r.session.frameCount == FramesPerCmd
      && |Commands(r.hw.log)| == |Commands(fw.hw.log)| + 3
      && Commands(r.hw.log)[|Commands(fw.hw.log)| + 2] == CmdEnqueued(ImmediateCmd(items), 0, 0)
  {
    StartThenFrames(fw, host, StartOp(items, TimeNow, TimeNow), plat, bufs);
  }

  /** Stopping again only repeats the register pulse and the buffer clears. */
  lemma StopIdempotent(fw: Firmware)
    ensures var once := StopRx(fw);
      StopRx(once) == once.(hw := once.hw.(log := once.hw.log + StopEvents))
  {
  }

  /** A restart followed by a stop: streaming off, both Rx buffers cleared
      last, after the two commands of the restart and the queue flush. */
  lemma RestartThenStop(fw: Firmware)
    ensures var r := StopRx(RestartStreaming(fw));
      && !r.session.streaming
      && |r.hw.log| == |fw.hw.log| + 7
      && r.hw.log[|r.hw.log| - 2..] == [BufferCleared(DspRxBuf0), BufferCleared(DspRxBuf1)]
      && r.hw.log[|r.hw.log| - 3] == ClearOverrun
      && r.hw.log[|r.hw.log| - 4].CmdEnqueued? && r.hw.log[|r.hw.log| - 5].CmdEnqueued?
  {
  }

  /** A poll keeps the invariant. */
  lemma StepKeepsInvariant(fw: Firmware, status: U32, rxInspected: seq<nat>, pending: Pending)
    requires RxBuffersInspectable(fw.ram) && RxPairOnly(rxInspected) && StreamingInvariant(fw)
    ensures StreamingInvariant(Step(fw, status, rxInspected, pending))
  {
    var hw := Emit(Emit(fw.hw, StatusProcessed(DspTxSm, status)), StatusProcessed(DspRxSm, status));
    var fw1 := fw.(hw := hw);
    assert AllInspectable(fw1.ram, rxInspected);
    InspectAllCountdown(fw1, rxInspected);
  }

  /** The events one poll adds to the log: the two status hand-offs, the
      re-arms the inspector enqueued, then the events of the pending faults. */
  function PollEvents(status: U32, cmd: RxCmd, rearms: nat, pending: Pending): seq<Event> {
    [StatusProcessed(DspTxSm, status), StatusProcessed(DspRxSm, status)]
    + Rearms(cmd, rearms)
    + (if pending.underrun then UnderrunEvents else [])
    + (if pending.overrun then OverrunEvents else [])
  }

  /** The buffer handler logs the two status hand-offs, then only re-arms. */
  lemma BufferIrqHandlerAddsRearms(fw: Firmware, status: U32, rxInspected: seq<nat>) returns (rearms: nat)
    requires RxBuffersInspectable(fw.ram) && RxPairOnly(rxInspected) && StreamingInvariant(fw)
    ensures BufferIrqHandler(fw, status, rxInspected).hw.log ==
      fw.hw.log + [StatusProcessed(DspTxSm, status), StatusProcessed(DspRxSm, status)] + Rearms(fw.hw.rx.cmd, rearms)
  {
    var hw := Emit(Emit(fw.hw, StatusProcessed(DspTxSm, status)), StatusProcessed(DspRxSm, status));
    var fw1 := fw.(hw := hw);
    assert AllInspectable(fw1.ram, rxInspected);
    InspectAllCountdown(fw1, rxInspected);
    if fw.session.streaming {
      rearms := (|rxInspected| + FramesPerCmd - fw.session.frameCount) / FramesPerCmd;
    } else {
      rearms := 0;
      assert Rearms(fw.hw.rx.cmd, 0) == [];
    }
  }

  lemma StepAddsPollEvents(fw: Firmware, status: U32, rxInspected: seq<nat>, pending: Pending) returns (rearms: nat)
    requires RxBuffersInspectable(fw.ram) && RxPairOnly(rxInspected) && StreamingInvariant(fw)
    ensures Step(fw, status, rxInspected, pending).hw.log == fw.hw.log + PollEvents(status, fw.hw.rx.cmd, rearms, pending)
  {
    rearms := BufferIrqHandlerAddsRearms(fw, status, rxInspected);
  }

  /** Among the events of one poll, an event that is neither a status
      hand-off nor a command occurs only within the fault handlers' events. */
  lemma {:induction false} PollEventOccurrences(status: U32, cmd: RxCmd, n: nat, pending: Pending, e: Event)
    requires !e.StatusProcessed? && !e.CmdEnqueued?
    ensures Occurrences(PollEvents(status, cmd, n, pending), e) ==
      (if pending.underrun then Occurrences(UnderrunEvents, e) else 0) +
      (if pending.overrun then Occurrences(OverrunEvents, e) else 0)
  {
    var st := [StatusProcessed(DspTxSm, status), StatusProcessed(DspRxSm, status)];
    var u := if pending.underrun then UnderrunEvents else [];
    var o := if pending.overrun then OverrunEvents else [];
    OccurrencesAppend(st + Rearms(cmd, n) + u, o, e);
    OccurrencesAppend(st + Rearms(cmd, n), u, e);
    OccurrencesAppend(st, Rearms(cmd, n), e);
    assert e !in st;
    assert e !in Rearms(cmd, n);
  }

  /** Each handler's action and marker occur once among its own events and
      not at all among the other handler's. */
  lemma FaultEventCounts()
    ensures Occurrences(UnderrunEvents, TxUnderrunHandled) == 1
    ensures Occurrences(UnderrunEvents, ConsoleOut('U')) == 1
    ensures Occurrences(OverrunEvents, RxOverrunHandled) == 1
    ensures Occurrences(OverrunEvents, ConsoleOut('O')) == 1
    ensures Occurrences(UnderrunEvents, RxOverrunHandled) == 0
    ensures Occurrences(UnderrunEvents, ConsoleOut('O')) == 0
    ensures Occurrences(OverrunEvents, TxUnderrunHandled) == 0
    ensures Occurrences(OverrunEvents, ConsoleOut('U')) == 0
    ensures Occurrences(UnderrunEvents, ClearOverrun) == 0 && Occurrences(OverrunEvents, ClearOverrun) == 0
    ensures Occurrences(UnderrunEvents, DbsmStarted(DspRxSm)) == 0 && Occurrences(OverrunEvents, DbsmStarted(DspRxSm)) == 0
  {
    assert UnderrunEvents[..2][..1] == [TxUnderrunHandled];
    assert OverrunEvents[..2][..1] == [RxOverrunHandled];
  }

  /** In one poll the underrun handler runs exactly when the underrun bit is
      pending and the overrun handler exactly when the overrun bit is; each
      marker is printed as often as its handler runs; streaming is what it
      was, and no restart happens (no clear-overrun pulse, no start of the
      Rx state machine). */
  lemma StepRunsHandlersIffPending(fw: Firmware, status: U32, rxInspected: seq<nat>, pending: Pending)
    requires RxBuffersInspectable(fw.ram) && RxPairOnly(rxInspected) && StreamingInvariant(fw)
    ensures var r := Step(fw, status, rxInspected, pending);
      && |r.hw.log| >= |fw.hw.log|
      && r.session.streaming == fw.session.streaming
      && var added := r.hw.log[|fw.hw.log|..];
      && Occurrences(added, TxUnderrunHandled) == (if pending.underrun then 1 else 0)
      && Occurrences(added, ConsoleOut('U')) == (if pending.underrun then 1 else 0)
      && Occurrences(added, RxOverrunHandled) == (if pending.overrun then 1 else 0)
      && Occurrences(added, ConsoleOut('O')) == (if pending.overrun then 1 else 0)
      && Occurrences(added, ClearOverrun) == 0
      && Occurrences(added, DbsmStarted(DspRxSm)) == 0
  {
    var n := StepAddsPollEvents(fw, status, rxInspected, pending);
    var log := Step(fw, status, rxInspected, pending).hw.log;
    assert log[|fw.hw.log|..] == PollEvents(status, fw.hw.rx.cmd, n, pending);
    PollEventOccurrences(status, fw.hw.rx.cmd, n, pending, TxUnderrunHandled);
    PollEventOccurrences(status, fw.hw.rx.cmd, n, pending, ConsoleOut('U'));
    PollEventOccurrences(status, fw.hw.rx.cmd, n, pending, RxOverrunHandled);
    PollEventOccurrences(status, fw.hw.rx.cmd, n, pending, ConsoleOut('O'));
    PollEventOccurrences(status, fw.hw.rx.cmd, n, pending, ClearOverrun);
    PollEventOccurrences(status, fw.hw.rx.cmd, n, pending, DbsmStarted(DspRxSm));
    FaultEventCounts();
  }
}
