/** The firmware's full-duplex streaming application: the DSP Rx streaming
    session (start, restart, stop), the inspector that stamps sequence
    numbers into frames on their way to Ethernet and keeps the hardware
    command queue topped up, and one iteration of the poll loop that feeds
    buffer-pool status to both double-buffer state machines and handles
    underrun and overrun. The state machines themselves are opaque: their
    activity is recorded in the event log, and which Rx buffers they hand
    to the inspector during a poll is an input. */
module TxRx {
  import opened U2Types
  import opened RxHardware

  // Buffers 2 and 3 double-buffer DSP Rx to Ethernet (buffers 4 and 5,
  // Ethernet to DSP Tx, belong to the Tx state machine, which is not part
  // of this model).
  const DspRxBuf0: nat := 2
  const DspRxBuf1: nat := 3

  /** Frames one receive command covers before another must be enqueued. */
  const FramesPerCmd: int := 1000
  const VrtHeaderWords: int := 5
  const VrtTrailerWords: int := 1

  /** The start time meaning "start now". */
  const TimeNow: U32 := 0xFFFF_FFFF

  /** The line of the buffer word the inspector stamps. */
  const SeqnoLine: nat := 4

  // ---------------------------------------------------------------
  // Buffer descriptors of the two double-buffer state machines
  // ---------------------------------------------------------------

  datatype Port = PortEth | PortDsp

  /** Where a transfer ends: at the line the hardware reported (written as
      0 in the source), or at the end of the buffer (`BP_LAST_LINE`). */
  datatype LastLine = ReportedLastLine | BufferLastLine

  /** `buf_cmd_args_t`: port, first line, last line. */
  datatype BufCmdArgs = BufCmdArgs(port: Port, firstLine: nat, lastLine: LastLine)

  /** The byte sizes of the Ethernet and transport headers that precede the
      DSP data in every buffer. */
  datatype HeaderSizes = HeaderSizes(ethHdrBytes: nat, transportHdrBytes: nat)

  predicate LineAligned(h: HeaderSizes) {
    (h.ethHdrBytes + h.transportHdrBytes) % 4 == 0
  }

  /** `DSP_TX_FIRST_LINE` and `DSP_RX_FIRST_LINE`: the first whole line
      past the two headers, by truncating division. */
  function DspFirstLine(h: HeaderSizes): (line: nat)
    ensures 4 * line <= h.ethHdrBytes + h.transportHdrBytes < 4 * line + 4
  {
    (h.ethHdrBytes + h.transportHdrBytes) / 4
  }

  function DspTxRecvArgs(): BufCmdArgs {
    BufCmdArgs(PortEth, 0, BufferLastLine)
  }

  function DspTxSendArgs(h: HeaderSizes): BufCmdArgs {
    BufCmdArgs(PortDsp, DspFirstLine(h), ReportedLastLine)
  }

  function DspRxRecvArgs(h: HeaderSizes): BufCmdArgs {
    BufCmdArgs(PortDsp, DspFirstLine(h), BufferLastLine)
  }

  function DspRxSendArgs(): BufCmdArgs {
    BufCmdArgs(PortEth, 0, ReportedLastLine)
  }

  /** Both DSP-side transfers start at the same line, just past the headers
      (exactly past them when the headers fill whole lines), while the
      Ethernet side sends from line 0, header included; with the header
      sizes the source's comments give (four lines of Ethernet header, one
      of transport header), the stamped line lies in the transport header,
      below any DSP data. */
  lemma DescriptorsSkipHeaders(h: HeaderSizes)
    ensures DspTxSendArgs(h).firstLine == DspRxRecvArgs(h).firstLine
    ensures DspTxSendArgs(h).port == PortDsp && DspRxRecvArgs(h).port == PortDsp
    ensures LineAligned(h) ==> 4 * DspRxRecvArgs(h).firstLine == h.ethHdrBytes + h.transportHdrBytes
    ensures DspRxSendArgs().firstLine == 0 && DspTxRecvArgs().firstLine == 0
    ensures h == HeaderSizes(16, 4) ==>
      DspRxRecvArgs(h).firstLine == 5 && 4 * SeqnoLine >= h.ethHdrBytes && SeqnoLine < DspRxRecvArgs(h).firstLine
  {
  }

  // ---------------------------------------------------------------
  // Streaming session
  // ---------------------------------------------------------------

  /** The streaming variables: the host frames are sent to, whether
      streaming is on, items per frame, the requested start time, the
      frames left before the next command must be enqueued, and the
      firmware sequence counter (unbounded; only its low 8 bits are ever
      written to a frame). */
  datatype Session = Session(
    hostMac: MacAddr,
    streaming: bool,
    itemsPerFrame: U32,
    timeSecs: U32,
    timeTics: U32,
    frameCount: int,
    seqno: int)

  /** The session as the firmware starts. */
  const InitialSession := Session([0, 0, 0, 0, 0, 0], false, 0, TimeNow, TimeNow, 0, 0)

  /** Session, hardware registers and log, and buffer memory (one sequence
      of lines per pool buffer). */
  datatype Firmware = Firmware(session: Session, hw: Hw, ram: seq<seq<Word>>)

  /** `op_start_rx_streaming_t`. */
  datatype StartOp = StartOp(itemsPerFrame: U32, timeSecs: U32, timeTics: U32)

  /** An Ethernet packet header: destination, source, ethertype; every other
      field is zero. */
  datatype EthPacket = EthPacket(dst: MacAddr, src: MacAddr, ethertype: U32)

  /** What the firmware takes from its surroundings when it builds a frame
      header: its own address, the data ethertype, and the line image a
      packet header occupies in buffer memory. */
  datatype Platform = Platform(ownMac: MacAddr, dataEthertype: U32, image: EthPacket -> seq<Word>)

  /** The header every outbound sample frame to `host` starts with. */
  function FrameHeader(host: MacAddr, plat: Platform): (pkt: EthPacket)
    ensures pkt.dst == host && pkt.src == plat.ownMac && pkt.ethertype == plat.dataEthertype
  {
    EthPacket(host, plat.ownMac, plat.dataEthertype)
  }

  /** The command length the controller uses: one batch of frames. */
  function BatchLines(itemsPerFrame: U32): (lines: U32)
    ensures lines == (FramesPerCmd * itemsPerFrame) % 0x1_0000_0000
    ensures FramesPerCmd * itemsPerFrame < 0x1_0000_0000 ==> lines == FramesPerCmd * itemsPerFrame
    ensures lines % 8 == 0
  {
    BatchAligned(itemsPerFrame);
    ToU32(FramesPerCmd * itemsPerFrame)
  }

  /** A multiple of 1000 stays a multiple of 8 when reduced mod 2^32, since
      both moduli are multiples of 8. */
  lemma BatchAligned(y: int)
    ensures (FramesPerCmd * y) % 0x1_0000_0000 % 8 == 0
  {
    var q := (FramesPerCmd * y) / 0x1_0000_0000;
    var r := (FramesPerCmd * y) % 0x1_0000_0000;
    assert FramesPerCmd * y == q * 0x1_0000_0000 + r;
    assert r == 8 * (125 * y - q * 0x2000_0000);
  }

  /** The command every command after the first of a session carries:
      one batch, immediate, chained. */
  function ImmediateCmd(itemsPerFrame: U32): RxCmd {
    RxCmd(BatchLines(itemsPerFrame), true, true)
  }

  const RxVrtFlags: set<VrtFlag> := {PtIfDataWithSid, HasTrailer, TsiOther, TsfSampleCnt}

  /** `restart_streaming`: program the Rx registers, turn streaming on,
      start the Rx state machine and enqueue two chained commands, the
      first at the requested time and the second immediately after it. */
  function RestartStreaming(fw: Firmware): (r: Firmware)
    ensures r.session == fw.session.(streaming := true, frameCount := FramesPerCmd)
    ensures r.ram == fw.ram
    ensures var items := fw.session.itemsPerFrame;
      && r.hw.rx.nsamplesPerPkt == items
      && r.hw.rx.nchannels == 1
      && r.hw.rx.vrtHeader.flags == RxVrtFlags
      && r.hw.rx.vrtHeader.frameWords == (VrtHeaderWords + items + VrtTrailerWords) % 0x1_0000_0000
      && r.hw.rx.vrtStreamId == 0 && r.hw.rx.vrtTrailer == 0
      && r.hw.rx.cmd == ImmediateCmd(items)
      && r.hw.rx.timeSecs == 0 && r.hw.rx.timeTics == 0
    ensures var s := fw.session;
      r.hw.log == fw.hw.log + [
        ClearOverrun,
        DbsmStarted(DspRxSm),
        CmdEnqueued(RxCmd(BatchLines(s.itemsPerFrame), s.timeTics == TimeNow, true), s.timeSecs, s.timeTics),
        CmdEnqueued(RxCmd(BatchLines(s.itemsPerFrame), true, true), 0, 0)]
  {
    var s := fw.session;
    var hw0 := fw.hw.(rx := fw.hw.rx.(nsamplesPerPkt := s.itemsPerFrame, nchannels := 1));
    var hw1 := PulseClearOverrun(hw0);
    var header := VrtHeader(RxVrtFlags, ToU32(VrtHeaderWords + s.itemsPerFrame + VrtTrailerWords));
    var hw2 := hw1.(rx := hw1.rx.(vrtHeader := header, vrtStreamId := 0, vrtTrailer := 0));
    var s' := s.(streaming := true, frameCount := FramesPerCmd);
    var hw3 := WriteCmd(hw2, RxCmd(BatchLines(s.itemsPerFrame), s.timeTics == TimeNow, true));
    var hw4 := Emit(hw3, DbsmStarted(DspRxSm));
    var hw5 := WriteTimeTics(WriteTimeSecs(hw4, s.timeSecs), s.timeTics);
    var hw6 := WriteCmd(hw5, ImmediateCmd(s.itemsPerFrame));
    var hw7 := WriteTimeTics(WriteTimeSecs(hw6, 0), 0);
    Firmware(s', hw7, fw.ram)
  }

  /** `memcpy_wa` of a line image to the start of a buffer. */
  function WriteImage(buf: seq<Word>, img: seq<Word>): (r: seq<Word>)
    requires |img| <= |buf|
    ensures |r| == |buf| && r[..|img|] == img && r[|img|..] == buf[|img|..]
  {
    img + buf[|img|..]
  }

  /** The buffers a start preloads with the frame header are in the pool
      and large enough for it. */
  predicate CanPreload(ram: seq<seq<Word>>, img: seq<Word>) {
    DspRxBuf1 < |ram| && |img| <= |ram[DspRxBuf0]| && |img| <= |ram[DspRxBuf1]|
  }

  /** `start_rx_streaming_cmd`: remember the host, preload both Rx buffers
      with the same frame header, reset the sequence counter, record the
      request, then restart streaming. */
  function StartRxStreaming(fw: Firmware, host: MacAddr, op: StartOp, plat: Platform): (r: Firmware)
    requires CanPreload(fw.ram, plat.image(FrameHeader(host, plat)))
    ensures var img := plat.image(FrameHeader(host, plat));
      && |r.ram| == |fw.ram|
      && |r.ram[DspRxBuf0]| == |fw.ram[DspRxBuf0]| && |r.ram[DspRxBuf1]| == |fw.ram[DspRxBuf1]|
      && r.ram[DspRxBuf0][..|img|] == img && r.ram[DspRxBuf1][..|img|] == img
      && r.ram[DspRxBuf0][|img|..] == fw.ram[DspRxBuf0][|img|..]
      && r.ram[DspRxBuf1][|img|..] == fw.ram[DspRxBuf1][|img|..]
      && (forall b :: 0 <= b < |fw.ram| && b != DspRxBuf0 && b != DspRxBuf1 ==> r.ram[b] == fw.ram[b])
    ensures r.session.hostMac == host && r.session.seqno == 0
    ensures r.session.itemsPerFrame == op.itemsPerFrame
    ensures r.session.timeSecs == op.timeSecs && r.session.timeTics == op.timeTics
    ensures r == RestartStreaming(r.(hw := fw.hw, session := r.session.(streaming := fw.session.streaming, frameCount := fw.session.frameCount)))
  {
    var img := plat.image(FrameHeader(host, plat));
    var ram := fw.ram[DspRxBuf0 := WriteImage(fw.ram[DspRxBuf0], img)];
    var ram' := ram[DspRxBuf1 := WriteImage(ram[DspRxBuf1], img)];
    var s := fw.session.(hostMac := host, seqno := 0, itemsPerFrame := op.itemsPerFrame,
                         timeSecs := op.timeSecs, timeTics := op.timeTics);
    RestartStreaming(Firmware(s, fw.hw, ram'))
  }

  /** The events `stop_rx_cmd` leaves in the log. */
  const StopEvents: seq<Event> := [ClearOverrun, BufferCleared(DspRxBuf0), BufferCleared(DspRxBuf1)]

  /** `stop_rx_cmd`: streaming off, flush the command queue, clear both Rx
      buffers. */
  function StopRx(fw: Firmware): (r: Firmware)
    ensures !r.session.streaming
    ensures r.session == fw.session.(streaming := false)
    ensures r.ram == fw.ram && r.hw.rx == fw.hw.rx
    ensures r.hw.log == fw.hw.log + StopEvents
  {
    var hw0 := PulseClearOverrun(fw.hw);
    var hw1 := Emit(Emit(hw0, BufferCleared(DspRxBuf0)), BufferCleared(DspRxBuf1));
    Firmware(fw.session.(streaming := false), hw1, fw.ram)
  }

  // ---------------------------------------------------------------
  // Sequence-number inspector
  // ---------------------------------------------------------------

  /** Bits 8 to 15 of a word: where the inspector puts the sequence number. */
  function SeqnoField(w: Word): (f: Word)
    ensures f < 256
  {
    (w >> 8) & 0xff
  }

  /** The low 8 bits of the sequence counter, as a word. */
  function LowByte(seqno: int): (b: Word)
    ensures b < 256
  {
    (seqno % 256) as bv32
  }

  /** The bits the stamp must not touch. */
  const KeepMask: Word := 0xffff_00ff

  /** `(t & 0xffff00ff) | ((seqno & 0xff) << 8)`: the word with its
      sequence-number field replaced by `low`. */
  function Stamp(t: Word, low: Word): (r: Word)
    requires low < 256
    ensures SeqnoField(r) == low
    ensures r & KeepMask == t & KeepMask
  {
    (t & KeepMask) | (low << 8)
  }

  /** Buffer `b` is in the pool and holds the stamped line. */
  predicate CanInspect(ram: seq<seq<Word>>, b: nat) {
    b < |ram| && SeqnoLine < |ram[b]|
  }

  /** Line 4 of buffer `b` stamped with `seqno`; every other line and
      buffer as it was. */
  function StampBuffer(ram: seq<seq<Word>>, b: nat, seqno: int): (r: seq<seq<Word>>)
    requires CanInspect(ram, b)
    ensures |r| == |ram|
    ensures forall c :: 0 <= c < |ram| && c != b ==> r[c] == ram[c]
    ensures |r[b]| == |ram[b]|
    ensures forall k :: 0 <= k < |r[b]| && k != SeqnoLine ==> r[b][k] == ram[b][k]
    ensures SeqnoField(r[b][SeqnoLine]) == LowByte(seqno)
    ensures r[b][SeqnoLine] & KeepMask == ram[b][SeqnoLine] & KeepMask
  {
    var p := ram[b];
    ram[b := p[SeqnoLine := Stamp(p[SeqnoLine], LowByte(seqno))]]
  }

  /** `fw_sets_seqno_inspector`: stamp the low 8 bits of the counter into
      bits 8..15 of line 4, count the frame, and when streaming and a batch
      is used up, enqueue one more immediate command. Returns the new state
      and whether the inspector handled the frame itself (never). */
  function Inspect(fw: Firmware, bufThis: nat): (r: (Firmware, bool))
    requires CanInspect(fw.ram, bufThis)
    ensures !r.1
    ensures r.0.ram == StampBuffer(fw.ram, bufThis, fw.session.seqno)
    ensures r.0.session == fw.session.(seqno := fw.session.seqno + 1, frameCount := r.0.session.frameCount)
    ensures r.0.hw.rx.cmd == fw.hw.rx.cmd
    ensures !fw.session.streaming ==> r.0.session.frameCount == fw.session.frameCount && r.0.hw == fw.hw
    ensures fw.session.streaming && fw.session.frameCount == 1 ==>
      && r.0.session.frameCount == FramesPerCmd
      && r.0.hw.rx == fw.hw.rx.(timeSecs := 0, timeTics := 0)
      && r.0.hw.log == fw.hw.log + [CmdEnqueued(fw.hw.rx.cmd, 0, 0)]
    ensures fw.session.streaming && fw.session.frameCount != 1 ==>
      r.0.session.frameCount == fw.session.frameCount - 1 && r.0.hw == fw.hw
  {
    var ram := StampBuffer(fw.ram, bufThis, fw.session.seqno);
    var s := fw.session.(seqno := fw.session.seqno + 1);
    if s.streaming && s.frameCount - 1 == 0 then
      var hw := WriteTimeTics(WriteTimeSecs(fw.hw, 0), 0);
      (Firmware(s.(frameCount := FramesPerCmd), hw, ram), false)
    else if s.streaming then
      (Firmware(s.(frameCount := s.frameCount - 1), fw.hw, ram), false)
    else
      (Firmware(s, fw.hw, ram), false)
  }

  /** Every buffer of a list can be inspected. */
  predicate AllInspectable(ram: seq<seq<Word>>, bufs: seq<nat>) {
    forall i :: 0 <= i < |bufs| ==> CanInspect(ram, bufs[i])
  }

  /** The inspector applied to each buffer of a list in turn. */
  function InspectAll(fw: Firmware, bufs: seq<nat>): (r: Firmware)
    requires AllInspectable(fw.ram, bufs)
    ensures |r.ram| == |fw.ram|
    ensures forall b :: 0 <= b < |fw.ram| ==> |r.ram[b]| == |fw.ram[b]|
    ensures r.session == fw.session.(seqno := fw.session.seqno + |bufs|, frameCount := r.session.frameCount)
    ensures r.hw.rx.cmd == fw.hw.rx.cmd
    ensures r.hw.rx == fw.hw.rx || r.hw.rx == fw.hw.rx.(timeSecs := 0, timeTics := 0)
    ensures !fw.session.streaming ==> r.session.frameCount == fw.session.frameCount && r.hw == fw.hw
    decreases |bufs|
  {
    if |bufs| == 0 then fw
    else
      var prev := InspectAll(fw, bufs[..|bufs| - 1]);
      Inspect(prev, bufs[|bufs| - 1]).0
  }

  // ---------------------------------------------------------------
  // Poll loop
  // ---------------------------------------------------------------

  /** The two bits of `pic_regs->pending` the loop tests. */
  datatype Pending = Pending(underrun: bool, overrun: bool)

  /** The buffers the Rx state machine hands to the inspector are its own two. */
  predicate RxPairOnly(bufs: seq<nat>) {
    forall i :: 0 <= i < |bufs| ==> bufs[i] == DspRxBuf0 || bufs[i] == DspRxBuf1
  }

  /** Both Rx buffers are in the pool and hold the stamped line. */
  predicate RxBuffersInspectable(ram: seq<seq<Word>>) {
    CanInspect(ram, DspRxBuf0) && CanInspect(ram, DspRxBuf1)
  }

  /** `buffer_irq_handler`: the same pool status goes first to the Tx and
      then to the Rx state machine; the Rx state machine runs the inspector
      on each buffer `rxInspected` lists. */
  function BufferIrqHandler(fw: Firmware, status: U32, rxInspected: seq<nat>): (r: Firmware)
    requires RxBuffersInspectable(fw.ram) && RxPairOnly(rxInspected)
    ensures r.session.streaming == fw.session.streaming
    ensures r.session.seqno == fw.session.seqno + |rxInspected|
    ensures |r.hw.log| >= |fw.hw.log| + 2
    ensures r.hw.log[..|fw.hw.log| + 2] == fw.hw.log + [StatusProcessed(DspTxSm, status), StatusProcessed(DspRxSm, status)]
    ensures r == InspectAll(fw.(hw := Emit(Emit(fw.hw, StatusProcessed(DspTxSm, status)), StatusProcessed(DspRxSm, status))), rxInspected)
  {
    var hw := Emit(Emit(fw.hw, StatusProcessed(DspTxSm, status)), StatusProcessed(DspRxSm, status));
    var fw1 := fw.(hw := hw);
    assert AllInspectable(fw1.ram, rxInspected);
    var r := InspectAll(fw1, rxInspected);
    InspectAllOnlyAppends(fw1, rxInspected);
    r
  }

  /** The inspector only ever adds events to the log. */
  lemma {:induction false} InspectAllOnlyAppends(fw: Firmware, bufs: seq<nat>)
    requires AllInspectable(fw.ram, bufs)
    ensures var r := InspectAll(fw, bufs);
      |r.hw.log| >= |fw.hw.log| && r.hw.log[..|fw.hw.log|] == fw.hw.log
    decreases |bufs|
  {
    if |bufs| > 0 {
      InspectAllOnlyAppends(fw, bufs[..|bufs| - 1]);
      var prev := InspectAll(fw, bufs[..|bufs| - 1]);
      var r := InspectAll(fw, bufs);
      assert r.hw.log == prev.hw.log || r.hw.log == prev.hw.log + [CmdEnqueued(prev.hw.rx.cmd, 0, 0)];
      assert r.hw.log[..|fw.hw.log|] == prev.hw.log[..|fw.hw.log|];
    }
  }

  const UnderrunEvents: seq<Event> := [TxUnderrunHandled, PendingCleared(UnderrunInt), ConsoleOut('U')]
  const OverrunEvents: seq<Event> := [RxOverrunHandled, PendingCleared(OverrunInt), ConsoleOut('O')]

  /** The fault half of a main-loop iteration: the underrun handler, then
      the overrun handler, each only when its bit is pending. */
  function HandleFaults(hw: Hw, pending: Pending): (r: Hw)
    ensures r.rx == hw.rx
    ensures r.log == hw.log
                     + (if pending.underrun then UnderrunEvents else [])
                     + (if pending.overrun then OverrunEvents else [])
  {
    var hw1 := if pending.underrun then Emit(Emit(Emit(hw, TxUnderrunHandled), PendingCleared(UnderrunInt)), ConsoleOut('U')) else hw;
    if pending.overrun then Emit(Emit(Emit(hw1, RxOverrunHandled), PendingCleared(OverrunInt)), ConsoleOut('O')) else hw1
  }

  /** One iteration of the main loop: buffer status to both state machines,
      then the underrun handler if its bit is pending, then the overrun
      handler if its bit is pending; each clears its bit and prints its
      marker. Streaming is left as it was, also on overrun. */
  function Step(fw: Firmware, status: U32, rxInspected: seq<nat>, pending: Pending): (r: Firmware)
    requires RxBuffersInspectable(fw.ram) && RxPairOnly(rxInspected)
    ensures var mid := BufferIrqHandler(fw, status, rxInspected);
      && r.session == mid.session && r.ram == mid.ram && r.hw.rx == mid.hw.rx
      && r.hw.log == mid.hw.log
                     + (if pending.underrun then UnderrunEvents else [])
                     + (if pending.overrun then OverrunEvents else [])
    ensures r.session.streaming == fw.session.streaming
  {
    var fw1 := BufferIrqHandler(fw, status, rxInspected);
    fw1.(hw := HandleFaults(fw1.hw, pending))
  }
}
