/** The hardware the streaming controller drives, seen through the fields
    it uses: the DSP Rx control registers (`sr_rx_ctrl`), the buffer-pool
    clear command, the two double-buffer state machines (whose internals are
    not part of this model) and the console. Plain register writes update
    the register file; writes with a side effect append an event to a log,
    so that contracts can speak about counts and order. */
module RxHardware {

  /** A C `uint32_t` / `unsigned int` value. */
  type U32 = x: int | 0 <= x < 0x1_0000_0000

  /** C unsigned arithmetic: the result reduced modulo 2^32. */
  function ToU32(x: int): (r: U32)
    ensures 0 <= x < 0x1_0000_0000 ==> r == x
  {
    x % 0x1_0000_0000
  }

  /** One 32-bit line of buffer memory. */
  type Word = bv32

  /** A receive command as `MK_RX_CMD` builds it: the number of lines to
      capture, the "start now" bit and the "chain" bit. */
  datatype RxCmd = RxCmd(lines: U32, now: bool, chain: bool)

  /** The VRT header flags the controller sets. */
  datatype VrtFlag = PtIfDataWithSid | HasTrailer | TsiOther | TsfSampleCnt

  /** The VRT header template: its flags and its frame-length field in words. */
  datatype VrtHeader = VrtHeader(flags: set<VrtFlag>, frameWords: U32)

  /** The DSP Rx control registers the firmware writes. */
  datatype RxCtrl = RxCtrl(
    nsamplesPerPkt: U32,
    nchannels: U32,
    vrtHeader: VrtHeader,
    vrtStreamId: U32,
    vrtTrailer: U32,
    cmd: RxCmd,
    timeSecs: U32,
    timeTics: U32)

  /** The two double-buffer state machines. */
  datatype Dbsm = DspTxSm | DspRxSm

  /** The two bits of the interrupt controller's pending register the poll
      loop tests. */
  datatype PicBit = UnderrunInt | OverrunInt

  datatype Event =
    | ClearOverrun                                  // pulse of clear_overrun
    | CmdEnqueued(cmd: RxCmd, secs: U32, tics: U32) // a write of time_tics
    | BufferCleared(buf: nat)                       // bp_clear_buf
    | DbsmStarted(sm: Dbsm)                         // dbsm_start
    | StatusProcessed(sm: Dbsm, status: U32)        // dbsm_process_status
    | TxUnderrunHandled                             // dbsm_handle_tx_underrun
    | RxOverrunHandled                              // dbsm_handle_rx_overrun
    | PendingCleared(bit: PicBit)                   // write to the pending register
    | ConsoleOut(c: char)                           // putchar

  datatype Hw = Hw(rx: RxCtrl, log: seq<Event>)

  function Emit(hw: Hw, e: Event): (r: Hw)
    ensures r.rx == hw.rx && r.log == hw.log + [e]
  {
    hw.(log := hw.log + [e])
  }

  /** Writing `clear_overrun` resets the overrun state and flushes the
      command queue; it is a pulse, not a stored value. */
  function PulseClearOverrun(hw: Hw): (r: Hw)
    ensures r.rx == hw.rx && r.log == hw.log + [ClearOverrun]
    ensures Commands(r.log) == Commands(hw.log)
  {
    assert (hw.log + [ClearOverrun])[..|hw.log|] == hw.log;
    Emit(hw, ClearOverrun)
  }

  function WriteCmd(hw: Hw, c: RxCmd): (r: Hw)
    ensures r.rx == hw.rx.(cmd := c) && r.log == hw.log
  {
    hw.(rx := hw.rx.(cmd := c))
  }

  function WriteTimeSecs(hw: Hw, secs: U32): (r: Hw)
    ensures r.rx == hw.rx.(timeSecs := secs) && r.log == hw.log
  {
    hw.(rx := hw.rx.(timeSecs := secs))
  }

  /** Writing `time_tics` enqueues a command built from the latched `cmd`
      and `time_secs` registers and the ticks written. */
  function WriteTimeTics(hw: Hw, tics: U32): (r: Hw)
    ensures r.rx == hw.rx.(timeTics := tics)
    ensures r.log == hw.log + [CmdEnqueued(hw.rx.cmd, hw.rx.timeSecs, tics)]
    ensures Commands(r.log) == Commands(hw.log) + [CmdEnqueued(hw.rx.cmd, hw.rx.timeSecs, tics)]
  {
    assert (hw.log + [CmdEnqueued(hw.rx.cmd, hw.rx.timeSecs, tics)])[..|hw.log|] == hw.log;
    Emit(hw.(rx := hw.rx.(timeTics := tics)), CmdEnqueued(hw.rx.cmd, hw.rx.timeSecs, tics))
  }

  /** The commands enqueued so far: the `time_tics` writes a log records,
      in order. This is the history of enqueue writes, not the queue's
      current contents: the flushes by the clear-overrun pulse and the
      hardware's consumption of commands are not tracked. */
  function Commands(log: seq<Event>): (r: seq<Event>)
    ensures |r| <= |log|
    ensures forall k :: 0 <= k < |r| ==> r[k].CmdEnqueued?
  {
    if |log| == 0 then []
    else Commands(log[..|log| - 1]) + (if log[|log| - 1].CmdEnqueued? then [log[|log| - 1]] else [])
  }

  lemma {:induction false} CommandsAppend(a: seq<Event>, b: seq<Event>)
    ensures Commands(a + b) == Commands(a) + Commands(b)
    decreases |b|
  {
    if |b| == 0 {
      assert a + b == a;
    } else {
      assert (a + b)[..|a + b| - 1] == a + b[..|b| - 1];
      CommandsAppend(a, b[..|b| - 1]);
    }
  }

  /** How many times an event occurs in a log. */
  function Occurrences(log: seq<Event>, e: Event): (n: nat)
    ensures n <= |log|
    ensures n == 0 <==> e !in log
  {
    if |log| == 0 then 0
    else Occurrences(log[..|log| - 1], e) + (if log[|log| - 1] == e then 1 else 0)
  }

  lemma {:induction false} OccurrencesAppend(a: seq<Event>, b: seq<Event>, e: Event)
    ensures Occurrences(a + b, e) == Occurrences(a, e) + Occurrences(b, e)
    decreases |b|
  {
    if |b| == 0 {
      assert a + b == a;
    } else {
      assert (a + b)[..|a + b| - 1] == a + b[..|b| - 1];
      OccurrencesAppend(a, b[..|b| - 1], e);
    }
  }
}
