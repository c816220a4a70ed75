# USRP2 streaming controller and host address handling

This project models two small pieces of the USRP2 software radio stack in
Dafny and proves properties of them.

**Firmware streaming controller** (`usrp2/firmware/apps/txrx.c`). The
firmware streams DSP receive samples to a host over Ethernet.
- A start command remembers the host and preloads the two DSP Rx buffers
  (2 and 3) with an Ethernet header. It resets the firmware sequence
  counter and restarts streaming.
- A restart programs the DSP Rx control registers, including the VRT
  header with its frame length. It turns streaming on, starts the Rx
  double-buffer state machine, and enqueues two chained receive commands.
  Each command covers 1000 frames. The first runs at the requested time;
  the second runs immediately after it.
- A stop turns streaming off, flushes the command queue and clears both
  Rx buffers.
- The sequence-number inspector runs on each frame the Rx state machine
  fills. It writes the low 8 bits of the counter into bits 8..15 of line 4
  and bumps the counter. Every 1000 frames while streaming it enqueues one
  more immediate command.
- One iteration of the poll loop passes the buffer-pool status first to
  the Tx and then to the Rx state machine. It then runs the underrun
  handler if that bit is pending, then the overrun handler if that bit is
  pending. Each handler clears its bit and prints a marker.

**Host library** (`usrp2/host/lib/usrp2.cc`).
- `string_to_mac_addr` reads a MAC address. It takes either the 5-character
  short form "xx:yy", under the fixed vendor prefix 00:50:C2:85, or the
  17-character full form. The reading goes through `sscanf`'s `%hhx`.
- `parse_mac_addr` prints the address back in canonical lower-case form.
- `find_existing_or_make_new` scans the table of already opened devices. It
  erases expired entries on the way, and either returns the live entry
  whose key is "interface:address" or appends a new device.
- `make` validates the address, asks discovery for matching devices and
  opens the single one found; otherwise it fails with the source's messages.

The model is functional. The firmware state is an immutable record: the
session variables, the Rx control registers, and buffer memory. Plain
register writes are record updates. Writes with a side effect append an
event to a log: the clear-overrun pulse, the enqueue performed by writing
`time_tics`, buffer clears, state-machine calls and console output.
Contracts can therefore speak about counts, order and what stays
unchanged.

Modules:
- `Wrappers`: Option and Result.
- `U2Types`: bytes and six-byte addresses.
- `HexScan`: the `%hhx` conversion.
- `MacAddr`: parsing and canonical printing.
- `DeviceTable`: the table scan and `make`.
- `RxHardware`: registers and event log.
- `TxRx`: the controller, inspector and poll step.
- `TxRxProperties`: invariants and multi-step lemmas.

## Model

| member | source | states |
|---|---|---|
| HexScan.Conversion | usrp2/host/lib/usrp2.cc:49 | one `%hhx` conversion consumes at least one character; on two hex digits followed by ':' or the end it stores exactly the byte they denote and stops after them |
| HexScan.ScanGroups | usrp2/host/lib/usrp2.cc:49-54 | `sscanf` with n colon-separated `%hhx` conversions returns at most n; on n well-formed two-digit groups it reads exactly those groups' bytes in order |
| MacAddr.StringToMacAddr | usrp2/host/lib/usrp2.cc:34-58 | every length other than 5 and 17 is rejected; a short-form result always starts with the vendor prefix 00:50:C2:85 |
| MacAddr.ParseShortForm | usrp2/host/lib/usrp2.cc:37-49 | a well-formed "xx:yy" gives the vendor prefix followed by the two parsed groups |
| MacAddr.ParseFullForm | usrp2/host/lib/usrp2.cc:51-54 | a well-formed 17-character address gives its six groups in order |
| MacAddr.FormatMac | usrp2/host/lib/usrp2.cc:68-73 | `%02x` printing yields canonical text (six lower-case two-digit groups joined by ':') whose groups are the six bytes |
| MacAddr.ParseMacAddr | usrp2/host/lib/usrp2.cc:60-75 | succeeds exactly when `string_to_mac_addr` does; the output is 17 canonical characters denoting the same address as the input |
| MacAddr.FormatRoundTrip | usrp2/host/lib/usrp2.cc:60-75 | reading back the canonical text gives the same six bytes |
| MacAddr.ParseMacAddrIdempotent | usrp2/host/lib/usrp2.cc:60-75 | normalising a normalised address returns it unchanged |
| MacAddr.CanonicalTextIsFormatted | usrp2/host/lib/usrp2.cc:69-72 | canonical text is exactly what printing its own bytes produces |
| MacAddr.CanonicalIsFixedPoint | usrp2/host/lib/usrp2.cc:60-75 | `parse_mac_addr` returns its input unchanged if and only if the input is canonical |
| DeviceTable.FirstLiveMatch | usrp2/host/lib/usrp2.cc:104-113 | the position the scan stops at: a live entry with the key, with no live match before it, or the end of the table |
| DeviceTable.Scan | usrp2/host/lib/usrp2.cc:104-113 | the walk erases exactly the expired entries before the first live match, keeps everything from the match on, and returns the matching device if there is one |
| DeviceTable.FindExistingOrMakeNew | usrp2/host/lib/usrp2.cc:97-123 | a new device is made if and only if no live entry has the key. When found: returns that entry's device and drops only the expired entries before it. When not found: the table keeps only its live entries, and one new entry with the key is appended at the end |
| DeviceTable.LookupKeepsLiveEntries | usrp2/host/lib/usrp2.cc:104-122 | the live entries keep their order, and only a newly made device is added, after all of them |
| DeviceTable.LookupAgainFindsSame | usrp2/host/lib/usrp2.cc:97-123 | a second lookup of the same interface and address finds the device the first returned and changes nothing, whatever buffer size it asks for |
| DeviceTable.QueryAddr | usrp2/host/lib/usrp2.cc:134-135 | discovery is asked for "" when no address is given, else for the canonical form of the address |
| DeviceTable.Make | usrp2/host/lib/usrp2.cc:127-151 | fails with "Invalid MAC address" exactly when a non-empty address is invalid. Success happens exactly when the address is empty or valid and discovery finds one device; the result is then the table lookup for that device. Otherwise, 0 devices gives the "No USRPs found" error (no address) or the "No USRP found with addr" error, and more than one gives the "Multiple USRPs" error |
| DeviceTable.MakeAgainFindsSame | usrp2/host/lib/usrp2.cc:127-151 | when discovery answers the same way, opening the same device a second time returns the device the first call opened, makes nothing new and leaves the table as the first call left it |
| DeviceTable.MessageTellsFailure | usrp2/host/lib/usrp2.cc:131-148 | the text of a failure of `make` determines which of the four failures it was, and for "No USRPs found on interface" also the interface |
| RxHardware.WriteTimeTics | usrp2/firmware/apps/txrx.c:164-165 | each `time_tics` write adds exactly one command to the commands enqueued so far, made of the latched command, the latched seconds and the ticks written; of the registers only the ticks change |
| RxHardware.PulseClearOverrun | usrp2/firmware/apps/txrx.c:207 | the clear-overrun write is one pulse in the log; it changes no register and adds nothing to the commands enqueued so far |
| TxRx.DspFirstLine | usrp2/firmware/apps/txrx.c:95-97 | the first line is the header byte count divided by 4, truncating |
| TxRx.DescriptorsSkipHeaders | usrp2/firmware/apps/txrx.c:74-111 | both DSP-side transfers start at the same line past the headers, and both Ethernet-side transfers start at line 0; with 16 + 4 header bytes the DSP starts at line 5, and the stamped line 4 lies in the transport header |
| TxRx.BatchLines | usrp2/firmware/apps/txrx.c:157-158 | the command length is always a multiple of 8 (1000 × items reduced mod 2^32), and exactly 1000 × items whenever that fits in 32 bits |
| TxRx.RestartStreaming | usrp2/firmware/apps/txrx.c:138-173 | streaming on, countdown 1000. The registers: samples per packet = items, one channel, the four VRT flags, frame length (5 + items + 1) mod 2^32, stream id and trailer 0. The log gains exactly: clear-overrun, the Rx state machine start, then the two commands. The first command has the requested time and its now-bit set iff the ticks are 0xFFFFFFFF; the second is immediate at time 0. Buffer memory is untouched |
| TxRx.StartRxStreaming | usrp2/firmware/apps/txrx.c:175-200 | records host, items and start time, and resets the counter to 0. It writes the same header image at the start of buffers 2 and 3 and changes no other word or buffer. Its effect is then exactly a restart of that state |
| TxRx.StopRx | usrp2/firmware/apps/txrx.c:203-210 | streaming off, nothing else in the session changed; the log gains exactly the clear-overrun pulse and the clears of buffers 2 and 3; registers and memory are unchanged |
| TxRx.Stamp | usrp2/firmware/apps/txrx.c:247-249 | bits 8..15 of the word become the given byte, and every bit outside them is unchanged |
| TxRx.StampBuffer | usrp2/firmware/apps/txrx.c:243-249 | only line 4 of the given buffer changes: its bits 8..15 become the counter mod 256 and its other bits stay |
| TxRx.Inspect | usrp2/firmware/apps/txrx.c:240-259 | always "not handled"; stamps the buffer and advances the counter by one. Not streaming: countdown and hardware unchanged. Streaming with countdown 1: the countdown goes back to 1000, and the command the `cmd` register latches is enqueued once more at time 0. Of the Rx registers only the two time registers change (to 0). Once a restart has run, that command is the immediate chained one (see RestartEstablishesInvariant and InspectKeepsInvariant). Otherwise the countdown drops by one and the hardware is unchanged |
| TxRx.InspectAll | usrp2/firmware/apps/txrx.c:240-259 | over a run of frames the counter advances by the run's length and buffer sizes stay. The Rx registers stay as they were, except that the two time registers may have been set to 0 by a re-arm. Without streaming the hardware is untouched |
| TxRx.InspectAllOnlyAppends | usrp2/firmware/apps/txrx.c:252-256 | the inspector only ever appends to the log |
| TxRx.BufferIrqHandler | usrp2/firmware/apps/txrx.c:263-270 | the same status goes first to the Tx and then to the Rx state machine, before anything the inspector logs; the counter advances once per inspected frame, and the sequence-number inspector never changes the streaming flag |
| TxRx.HandleFaults | usrp2/firmware/apps/txrx.c:337-360 | the underrun handler's events are logged exactly when its bit is set, and then the overrun handler's events exactly when its bit is set; registers are unchanged |
| TxRx.Step | usrp2/firmware/apps/txrx.c:335-360 | one poll is the buffer handler followed by the pending fault handlers in that order; neither fault handler starts or stops streaming |
| TxRxProperties.InitialStateKeepsInvariant | usrp2/firmware/apps/txrx.c:123-127 | the initial, non-streaming session satisfies the streaming invariant |
| TxRxProperties.RestartEstablishesInvariant | usrp2/firmware/apps/txrx.c:154-169 | after a restart the countdown is 1000 and the command register holds the immediate chained command |
| TxRxProperties.StopKeepsInvariant | usrp2/firmware/apps/txrx.c:203-210 | a stop leaves the invariant true |
| TxRxProperties.InspectKeepsInvariant | usrp2/firmware/apps/txrx.c:252-256 | one inspection keeps the countdown in 1..1000 and the command register unchanged |
| TxRxProperties.InspectAllCounts | usrp2/firmware/apps/txrx.c:252-256 | while streaming, a run of frames follows the frame-by-frame countdown. It enqueues the latched `cmd` command at time 0 once per return to 1000, and nothing else |
| TxRxProperties.InspectCountsOne | usrp2/firmware/apps/txrx.c:252-256 | one frame takes the countdown and the re-arm count one step along |
| TxRxProperties.CountdownClosedForm | usrp2/firmware/apps/txrx.c:252-256 | from countdown c, after k frames the countdown is 1000 − m mod 1000 and m div 1000 re-arms have happened, with m = k + 1000 − c |
| TxRxProperties.InspectAllCountdown | usrp2/firmware/apps/txrx.c:252-256 | over any run the invariant holds. While streaming, the countdown and the log are given by the closed form, with only re-arm commands added. Without streaming the hardware is untouched |
| TxRxProperties.StampsInOrder | usrp2/firmware/apps/txrx.c:244-249 | the j-th frame of a run is stamped with (counter + j) mod 256 |
| TxRxProperties.StartKeepsBufferSizes | usrp2/firmware/apps/txrx.c:189-190 | preloading the header changes no buffer's size |
| TxRxProperties.StartThenStampsFromZero | usrp2/firmware/apps/txrx.c:193-194 | after a start the k-th inspected frame carries k mod 256 |
| TxRxProperties.RestartEnqueuesTwo | usrp2/firmware/apps/txrx.c:157-172 | a restart enqueues exactly two commands: the first at the requested time (now-bit iff ticks are 0xFFFFFFFF), the second immediate at time 0, both of one batch and chained |
| TxRxProperties.StartThenFrames | usrp2/firmware/apps/txrx.c:175-200 | after a start and k frames: counter k, countdown 1000 − k mod 1000, and the commands enqueued since are the start's two followed by k div 1000 immediate ones |
| TxRxProperties.StartThenFramesKeepsRegisters | usrp2/firmware/apps/txrx.c:142-159 | a run of frames after a start leaves the samples-per-packet, channel, VRT header, stream id, trailer and command registers as the restart programmed them |
| TxRxProperties.StartThenOneBatch | usrp2/firmware/apps/txrx.c:252-256 | 1000 frames after an immediate start: three commands in all, the third immediate at time 0, and the countdown back at 1000 |
| TxRxProperties.StopIdempotent | usrp2/firmware/apps/txrx.c:203-210 | a second stop changes nothing except repeating the pulse and the two buffer clears in the log |
| TxRxProperties.RestartThenStop | usrp2/firmware/apps/txrx.c:203-210 | a stop after a restart ends streaming, and the log ends with the restart's two commands, the pulse, and the two buffer clears |
| TxRxProperties.StepKeepsInvariant | usrp2/firmware/apps/txrx.c:335-360 | a poll keeps the streaming invariant |
| TxRxProperties.BufferIrqHandlerAddsRearms | usrp2/firmware/apps/txrx.c:263-270 | the buffer handler adds the two status hand-offs and then only re-arm commands |
| TxRxProperties.StepAddsPollEvents | usrp2/firmware/apps/txrx.c:335-360 | a poll adds exactly: status to Tx, status to Rx, the re-arms, then the underrun events if pending, then the overrun events if pending |
| TxRxProperties.PollEventOccurrences | usrp2/firmware/apps/txrx.c:337-360 | among a poll's events, any event other than a status hand-off or a command comes only from the pending handlers |
| TxRxProperties.FaultEventCounts | usrp2/firmware/apps/txrx.c:339-359 | each handler's action and marker occur once in its own events and never in the other's |
| TxRxProperties.StepRunsHandlersIffPending | usrp2/firmware/apps/txrx.c:337-360 | in one poll the underrun handler runs, and 'U' is printed, exactly once if its bit is set and never otherwise; the same holds for the overrun handler and 'O'. Streaming is unchanged. No restart happens: the poll adds no clear-overrun pulse and no start of the Rx state machine |

## Left out

- The facade methods of the host library (constructor, tuning, gain, transmit, GPIO, peek/poke, `burn_mac_addr`, the printer) forward to an implementation object that is not part of this model.
- The table's mutex and weak pointers: the table is sequential, and each entry carries an "expired" flag instead of a weak reference.
- Device discovery (`find`) is a network query; `Make` takes it as a function parameter.
- The double-buffer state machines (`dbsm_init`, `dbsm_start`, `dbsm_process_status`, the underrun and overrun handlers, `eth_pkt_inspector`, `dbsm_nop_inspector`) are not part of this model. Their calls appear as log events, and the Rx buffers the Rx state machine inspects during a poll are an input of `Step`.
- The firmware is modelled with the sequence-numbering inspector installed, which is the only setting the source supports; the no-op inspector branch is left out.
- Hardware encodings are not part of this model. The `MK_RX_CMD` bit layout is a record of length, now-bit and chain-bit. The `VRTH_*` constants are a set of flags, and the header's length field is kept separately, so an overflow into the flag bits is not modelled. The header sizes are a parameter of the descriptors.
- The word image of an Ethernet packet header in buffer memory is a parameter (`Platform.image`), because the packet layout is not part of this model. `memcpy_wa` is a copy of that image to the start of the buffer.
- Init and I/O plumbing: `u2_init`, Ethernet setup, `setup_tx`, the disabled GPIO blocks, the banner, and the endless loop. One iteration of the loop is `Step`; console output is only the 'U' and 'O' events.
- The firmware sequence counter is an unbounded integer; C `int` overflow after 2^31 frames is not modelled, and only its low 8 bits reach a frame.
- MacAddr.StringToMacAddr: its contract speaks only of the length check, the vendor prefix and (through ParseShortForm and ParseFullForm) well-formed inputs. The `sscanf` leniency on other 5- and 17-character inputs (white space, signs, "0x", one- or three-digit groups) is modelled in the body but not stated as a property.
- HexScan.Conversion: the contract covers two-digit groups only. Its body follows the GNU C library's `%hhx`, and a "0x" prefix with no hex digit after it is read as the digit 0 followed by the rest.
- HexScan.ScanGroups: a return of EOF (input exhausted before the first conversion) is folded into a count of 0, because the callers only compare the count with 2 or 6.
- MacAddr.StringToMacAddr: text is modelled one character per byte, so the length test counts characters where `std::string::size` counts bytes. Input outside ASCII (which a UTF-8 string holds in more bytes than characters) is not modelled.
- RxHardware.Commands is the history of commands enqueued, not the hardware queue. The queue flush by the clear-overrun pulse (on every restart and stop) and the consumption of commands by the hardware are not modelled, so properties about `Commands` speak of enqueue writes only.
- The Tx state machine's inspector, `eth_pkt_inspector`, hands control packets from the host to the command handlers. Those handlers can start or stop streaming during a poll, and that path is not modelled: the streaming-flag clauses of `TxRx.Step`, `TxRx.BufferIrqHandler` and `TxRxProperties.StepRunsHandlersIffPending` hold for the sequence-number inspector and the fault handlers only.
- The bytes `sscanf` writes before a conversion fails are not modelled. Only the constructor reads them, and the constructor is not part of this model.
