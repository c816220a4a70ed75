/** Types shared by the firmware and the host library: bytes and the
    six-byte Ethernet address (`u2_mac_addr_t`). */
module U2Types {

  type byte = x: int | 0 <= x < 256

  /** `u2_mac_addr_t`: exactly six address bytes. */
  type MacAddr = s: seq<byte> | |s| == 6 witness [0, 0, 0, 0, 0, 0]
}
