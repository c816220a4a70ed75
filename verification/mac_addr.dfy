/** The host library's Ethernet-address text handling: `string_to_mac_addr`
    reads either the short form "xx:yy" (the last two bytes of an address in
    the USRP2 vendor block) or the full form "xx:xx:xx:xx:xx:xx", and
    `parse_mac_addr` rewrites an accepted address in canonical lower-case
    form. */
module MacAddr {
  import opened Wrappers
  import opened U2Types
  import opened HexScan

  /** The vendor prefix the short form keeps. */
  const VendorPrefix: seq<byte> := [0x00, 0x50, 0xC2, 0x85]

  /** The address `string_to_mac_addr` starts from before reading any group:
      the vendor prefix followed by 30:00. */
  const DefaultAddr: MacAddr := VendorPrefix + [0x30, 0x00]

  /** Length of the short form "xx:yy". */
  const ShortFormLength := 5

  /** Length of the full form "xx:xx:xx:xx:xx:xx". */
  const FullFormLength := 17

  /** `string_to_mac_addr`: the address, or None where the source returns
      false. Only the length decides which form is tried. */
  function StringToMacAddr(s: string): (r: Option<MacAddr>)
    ensures |s| != ShortFormLength && |s| != FullFormLength ==> r == None
    ensures |s| == ShortFormLength && r.Some? ==> r.value[..4] == VendorPrefix
  {
    if |s| == ShortFormLength then
      var b := ScanGroups(s, 0, 2);
      if |b| == 2 then Some(DefaultAddr[4 := b[0]][5 := b[1]]) else None
    else if |s| == FullFormLength then
      var b := ScanGroups(s, 0, 6);
      if |b| == 6 then Some(b) else None
    else
      None
  }

  /** The short form read as written: vendor prefix, then the two groups. */
  lemma ParseShortForm(s: string)
    requires GroupsAt(s, 0, 2)
    ensures StringToMacAddr(s) == Some(VendorPrefix + [Hex2(s[0], s[1]), Hex2(s[3], s[4])])
  {
    assert GroupsAt(s, 3, 1);
    var b := [Hex2(s[0], s[1]), Hex2(s[3], s[4])];
    assert GroupBytes(s, 0, 2) == b;
    assert DefaultAddr[4 := b[0]][5 := b[1]] == VendorPrefix + b;
  }

  /** The six bytes of a well-formed full form, group by group. */
  function FullFormBytes(s: string): (m: MacAddr)
    requires GroupsAt(s, 0, 6)
  {
    assert GroupsAt(s, 3, 5) && GroupsAt(s, 6, 4) && GroupsAt(s, 9, 3);
    assert GroupsAt(s, 12, 2) && GroupsAt(s, 15, 1);
    [Hex2(s[0], s[1]), Hex2(s[3], s[4]), Hex2(s[6], s[7]),
     Hex2(s[9], s[10]), Hex2(s[12], s[13]), Hex2(s[15], s[16])]
  }

  lemma GroupBytesOfFullForm(s: string)
    requires GroupsAt(s, 0, 6)
    ensures GroupBytes(s, 0, 6) == FullFormBytes(s)
  {
    assert GroupsAt(s, 3, 5) && GroupsAt(s, 6, 4) && GroupsAt(s, 9, 3);
    assert GroupsAt(s, 12, 2) && GroupsAt(s, 15, 1);
    var g5 := GroupBytes(s, 15, 1);
    assert g5 == [Hex2(s[15], s[16])];
    var g4 := GroupBytes(s, 12, 2);
    assert g4 == [Hex2(s[12], s[13])] + g5;
    var g3 := GroupBytes(s, 9, 3);
    assert g3 == [Hex2(s[9], s[10])] + g4;
    var g2 := GroupBytes(s, 6, 4);
    assert g2 == [Hex2(s[6], s[7])] + g3;
    var g1 := GroupBytes(s, 3, 5);
    assert g1 == [Hex2(s[3], s[4])] + g2;
    assert GroupBytes(s, 0, 6) == [Hex2(s[0], s[1])] + g1;
  }

  /** The full form read as written: the six groups in order. */
  lemma ParseFullForm(s: string)
    requires GroupsAt(s, 0, 6)
    ensures StringToMacAddr(s) == Some(FullFormBytes(s))
  {
    GroupBytesOfFullForm(s);
  }

  predicate IsLowerHexDigit(c: char) {
    ('0' <= c <= '9') || ('a' <= c <= 'f')
  }

  /** What `%02x` prints for one nibble. */
  function HexChar(d: nat): (c: char)
    requires d < 16
    ensures IsLowerHexDigit(c) && DigitValue(c) == d
  {
    if d < 10 then ('0' as int + d) as char else ('a' as int + d - 10) as char
  }

  lemma HexCharOfDigit(c: char)
    requires IsLowerHexDigit(c)
    ensures HexChar(DigitValue(c)) == c
  {
  }

  lemma Hex2OfHexChars(b: byte)
    ensures Hex2(HexChar(b / 16), HexChar(b % 16)) == b
  {
  }

  /** The canonical text of an address: six groups of two lower-case
      hexadecimal digits joined by ':'. */
  predicate IsCanonical(s: string) {
    && GroupsAt(s, 0, 6)
    && forall k :: 0 <= k < |s| ==> s[k] == ':' || IsLowerHexDigit(s[k])
  }

  /** `snprintf(buf, ..., "%02x:%02x:%02x:%02x:%02x:%02x", ...)`. */
  function FormatMac(m: MacAddr): (s: string)
    ensures IsCanonical(s)
    ensures FullFormBytes(s) == m
  {
    var s := [HexChar(m[0] / 16), HexChar(m[0] % 16), ':',
              HexChar(m[1] / 16), HexChar(m[1] % 16), ':',
              HexChar(m[2] / 16), HexChar(m[2] % 16), ':',
              HexChar(m[3] / 16), HexChar(m[3] % 16), ':',
              HexChar(m[4] / 16), HexChar(m[4] % 16), ':',
              HexChar(m[5] / 16), HexChar(m[5] % 16)];
    assert GroupsAt(s, 15, 1) && GroupsAt(s, 12, 2) && GroupsAt(s, 9, 3);
    assert GroupsAt(s, 6, 4) && GroupsAt(s, 3, 5) && GroupsAt(s, 0, 6);
    Hex2OfHexChars(m[0]); Hex2OfHexChars(m[1]); Hex2OfHexChars(m[2]);
    Hex2OfHexChars(m[3]); Hex2OfHexChars(m[4]); Hex2OfHexChars(m[5]);
    s
  }

  /** `parse_mac_addr`: the canonical text of the address `s` denotes, or
      None where the source returns false (and leaves its output alone). */
  function ParseMacAddr(s: string): (r: Option<string>)
    ensures r.Some? <==> StringToMacAddr(s).Some?
    ensures r.Some? ==> IsCanonical(r.value) && |r.value| == FullFormLength
    ensures r.Some? ==> StringToMacAddr(r.value) == StringToMacAddr(s)
  {
    match StringToMacAddr(s)
    case None => None
    case Some(m) =>
      var ns := FormatMac(m);
      ParseFullForm(ns);
      Some(ns)
  }

  /** Reading back the canonical text gives the same six bytes. */
  lemma {:induction false} FormatRoundTrip(m: MacAddr)
    ensures StringToMacAddr(FormatMac(m)) == Some(m)
  {
    ParseFullForm(FormatMac(m));
  }

  /** Canonicalising canonical text changes nothing. */
  lemma {:induction false} ParseMacAddrIdempotent(s: string)
    ensures ParseMacAddr(s).Some? ==> ParseMacAddr(ParseMacAddr(s).value) == ParseMacAddr(s)
  {
    if ParseMacAddr(s).Some? {
      var m := StringToMacAddr(s).value;
      FormatRoundTrip(m);
    }
  }

  /** Printing the byte two lower-case digits denote gives back those digits. */
  lemma ByteText(hi: char, lo: char)
    requires IsLowerHexDigit(hi) && IsLowerHexDigit(lo)
    ensures HexChar(Hex2(hi, lo) / 16) == hi && HexChar(Hex2(hi, lo) % 16) == lo
  {
    HexCharOfDigit(hi);
    HexCharOfDigit(lo);
  }

  /** Canonical text is what `parse_mac_addr` prints for the address it denotes. */
  lemma {:induction false} CanonicalTextIsFormatted(s: string)
    requires IsCanonical(s)
    ensures FormatMac(FullFormBytes(s)) == s
  {
    assert GroupsAt(s, 3, 5) && GroupsAt(s, 6, 4) && GroupsAt(s, 9, 3);
    assert GroupsAt(s, 12, 2) && GroupsAt(s, 15, 1);
    assert IsLowerHexDigit(s[0]) && IsLowerHexDigit(s[1]);
    assert IsLowerHexDigit(s[3]) && IsLowerHexDigit(s[4]);
    assert IsLowerHexDigit(s[6]) && IsLowerHexDigit(s[7]);
    assert IsLowerHexDigit(s[9]) && IsLowerHexDigit(s[10]);
    assert IsLowerHexDigit(s[12]) && IsLowerHexDigit(s[13]);
    assert IsLowerHexDigit(s[15]) && IsLowerHexDigit(s[16]);
    ByteText(s[0], s[1]);
    ByteText(s[3], s[4]);
    ByteText(s[6], s[7]);
    ByteText(s[9], s[10]);
    ByteText(s[12], s[13]);
    ByteText(s[15], s[16]);
    assert s == [s[0], s[1], ':', s[3], s[4], ':', s[6], s[7], ':',
                 s[9], s[10], ':', s[12], s[13], ':', s[15], s[16]];
  }

  /** The texts `parse_mac_addr` leaves unchanged are exactly the canonical ones. */
  lemma {:induction false} CanonicalIsFixedPoint(s: string)
    ensures ParseMacAddr(s) == Some(s) <==> IsCanonical(s)
  {
    if IsCanonical(s) {
      ParseFullForm(s);
      CanonicalTextIsFormatted(s);
    }
  }
}
