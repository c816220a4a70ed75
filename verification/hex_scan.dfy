/** The part of the C library's `sscanf` that `string_to_mac_addr` relies
    on: a format made of `%hhx` conversions separated by literal ':'
    characters. The conversion follows the GNU C library: leading white
    space is skipped, an optional sign is accepted, a leading "0" may be
    followed by an "x" or "X" prefix, then the longest run of hexadecimal
    digits is read, and the value is stored in an `unsigned char`, that is,
    reduced modulo 256 (after negation when the sign was '-'). */
module HexScan {
  import opened Wrappers
  import opened U2Types

  predicate IsHexDigit(c: char) {
    ('0' <= c <= '9') || ('a' <= c <= 'f') || ('A' <= c <= 'F')
  }

  /** White space as `isspace` sees it in the "C" locale. */
  predicate IsSpace(c: char) {
    c == ' ' || c == '\t' || c == '\n' || c == '\r' || c as int == 11 || c as int == 12
  }

  function DigitValue(c: char): (d: nat)
    requires IsHexDigit(c)
    ensures d < 16
  {
    if '0' <= c <= '9' then c as int - '0' as int
    else if 'a' <= c <= 'f' then c as int - 'a' as int + 10
    else c as int - 'A' as int + 10
  }

  /** The number the hexadecimal digits `s[a..b]` denote, most significant first. */
  function HexValue(s: string, a: nat, b: nat): nat
    requires a <= b <= |s|
    requires forall k :: a <= k < b ==> IsHexDigit(s[k])
    decreases b - a
  {
    if a == b then 0
    else 16 * HexValue(s, a, b - 1) + DigitValue(s[b - 1])
  }

  /** The byte two hexadecimal digits denote. */
  function Hex2(hi: char, lo: char): (b: byte)
    requires IsHexDigit(hi) && IsHexDigit(lo)
  {
    16 * DigitValue(hi) + DigitValue(lo)
  }

  /** The value of one or two hexadecimal digits. */
  lemma ShortHexValue(s: string, a: nat, b: nat)
    requires a <= b <= |s|
    requires forall k :: a <= k < b ==> IsHexDigit(s[k])
    ensures b == a + 1 ==> HexValue(s, a, b) == DigitValue(s[a])
    ensures b == a + 2 ==> HexValue(s, a, b) == Hex2(s[a], s[a + 1])
  {
    if b == a + 2 {
      assert HexValue(s, a, a + 1) == DigitValue(s[a]);
    }
  }

  /** The first position at or after `i` that does not hold a white-space character. */
  function SkipSpace(s: string, i: nat): (j: nat)
    requires i <= |s|
    ensures i <= j <= |s|
    ensures forall k :: i <= k < j ==> IsSpace(s[k])
    ensures j == |s| || !IsSpace(s[j])
    decreases |s| - i
  {
    if i < |s| && IsSpace(s[i]) then SkipSpace(s, i + 1) else i
  }

  /** The end of the longest run of hexadecimal digits that starts at `i`. */
  function HexRunEnd(s: string, i: nat): (j: nat)
    requires i <= |s|
    ensures i <= j <= |s|
    ensures forall k :: i <= k < j ==> IsHexDigit(s[k])
    ensures j == |s| || !IsHexDigit(s[j])
    decreases |s| - i
  {
    if i < |s| && IsHexDigit(s[i]) then HexRunEnd(s, i + 1) else i
  }

  /** One `%hhx` conversion starting at position `i`: the stored byte and the
      position just past the characters consumed, or None on a matching
      failure (no digit at all). A group of two hexadecimal digits followed
      by ':' or by the end of the input is read as exactly that group. */
  function Conversion(s: string, i: nat): (r: Option<(byte, nat)>)
    requires i <= |s|
    ensures r.Some? ==> i < r.value.1 <= |s|
    ensures i + 2 <= |s| && IsHexDigit(s[i]) && IsHexDigit(s[i + 1]) && (i + 2 == |s| || s[i + 2] == ':') ==>
      r == Some((Hex2(s[i], s[i + 1]), i + 2))
  {
    var i1 := SkipSpace(s, i);
    var negative := i1 < |s| && s[i1] == '-';
    var i2 := if i1 < |s| && (s[i1] == '+' || s[i1] == '-') then i1 + 1 else i1;
    var leadingZero := i2 < |s| && s[i2] == '0';
    var i3 :=
      if !leadingZero then i2
      else if i2 + 1 < |s| && (s[i2 + 1] == 'x' || s[i2 + 1] == 'X') then i2 + 2
      else i2 + 1;
    var i4 := HexRunEnd(s, i3);
    var group := i + 2 <= |s| && IsHexDigit(s[i]) && IsHexDigit(s[i + 1]) && (i + 2 == |s| || s[i + 2] == ':');
    assert group ==> i1 == i && !negative && i2 == i;
    assert group ==> i3 == (if s[i] == '0' then i + 1 else i) && i4 == i + 2;
    if !leadingZero && i4 == i3 then None
    else
      ShortHexValue(s, i3, i4);
      var v: int := HexValue(s, i3, i4);
      Some(((if negative then -v else v) % 256, i4))
  }

  /** The bytes stored by `sscanf(s + i, "%hhx:%hhx:...")` with `n`
      conversions; the length of the result is the count `sscanf` returns
      (a return of EOF is folded into 0: the callers only compare the count
      with the full number of conversions). */
  function ScanGroups(s: string, i: nat, n: nat): (r: seq<byte>)
    requires i <= |s|
    ensures |r| <= n
    ensures GroupsAt(s, i, n) ==> r == GroupBytes(s, i, n)
    decreases n
  {
    if n == 0 then []
    else
      match Conversion(s, i)
      case None => []
      case Some((v, j)) =>
        if n == 1 then [v]
        else if j < |s| && s[j] == ':' then [v] + ScanGroups(s, j + 1, n - 1)
        else [v]
  }

  /** `n` groups of exactly two hexadecimal digits, separated by ':', from
      position `i` to the end of `s`. */
  predicate GroupsAt(s: string, i: nat, n: nat)
    decreases n
  {
    && 1 <= n
    && i + 2 <= |s|
    && IsHexDigit(s[i]) && IsHexDigit(s[i + 1])
    && if n == 1 then i + 2 == |s| else i + 2 < |s| && s[i + 2] == ':' && GroupsAt(s, i + 3, n - 1)
  }

  /** The bytes those groups denote, in order. */
  function GroupBytes(s: string, i: nat, n: nat): (r: seq<byte>)
    requires GroupsAt(s, i, n)
    decreases n
  {
    [Hex2(s[i], s[i + 1])] + if n == 1 then [] else GroupBytes(s, i + 3, n - 1)
  }
}
