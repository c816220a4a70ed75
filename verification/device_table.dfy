/** The host library's table of devices already opened
    (`usrp2::find_existing_or_make_new`) and the factory `usrp2::make` that
    validates the requested address, asks discovery for matching devices
    and opens the single one found. The table holds weak references; here
    each entry carries the device it refers to and a flag saying whether
    that reference has expired. */
module DeviceTable {
  import opened Wrappers
  import opened MacAddr

  /** What discovery reports about one device; only its address is used. */
  datatype Props = Props(addr: string)

  /** The `usrp2` object the private constructor builds from an interface
      name, the discovered properties and the receive buffer size. */
  datatype Device = Device(ifc: string, mac: string, rxBufsize: nat)

  /** `usrp_table_entry`: a key "interface:address" and a weak reference,
      reduced to the device plus whether the reference has expired. */
  datatype Entry = Entry(key: string, device: Device, expired: bool)

  type Table = seq<Entry>

  /** The value `find_existing_or_make_new` returns: the table afterwards,
      the device handed to the caller, and whether it was newly made. */
  datatype Lookup = Lookup(table: Table, device: Device, created: bool)

  function TableKey(ifc: string, addr: string): string {
    ifc + ":" + addr
  }

  predicate Matches(e: Entry, key: string) {
    !e.expired && e.key == key
  }

  /** The position of the first live entry with this key, or `|t|` when
      there is none. */
  function FirstLiveMatch(t: Table, key: string): (i: nat)
    ensures i <= |t|
    ensures i < |t| ==> Matches(t[i], key)
    ensures forall j :: 0 <= j < i ==> !Matches(t[j], key)
    decreases |t|
  {
    if |t| == 0 then 0
    else if Matches(t[0], key) then 0
    else 1 + FirstLiveMatch(t[1..], key)
  }

  /** The live entries of a table, in their order. */
  function Live(t: Table): (r: Table)
    ensures |r| <= |t|
    ensures forall k :: 0 <= k < |r| ==> !r[k].expired
  {
    if |t| == 0 then []
    else (if t[0].expired then [] else [t[0]]) + Live(t[1..])
  }

  lemma {:induction false} LiveAppend(a: Table, b: Table)
    ensures Live(a + b) == Live(a) + Live(b)
    decreases |a|
  {
    if |a| == 0 {
      assert a + b == b;
    } else {
      assert (a + b)[1..] == a[1..] + b;
      LiveAppend(a[1..], b);
    }
  }

  lemma {:induction false} LiveOfLiveTable(t: Table)
    requires forall k :: 0 <= k < |t| ==> !t[k].expired
    ensures Live(t) == t
    decreases |t|
  {
    if |t| > 0 {
      LiveOfLiveTable(t[1..]);
    }
  }

  /** Passing over a head entry that does not match: the first match moves
      one place along, and the erased prefix gains the head if it is live. */
  lemma SkipHead(t: Table, key: string)
    requires |t| > 0 && !Matches(t[0], key)
    ensures var i := FirstLiveMatch(t[1..], key);
      && FirstLiveMatch(t, key) == i + 1
      && Live(t[..i + 1]) + t[i + 1..] == (if t[0].expired then [] else [t[0]]) + (Live(t[1..][..i]) + t[1..][i..])
  {
    var i := FirstLiveMatch(t[1..], key);
    LivePrefixStep(t, i);
    assert t[i + 1..] == t[1..][i..];
    ConcatAssoc(if t[0].expired then [] else [t[0]], Live(t[1..][..i]), t[1..][i..]);
  }

  lemma LivePrefixStep(t: Table, i: nat)
    requires i < |t|
    ensures Live(t[..i + 1]) == (if t[0].expired then [] else [t[0]]) + Live(t[1..][..i])
  {
    assert t[..i + 1][1..] == t[1..][..i];
  }

  lemma ConcatAssoc(a: Table, b: Table, c: Table)
    ensures (a + b) + c == a + (b + c)
  {
  }

  /** The scan of `find_existing_or_make_new`: walk the table, erasing every
      expired entry met, until a live entry with the key is found. Returns
      the table left behind and the device found, if any. */
  function Scan(t: Table, key: string): (r: (Table, Option<Device>))
    ensures var i := FirstLiveMatch(t, key);
      && r.0 == Live(t[..i]) + t[i..]
      && r.1 == if i < |t| then Some(t[i].device) else None
    decreases |t|
  {
    if |t| == 0 then ([], None)
    else if Matches(t[0], key) then
      (t, Some(t[0].device))
    else
      var rest := Scan(t[1..], key);
      SkipHead(t, key);
      ((if t[0].expired then [] else [t[0]]) + rest.0, rest.1)
  }

  /** `usrp2::find_existing_or_make_new`: the live device with key
      "interface:address" if the table has one, otherwise a new device
      appended to the table. */
  function FindExistingOrMakeNew(table: Table, ifc: string, pr: Props, rxBufsize: nat): (r: Lookup)
    ensures var i := FirstLiveMatch(table, TableKey(ifc, pr.addr));
      && (!r.created <==> exists j :: 0 <= j < |table| && Matches(table[j], TableKey(ifc, pr.addr)))
      && (!r.created ==> r.device == table[i].device && r.table == Live(table[..i]) + table[i..])
      && (r.created ==>
          && r.device == Device(ifc, pr.addr, rxBufsize)
          && r.table == Live(table) + [Entry(TableKey(ifc, pr.addr), r.device, false)])
  {
    var key := TableKey(ifc, pr.addr);
    var scanned := Scan(table, key);
    assert table[..|table|] == table;
    match scanned.1
    case Some(d) => Lookup(scanned.0, d, false)
    case None =>
      var d := Device(ifc, pr.addr, rxBufsize);
      Lookup(scanned.0 + [Entry(key, d, false)], d, true)
  }

  /** A lookup drops expired entries only: the live entries keep their
      order, and a new device is added after all of them. */
  lemma {:induction false} LookupKeepsLiveEntries(table: Table, ifc: string, pr: Props, rxBufsize: nat)
    ensures var r := FindExistingOrMakeNew(table, ifc, pr, rxBufsize);
      Live(r.table) == Live(table) + (if r.created then [Entry(TableKey(ifc, pr.addr), r.device, false)] else [])
  {
    var key := TableKey(ifc, pr.addr);
    var r := FindExistingOrMakeNew(table, ifc, pr, rxBufsize);
    if r.created {
      LiveOfLiveTable(Live(table) + [Entry(key, r.device, false)]);
    } else {
      var first := FirstLiveMatch(table, key);
      LiveOfLiveTable(Live(table[..first]));
      LiveAppend(Live(table[..first]), table[first..]);
      LiveAppend(table[..first], table[first..]);
      SplitJoin(table, first);
    }
  }

  lemma SplitJoin(t: Table, i: nat)
    requires i <= |t|
    ensures t[..i] + t[i..] == t
  {
  }

  lemma {:induction false} LiveKeepsNoMatch(t: Table, key: string)
    requires forall j :: 0 <= j < |t| ==> !Matches(t[j], key)
    ensures forall j :: 0 <= j < |Live(t)| ==> !Matches(Live(t)[j], key)
    decreases |t|
  {
    if |t| > 0 {
      LiveKeepsNoMatch(t[1..], key);
    }
  }

  /** Looking the same device up again finds what the first lookup returned
      and leaves the table as the first lookup left it, whatever buffer size
      the second call asks for. */
  lemma {:induction false} LookupAgainFindsSame(table: Table, ifc: string, pr: Props, rxBufsize: nat, rxBufsize2: nat)
    ensures var r := FindExistingOrMakeNew(table, ifc, pr, rxBufsize);
      var r2 := FindExistingOrMakeNew(r.table, ifc, pr, rxBufsize2);
      !r2.created && r2.device == r.device && r2.table == r.table
  {
    var key := TableKey(ifc, pr.addr);
    var r := FindExistingOrMakeNew(table, ifc, pr, rxBufsize);
    var i := FirstLiveMatch(table, key);
    var kept := Live(table[..i]);
    if r.created {
      assert table[..i] == table;
    }
    LiveKeepsNoMatch(table[..i], key);
    LiveOfLiveTable(kept);
    MatchAfterKept(kept, r.table[|kept|..], key);
    assert kept + r.table[|kept|..] == r.table;
  }

  /** A table made of live non-matching entries followed by a matching one
      is found at that entry and left as it is. */
  lemma MatchAfterKept(kept: Table, rest: Table, key: string)
    requires Live(kept) == kept
    requires forall j :: 0 <= j < |kept| ==> !Matches(kept[j], key)
    requires |rest| > 0 && Matches(rest[0], key)
    ensures FirstLiveMatch(kept + rest, key) == |kept|
    ensures Live((kept + rest)[..|kept|]) + (kept + rest)[|kept|..] == kept + rest
  {
    var t := kept + rest;
    assert t[..|kept|] == kept;
    assert t[|kept|..] == rest;
    assert Matches(t[|kept|], key);
  }

  /** The failures `usrp2::make` reports, each with the message it throws. */
  datatype MakeError =
    | InvalidMacAddress
    | NoUsrpsOnInterface(ifc: string)
    | NoUsrpWithAddr(addr: string, ifc: string)
    | MultipleUsrps
  {
    function Message(): string {
      match this
      case InvalidMacAddress => "Invalid MAC address"
      case NoUsrpsOnInterface(ifc) => "No USRPs found on interface " + ifc
      case NoUsrpWithAddr(addr, ifc) => "No USRP found with addr " + addr + " on interface " + ifc
      // written in two parts so that its first word stands on its own
      case MultipleUsrps => "Multiple" + " USRPs found on interface; must select by MAC address."
    }
  }

  /** The first eight characters of each message: they already tell the
      four failures apart. */
  function MessageHead(e: MakeError): string {
    match e
    case InvalidMacAddress => "Invalid "
    case NoUsrpsOnInterface(_) => "No USRPs"
    case NoUsrpWithAddr(_, _) => "No USRP "
    case MultipleUsrps => "Multiple"
  }

  lemma MessageStartsWithHead(e: MakeError)
    ensures |e.Message()| >= 8 && e.Message()[..8] == MessageHead(e)
  {
    match e
    case NoUsrpsOnInterface(ifc) =>
      assert e.Message()[..8] == ("No USRPs found on interface " + ifc)[..8];
    case NoUsrpWithAddr(addr, ifc) =>
      assert e.Message()[..8] == ("No USRP found with addr " + addr + " on interface " + ifc)[..8];
    case InvalidMacAddress =>
      assert e.Message()[..8] == "Invalid MAC address"[..8];
    case MultipleUsrps =>
      assert e.Message()[..8] == ("Multiple" + " USRPs found on interface; must select by MAC address.")[..8];
  }

  /** A caller reading only the text of a failure of `make` can tell which
      failure it was, and for "No USRPs found on interface" which interface. */
  lemma MessageTellsFailure(e1: MakeError, e2: MakeError)
    requires e1.Message() == e2.Message()
    ensures e1.InvalidMacAddress? == e2.InvalidMacAddress?
    ensures e1.NoUsrpsOnInterface? == e2.NoUsrpsOnInterface?
    ensures e1.NoUsrpWithAddr? == e2.NoUsrpWithAddr?
    ensures e1.MultipleUsrps? == e2.MultipleUsrps?
    ensures e1.NoUsrpsOnInterface? && e2.NoUsrpsOnInterface? ==> e1 == e2
  {
    MessageStartsWithHead(e1);
    MessageStartsWithHead(e2);
    if e1.NoUsrpsOnInterface? && e2.NoUsrpsOnInterface? {
      var head := "No USRPs found on interface ";
      assert e1.ifc == e1.Message()[|head|..];
      assert e2.ifc == e2.Message()[|head|..];
    }
  }

  /** The address `make` hands to discovery: the canonical form of the
      requested address, or "" when `parse_mac_addr` rejects it (which,
      once invalid addresses are refused, happens only for ""). */
  function QueryAddr(addr: string): (naddr: string)
    ensures addr == "" ==> naddr == ""
    ensures StringToMacAddr(addr).Some? ==>
      IsCanonical(naddr) && StringToMacAddr(naddr) == StringToMacAddr(addr)
  {
    match ParseMacAddr(addr)
    case Some(ns) => ns
    case None => ""
  }

  /** `usrp2::make`. Discovery (`find`) is a network query and appears as a
      parameter: the properties of the devices answering on an interface
      for an address ("" meaning any). */
  function Make(table: Table, ifc: string, addr: string, rxBufsize: nat,
                find: (string, string) -> seq<Props>): (r: Result<Lookup, MakeError>)
    ensures r == Failure(InvalidMacAddress) <==> addr != "" && StringToMacAddr(addr).None?
    ensures r.Success? <==>
      (addr == "" || StringToMacAddr(addr).Some?) && |find(ifc, QueryAddr(addr))| == 1
    ensures r.Success? ==>
      r.value == FindExistingOrMakeNew(table, ifc, find(ifc, QueryAddr(addr))[0], rxBufsize)
    ensures r.Failure? && r.error != InvalidMacAddress ==>
      var n := |find(ifc, QueryAddr(addr))|;
      || (n == 0 && addr == "" && r.error == NoUsrpsOnInterface(ifc))
      || (n == 0 && addr != "" && r.error == NoUsrpWithAddr(addr, ifc))
      || (n > 1 && r.error == MultipleUsrps)
  {
    if addr != "" && StringToMacAddr(addr).None? then Failure(InvalidMacAddress)
    else
      var found := find(ifc, QueryAddr(addr));
      if |found| == 0 then
        if addr == "" then Failure(NoUsrpsOnInterface(ifc)) else Failure(NoUsrpWithAddr(addr, ifc))
      else if |found| > 1 then Failure(MultipleUsrps)
      else Success(FindExistingOrMakeNew(table, ifc, found[0], rxBufsize))
  }

  /** Opening the same device twice, with discovery answering the same way,
      hands back the device the first call opened and leaves the table as
      the first call left it, whatever receive buffer size is asked for. */
  lemma MakeAgainFindsSame(table: Table, ifc: string, addr: string, rxBufsize: nat, rxBufsize2: nat,
                           find: (string, string) -> seq<Props>)
    ensures var r := Make(table, ifc, addr, rxBufsize, find);
      r.Success? ==>
        var r2 := Make(r.value.table, ifc, addr, rxBufsize2, find);
        && r2.Success? && !r2.value.created
        && r2.value.device == r.value.device && r2.value.table == r.value.table
  {
    var r := Make(table, ifc, addr, rxBufsize, find);
    if r.Success? {
      LookupAgainFindsSame(table, ifc, find(ifc, QueryAddr(addr))[0], rxBufsize, rxBufsize2);
    }
  }
}
