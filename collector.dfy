/** Fact normalisation of `collect` and `primary_ipv4` (src/collector.rs).
    Every outside call is an input: the `COMPUTERNAME` variable, the interface
    enumeration, the COM and WMI set-up outcomes, the rows (or the error) of the
    three WMI queries and the clock's RFC 3339 text. */
module Collector {
  import opened Wrappers
  import opened Strings
  import opened Models

  const Unknown := "UNKNOWN"
  const UnspecifiedAddress := "0.0.0.0"
  const LinkLocalPrefix := "169.254."

  // ---------------------------------------------------------------- interfaces

  type Octet = x: int | 0 <= x < 256

  datatype IpAddr = V4(a: Octet, b: Octet, c: Octet, d: Octet) | V6

  /** One entry of the enumeration: whether it is loopback, and its address. */
  datatype Interface = Interface(isLoopback: bool, addr: IpAddr)

  function JoinDot(x: string, y: string): string {
    x + "." + y
  }

  /** `Ipv4Addr::to_string`: four decimal octets joined by dots. */
  function V4Text(a: Octet, b: Octet, c: Octet, d: Octet): string {
    JoinDot(ToDecimal(a), JoinDot(ToDecimal(b), JoinDot(ToDecimal(c), ToDecimal(d))))
  }

  /** The interface passes every test of the loop body and its address is returned. */
  predicate Qualifies(iface: Interface) {
    && !iface.isLoopback
    && iface.addr.V4?
    && !StartsWith(V4Text(iface.addr.a, iface.addr.b, iface.addr.c, iface.addr.d), LinkLocalPrefix)
  }

  function AddressText(iface: Interface): string
    requires iface.addr.V4?
  {
    V4Text(iface.addr.a, iface.addr.b, iface.addr.c, iface.addr.d)
  }

  /** The interface list, scanned front to back as the `for` loop does. */
  function FirstQualifying(ifaces: seq<Interface>): Option<string>
    decreases |ifaces|
  {
    if |ifaces| == 0 then None
    else if Qualifies(ifaces[0]) then Some(AddressText(ifaces[0]))
    else FirstQualifying(ifaces[1..])
  }

  /** The value `primary_ipv4` returns for an enumeration result (`None` when
      `get_if_addrs` failed). */
  function SelectedAddress(enumeration: Option<seq<Interface>>): Option<string> {
    match enumeration
    case None => None
    case Some(ifaces) => FirstQualifying(ifaces)
  }

  /** `primary_ipv4`: skip loopback entries, skip non-IPv4 entries, skip
      addresses whose text starts with `169.254.`, return the first left. */
  method PrimaryIpv4(enumeration: Option<seq<Interface>>) returns (r: Option<string>)
    ensures r == SelectedAddress(enumeration)
  {
    if enumeration.None? {
      return None;
    }
    var ifaces := enumeration.value;
    var i := 0;
    while i < |ifaces|
      invariant 0 <= i <= |ifaces|
      invariant FirstQualifying(ifaces[i..]) == FirstQualifying(ifaces)
    {
      var iface := ifaces[i];
      assert ifaces[i..][1..] == ifaces[i + 1..];
      if iface.isLoopback {
        i := i + 1;
        continue;
      }
      if iface.addr.V4? {
        var s := V4Text(iface.addr.a, iface.addr.b, iface.addr.c, iface.addr.d);
        if StartsWith(s, LinkLocalPrefix) {
          i := i + 1;
          continue;
        }
        return Some(s);
      }
      i := i + 1;
    }
    return None;
  }

  // ---------------------------------------------------------------- selection properties

  /** Where the scan stops: the index of the first qualifying interface, or
      the length of the list when none qualifies. */
  function FirstQualifyingIndex(ifaces: seq<Interface>): (k: nat)
    ensures k <= |ifaces|
    ensures k < |ifaces| ==> Qualifies(ifaces[k])
    ensures forall j :: 0 <= j < k ==> !Qualifies(ifaces[j])
    decreases |ifaces|
  {
    if |ifaces| == 0 then 0
    else if Qualifies(ifaces[0]) then 0
    else
      var k := 1 + FirstQualifyingIndex(ifaces[1..]);
      assert forall j :: 1 <= j < k ==> ifaces[j] == ifaces[1..][j - 1];
      k
  }

  /** The scan returns the address of the first qualifying interface in
      enumeration order, and `None` exactly when no interface qualifies. */
  lemma {:induction false} FirstQualifyingIsFirstMatch(ifaces: seq<Interface>)
    ensures var k := FirstQualifyingIndex(ifaces);
            FirstQualifying(ifaces) == if k < |ifaces| then Some(AddressText(ifaces[k])) else None
    ensures FirstQualifying(ifaces).None? <==> forall i :: 0 <= i < |ifaces| ==> !Qualifies(ifaces[i])
    decreases |ifaces|
  {
    if |ifaces| > 0 && !Qualifies(ifaces[0]) {
      FirstQualifyingIsFirstMatch(ifaces[1..]);
      assert ifaces[1..][FirstQualifyingIndex(ifaces) - 1..] == ifaces[FirstQualifyingIndex(ifaces)..];
    }
  }

  /** A decimal octet followed by a dot starts with a three-digit prefix `p` and a
      dot only when that octet is written `p`. */
  lemma OctetPrefix(x: Octet, rest: string, p: string)
    requires |p| >= 4 && AllDigits(p[..3]) && p[3] == '.'
    requires StartsWith(JoinDot(ToDecimal(x), rest), p)
    ensures ToDecimal(x) == p[..3] && StartsWith(rest, p[4..])
  {
    var t := ToDecimal(x);
    var s := t + "." + rest;
    assert s[..|p|] == p;
    assert s[|t|] == '.';
    assert p[|t|] == '.';
    assert forall i :: 0 <= i < 3 ==> IsDigit(p[i]) by {
      assert forall i :: 0 <= i < 3 ==> p[..3][i] == p[i];
    }
    assert |t| == 3;
    assert s[..3] == t;
    assert p[..3] == s[..3];
    assert s[4..] == rest;
    assert rest[..|p| - 4] == s[4..|p|] == p[4..];
  }

  lemma DecimalOf169And254()
    ensures ToDecimal(169) == "169" && ToDecimal(254) == "254"
  {
    assert ToDecimal(16) == "16";
    assert ToDecimal(25) == "25";
  }

  lemma DigitsOf169And254()
    ensures AllDigits("169") && DigitsValue("169") == 169
    ensures AllDigits("254") && DigitsValue("254") == 254
  {
    assert "169"[..2] == "16" && "16"[..1] == "1";
    assert "254"[..2] == "25" && "25"[..1] == "2";
  }

  /** An octet text followed by a dot and `rest` that starts with the three
      digits `p[..3]` and a dot is that octet's value. */
  lemma OctetFromPrefix(x: Octet, rest: string, p: string, value: nat)
    requires |p| >= 4 && AllDigits(p[..3]) && p[3] == '.' && DigitsValue(p[..3]) == value
    requires StartsWith(JoinDot(ToDecimal(x), rest), p)
    ensures x == value && StartsWith(rest, p[4..])
  {
    OctetPrefix(x, rest, p);
  }

  lemma LinkLocalTextHasOctets(a: Octet, b: Octet, c: Octet, d: Octet)
    requires StartsWith(V4Text(a, b, c, d), LinkLocalPrefix)
    ensures a == 169 && b == 254
  {
    var tail := JoinDot(ToDecimal(c), ToDecimal(d));
    var rest := JoinDot(ToDecimal(b), tail);
    DigitsOf169And254();
    assert LinkLocalPrefix[..3] == "169" && LinkLocalPrefix[4..] == "254.";
    OctetFromPrefix(a, rest, LinkLocalPrefix, 169);
    assert "254."[..3] == "254";
    OctetFromPrefix(b, tail, "254.", 254);
  }

  /** On the dotted text, "starts with `169.254.`" is exactly "the first two
      octets are 169 and 254". */
  lemma LinkLocalTextIsOctets(a: Octet, b: Octet, c: Octet, d: Octet)
    ensures StartsWith(V4Text(a, b, c, d), LinkLocalPrefix) <==> a == 169 && b == 254
  {
    if StartsWith(V4Text(a, b, c, d), LinkLocalPrefix) {
      LinkLocalTextHasOctets(a, b, c, d);
    }
    if a == 169 && b == 254 {
      DecimalOf169And254();
      var t := V4Text(a, b, c, d);
      assert t == "169" + "." + ("254" + "." + JoinDot(ToDecimal(c), ToDecimal(d)));
      assert t[..8] == LinkLocalPrefix;
    }
  }

  /** An interface qualifies exactly when it is not loopback, carries an IPv4
      address, and that address is outside 169.254.0.0/16. */
  lemma QualifiesIsOctetTest(iface: Interface)
    ensures Qualifies(iface) <==>
              !iface.isLoopback && iface.addr.V4? && !(iface.addr.a == 169 && iface.addr.b == 254)
  {
    if iface.addr.V4? {
      LinkLocalTextIsOctets(iface.addr.a, iface.addr.b, iface.addr.c, iface.addr.d);
    }
  }

  /** Whatever `primary_ipv4` returns is the text of an enumerated, non-loopback,
      non-link-local IPv4 address; a failed enumeration gives `None`. */
  lemma SelectedAddressIsRoutableV4(enumeration: Option<seq<Interface>>)
    ensures enumeration.None? ==> SelectedAddress(enumeration).None?
    ensures SelectedAddress(enumeration).Some? ==>
              !StartsWith(SelectedAddress(enumeration).value, LinkLocalPrefix)
              && exists k :: 0 <= k < |enumeration.value|
                   && !enumeration.value[k].isLoopback && enumeration.value[k].addr.V4?
                   && !(enumeration.value[k].addr.a == 169 && enumeration.value[k].addr.b == 254)
                   && SelectedAddress(enumeration).value == AddressText(enumeration.value[k])
  {
    if enumeration.Some? {
      var ifaces := enumeration.value;
      FirstQualifyingIsFirstMatch(ifaces);
      var k := FirstQualifyingIndex(ifaces);
      if k < |ifaces| {
        QualifiesIsOctetTest(ifaces[k]);
      }
    }
  }

  /** The worked example: loopback, then 169.254.1.1, then 10.0.0.5, then
      10.0.0.9 selects 10.0.0.5. */
  lemma SelectionExample()
    ensures SelectedAddress(Some([Interface(true, V4(127, 0, 0, 1)), Interface(false, V4(169, 254, 1, 1)),
                                  Interface(false, V4(10, 0, 0, 5)), Interface(false, V4(10, 0, 0, 9))]))
            == Some("10.0.0.5")
  {
    var ifaces := [Interface(true, V4(127, 0, 0, 1)), Interface(false, V4(169, 254, 1, 1)),
                   Interface(false, V4(10, 0, 0, 5)), Interface(false, V4(10, 0, 0, 9))];
    QualifiesIsOctetTest(ifaces[1]);
    QualifiesIsOctetTest(ifaces[2]);
    assert ifaces[1..][1..] == ifaces[2..];
    assert ToDecimal(10) == "10";
    assert AddressText(ifaces[2]) == "10.0.0.5";
  }

  // ---------------------------------------------------------------- WMI rows

  /** A WMI query answers with its rows, or fails. */
  datatype Query<T> = Rows(rows: seq<T>) | QueryError

  datatype ComputerSystemRow = ComputerSystemRow(userName: Option<string>)
  datatype BiosRow = BiosRow(serialNumber: Option<string>)
  datatype DiskRow = DiskRow(model: Option<string>, serialNumber: Option<string>, deviceId: Option<string>)

  datatype WmiClass = Win32ComputerSystem | Win32Bios | Win32DiskDrive

  datatype CollectError = ComInitFailed | WmiConnectFailed | QueryFailed(query: WmiClass)

  /** Everything `collect` learns from outside, in the order it asks. */
  datatype Facts = Facts(
    computerName: Option<string>,
    interfaces: Option<seq<Interface>>,
    comInitOk: bool,
    wmiConnectOk: bool,
    computerSystem: Query<ComputerSystemRow>,
    bios: Query<BiosRow>,
    disks: Query<DiskRow>,
    clock: string)

  function TrimSerial(s: Option<string>): Option<string> {
    match s
    case Some(v) => Some(Trim(v))
    case None => None
  }

  /** The closure of the `map` over disk rows. */
  function ToDrive(row: DiskRow): Drive {
    Drive(row.model.GetOr(Unknown), TrimSerial(row.serialNumber), row.deviceId.GetOr(Unknown))
  }

  function ToDrives(rows: seq<DiskRow>): (ds: seq<Drive>)
    decreases |rows|
  {
    if |rows| == 0 then [] else [ToDrive(rows[0])] + ToDrives(rows[1..])
  }

  function FirstUser(rows: seq<ComputerSystemRow>): Option<string> {
    if |rows| > 0 then rows[0].userName else None
  }

  function FirstSerial(rows: seq<BiosRow>): string {
    (if |rows| > 0 then rows[0].serialNumber else None).GetOr(Unknown)
  }

  /** `collect`: environment and interface facts degrade to sentinels; COM,
      the WMI connection and each of the three queries abort on failure. */
  function Collect(f: Facts): Result<CheckIn, CollectError> {
    var hostname := f.computerName.GetOr(Unknown);
    var ip := SelectedAddress(f.interfaces).GetOr(UnspecifiedAddress);
    if !f.comInitOk then Failure(ComInitFailed)
    else if !f.wmiConnectOk then Failure(WmiConnectFailed)
    else
      match f.computerSystem
      case QueryError => Failure(QueryFailed(Win32ComputerSystem))
      case Rows(cs) =>
        match f.bios
        case QueryError => Failure(QueryFailed(Win32Bios))
        case Rows(bios) =>
          match f.disks
          case QueryError => Failure(QueryFailed(Win32DiskDrive))
          case Rows(disks) =>
            Success(CheckIn(hostname, ip, FirstUser(cs), FirstSerial(bios), ToDrives(disks), f.clock))
  }

  // ---------------------------------------------------------------- collect properties

  /** One drive per disk row, in row order; model and device id default to
      `UNKNOWN`; a present serial is trimmed and an absent one stays absent. */
  lemma {:induction false} DrivesFollowRows(rows: seq<DiskRow>)
    ensures |ToDrives(rows)| == |rows|
    ensures forall i :: 0 <= i < |rows| ==>
              && ToDrives(rows)[i].model == (if rows[i].model.Some? then rows[i].model.value else Unknown)
              && ToDrives(rows)[i].deviceId == (if rows[i].deviceId.Some? then rows[i].deviceId.value else Unknown)
              && (rows[i].serialNumber.None? ==> ToDrives(rows)[i].serialNumber.None?)
              && (rows[i].serialNumber.Some? ==> ToDrives(rows)[i].serialNumber == Some(Trim(rows[i].serialNumber.value)))
    decreases |rows|
  {
    if |rows| > 0 {
      DrivesFollowRows(rows[1..]);
      assert forall i :: 1 <= i < |rows| ==> ToDrives(rows)[i] == ToDrives(rows[1..])[i - 1] && rows[i] == rows[1..][i - 1];
    }
  }

  /** `collect` fails exactly when COM, the WMI connection or one of the three
      queries fails, and the error names the first failing step. A missing
      host name, a failed interface enumeration or absent row fields never fail it. */
  lemma CollectFailsOnlyOnWmi(f: Facts)
    ensures Collect(f).Failure? <==>
              !f.comInitOk || !f.wmiConnectOk || f.computerSystem.QueryError? || f.bios.QueryError? || f.disks.QueryError?
    ensures Collect(f) == Failure(ComInitFailed) <==> !f.comInitOk
    ensures Collect(f) == Failure(WmiConnectFailed) <==> f.comInitOk && !f.wmiConnectOk
    ensures Collect(f) == Failure(QueryFailed(Win32ComputerSystem)) <==>
              f.comInitOk && f.wmiConnectOk && f.computerSystem.QueryError?
    ensures Collect(f) == Failure(QueryFailed(Win32Bios)) <==>
              f.comInitOk && f.wmiConnectOk && f.computerSystem.Rows? && f.bios.QueryError?
    ensures Collect(f) == Failure(QueryFailed(Win32DiskDrive)) <==>
              f.comInitOk && f.wmiConnectOk && f.computerSystem.Rows? && f.bios.Rows? && f.disks.QueryError?
  {
  }

  /** A successful `collect` is built field by field from the facts with the
      documented sentinels. */
  lemma CollectedFields(f: Facts)
    requires Collect(f).Success?
    ensures var c := Collect(f).value;
      && c.hostname == (if f.computerName.Some? then f.computerName.value else Unknown)
      && (SelectedAddress(f.interfaces).None? ==> c.ipAddress == UnspecifiedAddress)
      && (SelectedAddress(f.interfaces).Some? ==> c.ipAddress == SelectedAddress(f.interfaces).value)
      && c.loggedInUser == (if |f.computerSystem.rows| == 0 then None else f.computerSystem.rows[0].userName)
      && (|f.bios.rows| == 0 || f.bios.rows[0].serialNumber.None? ==> c.laptopSerial == Unknown)
      && (|f.bios.rows| > 0 && f.bios.rows[0].serialNumber.Some? ==> c.laptopSerial == f.bios.rows[0].serialNumber.value)
      && |c.drives| == |f.disks.rows|
      && (forall i :: 0 <= i < |c.drives| ==> c.drives[i] == ToDrive(f.disks.rows[i]))
      && c.timestampUtc == f.clock
  {
    DrivesFollowRows(f.disks.rows);
    assert forall i :: 0 <= i < |f.disks.rows| ==> ToDrives(f.disks.rows)[i] == ToDrive(f.disks.rows[i]);
  }
}
