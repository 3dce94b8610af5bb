/**
 * The Nmap XML tree as the XML decoder delivers it, and the simplified
 * summary records derived from it.
 *
 * Attribute fields keep their `attr_` names. A field is an `Option` when the
 * interface marks it optional, or when the summary builder substitutes a
 * default for its absence: the decoder does not enforce the interface, and
 * the summary builder is written against what the decoder can produce.
 */
module NmapTypes {
  import opened Wrappers

  /** Nmap's timing template `-T<n>`: five levels, rendered '1' to '5'. */
  datatype NmapScanSpeed = Safe | Medium | Fast | Aggressive | Insane {
    /** The string value of the enumeration member. */
    function Value(): (v: string)
      ensures |v| == 1 && '1' <= v[0] <= '5'
    {
      match this
      case Safe => "1"
      case Medium => "2"
      case Fast => "3"
      case Aggressive => "4"
      case Insane => "5"
    }
  }

  /** The enumeration member whose value is `v`, if any. */
  function SpeedOfValue(v: string): (r: Option<NmapScanSpeed>)
    ensures r.Some? <==> |v| == 1 && '1' <= v[0] <= '5'
    ensures r.Some? ==> r.value.Value() == v
  {
    if v == "1" then Some(Safe)
    else if v == "2" then Some(Medium)
    else if v == "3" then Some(Fast)
    else if v == "4" then Some(Aggressive)
    else if v == "5" then Some(Insane)
    else None
  }

  /** Every level is named by its own value. */
  lemma SpeedRoundTrip(s: NmapScanSpeed)
    ensures SpeedOfValue(s.Value()) == Some(s)
  {
  }

  /** The levels are declared from slowest to fastest, with increasing values. */
  lemma SpeedValuesIncrease()
    ensures Safe.Value()[0] < Medium.Value()[0] < Fast.Value()[0] < Aggressive.Value()[0] < Insane.Value()[0]
  {
  }

  /** An element the decoder may deliver as absent, as one object, or as an array. */
  datatype Occurs<T> = Absent | Single(item: T) | Listed(items: seq<T>)

  /** An attribute value after the decoder's coercion: a number when lexically numeric, else text. */
  datatype Scalar = Num(n: int) | Text(s: string)

  datatype AddrType = IPv4 | IPv6 | Mac

  datatype Address = Address(
    attr_addr: string,
    attr_addrtype: AddrType,
    attr_vendor: Option<string>)

  datatype PortState = PortState(
    attr_state: string,
    attr_reason: Option<string>,
    attr_reason_ttl: Option<int>)

  datatype Service = Service(
    attr_name: Option<string>,
    attr_method: Option<string>,
    attr_conf: Option<int>,
    attr_product: Option<string>,
    attr_version: Option<string>,
    attr_extrainfo: Option<string>)

  datatype Port = Port(
    attr_protocol: Option<string>,
    attr_portid: Option<Scalar>,
    state: Option<PortState>,
    service: Option<Service>)

  datatype Hostname = Hostname(attr_name: string, attr_type: string)

  datatype Hostnames = Hostnames(hostname: Option<seq<Hostname>>)

  datatype ExtraReasons = ExtraReasons(
    attr_reason: string,
    attr_count: int,
    attr_proto: Option<string>,
    attr_ports: Option<string>)

  datatype ExtraPorts = ExtraPorts(
    attr_state: string,
    attr_count: int,
    extrareasons: seq<ExtraReasons>)

  datatype Ports = Ports(
    extraports: Option<seq<ExtraPorts>>,
    port: Option<seq<Port>>)

  /**
   * A `<cpe>` element as the decoder delivers it. An element with text only
   * (nmap's usual form) becomes the bare string; one that also carries
   * attributes becomes an object whose text, if any, is under `#text`.
   */
  datatype Cpe =
    | CpeBare(value: string)
    | CpeNode(text: Option<string>)

  datatype OsClass = OsClass(
    attr_type: Option<string>,
    attr_vendor: Option<string>,
    attr_osfamily: Option<string>,
    attr_osgen: Option<string>,
    attr_accuracy: int,
    cpe: Option<seq<Cpe>>)

  datatype PortUsed = PortUsed(attr_state: string, attr_proto: string, attr_portid: int)

  datatype OsMatch = OsMatch(
    attr_name: Option<string>,
    attr_accuracy: Option<Scalar>,
    attr_line: int,
    osclass: Option<seq<OsClass>>)

  datatype Os = Os(
    portused: seq<PortUsed>,
    osmatch: Option<seq<OsMatch>>,
    osfingerprint: Option<OsFingerprint>)

  datatype OsFingerprint = OsFingerprint(attr_fingerprint: string)

  datatype Status = Status(
    attr_state: Option<string>,
    attr_reason: string,
    attr_reason_ttl: int)

  datatype Distance = Distance(attr_value: int)

  datatype Times = Times(attr_srtt: int, attr_rttvar: int, attr_to: int)

  /** A scanned host. `ports` and `os` are missing when the host timed out. */
  datatype Host = Host(
    attr_starttime: int,
    attr_endtime: int,
    attr_timedout: Option<bool>,
    status: Option<Status>,
    address: Occurs<Address>,
    hostnames: Hostnames,
    ports: Option<Ports>,
    os: Option<Os>,
    distance: Option<Distance>,
    times: Option<Times>)

  datatype HostHint = HostHint(status: Status, address: seq<Address>, hostnames: Hostnames)

  datatype ScanInfo = ScanInfo(
    attr_type: string,
    attr_protocol: string,
    attr_numservices: int,
    attr_services: string)

  datatype Verbose = Verbose(attr_level: int)

  datatype Debugging = Debugging(attr_level: int)

  datatype Finished = Finished(
    attr_time: int,
    attr_timestr: string,
    attr_summary: Option<string>,
    attr_elapsed: Option<real>,
    attr_exit: Option<string>)

  datatype HostsStats = HostsStats(
    attr_up: Option<int>,
    attr_down: Option<int>,
    attr_total: Option<int>)

  datatype RunStats = RunStats(finished: Option<Finished>, hosts: Option<HostsStats>)

  /** The `<nmaprun>` root element. */
  datatype NmapRun = NmapRun(
    attr_scanner: Option<string>,
    attr_args: Option<string>,
    attr_start: int,
    attr_startstr: Option<string>,
    attr_version: Option<string>,
    attr_xmloutputversion: string,
    scaninfo: ScanInfo,
    verbose: Verbose,
    debugging: Debugging,
    hosthint: Option<HostHint>,
    host: Occurs<Host>,
    runstats: Option<RunStats>)

  /** The decoded document: an object that may or may not hold `nmaprun`. */
  datatype ParsedNmapXml = ParsedNmapXml(nmaprun: Option<NmapRun>)

  // ---------------------------------------------------------------------------
  // The simplified view

  datatype SimplifiedPort = SimplifiedPort(
    protocol: string,
    port: int,
    service: Option<string>,
    reason: Option<string>,
    reason_ttl: Option<int>)

  datatype SimplifiedOsClass = SimplifiedOsClass(
    classType: Option<string>,
    vendor: Option<string>,
    family: Option<string>,
    gen: Option<string>,
    cpe: seq<string>)

  datatype SimplifiedOsMatch = SimplifiedOsMatch(
    name: Option<string>,
    accuracy: int,
    classes: seq<SimplifiedOsClass>)

  datatype SimplifiedHost = SimplifiedHost(
    ipv4: Option<string>,
    mac: Option<string>,
    vendor: Option<string>,
    status: Option<string>,
    openPorts: seq<SimplifiedPort>,
    osMatches: seq<SimplifiedOsMatch>)

  datatype SimplifiedRunStats = SimplifiedRunStats(
    summary: Option<string>,
    elapsed: Option<real>,
    exit: Option<string>,
    up: Option<int>,
    down: Option<int>,
    total: Option<int>)

  datatype SimplifiedNmapResult = SimplifiedNmapResult(
    scanner: string,
    version: Option<string>,
    startedAt: Option<string>,
    args: Option<string>,
    hosts: seq<SimplifiedHost>,
    runstats: SimplifiedRunStats)

  /** The raw tree together with its summary. */
  datatype NmapParseResult = NmapParseResult(raw: NmapRun, summary: SimplifiedNmapResult)
}
