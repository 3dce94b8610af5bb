/**
 * The Nmap result parser: the element allow-list handed to the XML decoder,
 * the entry points that return `null` instead of throwing, and the summary
 * projection `buildSummary`.
 *
 * The XML decoder itself is foreign: it is a parameter of the entry points,
 * a function from the document text to a decoded tree or a thrown error.
 */
module NmapParser {
  import opened Wrappers
  import opened Text
  import opened Sequences
  import opened NmapTypes

  // ---------------------------------------------------------------------------
  // The allow-list of elements that always decode as arrays

  const ArrayTags: set<string> := {
    "host", "address", "hostname", "port", "portused",
    "osmatch", "osclass", "cpe", "extraports", "extrareasons"
  }

  /** The decoder's `isArray` callback. */
  predicate IsArray(tagName: string) {
    tagName in ArrayTags
  }

  /** The callback answers yes for exactly the ten listed element names. */
  lemma IsArrayExactly(tagName: string)
    ensures IsArray(tagName) <==>
      || tagName == "host" || tagName == "address" || tagName == "hostname" || tagName == "port"
      || tagName == "portused" || tagName == "osmatch" || tagName == "osclass" || tagName == "cpe"
      || tagName == "extraports" || tagName == "extrareasons"
  {
  }

  /**
   * How the decoder delivers the occurrences `xs` of one child element named
   * `tagName`: nothing when there are none, a bare object for a lone
   * occurrence of an element outside the allow-list, an array otherwise.
   */
  function Group<T>(tagName: string, xs: seq<T>): (o: Occurs<T>)
    ensures o.Absent? <==> xs == []
    ensures o.Single? <==> |xs| == 1 && !IsArray(tagName)
  {
    if xs == [] then Absent
    else if |xs| == 1 && !IsArray(tagName) then Single(xs[0])
    else Listed(xs)
  }

  /** The `Array.isArray(x) ? x : x ? [x] : []` normalisation. */
  function AsList<T>(o: Occurs<T>): seq<T> {
    match o
    case Listed(items) => items
    case Single(item) => [item]
    case Absent => []
  }

  /** Normalising what the decoder delivered loses no occurrence and reorders nothing;
      an allow-listed element is never delivered as a bare object. */
  lemma GroupThenList<T>(tagName: string, xs: seq<T>)
    ensures AsList(Group(tagName, xs)) == xs
    ensures IsArray(tagName) ==> Group(tagName, xs) == if xs == [] then Absent else Listed(xs)
  {
  }

  // ---------------------------------------------------------------------------
  // Entry points that return null rather than throw

  /** What the foreign XML decoder does with a document: a tree, or a thrown error. */
  datatype DecodeOutcome = Threw | Decoded(doc: ParsedNmapXml)

  /** `parseNmapXmlContent`: the `nmaprun` root, or null when the decoder throws or the root is missing. */
  function ParseNmapXmlContent(decode: string -> DecodeOutcome, xmlContent: string): (r: Option<NmapRun>)
    ensures r.None? <==> decode(xmlContent) == Threw || decode(xmlContent).doc.nmaprun.None?
    ensures r.Some? ==> decode(xmlContent) == Decoded(ParsedNmapXml(r))
  {
    match decode(xmlContent)
    case Threw => None
    case Decoded(doc) => if doc.nmaprun.None? then None else Some(doc.nmaprun.value)
  }

  /** `parseNmapLogfile`: the file read sits inside the same `try`, so a read failure is also null. */
  function ParseNmapLogfile(
    readFile: string -> ReadOutcome, decode: string -> DecodeOutcome, filePath: string): (r: Option<NmapRun>)
    ensures readFile(filePath).ReadFailed? ==> r == None
    ensures readFile(filePath).ReadOk? ==> r == ParseNmapXmlContent(decode, readFile(filePath).content)
  {
    match readFile(filePath)
    case ReadFailed(_) => None
    case ReadOk(xmlContent) =>
      match decode(xmlContent)
      case Threw => None
      case Decoded(parsed) => if parsed.nmaprun.None? then None else Some(parsed.nmaprun.value)
  }

  /** `parseNmapLogfileWithSummary`: null exactly when the base parse is null, otherwise the tree and its summary. */
  function ParseNmapLogfileWithSummary(
    readFile: string -> ReadOutcome, decode: string -> DecodeOutcome, filePath: string): (r: Option<NmapParseResult>)
    ensures r.None? <==> ParseNmapLogfile(readFile, decode, filePath).None?
    ensures r.Some? ==> r.value.raw == ParseNmapLogfile(readFile, decode, filePath).value
    ensures r.Some? ==> r.value.summary == BuildSummary(r.value.raw)
  {
    var nmapRun := ParseNmapLogfile(readFile, decode, filePath);
    if nmapRun.None? then None
    else Some(NmapParseResult(nmapRun.value, BuildSummary(nmapRun.value)))
  }

  // ---------------------------------------------------------------------------
  // Host identity: first address of a given type

  /** Index of the first address of type `t`, or `|addrs|` when there is none. */
  function FirstOfType(addrs: seq<Address>, t: AddrType): (k: nat)
    ensures k <= |addrs|
    ensures k < |addrs| ==> addrs[k].attr_addrtype == t
    ensures forall j :: 0 <= j < k ==> addrs[j].attr_addrtype != t
  {
    if |addrs| == 0 then 0
    else if addrs[0].attr_addrtype == t then 0
    else 1 + FirstOfType(addrs[1..], t)
  }

  /** `addrs.find((a) => a.attr_addrtype === t)`. */
  function Find(addrs: seq<Address>, t: AddrType): (r: Option<Address>)
    ensures r.Some? ==> r.value in addrs && r.value.attr_addrtype == t
    ensures r.None? <==> forall a :: a in addrs ==> a.attr_addrtype != t
  {
    var k := FirstOfType(addrs, t);
    if k < |addrs| then Some(addrs[k]) else None
  }

  /** JavaScript's `s || null` on an optional string: empty and absent both become null. */
  function Truthy(s: Option<string>): (r: Option<string>)
    ensures r.Some? <==> s.Some? && s.value != ""
    ensures r.Some? ==> r == s
  {
    if s.Some? && s.value != "" then s else None
  }

  // ---------------------------------------------------------------------------
  // Ports

  /** `typeof v === 'number' ? v : Number(v) || 0`, for integers: digits (with
      surrounding white space) read as their value, anything else as 0. */
  function NumberOrZero(v: Option<Scalar>): (r: int)
    ensures v.None? ==> r == 0
    ensures r < 0 ==> v.Some? && v.value.Num?
  {
    match v
    case Some(Num(n)) => n
    case Some(Text(s)) =>
      var t := Trim(s);
      if |t| >= 1 && IsDigits(t) then DigitsValue(t) else 0
    case None => 0
  }

  predicate IsOpen(p: Port) {
    p.state.Some? && p.state.value.attr_state == "open"
  }

  function SimplifyPort(p: Port): (r: SimplifiedPort)
    ensures p.attr_protocol.None? ==> r.protocol == "tcp"
    ensures p.attr_portid.None? ==> r.port == 0
    ensures p.service.None? ==> r.service.None?
    ensures p.state.None? ==> r.reason.None? && r.reason_ttl.None?
    ensures r.service == (if p.service.Some? then p.service.value.attr_name else None)
    ensures p.state.Some? ==> r.reason == p.state.value.attr_reason && r.reason_ttl == p.state.value.attr_reason_ttl
    ensures p.attr_protocol.Some? ==> r.protocol == p.attr_protocol.value
    ensures r.port == NumberOrZero(p.attr_portid)
  {
    SimplifiedPort(
      p.attr_protocol.GetOr("tcp"),
      NumberOrZero(p.attr_portid),
      if p.service.Some? then p.service.value.attr_name else None,
      if p.state.Some? then p.state.value.attr_reason else None,
      if p.state.Some? then p.state.value.attr_reason_ttl else None)
  }

  /** `portNodes.filter(open).map(simplify)`. */
  function OpenPorts(portNodes: seq<Port>): (r: seq<SimplifiedPort>)
    ensures |r| <= |portNodes|
    ensures (forall p :: p in portNodes ==> !IsOpen(p)) ==> r == []
  {
    var open := Filter(IsOpen, portNodes);
    if |open| == 0 then []
    else
      FilterMembership(IsOpen, portNodes, open[0]);
      seq(|open|, i requires 0 <= i < |open| => SimplifyPort(open[i]))
  }

  /** `h?.ports?.port || []`. */
  function PortNodes(h: Host): seq<Port> {
    if h.ports.Some? && h.ports.value.port.Some? then h.ports.value.port.value else []
  }

  // ---------------------------------------------------------------------------
  // OS matches

  /** `cpe?.['#text'] || ''` as written: a bare string has no `#text` property. */
  function CpeTextAsWritten(c: Cpe): string {
    match c
    case CpeBare(_) => ""
    case CpeNode(text) => text.GetOr("")
  }

  /** The text the lookup is meant to reach, in either decoded form. */
  function CpeText(c: Cpe): string {
    match c
    case CpeBare(value) => value
    case CpeNode(text) => text.GetOr("")
  }

  /** `filter(Boolean)` on strings: the empty string is the only falsy one. */
  function NonEmpty(): string -> bool {
    (x: string) => x != ""
  }

  /** `(c?.cpe || []).map((cpe) => cpe?.['#text'] || '').filter(Boolean)`, as written. */
  function CpeTextsAsWritten(cpes: seq<Cpe>): (r: seq<string>)
    ensures |r| <= |cpes|
    ensures forall i :: 0 <= i < |r| ==> r[i] != ""
  {
    Filter(NonEmpty(), seq(|cpes|, i requires 0 <= i < |cpes| => CpeTextAsWritten(cpes[i])))
  }

  function CpeValues(cpes: seq<Cpe>): seq<string> {
    seq(|cpes|, i requires 0 <= i < |cpes| => CpeText(cpes[i]))
  }

  /** The same pipeline reading the text of either decoded form: the CPE strings,
      in document order, with empty ones dropped. */
  function CpeTexts(cpes: seq<Cpe>): (r: seq<string>)
    ensures |r| <= |cpes|
    ensures forall i :: 0 <= i < |r| ==> r[i] != ""
  {
    Filter(NonEmpty(), CpeValues(cpes))
  }

  function SimplifyOsClass(c: OsClass): (r: SimplifiedOsClass)
    ensures |r.cpe| <= |c.cpe.GetOr([])|
    ensures forall i :: 0 <= i < |r.cpe| ==> r.cpe[i] != ""
    ensures r.vendor == c.attr_vendor && r.family == c.attr_osfamily
    ensures r.classType == c.attr_type && r.gen == c.attr_osgen
    ensures r.cpe == CpeTexts(c.cpe.GetOr([]))
  {
    SimplifiedOsClass(
      c.attr_type, c.attr_vendor, c.attr_osfamily, c.attr_osgen,
      CpeTexts(c.cpe.GetOr([])))
  }

  function SimplifyOsMatch(m: OsMatch): (r: SimplifiedOsMatch)
    ensures |r.classes| == |m.osclass.GetOr([])|
    ensures m.attr_accuracy.None? ==> r.accuracy == 0
    ensures r.accuracy == NumberOrZero(m.attr_accuracy)
    ensures r.name == m.attr_name
    ensures forall i :: 0 <= i < |r.classes| ==> r.classes[i] == SimplifyOsClass(m.osclass.GetOr([])[i])
  {
    var classes := m.osclass.GetOr([]);
    SimplifiedOsMatch(
      m.attr_name,
      NumberOrZero(m.attr_accuracy),
      seq(|classes|, i requires 0 <= i < |classes| => SimplifyOsClass(classes[i])))
  }

  /** Non-increasing accuracy. */
  predicate SortedByAccuracy(ms: seq<SimplifiedOsMatch>) {
    forall i, j :: 0 <= i < j < |ms| ==> ms[i].accuracy >= ms[j].accuracy
  }

  /** Places `m` before the first element whose accuracy is not greater than its own. */
  function InsertByAccuracy(m: SimplifiedOsMatch, ms: seq<SimplifiedOsMatch>): (r: seq<SimplifiedOsMatch>)
    ensures |r| == |ms| + 1
    ensures forall x :: x in r <==> x == m || x in ms
  {
    if |ms| == 0 then [m]
    else if ms[0].accuracy > m.accuracy then [ms[0]] + InsertByAccuracy(m, ms[1..])
    else [m] + ms
  }

  /** `sort((a, b) => b.accuracy - a.accuracy)`, a stable sort by descending accuracy. */
  function SortByAccuracy(ms: seq<SimplifiedOsMatch>): (r: seq<SimplifiedOsMatch>)
    ensures |r| == |ms|
    ensures forall x :: x in r <==> x in ms
  {
    if |ms| == 0 then [] else InsertByAccuracy(ms[0], SortByAccuracy(ms[1..]))
  }

  /** Selects the matches of accuracy `k`. */
  function HasAccuracy(k: int): SimplifiedOsMatch -> bool {
    (m: SimplifiedOsMatch) => m.accuracy == k
  }

  function OsMatchNodes(h: Host): seq<OsMatch> {
    if h.os.Some? && h.os.value.osmatch.Some? then h.os.value.osmatch.value else []
  }

  /** The `osmatch` nodes of `h`, each simplified, in source order. */
  function SimplifiedOsMatches(h: Host): seq<SimplifiedOsMatch> {
    var nodes := OsMatchNodes(h);
    seq(|nodes|, i requires 0 <= i < |nodes| => SimplifyOsMatch(nodes[i]))
  }

  function OsMatches(h: Host): seq<SimplifiedOsMatch> {
    SortByAccuracy(SimplifiedOsMatches(h))
  }

  // ---------------------------------------------------------------------------
  // The summary

  function SimplifyHost(h: Host): (r: SimplifiedHost)
    ensures |r.openPorts| <= |PortNodes(h)|
    ensures |r.osMatches| == |OsMatchNodes(h)|
    ensures r.openPorts == OpenPorts(PortNodes(h))
    ensures r.osMatches == SortByAccuracy(SimplifiedOsMatches(h))
    ensures r.status == (if h.status.Some? then h.status.value.attr_state else None)
    ensures r.ipv4.Some? ==> r.ipv4.value != "" && exists a :: a in AsList(h.address) && a.attr_addrtype == IPv4 && a.attr_addr == r.ipv4.value
  {
    var addrs := AsList(h.address);
    var ipv4 := Find(addrs, IPv4);
    var mac := Find(addrs, Mac);
    SimplifiedHost(
      if ipv4.Some? then Truthy(Some(ipv4.value.attr_addr)) else None,
      if mac.Some? then Truthy(Some(mac.value.attr_addr)) else None,
      if mac.Some? then Truthy(mac.value.attr_vendor) else None,
      if h.status.Some? then h.status.value.attr_state else None,
      OpenPorts(PortNodes(h)),
      OsMatches(h))
  }

  /** The `runstats` block: each field follows its optional chain, and is null
      wherever a link of the chain is missing. */
  function SimplifyRunStats(rs: Option<RunStats>): (r: SimplifiedRunStats)
    ensures var finished := if rs.Some? then rs.value.finished else None;
      && r.summary == (if finished.Some? then finished.value.attr_summary else None)
      && r.elapsed == (if finished.Some? then finished.value.attr_elapsed else None)
      && r.exit == (if finished.Some? then finished.value.attr_exit else None)
    ensures var hosts := if rs.Some? then rs.value.hosts else None;
      && r.up == (if hosts.Some? then hosts.value.attr_up else None)
      && r.down == (if hosts.Some? then hosts.value.attr_down else None)
      && r.total == (if hosts.Some? then hosts.value.attr_total else None)
    ensures rs.None? ==> r == SimplifiedRunStats(None, None, None, None, None, None)
  {
    var finished := if rs.Some? then rs.value.finished else None;
    var hosts := if rs.Some? then rs.value.hosts else None;
    SimplifiedRunStats(
      if finished.Some? then finished.value.attr_summary else None,
      if finished.Some? then finished.value.attr_elapsed else None,
      if finished.Some? then finished.value.attr_exit else None,
      if hosts.Some? then hosts.value.attr_up else None,
      if hosts.Some? then hosts.value.attr_down else None,
      if hosts.Some? then hosts.value.attr_total else None)
  }

  /** `buildSummary`: one summary per host, in source order; the scanner name defaults
      to "nmap"; the run-level attributes and statistics are copied, null when absent. */
  function BuildSummary(nmapRun: NmapRun): (r: SimplifiedNmapResult)
    ensures |r.hosts| == |AsList(nmapRun.host)|
    ensures forall i :: 0 <= i < |r.hosts| ==> r.hosts[i] == SimplifyHost(AsList(nmapRun.host)[i])
    ensures nmapRun.host.Absent? ==> r.hosts == []
    ensures nmapRun.host.Single? ==> r.hosts == [SimplifyHost(nmapRun.host.item)]
    ensures nmapRun.attr_scanner.None? ==> r.scanner == "nmap"
    ensures nmapRun.attr_scanner.Some? ==> r.scanner == nmapRun.attr_scanner.value
    ensures r.version == nmapRun.attr_version && r.startedAt == nmapRun.attr_startstr
    ensures r.args == nmapRun.attr_args
    ensures r.runstats == SimplifyRunStats(nmapRun.runstats)
  {
    var hostsArr := AsList(nmapRun.host);
    SimplifiedNmapResult(
      nmapRun.attr_scanner.GetOr("nmap"),
      nmapRun.attr_version,
      nmapRun.attr_startstr,
      nmapRun.attr_args,
      seq(|hostsArr|, i requires 0 <= i < |hostsArr| => SimplifyHost(hostsArr[i])),
      SimplifyRunStats(nmapRun.runstats))
  }

  // ---------------------------------------------------------------------------
  // Properties of the summary

  /** `k` is the position of the first address of type `t`. */
  predicate IsFirstOfType(addrs: seq<Address>, t: AddrType, k: int) {
    0 <= k < |addrs| && addrs[k].attr_addrtype == t
    && forall j :: 0 <= j < k ==> addrs[j].attr_addrtype != t
  }

  lemma FirstOfTypeUnique(addrs: seq<Address>, t: AddrType, k: int)
    ensures IsFirstOfType(addrs, t, k) <==> k == FirstOfType(addrs, t) < |addrs|
  {
  }

  /**
   * `ipv4` is the text of the first IPv4 address, and null when there is no IPv4
   * address or the first one's text is empty (no later address is tried).
   * `mac` and `vendor` both come from the first MAC address; with no MAC address
   * both are null.
   */
  lemma SummaryAddresses(h: Host)
    ensures var addrs := AsList(h.address); var s := SimplifyHost(h);
      && (s.ipv4.Some? <==> exists k :: IsFirstOfType(addrs, IPv4, k) && addrs[k].attr_addr != "")
      && (forall k :: IsFirstOfType(addrs, IPv4, k) && addrs[k].attr_addr != "" ==> s.ipv4 == Some(addrs[k].attr_addr))
      && (s.mac.Some? <==> exists k :: IsFirstOfType(addrs, Mac, k) && addrs[k].attr_addr != "")
      && (forall k :: IsFirstOfType(addrs, Mac, k) && addrs[k].attr_addr != "" ==> s.mac == Some(addrs[k].attr_addr))
      && (forall k :: IsFirstOfType(addrs, Mac, k) ==> s.vendor == Truthy(addrs[k].attr_vendor))
      && ((forall i :: 0 <= i < |addrs| ==> addrs[i].attr_addrtype != Mac) ==> s.mac.None? && s.vendor.None?)
  {
    var addrs := AsList(h.address);
    var k4 := FirstOfType(addrs, IPv4);
    var km := FirstOfType(addrs, Mac);
    FirstOfTypeUnique(addrs, IPv4, k4);
    FirstOfTypeUnique(addrs, Mac, km);
    forall k ensures IsFirstOfType(addrs, IPv4, k) <==> k == k4 < |addrs| {
      FirstOfTypeUnique(addrs, IPv4, k);
    }
    forall k ensures IsFirstOfType(addrs, Mac, k) <==> k == km < |addrs| {
      FirstOfTypeUnique(addrs, Mac, k);
    }
  }

  /** A port list with no open port summarises to nothing; appending a port
      appends its summary exactly when it is open. Together: exactly the open
      ports, in source order. */
  lemma {:induction false} OpenPortsSnoc(ps: seq<Port>, p: Port)
    ensures OpenPorts([]) == []
    ensures OpenPorts(ps + [p]) == if IsOpen(p) then OpenPorts(ps) + [SimplifyPort(p)] else OpenPorts(ps)
  {
    FilterSnoc(IsOpen, ps, p);
  }

  /** Every open port node is summarised. */
  lemma OpenPortIncluded(ps: seq<Port>, p: Port)
    requires IsOpen(p) && p in ps
    ensures SimplifyPort(p) in OpenPorts(ps)
  {
    var open := Filter(IsOpen, ps);
    FilterMembership(IsOpen, ps, p);
    var i :| 0 <= i < |open| && open[i] == p;
    assert OpenPorts(ps)[i] == SimplifyPort(p);
  }

  /** Every summarised port comes from an open port node. */
  lemma OpenPortOrigin(ps: seq<Port>, i: int)
    requires 0 <= i < |OpenPorts(ps)|
    ensures exists q :: q in ps && IsOpen(q) && OpenPorts(ps)[i] == SimplifyPort(q)
  {
    var open := Filter(IsOpen, ps);
    FilterMembership(IsOpen, ps, open[i]);
    assert open[i] in ps && IsOpen(open[i]);
  }

  /** Without a `ports` section the host has no open ports. */
  lemma NoPortsNoOpenPorts(h: Host)
    requires h.ports.None? || h.ports.value.port.None?
    ensures SimplifyHost(h).openPorts == []
  {
  }

  /** A missing protocol defaults to "tcp"; a port number given as a numeral reads as its value. */
  lemma SimplifyPortFields(p: Port, n: nat)
    ensures SimplifyPort(p).protocol == if p.attr_protocol.Some? then p.attr_protocol.value else "tcp"
    ensures p.attr_portid == Some(Num(n)) ==> SimplifyPort(p).port == n
    ensures p.attr_portid == Some(Text(NatToString(n))) ==> SimplifyPort(p).port == n
    ensures p.attr_portid.None? ==> SimplifyPort(p).port == 0
  {
    NumeralCoerces(n);
  }

  /** `Number(String(n)) || 0 == n`. */
  lemma NumeralCoerces(n: nat)
    ensures NumberOrZero(Some(Text(NatToString(n)))) == n
  {
    var s := NatToString(n);
    assert LeadingWhitespace(s) == 0 by {
      assert !IsWhitespace(s[0]);
    }
    assert Trim(s) == s by {
      assert !IsWhitespace(s[|s| - 1]);
      assert |Trim(s)| == |s|;
    }
    DigitsValueOfNatToString(n);
  }

  /** Text holding anything other than digits and white space coerces to 0. */
  lemma NonNumericIsZero(s: string, i: int)
    requires 0 <= i < |s| && !IsDigit(s[i]) && !IsWhitespace(s[i])
    ensures NumberOrZero(Some(Text(s))) == 0
  {
    var a := LeadingWhitespace(s);
    var t := Trim(s);
    assert a <= i < a + |t|;
    assert t[i - a] == s[i];
  }

  lemma {:induction false} InsertPermutation(m: SimplifiedOsMatch, ms: seq<SimplifiedOsMatch>)
    ensures multiset(InsertByAccuracy(m, ms)) == multiset(ms) + multiset{m}
  {
    if |ms| > 0 && ms[0].accuracy > m.accuracy {
      InsertPermutation(m, ms[1..]);
      assert ms == [ms[0]] + ms[1..];
    }
  }

  lemma {:induction false} InsertSorted(m: SimplifiedOsMatch, ms: seq<SimplifiedOsMatch>)
    requires SortedByAccuracy(ms)
    ensures SortedByAccuracy(InsertByAccuracy(m, ms))
  {
    if |ms| > 0 && ms[0].accuracy > m.accuracy {
      var rest := InsertByAccuracy(m, ms[1..]);
      InsertSorted(m, ms[1..]);
      InsertPermutation(m, ms[1..]);
      forall j | 0 <= j < |rest| ensures rest[j].accuracy <= ms[0].accuracy {
        assert rest[j] in multiset(rest);
        if rest[j] != m {
          assert rest[j] in multiset(ms[1..]);
          var i :| 0 <= i < |ms[1..]| && ms[1..][i] == rest[j];
          assert ms[i + 1] == rest[j];
        }
      }
    }
  }

  lemma {:induction false} InsertStable(m: SimplifiedOsMatch, ms: seq<SimplifiedOsMatch>, k: int)
    ensures Filter(HasAccuracy(k), InsertByAccuracy(m, ms))
         == (if m.accuracy == k then [m] else []) + Filter(HasAccuracy(k), ms)
    decreases |ms|, 1
  {
    var keep := HasAccuracy(k);
    FilterSingleton(keep, m);
    if |ms| == 0 {
      assert [m] == [m] + [];
    } else if ms[0].accuracy > m.accuracy {
      InsertStableSkip(m, ms, k);
    } else {
      FilterConcat(keep, [m], ms);
    }
  }

  lemma {:induction false} InsertStableSkip(m: SimplifiedOsMatch, ms: seq<SimplifiedOsMatch>, k: int)
    requires |ms| > 0 && ms[0].accuracy > m.accuracy
    ensures Filter(HasAccuracy(k), InsertByAccuracy(m, ms))
         == (if m.accuracy == k then [m] else []) + Filter(HasAccuracy(k), ms)
    decreases |ms|, 0
  {
    var keep := HasAccuracy(k);
    var rest := InsertByAccuracy(m, ms[1..]);
    var pre: seq<SimplifiedOsMatch> := if m.accuracy == k then [m] else [];
    var head := Filter(keep, [ms[0]]);
    InsertStable(m, ms[1..], k);
    assert Filter(keep, rest) == pre + Filter(keep, ms[1..]);
    FilterConcat(keep, [ms[0]], rest);
    FilterConcat(keep, [ms[0]], ms[1..]);
    FilterSingleton(keep, ms[0]);
    assert head == [] || pre == [];
    assert ms == [ms[0]] + ms[1..];
    assert InsertByAccuracy(m, ms) == [ms[0]] + rest;
    assert head + (pre + Filter(keep, ms[1..])) == pre + (head + Filter(keep, ms[1..]));
  }

  /**
   * The OS-match ordering is a stable sort by descending accuracy: the result is
   * a permutation of the input, accuracies never increase along it, and the
   * matches of any one accuracy keep their source order.
   */
  lemma {:induction false} SortByAccuracyCorrect(ms: seq<SimplifiedOsMatch>)
    ensures multiset(SortByAccuracy(ms)) == multiset(ms)
    ensures SortedByAccuracy(SortByAccuracy(ms))
    ensures forall k :: Filter(HasAccuracy(k), SortByAccuracy(ms)) == Filter(HasAccuracy(k), ms)
  {
    if |ms| > 0 {
      var tail := SortByAccuracy(ms[1..]);
      SortByAccuracyCorrect(ms[1..]);
      InsertPermutation(ms[0], tail);
      InsertSorted(ms[0], tail);
      assert ms == [ms[0]] + ms[1..];
      forall k ensures Filter(HasAccuracy(k), SortByAccuracy(ms)) == Filter(HasAccuracy(k), ms) {
        InsertStable(ms[0], tail, k);
        FilterConcat(HasAccuracy(k), [ms[0]], ms[1..]);
      }
    }
  }

  /** The host's `osMatches` are its simplified OS matches, stably sorted by descending accuracy. */
  lemma SummaryOsMatches(h: Host)
    ensures multiset(SimplifyHost(h).osMatches) == multiset(SimplifiedOsMatches(h))
    ensures SortedByAccuracy(SimplifyHost(h).osMatches)
    ensures forall k :: Filter(HasAccuracy(k), SimplifyHost(h).osMatches) == Filter(HasAccuracy(k), SimplifiedOsMatches(h))
  {
    SortByAccuracyCorrect(SimplifiedOsMatches(h));
  }

  /** Of two OS matches, the more accurate one is listed first, whatever their order in the file. */
  lemma MoreAccurateFirst(h: Host, a: OsMatch, b: OsMatch)
    requires OsMatchNodes(h) == [a, b] || OsMatchNodes(h) == [b, a]
    requires NumberOrZero(a.attr_accuracy) < NumberOrZero(b.attr_accuracy)
    ensures SimplifyHost(h).osMatches == [SimplifyOsMatch(b), SimplifyOsMatch(a)]
  {
    var sa, sb := SimplifyOsMatch(a), SimplifyOsMatch(b);
    if OsMatchNodes(h) == [a, b] {
      assert SimplifiedOsMatches(h) == [sa, sb];
      assert [sa, sb][1..] == [sb] && [sb][1..] == [];
      assert SortByAccuracy([sb]) == InsertByAccuracy(sb, []) == [sb];
      assert SortByAccuracy([sa, sb]) == InsertByAccuracy(sa, [sb]) == [sb] + InsertByAccuracy(sa, []);
    } else {
      assert SimplifiedOsMatches(h) == [sb, sa];
      assert [sb, sa][1..] == [sa] && [sa][1..] == [];
      assert SortByAccuracy([sa]) == InsertByAccuracy(sa, []) == [sa];
      assert SortByAccuracy([sb, sa]) == InsertByAccuracy(sb, [sa]) == [sb] + [sa];
    }
  }

  /** The CPE list holds exactly the non-empty texts of the entries, in either form. */
  lemma CpeTextsMembership(cpes: seq<Cpe>, x: string)
    ensures x in CpeTexts(cpes) <==> x != "" && (CpeBare(x) in cpes || CpeNode(Some(x)) in cpes)
  {
    var vs := CpeValues(cpes);
    FilterMembership(NonEmpty(), vs, x);
    if x != "" && CpeBare(x) in cpes {
      var i :| 0 <= i < |cpes| && cpes[i] == CpeBare(x);
      assert vs[i] == x;
    }
    if x != "" && CpeNode(Some(x)) in cpes {
      var i :| 0 <= i < |cpes| && cpes[i] == CpeNode(Some(x));
      assert vs[i] == x;
    }
    if x in vs && x != "" {
      var i :| 0 <= i < |vs| && vs[i] == x;
      assert cpes[i] in cpes;
    }
  }

  /** Appending an entry appends its text exactly when that text is non-empty;
      with `CpeTexts([]) == []` this keeps document order and duplicates. */
  lemma CpeTextsSnoc(cpes: seq<Cpe>, c: Cpe)
    ensures CpeTexts([]) == []
    ensures CpeTexts(cpes + [c]) == if CpeText(c) != "" then CpeTexts(cpes) + [CpeText(c)] else CpeTexts(cpes)
  {
    assert CpeValues(cpes + [c]) == CpeValues(cpes) + [CpeText(c)];
    FilterSnoc(NonEmpty(), CpeValues(cpes), CpeText(c));
  }

  /** As written, a list of text-only `<cpe>` elements always yields no CPE at all. */
  lemma {:induction false} BareCpesDropped(cpes: seq<Cpe>)
    requires forall i :: 0 <= i < |cpes| ==> cpes[i].CpeBare?
    ensures CpeTextsAsWritten(cpes) == []
  {
    var vs := seq(|cpes|, i requires 0 <= i < |cpes| => CpeTextAsWritten(cpes[i]));
    var r := Filter(NonEmpty(), vs);
    if |r| > 0 {
      FilterMembership(NonEmpty(), vs, r[0]);
    }
  }

  /** The usual nmap output `<cpe>cpe:/o:linux:linux_kernel</cpe>` is lost as
      written and kept by the corrected reading. */
  lemma LinuxKernelCpe()
    ensures CpeTextsAsWritten([CpeBare("cpe:/o:linux:linux_kernel")]) == []
    ensures CpeTexts([CpeBare("cpe:/o:linux:linux_kernel")]) == ["cpe:/o:linux:linux_kernel"]
  {
    BareCpesDropped([CpeBare("cpe:/o:linux:linux_kernel")]);
    CpeTextsSnoc([], CpeBare("cpe:/o:linux:linux_kernel"));
    assert [] + [CpeBare("cpe:/o:linux:linux_kernel")] == [CpeBare("cpe:/o:linux:linux_kernel")];
  }

  /** On entries decoded as objects, the corrected reading agrees with the code. */
  lemma {:induction false} CpeTextsAgreeOnNodes(cpes: seq<Cpe>)
    requires forall i :: 0 <= i < |cpes| ==> cpes[i].CpeNode?
    ensures CpeTextsAsWritten(cpes) == CpeTexts(cpes)
  {
    var ws := seq(|cpes|, i requires 0 <= i < |cpes| => CpeTextAsWritten(cpes[i]));
    assert ws == CpeValues(cpes);
  }
}
