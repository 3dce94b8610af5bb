/** The events fscan writes to its JSON log: a union discriminated by `type`. */
module FscanTypes {
  import opened Wrappers

  datatype EntryType = HOST | PORT | SERVICE

  /** Details of a HOST event. */
  datatype HostDetails = HostDetails(protocol: string)

  /** Details of a PORT event. */
  datatype PortDetails = PortDetails(port: int)

  /** A SERVICE event's port, which fscan writes either as a number or as a string. */
  datatype PortValue = PortNumber(n: int) | PortText(s: string)

  /**
   * Details of a SERVICE event. Every field is optional: an absent field means
   * "unknown", never a malformed event. `fingerprints` is either absent or
   * null; `server_info` keeps each value as its JSON text.
   */
  datatype FscanServiceDetails = FscanServiceDetails(
    Url: Option<string>,
    fingerprints: Option<()>,
    length: Option<string>,
    port: Option<PortValue>,
    server_info: Option<map<string, string>>,
    service: Option<string>,
    status_code: Option<int>,
    title: Option<string>,
    banner: Option<string>,
    info: Option<string>,
    os: Option<string>,
    product: Option<string>,
    version: Option<string>,
    domain_name: Option<string>,
    server_service: Option<string>,
    workstation_service: Option<string>,
    hostname: Option<string>,
    ipv4: Option<seq<string>>,
    ipv6: Option<seq<string>>)

  /** One log entry; every variant carries `time`, `target` and `status`. */
  datatype FscanLogEntry =
    | HostEvent(time: string, target: string, status: string, hostDetails: HostDetails)
    | PortEvent(time: string, target: string, status: string, portDetails: PortDetails)
    | ServiceEvent(time: string, target: string, status: string, serviceDetails: FscanServiceDetails)
  {
    /** The discriminator. */
    function Type(): (t: EntryType)
      ensures t == HOST <==> HostEvent?
      ensures t == PORT <==> PortEvent?
      ensures t == SERVICE <==> ServiceEvent?
    {
      match this
      case HostEvent(_, _, _, _) => HOST
      case PortEvent(_, _, _, _) => PORT
      case ServiceEvent(_, _, _, _) => SERVICE
    }
  }

  /** The discriminator's spelling in the JSON text. */
  function TypeName(t: EntryType): string {
    match t
    case HOST => "HOST"
    case PORT => "PORT"
    case SERVICE => "SERVICE"
  }

  /** The variant a JSON `type` string selects, if any. */
  function TypeOfName(name: string): (r: Option<EntryType>)
    ensures r.Some? <==> name in {"HOST", "PORT", "SERVICE"}
    ensures r.Some? ==> TypeName(r.value) == name
  {
    if name == "HOST" then Some(HOST)
    else if name == "PORT" then Some(PORT)
    else if name == "SERVICE" then Some(SERVICE)
    else None
  }
}
