/**
 * The agent data types shared by the monitor plugin and its callers
 * (monitor_api/src/lib.rs): identifiers, the agent status enumeration,
 * the in-memory agent record, pending command and file results, the
 * database row an agent record is built from, and which fields the JSON
 * form of an agent carries.
 */
module Types {
  import opened Wrappers

  type Byte = x: int | 0 <= x < 256
  type Bytes = seq<Byte>

  const U32_LIMIT: int := 0x1_0000_0000
  const U64_LIMIT: int := 0x1_0000_0000_0000_0000

  type U32 = x: int | 0 <= x < U32_LIMIT
  type U64 = x: int | 0 <= x < U64_LIMIT

  // ---------------------------------------------------------------------
  // Identifiers
  // ---------------------------------------------------------------------

  predicate IsHyphenPosition(i: int) {
    i == 8 || i == 13 || i == 18 || i == 23
  }

  predicate IsLowerHex(c: char) {
    ('0' <= c <= '9') || ('a' <= c <= 'f')
  }

  predicate IsHex(c: char) {
    IsLowerHex(c) || ('A' <= c <= 'F')
  }

  /** The text form `to_string` gives an identifier: 36 characters, lower-case hex in 8-4-4-4-12 groups. */
  predicate IsCanonicalUuid(s: string) {
    |s| == 36 &&
    forall i :: 0 <= i < 36 ==> if IsHyphenPosition(i) then s[i] == '-' else IsLowerHex(s[i])
  }

  /** The shape `HyUuid::parse` accepts in this model: the hyphenated form, hex digits of either case. */
  predicate IsUuidText(s: string) {
    |s| == 36 &&
    forall i :: 0 <= i < 36 ==> if IsHyphenPosition(i) then s[i] == '-' else IsHex(s[i])
  }

  const NIL_TEXT: string := "00000000-0000-0000-0000-000000000000"

  /** An identifier, represented by its canonical text. */
  type Uuid = s: string | IsCanonicalUuid(s) witness NIL_TEXT

  /** `HyUuid::nil()`. */
  const NIL: Uuid := NIL_TEXT

  function LowerChar(c: char): char {
    if 'A' <= c <= 'F' then (c as int - 'A' as int + 'a' as int) as char else c
  }

  function Lower(s: string): (r: string)
    ensures |r| == |s|
    ensures forall i :: 0 <= i < |s| ==> r[i] == LowerChar(s[i])
  {
    if s == [] then [] else [LowerChar(s[0])] + Lower(s[1..])
  }

  /** `HyUuid::parse`: accepts hyphenated hex of either case and yields the identifier. */
  function ParseUuid(s: string): (r: Option<Uuid>)
    ensures r.Some? <==> IsUuidText(s)
    ensures r.Some? ==> r.value == Lower(s)
  {
    if IsUuidText(s) then
      var t := Lower(s);
      assert IsCanonicalUuid(t) by {
        forall i | 0 <= i < 36
          ensures if IsHyphenPosition(i) then t[i] == '-' else IsLowerHex(t[i])
        {
        }
      }
      Some(t)
    else None
  }

  /** Parsing the text an identifier prints as gives back that identifier. */
  lemma ParsePrinted(u: Uuid)
    ensures ParseUuid(u) == Some(u)
  {
    var t := Lower(u);
    assert IsUuidText(u);
    assert t == u by {
      forall i | 0 <= i < |u| ensures t[i] == u[i] {
        assert !('A' <= u[i] <= 'F');
      }
    }
  }

  // ---------------------------------------------------------------------
  // Agent status
  // ---------------------------------------------------------------------

  /** `AgentStatus`, serialized as its `repr(u8)` code; the default is Offline. */
  datatype AgentStatus = Offline | Online | Updating {
    function Code(): (c: nat)
      ensures c < 3
      ensures c == 0 <==> this == Offline
    {
      match this
      case Offline => 0
      case Online => 1
      case Updating => 2
    }
  }

  const DEFAULT_STATUS: AgentStatus := Offline

  /** Deserialization of the status code. */
  function StatusFromCode(c: int): (r: Option<AgentStatus>)
    ensures r.Some? <==> 0 <= c < 3
    ensures r.Some? ==> r.value.Code() == c
  {
    if c == 0 then Some(Offline)
    else if c == 1 then Some(Online)
    else if c == 2 then Some(Updating)
    else None
  }

  /** Every status code decodes back to the status. */
  lemma StatusCodeRoundTrip(s: AgentStatus)
    ensures StatusFromCode(s.Code()) == Some(s)
  {
  }

  // ---------------------------------------------------------------------
  // Pending command and file results
  // ---------------------------------------------------------------------

  /** Output of an asynchronous command; `code` stays None while it runs. */
  datatype AgentCommand = AgentCommand(code: Option<int>, output: Bytes)

  /** Result of a file transfer. */
  datatype AgentFile = AgentFile(code: U32, message: string)

  /** `AgentCommand::new()`. */
  function NewCommand(): (c: AgentCommand)
    ensures c.code.None? && c.output == []
  {
    AgentCommand(None, [])
  }

  /** `AgentFile::new()`. */
  function NewFile(): (f: AgentFile)
    ensures f.code == 0 && f.message == ""
  {
    AgentFile(0, "")
  }

  // ---------------------------------------------------------------------
  // The agent record
  // ---------------------------------------------------------------------

  datatype SocketAddr = SocketAddr(ip: string, port: nat)

  /**
   * `Agent`. `channel` stands for the `message` sender: true when the agent has
   * a live message channel (`Some`). The `f32` cpu reading is not modelled.
   */
  datatype Agent = Agent(
    id: Uuid,
    uid: string,
    name: string,
    os: Option<string>,
    hostname: Option<string>,
    ip: string,
    system: Option<string>,
    arch: Option<string>,
    lastLogin: int,
    status: AgentStatus,
    channel: bool,
    command: map<Uuid, Option<AgentCommand>>,
    file: map<Uuid, Option<AgentFile>>,
    reportRate: U32,
    disableShell: bool,
    address: Option<SocketAddr>,
    endpoint: string,
    lastRsp: Option<int>,
    memory: Option<U64>,
    totalMemory: Option<U64>,
    disk: Option<U64>,
    totalDisk: Option<U64>,
    latency: Option<int>,
    netUp: Option<U64>,
    netDown: Option<U64>,
    bandUp: Option<U64>,
    bandDown: Option<U64>)

  /** `agents::Model`, a row of the agents table. */
  datatype AgentRow = AgentRow(
    id: Uuid,
    uid: string,
    name: string,
    os: Option<string>,
    hostname: Option<string>,
    ip: string,
    system: Option<string>,
    arch: Option<string>,
    lastLogin: int)

  /** True when every telemetry reading of `a` is absent. */
  predicate NoTelemetry(a: Agent) {
    a.lastRsp.None? && a.memory.None? && a.totalMemory.None? && a.disk.None? &&
    a.totalDisk.None? && a.latency.None? && a.netUp.None? && a.netDown.None? &&
    a.bandUp.None? && a.bandDown.None?
  }

  /** `From<agents::Model> for Agent`: copies the row and defaults every live field. */
  function FromRow(v: AgentRow): (a: Agent)
    ensures a.id == v.id && a.uid == v.uid && a.name == v.name && a.os == v.os
    ensures a.hostname == v.hostname && a.ip == v.ip && a.system == v.system
    ensures a.arch == v.arch && a.lastLogin == v.lastLogin
    ensures a.status == Offline && !a.channel && a.command == map[] && a.file == map[]
    ensures a.endpoint == "" && a.address.None? && a.reportRate == 0 && !a.disableShell
    ensures NoTelemetry(a)
  {
    Agent(v.id, v.uid, v.name, v.os, v.hostname, v.ip, v.system, v.arch, v.lastLogin,
          DEFAULT_STATUS, false, map[], map[], 0, false, None, "",
          None, None, None, None, None, None, None, None, None, None)
  }

  // ---------------------------------------------------------------------
  // JSON form of an agent
  // ---------------------------------------------------------------------

  /** The fields of `Agent`, named by their JSON keys in `Key`. */
  datatype Field =
    | IdField | UidField | NameField | OsField | HostnameField | IpField | SystemField
    | ArchField | LastLoginField | StatusField | MessageField | CommandField | FileField
    | ReportRateField | DisableShellField | AddressField | EndpointField | LastRspField
    | MemoryField | TotalMemoryField | DiskField | TotalDiskField | LatencyField
    | NetUpField | NetDownField | BandUpField | BandDownField

  function Key(f: Field): string {
    match f
    case IdField => "id"
    case UidField => "uid"
    case NameField => "name"
    case OsField => "os"
    case HostnameField => "hostname"
    case IpField => "ip"
    case SystemField => "system"
    case ArchField => "arch"
    case LastLoginField => "last_login"
    case StatusField => "status"
    case MessageField => "message"
    case CommandField => "command"
    case FileField => "file"
    case ReportRateField => "report_rate"
    case DisableShellField => "disable_shell"
    case AddressField => "address"
    case EndpointField => "endpoint"
    case LastRspField => "last_rsp"
    case MemoryField => "memory"
    case TotalMemoryField => "total_memory"
    case DiskField => "disk"
    case TotalDiskField => "total_disk"
    case LatencyField => "latency"
    case NetUpField => "net_up"
    case NetDownField => "net_down"
    case BandUpField => "band_up"
    case BandDownField => "band_down"
  }

  /** The six fields that are always written. */
  predicate AlwaysSerialized(f: Field) {
    f == IdField || f == UidField || f == NameField || f == IpField || f == LastLoginField || f == StatusField
  }

  /** Whether the serialized agent carries field `f` (the serde attributes on `Agent`). */
  predicate Serialized(a: Agent, f: Field) {
    match f
    case IdField | UidField | NameField | IpField | LastLoginField | StatusField => true
    case MessageField | CommandField | FileField => false
    case OsField => a.os.Some?
    case HostnameField => a.hostname.Some?
    case SystemField => a.system.Some?
    case ArchField => a.arch.Some?
    case ReportRateField => a.reportRate != 0
    case DisableShellField => a.disableShell
    case AddressField => a.address.Some?
    case EndpointField => a.endpoint != ""
    case LastRspField => a.lastRsp.Some?
    case MemoryField => a.memory.Some?
    case TotalMemoryField => a.totalMemory.Some?
    case DiskField => a.disk.Some?
    case TotalDiskField => a.totalDisk.Some?
    case LatencyField => a.latency.Some?
    case NetUpField => a.netUp.Some?
    case NetDownField => a.netDown.Some?
    case BandUpField => a.bandUp.Some?
    case BandDownField => a.bandDown.Some?
  }

  /** The message channel and the command and file maps never reach the JSON form. */
  lemma InternalFieldsNeverSerialized(a: Agent)
    ensures !Serialized(a, MessageField) && !Serialized(a, CommandField) && !Serialized(a, FileField)
  {
  }

  /**
   * A record freshly built from a row serializes to the six fixed fields plus
   * whichever of os, hostname, system and arch the row has.
   */
  lemma FromRowSerialized(v: AgentRow, f: Field)
    ensures Serialized(FromRow(v), f) <==>
      AlwaysSerialized(f) || (f == OsField && v.os.Some?) || (f == HostnameField && v.hostname.Some?) ||
      (f == SystemField && v.system.Some?) || (f == ArchField && v.arch.Some?)
  {
  }
}
