/**
 * The agent registry of the monitor plugin (monitor/src/service.rs): the
 * in-memory map from agent id to `Agent`, the agents table it mirrors, and
 * the per-agent message channels, which are modelled as one outbox recording
 * every message pushed into a channel in order.
 *
 * The database is a map from id to row; its errors are not modelled. Fresh
 * ids (`HyUuid::new()` and the ids the table assigns) and the clock are
 * parameters.
 */
module Service {
  import opened Wrappers
  import opened Types
  import opened Messages

  /** A message pushed into the channel of agent `agent`. */
  datatype Outgoing = Outgoing(agent: Uuid, data: Data)

  /** A row of the passive_agents table: agents the server dials itself. */
  datatype PassiveRow = PassiveRow(id: Uuid, name: string, address: string, retryTime: int, createdAt: int)

  /** A stored JSON setting: text serde_json refuses, or the value it parsed. */
  datatype Json = JString(str: string) | JArray(items: seq<Json>) | JOther
  datatype SettingText = Unparsable | Parsed(json: Json)

  /** The plugin's rows of the settings table. */
  datatype Settings = Settings(
    shell: Option<SettingText>,
    address: Option<string>,
    msgTimeout: Option<U32>,
    alertTimeout: Option<U32>)

  const NOT_EXIST_OR_OFFLINE: string := "Agent not exist or offline"

  // ---------------------------------------------------------------------
  // Table lookups
  // ---------------------------------------------------------------------

  /** No two rows share a uid: `login` only inserts a row after finding none. */
  ghost predicate UidsUnique(db: map<Uuid, AgentRow>) {
    forall a, b | a in db && b in db && db[a].uid == db[b].uid :: a == b
  }

  /** A row whose uid no row has keeps the uids unique. */
  lemma UidsUniqueInsert(db: map<Uuid, AgentRow>, id: Uuid, row: AgentRow)
    requires UidsUnique(db) && id !in db && forall k | k in db :: db[k].uid != row.uid
    ensures UidsUnique(db[id := row])
  {
  }

  /** Rewriting a row without changing its uid keeps the uids unique. */
  lemma UidsUniqueKeep(db: map<Uuid, AgentRow>, id: Uuid, row: AgentRow)
    requires UidsUnique(db) && id in db && row.uid == db[id].uid
    ensures UidsUnique(db[id := row])
  {
  }

  /** `AgentViewer::find_by_uid`. */
  function FindByUid(db: map<Uuid, AgentRow>, uid: string): (r: Option<Uuid>)
    requires UidsUnique(db)
    ensures r.Some? ==> r.value in db && db[r.value].uid == uid
    ensures r.None? ==> forall id | id in db :: db[id].uid != uid
  {
    if exists id | id in db :: db[id].uid == uid then
      var id :| id in db && db[id].uid == uid;
      Some(id)
    else
      None
  }

  /** `AgentViewer::find_by_name(..).is_some()`. */
  predicate NameTaken(db: map<Uuid, AgentRow>, name: string) {
    exists id | id in db :: db[id].name == name
  }

  /** `uid.chars().take(8)`. */
  function NamePrefix(uid: string): (name: string)
    ensures |name| == if |uid| < 8 then |uid| else 8
    ensures name <= uid
  {
    if |uid| < 8 then uid else uid[..8]
  }

  /** The row `login` inserts for an unknown uid. */
  function NewRow(id: Uuid, uid: string, ip: string, now: int): (row: AgentRow)
    ensures row.id == id && row.uid == uid && row.name == NamePrefix(uid) && row.ip == ip && row.lastLogin == now
    ensures row.os.None? && row.hostname.None? && row.system.None? && row.arch.None?
  {
    AgentRow(id, uid, NamePrefix(uid), None, None, ip, None, None, now)
  }

  /** What `login` answers, with the table and the records it leaves behind. */
  datatype LoginResult = LoginResult(id: Option<Uuid>, rows: map<Uuid, AgentRow>, records: map<Uuid, Agent>)

  /**
   * `login` on a table and its records: an unknown uid gets `freshId` and a
   * new row, an Offline agent comes Online with the new address, ip and
   * time, and an agent that is Online or Updating is refused.
   */
  function LoginAfter(db: map<Uuid, AgentRow>, agents: map<Uuid, Agent>, uid: string, addr: SocketAddr,
                      now: int, freshId: Uuid): (r: LoginResult)
    requires UidsUnique(db) && agents.Keys == db.Keys && freshId !in db
    ensures r.id.None? <==> (var found := FindByUid(db, uid); found.Some? && agents[found.value].status != Offline)
    ensures r.id.None? ==> r.rows == db && r.records == agents
    ensures r.id.Some? ==> (r.id.value in r.rows && r.id.value in r.records &&
      r.rows[r.id.value].uid == uid && r.rows[r.id.value].ip == addr.ip && r.rows[r.id.value].lastLogin == now &&
      r.records[r.id.value].status == Online &&
      r.records[r.id.value].address == Some(addr))
    ensures r.id.Some? && r.id.value !in db ==> r.id.value == freshId && r.rows[freshId] == NewRow(freshId, uid, addr.ip, now)
    ensures r.rows.Keys == r.records.Keys
    ensures forall k | k in db && r.id != Some(k) :: k in r.rows && r.rows[k] == db[k] && r.records[k] == agents[k]
  {
    var found := FindByUid(db, uid);
    if found.None? then
      var row := NewRow(freshId, uid, addr.ip, now);
      LoginResult(Some(freshId), db[freshId := row], agents[freshId := FromRow(row).(status := Online, address := Some(addr))])
    else if agents[found.value].status == Offline then
      var id := found.value;
      LoginResult(found, db[id := db[id].(ip := addr.ip, lastLogin := now)],
                  agents[id := agents[id].(ip := addr.ip, lastLogin := now, status := Online, address := Some(addr))])
    else
      LoginResult(None, db, agents)
  }

  // ---------------------------------------------------------------------
  // Record transitions
  // ---------------------------------------------------------------------

  /** The record `logout` leaves: offline, no connection state and no telemetry. */
  function LoggedOut(a: Agent): (b: Agent)
    ensures b.status == Offline && b.endpoint == "" && b.address.None? && !b.channel
    ensures !b.disableShell && b.reportRate == 0 && NoTelemetry(b)
    ensures b.id == a.id && b.uid == a.uid && b.name == a.name && b.ip == a.ip && b.lastLogin == a.lastLogin
    ensures b.os == a.os && b.hostname == a.hostname && b.system == a.system && b.arch == a.arch
    ensures b.command == a.command && b.file == a.file
  {
    a.(status := Offline, endpoint := "", address := None, disableShell := false, reportRate := 0,
       lastRsp := None, memory := None, totalMemory := None, disk := None, totalDisk := None,
       latency := None, netUp := None, netDown := None, bandUp := None, bandDown := None,
       channel := false)
  }

  /** The row an in-memory record mirrors. */
  function RowOf(a: Agent): AgentRow {
    AgentRow(a.id, a.uid, a.name, a.os, a.hostname, a.ip, a.system, a.arch, a.lastLogin)
  }

  /** Logging out is idempotent. */
  lemma LogoutIdempotent(a: Agent)
    ensures LoggedOut(LoggedOut(a)) == LoggedOut(a)
  {
  }

  /**
   * A logged-out record serializes to exactly the fields of a record freshly
   * loaded from its row: `logout` forgets everything the connection added.
   */
  lemma LoggedOutLikeLoaded(a: Agent, f: Field)
    ensures Serialized(LoggedOut(a), f) <==> Serialized(FromRow(RowOf(a)), f)
  {
  }

  /** A u64 counter difference, wrapping as release-mode `u64` subtraction and multiplication do. */
  function Rate(cur: U64, prev: U64, elapsed: int): (r: U64)
    ensures cur == prev ==> r == 0
    ensures r <= ((cur - prev) % U64_LIMIT * 1000) % U64_LIMIT
  {
    var delta := (cur - prev) % U64_LIMIT;
    var scaled := (delta * 1000) % U64_LIMIT;
    var ms := if elapsed < 1 then 1 else elapsed;
    DivAtMost(scaled, ms);
    scaled / ms
  }

  /** Dividing by a positive number never makes a natural number larger. */
  lemma DivAtMost(x: nat, d: int)
    requires d >= 1
    ensures 0 <= x / d <= x
  {
    assert x / d * d <= x;
  }

  /** Without wrap-around the rate is bytes per second over at least one millisecond. */
  lemma RateExact(cur: U64, prev: U64, elapsed: int)
    requires prev <= cur && (cur - prev) * 1000 < U64_LIMIT
    ensures Rate(cur, prev, elapsed) == (cur - prev) * 1000 / (if elapsed < 1 then 1 else elapsed)
  {
    var delta := cur - prev;
    SmallMod(delta, U64_LIMIT);
    SmallMod(delta * 1000, U64_LIMIT);
  }

  /** Reducing a number already below the modulus leaves it unchanged. */
  lemma SmallMod(x: int, m: int)
    requires 0 <= x < m
    ensures x % m == x
  {
  }

  /** A counter that went backwards wraps to a rate computed from 2^64 plus the difference. */
  lemma RateWraps(cur: U64, prev: U64)
    requires cur < prev
    ensures Rate(cur, prev, 1) == ((U64_LIMIT + cur - prev) * 1000) % U64_LIMIT
  {
  }

  /** `i64` division, which truncates toward zero. */
  function TruncDiv(a: int, b: int): (q: int)
    requires b > 0
    ensures a >= 0 ==> q == a / b
    ensures a < 0 ==> q == -((-a) / b)
    ensures q * b <= a < q * b + b || q * b - b < a <= q * b
  {
    if a >= 0 then a / b else -((-a) / b)
  }

  /** The record after a status report received at `now`. */
  function WithStatus(a: Agent, data: StatusRsp, now: int): (b: Agent)
    ensures b.lastRsp == Some(now) && b.latency == Some(TruncDiv(now - data.time, 2))
    ensures b.memory == Some(data.memory) && b.totalMemory == Some(data.totalMemory)
    ensures b.disk == Some(data.disk) && b.totalDisk == Some(data.totalDisk)
    ensures b.bandUp == Some(data.bandUp) && b.bandDown == Some(data.bandDown)
    ensures b.netUp == if a.lastRsp.Some? && a.bandUp.Some? then Some(Rate(data.bandUp, a.bandUp.value, now - a.lastRsp.value)) else a.netUp
    ensures b.netDown == if a.lastRsp.Some? && a.bandDown.Some? then Some(Rate(data.bandDown, a.bandDown.value, now - a.lastRsp.value)) else a.netDown
    ensures b == a.(lastRsp := b.lastRsp, latency := b.latency, memory := b.memory, totalMemory := b.totalMemory,
                    disk := b.disk, totalDisk := b.totalDisk, bandUp := b.bandUp, bandDown := b.bandDown,
                    netUp := b.netUp, netDown := b.netDown)
  {
    var netUp := if a.lastRsp.Some? && a.bandUp.Some? then Some(Rate(data.bandUp, a.bandUp.value, now - a.lastRsp.value)) else a.netUp;
    var netDown := if a.lastRsp.Some? && a.bandDown.Some? then Some(Rate(data.bandDown, a.bandDown.value, now - a.lastRsp.value)) else a.netDown;
    a.(netUp := netUp, netDown := netDown, lastRsp := Some(now), memory := Some(data.memory),
       totalMemory := Some(data.totalMemory), disk := Some(data.disk), totalDisk := Some(data.totalDisk),
       latency := Some(TruncDiv(now - data.time, 2)), bandUp := Some(data.bandUp), bandDown := Some(data.bandDown))
  }

  /** The first report after a login only primes the counters: no rate is computed from it. */
  lemma FirstReportHasNoRate(a: Agent, data: StatusRsp, now: int)
    requires NoTelemetry(a)
    ensures WithStatus(a, data, now).netUp.None? && WithStatus(a, data, now).netDown.None?
  {
  }

  /** The record after an info message. */
  function WithInfo(a: Agent, info: Info): (b: Agent)
    ensures b.os == info.os && b.system == info.system && b.arch == info.arch && b.hostname == info.hostname
    ensures b.ip == if info.ip.Some? then info.ip.value else a.ip
    ensures b.endpoint == info.endpoint && b.disableShell == info.disableShell && b.reportRate == info.reportRate
    ensures b == a.(os := b.os, system := b.system, arch := b.arch, hostname := b.hostname, ip := b.ip,
                    endpoint := b.endpoint, disableShell := b.disableShell, reportRate := b.reportRate)
  {
    a.(os := info.os, system := info.system, arch := info.arch, hostname := info.hostname,
       ip := if info.ip.Some? then info.ip.value else a.ip,
       endpoint := info.endpoint, disableShell := info.disableShell, reportRate := info.reportRate)
  }

  /** A command entry after a response: the code is overwritten and the output appended. */
  function Appended(entry: Option<AgentCommand>, code: Option<int>, output: Bytes): (c: AgentCommand)
    ensures c.code == code
    ensures c.output == (if entry.Some? then entry.value.output else []) + output
  {
    var base := if entry.Some? then entry.value else NewCommand();
    AgentCommand(code, base.output + output)
  }

  /** Output delivered in two responses accumulates as if delivered in one. */
  lemma AppendedAccumulates(entry: Option<AgentCommand>, c1: Option<int>, o1: Bytes, c2: Option<int>, o2: Bytes)
    ensures Appended(Some(Appended(entry, c1, o1)), c2, o2) == Appended(entry, c2, o1 + o2)
  {
    var prior := if entry.Some? then entry.value.output else [];
    assert prior + o1 + o2 == prior + (o1 + o2);
  }

  // ---------------------------------------------------------------------
  // The shell program setting
  // ---------------------------------------------------------------------

  /** `Value::as_str().unwrap_or("")`. */
  function AsStr(j: Json): (s: string)
    ensures j.JString? ==> s == j.str
    ensures !j.JString? ==> s == ""
  {
    if j.JString? then j.str else ""
  }

  predicate Distinct(xs: seq<string>) {
    forall i, j | 0 <= i < j < |xs| :: xs[i] != xs[j]
  }

  /** `Itertools::unique`: the first occurrence of every value, in order. */
  function Unique(xs: seq<string>): (r: seq<string>)
    ensures Distinct(r)
    ensures forall s :: s in r <==> s in xs
    ensures |r| <= |xs|
  {
    if xs == [] then []
    else
      var r := Unique(xs[..|xs| - 1]);
      var last := xs[|xs| - 1];
      assert forall s :: s in xs <==> s in xs[..|xs| - 1] || s == last;
      if last in r then r else r + [last]
  }

  /** The position of the first occurrence of `s` in `xs`. */
  function FirstIndex<T(==)>(xs: seq<T>, s: T): (i: nat)
    requires s in xs
    ensures i < |xs| && xs[i] == s
    ensures forall k | 0 <= k < i :: xs[k] != s
  {
    if xs[0] == s then 0 else 1 + FirstIndex(xs[1..], s)
  }

  lemma FirstIndexOfPrefix(xs: seq<string>, n: nat, s: string)
    requires n <= |xs| && s in xs[..n]
    ensures FirstIndex(xs, s) == FirstIndex(xs[..n], s)
  {
    var i := FirstIndex(xs[..n], s);
    var j := FirstIndex(xs, s);
    assert xs[i] == s;
    assert xs[..n][j] == s;
  }

  /** `Unique` keeps values in the order of their first occurrences. */
  lemma {:induction false} UniqueOrder(xs: seq<string>)
    ensures forall i, j | 0 <= i < j < |Unique(xs)| :: FirstIndex(xs, Unique(xs)[i]) < FirstIndex(xs, Unique(xs)[j])
  {
    if xs != [] {
      var pre := xs[..|xs| - 1];
      var last := xs[|xs| - 1];
      UniqueOrder(pre);
      var r := Unique(pre);
      assert xs == pre + [last];
      assert forall k | 0 <= k < |r| :: r[k] in pre && r[k] in xs;
      forall k | 0 <= k < |r|
        ensures FirstIndex(xs, r[k]) == FirstIndex(pre, r[k])
      {
        assert r[k] in pre;
        FirstIndexOfPrefix(xs, |xs| - 1, r[k]);
        assert xs[..|xs| - 1] == pre;
      }
      if last !in r {
        assert last !in pre;
        assert FirstIndex(xs, last) == |xs| - 1;
      }
    }
  }

  /** A list without repeats is its own `Unique`. */
  lemma {:induction false} UniqueOfDistinct(xs: seq<string>)
    requires Distinct(xs)
    ensures Unique(xs) == xs
  {
    if xs != [] {
      var pre := xs[..|xs| - 1];
      assert Distinct(pre);
      UniqueOfDistinct(pre);
      assert xs[|xs| - 1] !in pre;
      assert pre + [xs[|xs| - 1]] == xs;
    }
  }

  /** `.filter(|x| !x.is_empty())`. */
  function NonEmpty(xs: seq<string>): (r: seq<string>)
    ensures forall s :: s in r <==> s in xs && s != ""
    ensures Distinct(xs) ==> Distinct(r)
    ensures |r| <= |xs|
  {
    if xs == [] then []
    else
      var rest := NonEmpty(xs[1..]);
      assert forall s :: s in xs <==> s == xs[0] || s in xs[1..];
      assert Distinct(xs) ==> Distinct(xs[1..]) && xs[0] !in xs[1..];
      if xs[0] == "" then rest else [xs[0]] + rest
  }

  /** Where in `xs` the `i`-th value kept by `NonEmpty` sits. */
  function KeptFrom(xs: seq<string>, i: nat): (k: nat)
    requires i < |NonEmpty(xs)|
    ensures k < |xs| && xs[k] == NonEmpty(xs)[i]
    decreases |xs|
  {
    if xs[0] == "" then 1 + KeptFrom(xs[1..], i)
    else if i == 0 then 0
    else 1 + KeptFrom(xs[1..], i - 1)
  }

  /** Later kept values come from later places. */
  lemma {:induction false} KeptFromIncreasing(xs: seq<string>, i: nat, j: nat)
    requires i < j < |NonEmpty(xs)|
    ensures KeptFrom(xs, i) < KeptFrom(xs, j)
    decreases |xs|
  {
    if xs[0] == "" {
      KeptFromIncreasing(xs[1..], i, j);
    } else if i > 0 {
      KeptFromIncreasing(xs[1..], i - 1, j - 1);
    }
  }

  /** In a list without repeats, every value first occurs where it sits. */
  lemma FirstIndexOfDistinct(xs: seq<string>, k: nat)
    requires Distinct(xs) && k < |xs|
    ensures FirstIndex(xs, xs[k]) == k
  {
    var f := FirstIndex(xs, xs[k]);
    assert xs[f] == xs[k];
  }

  /** `filter` keeps the order of what it keeps: over a list without repeats, by first occurrence. */
  lemma NonEmptyOrder(xs: seq<string>, i: nat, j: nat)
    requires Distinct(xs) && i < j < |NonEmpty(xs)|
    ensures FirstIndex(xs, NonEmpty(xs)[i]) < FirstIndex(xs, NonEmpty(xs)[j])
  {
    KeptFromIncreasing(xs, i, j);
    FirstIndexOfDistinct(xs, KeptFrom(xs, i));
    FirstIndexOfDistinct(xs, KeptFrom(xs, j));
  }

  /** Each array item as text; an item that is not a string gives the empty string. */
  function Strings(items: seq<Json>): (r: seq<string>)
    ensures |r| == |items| && forall i | 0 <= i < |items| :: r[i] == AsStr(items[i])
  {
    seq(|items|, i requires 0 <= i < |items| => AsStr(items[i]))
  }

  /** A non-empty text comes from a string item. */
  lemma TextFromString(items: seq<Json>, s: string)
    requires s != "" && s in Strings(items)
    ensures JString(s) in items
  {
    var texts := Strings(items);
    var a :| 0 <= a < |texts| && texts[a] == s;
    assert items[a] == JString(s);
  }

  /** A program's first position among the texts is that of its string among the items. */
  lemma FirstIndexOfString(items: seq<Json>, s: string)
    requires s != "" && JString(s) in items
    ensures s in Strings(items) && FirstIndex(Strings(items), s) == FirstIndex(items, JString(s))
  {
    var k := FirstIndex(items, JString(s));
    var texts := Strings(items);
    assert texts[k] == s;
    forall m | 0 <= m < k
      ensures texts[m] != s
    {
      assert items[m] != JString(s);
    }
  }

  /** Two programs in `Unique` order keep their order among the items. */
  lemma OrderAmongItems(items: seq<Json>, s: string, t: string)
    requires s != "" && t != "" && s in Strings(items) && t in Strings(items)
    requires FirstIndex(Strings(items), s) < FirstIndex(Strings(items), t)
    ensures JString(s) in items && JString(t) in items
    ensures FirstIndex(items, JString(s)) < FirstIndex(items, JString(t))
  {
    TextFromString(items, s);
    TextFromString(items, t);
    FirstIndexOfString(items, s);
    FirstIndexOfString(items, t);
  }

  /**
   * The programs `get_setting_shell` reads keep the order in which their
   * strings first occur in the array.
   */
  lemma ProgramsInOrder(items: seq<Json>, i: nat, j: nat)
    requires i < j < |NonEmpty(Unique(Strings(items)))|
    ensures var r := NonEmpty(Unique(Strings(items)));
      JString(r[i]) in items && JString(r[j]) in items &&
      FirstIndex(items, JString(r[i])) < FirstIndex(items, JString(r[j]))
  {
    var texts := Strings(items);
    var u := Unique(texts);
    var r := NonEmpty(u);
    NonEmptyOrder(u, i, j);
    assert r[i] in u && r[j] in u;
    var p := FirstIndex(u, r[i]);
    var q := FirstIndex(u, r[j]);
    UniqueOrder(texts);
    assert FirstIndex(texts, u[p]) < FirstIndex(texts, u[q]);
    OrderAmongItems(items, r[i], r[j]);
  }

  /** `get_setting_shell` lists the programs in the order of their first occurrence in the array. */
  lemma ShellProgramsOrder(items: seq<Json>)
    ensures var r := ShellPrograms(Some(Parsed(JArray(items)))).value;
      forall i, j | 0 <= i < j < |r| ::
        JString(r[i]) in items && JString(r[j]) in items &&
        FirstIndex(items, JString(r[i])) < FirstIndex(items, JString(r[j]))
  {
    var r := ShellPrograms(Some(Parsed(JArray(items)))).value;
    assert r == NonEmpty(Unique(Strings(items)));
    forall i, j | 0 <= i < j < |r|
      ensures JString(r[i]) in items && JString(r[j]) in items &&
        FirstIndex(items, JString(r[i])) < FirstIndex(items, JString(r[j]))
    {
      ProgramsInOrder(items, i, j);
    }
  }

  /** `get_setting_shell` on the stored setting. */
  function ShellPrograms(setting: Option<SettingText>): (r: Option<seq<string>>)
    ensures r.Some? <==> setting.Some? && setting.value.Parsed? && setting.value.json.JArray?
    ensures r.Some? ==> Distinct(r.value) && "" !in r.value
    ensures r.Some? ==> forall s :: s in r.value <==> s != "" && JString(s) in setting.value.json.items
  {
    match setting
    case Some(Parsed(JArray(items))) =>
      var r := NonEmpty(Unique(Strings(items)));
      assert forall s | s != "" :: s in Strings(items) <==> JString(s) in items by {
        forall s | s != ""
          ensures s in Strings(items) <==> JString(s) in items
        {
          if s in Strings(items) {
            var i :| 0 <= i < |items| && Strings(items)[i] == s;
            assert items[i] == JString(s);
          }
          if JString(s) in items {
            var i :| 0 <= i < |items| && items[i] == JString(s);
            assert Strings(items)[i] == s;
          }
        }
      }
      Some(r)
    case _ => None
  }

  /** `set_setting_shell`: the list written as a JSON array of strings. */
  function ShellSettingOf(programs: seq<string>): (t: SettingText)
    ensures t.Parsed? && t.json.JArray? && |t.json.items| == |programs|
  {
    Parsed(JArray(seq(|programs|, i requires 0 <= i < |programs| => JString(programs[i]))))
  }

  /**
   * A list of distinct programs saved by `put_settings` reads back as the
   * same list with its empty entries dropped.
   */
  lemma ShellSettingRoundTrip(programs: seq<string>)
    requires Distinct(programs)
    ensures ShellPrograms(Some(ShellSettingOf(programs))) == Some(NonEmpty(programs))
  {
    var items := ShellSettingOf(programs).json.items;
    assert Strings(items) == programs;
    UniqueOfDistinct(programs);
  }

  // ---------------------------------------------------------------------
  // The registry
  // ---------------------------------------------------------------------

  class Plugin {
    /** `Plugin::agent`, the in-memory records. */
    var agents: map<Uuid, Agent>
    /** The agents table. */
    var db: map<Uuid, AgentRow>
    /** Every message pushed into an agent's channel, oldest first. */
    var outbox: seq<Outgoing>
    /** The passive_agents table. */
    var passive: map<Uuid, PassiveRow>
    /** The plugin's settings rows. */
    var settings: Settings
    /** `Plugin::msg_timeout` and `Plugin::alert_timeout`, the values in force. */
    var msgTimeout: U32
    var alertTimeout: U32

    /** Memory mirrors the table: the same ids, with matching ids and uids. */
    ghost predicate Valid()
      reads this
    {
      agents.Keys == db.Keys && UidsUnique(db) &&
      (forall id | id in db :: db[id].id == id) &&
      (forall id | id in agents :: agents[id].id == id && agents[id].uid == db[id].uid)
    }

    /** `init_agent`: every row loaded into memory. */
    constructor (db: map<Uuid, AgentRow>, passive: map<Uuid, PassiveRow>, settings: Settings)
      requires UidsUnique(db) && forall id | id in db :: db[id].id == id
      ensures Valid() && this.db == db && this.passive == passive && this.settings == settings
      ensures agents == map id | id in db :: FromRow(db[id])
      ensures outbox == [] && msgTimeout == 0 && alertTimeout == 0
    {
      this.db := db;
      this.passive := passive;
      this.settings := settings;
      agents := map id | id in db :: FromRow(db[id]);
      outbox := [];
      msgTimeout := 0;
      alertTimeout := 0;
    }

    /**
     * `login`: an unknown uid gets a new row named after its first eight
     * characters; an Offline agent comes Online with the new address; an
     * agent that is Online or Updating is refused with None.
     */
    method Login(uid: string, addr: SocketAddr, now: int, freshId: Uuid) returns (r: Option<Uuid>)
      requires Valid() && freshId !in db
      modifies this`agents, this`db
      ensures Valid()
      ensures var found := FindByUid(old(db), uid);
        (found.None? ==> (
          r == Some(freshId) &&
          db == old(db)[freshId := NewRow(freshId, uid, addr.ip, now)] &&
          agents == old(agents)[freshId := FromRow(NewRow(freshId, uid, addr.ip, now)).(status := Online, address := Some(addr))])) &&
        (found.Some? && old(agents)[found.value].status != Offline ==> (
          r.None? && db == old(db) && agents == old(agents))) &&
        (found.Some? && old(agents)[found.value].status == Offline ==> (
          r == found &&
          db == old(db)[found.value := old(db)[found.value].(ip := addr.ip, lastLogin := now)] &&
          agents == old(agents)[found.value := old(agents)[found.value].(ip := addr.ip, lastLogin := now,
                                                                          status := Online, address := Some(addr))]))
      ensures r.Some? ==> (r.value in agents && agents[r.value].status == Online &&
        agents[r.value].uid == uid && agents[r.value].address == Some(addr))
      ensures LoginResult(r, db, agents) == LoginAfter(old(db), old(agents), uid, addr, now, freshId)
    {
      var found := FindByUid(db, uid);
      if found.None? {
        r := LoginNew(uid, addr, now, freshId);
      } else if agents[found.value].status == Offline {
        LoginAgain(found.value, addr, now);
        r := found;
      } else {
        r := None;
      }
    }

    /** `login` for a uid without a row: the row is inserted and the agent comes Online. */
    method LoginNew(uid: string, addr: SocketAddr, now: int, freshId: Uuid) returns (r: Option<Uuid>)
      requires Valid() && freshId !in db && FindByUid(db, uid).None?
      modifies this`agents, this`db
      ensures Valid()
      ensures r == Some(freshId)
      ensures db == old(db)[freshId := NewRow(freshId, uid, addr.ip, now)]
      ensures agents == old(agents)[freshId := FromRow(NewRow(freshId, uid, addr.ip, now)).(status := Online, address := Some(addr))]
    {
      var row := NewRow(freshId, uid, addr.ip, now);
      UidsUniqueInsert(db, freshId, row);
      db := db[freshId := row];
      agents := agents[freshId := FromRow(row).(status := Online, address := Some(addr))];
      r := Some(freshId);
    }

    /** `login` for an Offline agent: the row and the record take the new ip and time, and the record comes Online. */
    method LoginAgain(id: Uuid, addr: SocketAddr, now: int)
      requires Valid() && id in db
      modifies this`agents, this`db
      ensures Valid()
      ensures db == old(db)[id := old(db)[id].(ip := addr.ip, lastLogin := now)]
      ensures agents == old(agents)[id := old(agents)[id].(ip := addr.ip, lastLogin := now, status := Online, address := Some(addr))]
    {
      UidsUniqueKeep(db, id, db[id].(ip := addr.ip, lastLogin := now));
      db := db[id := db[id].(ip := addr.ip, lastLogin := now)];
      agents := agents[id := agents[id].(ip := addr.ip, lastLogin := now, status := Online, address := Some(addr))];
    }

    /** `logout`: the record goes Offline and forgets its connection; an unknown id changes nothing. */
    method Logout(id: Uuid)
      requires Valid()
      modifies this`agents
      ensures Valid()
      ensures id in old(agents) ==> agents == old(agents)[id := LoggedOut(old(agents)[id])]
      ensures id !in old(agents) ==> agents == old(agents)
    {
      if id in agents {
        agents := agents[id := LoggedOut(agents[id])];
      }
    }

    /** `update_status`, with the report received at `now`. */
    method UpdateStatus(id: Uuid, data: StatusRsp, now: int)
      requires Valid()
      modifies this`agents
      ensures Valid()
      ensures id in old(agents) ==> agents == old(agents)[id := WithStatus(old(agents)[id], data, now)]
      ensures id !in old(agents) ==> agents == old(agents)
    {
      if id in agents {
        agents := agents[id := WithStatus(agents[id], data, now)];
      }
    }

    /**
     * `update_agent`: the row takes the os, system, arch and hostname (an
     * update of an id without a row is refused, as the table reports it), then
     * the record takes the whole info.
     */
    method UpdateAgent(id: Uuid, info: Info) returns (ok: bool)
      requires Valid()
      modifies this`agents, this`db
      ensures Valid()
      ensures ok <==> id in old(db)
      ensures ok ==> db == old(db)[id := old(db)[id].(os := info.os, system := info.system, arch := info.arch, hostname := info.hostname)]
      ensures ok ==> agents == old(agents)[id := WithInfo(old(agents)[id], info)]
      ensures !ok ==> db == old(db) && agents == old(agents)
    {
      if id !in db {
        return false;
      }
      db := db[id := db[id].(os := info.os, system := info.system, arch := info.arch, hostname := info.hostname)];
      agents := agents[id := WithInfo(agents[id], info)];
      ok := true;
    }

    /** `bind_message`: the record gets a live message channel. */
    method BindMessage(id: Uuid)
      requires Valid()
      modifies this`agents
      ensures Valid()
      ensures id in old(agents) ==> agents == old(agents)[id := old(agents)[id].(channel := true)]
      ensures id !in old(agents) ==> agents == old(agents)
    {
      if id in agents {
        agents := agents[id := agents[id].(channel := true)];
      }
    }

    /**
     * `update_command_output`: true iff the agent and the command id are both
     * known; the entry then has the new code and the output appended.
     */
    method UpdateCommandOutput(id: Uuid, cid: Uuid, code: Option<int>, output: Bytes) returns (ok: bool)
      requires Valid()
      modifies this`agents
      ensures Valid()
      ensures ok <==> id in old(agents) && cid in old(agents)[id].command
      ensures ok ==> agents == old(agents)[id := old(agents)[id].(command := old(agents)[id].command[cid := Some(Appended(old(agents)[id].command[cid], code, output))])]
      ensures !ok ==> agents == old(agents)
    {
      if id in agents && cid in agents[id].command {
        var a := agents[id];
        agents := agents[id := a.(command := a.command[cid := Some(Appended(a.command[cid], code, output))])];
        return true;
      }
      return false;
    }

    /**
     * `update_file_response`: true iff the agent and the file id are both
     * known; the entry's code and message are then replaced.
     */
    method UpdateFileResponse(id: Uuid, fid: Uuid, code: U32, message: string) returns (ok: bool)
      requires Valid()
      modifies this`agents
      ensures Valid()
      ensures ok <==> id in old(agents) && fid in old(agents)[id].file
      ensures ok ==> agents == old(agents)[id := old(agents)[id].(file := old(agents)[id].file[fid := Some(AgentFile(code, message))])]
      ensures !ok ==> agents == old(agents)
    {
      if id in agents && fid in agents[id].file {
        var a := agents[id];
        agents := agents[id := a.(file := a.file[fid := Some(NewFile().(code := code, message := message))])];
        return true;
      }
      return false;
    }

    /** True when `id` names an agent with a live message channel. */
    predicate Reachable(id: Uuid)
      reads this
    {
      id in agents && agents[id].channel
    }

    /**
     * `run_command`: sends a CommandReq under the fresh id `cid` and records a
     * pending entry for it; refused when the agent is missing or offline.
     */
    method RunCommand(id: Uuid, cmd: string, cid: Uuid) returns (r: Result<Uuid, string>)
      requires Valid()
      modifies this`agents, this`outbox
      ensures Valid()
      ensures r.Ok? <==> old(Reachable(id))
      ensures r.Ok? ==> (r.value == cid &&
        outbox == old(outbox) + [Outgoing(id, CommandReq(cid, cmd))] &&
        agents == old(agents)[id := old(agents)[id].(command := old(agents)[id].command[cid := None])])
      ensures r.Err? ==> r.error == NOT_EXIST_OR_OFFLINE && outbox == old(outbox) && agents == old(agents)
    {
      if id in agents && agents[id].channel {
        outbox := outbox + [Outgoing(id, CommandReq(cid, cmd))];
        agents := agents[id := agents[id].(command := agents[id].command[cid := None])];
        return Ok(cid);
      }
      return Err(NOT_EXIST_OR_OFFLINE);
    }

    /** `kill_command`: forwards a CommandKill; refused when the agent is missing or offline. */
    method KillCommand(id: Uuid, cid: Uuid, force: bool) returns (r: Result<(), string>)
      requires Valid()
      modifies this`outbox
      ensures r.Ok? <==> Reachable(id)
      ensures r.Ok? ==> outbox == old(outbox) + [Outgoing(id, CommandKill(cid, force))]
      ensures r.Err? ==> r.error == NOT_EXIST_OR_OFFLINE && outbox == old(outbox)
    {
      if id in agents && agents[id].channel {
        outbox := outbox + [Outgoing(id, CommandKill(cid, force))];
        return Ok(());
      }
      return Err(NOT_EXIST_OR_OFFLINE);
    }

    /**
     * `send_file`: sends the compressed content under the fresh id `fid` and
     * records a pending entry; `deflate` is the compressor.
     */
    method SendFile(id: Uuid, path: string, content: Bytes, fid: Uuid, deflate: Bytes -> Bytes) returns (r: Result<Uuid, string>)
      requires Valid()
      modifies this`agents, this`outbox
      ensures Valid()
      ensures r.Ok? <==> old(Reachable(id))
      ensures r.Ok? ==> (r.value == fid &&
        outbox == old(outbox) + [Outgoing(id, FileReq(fid, path, deflate(content)))] &&
        agents == old(agents)[id := old(agents)[id].(file := old(agents)[id].file[fid := None])])
      ensures r.Err? ==> r.error == NOT_EXIST_OR_OFFLINE && outbox == old(outbox) && agents == old(agents)
    {
      if id in agents && agents[id].channel {
        outbox := outbox + [Outgoing(id, FileReq(fid, path, deflate(content)))];
        agents := agents[id := agents[id].(file := agents[id].file[fid := None])];
        return Ok(fid);
      }
      return Err(NOT_EXIST_OR_OFFLINE);
    }

    /** `get_command_output`: the entry's result, None while pending or unknown. */
    function CommandOutput(id: Uuid, cid: Uuid): (r: Option<AgentCommand>)
      reads this
      ensures r.Some? ==> id in agents && cid in agents[id].command && agents[id].command[cid] == r
      ensures r.None? ==> id !in agents || cid !in agents[id].command || agents[id].command[cid].None?
    {
      if id in agents && cid in agents[id].command then agents[id].command[cid] else None
    }

    /** `get_file_result`: the entry's result, None while pending or unknown. */
    function FileResult(id: Uuid, fid: Uuid): (r: Option<AgentFile>)
      reads this
      ensures r.Some? ==> id in agents && fid in agents[id].file && agents[id].file[fid] == r
      ensures r.None? ==> id !in agents || fid !in agents[id].file || agents[id].file[fid].None?
    {
      if id in agents && fid in agents[id].file then agents[id].file[fid] else None
    }
  }
}
