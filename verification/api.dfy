/**
 * The HTTP handlers of the monitor plugin (monitor/src/api.rs) over the
 * registry and the server: the agent list filter, the passive agent status,
 * the agent and passive agent edits, the server start/stop and restart, and
 * the settings update.
 *
 * Request validation (the `validator` attributes) answers BadRequest before a
 * handler runs; pagination, logging and database errors are not modelled.
 * The server start a handler spawns is modelled as running at once, with the
 * outcome of binding the listen address as a parameter.
 */
module Api {
  import opened Wrappers
  import opened Types
  import opened Messages
  import opened Service
  import opened Session

  datatype Response =
    | Succeeded
    | Created(id: Uuid)                 // Success with the new id
    | Rows(count: nat)                  // Success with the number of rows deleted
    | NotFound
    | BadRequest                        // the request failed validation
    | AgentExist
    | PassiveAgentNameExist
    | PassiveAgentAddressExist

  // ---------------------------------------------------------------------
  // get_agents
  // ---------------------------------------------------------------------

  /** `needle` occurs in `hay` starting at index `i`. */
  predicate OccursAt(hay: string, needle: string, i: nat) {
    i + |needle| <= |hay| && hay[i..i + |needle|] == needle
  }

  /** `str::contains`. */
  predicate Contains(hay: string, needle: string) {
    exists i: nat | i <= |hay| :: OccursAt(hay, needle, i)
  }

  /** `Contains` agrees with splitting the text around the needle. */
  lemma ContainsIffSplit(hay: string, needle: string)
    ensures Contains(hay, needle) <==> exists pre, post :: hay == pre + needle + post
  {
    if Contains(hay, needle) {
      var i: nat :| i <= |hay| && OccursAt(hay, needle, i);
      assert i + |needle| <= |hay| && hay[i..i + |needle|] == needle;
      assert hay == hay[..i] + needle + hay[i + |needle|..];
    }
    if exists pre, post :: hay == pre + needle + post {
      var pre, post :| hay == pre + needle + post;
      assert hay[|pre|..|pre| + |needle|] == needle;
      assert OccursAt(hay, needle, |pre|);
    }
  }

  /** Every text contains the empty text. */
  lemma ContainsEmpty(hay: string)
    ensures Contains(hay, "")
  {
    assert OccursAt(hay, "", 0);
  }

  /** The text filter: the text occurs in the id, name, ip, os or arch. */
  predicate MatchesText(a: Agent, text: string) {
    Contains(a.id, text) || Contains(a.name, text) || Contains(a.ip, text) ||
    (a.os.Some? && Contains(a.os.value, text)) || (a.arch.Some? && Contains(a.arch.value, text))
  }

  /** The filter of `get_agents`. */
  predicate Keep(a: Agent, status: Option<seq<AgentStatus>>, text: Option<string>) {
    (status.None? || a.status in status.value) && (text.None? || MatchesText(a, text.value))
  }

  predicate DistinctStatuses(s: seq<AgentStatus>) {
    forall i, j | 0 <= i < j < |s| :: s[i] != s[j]
  }

  /**
   * `get_agents` before pagination: a status list with a repeated entry
   * fails validation; otherwise the agents the filter keeps.
   */
  function GetAgents(agents: map<Uuid, Agent>, status: Option<seq<AgentStatus>>, text: Option<string>): (r: Result<map<Uuid, Agent>, Response>)
    ensures r.Err? <==> status.Some? && !DistinctStatuses(status.value)
    ensures r.Err? ==> r.error == BadRequest
    ensures r.Ok? ==> forall k :: k in r.value <==> k in agents && Keep(agents[k], status, text)
    ensures r.Ok? ==> forall k | k in r.value :: r.value[k] == agents[k]
  {
    if status.Some? && !DistinctStatuses(status.value) then Err(BadRequest)
    else Ok(map k | k in agents && Keep(agents[k], status, text) :: agents[k])
  }

  /** Without filters, or with an empty text, every agent is listed. */
  lemma UnfilteredListsAll(agents: map<Uuid, Agent>)
    ensures GetAgents(agents, None, None) == Ok(agents)
    ensures GetAgents(agents, None, Some("")) == Ok(agents)
  {
    forall k | k in agents
      ensures MatchesText(agents[k], "")
    {
      ContainsEmpty(agents[k].id);
    }
    assert GetAgents(agents, None, None).value == agents;
    assert GetAgents(agents, None, Some("")).value == agents;
  }

  /** Allowing more statuses never hides an agent. */
  lemma StatusFilterMonotone(agents: map<Uuid, Agent>, s1: seq<AgentStatus>, s2: seq<AgentStatus>, text: Option<string>)
    requires DistinctStatuses(s1) && DistinctStatuses(s2) && forall x | x in s1 :: x in s2
    ensures GetAgents(agents, Some(s1), text).value.Keys <= GetAgents(agents, Some(s2), text).value.Keys
  {
  }

  // ---------------------------------------------------------------------
  // Passive agents
  // ---------------------------------------------------------------------

  /** The status `get_passive_agents` reports, serialized as 0 and 1. */
  datatype PassiveStatus = Inactive | Active {
    function Code(): (c: nat)
      ensures c <= 1 && (c == 1 <==> this == Active)
    {
      if this == Active then 1 else 0
    }
  }

  /** Active exactly when the server is dialling the agent. */
  function PassiveStatusOf(id: Uuid, connecting: set<Uuid>): (s: PassiveStatus)
    ensures s == Active <==> id in connecting
  {
    if id in connecting then Active else Inactive
  }

  predicate NameUsed(passive: map<Uuid, PassiveRow>, name: string) {
    exists id | id in passive :: passive[id].name == name
  }

  predicate AddressUsed(passive: map<Uuid, PassiveRow>, address: string) {
    exists id | id in passive :: passive[id].address == address
  }

  /** The field rules of `AddPassiveAgentsReq`. */
  predicate ValidPassiveRequest(name: string, address: string, retryTime: int) {
    1 <= |name| <= 32 && 1 <= |address| <= 64 && retryTime >= 0
  }

  /** The checks of `add_passive_agents` as written: the name check looks the address up among the names. */
  function AddCheckAsWritten(passive: map<Uuid, PassiveRow>, name: string, address: string, retryTime: int): (r: Option<Response>)
    ensures r.None? <==> ValidPassiveRequest(name, address, retryTime) && !NameUsed(passive, address) && !AddressUsed(passive, address)
  {
    if !ValidPassiveRequest(name, address, retryTime) then Some(BadRequest)
    else if NameUsed(passive, address) then Some(PassiveAgentNameExist)
    else if AddressUsed(passive, address) then Some(PassiveAgentAddressExist)
    else None
  }

  /** The checks of `add_passive_agents` as evidently intended: a name or an address already in use is refused. */
  function AddCheck(passive: map<Uuid, PassiveRow>, name: string, address: string, retryTime: int): (r: Option<Response>)
    ensures r.None? <==> ValidPassiveRequest(name, address, retryTime) && !NameUsed(passive, name) && !AddressUsed(passive, address)
    ensures r == Some(PassiveAgentNameExist) <==> ValidPassiveRequest(name, address, retryTime) && NameUsed(passive, name)
    ensures r == Some(PassiveAgentAddressExist) <==>
      ValidPassiveRequest(name, address, retryTime) && !NameUsed(passive, name) && AddressUsed(passive, address)
  {
    if !ValidPassiveRequest(name, address, retryTime) then Some(BadRequest)
    else if NameUsed(passive, name) then Some(PassiveAgentNameExist)
    else if AddressUsed(passive, address) then Some(PassiveAgentAddressExist)
    else None
  }

  /**
   * As written, a second passive agent with an existing name but a new
   * address is accepted; the intended check refuses it.
   */
  lemma DuplicateNameAcceptedAsWritten(id: Uuid)
    ensures var passive := map[id := PassiveRow(id, "a", "10.0.0.1:4242", 0, 0)];
      AddCheckAsWritten(passive, "a", "10.0.0.2:4242", 0).None? &&
      AddCheck(passive, "a", "10.0.0.2:4242", 0) == Some(PassiveAgentNameExist)
  {
    var passive := map[id := PassiveRow(id, "a", "10.0.0.1:4242", 0, 0)];
    assert passive[id].name == "a";
    assert !NameUsed(passive, "10.0.0.2:4242");
  }

  /** Names and addresses of passive agents are pairwise distinct. */
  ghost predicate PassiveUnique(passive: map<Uuid, PassiveRow>) {
    forall a, b | a in passive && b in passive && a != b ::
      passive[a].name != passive[b].name && passive[a].address != passive[b].address
  }

  /** Adding through the intended checks keeps names and addresses unique. */
  lemma AddKeepsUnique(passive: map<Uuid, PassiveRow>, row: PassiveRow)
    requires PassiveUnique(passive) && row.id !in passive
    requires AddCheck(passive, row.name, row.address, row.retryTime).None?
    ensures PassiveUnique(passive[row.id := row])
  {
    var m := passive[row.id := row];
    forall a, b | a in m && b in m && a != b
      ensures m[a].name != m[b].name && m[a].address != m[b].address
    {
      if a == row.id {
        assert b in passive && passive[b].name != row.name && passive[b].address != row.address;
      } else if b == row.id {
        assert a in passive && passive[a].name != row.name && passive[a].address != row.address;
      }
    }
  }

  /**
   * `add_passive_agents`: on passing the checks, the row is created under
   * the fresh id `freshId` and the server is asked to dial it.
   */
  method AddPassiveAgents(p: Plugin, srv: Server, name: string, address: string, retryTime: int, freshId: Uuid, now: int)
    returns (r: Response)
    requires srv.Valid() && freshId !in p.passive
    modifies p`passive, srv`passiveQueue
    ensures srv.Valid()
    ensures r == Created(freshId) <==> AddCheck(old(p.passive), name, address, retryTime).None?
    ensures r != Created(freshId) ==> (r == AddCheck(old(p.passive), name, address, retryTime).value &&
      p.passive == old(p.passive) && srv.passiveQueue == old(srv.passiveQueue))
    ensures r == Created(freshId) ==> (p.passive == old(p.passive)[freshId := PassiveRow(freshId, name, address, retryTime, now)] &&
      srv.passiveQueue == old(srv.passiveQueue) + (if freshId !in srv.passiveAgent && srv.passiveChannel then [freshId] else []))
  {
    var check := AddCheck(p.passive, name, address, retryTime);
    if check.Some? {
      return check.value;
    }
    p.passive := p.passive[freshId := PassiveRow(freshId, name, address, retryTime, now)];
    var _ := srv.Connect(freshId);
    r := Created(freshId);
  }

  // ---------------------------------------------------------------------
  // Agents
  // ---------------------------------------------------------------------

  /**
   * `put_agent`: renames a known agent in the table and in memory, unless
   * some agent (itself included) already has the name.
   */
  method PutAgent(p: Plugin, aid: Uuid, name: string) returns (r: Response)
    requires p.Valid()
    modifies p`agents, p`db
    ensures p.Valid()
    ensures |name| > 32 ==> r == BadRequest
    ensures |name| <= 32 && aid !in old(p.agents) ==> r == NotFound
    ensures |name| <= 32 && aid in old(p.agents) && NameTaken(old(p.db), name) ==> r == AgentExist
    ensures r == Succeeded <==> |name| <= 32 && aid in old(p.agents) && !NameTaken(old(p.db), name)
    ensures r == Succeeded ==> (p.db == old(p.db)[aid := old(p.db)[aid].(name := name)] &&
      p.agents == old(p.agents)[aid := old(p.agents)[aid].(name := name)])
    ensures r != Succeeded ==> p.db == old(p.db) && p.agents == old(p.agents)
  {
    if |name| > 32 {
      return BadRequest;
    }
    if aid !in p.agents {
      return NotFound;
    }
    if NameTaken(p.db, name) {
      return AgentExist;
    }
    p.db := p.db[aid := p.db[aid].(name := name)];
    p.agents := p.agents[aid := p.agents[aid].(name := name)];
    r := Succeeded;
  }

  /** `delete_agent`: removes a known agent's row and record and reports one row. */
  method DeleteAgent(p: Plugin, aid: Uuid) returns (r: Response)
    requires p.Valid()
    modifies p`agents, p`db
    ensures p.Valid()
    ensures aid !in old(p.agents) ==> r == NotFound && p.agents == old(p.agents) && p.db == old(p.db)
    ensures aid in old(p.agents) ==> r == Rows(1) && p.agents == old(p.agents) - {aid} && p.db == old(p.db) - {aid}
  {
    if aid !in p.agents {
      return NotFound;
    }
    p.db := p.db - {aid};
    p.agents := p.agents - {aid};
    r := Rows(1);
  }

  /** The ids a list names. */
  function Listed(ids: seq<Uuid>): (r: set<Uuid>)
    ensures forall x :: x in r <==> x in ids
  {
    if ids == [] then {} else Listed(ids[..|ids| - 1]) + {ids[|ids| - 1]}
  }

  lemma RemoveOneMore(m: map<Uuid, Agent>, gone: set<Uuid>, x: Uuid)
    ensures (m - gone) - {x} == m - (gone + {x})
  {
  }

  /** The `remove_agent` loop of `delete_agents`: drops each listed id from the in-memory records. */
  method RemoveEach(agents: map<Uuid, Agent>, ids: seq<Uuid>) returns (m: map<Uuid, Agent>)
    ensures m == agents - Listed(ids)
  {
    m := agents;
    var k := 0;
    while k < |ids|
      invariant 0 <= k <= |ids|
      invariant m == agents - Listed(ids[..k])
    {
      assert ids[..k + 1][..k] == ids[..k];
      RemoveOneMore(agents, Listed(ids[..k]), ids[k]);
      m := m - {ids[k]};
      k := k + 1;
    }
    assert ids[..k] == ids;
  }

  /** `delete_agents`: removes the rows and records of every listed id and reports how many rows went. */
  method DeleteAgents(p: Plugin, ids: seq<Uuid>) returns (r: Response)
    requires p.Valid()
    modifies p`agents, p`db
    ensures p.Valid()
    ensures r == Rows(|old(p.db).Keys * Listed(ids)|)
    ensures p.db == old(p.db) - Listed(ids)
    ensures p.agents == old(p.agents) - Listed(ids)
  {
    var listed := Listed(ids);
    r := Rows(|p.db.Keys * listed|);
    p.db := p.db - listed;
    var agents := RemoveEach(p.agents, ids);
    p.agents := agents;
    assert p.agents.Keys == p.db.Keys;
    assert UidsUnique(p.db);
    assert forall id | id in p.db :: p.db[id].id == id;
    assert forall id | id in p.agents :: p.agents[id].id == id && p.agents[id].uid == p.db[id].uid;
  }

  /** `reconnect_agent`: a known agent with a live channel is told to reconnect. */
  method ReconnectAgent(p: Plugin, aid: Uuid) returns (r: Response)
    modifies p`outbox
    ensures aid !in p.agents ==> r == NotFound && p.outbox == old(p.outbox)
    ensures aid in p.agents ==> (r == Succeeded &&
      p.outbox == old(p.outbox) + (if p.agents[aid].channel then [Outgoing(aid, Reconnect)] else []))
  {
    if aid !in p.agents {
      return NotFound;
    }
    if p.agents[aid].channel {
      p.outbox := p.outbox + [Outgoing(aid, Reconnect)];
    }
    r := Succeeded;
  }

  // ---------------------------------------------------------------------
  // Server and settings
  // ---------------------------------------------------------------------

  /**
   * `post_server`: start only starts a stopped server, stop only signals a
   * running one, and the answer is Succeeded either way.
   */
  method PostServer(srv: Server, start: bool, bindOk: bool, passiveIds: seq<Uuid>) returns (r: Response)
    requires srv.Valid()
    modifies srv`running, srv`passiveChannel, srv`shutdownTx, srv`passiveQueue, srv`stopRequested
    ensures srv.Valid() && r == Succeeded
    ensures start && old(srv.running) ==> unchanged(srv)
    ensures start && !old(srv.running) ==> (srv.running == bindOk && srv.stopRequested == false &&
      (bindOk ==> srv.passiveQueue == Queued(passiveIds, srv.passiveAgent)))
    ensures !start && old(srv.running) ==> (srv.running && srv.stopRequested && srv.passiveQueue == old(srv.passiveQueue))
    ensures !start && !old(srv.running) ==> unchanged(srv)
  {
    if start {
      if !srv.IsRunning() {
        var _ := srv.Start(bindOk, passiveIds);
      }
    } else if srv.IsRunning() {
      var _ := srv.Stop();
    }
    r := Succeeded;
  }

  /**
   * `restart_server`: signals a stop, polls once a second at most `maxTime`
   * times, and starts again only when the server is seen stopped. The
   * listener of a running server finishes stopping `settle` seconds after
   * the signal.
   */
  method RestartServer(srv: Server, maxTime: U32, settle: nat, bindOk: bool, passiveIds: seq<Uuid>)
    requires srv.Valid()
    modifies srv`running, srv`passiveChannel, srv`shutdownTx, srv`passiveQueue, srv`stopRequested
    ensures srv.Valid()
    ensures old(srv.running) && settle > maxTime ==> (srv.running && srv.stopRequested && srv.passiveQueue == old(srv.passiveQueue))
    ensures !old(srv.running) || settle <= maxTime ==> (srv.running == bindOk && !srv.stopRequested &&
      (bindOk ==> srv.passiveQueue == Queued(passiveIds, srv.passiveAgent)))
  {
    var wasRunning := srv.IsRunning();
    var _ := srv.Stop();
    // Poll i happens i seconds after the signal.
    var i := 0;
    while i < maxTime
      invariant 0 <= i <= maxTime && srv.Valid()
      invariant !wasRunning ==> !srv.running
      invariant wasRunning ==> (i <= settle && srv.running && srv.stopRequested && srv.passiveQueue == old(srv.passiveQueue))
    {
      if wasRunning && settle <= i {
        srv.Stopped();
      }
      if !srv.IsRunning() {
        break;
      }
      i := i + 1;
    }
    if wasRunning && settle <= i && srv.IsRunning() {
      srv.Stopped();
    }
    if !srv.IsRunning() {
      var _ := srv.Start(bindOk, passiveIds);
    }
  }

  /** `PutSettingsReq`: each setting is optional. */
  datatype SettingsRequest = SettingsRequest(
    shell: Option<seq<string>>,
    address: Option<string>,
    msgTimeout: Option<U32>,
    alertTimeout: Option<U32>)

  /** The settings rows after a request: each field present in the request is written, the others are kept. */
  function UpdatedSettings(s: Settings, req: SettingsRequest): (t: Settings)
    ensures t.shell == if req.shell.Some? then Some(ShellSettingOf(req.shell.value)) else s.shell
    ensures t.address == if req.address.Some? then req.address else s.address
    ensures t.msgTimeout == if req.msgTimeout.Some? then req.msgTimeout else s.msgTimeout
    ensures t.alertTimeout == if req.alertTimeout.Some? then req.alertTimeout else s.alertTimeout
  {
    Settings(
      if req.shell.Some? then Some(ShellSettingOf(req.shell.value)) else s.shell,
      if req.address.Some? then req.address else s.address,
      if req.msgTimeout.Some? then req.msgTimeout else s.msgTimeout,
      if req.alertTimeout.Some? then req.alertTimeout else s.alertTimeout)
  }

  /** An empty request changes nothing, and a request applied twice is applied once. */
  lemma UpdatedSettingsIdempotent(s: Settings, req: SettingsRequest)
    ensures UpdatedSettings(s, SettingsRequest(None, None, None, None)) == s
    ensures UpdatedSettings(UpdatedSettings(s, req), req) == UpdatedSettings(s, req)
  {
  }

  /** A shell list saved through `put_settings` reads back without its empty entries. */
  lemma SavedShellReadsBack(s: Settings, req: SettingsRequest)
    requires req.shell.Some? && Distinct(req.shell.value)
    ensures ShellPrograms(UpdatedSettings(s, req).shell) == Some(NonEmpty(req.shell.value))
  {
    ShellSettingRoundTrip(req.shell.value);
  }

  /**
   * `put_settings`: a shell list with a repeated entry fails validation;
   * otherwise the present fields are written, the two timeouts also take
   * effect in memory, and the server is restarted, with five polls,
   * whenever the request carries an address.
   */
  method PutSettings(p: Plugin, srv: Server, req: SettingsRequest, settle: nat, bindOk: bool, passiveIds: seq<Uuid>)
    returns (r: Response)
    requires srv.Valid()
    modifies p`settings, p`msgTimeout, p`alertTimeout
    modifies srv`running, srv`passiveChannel, srv`shutdownTx, srv`passiveQueue, srv`stopRequested
    ensures srv.Valid()
    ensures req.shell.Some? && !Distinct(req.shell.value) ==> (r == BadRequest && unchanged(p, srv))
    ensures !(req.shell.Some? && !Distinct(req.shell.value)) ==> (r == Succeeded &&
      p.settings == UpdatedSettings(old(p.settings), req) &&
      p.msgTimeout == (if req.msgTimeout.Some? then req.msgTimeout.value else old(p.msgTimeout)) &&
      p.alertTimeout == (if req.alertTimeout.Some? then req.alertTimeout.value else old(p.alertTimeout)))
    ensures req.address.None? ==> unchanged(srv)
    ensures !(req.shell.Some? && !Distinct(req.shell.value)) && req.address.Some? ==>
      && (old(srv.running) && settle > 5 ==>
            srv.running && srv.stopRequested && srv.passiveQueue == old(srv.passiveQueue))
      && (!old(srv.running) || settle <= 5 ==>
            srv.running == bindOk && !srv.stopRequested && (bindOk ==> srv.passiveQueue == Queued(passiveIds, srv.passiveAgent)))
  {
    if req.shell.Some? && !Distinct(req.shell.value) {
      return BadRequest;
    }
    p.settings := UpdatedSettings(p.settings, req);
    if req.msgTimeout.Some? {
      p.msgTimeout := req.msgTimeout.value;
    }
    if req.alertTimeout.Some? {
      p.alertTimeout := req.alertTimeout.value;
    }
    if req.address.Some? {
      RestartServer(srv, 5, settle, bindOk, passiveIds);
    }
    r := Succeeded;
  }
}
