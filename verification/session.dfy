/**
 * The agent sessions and the server lifecycle of the monitor plugin
 * (monitor/src/server.rs): the per-connection `Handler` with its sequence
 * numbers and handshake, the offline alert of `Listener::run`, and the
 * `Server` running/connecting state.
 *
 * Messages the handler passes to `Frame::send_msg` are recorded in order; how
 * they become bytes is `Framing.Frame.SendMsg`. Clock readings and fresh ids are
 * parameters.
 */
module Session {
  import opened Wrappers
  import opened Types
  import opened Messages
  import opened Service
  import Shell

  datatype SessionError =
    | InvalidHandshake    // "Invalid handshake message"
    | AlreadyLogin        // "Already login"
    | RecordMissing       // the agents table has no row to update
    | BadUuid             // a token or id that is not a uuid
    | InvalidMessageType  // "Invalid message type"
    | InvalidMessage      // "Invalid message"

  // ---------------------------------------------------------------------
  // Sequence numbers
  // ---------------------------------------------------------------------

  /** `u64` increment, wrapping as in a release build. */
  function Next(n: U64): (m: U64)
    ensures n < U64_LIMIT - 1 ==> m == n + 1
    ensures n == U64_LIMIT - 1 ==> m == 0
  {
    (n + 1) % U64_LIMIT
  }

  /**
   * The sequence rule of `handle_msg`: a message numbered below the expected
   * one is ignored (None); otherwise the expected number moves past it.
   */
  function Accept(clientSeq: U64, seqNo: U64): (r: Option<U64>)
    ensures r.None? <==> seqNo < clientSeq
    ensures r.Some? ==> r.value == Next(seqNo)
  {
    if seqNo < clientSeq then None else Some(Next(seqNo))
  }

  /**
   * No replay: once a message is accepted, every message with the same or a
   * lower number is ignored, unless the number wrapped at u64::MAX.
   */
  lemma {:induction false} NoReplay(clientSeq: U64, seqNo: U64, later: U64)
    requires Accept(clientSeq, seqNo).Some? && seqNo < U64_LIMIT - 1 && later <= seqNo
    ensures Accept(Accept(clientSeq, seqNo).value, later).None?
  {
    assert Accept(clientSeq, seqNo).value == seqNo + 1;
  }

  /** The expected number never decreases, except by wrapping at u64::MAX. */
  lemma ClientSeqMonotone(clientSeq: U64, seqNo: U64)
    requires seqNo < U64_LIMIT - 1
    ensures Accept(clientSeq, seqNo).Some? ==> Accept(clientSeq, seqNo).value > clientSeq
  {
  }

  /** The handshake gate: the first message, numbered 0, carrying a HandshakeReq. */
  predicate HandshakeAllowed(clientSeq: U64, msg: Message) {
    msg.seqNo == 0 && clientSeq == 0 && msg.data.Some? && msg.data.value.HandshakeReq?
  }

  /** The shell output routing of `handle_msg`: the websocket bound to `token`, if its session is open. */
  function ShellRoute(binding: map<Uuid, Uuid>, sessions: set<Uuid>, token: Uuid): (r: Option<Uuid>)
    ensures r.Some? <==> token in binding && binding[token] in sessions
    ensures r.Some? ==> r.value == binding[token]
  {
    if token in binding && binding[token] in sessions then Some(binding[token]) else None
  }

  /**
   * The records after `handle_msg` dispatched `data` from agent `id`: status
   * and info replace parts of its record, a command or file response with a
   * known id updates that entry, and nothing else changes.
   */
  function AgentsAfter(agents: map<Uuid, Agent>, rows: map<Uuid, AgentRow>, id: Uuid, data: Data, now: int): map<Uuid, Agent>
  {
    if id !in agents then agents
    else if data.StatusRspData? then agents[id := WithStatus(agents[id], data.status, now)]
    else if data.InfoData? then (if id in rows then agents[id := WithInfo(agents[id], data.info)] else agents)
    else if data.CommandRsp? then
      var a := agents[id];
      var cid := ParseUuid(data.commandRsp.id);
      if cid.Some? && cid.value in a.command
      then agents[id := a.(command := a.command[cid.value := Some(Appended(a.command[cid.value], data.commandRsp.code, data.commandRsp.output))])]
      else agents
    else if data.FileRsp? then
      var a := agents[id];
      var fid := ParseUuid(data.fileRsp.id);
      if fid.Some? && fid.value in a.file
      then agents[id := a.(file := a.file[fid.value := Some(AgentFile(data.fileRsp.code, data.fileRsp.message))])]
      else agents
    else agents
  }

  /** The agents table after `handle_msg` dispatched `data` from agent `id`: only info writes, to that row alone. */
  function RowsAfter(rows: map<Uuid, AgentRow>, id: Uuid, data: Data): map<Uuid, AgentRow>
  {
    if data.InfoData? && id in rows
    then rows[id := rows[id].(os := data.info.os, system := data.info.system, arch := data.info.arch, hostname := data.info.hostname)]
    else rows
  }

  /**
   * `handle_msg` touches the sender's own record and row and nothing else:
   * the same ids stay, every other agent is unchanged, the sender keeps its
   * id and uid, and only info writes to the table.
   */
  lemma DispatchTouchesOnlySender(agents: map<Uuid, Agent>, rows: map<Uuid, AgentRow>, id: Uuid, data: Data, now: int)
    ensures var a := AgentsAfter(agents, rows, id, data, now);
      && a.Keys == agents.Keys
      && (forall k | k in agents && k != id :: a[k] == agents[k])
      && (id in agents ==> a[id].id == agents[id].id && a[id].uid == agents[id].uid)
    ensures var t := RowsAfter(rows, id, data);
      && t.Keys == rows.Keys
      && (forall k | k in rows && k != id :: t[k] == rows[k])
      && (!data.InfoData? ==> t == rows)
      && (id in rows ==> t[id].id == rows[id].id && t[id].uid == rows[id].uid)
  {
  }

  /**
   * The answer of `handle_msg` to a payload that is not shell output: info
   * fails without a row, a command or file response needs a uuid, status
   * always succeeds, and any other type is refused.
   */
  function Applied(rows: map<Uuid, AgentRow>, id: Uuid, data: Data): (r: Result<(), SessionError>)
    ensures data.StatusRspData? ==> r.Ok?
    ensures data.InfoData? ==> (r.Ok? <==> id in rows) && (r.Err? ==> r.error == RecordMissing)
    ensures data.CommandRsp? ==> (r.Ok? <==> ParseUuid(data.commandRsp.id).Some?) && (r.Err? ==> r.error == BadUuid)
    ensures data.FileRsp? ==> (r.Ok? <==> ParseUuid(data.fileRsp.id).Some?) && (r.Err? ==> r.error == BadUuid)
    ensures !(data.StatusRspData? || data.InfoData? || data.CommandRsp? || data.FileRsp?) ==> r == Err(InvalidMessageType)
  {
    if data.StatusRspData? then Ok(())
    else if data.InfoData? then (if id in rows then Ok(()) else Err(RecordMissing))
    else if data.CommandRsp? then (if ParseUuid(data.commandRsp.id).None? then Err(BadUuid) else Ok(()))
    else if data.FileRsp? then (if ParseUuid(data.fileRsp.id).None? then Err(BadUuid) else Ok(()))
    else Err(InvalidMessageType)
  }

  /**
   * Shell output or an error with token `token` was handled: a token that is
   * not a uuid is refused and nothing is sent; otherwise `data` went to the
   * websocket bound to the token when its session is open, and to no one else.
   */
  ghost predicate Forwarded(before: seq<Shell.WsOut>, after: seq<Shell.WsOut>, r: Result<(), SessionError>,
                            binding: map<Uuid, Uuid>, sessions: set<Uuid>, token: Option<string>, data: FrontendData)
  {
    var t := ParseUuid(token.GetOr(""));
    && (t.None? ==> r == Err(BadUuid) && after == before)
    && (t.Some? ==>
          && r.Ok?
          && after == before + match ShellRoute(binding, sessions, t.value)
                               case None => []
                               case Some(ws) => [Shell.WsOut(ws, FrontendMessage(None, Some(data)))])
  }

  /** Shell output and errors leave the records and the table as they are. */
  lemma ShellLeavesRegistry(agents: map<Uuid, Agent>, rows: map<Uuid, AgentRow>, id: Uuid, data: Data, now: int)
    requires data.ShellOutput? || data.ShellError?
    ensures AgentsAfter(agents, rows, id, data, now) == agents && RowsAfter(rows, id, data) == rows
  {
  }

  /** The registry half of `handle_msg`'s match: everything but shell output and errors. */
  method Apply(p: Plugin, id: Uuid, data: Data, now: int) returns (r: Result<(), SessionError>)
    requires p.Valid() && !data.ShellOutput? && !data.ShellError?
    modifies p`agents, p`db
    ensures p.Valid()
    ensures p.agents == AgentsAfter(old(p.agents), old(p.db), id, data, now)
    ensures p.db == RowsAfter(old(p.db), id, data)
    ensures r == Applied(old(p.db), id, data)
  {
    if data.InfoData? {
      r := ApplyInfo(p, id, data);
    } else if data.StatusRspData? {
      ApplyStatus(p, id, data, now);
      r := Ok(());
    } else if data.FileRsp? {
      r := ApplyFile(p, id, data);
    } else if data.CommandRsp? {
      r := ApplyCommand(p, id, data);
    } else {
      r := Err(InvalidMessageType);
    }
  }

  /** An info report: the row and the record take it, if the row exists. */
  method ApplyInfo(p: Plugin, id: Uuid, data: Data) returns (r: Result<(), SessionError>)
    requires p.Valid() && data.InfoData?
    modifies p`agents, p`db
    ensures p.Valid()
    ensures p.agents == AgentsAfter(old(p.agents), old(p.db), id, data, 0)
    ensures p.db == RowsAfter(old(p.db), id, data)
    ensures r == Applied(old(p.db), id, data)
  {
    var ok := p.UpdateAgent(id, data.info);
    r := if ok then Ok(()) else Err(RecordMissing);
  }

  /** A status report: the record's figures are refreshed at `now`. */
  method ApplyStatus(p: Plugin, id: Uuid, data: Data, now: int)
    requires p.Valid() && data.StatusRspData?
    modifies p`agents
    ensures p.Valid()
    ensures p.agents == AgentsAfter(old(p.agents), p.db, id, data, now)
  {
    p.UpdateStatus(id, data.status, now);
  }

  /** A file response: the entry it names is replaced, when the id parses and is known. */
  method ApplyFile(p: Plugin, id: Uuid, data: Data) returns (r: Result<(), SessionError>)
    requires p.Valid() && data.FileRsp?
    modifies p`agents
    ensures p.Valid()
    ensures p.agents == AgentsAfter(old(p.agents), p.db, id, data, 0)
    ensures r == Applied(p.db, id, data)
  {
    var rsp := data.fileRsp;
    var fid := ParseUuid(rsp.id);
    if fid.None? {
      return Err(BadUuid);
    }
    var _ := p.UpdateFileResponse(id, fid.value, rsp.code, rsp.message);
    r := Ok(());
  }

  /** A command response: the output is appended to the command it names, when the id parses and is known. */
  method ApplyCommand(p: Plugin, id: Uuid, data: Data) returns (r: Result<(), SessionError>)
    requires p.Valid() && data.CommandRsp?
    modifies p`agents
    ensures p.Valid()
    ensures p.agents == AgentsAfter(old(p.agents), p.db, id, data, 0)
    ensures r == Applied(p.db, id, data)
  {
    var rsp := data.commandRsp;
    var cid := ParseUuid(rsp.id);
    if cid.None? {
      return Err(BadUuid);
    }
    var _ := p.UpdateCommandOutput(id, cid.value, rsp.code, rsp.output);
    r := Ok(());
  }

  /** One agent connection. */
  class Handler {
    const traceId: Uuid
    const clientAddr: SocketAddr
    var clientSeq: U64
    var serverSeq: U64
    var aid: Option<Uuid>
    /** The status clock period in seconds, once the agent reported a rate. */
    var statusEvery: Option<U32>
    /** Whether the handler holds the receiving end of the agent's message channel. */
    var bound: bool
    /** The messages passed to `send_msg`, oldest first. */
    var sent: seq<Message>

    /** `Handler::new`. */
    constructor (traceId: Uuid, clientAddr: SocketAddr)
      ensures this.traceId == traceId && this.clientAddr == clientAddr
      ensures clientSeq == 0 && serverSeq == 0 && aid.None? && statusEvery.None? && !bound && sent == []
    {
      this.traceId := traceId;
      this.clientAddr := clientAddr;
      clientSeq := 0;
      serverSeq := 0;
      aid := None;
      statusEvery := None;
      bound := false;
      sent := [];
    }

    /** `new_server_msg`: stamps the current server number, then advances it. */
    method NewServerMsg(data: Data) returns (m: Message)
      modifies this`serverSeq
      ensures m == Message(old(serverSeq), Some(data))
      ensures serverSeq == Next(old(serverSeq))
    {
      m := Message(serverSeq, Some(data));
      serverSeq := Next(serverSeq);
    }

    /** Stamps `data` and hands it to `send_msg`. */
    method Reply(data: Data)
      modifies this`serverSeq, this`sent
      ensures sent == old(sent) + [Message(old(serverSeq), Some(data))]
      ensures serverSeq == Next(old(serverSeq))
    {
      var m := NewServerMsg(data);
      sent := sent + [m];
    }

    /**
     * `handshake`: only a first message numbered 0 carrying a HandshakeReq is
     * accepted. A login the registry refuses is answered with Logined and
     * fails; an accepted one binds the agent's channel and is answered with
     * Success. `now` and `freshId` are the clock and the id a new row gets.
     */
    method Handshake(p: Plugin, msg: Message, now: int, freshId: Uuid) returns (r: Result<(), SessionError>)
      requires p.Valid() && freshId !in p.db
      modifies this`aid, this`bound, this`serverSeq, this`sent, p`agents, p`db
      ensures p.Valid()
      ensures !HandshakeAllowed(old(clientSeq), msg) ==> (r == Err(InvalidHandshake) &&
        aid == old(aid) && bound == old(bound) && serverSeq == old(serverSeq) && sent == old(sent) &&
        p.agents == old(p.agents) && p.db == old(p.db))
      ensures r == Err(AlreadyLogin) ==> (aid == old(aid) && bound == old(bound) &&
        sent == old(sent) + [Message(old(serverSeq), Some(HandshakeRsp(Logined, traceId)))] &&
        serverSeq == Next(old(serverSeq)) && p.agents == old(p.agents) && p.db == old(p.db))
      ensures HandshakeAllowed(old(clientSeq), msg) ==> (r == Err(AlreadyLogin) <==>
        (var found := FindByUid(old(p.db), msg.data.value.uid); found.Some? && old(p.agents)[found.value].status != Offline))
      ensures r.Ok? ==> (HandshakeAllowed(old(clientSeq), msg) && aid.Some? && bound &&
        aid.value in p.agents && p.agents[aid.value].status == Online && p.agents[aid.value].channel &&
        p.agents[aid.value].uid == msg.data.value.uid && p.agents[aid.value].address == Some(clientAddr) &&
        sent == old(sent) + [Message(old(serverSeq), Some(HandshakeRsp(Success, traceId)))])
      ensures r.Ok? ==> (HandshakeAllowed(old(clientSeq), msg) &&
        var after := LoginAfter(old(p.db), old(p.agents), msg.data.value.uid, clientAddr, now, freshId);
        after.id.Some? && aid == after.id && p.db == after.rows &&
        p.agents == after.records[aid.value := after.records[aid.value].(channel := true)] &&
        serverSeq == Next(old(serverSeq)))
      ensures r.Ok? || r == Err(AlreadyLogin) || r == Err(InvalidHandshake)
    {
      if !HandshakeAllowed(clientSeq, msg) {
        return Err(InvalidHandshake);
      }
      r := LogIn(p, msg.data.value.uid, now, freshId);
    }

    /** The part of `handshake` after the gate: the login, the channel binding and the answer. */
    method LogIn(p: Plugin, uid: string, now: int, freshId: Uuid) returns (r: Result<(), SessionError>)
      requires p.Valid() && freshId !in p.db
      modifies this`aid, this`bound, this`serverSeq, this`sent, p`agents, p`db
      ensures p.Valid()
      ensures r.Ok? || r == Err(AlreadyLogin)
      ensures r == Err(AlreadyLogin) <==>
        (var found := FindByUid(old(p.db), uid); found.Some? && old(p.agents)[found.value].status != Offline)
      ensures r == Err(AlreadyLogin) ==> (aid == old(aid) && bound == old(bound) &&
        sent == old(sent) + [Message(old(serverSeq), Some(HandshakeRsp(Logined, traceId)))] &&
        serverSeq == Next(old(serverSeq)) && p.agents == old(p.agents) && p.db == old(p.db))
      ensures r.Ok? ==> (aid.Some? && bound &&
        aid.value in p.agents && p.agents[aid.value].status == Online && p.agents[aid.value].channel &&
        p.agents[aid.value].uid == uid && p.agents[aid.value].address == Some(clientAddr) &&
        sent == old(sent) + [Message(old(serverSeq), Some(HandshakeRsp(Success, traceId)))])
      ensures r.Ok? ==> (var after := LoginAfter(old(p.db), old(p.agents), uid, clientAddr, now, freshId);
        after.id.Some? && aid == after.id && p.db == after.rows &&
        p.agents == after.records[aid.value := after.records[aid.value].(channel := true)] &&
        serverSeq == Next(old(serverSeq)))
    {
      var login := p.Login(uid, clientAddr, now, freshId);
      if login.None? {
        Reply(HandshakeRsp(Logined, traceId));
        return Err(AlreadyLogin);
      }
      Bind(p, login.value, uid);
      r := Ok(());
    }

    /** A successful login: the connection takes the agent, binds its channel and answers Success. */
    method Bind(p: Plugin, id: Uuid, ghost uid: string)
      requires p.Valid() && id in p.agents && p.agents[id].status == Online
      requires p.agents[id].uid == uid && p.agents[id].address == Some(clientAddr)
      modifies this`aid, this`bound, this`serverSeq, this`sent, p`agents
      ensures p.Valid() && p.db == old(p.db)
      ensures aid == Some(id) && bound && id in p.agents && p.agents[id].status == Online && p.agents[id].channel
      ensures p.agents[id].uid == uid && p.agents[id].address == Some(clientAddr)
      ensures sent == old(sent) + [Message(old(serverSeq), Some(HandshakeRsp(Success, traceId)))]
      ensures serverSeq == Next(old(serverSeq))
      ensures p.agents == old(p.agents)[id := old(p.agents)[id].(channel := true)]
    {
      aid := Some(id);
      p.BindMessage(id);
      bound := true;
      Reply(HandshakeRsp(Success, traceId));
    }

    /**
     * `handle_msg` for an agent that completed the handshake: applies the
     * sequence rule, then dispatches the payload. Shell output and errors
     * are routed to the browser session bound to their token.
     */
    method HandleMsg(p: Plugin, hub: Shell.ShellHub, msg: Message, now: int) returns (r: Result<(), SessionError>)
      requires aid.Some? && p.Valid() && hub.Valid()
      modifies this`clientSeq, this`statusEvery, p`agents, p`db, hub`wsSent
      ensures p.Valid()
      ensures msg.seqNo < old(clientSeq) ==> (r.Ok? && clientSeq == old(clientSeq) && statusEvery == old(statusEvery) &&
        p.agents == old(p.agents) && p.db == old(p.db) && hub.wsSent == old(hub.wsSent))
      ensures msg.seqNo >= old(clientSeq) ==> clientSeq == Next(msg.seqNo)
      ensures msg.seqNo >= old(clientSeq) && msg.data.None? ==>
        r == Err(InvalidMessage) && p.agents == old(p.agents) && p.db == old(p.db) && hub.wsSent == old(hub.wsSent)
      ensures msg.seqNo >= old(clientSeq) && msg.data.Some? ==> var data := msg.data.value;
        && p.agents == AgentsAfter(old(p.agents), old(p.db), aid.value, data, now)
        && p.db == RowsAfter(old(p.db), aid.value, data)
        && statusEvery == (if data.InfoData? && data.info.reportRate != 0 then Some(data.info.reportRate) else old(statusEvery))
        && (!data.InfoData? ==> p.db == old(p.db))
        && (data.ShellOutput? || data.ShellError? ==> p.agents == old(p.agents))
        && (!data.ShellOutput? && !data.ShellError? ==> hub.wsSent == old(hub.wsSent) && r == Applied(old(p.db), aid.value, data))
        && (data.ShellOutput? ==>
              Forwarded(old(hub.wsSent), hub.wsSent, r, hub.binding, hub.shell.Keys, data.output.token, FShellOutput(data.output.(token := None))))
        && (data.ShellError? ==>
              Forwarded(old(hub.wsSent), hub.wsSent, r, hub.binding, hub.shell.Keys, data.shellError.token, FShellError(data.shellError.(token := None))))
    {
      var next := Accept(clientSeq, msg.seqNo);
      if next.None? {
        return Ok(());
      }
      clientSeq := next.value;
      if msg.data.None? {
        return Err(InvalidMessage);
      }
      r := Dispatch(p, hub, msg.data.value, now);
    }

    /** The match of `handle_msg` on an accepted message's payload. */
    method Dispatch(p: Plugin, hub: Shell.ShellHub, data: Data, now: int) returns (r: Result<(), SessionError>)
      requires aid.Some? && p.Valid()
      modifies this`statusEvery, p`agents, p`db, hub`wsSent
      ensures p.Valid()
      ensures p.agents == AgentsAfter(old(p.agents), old(p.db), aid.value, data, now)
      ensures p.db == RowsAfter(old(p.db), aid.value, data)
      ensures statusEvery == (if data.InfoData? && data.info.reportRate != 0 then Some(data.info.reportRate) else old(statusEvery))
      ensures !data.InfoData? ==> p.db == old(p.db)
      ensures data.ShellOutput? || data.ShellError? ==> p.agents == old(p.agents)
      ensures !data.ShellOutput? && !data.ShellError? ==> hub.wsSent == old(hub.wsSent) && r == Applied(old(p.db), aid.value, data)
      ensures data.ShellOutput? ==> var out := data.output;
        Forwarded(old(hub.wsSent), hub.wsSent, r, hub.binding, hub.shell.Keys, out.token, FShellOutput(out.(token := None)))
      ensures data.ShellError? ==> var err := data.shellError;
        Forwarded(old(hub.wsSent), hub.wsSent, r, hub.binding, hub.shell.Keys, err.token, FShellError(err.(token := None)))
    {
      if data.ShellOutput? || data.ShellError? {
        ShellLeavesRegistry(p.agents, p.db, aid.value, data, now);
        if data.ShellOutput? {
          r := Forward(hub, data.output.token, FShellOutput(data.output.(token := None)));
        } else {
          r := Forward(hub, data.shellError.token, FShellError(data.shellError.(token := None)));
        }
      } else {
        if data.InfoData? && data.info.reportRate != 0 {
          statusEvery := Some(data.info.reportRate);
        }
        r := Apply(p, aid.value, data, now);
      }
    }

    /**
     * The shell half of `handle_msg`: a token that is not a uuid is refused,
     * otherwise `data` goes to the websocket bound to the token, if any.
     */
    method Forward(hub: Shell.ShellHub, token: Option<string>, data: FrontendData) returns (r: Result<(), SessionError>)
      modifies hub`wsSent
      ensures Forwarded(old(hub.wsSent), hub.wsSent, r, hub.binding, hub.shell.Keys, token, data)
    {
      var t := ParseUuid(token.GetOr(""));
      if t.None? {
        return Err(BadUuid);
      }
      var route := ShellRoute(hub.binding, hub.shell.Keys, t.value);
      if route.Some? {
        hub.wsSent := hub.wsSent + [Shell.WsOut(route.value, FrontendMessage(None, Some(data)))];
      }
      r := Ok(());
    }

    /** The end of `process`: the status clock stops and a logged-in agent is logged out. */
    method Finish(p: Plugin)
      requires p.Valid()
      modifies this`statusEvery, this`bound, p`agents
      ensures p.Valid() && statusEvery.None?
      ensures old(aid).Some? ==> (!bound && (aid.value in old(p.agents) ==>
        p.agents == old(p.agents)[aid.value := LoggedOut(old(p.agents)[aid.value])]))
      ensures old(aid).Some? && aid.value !in old(p.agents) ==> p.agents == old(p.agents)
      ensures old(aid).None? ==> p.agents == old(p.agents) && bound == old(bound)
    {
      statusEvery := None;
      if aid.Some? {
        p.Logout(aid.value);
        bound := false;
      }
    }
  }

  // ---------------------------------------------------------------------
  // The offline alert
  // ---------------------------------------------------------------------

  /** The alert threshold in milliseconds as written: `timeout * 1000` in u32, wrapping in a release build. */
  function ThresholdAsWritten(timeout: U32): (ms: U32)
    ensures timeout * 1000 < U32_LIMIT ==> ms == timeout * 1000
    ensures ms <= timeout * 1000
  {
    (timeout * 1000) % U32_LIMIT
  }

  /** As written, a timeout one second longer than 4294967 s alerts after 704 ms. */
  lemma ThresholdWrapsAsWritten()
    ensures ThresholdAsWritten(4294967) == 4294967000
    ensures ThresholdAsWritten(4294968) == 704
  {
  }

  /** The alert threshold in milliseconds, computed without overflow. */
  function Threshold(timeout: U32): (ms: nat)
    ensures ms == timeout * 1000
  {
    timeout as nat * 1000
  }

  /** A longer timeout never lowers the threshold. */
  lemma ThresholdMonotone(t1: U32, t2: U32)
    requires t1 <= t2
    ensures Threshold(t1) <= Threshold(t2)
  {
  }

  /** The alert rule for one agent: not Online, silent for longer than the timeout, and not yet alerted for this report. */
  predicate ShouldAlert(a: Agent, alerted: map<Uuid, int>, now: int, timeout: U32)
    ensures ShouldAlert(a, alerted, now, timeout) ==>
      (a.status != Online && a.lastRsp.Some? && now - a.lastRsp.value > 1000)
    ensures a.id in alerted && a.lastRsp == Some(alerted[a.id]) ==> !ShouldAlert(a, alerted, now, timeout)
    ensures (a.lastRsp.Some? && a.lastRsp.value != 0 && a.id !in alerted && a.status != Online &&
      timeout != 0 && now - a.lastRsp.value > timeout * 1000) ==> ShouldAlert(a, alerted, now, timeout)
  {
    timeout != 0 && a.lastRsp.Some? && a.status != Online &&
    (if a.id in alerted then alerted[a.id] else 0) != a.lastRsp.value &&
    now - a.lastRsp.value > Threshold(timeout)
  }

  /** The alert rule as written, against the wrapped threshold. */
  predicate ShouldAlertAsWritten(a: Agent, alerted: map<Uuid, int>, now: int, timeout: U32)
    ensures ShouldAlert(a, alerted, now, timeout) ==> ShouldAlertAsWritten(a, alerted, now, timeout)
    ensures ShouldAlertAsWritten(a, alerted, now, timeout) ==> a.status != Online && a.lastRsp.Some? && now > a.lastRsp.value
    ensures a.id in alerted && a.lastRsp == Some(alerted[a.id]) ==> !ShouldAlertAsWritten(a, alerted, now, timeout)
  {
    timeout != 0 && a.lastRsp.Some? && a.status != Online &&
    (if a.id in alerted then alerted[a.id] else 0) != a.lastRsp.value &&
    now - a.lastRsp.value > ThresholdAsWritten(timeout)
  }

  /** The two rules agree on every timeout whose threshold fits in u32. */
  lemma AlertAgreesBelowWrap(a: Agent, alerted: map<Uuid, int>, now: int, timeout: U32)
    requires timeout <= 4294967
    ensures ShouldAlertAsWritten(a, alerted, now, timeout) <==> ShouldAlert(a, alerted, now, timeout)
  {
    assert ThresholdAsWritten(timeout) == Threshold(timeout);
  }

  /** As written, a timeout of 4294968 s alerts about an agent silent for under a second. */
  lemma EarlyAlertAsWritten(a: Agent, alerted: map<Uuid, int>)
    requires a.lastRsp == Some(1) && a.status != Online && a.id !in alerted
    ensures ShouldAlertAsWritten(a, alerted, 1000, 4294968)
    ensures !ShouldAlert(a, alerted, 1000, 4294968)
  {
    ThresholdWrapsAsWritten();
  }

  /** The alert record after a tick over `agents`. */
  function AfterTick(alerted: map<Uuid, int>, agents: map<Uuid, Agent>, now: int, timeout: U32): (m: map<Uuid, int>)
    requires forall k | k in agents :: agents[k].id == k
    ensures m.Keys == alerted.Keys + (set k | k in agents && ShouldAlert(agents[k], alerted, now, timeout))
    ensures forall k | k in m :: (m[k] ==
      if k in agents && ShouldAlert(agents[k], alerted, now, timeout) then agents[k].lastRsp.value else alerted[k])
  {
    map k | k in alerted.Keys + agents.Keys && (k in alerted || ShouldAlert(agents[k], alerted, now, timeout)) ::
      if k in agents && ShouldAlert(agents[k], alerted, now, timeout) then agents[k].lastRsp.value else alerted[k]
  }

  /** The agents of `agents` whose ids are in `done`. */
  function Restrict(agents: map<Uuid, Agent>, done: set<Uuid>): (m: map<Uuid, Agent>)
    ensures forall k :: k in m <==> k in agents && k in done
    ensures forall k | k in m :: m[k] == agents[k]
  {
    map k | k in agents && k in done :: agents[k]
  }

  /** Two alert records with the same keys and the same times are equal. */
  lemma SameRecord(m1: map<Uuid, int>, m2: map<Uuid, int>)
    requires forall x :: x in m1 <==> x in m2
    requires forall x | x in m1 :: m1[x] == m2[x]
    ensures m1 == m2
  {
  }

  /** Visiting one more agent extends the alert record by that agent's alert, if any. */
  lemma TickStep(before: map<Uuid, int>, agents: map<Uuid, Agent>, done: set<Uuid>, k: Uuid, now: int, timeout: U32)
    requires forall x | x in agents :: agents[x].id == x
    requires k in agents && k !in done
    ensures var prior := AfterTick(before, Restrict(agents, done), now, timeout);
      AfterTick(before, Restrict(agents, done + {k}), now, timeout) ==
        if ShouldAlert(agents[k], before, now, timeout) then prior[k := agents[k].lastRsp.value] else prior
  {
    var r0 := Restrict(agents, done);
    var r1 := Restrict(agents, done + {k});
    var prior := AfterTick(before, r0, now, timeout);
    var next := AfterTick(before, r1, now, timeout);
    var fires := ShouldAlert(agents[k], before, now, timeout);
    var want := if fires then prior[k := agents[k].lastRsp.value] else prior;
    forall x
      ensures x in next <==> x in want
    {
      assert x in r1 <==> x in r0 || x == k;
    }
    forall x | x in next
      ensures next[x] == want[x]
    {
      assert x in r1 <==> x in r0 || x == k;
    }
    SameRecord(next, want);
  }

  /**
   * At most one alert per agent per report: after a tick, an agent whose
   * last report is unchanged does not alert again, whatever the clock and
   * the timeout.
   */
  lemma AlertAtMostOnce(alerted: map<Uuid, int>, agents: map<Uuid, Agent>, now: int, timeout: U32,
                        later: Agent, now2: int, timeout2: U32)
    requires forall k | k in agents :: agents[k].id == k
    requires later.id in agents && ShouldAlert(agents[later.id], alerted, now, timeout)
    requires later.lastRsp == agents[later.id].lastRsp
    ensures !ShouldAlert(later, AfterTick(alerted, agents, now, timeout), now2, timeout2)
  {
    var m := AfterTick(alerted, agents, now, timeout);
    assert later.id in m && m[later.id] == later.lastRsp.value;
  }

  /** An agent that reports again after an alert can alert again for its new silence. */
  lemma AlertRearms(alerted: map<Uuid, int>, a: Agent, rsp2: int, now: int, timeout: U32)
    requires a.lastRsp.Some? && a.id in alerted && alerted[a.id] == a.lastRsp.value && rsp2 != a.lastRsp.value
    requires a.status != Online && timeout != 0 && now - rsp2 > Threshold(timeout)
    ensures ShouldAlert(a.(lastRsp := Some(rsp2)), alerted, now, timeout)
  {
  }

  /** The `alerted` map of `Listener::run`. */
  class AlertMonitor {
    var alerted: map<Uuid, int>

    constructor ()
      ensures alerted == map[]
    {
      alerted := map[];
    }

    /**
     * One tick of the alert clock: visits every agent once and records the
     * report each alert is about. `fired` lists the agents alerted, each once.
     */
    method Tick(agents: map<Uuid, Agent>, now: int, timeout: U32) returns (fired: seq<Uuid>)
      requires forall k | k in agents :: agents[k].id == k
      modifies this
      ensures alerted == AfterTick(old(alerted), agents, now, timeout)
      ensures forall k :: k in fired <==> k in agents && ShouldAlert(agents[k], old(alerted), now, timeout)
      ensures forall i, j | 0 <= i < j < |fired| :: fired[i] != fired[j]
    {
      ghost var before := alerted;
      ghost var done: set<Uuid> := {};
      fired := [];
      if timeout == 0 {
        assert AfterTick(before, agents, now, timeout) == before;
        return;
      }
      var todo := agents.Keys;
      assert Restrict(agents, done) == map[];
      while todo != {}
        invariant todo <= agents.Keys && done == agents.Keys - todo
        invariant alerted == AfterTick(before, Restrict(agents, done), now, timeout)
        invariant forall k :: k in fired <==> k in done && ShouldAlert(agents[k], before, now, timeout)
        invariant forall i, j | 0 <= i < j < |fired| :: fired[i] != fired[j]
        decreases todo
      {
        var k :| k in todo;
        fired := Visit(agents, k, now, timeout, fired, before, done);
        todo := todo - {k};
        done := done + {k};
      }
      assert Restrict(agents, done) == agents;
    }

    /** One agent of a tick: it alerts, and is recorded, exactly when the rule holds for it. */
    method Visit(agents: map<Uuid, Agent>, k: Uuid, now: int, timeout: U32, fired: seq<Uuid>,
                 ghost before: map<Uuid, int>, ghost done: set<Uuid>) returns (fired': seq<Uuid>)
      requires forall x | x in agents :: agents[x].id == x
      requires done <= agents.Keys && k in agents && k !in done
      requires alerted == AfterTick(before, Restrict(agents, done), now, timeout)
      requires forall x :: x in fired <==> x in done && ShouldAlert(agents[x], before, now, timeout)
      requires forall i, j | 0 <= i < j < |fired| :: fired[i] != fired[j]
      modifies this`alerted
      ensures alerted == AfterTick(before, Restrict(agents, done + {k}), now, timeout)
      ensures forall x :: x in fired' <==> x in done + {k} && ShouldAlert(agents[x], before, now, timeout)
      ensures forall i, j | 0 <= i < j < |fired'| :: fired'[i] != fired'[j]
    {
      var a := agents[k];
      TickStep(before, agents, done, k, now, timeout);
      assert ShouldAlert(a, alerted, now, timeout) == ShouldAlert(a, before, now, timeout);
      fired' := fired;
      if ShouldAlert(a, alerted, now, timeout) {
        alerted := alerted[a.id := a.lastRsp.value];
        fired' := fired + [k];
      }
    }
  }

  // ---------------------------------------------------------------------
  // The server
  // ---------------------------------------------------------------------

  datatype StartError = BindFailed

  /** The ids `start` sends to the listener: those not already connecting. */
  function Queued(ids: seq<Uuid>, connecting: set<Uuid>): (q: seq<Uuid>)
    ensures forall x :: x in q <==> x in ids && x !in connecting
    ensures |q| <= |ids|
  {
    if ids == [] then []
    else
      assert forall x :: x in ids <==> x == ids[0] || x in ids[1..];
      (if ids[0] in connecting then [] else [ids[0]]) + Queued(ids[1..], connecting)
  }

  /** `Server`: whether it runs, and the passive agents it is dialling. */
  class Server {
    var running: bool
    /** `passive_channel` and `shutdown_tx` hold a sender. */
    var passiveChannel: bool
    var shutdownTx: bool
    /** `passive_agent`: the passive agents being dialled. */
    var passiveAgent: set<Uuid>
    /** Passive ids sent to the listener and not yet taken. */
    var passiveQueue: seq<Uuid>
    /** A shutdown signal was sent and the listener has not stopped yet. */
    var stopRequested: bool

    /** The three fields `start` sets together and resets together. */
    ghost predicate Valid()
      reads this
    {
      running == passiveChannel == shutdownTx &&
      (!running ==> !stopRequested && passiveQueue == [])
    }

    /** `Server::new`: stopped. */
    constructor ()
      ensures Valid() && !running && passiveAgent == {} && passiveQueue == []
    {
      running, passiveChannel, shutdownTx := false, false, false;
      passiveAgent := {};
      passiveQueue := [];
      stopRequested := false;
    }

    /** `is_running`. */
    function IsRunning(): bool
      reads this
    {
      running
    }

    /** `connecting`. */
    function Connecting(): set<Uuid>
      reads this
    {
      passiveAgent
    }

    /**
     * `start` up to listening: a failed bind changes nothing; otherwise the
     * channels are created, the server runs, and every passive agent in
     * `passiveIds` that is not already connecting is sent to the listener.
     */
    method Start(bindOk: bool, passiveIds: seq<Uuid>) returns (r: Result<(), StartError>)
      requires Valid()
      modifies this`running, this`passiveChannel, this`shutdownTx, this`passiveQueue, this`stopRequested
      ensures Valid()
      ensures !bindOk ==> r == Err(BindFailed) && unchanged(this)
      ensures bindOk ==> r.Ok? && running && !stopRequested && passiveQueue == Queued(passiveIds, passiveAgent)
    {
      if !bindOk {
        return Err(BindFailed);
      }
      passiveChannel := true;
      shutdownTx := true;
      running := true;
      stopRequested := false;
      passiveQueue := [];
      var i := 0;
      while i < |passiveIds|
        invariant 0 <= i <= |passiveIds| && Valid() && running && !stopRequested
        invariant passiveQueue == Queued(passiveIds[..i], passiveAgent)
      {
        var _ := Connect(passiveIds[i]);
        QueuedSnoc(passiveIds[..i], passiveIds[i], passiveAgent);
        assert passiveIds[..i + 1] == passiveIds[..i] + [passiveIds[i]];
        i := i + 1;
      }
      assert passiveIds[..i] == passiveIds;
      r := Ok(());
    }

    /** The tail of `start` once the listener has stopped: nothing runs and the channels are gone. */
    method Stopped()
      requires Valid() && stopRequested
      modifies this`running, this`passiveChannel, this`shutdownTx, this`passiveQueue, this`stopRequested
      ensures Valid() && !running && !passiveChannel && !shutdownTx && passiveQueue == []
    {
      running, shutdownTx, passiveChannel := false, false, false;
      passiveQueue := [];
      stopRequested := false;
    }

    /** `stop`: signals shutdown; true iff a server was there to signal. */
    method Stop() returns (sent: bool)
      requires Valid()
      modifies this`stopRequested
      ensures Valid() && sent == old(shutdownTx)
      ensures stopRequested == (old(stopRequested) || old(shutdownTx))
    {
      sent := shutdownTx;
      if sent {
        stopRequested := true;
      }
    }

    /**
     * `connect`: an agent already connecting is reported as connected
     * without sending; otherwise the id is sent when the server runs.
     */
    method Connect(apid: Uuid) returns (ok: bool)
      requires Valid()
      modifies this`passiveQueue
      ensures Valid()
      ensures apid in passiveAgent ==> ok && passiveQueue == old(passiveQueue)
      ensures apid !in passiveAgent ==> (ok == passiveChannel &&
        passiveQueue == old(passiveQueue) + (if passiveChannel then [apid] else []))
    {
      if apid in passiveAgent {
        return true;
      }
      ok := passiveChannel;
      if ok {
        passiveQueue := passiveQueue + [apid];
      }
    }

    /** The listener takes the next passive id and starts dialling it. */
    method TakePassive() returns (apid: Uuid)
      requires Valid() && passiveQueue != []
      modifies this`passiveQueue, this`passiveAgent
      ensures Valid()
      ensures apid == old(passiveQueue)[0] && passiveQueue == old(passiveQueue)[1..]
      ensures passiveAgent == old(passiveAgent) + {apid}
    {
      apid := passiveQueue[0];
      passiveQueue := passiveQueue[1..];
      passiveAgent := passiveAgent + {apid};
    }

    /** A dialling loop ended: the id is no longer connecting. */
    method PassiveEnded(apid: Uuid)
      modifies this`passiveAgent
      ensures passiveAgent == old(passiveAgent) - {apid}
    {
      passiveAgent := passiveAgent - {apid};
    }
  }

  lemma {:induction false} QueuedSnoc(ids: seq<Uuid>, x: Uuid, connecting: set<Uuid>)
    ensures Queued(ids + [x], connecting) == Queued(ids, connecting) + (if x in connecting then [] else [x])
  {
    var t := if x in connecting then [] else [x];
    if ids == [] {
      assert [x][1..] == [];
      QueuedCons([x], connecting);
      assert Queued([x], connecting) == t + [];
    } else {
      assert (ids + [x])[0] == ids[0] && (ids + [x])[1..] == ids[1..] + [x];
      QueuedSnoc(ids[1..], x, connecting);
      QueuedCons(ids + [x], connecting);
      QueuedCons(ids, connecting);
      var h := if ids[0] in connecting then [] else [ids[0]];
      ConcatAssoc(h, Queued(ids[1..], connecting), t);
    }
  }

  lemma ConcatAssoc(a: seq<Uuid>, b: seq<Uuid>, c: seq<Uuid>)
    ensures a + (b + c) == (a + b) + c
  {
  }

  /** One step of `Queued`: the first id, unless it is connecting, then the rest. */
  lemma QueuedCons(ids: seq<Uuid>, connecting: set<Uuid>)
    requires ids != []
    ensures Queued(ids, connecting) == (if ids[0] in connecting then [] else [ids[0]]) + Queued(ids[1..], connecting)
  {
  }
}
