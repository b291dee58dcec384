/**
 * The browser shell sessions of the monitor plugin (monitor/src/ws.rs).
 *
 * Each websocket connection owns a `ShellService` that is bound to at most one
 * agent and one shell token. The hub holds the sessions by websocket id and
 * the token bindings `shell_binding` that route agent shell output back to a
 * session. What the plugin sends to a browser and which websockets it closes
 * are recorded in order; the protobuf decoding of a websocket frame is not
 * modelled (a frame arrives already decoded, or as None when it does not decode).
 */
module Shell {
  import opened Wrappers
  import opened Types
  import opened Messages
  import opened Service

  datatype WsError =
    | DecodeError         // the frame is not a FrontendMessage
    | InvalidData         // "Invalid data": a message without data
    | InvalidMessageType  // "Invalid message type"
    | InvalidMessage      // "Invalid message": ShellConnect without an agent id
    | BadUuid             // a token or agent id that is not a uuid
    | NotConnected        // "Shell does not connect"
    | AgentMissing        // "Agent does not exist"
    | AgentOffline        // "Agent is offline"

  /** The text echoed to the browser; the decoder's and the uuid parser's own texts are not modelled. */
  function ErrorText(e: WsError): (t: string)
    ensures t != ""
  {
    match e
    case DecodeError => "failed to decode message"
    case InvalidData => "Invalid data"
    case InvalidMessageType => "Invalid message type"
    case InvalidMessage => "Invalid message"
    case BadUuid => "invalid uuid"
    case NotConnected => "Shell does not connect"
    case AgentMissing => "Agent does not exist"
    case AgentOffline => "Agent is offline"
  }

  /**
   * `send_agent` as a function of the registry: the messages it pushes, or its
   * error. A session bound to an agent with shell disabled succeeds silently.
   */
  function SendAgentOutcome(agents: map<Uuid, Agent>, agentId: Option<Uuid>, data: Data): (r: Result<seq<Outgoing>, WsError>)
    ensures agentId.None? ==> r == Err(NotConnected)
    ensures agentId.Some? && agentId.value !in agents ==> r == Err(AgentMissing)
    ensures r.Ok? ==> agentId.Some? && agentId.value in agents
    ensures r.Ok? && r.value != [] ==> (r.value == [Outgoing(agentId.value, data)] &&
      agents[agentId.value].channel && !agents[agentId.value].disableShell)
    ensures agentId.Some? && agentId.value in agents && agents[agentId.value].disableShell ==> r == Ok([])
    ensures r == Err(AgentOffline) <==> (agentId.Some? && agentId.value in agents &&
      !agents[agentId.value].disableShell && !agents[agentId.value].channel)
  {
    if agentId.None? then Err(NotConnected)
    else if agentId.value !in agents then Err(AgentMissing)
    else
      var a := agents[agentId.value];
      if a.disableShell then Ok([])
      else if !a.channel then Err(AgentOffline)
      else Ok([Outgoing(agentId.value, data)])
  }

  /** What a call that ignores the outcome of `send_agent` pushes. */
  function Pushed(outcome: Result<seq<Outgoing>, WsError>): seq<Outgoing> {
    if outcome.Ok? then outcome.value else []
  }

  /** What `cleanup` pushes: a ShellDisconnect for the session's token, when an agent is connected. */
  function CleanupPushed(agents: map<Uuid, Agent>, agentId: Option<Uuid>, token: Uuid): (out: seq<Outgoing>)
    ensures agentId.None? ==> out == []
    ensures out != [] ==> out == [Outgoing(agentId.value, ShellDisconnect(ShellDisconnectMsg(Some(token))))]
  {
    if agentId.Some? then Pushed(SendAgentOutcome(agents, agentId, ShellDisconnect(ShellDisconnectMsg(Some(token))))) else []
  }

  /** The token bindings after `cleanup` as written: the token is reset first, so the nil token is removed. */
  function CleanupBindingAsWritten(binding: map<Uuid, Uuid>, token: Uuid): (b: map<Uuid, Uuid>)
    ensures b == binding - {NIL}
  {
    var reset := NIL;
    binding - {reset}
  }

  /** The token bindings after `cleanup` as evidently intended: the session's own token is removed. */
  function CleanupBinding(binding: map<Uuid, Uuid>, token: Uuid): (b: map<Uuid, Uuid>)
    ensures token !in b
    ensures forall t | t != token :: t in b <==> t in binding
    ensures forall t | t in b :: b[t] == binding[t]
  {
    binding - {token}
  }

  /** As written, a session that ends keeps routing its old token's output to its websocket id. */
  lemma StaleBindingAsWritten(token: Uuid, session: Uuid)
    requires token != NIL
    ensures var b := CleanupBindingAsWritten(map[token := session], token);
      token in b && b[token] == session
    ensures token !in CleanupBinding(map[token := session], token)
  {
  }

  /** Ending a session twice leaves the bindings as ending it once. */
  lemma CleanupBindingIdempotent(binding: map<Uuid, Uuid>, token: Uuid)
    ensures CleanupBinding(CleanupBinding(binding, token), token) == CleanupBinding(binding, token)
  {
  }

  /** `ShellService`: one websocket's shell session. */
  class ShellService {
    const id: Uuid
    var agentId: Option<Uuid>
    var token: Uuid

    /** `ShellService::new`: not connected, nil token. */
    constructor (id: Uuid)
      ensures this.id == id && agentId.None? && token == NIL
    {
      this.id := id;
      agentId := None;
      token := NIL;
    }

    /** `send_agent`. */
    method SendAgent(p: Plugin, data: Data) returns (r: Result<(), WsError>)
      modifies p`outbox
      ensures var outcome := SendAgentOutcome(p.agents, agentId, data);
        (r.Ok? <==> outcome.Ok?) &&
        (r.Err? ==> r.error == outcome.error) &&
        p.outbox == old(p.outbox) + Pushed(outcome)
    {
      if agentId.None? {
        return Err(NotConnected);
      }
      if agentId.value !in p.agents {
        return Err(AgentMissing);
      }
      var a := p.agents[agentId.value];
      if !a.disableShell {
        if !a.channel {
          return Err(AgentOffline);
        }
        p.outbox := p.outbox + [Outgoing(agentId.value, data)];
      }
      r := Ok(());
    }

    /**
     * `cleanup`: tells the agent to close the shell when one is connected,
     * then forgets the agent and the token and drops the token's binding.
     */
    method Cleanup(hub: ShellHub, p: Plugin)
      modifies this`agentId, this`token, hub`binding, p`outbox
      ensures agentId.None? && token == NIL
      ensures hub.binding == CleanupBinding(old(hub.binding), old(token))
      ensures p.outbox == old(p.outbox) + CleanupPushed(p.agents, old(agentId), old(token))
    {
      if agentId.Some? {
        var _ := SendAgent(p, ShellDisconnect(ShellDisconnectMsg(Some(token))));
      }
      var old_token := token;
      agentId := None;
      token := NIL;
      hub.binding := CleanupBinding(hub.binding, old_token);
    }

    /**
     * `recv` on a decoded websocket frame. ShellConnect rebinds the session:
     * it cleans up, binds the new token to this session, then takes the agent
     * id from the message; ShellInput and ShellResize are forwarded under the
     * session's token; ShellDisconnect cleans up.
     */
    method Recv(hub: ShellHub, p: Plugin, frame: Option<FrontendMessage>) returns (r: Result<(), WsError>)
      modifies this`agentId, this`token, hub`binding, p`outbox
      ensures Received(this, hub, p, frame, r)
    {
      if frame.None? {
        return Err(DecodeError);
      }
      var msg := frame.value;
      if msg.data.None? {
        return Err(InvalidData);
      }
      match msg.data.value
      case FShellConnect(connect) =>
        Cleanup(hub, p);
        var newToken := ParseUuid(connect.token);
        if newToken.None? {
          return Err(BadUuid);
        }
        hub.binding := hub.binding[newToken.value := id];
        if msg.id.None? {
          return Err(InvalidMessage);
        }
        var agent := ParseUuid(msg.id.value);
        if agent.None? {
          return Err(BadUuid);
        }
        agentId := agent;
        token := newToken.value;
        r := SendAgent(p, ShellConnect(connect));
      case FShellInput(input) =>
        r := SendAgent(p, ShellInput(input.(token := Some(token))));
      case FShellResize(resize) =>
        r := SendAgent(p, ShellResize(resize.(token := Some(token))));
      case FShellDisconnect(_) =>
        Cleanup(hub, p);
        r := Ok(());
      case _ =>
        r := Err(InvalidMessageType);
    }
  }

  /**
   * What `recv` did to session `s`, the token bindings and the agents'
   * channels, and what it answered, on decoded frame `frame`. A frame that
   * fails to decode, has no payload or carries a payload only agents send is
   * refused and changes nothing.
   */
  twostate predicate Received(s: ShellService, hub: ShellHub, p: Plugin, frame: Option<FrontendMessage>,
                              new r: Result<(), WsError>)
    reads s, hub`binding, p`agents, p`outbox
  {
    var session := s.agentId == old(s.agentId) && s.token == old(s.token);
    var quiet := session && hub.binding == old(hub.binding) && p.outbox == old(p.outbox);
    && (frame.None? ==> r == Err(DecodeError) && quiet)
    && (frame.Some? && frame.value.data.None? ==> r == Err(InvalidData) && quiet)
    && (frame.Some? && frame.value.data.Some? && (frame.value.data.value.FShellOutput? || frame.value.data.value.FShellError?) ==>
      r == Err(InvalidMessageType) && quiet)
    && (frame.Some? && frame.value.data.Some? && frame.value.data.value.FShellDisconnect? ==> (
      r.Ok? && s.agentId.None? && s.token == NIL && hub.binding == CleanupBinding(old(hub.binding), old(s.token)) &&
      p.outbox == old(p.outbox) + CleanupPushed(p.agents, old(s.agentId), old(s.token))))
    && (frame.Some? && frame.value.data.Some? && frame.value.data.value.FShellInput? ==> (
      var data := ShellInput(frame.value.data.value.input.(token := Some(s.token)));
      var outcome := SendAgentOutcome(p.agents, s.agentId, data);
      session && hub.binding == old(hub.binding) && (r.Ok? <==> outcome.Ok?) && (r.Err? ==> r.error == outcome.error) &&
      p.outbox == old(p.outbox) + Pushed(outcome)))
    && (frame.Some? && frame.value.data.Some? && frame.value.data.value.FShellResize? ==> (
      var data := ShellResize(frame.value.data.value.resize.(token := Some(s.token)));
      var outcome := SendAgentOutcome(p.agents, s.agentId, data);
      session && hub.binding == old(hub.binding) && (r.Ok? <==> outcome.Ok?) && (r.Err? ==> r.error == outcome.error) &&
      p.outbox == old(p.outbox) + Pushed(outcome)))
    && (frame.Some? && frame.value.data.Some? && frame.value.data.value.FShellConnect? ==> (
      var connect := frame.value.data.value.connect;
      var cleared := CleanupBinding(old(hub.binding), old(s.token));
      var newToken := ParseUuid(connect.token);
      var agent := if frame.value.id.Some? then ParseUuid(frame.value.id.value) else None;
      (newToken.None? ==> r == Err(BadUuid) && hub.binding == cleared && s.agentId.None? && s.token == NIL) &&
      (newToken.Some? ==> hub.binding == cleared[newToken.value := s.id]) &&
      (newToken.Some? && frame.value.id.None? ==> r == Err(InvalidMessage) && s.agentId.None? && s.token == NIL) &&
      (newToken.Some? && frame.value.id.Some? && agent.None? ==> r == Err(BadUuid) && s.agentId.None? && s.token == NIL) &&
      (!(newToken.Some? && agent.Some?) ==> p.outbox == old(p.outbox) + CleanupPushed(p.agents, old(s.agentId), old(s.token))) &&
      (newToken.Some? && agent.Some? ==> (
        var outcome := SendAgentOutcome(p.agents, agent, ShellConnect(connect));
        s.agentId == agent && s.token == newToken.value &&
        (r.Ok? <==> outcome.Ok?) && (r.Err? ==> r.error == outcome.error) &&
        p.outbox == old(p.outbox) + CleanupPushed(p.agents, old(s.agentId), old(s.token)) + Pushed(outcome)))))
  }

  /** The frames `service` sends back after `recv` answered `r`: the error, if there is one. */
  function Answer(session: Uuid, r: Result<(), WsError>): (out: seq<WsOut>)
    ensures r.Ok? ==> out == []
    ensures r.Err? ==> out == [WsOut(session, ErrorFrame(r.error))]
  {
    if r.Err? then [WsOut(session, ErrorFrame(r.error))] else []
  }

  /** A websocket frame sent to browser session `session`. */
  datatype WsOut = WsOut(session: Uuid, msg: FrontendMessage)

  /** The websocket events the dispatcher handles. */
  datatype WsEvent = Connect | Binary(frame: Option<FrontendMessage>) | Close | Other

  /** The frame that reports a failed `recv` to the browser. */
  function ErrorFrame(e: WsError): (m: FrontendMessage)
    ensures m.id.None? && m.data.Some? && m.data.value.FShellError?
    ensures m.data.value.shellError.token.None? && m.data.value.shellError.error == ErrorText(e)
  {
    FrontendMessage(None, Some(FShellError(ShellErrorMsg(None, ErrorText(e)))))
  }

  /** `Plugin::shell` and `Plugin::shell_binding`, with what the plugin sent to browsers. */
  class ShellHub {
    var shell: map<Uuid, ShellService>
    /** Shell token to websocket id. */
    var binding: map<Uuid, Uuid>
    var wsSent: seq<WsOut>
    var wsClosed: seq<Uuid>

    /** Every session is filed under its own websocket id. */
    ghost predicate Valid()
      reads this
    {
      forall k | k in shell :: shell[k].id == k
    }

    constructor ()
      ensures Valid() && shell == map[] && binding == map[] && wsSent == [] && wsClosed == []
    {
      shell, binding, wsSent, wsClosed := map[], map[], [], [];
    }

    /** Every session other than `id` is still filed, as the same object with the same agent and token. */
    twostate predicate OthersKept(id: Uuid)
      reads this, shell.Values
    {
      forall k | k in old(shell) && k != id :: (k in shell && shell[k] == old(shell[k]) &&
        shell[k].agentId == old(shell[k].agentId) && shell[k].token == old(shell[k].token))
    }

    /**
     * The websocket `service` dispatcher for connection `id`. Connect files a
     * new session (the one it replaces is dropped, which cleans it up); Binary
     * hands the frame to the session and echoes an error back as ShellError,
     * or closes the websocket when no session exists; Close drops the session.
     */
    method Service(id: Uuid, ev: WsEvent, p: Plugin)
      requires Valid()
      modifies this, p`outbox, shell.Values
      ensures Valid() && OthersKept(id)
      ensures ev.Connect? ==> (id in shell && fresh(shell[id]) && shell[id].agentId.None? && shell[id].token == NIL &&
        shell == old(shell)[id := shell[id]] && wsSent == old(wsSent) && wsClosed == old(wsClosed) &&
        (id !in old(shell) ==> binding == old(binding) && p.outbox == old(p.outbox)) &&
        (id in old(shell) ==> (binding == CleanupBinding(old(binding), old(shell[id].token)) &&
          p.outbox == old(p.outbox) + CleanupPushed(p.agents, old(shell[id].agentId), old(shell[id].token)))))
      ensures ev.Close? ==> (shell == old(shell) - {id} && wsSent == old(wsSent) && wsClosed == old(wsClosed) &&
        (id !in old(shell) ==> binding == old(binding) && p.outbox == old(p.outbox)) &&
        (id in old(shell) ==> (binding == CleanupBinding(old(binding), old(shell[id].token)) &&
          p.outbox == old(p.outbox) + CleanupPushed(p.agents, old(shell[id].agentId), old(shell[id].token)))))
      ensures ev.Binary? && id !in old(shell) ==> (shell == old(shell) && binding == old(binding) &&
        wsSent == old(wsSent) && wsClosed == old(wsClosed) + [id] && p.outbox == old(p.outbox))
      ensures ev.Binary? && id in old(shell) ==> (shell == old(shell) && wsClosed == old(wsClosed) &&
        exists r :: Received(shell[id], this, p, ev.frame, r) && wsSent == old(wsSent) + Answer(id, r))
      ensures ev.Other? ==> unchanged(this, p)
    {
      match ev
      case Connect => Open(id, p);
      case Binary(frame) => Deliver(id, frame, p);
      case Close => Drop(id, p);
      case Other =>
    }

    /** Connect: a new session is filed under `id`; the one it replaces is cleaned up. */
    method Open(id: Uuid, p: Plugin)
      requires Valid()
      modifies this, p`outbox, shell.Values
      ensures Valid() && OthersKept(id)
      ensures id in shell && fresh(shell[id]) && shell[id].agentId.None? && shell[id].token == NIL
      ensures shell == old(shell)[id := shell[id]] && wsSent == old(wsSent) && wsClosed == old(wsClosed)
      ensures id !in old(shell) ==> binding == old(binding) && p.outbox == old(p.outbox)
      ensures id in old(shell) ==> (binding == CleanupBinding(old(binding), old(shell[id].token)) &&
        p.outbox == old(p.outbox) + CleanupPushed(p.agents, old(shell[id].agentId), old(shell[id].token)))
    {
      var s := new ShellService(id);
      var prior := if id in shell then Some(shell[id]) else None;
      shell := shell[id := s];
      if prior.Some? {
        prior.value.Cleanup(this, p);
      }
    }

    /** Binary: the frame goes to the session of `id`, or the websocket is closed when there is none. */
    method Deliver(id: Uuid, frame: Option<FrontendMessage>, p: Plugin)
      requires Valid()
      modifies this, p`outbox, shell.Values
      ensures Valid() && OthersKept(id) && shell == old(shell) && wsClosed == old(wsClosed) + (if id in shell then [] else [id])
      ensures id !in old(shell) ==> binding == old(binding) && wsSent == old(wsSent) && p.outbox == old(p.outbox)
      ensures id in old(shell) ==>
        exists r :: Received(shell[id], this, p, frame, r) && wsSent == old(wsSent) + Answer(id, r)
    {
      if id in shell {
        var r := shell[id].Recv(this, p, frame);
        wsSent := wsSent + Answer(id, r);
      } else {
        wsClosed := wsClosed + [id];
      }
    }

    /** Close: the session of `id`, if any, is removed and cleaned up. */
    method Drop(id: Uuid, p: Plugin)
      requires Valid()
      modifies this, p`outbox, shell.Values
      ensures Valid() && OthersKept(id)
      ensures shell == old(shell) - {id} && wsSent == old(wsSent) && wsClosed == old(wsClosed)
      ensures id !in old(shell) ==> binding == old(binding) && p.outbox == old(p.outbox)
      ensures id in old(shell) ==> (binding == CleanupBinding(old(binding), old(shell[id].token)) &&
        p.outbox == old(p.outbox) + CleanupPushed(p.agents, old(shell[id].agentId), old(shell[id].token)))
    {
      if id in shell {
        var s := shell[id];
        shell := shell - {id};
        s.Cleanup(this, p);
      }
    }
  }
}
