/**
 * The shapes of the protocol messages exchanged with agents (`Message`,
 * `message::Data`) and with the browser's shell websocket
 * (`FrontendMessage`, `frontend_message::Data`). Their protobuf encoding is
 * not modelled; only the fields the plugin reads or writes are kept, and the
 * shell payload fields the plugin only forwards are kept as opaque `body` bytes.
 */
module Messages {
  import opened Wrappers
  import opened Types

  datatype HandshakeStatus = Success | Logined

  /** `StatusRspMessage` without the `f32` cpu reading. */
  datatype StatusRsp = StatusRsp(
    time: int,
    memory: U64,
    totalMemory: U64,
    disk: U64,
    totalDisk: U64,
    bandUp: U64,
    bandDown: U64)

  /** `InfoMessage`. */
  datatype Info = Info(
    version: string,
    os: Option<string>,
    system: Option<string>,
    arch: Option<string>,
    hostname: Option<string>,
    ip: Option<string>,
    endpoint: string,
    disableShell: bool,
    reportRate: U32)

  datatype ShellConnectMsg = ShellConnectMsg(token: string, body: Bytes)
  datatype ShellInputMsg = ShellInputMsg(token: Option<string>, body: Bytes)
  datatype ShellResizeMsg = ShellResizeMsg(token: Option<string>, body: Bytes)
  datatype ShellDisconnectMsg = ShellDisconnectMsg(token: Option<string>)
  datatype ShellOutputMsg = ShellOutputMsg(token: Option<string>, body: Bytes)
  datatype ShellErrorMsg = ShellErrorMsg(token: Option<string>, error: string)

  /** `CommandRspMessage`: the command id as text, its exit code once finished, and new output. */
  datatype CommandRspMsg = CommandRspMsg(id: string, code: Option<int>, output: Bytes)

  /** `FileRspMessage`: the file id as text, a result code and a message. */
  datatype FileRspMsg = FileRspMsg(id: string, code: U32, message: string)

  /** `message::Data`, the payload of a message to or from an agent. */
  datatype Data =
    | HandshakeReq(uid: string)
    | HandshakeRsp(handshake: HandshakeStatus, traceId: string)
    | StatusReq(time: int)
    | StatusRspData(status: StatusRsp)
    | InfoData(info: Info)
    | CommandReq(commandId: Uuid, cmd: string)
    | CommandRsp(commandRsp: CommandRspMsg)
    | CommandKill(killId: Uuid, force: bool)
    | FileReq(fileId: Uuid, path: string, content: Bytes)
    | FileRsp(fileRsp: FileRspMsg)
    | ShellConnect(connect: ShellConnectMsg)
    | ShellInput(input: ShellInputMsg)
    | ShellResize(resize: ShellResizeMsg)
    | ShellDisconnect(disconnect: ShellDisconnectMsg)
    | ShellOutput(output: ShellOutputMsg)
    | ShellError(shellError: ShellErrorMsg)
    | Reconnect
    | Update(binary: Bytes, crc32: U32)

  /** `Message`: a sequence number (u64) and an optional payload. */
  datatype Message = Message(seqNo: U64, data: Option<Data>)

  /** `frontend_message::Data`, the payload of a websocket message. */
  datatype FrontendData =
    | FShellConnect(connect: ShellConnectMsg)
    | FShellInput(input: ShellInputMsg)
    | FShellResize(resize: ShellResizeMsg)
    | FShellDisconnect(disconnect: ShellDisconnectMsg)
    | FShellOutput(output: ShellOutputMsg)
    | FShellError(shellError: ShellErrorMsg)

  /** `FrontendMessage`: the target agent id (as text) and an optional payload. */
  datatype FrontendMessage = FrontendMessage(id: Option<string>, data: Option<FrontendData>)
}
