# Monitor plugin backend, modelled in Dafny

The monitor plugin watches a fleet of agents. Each agent opens a TCP connection to the plugin's server, proves itself with an encrypted handshake, and then reports status and information. In return it receives commands, files and shell traffic. The model covers the backend's core:

- **Framing** (`framing.dfy`, `codec.dfy`):
  - the length-prefixed frames of `server.rs`, read in a cancel-safe way through the `FrameLen`, `FrameData` and `Frame` state machines;
  - the sealed message format: a 12-byte nonce, an AEAD seal over `SKNT` followed by the protobuf message;
  - the ECIES handshake payload: a 32-byte AES key, then the agent uid.
- **Session** (`session.dfy`):
  - the per-connection `Handler`: sequence numbers, the handshake, and message dispatch;
  - the offline-alert rule of `Listener::run`;
  - the `Server` start, stop and passive-agent dialling state.
- **Registry** (`service.rs`, `service.dfy`), the plugin's in-memory agents next to their database rows:
  - login, logout and status updates;
  - info updates, command output and file responses;
  - the shell-program setting;
  - the service interface other plugins call (run, kill, send file).
- **Shell** (`ws.rs`, `shell.dfy`):
  - the browser-side websocket sessions;
  - the token bindings that route an agent's shell output back to one session.
- **Handlers** (`api.rs`, `api.dfy`): the HTTP handlers that list, rename, delete and reconnect agents, add passive agents, and start, stop or restart the server and save its settings.
- **Records** (`monitor_api/src/lib.rs`, `types.dfy`): the agent record, its status codes and its JSON form.

Several things outside the core become parameters or function values:

- Encryption, the protobuf codec and lossy UTF-8 decoding are values of `Codec.Suite`. `Codec.Sound` states the round trips those libraries promise.
- Reads and writes on the socket go through `Framing.Stream`, a scripted list of chunks, I/O errors and cancellations.
- The clock, fresh identifiers, the outcome of binding the listen address, and the moment the listener finishes stopping are all parameters.
- Database tables are maps.

## Model

| member | source | states |
|---|---|---|
| Types.ParseUuid | monitor/src/ws.rs:86 | an identifier parses exactly when it is 36 characters of hex digits in 8-4-4-4-12 groups; the result is its lower-case form |
| Types.ParsePrinted | monitor/src/server.rs:409 | an identifier printed with `to_string` parses back to itself |
| Types.AgentStatus.Code | monitor_api/src/lib.rs:51-60 | status codes are 0, 1, 2 and only Offline is 0 |
| Types.StatusFromCode | monitor_api/src/lib.rs:51-60 | exactly the codes 0..2 decode, each to the status with that code |
| Types.StatusCodeRoundTrip | monitor_api/src/lib.rs:51-60 | every status decodes back from its code |
| Types.NewCommand | monitor_api/src/lib.rs:62-67 | a new command entry has no exit code and no output |
| Types.NewFile | monitor_api/src/lib.rs:69-74 | a new file entry has code 0 and an empty message |
| Types.FromRow | monitor_api/src/lib.rs:133-152 | a record loaded from a row copies the row's nine columns and is Offline, with no channel, no commands, no files and no telemetry |
| Types.InternalFieldsNeverSerialized | monitor_api/src/lib.rs:94-99 | the channel, command and file fields never appear in the JSON form |
| Types.FromRowSerialized | monitor_api/src/lib.rs:76-131 | a record loaded from a row serializes exactly the six fixed fields plus those of os, hostname, system and arch that are present |
| Codec.BeRoundTrip | monitor/src/server.rs:74 | decoding the big-endian bytes of a u32 gives the number back |
| Codec.FromBeRoundTrip | monitor/src/server.rs:152 | encoding a decoded 4-byte header gives the same bytes |
| Codec.EncodeFrame | monitor/src/server.rs:147-156 | a frame is 4 length bytes holding the payload length, then the payload |
| Codec.DecodeFrame | monitor/src/server.rs:173-188 | a complete frame is within the limit and is exactly an encoded payload followed by the rest; a header over the limit is rejected with InvalidData, and only then; a header within the limit and enough bytes always give a complete frame; otherwise more bytes are needed |
| Codec.FrameRoundTrip | monitor/src/server.rs:147-188 | decoding an encoded payload within the limit gives the payload and leaves the following bytes |
| Codec.FramesSelfDelimiting | monitor/src/server.rs:147-188 | two frame streams that are equal have the same first payload and the same remainder |
| Codec.Unseal | monitor/src/server.rs:196-202 | a frame shorter than a nonce is refused with ShortFrame; an accepted frame opens under its nonce to the magic prefix followed by the encoded message; conversely a failed open gives DecryptFailed, a wrong prefix InvalidMagic and an undecodable message DecodeFailed |
| Codec.UnsealAsWritten | monitor/src/server.rs:196-202 | the code as written is defined only for frames of at least 12 bytes, where it agrees with the corrected version |
| Codec.ShortSealedFrameAccepted | monitor/src/server.rs:190-197 | a 1-byte frame passes the length limit of an encrypted connection, yet is shorter than the nonce the code slices off |
| Codec.Seal | monitor/src/server.rs:158-171 | a sealed frame starts with its nonce in the clear, and with a sound cipher the rest opens to the magic prefix followed by the encoded message |
| Codec.SealRoundTrip | monitor/src/server.rs:158-171 | with a sound cipher and codec, unsealing what `send_msg` sealed gives the message back |
| Codec.OpenHandshake | monitor/src/server.rs:203-218 | the handshake fails when decryption fails or leaves at most 32 bytes; otherwise it yields the first 32 bytes as the key and the rest as the uid |
| Codec.HandshakeSplit | monitor/src/server.rs:206-215 | a payload made of a 32-byte key and a non-empty uid gives back that key and that uid |
| Framing.FrameLen.Read | monitor/src/server.rs:56-75 | the call fills exactly as `FillFrom` says for the bytes still missing, so its outcome, the bytes taken and the events left are determined by the input; the header is complete after 4 bytes and is their big-endian value; an I/O error or end of stream clears it; a cancelled read keeps what it has |
| Framing.FrameLen.Reset | monitor/src/server.rs:77-79 | the header is emptied |
| Framing.FrameData.Resize | monitor/src/server.rs:91-95 | the buffer takes the new length, truncated or padded with zeros |
| Framing.FrameData.Read | monitor/src/server.rs:97-116 | the call fills exactly as `FillFrom` says for the bytes still missing; the body is complete once the length is reached; errors clear the progress; the bytes kept are those kept before followed by those taken from the stream |
| Framing.FrameData.Reset | monitor/src/server.rs:118-121 | the buffer is handed out and emptied |
| Framing.Frame.constructor | monitor/src/server.rs:133-141 | a new frame has no cipher and nothing read |
| Framing.Frame.Send | monitor/src/server.rs:147-156 | a payload is written framed exactly when it is at most 128 MiB; a longer one fails with InvalidData, or LengthOverflow past u32, and writes nothing |
| Framing.Frame.SendMsg | monitor/src/server.rs:158-171 | the sealed message is written as one frame when it fits |
| Framing.Frame.Read | monitor/src/server.rs:173-188 | the outcome is exactly `NextFrame`, the frame the remaining input completes from the progress of earlier cancelled calls; a returned payload is within the limit and its frame is exactly the bytes taken, counting those of earlier calls; a cancelled read keeps its progress; a failure resets it |
| Framing.Frame.ReadBody | monitor/src/server.rs:179-183 | the outcome is `BodyFrom` of the bytes already read and the input; a finished body has the announced length and holds the bytes already read followed by those taken now |
| Framing.Frame.ReadMsg | monitor/src/server.rs:190-219 | a frame is read exactly when `NextFrame` is ready, and failures and cancellations of the frame pass through; after the handshake, a frame's outcome is that of `Unseal`, with its short-frame check; before it, a frame is opened as the handshake and installs the key; a cancelled read changes no cipher |
| Framing.FillFrom | monitor/src/server.rs:60-73 | the shared read loop: a filled read holds exactly the bytes asked for, and an interrupted one fewer, having used up an event |
| Framing.FillClean | monitor/src/server.rs:60-73 | however an input without errors or cancellations is cut into chunks, the reads take its first bytes and leave the rest in front of what follows |
| Framing.BodyFrom | monitor/src/server.rs:179-183 | a finished body has the announced length and starts with the bytes already read |
| Framing.FrameFrom | monitor/src/server.rs:173-188 | a frame read from a partial header is within the limit |
| Framing.ReadAgreesWithDecode | monitor/src/server.rs:173-188 | reading from the start of a frame agrees with `DecodeFrame` on the input's bytes: a complete frame is read whatever follows, an oversized header fails with InvalidData, and a stream that ends mid-frame fails with UnexpectedEof |
| Framing.SendThenRead | monitor/src/server.rs:147-188 | a frame written by `send`, however it is cut into chunks, is read back from a fresh start |
| Framing.Frame.ReadLen | monitor/src/server.rs:173-178 | the header half of `read`: a complete header leaves `NextFrame` as the body read or, over the limit, InvalidData; a failed or cancelled header read is the outcome of `NextFrame` |
| Service.FindByUid | monitor_api/src/viewer/agents.rs:30-39 | finds the row with the uid, or reports that there is none |
| Service.NamePrefix | monitor/src/service.rs:139 | a new agent's name is the first 8 characters of its uid |
| Service.NewRow | monitor/src/service.rs:137-145 | a new row has the fresh id, the uid, the name prefix, the ip and the login time, and no platform columns |
| Service.LoggedOut | monitor/src/service.rs:181-201 | logout makes the record Offline, clears the endpoint, address, channel, shell flag, report rate and all telemetry, and keeps the identity, platform, commands and files |
| Service.LogoutIdempotent | monitor/src/service.rs:181-201 | logging out twice is logging out once |
| Service.LoggedOutLikeLoaded | monitor/src/service.rs:181-201 | a logged-out record serializes the same fields as one freshly loaded from its row |
| Service.Rate | monitor/src/service.rs:207-213 | a counter that did not move gives a rate of 0, and the rate never exceeds the u64-wrapped byte delta times 1000 |
| Service.RateExact | monitor/src/service.rs:207-213 | without wrap-around, the network rate is the byte delta times 1000 over the elapsed milliseconds, at least 1 |
| Service.RateWraps | monitor/src/service.rs:209 | a counter that went backwards gives the u64-wrapped delta |
| Service.TruncDiv | monitor/src/service.rs:222 | signed division truncates toward zero |
| Service.WithStatus | monitor/src/service.rs:204-226 | a status report stores the report time, the half round-trip latency and the counters; it derives the rates only when an earlier report exists; every other field is kept |
| Service.FirstReportHasNoRate | monitor/src/service.rs:207-214 | the first report after login derives no rate |
| Service.WithInfo | monitor/src/service.rs:233-244 | an info report overwrites the platform fields, endpoint, shell flag and report rate; it overwrites the ip only when one is given |
| Service.Appended | monitor/src/service.rs:267-273 | command output accumulates and the latest exit code wins |
| Service.AppendedAccumulates | monitor/src/service.rs:267-273 | two output chunks append as one |
| Service.AsStr | monitor/src/service.rs:327 | a JSON string gives its text and anything else gives the empty text |
| Service.Unique | monitor/src/service.rs:328 | removing duplicates keeps each value once and nothing else |
| Service.UniqueOrder | monitor/src/service.rs:328 | the values keep the order of their first occurrences |
| Service.UniqueOfDistinct | monitor/src/service.rs:328 | a list without duplicates is unchanged |
| Service.NonEmpty | monitor/src/service.rs:329 | empty program names are dropped and nothing else; a list without repeats stays without repeats |
| Service.ShellPrograms | monitor/src/service.rs:319-335 | the shell setting reads as a list exactly when it parses as a JSON array; the list is duplicate-free, has no empty names, and holds exactly the array's non-empty strings |
| Service.NonEmptyOrder | monitor/src/service.rs:329 | over a list without repeats, the kept names stay in the order of the list |
| Service.KeptFromIncreasing | monitor/src/service.rs:329 | the filter keeps positions in order: a later kept name comes from a later place in the list |
| Service.FirstIndexOfString | monitor/src/service.rs:326-327 | a non-empty string item is first met at the same place among the texts as among the items |
| Service.ProgramsInOrder | monitor/src/service.rs:326-330 | any two programs read are string items of the array, in the order of their first occurrences there |
| Service.ShellProgramsOrder | monitor/src/service.rs:319-335 | the programs of a JSON array setting are listed in the order in which their strings first occur in the array |
| Service.ShellSettingOf | monitor/src/service.rs:345-347 | the saved setting is a JSON array with one item per program |
| Service.ShellSettingRoundTrip | monitor/src/service.rs:319-347 | a duplicate-free list saved and read back loses only its empty names |
| Service.Plugin.constructor | monitor/src/service.rs:349-359 | every row is loaded as a fresh Offline record |
| Service.LoginAfter | monitor/src/service.rs:125-178 | a login is refused exactly when the uid has a row whose agent is not Offline, and a refusal keeps the table and the records; an accepted one answers an agent whose row has the uid, the new ip and the login time and whose record is Online at the new address, a new id is `freshId` with the row `NewRow` builds, the table and the records keep the same ids, and every other row and record stays |
| Service.Plugin.Login | monitor/src/service.rs:125-178 | an unknown uid gets a new row and an Online record; an Offline agent comes Online with the new ip, time and address; an agent already online or updating is refused and nothing changes; the answer, table and records are those of `LoginAfter` |
| Service.Plugin.Logout | monitor/src/service.rs:181-201 | the record becomes `LoggedOut`; an unknown id changes nothing |
| Service.Plugin.UpdateStatus | monitor/src/service.rs:204-226 | the record becomes `WithStatus`; an unknown id changes nothing |
| Service.Plugin.UpdateAgent | monitor/src/service.rs:228-246 | it succeeds exactly when the row exists, and then updates the row's platform columns and the record as `WithInfo` |
| Service.Plugin.BindMessage | monitor/src/service.rs:249-255 | the agent gets a message channel |
| Service.Plugin.UpdateCommandOutput | monitor/src/service.rs:260-278 | it succeeds exactly when the agent and the command are known, and then appends the output |
| Service.Plugin.UpdateFileResponse | monitor/src/service.rs:283-301 | it succeeds exactly when the agent and the file are known, and then records the code and message |
| Service.Plugin.RunCommand | monitor/src/service.rs:45-58 | it succeeds exactly for an agent with a channel: the request is queued and an empty entry is opened under the new id; otherwise "Agent not exist or offline" and nothing changes |
| Service.Plugin.KillCommand | monitor/src/service.rs:71-89 | the kill request is queued exactly for an agent with a channel |
| Service.Plugin.SendFile | monitor/src/service.rs:95-116 | it succeeds exactly for an agent with a channel: the compressed content is queued and an empty entry is opened |
| Service.Plugin.CommandOutput | monitor/src/service.rs:61-68 | gives the command's entry, and nothing for an unknown agent or command or one without output yet |
| Service.Plugin.FileResult | monitor/src/service.rs:118-120 | gives the file's entry, and nothing for an unknown agent or file or one without a response yet |
| Shell.ErrorText | monitor/src/ws.rs:136 | every error has a non-empty text |
| Shell.SendAgentOutcome | monitor/src/ws.rs:64-78 | a shell that is not connected, a missing agent, and an agent offline with the shell enabled are errors; an agent with the shell disabled silently drops the message; otherwise the message goes to that agent |
| Shell.CleanupBindingAsWritten | monitor/src/ws.rs:59-61 | as written, cleanup removes the binding of the nil token |
| Shell.StaleBindingAsWritten | monitor/src/ws.rs:59-61 | as written, a session's own token stays bound after cleanup; the corrected cleanup unbinds it |
| Shell.CleanupBinding | monitor/src/ws.rs:52-62 | cleanup unbinds the session's token and keeps every other binding |
| Shell.CleanupBindingIdempotent | monitor/src/ws.rs:52-62 | cleaning up twice is cleaning up once |
| Shell.ShellService.constructor | monitor/src/ws.rs:31-39 | a new session is bound to no agent, under the nil token |
| Shell.ShellService.SendAgent | monitor/src/ws.rs:64-78 | the result and the queued message are those of `SendAgentOutcome` |
| Shell.CleanupPushed | monitor/src/ws.rs:52-58 | cleanup queues nothing for a session without an agent, and otherwise at most the one disconnect carrying its token |
| Shell.ShellService.Cleanup | monitor/src/ws.rs:52-62 | the one disconnect carrying the session's token is queued exactly when `SendAgentOutcome` would send it (an agent is connected and known, its shell is enabled and its channel is present), and nothing is queued otherwise; the session is reset and the binding becomes the corrected `CleanupBinding` of its old token |
| Shell.ShellService.Recv | monitor/src/ws.rs:80-111 | undecodable or empty frames and agent-only message types are refused and change nothing; a disconnect cleans up and queues only what `CleanupPushed` gives; input and resize are stamped with the token and forwarded; a connect cleans up, binds the new token, then needs a valid agent id before forwarding, and queues what `CleanupPushed` gives followed by the forwarded connect; all of it is stated once, as `Shell.Received` |
| Shell.ErrorFrame | monitor/src/ws.rs:132-138 | an error goes back to the browser as a token-less ShellError carrying its text |
| Shell.ShellHub.Service | monitor/src/ws.rs:114-156 | a connect installs a fresh session; when it replaces one, or a close removes one, the old session's token is unbound and its cleanup disconnect (`CleanupPushed`) is queued, and otherwise the bindings and the outbox stay; a frame for an unknown session closes the websocket; a frame for a known one has the effect `Shell.Received` states for what `recv` answered, and an error answer is sent back as one error frame; every other session keeps its object, agent and token |
| Shell.ShellHub.Open | monitor/src/ws.rs:117-122 | a connect files a fresh unconnected session under its id, cleans up the one it replaces (unbinding its token and queueing `CleanupPushed`), and keeps every other session |
| Shell.ShellHub.Deliver | monitor/src/ws.rs:123-150 | a frame for a known session has the effect `Shell.Received` states, and the error `recv` answered, if any, is sent back as one error frame; a frame for an unknown session closes the websocket and changes nothing else |
| Shell.ShellHub.Drop | monitor/src/ws.rs:151-153 | a close removes the session, unbinds its token and queues its cleanup disconnect; an unknown id changes nothing; every other session stays |
| Session.Next | monitor/src/server.rs:265 | sequence numbers advance by one, wrapping at u64::MAX |
| Session.Accept | monitor/src/server.rs:395-403 | a message numbered below the expected one is ignored; otherwise the expected number moves past it |
| Session.NoReplay | monitor/src/server.rs:395-403 | after a message is accepted, the same or a lower number is ignored |
| Session.ClientSeqMonotone | monitor/src/server.rs:395-403 | accepting a message raises the expected number |
| Session.ShellRoute | monitor/src/server.rs:411-412 | shell output goes to the session bound to its token, if that session is still open |
| Session.Handler.constructor | monitor/src/server.rs:246-258 | a new connection starts at sequence 0 on both sides, with no agent |
| Session.Handler.NewServerMsg | monitor/src/server.rs:260-267 | a reply carries the current server number, which then advances |
| Session.Handler.Reply | monitor/src/server.rs:300-307 | a stamped reply is sent |
| Session.Handler.Handshake | monitor/src/server.rs:269-311 | only a first message numbered 0 carrying a handshake request is accepted; it is refused with AlreadyLogin exactly when a row with the uid exists and its agent is not Offline, and then is answered Logined and changes nothing; an accepted one leaves the agent Online with its channel, uid and address, and is answered Success; on success the table and the records are those of `Service.LoginAfter` with the agent's channel bound, so every other row and record stays, and the server's message number advances by one |
| Session.Handler.LogIn | monitor/src/server.rs:272-308 | a login is refused exactly when the uid's agent is not Offline; a refusal is answered Logined and changes nothing else; success binds the Online agent and is answered Success; the table and the records are those of `Service.LoginAfter` with the agent's channel bound, and the server's message number advances by one on both paths |
| Session.Handler.Bind | monitor/src/server.rs:293-307 | the connection takes the agent, whose record only gains its channel while every other record and the table stay, and Success is sent under the next server message number |
| Session.Handler.HandleMsg | monitor/src/server.rs:394-446 | old numbers are ignored and change nothing; the records become `AgentsAfter` and the table `RowsAfter`, so only info writes a row and shell output and errors leave the records; info sets the status clock; shell output and errors are routed by token with the token removed, and a bad token is BadUuid; other payloads answer as `Applied` and send nothing; a missing payload is an error and changes nothing |
| Session.DispatchTouchesOnlySender | monitor/src/server.rs:404-441 | a payload changes only the sending agent's record and row, keeps every agent and row present, never changes an agent's id or uid, and writes a row only for info |
| Session.Handler.Dispatch | monitor/src/server.rs:404-441 | the match on one payload, with the same records, table, status clock, answer and websocket output as `HandleMsg` |
| Session.Handler.Forward | monitor/src/server.rs:408-437 | a token that is not a uuid is BadUuid and sends nothing; otherwise the data goes to the session bound to the token, if it is open, and to no one else |
| Session.Apply | monitor/src/server.rs:404-441 | the registry cases of the match: the records become `AgentsAfter`, the table `RowsAfter`, and the answer is `Applied` |
| Session.Applied | monitor/src/server.rs:404-441 | status always succeeds; info succeeds exactly when the row exists and is RecordMissing otherwise; command and file responses succeed exactly when their id is a uuid and are BadUuid otherwise; any other type is InvalidMessageType |
| Session.Handler.Finish | monitor/src/server.rs:514-518 | at the end of a connection the status clock stops; a logged-in agent is logged out and unbound while every other record stays; when its record was deleted meanwhile, the records do not change |
| Session.ThresholdAsWritten | monitor/src/server.rs:590 | as written, the threshold is `timeout * 1000` reduced modulo 2^32 |
| Session.ThresholdWrapsAsWritten | monitor/src/server.rs:590 | as written, a timeout of 4294968 s gives a 704 ms threshold |
| Session.Threshold | monitor/src/server.rs:590 | the threshold is the timeout in milliseconds |
| Session.ThresholdMonotone | monitor/src/server.rs:587-590 | a longer timeout never lowers the threshold |
| Session.ShouldAlert | monitor/src/server.rs:585-590 | an alert fires only for an agent that is not Online, has reported and has been silent for more than a second; never twice for the same report; and it does fire for a never-alerted agent, not Online, whose non-zero report is older than the timeout |
| Session.ShouldAlertAsWritten | monitor/src/server.rs:585-590 | the rule as written alerts whenever the corrected one does, because its wrapped threshold is never larger; it alerts only for an agent that is not Online and has been silent, and never twice for the same report |
| Session.AlertAgreesBelowWrap | monitor/src/server.rs:586-591 | the alert rule as written and the corrected one agree on every timeout up to 4294967 s |
| Session.EarlyAlertAsWritten | monitor/src/server.rs:586-591 | as written, a timeout of 4294968 s alerts about an agent silent for 999 ms; the corrected rule does not |
| Session.AfterTick | monitor/src/server.rs:582-600 | after a tick, the alert record gains exactly the agents that alerted under the corrected threshold, each with the report time it alerted about |
| Session.TickStep | monitor/src/server.rs:586-598 | visiting one more agent extends the record by that agent's alert alone, under the corrected threshold |
| Session.AlertAtMostOnce | monitor/src/server.rs:586-591 | an agent that alerted does not alert again until it reports again, whatever the clock and the timeout |
| Session.AlertRearms | monitor/src/server.rs:586-591 | an agent that reports again and falls silent again past the corrected threshold can alert again |
| Session.AlertMonitor.Tick | monitor/src/server.rs:580-600 | one tick updates the record as `AfterTick` and alerts each agent qualifying under the corrected threshold exactly once |
| Session.Queued | monitor/src/server.rs:660-668 | `start` dials exactly the passive agents not already being dialled |
| Session.QueuedSnoc | monitor/src/server.rs:666-668 | the passive agents are queued in order, one at a time |
| Session.Server.constructor | monitor/src/server.rs:636-645 | a new server is stopped and dials nothing |
| Session.Server.Start | monitor/src/server.rs:651-680 | a failed bind changes nothing; otherwise the server runs with its channels and queues `Queued` of the passive agents |
| Session.Server.Stopped | monitor/src/server.rs:675-677 | once the listener stops, the server no longer runs and its channels are gone |
| Session.Server.Stop | monitor/src/server.rs:686-691 | a stop signal is sent exactly when the server has a shutdown channel |
| Session.Server.Connect | monitor/src/server.rs:693-702 | an agent already being dialled counts as connected; otherwise the id is queued exactly when the server runs |
| Session.Server.TakePassive | monitor/src/server.rs:617-621 | the listener takes the next id and marks it as being dialled |
| Session.Server.PassiveEnded | monitor/src/server.rs:625 | a finished dialling loop unmarks its id |
| Api.ContainsIffSplit | monitor/src/api.rs:55-59 | the text search finds the needle exactly when the text splits around it |
| Api.ContainsEmpty | monitor/src/api.rs:55-59 | every text contains the empty text |
| Api.GetAgents | monitor/src/api.rs:44-67 | a status list with a repeated entry is a bad request; otherwise the result holds exactly the agents whose status is listed and whose id, name, ip, os or arch contains the text |
| Api.UnfilteredListsAll | monitor/src/api.rs:44-67 | no filter, or an empty text, lists every agent |
| Api.StatusFilterMonotone | monitor/src/api.rs:48-52 | allowing more statuses never hides an agent |
| Api.PassiveStatus.Code | monitor/src/api.rs:85-90 | Inactive is 0 and Active is 1 |
| Api.PassiveStatusOf | monitor/src/api.rs:111-122 | a passive agent is Active exactly when the server is dialling it |
| Api.AddCheckAsWritten | monitor/src/api.rs:145-158 | as written, a request is accepted when it is valid and its address is used neither as a name nor as an address |
| Api.AddCheck | monitor/src/api.rs:135-158 | a request is accepted exactly when it is valid and its name and address are unused; a used name gives PassiveAgentNameExist, and otherwise a used address gives PassiveAgentAddressExist |
| Api.DuplicateNameAcceptedAsWritten | monitor/src/api.rs:147 | as written, a second passive agent with the same name and a new address is accepted |
| Api.AddKeepsUnique | monitor/src/api.rs:145-159 | adding through the corrected checks keeps passive names and addresses unique |
| Api.AddPassiveAgents | monitor/src/api.rs:145-171 | a request is created exactly when the corrected `AddCheck` accepts it, and then the row is made under the new id and the server asked to dial it; a refused one answers the check's error and changes nothing |
| Api.PutAgent | monitor/src/api.rs:426-448 | a name over 32 characters is a bad request; an unknown agent is not found; a name any agent already has is refused; otherwise the row and the record are renamed |
| Api.DeleteAgent | monitor/src/api.rs:450-466 | an unknown agent is not found; otherwise its row and record go and one row is reported |
| Api.RemoveEach | monitor/src/api.rs:471-473 | every listed id is removed from memory and nothing else |
| Api.DeleteAgents | monitor/src/api.rs:468-482 | the rows and records of the listed ids go, and the count is the number of listed ids that had rows |
| Api.ReconnectAgent | monitor/src/api.rs:402-418 | an unknown agent is not found; a known one with a channel is told to reconnect |
| Api.PostServer | monitor/src/api.rs:340-360 | start only starts a stopped server and stop only signals a running one; the answer is always Success |
| Api.RestartServer | monitor/src/api.rs:299-321 | the server is restarted exactly when it was stopped already or stopped within the polling window; otherwise it is left stopping |
| Api.UpdatedSettings | monitor/src/api.rs:371-387 | each setting present in the request is written and the others are kept |
| Api.UpdatedSettingsIdempotent | monitor/src/api.rs:371-387 | an empty request changes nothing, and applying a request twice is applying it once |
| Api.SavedShellReadsBack | monitor/src/api.rs:372-375 | a shell list saved through the settings reads back without its empty entries |
| Api.PutSettings | monitor/src/api.rs:371-400 | a shell list with a repeated entry is a bad request and changes nothing; otherwise the present settings are written and the timeouts also take effect in memory; a request with an address restarts the server, which then runs exactly when the bind succeeds and dials the passive agents, unless it was running and failed to stop within five polls, when it is left stopping |

## Left out

- Sockets, the database, the webpush service and the frontend websocket transport are not modelled. Their effects are parameters, maps or recorded outboxes: `Plugin.outbox`, `ShellHub.wsSent`, `Handler.sent`.
- Database and channel send errors are left out. Every `?` on a query, commit or `send` is taken to succeed, so transactions have no failure path.
- AES-GCM, ECIES, protobuf and `from_utf8_lossy` are function values of `Codec.Suite`. Their algorithms are not modelled; only the round trips of `Codec.Sound` are assumed of them, as preconditions.
- `Frame::close`, `read_msg_timeout` and the `select!` loop of `Handler::process` are not modelled. A cancelled read is a `Blocked` event of `Framing.Stream`, and the steps of the loop are the methods of `Session.Handler`.
- The automatic agent update in `handle_info` (server.rs:333-369) calls into the agent plugin, which is not part of this model.
- The cpu field (`f32`) of the agent record and of status reports is not modelled, because floating point is out of scope.
- Service.WithStatus: the latency `(now - time) / 2` is unbounded; the i64 overflow of the subtraction is not modelled.
- `send_status`, the status clock ticks and `Handler::process`'s proxying of queued messages are not modelled. `Handler.statusEvery` records only the clock's period.
- `Listener::passive` and `passive_loop` (the TCP dial and the retry sleep) are left out; `Session.Server.TakePassive` and `Session.Server.PassiveEnded` stand for their effect on the set being dialled.
- Session.Server.Start: the running task is modelled up to listening. The stopping half is `Session.Server.Stopped`. A failure of the passive-agent query after the channels are set is not modelled.
- Types.ParseUuid: accepts only the hyphenated 36-character form; the other text forms the uuid parser accepts (simple, braced, urn) are not modelled.
- `PLUGIN_INSTANCE.remove_agent` is not part of this model. Its effect is modelled as removing the in-memory record.
- Pagination and the time filters of the list handlers are not modelled. `GetAgents` gives the whole filtered set.
- `get_passive_agents` is modelled only through its status column. Its SQL `LIKE` text filter runs in the database.
- The handlers `put_passive_agents`, `activate_passive_agents`, the passive deletions, `get_settings`, `get_settings_shell`, `get_settings_certificate` and `new_settings_certificate` are outside the modelled core, apart from their shared `restart_server`.
- Api.AddPassiveAgents: `retry_time` is an unbounded integer; values outside `i32` are refused by JSON decoding and are not modelled.
- Api.RestartServer: the spawned `start` is modelled as running at once. The listener is modelled as stopping a fixed `settle` seconds after the signal.
- Api.PostServer: the same immediate start as `RestartServer`.
- Error texts of foreign libraries (protobuf, uuid, channel errors) are not modelled. `Shell.ErrorText` gives fixed texts.
- Session.Next: wrapping at u64::MAX is how a release build behaves; a debug build would panic instead.
- Framing.FrameLen: the `[u8; 4]` header buffer is a four-byte sequence that each read replaces, not an array updated in place.
- Framing.Frame.ReadMsg: uses the corrected `Codec.Unseal`, which refuses a sealed frame shorter than 12 bytes with ShortFrame; as written, server.rs:197 panics on such a frame (see Findings).
- Api.AddPassiveAgents: uses the corrected `Api.AddCheck`; as written, api.rs:147 looks the address up among the names, so a repeated name is accepted (see Findings).
- Shell.ShellService.Cleanup: unbinds the session's own token through the corrected `Shell.CleanupBinding`; as written, ws.rs:59-61 removes the nil token's binding instead (see Findings).
- Shell.ShellService.Recv: its disconnect and connect paths use the same corrected cleanup.
- Shell.ShellHub.Service: closing or replacing a session uses the same corrected cleanup.
- Shell.ShellHub.Open: cleans up the session it replaces with the same corrected cleanup.
- Shell.ShellHub.Drop: cleans up the closed session with the same corrected cleanup.
- Shell.ShellHub.Deliver: hands the frame to `recv`, whose effect `Shell.Received` states with the same corrected cleanup.
- Shell.Received: its disconnect and connect cases state the corrected cleanup.
- Session.ShouldAlert: compares against the corrected `Session.Threshold`; as written, server.rs:590 wraps `timeout * 1000` in u32, which `Session.ShouldAlertAsWritten` keeps (see Findings).
- Session.AfterTick: built on the corrected `Session.ShouldAlert`.
- Session.TickStep: built on the corrected `Session.ShouldAlert`.
- Session.AlertRearms: built on the corrected `Session.ShouldAlert`.
- Session.AlertMonitor.Tick: alerts under the corrected `Session.ShouldAlert`.

## Findings

| source | as written | input that shows it | evidently intended | confidence | as-written member | corrected member |
|---|---|---|---|---|---|---|
| monitor/src/api.rs:147 | the duplicate-name check looks the requested address up among the names | a passive agent "a" at 10.0.0.1:4242 exists; adding name "a" at 10.0.0.2:4242 is accepted | refuse a name already in use | not executed; high | Api.AddCheckAsWritten, Api.DuplicateNameAcceptedAsWritten | Api.AddCheck, Api.AddKeepsUnique |
| monitor/src/ws.rs:59-61 | cleanup resets the token to nil before removing the binding, so it removes the nil token's binding | a session bound to token T disconnects; T stays bound to the session | remove the binding of the session's own token | not executed; high | Shell.CleanupBindingAsWritten, Shell.StaleBindingAsWritten | Shell.CleanupBinding, Shell.CleanupBindingIdempotent |
| monitor/src/server.rs:196-197 | after the handshake, the frame is sliced at 12 bytes without a length check | the frame `00 00 00 01 00` (a 1-byte payload) on an encrypted connection panics the connection task, which then never logs the agent out | refuse a frame shorter than the nonce as an error | not executed; high | Codec.UnsealAsWritten, Codec.ShortSealedFrameAccepted | Codec.Unseal, Codec.SealRoundTrip |
| monitor/src/server.rs:590 | the alert threshold `timeout * 1000` is computed in u32 | an alert timeout of 4294968 s gives a 704 ms threshold in a release build (a panic in a debug build) | compare against the timeout in milliseconds without overflow | not executed; medium | Session.ThresholdAsWritten, Session.ThresholdWrapsAsWritten, Session.ShouldAlertAsWritten, Session.EarlyAlertAsWritten | Session.Threshold, Session.ThresholdMonotone |
