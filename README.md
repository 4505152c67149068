# clawproxy relay core in Dafny

clawproxy is a WebSocket-to-process relay. A client connects to `GET /ws?deviceId=<id>` and sends
JSON payloads `{"message": "..."}`. For each one, the server runs the external agent
`openclaw agent --session-id <id> --message <message> --json`. It extracts the JSON object
embedded in the agent's output and sends that object back as one text frame.

This project models the core of `internal/server/server.go`:

- `Executor` models the `CommandExecutor` capability. It has the production `OpenClawExecutor`
  and an injected implementation, as the tests use. The module also holds the argument vector
  of the agent command (`buildOpenClawCommand`) and the shaping of the process result in
  `OpenClawExecutor.Run`. That shaping returns stdout only and wraps a failure behind the prefix
  `run openclaw agent command: `.
- `Extract` models `extractJSONObject`. It scans left to right over the braces of the output
  and keeps the first position where an object decodes, stays inside the output, and still
  validates after trimming. If no position qualifies, the error is `json object not found in output`.
  `Search` holds the generic leftmost-match search that serves as its specification.
- `Server` models the `Server` object (`New`, `NewWithExecutor`) and `handleWS`. A request
  without a `deviceId` gets status 400 and `{"error":"deviceId is required"}`. After the
  upgrade, the handler loops over inbound payloads until a read fails, and answers each one:
  - a payload that does not decode gets `invalid json payload`;
  - an empty message gets `message is required`;
  - otherwise the executor is called with the connection's device id and a five-minute
    context, and the extracted object is relayed.

  Nothing is sent when the executor fails or when its output holds no object. A failed write
  ends the connection. `ServerProperties` states these promises over whole connections.
- `GoStrings`, `GoErrors` and `GoJson` cover the library behaviour the core relies on:
  - `strings.TrimSpace` with `unicode.IsSpace`;
  - error wrapping with `%w`;
  - Go's JSON decoder, validator and `Unmarshal`, taken as parameters.

The connection is a value: whether the upgrade succeeds, the payloads in arrival order (the read
after the last one fails), and which write attempt fails, if any. The handler's result lists
the frames delivered, the executor calls made in order, and whether a read or a write ended
the loop.

Four choices of the code shape the whole model:

- the handler keeps the connection open and answers every message until a read or a write fails;
- it sends nothing when the executor fails, whatever the partial output holds;
- it relays only the object extracted from the agent's output, never the raw output;
- the production executor's result carries stdout alone; stderr is captured and dropped.

The trailing flag of the agent command is `--json`.

## Model

| member | source | states |
|---|---|---|
| `Executor.BuildOpenClawCommand` | internal/server/server.go:54-56 | The command runs `openclaw` with exactly seven arguments: `openclaw agent --session-id <deviceID> --message <message> --json`. The device id and the message are each one argument, unchanged. |
| `Executor.BuildOpenClawCommandRoundTrip` | internal/server/server.go:54-56 | Reading the argument vector back gives the device id and message it was built from, whatever they contain (spaces included). |
| `Executor.AgentArgumentsComplete` | internal/server/server.go:54-56 | Every argument vector of the agent shape is the one built from the device id and message it carries, so building is a bijection onto that shape. |
| `Executor.ShapeRunResult` | internal/server/server.go:38-51 | The output is the captured stdout, whether or not the process failed. There is an error exactly when the process failed. That error unwraps to the process error, and its text is `run openclaw agent command: ` followed by the process error's text. |
| `Executor.StderrNeverReturned` | internal/server/server.go:38-51 | Standard error never reaches the caller: changing only stderr leaves the result unchanged. |
| `Executor.OpenClawRun` | internal/server/server.go:28-52 | The production executor runs the built agent command: the output is that run's stdout, there is an error exactly when that run failed, and the error unwraps to the run's error and reads `run openclaw agent command: ` followed by its text. |
| `Executor.RunExecutor` | internal/server/server.go:18-20 | A call through the `CommandExecutor` interface: an injected executor's answer is passed on unchanged; the production one answers with the stdout of the built agent command and fails exactly when that command fails. |
| `GoStrings.TrimSpace` | internal/server/server.go:76 | The trimmed candidate has no white space at either end. |
| `GoStrings.TrimSpaceRemovesOnlySpace` | internal/server/server.go:76 | The trimmed candidate is a contiguous slice of the span, with only white space removed before and after it. |
| `GoStrings.TrimSpacePadded` | internal/server/server.go:76 | Trimming white space from around a string without white space at its ends gives back exactly that string. |
| `Extract.ExtractJsonObject` | internal/server/server.go:58-85 | The scan's loop returns exactly the leftmost accepted candidate, or the not-found error. |
| `Extract.ExtractedIsLeftmostCandidate` | internal/server/server.go:59-81 | First match wins, in both directions: extraction returns `c` iff some brace position yields candidate `c` and no earlier position yields one. |
| `Extract.ExtractFailsIffNoCandidate` | internal/server/server.go:59-84 | Extraction fails iff no position yields a candidate. The error's text is then `json object not found in output`. |
| `Extract.NoBraceNoObject` | internal/server/server.go:59-62 | Output without `{` always gives the not-found error. |
| `Extract.ExtractedIsTrimmedSpan` | internal/server/server.go:71-81 | An extracted object passes `json.Valid`, starts with `{` and has no white space at its ends. It is the trimmed span `raw[i..j]` from a brace at `i`, where `j - i` is exactly the offset the decoder reports after decoding an object from that brace. |
| `Extract.ObjectAfterNoise` | internal/server/server.go:58-85 | Suppose brace-free text precedes a trimmed object, and the decoder consumes exactly that object, which validates. Then extraction returns the object verbatim, whatever follows it. |
| `Extract.ResultOkExample` | internal/server/server_test.go:105-127 | For `before {"result":"ok"} after`, the result is `{"result":"ok"}`, given that the library decodes and accepts that object. |
| `Server.Server.New` | internal/server/server.go:93-99 | A new server has the given address and the production executor. |
| `Server.Server.NewWithExecutor` | internal/server/server.go:101-105 | A fresh server has the given address, and the given executor replaces the production one. |
| `Server.Server.HandleWS` | internal/server/server.go:118-186 | The handler's loop produces exactly the reply `Handle` defines: 400 without a device id; on a failed upgrade the handler returns without reading (the upgrader's own error reply is left out); otherwise the message loop over the payloads' steps until a read or a write fails. |
| `ServerProperties.ConverseAgainstReference` | internal/server/server.go:135-185 | The delivered frames and the calls made are prefixes of all the frames and calls the payloads ask for. The loop ends on a failed write exactly when the failing attempt is one of the writes needed. It then stops at that payload: there is a payload `k` whose frame failed, exactly the frames of the payloads before `k` were delivered, and the calls are exactly those of payloads `0..k`, so no later payload reaches the executor. Otherwise it ends on the failed read, having delivered and called everything. |
| `ServerProperties.ConverseWithoutWriteFailure` | internal/server/server.go:135-185 | If no write fails, every frame the payloads ask for is delivered in order, every call is made, and the loop ends when a read fails. |
| `ServerProperties.CallsOfReplies` | internal/server/server.go:160-163 | The executor is called once per valid message, with the connection's device id and the five-minute context, in arrival order. Undecodable payloads and empty messages never reach it. |
| `ServerProperties.FramesOfReplies` | internal/server/server.go:142-184 | There is at most one frame per payload. Each frame is `invalid json payload`, `message is required`, or the object relayed for one of the valid messages. |
| `ServerProperties.ObjectReplyIsExtracted` | internal/server/server.go:169-184 | A relayed object comes only from a successful executor run. It is what extraction returns on that output, starts with `{`, and passes validation: the server never relays raw output. |
| `ServerProperties.InvalidPayloadAnswered` | internal/server/server.go:142-150 | A payload that does not decode gets exactly the frame `invalid json payload`. No executor call is made, and the loop goes on with the next payload. |
| `ServerProperties.EmptyMessageAnswered` | internal/server/server.go:151-158 | A decoded payload with an empty message gets exactly `message is required`. No executor call is made, and the loop goes on. |
| `ServerProperties.ExecutorFailureSendsNothing` | internal/server/server.go:169-172 | When the executor fails, the call is recorded but no frame is sent, even if the partial output holds an object. The loop goes on. |
| `ServerProperties.NoObjectSendsNothing` | internal/server/server.go:174-178 | When the executor's output holds no object, no frame is sent, and the loop goes on. |
| `ServerProperties.ObjectRelayed` | internal/server/server.go:174-184 | A message whose output holds an object gets exactly that object as its only frame. If that write fails, the connection ends there. |
| `ServerProperties.MissingDeviceIdRejected` | internal/server/server.go:119-124 | The request is rejected iff `deviceId` is missing or empty, with status 400 and `{"error":"deviceId is required"}`. No upgrade and no executor call happen. |
| `ServerProperties.ServedWithoutWriteFailure` | internal/server/server.go:118-186 | For an upgraded connection without write failures, the reply delivers every payload's answer in order. The executor sees exactly the valid messages in arrival order, and the connection ends when the client stops sending. |
| `ServerProperties.KeepConnectionScenario` | internal/server/server_test.go:104-146 | The keep-connection scenario: `hello` then `world` on one connection, with a fake executor whose output is `before {"result":"ok"} after`. Given that the library decodes and accepts the object there, both messages get exactly the frame `{"result":"ok"}`, and the fake sees both messages in order for `device-1`. |
| `ServerProperties.ExecutorErrorScenario` | internal/server/server_test.go:75-102 | An executor that fails with partial output holding an object leaves the client with no frame. |
| `ServerProperties.InvalidJsonScenario` | internal/server/server_test.go:48-73 | `not-json` is answered with exactly `invalid json payload`. |

## Left out

- HTTP routing with gin (`Engine`, `Run`), the gorilla upgrader and its `CheckOrigin`, and real frame I/O are transport over libraries outside this model. The HTTP error reply the upgrader itself sends when an upgrade fails is left out with it. The upgrade's outcome and the connection's reads and writes are inputs: a success flag, the payload sequence and the index of the failing write.
- Closing the connection (`defer conn.Close()`) has no observable effect in the model. Every path that ends the loop ends the transcript.
- Process spawning (`exec.CommandContext`, `cmd.Run`, filling the stdout and stderr buffers) is operating-system work. The system is a function from the built command to stdout, stderr and the run error. `exec.Command`'s program lookup is not modelled: the command's path is the name `openclaw`.
- The five-minute `context.WithTimeout` and its cancellation are timing across goroutines. Only the deadline is recorded, in the context every executor call receives.
- Go's JSON decoder, `UseNumber`, `json.Valid` and `json.Unmarshal` are a foreign library. They are functions in `GoJson.JsonLib`, and the theorems hold for any behaviour of them. The tests' expectations become lemma hypotheses about what the library does on those inputs.
- Strings are sequences of Unicode code points; Go indexes bytes. A `{` is the same in both, so the brace positions tried are the same. The decoder's offset is counted in the model's units, and invalid UTF-8 is not modelled.
- An injected executor is a function of (context, device id, message). An executor whose answers depend on earlier calls is not modelled; the recording fake of the tests is modelled by the list of calls in the transcript.
- Logging (`log.Printf`) has no effect on the protocol.
- The command-line wiring in `cmd/root.go` and `main.go` (cobra flags, the default address `:8080`, `log.Fatal`) is not part of this model.
