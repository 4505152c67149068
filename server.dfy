/**
 * The WebSocket relay: the `Server` that holds the executor, and `handleWS`,
 * which serves one connection. The handler rejects a request without a
 * `deviceId` before upgrading. After the upgrade it reads payloads until a
 * read fails. Each payload is answered with a validation message or with the
 * JSON object extracted from the agent's output. Nothing is sent when the
 * agent fails or when its output holds no object. A failed write ends the
 * connection.
 *
 * The connection is a `Peer`: whether the upgrade succeeds, the payloads the
 * client sends in order (the read after the last one fails), and which write
 * attempt, if any, fails.
 */
module Server {
  import opened Wrappers
  import opened GoJson
  import opened Executor
  import opened Extract

  const StatusBadRequest := 400
  const DeviceIdRequiredBody := "{\"error\":\"deviceId is required\"}"
  const InvalidJsonPayload := "invalid json payload"
  const MessageRequired := "message is required"

  /** The context each executor call gets: the request's, with the five-minute deadline. */
  const CallContext := Context(CommandTimeoutMinutes)

  /** The collaborators outside the handler: Go's JSON library and the system that runs processes. */
  datatype Env = Env(json: JsonLib, os: ProcessRunner)

  /** The client side of one connection. `failingWrite` counts write attempts from 0. */
  datatype Peer = Peer(upgradeOk: bool, inbound: seq<string>, failingWrite: Option<nat>)

  /** One call of the executor, as a recording fake would see it. */
  datatype Call = Call(ctx: Context, deviceID: string, message: string)

  /** Why the message loop stopped. */
  datatype End = ReadFailed | WriteFailed

  /** What happened on an upgraded connection: the frames delivered, the executor calls made, how it ended. */
  datatype Transcript = Transcript(frames: seq<string>, calls: seq<Call>, end: End)

  datatype Reply =
    | Rejected(status: int, body: string)
    | UpgradeFailed
    | Served(transcript: Transcript)

  /** What one payload causes: the executor call it makes, if any, and the frame it asks to send, if any. */
  datatype Step = Step(call: Option<Call>, frame: Option<string>)

  function Prepend(frames: seq<string>, calls: seq<Call>, t: Transcript): Transcript {
    Transcript(frames + t.frames, calls + t.calls, t.end)
  }

  /** Whether write attempt number `attempt` on the connection succeeds. */
  predicate WriteSucceeds(peer: Peer, attempt: nat) {
    peer.failingWrite != Some(attempt)
  }

  /** The object relayed for a valid message: present only when the executor succeeds and its output holds one. */
  function ObjectReply(env: Env, exec: CommandExecutor, deviceID: string, message: string): Option<string> {
    var result := RunExecutor(exec, env.os, CallContext, deviceID, message);
    if result.err.Some? then None
    else match ExtractedObject(env.json, result.output)
      case Success(obj) => Some(obj)
      case Failure(_) => None
  }

  /** The handling of one inbound payload. */
  function Respond(env: Env, exec: CommandExecutor, deviceID: string, payload: string): Step {
    match env.json.unmarshalRequest(payload)
    case None => Step(None, Some(InvalidJsonPayload))
    case Some(message) =>
      if message == "" then Step(None, Some(MessageRequired))
      else Step(Some(Call(CallContext, deviceID, message)), ObjectReply(env, exec, deviceID, message))
  }

  function CallOf(step: Step): seq<Call> {
    if step.call.Some? then [step.call.value] else []
  }

  function FrameOf(step: Step): seq<string> {
    if step.frame.Some? then [step.frame.value] else []
  }

  /** The step each payload of `inbound` causes, in order. */
  function Replies(env: Env, exec: CommandExecutor, deviceID: string, inbound: seq<string>): seq<Step> {
    seq(|inbound|, k requires 0 <= k < |inbound| => Respond(env, exec, deviceID, inbound[k]))
  }

  /**
   * The message loop over the remaining steps, once `writes` writes have been
   * attempted: frames are written in order until a write fails or the steps
   * run out (the next read fails).
   */
  function Converse(steps: seq<Step>, failingWrite: Option<nat>, writes: nat): Transcript
    decreases |steps|
  {
    if steps == [] then Transcript([], [], ReadFailed)
    else match steps[0].frame
      case None => Prepend([], CallOf(steps[0]), Converse(steps[1..], failingWrite, writes))
      case Some(f) =>
        if failingWrite == Some(writes) then Transcript([], CallOf(steps[0]), WriteFailed)
        else Prepend([f], CallOf(steps[0]), Converse(steps[1..], failingWrite, writes + 1))
  }

  lemma PrependPrepend(frames: seq<string>, calls: seq<Call>, frames': seq<string>, calls': seq<Call>, t: Transcript)
    ensures Prepend(frames, calls, Prepend(frames', calls', t)) == Prepend(frames + frames', calls + calls', t)
  {
    assert frames + (frames' + t.frames) == (frames + frames') + t.frames;
    assert calls + (calls' + t.calls) == (calls + calls') + t.calls;
  }

  /** The `deviceId` query parameter as `c.Query` reads it: "" when absent. */
  function QueryDeviceId(deviceIdParam: Option<string>): string {
    deviceIdParam.GetOr("")
  }

  /** `handleWS` on one request. */
  function Handle(env: Env, exec: CommandExecutor, deviceIdParam: Option<string>, peer: Peer): Reply {
    var deviceID := QueryDeviceId(deviceIdParam);
    if deviceID == "" then Rejected(StatusBadRequest, DeviceIdRequiredBody)
    else if !peer.upgradeOk then UpgradeFailed
    else Served(Converse(Replies(env, exec, deviceID, peer.inbound), peer.failingWrite, 0))
  }

  class Server {
    const addr: string
    var executor: CommandExecutor

    /** `New`: a server on `addr` that runs the real agent. */
    constructor New(addr: string)
      ensures this.addr == addr && executor == OpenClawExecutor
    {
      this.addr := addr;
      executor := OpenClawExecutor;
    }

    /** `NewWithExecutor`: a server on `addr` whose executor is replaced by the given one. */
    static method NewWithExecutor(addr: string, executor: CommandExecutor) returns (s: Server)
      ensures fresh(s) && s.addr == addr && s.executor == executor
    {
      s := new Server.New(addr);
      s.executor := executor;
    }

    /** `handleWS`: validates the device id, upgrades, then serves payloads until a read or write fails. */
    method HandleWS(env: Env, deviceIdParam: Option<string>, peer: Peer) returns (reply: Reply)
      ensures reply == Handle(env, executor, deviceIdParam, peer)
    {
      var deviceID := QueryDeviceId(deviceIdParam);
      if deviceID == "" {
        return Rejected(StatusBadRequest, DeviceIdRequiredBody);
      }
      if !peer.upgradeOk {
        return UpgradeFailed;
      }
      ghost var steps := Replies(env, executor, deviceID, peer.inbound);
      var frames: seq<string> := [];
      var calls: seq<Call> := [];
      var writes := 0;
      var next := 0;
      assert steps[next..] == steps;
      while true
        invariant next <= |peer.inbound|
        invariant Converse(steps, peer.failingWrite, 0)
                  == Prepend(frames, calls, Converse(steps[next..], peer.failingWrite, writes))
        decreases |peer.inbound| - next
      {
        if next == |peer.inbound| {
          return Served(Transcript(frames, calls, ReadFailed));
        }
        var payload := peer.inbound[next];
        ghost var step := steps[next];
        ghost var rest := steps[next + 1..];
        assert steps[next..] == [step] + rest;
        next := next + 1;

        var request := env.json.unmarshalRequest(payload);
        if request.None? {
          if !WriteSucceeds(peer, writes) {
            return Served(Transcript(frames, calls, WriteFailed));
          }
          PrependPrepend(frames, calls, [InvalidJsonPayload], [], Converse(rest, peer.failingWrite, writes + 1));
          frames, writes := frames + [InvalidJsonPayload], writes + 1;
          assert calls + [] == calls;
          continue;
        }
        var message := request.value;
        if message == "" {
          if !WriteSucceeds(peer, writes) {
            return Served(Transcript(frames, calls, WriteFailed));
          }
          PrependPrepend(frames, calls, [MessageRequired], [], Converse(rest, peer.failingWrite, writes + 1));
          frames, writes := frames + [MessageRequired], writes + 1;
          assert calls + [] == calls;
          continue;
        }

        var result := RunExecutor(executor, env.os, CallContext, deviceID, message);
        var call := Call(CallContext, deviceID, message);
        if result.err.Some? {
          PrependPrepend(frames, calls, [], [call], Converse(rest, peer.failingWrite, writes));
          calls := calls + [call];
          assert frames + [] == frames;
          continue;
        }
        var extracted := ExtractJsonObject(env.json, result.output);
        if extracted.Failure? {
          PrependPrepend(frames, calls, [], [call], Converse(rest, peer.failingWrite, writes));
          calls := calls + [call];
          assert frames + [] == frames;
          continue;
        }
        calls := calls + [call];
        if !WriteSucceeds(peer, writes) {
          return Served(Transcript(frames, calls, WriteFailed));
        }
        PrependPrepend(frames, calls[..|calls| - 1], [extracted.value], [call], Converse(rest, peer.failingWrite, writes + 1));
        assert calls[..|calls| - 1] + [call] == calls;
        frames, writes := frames + [extracted.value], writes + 1;
      }
    }
  }
}
