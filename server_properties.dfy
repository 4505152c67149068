/**
 * What the handler promises over a whole connection, proved from the
 * definitions in `Server`: the reference behaviour when every write succeeds,
 * how a failed write cuts it short, which executor calls are made, what each
 * frame can be, and the per-payload rules.
 */
module ServerProperties {
  import opened Wrappers
  import opened GoJson
  import opened Executor
  import opened Extract
  import opened Server

  /** Every frame the steps ask to send, in order. */
  function FramesOf(steps: seq<Step>): seq<string> {
    if steps == [] then [] else FrameOf(steps[0]) + FramesOf(steps[1..])
  }

  /** Every executor call the steps make, in order. */
  function CallsOf(steps: seq<Step>): seq<Call> {
    if steps == [] then [] else CallOf(steps[0]) + CallsOf(steps[1..])
  }

  /** The messages of the payloads that decode and carry a non-empty `message`, in arrival order. */
  function ValidMessages(json: JsonLib, inbound: seq<string>): seq<string> {
    if inbound == [] then []
    else
      var m := json.unmarshalRequest(inbound[0]);
      (if m.Some? && m.value != "" then [m.value] else []) + ValidMessages(json, inbound[1..])
  }

  /** The executor calls for `messages` on the connection of `deviceID`. */
  function CallsFor(deviceID: string, messages: seq<string>): seq<Call> {
    if messages == [] then [] else [Call(CallContext, deviceID, messages[0])] + CallsFor(deviceID, messages[1..])
  }

  lemma RepliesCons(env: Env, exec: CommandExecutor, deviceID: string, payload: string, rest: seq<string>)
    ensures Replies(env, exec, deviceID, [payload] + rest)
            == [Respond(env, exec, deviceID, payload)] + Replies(env, exec, deviceID, rest)
  {
    var inbound := [payload] + rest;
    assert inbound[1..] == rest;
  }

  lemma PrefixPrepend<T>(c: seq<T>, a: seq<T>, b: seq<T>)
    requires a <= b
    ensures c + a <= c + b
  {
    assert (c + b)[..|c + a|] == c + b[..|a|];
  }

  /**
   * The message loop against the reference of writing every frame: the
   * frames delivered and the calls made are prefixes of all the steps'
   * frames and calls; the loop ends on a failed write exactly when the
   * failing attempt is among those the steps need, having delivered exactly
   * the frames before it; otherwise it ends on the failed read, having done
   * everything.
   */
  lemma {:induction false} ConverseAgainstReference(steps: seq<Step>, failingWrite: Option<nat>, writes: nat)
    ensures var t := Converse(steps, failingWrite, writes);
            var all := FramesOf(steps);
            t.frames <= all && t.calls <= CallsOf(steps)
            && (t.end == WriteFailed <==> failingWrite.Some? && writes <= failingWrite.value < writes + |all|)
            && (t.end == WriteFailed ==> |t.frames| == failingWrite.value - writes)
            && (t.end == ReadFailed ==> t.frames == all && t.calls == CallsOf(steps))
    ensures var t := Converse(steps, failingWrite, writes);
            t.end == WriteFailed ==>
              exists k | 0 <= k < |steps| ::
                steps[k].frame.Some? && t.frames == FramesOf(steps[..k]) && t.calls == CallsOf(steps[..k + 1])
    decreases |steps|
  {
    if steps != [] {
      var rest := steps[1..];
      var calls0 := CallOf(steps[0]);
      match steps[0].frame
      case None =>
        ConverseAgainstReference(rest, failingWrite, writes);
        var t' := Converse(rest, failingWrite, writes);
        PrefixPrepend(calls0, t'.calls, CallsOf(rest));
        assert FramesOf(steps) == FramesOf(rest);
        assert [] + t'.frames == t'.frames;
        if t'.end == WriteFailed {
          var k' :| 0 <= k' < |rest| && rest[k'].frame.Some?
                    && t'.frames == FramesOf(rest[..k']) && t'.calls == CallsOf(rest[..k' + 1]);
          StopsAtLaterStep(steps, k');
        }
      case Some(f) =>
        if failingWrite == Some(writes) {
          PrefixPrepend(calls0, [], CallsOf(rest));
          assert calls0 + [] == calls0;
          assert steps[..1][1..] == [] && steps[..0] == [];
          assert FramesOf(steps[..0]) == [] && CallsOf(steps[..0 + 1]) == calls0;
        } else {
          ConverseAgainstReference(rest, failingWrite, writes + 1);
          var t' := Converse(rest, failingWrite, writes + 1);
          PrefixPrepend(calls0, t'.calls, CallsOf(rest));
          PrefixPrepend([f], t'.frames, FramesOf(rest));
          if t'.end == WriteFailed {
            var k' :| 0 <= k' < |rest| && rest[k'].frame.Some?
                      && t'.frames == FramesOf(rest[..k']) && t'.calls == CallsOf(rest[..k' + 1]);
            StopsAtLaterStep(steps, k');
          }
        }
    }
  }

  /** A cut of the steps after their head is the head followed by the same cut of the rest. */
  lemma StopsAtLaterStep(steps: seq<Step>, k: nat)
    requires k < |steps| - 1
    ensures FramesOf(steps[..k + 1]) == FrameOf(steps[0]) + FramesOf(steps[1..][..k])
    ensures CallsOf(steps[..k + 2]) == CallOf(steps[0]) + CallsOf(steps[1..][..k + 1])
  {
    assert steps[..k + 1][1..] == steps[1..][..k];
    assert steps[..k + 2][1..] == steps[1..][..k + 1];
  }

  /** With no failing write the connection runs until the client stops, answering every payload. */
  lemma ConverseWithoutWriteFailure(steps: seq<Step>)
    ensures Converse(steps, None, 0) == Transcript(FramesOf(steps), CallsOf(steps), ReadFailed)
  {
    ConverseAgainstReference(steps, None, 0);
  }

  /**
   * The executor sees exactly the valid messages of the connection, in
   * arrival order, each with the connection's device id and the five-minute
   * deadline; invalid payloads and empty messages never reach it.
   */
  lemma {:induction false} CallsOfReplies(env: Env, exec: CommandExecutor, deviceID: string, inbound: seq<string>)
    ensures CallsOf(Replies(env, exec, deviceID, inbound)) == CallsFor(deviceID, ValidMessages(env.json, inbound))
    decreases |inbound|
  {
    if inbound != [] {
      var rest := inbound[1..];
      assert inbound == [inbound[0]] + rest;
      RepliesCons(env, exec, deviceID, inbound[0], rest);
      CallsOfReplies(env, exec, deviceID, rest);
      var steps := Replies(env, exec, deviceID, inbound);
      assert steps[1..] == Replies(env, exec, deviceID, rest);
      var m := env.json.unmarshalRequest(inbound[0]);
      if m.Some? && m.value != "" {
        assert ValidMessages(env.json, inbound) == [m.value] + ValidMessages(env.json, rest);
      } else {
        assert ValidMessages(env.json, inbound) == ValidMessages(env.json, rest);
      }
    }
  }

  /**
   * At most one frame per payload, and each frame is one of the two
   * validation answers or the object extracted from the executor's
   * successful output for one of the valid messages.
   */
  lemma {:induction false} FramesOfReplies(env: Env, exec: CommandExecutor, deviceID: string, inbound: seq<string>)
    ensures |FramesOf(Replies(env, exec, deviceID, inbound))| <= |inbound|
    ensures forall f | f in FramesOf(Replies(env, exec, deviceID, inbound)) ::
              f == InvalidJsonPayload || f == MessageRequired
              || exists m | m in ValidMessages(env.json, inbound) :: ObjectReply(env, exec, deviceID, m) == Some(f)
    decreases |inbound|
  {
    if inbound != [] {
      var rest := inbound[1..];
      assert inbound == [inbound[0]] + rest;
      RepliesCons(env, exec, deviceID, inbound[0], rest);
      FramesOfReplies(env, exec, deviceID, rest);
      var steps := Replies(env, exec, deviceID, inbound);
      assert steps[1..] == Replies(env, exec, deviceID, rest);
      var m := env.json.unmarshalRequest(inbound[0]);
      if m.Some? && m.value != "" {
        assert ValidMessages(env.json, inbound) == [m.value] + ValidMessages(env.json, rest);
      } else {
        assert ValidMessages(env.json, inbound) == ValidMessages(env.json, rest);
      }
    }
  }

  /** The object relayed for a message is what extraction returns on the executor's successful output. */
  lemma ObjectReplyIsExtracted(env: Env, exec: CommandExecutor, deviceID: string, message: string, f: string)
    requires ObjectReply(env, exec, deviceID, message) == Some(f)
    ensures var result := RunExecutor(exec, env.os, CallContext, deviceID, message);
            result.err.None? && ExtractedObject(env.json, result.output) == Success(f)
            && f != [] && f[0] == '{' && env.json.valid(f)
  {
    var result := RunExecutor(exec, env.os, CallContext, deviceID, message);
    ExtractedIsTrimmedSpan(env.json, result.output);
  }

  /** A payload that does not decode is answered with "invalid json payload"; no call is made and the loop goes on. */
  lemma InvalidPayloadAnswered(env: Env, exec: CommandExecutor, deviceID: string, payload: string, rest: seq<string>,
                               failingWrite: Option<nat>, writes: nat)
    requires env.json.unmarshalRequest(payload).None?
    requires failingWrite != Some(writes)
    ensures Converse(Replies(env, exec, deviceID, [payload] + rest), failingWrite, writes)
            == Prepend([InvalidJsonPayload], [], Converse(Replies(env, exec, deviceID, rest), failingWrite, writes + 1))
  {
    RepliesCons(env, exec, deviceID, payload, rest);
  }

  /** A payload with an empty message is answered with "message is required"; no call is made and the loop goes on. */
  lemma EmptyMessageAnswered(env: Env, exec: CommandExecutor, deviceID: string, payload: string, rest: seq<string>,
                             failingWrite: Option<nat>, writes: nat)
    requires env.json.unmarshalRequest(payload) == Some("")
    requires failingWrite != Some(writes)
    ensures Converse(Replies(env, exec, deviceID, [payload] + rest), failingWrite, writes)
            == Prepend([MessageRequired], [], Converse(Replies(env, exec, deviceID, rest), failingWrite, writes + 1))
  {
    RepliesCons(env, exec, deviceID, payload, rest);
  }

  /**
   * When the executor fails, the message is called for but nothing is sent,
   * even if the partial output holds an object, and the loop goes on.
   */
  lemma ExecutorFailureSendsNothing(env: Env, exec: CommandExecutor, deviceID: string, payload: string, message: string,
                                    rest: seq<string>, failingWrite: Option<nat>, writes: nat)
    requires env.json.unmarshalRequest(payload) == Some(message) && message != ""
    requires RunExecutor(exec, env.os, CallContext, deviceID, message).err.Some?
    ensures Converse(Replies(env, exec, deviceID, [payload] + rest), failingWrite, writes)
            == Prepend([], [Call(CallContext, deviceID, message)], Converse(Replies(env, exec, deviceID, rest), failingWrite, writes))
  {
    RepliesCons(env, exec, deviceID, payload, rest);
  }

  /** When the executor succeeds but its output holds no object, nothing is sent and the loop goes on. */
  lemma NoObjectSendsNothing(env: Env, exec: CommandExecutor, deviceID: string, payload: string, message: string,
                             rest: seq<string>, failingWrite: Option<nat>, writes: nat)
    requires env.json.unmarshalRequest(payload) == Some(message) && message != ""
    requires ExtractedObject(env.json, RunExecutor(exec, env.os, CallContext, deviceID, message).output).Failure?
    ensures Converse(Replies(env, exec, deviceID, [payload] + rest), failingWrite, writes)
            == Prepend([], [Call(CallContext, deviceID, message)], Converse(Replies(env, exec, deviceID, rest), failingWrite, writes))
  {
    RepliesCons(env, exec, deviceID, payload, rest);
  }

  /**
   * A message the executor answers with an object gets exactly that object as
   * its one frame; if that write fails the connection ends there.
   */
  lemma ObjectRelayed(env: Env, exec: CommandExecutor, deviceID: string, payload: string, message: string, obj: string,
                      rest: seq<string>, failingWrite: Option<nat>, writes: nat)
    requires env.json.unmarshalRequest(payload) == Some(message) && message != ""
    requires RunExecutor(exec, env.os, CallContext, deviceID, message).err.None?
    requires ExtractedObject(env.json, RunExecutor(exec, env.os, CallContext, deviceID, message).output) == Success(obj)
    ensures var t := Converse(Replies(env, exec, deviceID, [payload] + rest), failingWrite, writes);
            var call := Call(CallContext, deviceID, message);
            t == if failingWrite == Some(writes) then Transcript([], [call], WriteFailed)
                 else Prepend([obj], [call], Converse(Replies(env, exec, deviceID, rest), failingWrite, writes + 1))
  {
    RepliesCons(env, exec, deviceID, payload, rest);
  }

  /** A request without a device id gets 400 and the error body; nothing else happens. */
  lemma MissingDeviceIdRejected(env: Env, exec: CommandExecutor, deviceIdParam: Option<string>, peer: Peer)
    ensures Handle(env, exec, deviceIdParam, peer).Rejected? <==> deviceIdParam.None? || deviceIdParam == Some("")
    ensures Handle(env, exec, deviceIdParam, peer).Rejected? ==>
              Handle(env, exec, deviceIdParam, peer) == Rejected(StatusBadRequest, DeviceIdRequiredBody)
  {
  }

  /**
   * The whole connection when no write fails: every payload is answered as
   * the reference says, the executor sees the valid messages in order, and
   * the connection ends when the client stops sending.
   */
  lemma ServedWithoutWriteFailure(env: Env, exec: CommandExecutor, deviceID: string, inbound: seq<string>)
    requires deviceID != ""
    ensures Handle(env, exec, Some(deviceID), Peer(true, inbound, None))
            == Served(Transcript(FramesOf(Replies(env, exec, deviceID, inbound)),
                                 CallsFor(deviceID, ValidMessages(env.json, inbound)), ReadFailed))
  {
    ConverseWithoutWriteFailure(Replies(env, exec, deviceID, inbound));
    CallsOfReplies(env, exec, deviceID, inbound);
  }

  /**
   * The scenario of the server's keep-connection test: two messages on one
   * connection to a fake executor that always prints
   * `before {"result":"ok"} after`; both are answered with the object
   * `{"result":"ok"}` and the fake records both messages, in order, for the
   * connection's device id.
   */
  lemma KeepConnectionScenario(env: Env, run: (Context, string, string) -> RunResult, hello: string, world: string)
    requires env.json.unmarshalRequest(hello) == Some("hello")
    requires env.json.unmarshalRequest(world) == Some("world")
    requires forall ctx, d, m :: run(ctx, d, m) == RunResult("before {\"result\":\"ok\"} after", None)
    requires env.json.decodeObject("{\"result\":\"ok\"} after") == Some(15)
    requires env.json.valid("{\"result\":\"ok\"}")
    ensures Handle(env, Injected(run), Some("device-1"), Peer(true, [hello, world], None))
            == Served(Transcript(["{\"result\":\"ok\"}", "{\"result\":\"ok\"}"],
                                 [Call(CallContext, "device-1", "hello"), Call(CallContext, "device-1", "world")], ReadFailed))
  {
    var exec := Injected(run);
    var obj := "{\"result\":\"ok\"}";
    ResultOkExample(env.json);
    assert Replies(env, exec, "device-1", []) == [];
    ObjectRelayed(env, exec, "device-1", world, "world", obj, [], None, 1);
    assert [hello, world] == [hello] + [world] && [world] == [world] + [];
    ObjectRelayed(env, exec, "device-1", hello, "hello", obj, [world], None, 0);
  }

  /**
   * The scenario of the server's executor-error test: the executor fails with
   * partial output that holds an object; the client receives nothing.
   */
  lemma ExecutorErrorScenario(env: Env, run: (Context, string, string) -> RunResult, partial: string, err: GoErrors.Error,
                              hello: string)
    requires env.json.unmarshalRequest(hello) == Some("hello")
    requires forall ctx, d, m :: run(ctx, d, m) == RunResult(partial, Some(err))
    ensures Handle(env, Injected(run), Some("device-1"), Peer(true, [hello], None))
            == Served(Transcript([], [Call(CallContext, "device-1", "hello")], ReadFailed))
  {
    assert Replies(env, Injected(run), "device-1", []) == [];
    assert [hello] == [hello] + [];
    ExecutorFailureSendsNothing(env, Injected(run), "device-1", hello, "hello", [], None, 0);
  }

  /** The scenario of the server's invalid-JSON test: `not-json` is answered with "invalid json payload". */
  lemma InvalidJsonScenario(env: Env, exec: CommandExecutor)
    requires env.json.unmarshalRequest("not-json").None?
    ensures Handle(env, exec, Some("device-1"), Peer(true, ["not-json"], None))
            == Served(Transcript([InvalidJsonPayload], [], ReadFailed))
  {
    assert Replies(env, exec, "device-1", []) == [];
    assert ["not-json"] == ["not-json"] + [];
    InvalidPayloadAnswered(env, exec, "device-1", "not-json", [], None, 0);
  }
}
