/** TcpCommandListener.HandleClientAsync: one connection, one command and one response at a time. */
module Listener {
  import opened Common
  import opened Framing
  import opened Channel

  /** The commands the loop reads from a stream: up to its end or the first unusable message. */
  function Commands(x: Codec, data: seq<byte>): seq<Command>
    decreases |data|
  {
    match Parse(data)
    case (Message(body), rest) =>
      assert |rest| < |data|;
      (match x.getCommand(body)
       case Some(cmd) => [cmd] + Commands(x, rest)
       case None => [])
    case _ => []
  }

  function Requests(x: Codec, cmds: seq<Command>): (bodies: seq<seq<byte>>)
    ensures |bodies| == |cmds| && forall i | 0 <= i < |cmds| :: bodies[i] == x.putCommand(cmds[i])
  {
    seq(|cmds|, i requires 0 <= i < |cmds| => x.putCommand(cmds[i]))
  }

  function Replies(x: Codec, responses: seq<Response>): (bodies: seq<seq<byte>>)
    ensures |bodies| == |responses| && forall i | 0 <= i < |responses| :: bodies[i] == x.putResponse(responses[i])
  {
    seq(|responses|, i requires 0 <= i < |responses| => x.putResponse(responses[i]))
  }

  /** A client's stream of commands, cut anywhere, is served as exactly the whole commands in it. */
  lemma {:induction false} CommandsOfStream(x: Codec, cmds: seq<Command>, k: nat)
    requires Faithful(x) && InRange(Requests(x, cmds)) && k <= |Frames(Requests(x, cmds))|
    ensures Commands(x, Frames(Requests(x, cmds))[..k]) == cmds[..WholeFrames(Requests(x, cmds), k)]
    decreases |cmds|
  {
    if cmds != [] {
      var body, rest := x.putCommand(cmds[0]), Requests(x, cmds[1..]);
      CutAtFirst(x, cmds, k);
      if k < |Frame(body)| {
        NoCommandYet(x, body, k);
      } else {
        var j := k - |Frame(body)|;
        CommandsOfStream(x, cmds[1..], j);
        FirstCommand(x, cmds, Frames(rest)[..j], WholeFrames(rest, j));
      }
    }
  }

  lemma CutAtFirst(x: Codec, cmds: seq<Command>, k: nat)
    requires cmds != [] && InRange(Requests(x, cmds)) && k <= |Frames(Requests(x, cmds))|
    ensures var bodies, first, rest := Requests(x, cmds), Frame(x.putCommand(cmds[0])), Requests(x, cmds[1..]);
            InRange(rest) &&
            if k < |first| then Frames(bodies)[..k] == first[..k] && WholeFrames(bodies, k) == 0
            else k - |first| <= |Frames(rest)| && Frames(bodies)[..k] == first + Frames(rest)[..k - |first|] &&
                 WholeFrames(bodies, k) == 1 + WholeFrames(rest, k - |first|)
  {
    var bodies := Requests(x, cmds);
    assert bodies[1..] == Requests(x, cmds[1..]);
    assert 1 <= |bodies[0]| <= MAX_MESSAGE_BYTES;
    CutConcat(Frame(bodies[0]), Frames(bodies[1..]), k);
  }

  lemma NoCommandYet(x: Codec, body: seq<byte>, k: nat)
    requires 1 <= |body| <= MAX_MESSAGE_BYTES && k < |Frame(body)|
    ensures Commands(x, Frame(body)[..k]) == []
  {
    TruncatedFrame(body, k);
  }

  lemma FirstCommand(x: Codec, cmds: seq<Command>, rest: seq<byte>, n: nat)
    requires Faithful(x) && cmds != [] && n < |cmds| && 1 <= |x.putCommand(cmds[0])| <= MAX_MESSAGE_BYTES
    requires Commands(x, rest) == cmds[1..][..n]
    ensures Commands(x, Frame(x.putCommand(cmds[0])) + rest) == cmds[..n + 1]
  {
    FrameRoundTrip(x.putCommand(cmds[0]), rest);
    assert x.getCommand(x.putCommand(cmds[0])) == Some(cmds[0]);
    assert cmds[..n + 1] == [cmds[0]] + cmds[1..][..n];
  }

  lemma {:induction false} FramesSnoc(bodies: seq<seq<byte>>, body: seq<byte>)
    ensures Frames(bodies + [body]) == Frames(bodies) + Wire(body)
    decreases |bodies|
  {
    if bodies == [] {
      assert bodies + [body] == [body];
    } else {
      assert (bodies + [body])[1..] == bodies[1..] + [body];
      FramesSnoc(bodies[1..], body);
    }
  }

  lemma RepliesSnoc(x: Codec, responses: seq<Response>, r: Response)
    ensures Frames(Replies(x, responses + [r])) == Frames(Replies(x, responses)) + Wire(x.putResponse(r))
  {
    assert Replies(x, responses + [r]) == Replies(x, responses) + [x.putResponse(r)];
    FramesSnoc(Replies(x, responses), x.putResponse(r));
  }

  /** The business logic: any response, or an exception turned into an error response. */
  method Dispatch(cmd: Command) returns (r: Response)
  {
    var id: nat := 0;
    var content: string := *;
    r := Response(id, content);
  }

  /** What is on the stream after responses were written to it, all of them whole. */
  ghost predicate Wrote(x: Codec, before: seq<byte>, after: seq<byte>, responses: seq<Response>) {
    after == before + Frames(Replies(x, responses))
  }

  /** The same, but the write of the last response failed. */
  ghost predicate BrokeOff(x: Codec, before: seq<byte>, after: seq<byte>, responses: seq<Response>) {
    responses != [] &&
    var last := |responses| - 1;
    var whole := before + Frames(Replies(x, responses[..last]));
    whole <= after && CutShort(after[|whole|..], x.putResponse(responses[last]))
  }

  /** The last response cannot be serialised. */
  ghost predicate TooLarge(x: Codec, responses: seq<Response>) {
    responses != [] && |x.putResponse(responses[|responses| - 1])| >= INT32_LIMIT
  }

  /** Dispatch one command and write its response, tagged with the command's correlation id. */
  method Serve(x: Codec, command: Command, output: ByteSink) returns (response: Response, ok: bool)
    modifies output
    ensures response.correlationId == command.correlationId
    ensures Sent(old(output.written), output.written, x.putResponse(response), ok)
    ensures output.steady ==> (ok <==> |x.putResponse(response)| < INT32_LIMIT)
  {
    response := Dispatch(command);
    response := response.(correlationId := command.correlationId);
    ok := output.WriteMessage(x.putResponse(response));
  }

  /** One round of the loop: read a command, dispatch it, respond. Nothing when the loop ends. */
  method ServeNext(x: Codec, input: ByteStream, output: ByteSink)
    returns (command: Option<Command>, response: Response, ok: bool)
    modifies input, output
    ensures command.None? ==> Commands(x, old(input.unread)) == [] && output.written == old(output.written)
    ensures command.Some? ==>
              Commands(x, old(input.unread)) == [command.value] + Commands(x, input.unread) &&
              |input.unread| < |old(input.unread)| && response.correlationId == command.value.correlationId
    ensures command.Some? ==> Sent(old(output.written), output.written, x.putResponse(response), ok)
    ensures command.Some? && output.steady ==> (ok <==> |x.putResponse(response)| < INT32_LIMIT)
  {
    command, response, ok := None, Response(0, ""), true;
    var r := input.ReadMessage();
    if r.Message? {
      command := x.getCommand(r.body);
      if command.Some? {
        response, ok := Serve(x, command.value, output);
      }
    }
  }

  /**
    The loop on one connection. It dispatches the commands of the stream in order, all of
    them unless the agent shuts down or a write fails, and the responses go out in the same
    order, each with the correlation id of its command.
   */
  method HandleClient(x: Codec, input: ByteStream, output: ByteSink)
    returns (dispatched: seq<Command>, responses: seq<Response>, stopped: bool, broken: bool)
    modifies input, output
    ensures dispatched <= Commands(x, old(input.unread))
    ensures !stopped && !broken ==> dispatched == Commands(x, old(input.unread))
    ensures |responses| == |dispatched|
    ensures forall i | 0 <= i < |responses| :: responses[i].correlationId == dispatched[i].correlationId
    ensures !broken ==> Wrote(x, old(output.written), output.written, responses)
    ensures broken ==> BrokeOff(x, old(output.written), output.written, responses)
    ensures output.steady ==> !stopped && (broken ==> TooLarge(x, responses))
  {
    dispatched, responses, stopped, broken := [], [], false, false;
    while true
      invariant |responses| == |dispatched|
      invariant Commands(x, old(input.unread)) == dispatched + Commands(x, input.unread)
      invariant forall i | 0 <= i < |responses| :: responses[i].correlationId == dispatched[i].correlationId
      invariant Wrote(x, old(output.written), output.written, responses)
      decreases |input.unread|
    {
      stopped := *;
      stopped := stopped && !output.steady;
      if stopped {
        return;
      }
      ghost var before := output.written;
      var command, response, ok := ServeNext(x, input, output);
      if command.None? {
        return;
      }
      Served(x, dispatched, command.value, input.unread);
      Answered(x, old(output.written), before, output.written, responses, response, ok);
      dispatched, responses := dispatched + [command.value], responses + [response];
      if !ok {
        broken := true;
        return;
      }
    }
  }

  lemma Served(x: Codec, done: seq<Command>, cmd: Command, rest: seq<byte>)
    ensures done + ([cmd] + Commands(x, rest)) == done + [cmd] + Commands(x, rest)
  {
  }

  /** One more response after whole ones. */
  lemma Answered(x: Codec, start: seq<byte>, before: seq<byte>, after: seq<byte>,
                 responses: seq<Response>, r: Response, ok: bool)
    requires Wrote(x, start, before, responses) && Sent(before, after, x.putResponse(r), ok)
    ensures if ok then Wrote(x, start, after, responses + [r]) else BrokeOff(x, start, after, responses + [r])
  {
    if ok {
      RepliesSnoc(x, responses, r);
      Regroup(start, Frames(Replies(x, responses)), Wire(x.putResponse(r)));
    } else {
      var all, n := responses + [r], |responses|;
      assert all[..n] == responses && all[n] == r;
      assert start + Frames(Replies(x, all[..n])) == before;
    }
  }

  lemma Regroup(a: seq<byte>, b: seq<byte>, c: seq<byte>)
    ensures a + b + c == a + (b + c)
  {
  }

  /**
    End to end on one undisturbed connection: a client that writes commands of legal size
    and then closes is served every one of them, and if the responses are of legal size it
    reads back exactly them, the i-th carrying the correlation id of the i-th command.
   */
  method Session(x: Codec, cmds: seq<Command>, steady: bool)
    returns (responses: seq<Response>, stopped: bool, broken: bool, received: seq<seq<byte>>)
    requires Faithful(x) && InRange(Requests(x, cmds))
    ensures steady ==> !stopped && (broken ==> TooLarge(x, responses))
    ensures !stopped && !broken ==>
              |responses| == |cmds| &&
              (forall i | 0 <= i < |cmds| :: responses[i].correlationId == cmds[i].correlationId) &&
              (InRange(Replies(x, responses)) ==>
                 |received| == |cmds| &&
                 forall i | 0 <= i < |cmds| :: x.getResponse(received[i]) == Some(responses[i]))
  {
    var input := new ByteStream(Frames(Requests(x, cmds)));
    var output := new ByteSink(steady);
    var dispatched: seq<Command>;
    dispatched, responses, stopped, broken := HandleClient(x, input, output);
    var back := new ByteStream(output.written);
    var last: Outcome;
    received, last := back.ReadAll();
    if !stopped && !broken {
      CommandsOfStream(x, cmds, |Frames(Requests(x, cmds))|);
      assert Frames(Requests(x, cmds))[..|Frames(Requests(x, cmds))|] == Frames(Requests(x, cmds));
      AllFrames(Requests(x, cmds));
      assert cmds[..|cmds|] == cmds;
      if InRange(Replies(x, responses)) {
        assert [] + Frames(Replies(x, responses)) == Frames(Replies(x, responses));
        StreamRoundTrip(Replies(x, responses));
      }
    }
  }

  lemma {:induction false} AllFrames(bodies: seq<seq<byte>>)
    ensures WholeFrames(bodies, |Frames(bodies)|) == |bodies|
    decreases |bodies|
  {
    if bodies != [] {
      AllFrames(bodies[1..]);
    }
  }
}
