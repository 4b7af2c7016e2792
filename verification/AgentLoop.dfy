/**
  TcpCommandListener.HandleClientAsync as a party of the protocol machine: at every await
  all others take any legal steps, and the loop's own steps are legal in the order in which
  the code takes them. Module Listener has the same loop on the bytes of one connection.
 */
module AgentLoop {
  import opened Common
  import opened Framing
  import opened Channel
  import opened ChannelRuns
  import RemoteAgent

  /** The steps of the agent's loop on connection i. */
  predicate OnConn(s: Step, i: ConnId) {
    ByAgent(s) && s.conn == i
  }

  /** What the loop on connection i did in a history. */
  function Own(steps: seq<Step>, i: ConnId): seq<Step> {
    if steps == [] then []
    else
      var last := steps[|steps| - 1];
      Own(steps[..|steps| - 1], i) + if OnConn(last, i) then [last] else []
  }

  lemma OwnGrows(steps: seq<Step>, s: Step, i: ConnId)
    ensures Own(steps + [s], i) == Own(steps, i) + if OnConn(s, i) then [s] else []
  {
    assert (steps + [s])[..|steps|] == steps;
  }

  /** Nobody else moves the agent's loop on a connection. */
  lemma LoopIsOwn(x: Codec, w: Net, s: Step, i: ConnId)
    requires Enabled(x, w, s) && i < |w.conns| && !OnConn(s, i)
    ensures i < |Apply(x, w, s).conns| && Apply(x, w, s).conns[i].server == w.conns[i].server
  {
  }

  // ---------------------------------------------------------------- what the loop does

  /** The steps of one round from its response on: the response, its bytes in any portions. */
  ghost predicate Writes(steps: seq<Step>, i: ConnId, r: Response) {
    steps != [] && steps[0] == Respond(i, r) && forall k | 0 < k < |steps| :: steps[k].Push? && steps[k].conn == i
  }

  /** A whole round: a command is taken, answered, and its response written to the end. */
  ghost predicate Round(steps: seq<Step>, i: ConnId, r: Response) {
    |steps| >= 3 && steps[0] == Take(i) && Writes(steps[1..|steps| - 1], i, r) && steps[|steps| - 1] == Rest(i)
  }

  /** Whole rounds with these responses in this order. */
  ghost predicate Rounds(steps: seq<Step>, i: ConnId, responses: seq<Response>)
    decreases |responses|
  {
    if responses == [] then steps == []
    else
      var last := |responses| - 1;
      exists k :: 0 <= k <= |steps| && Rounds(steps[..k], i, responses[..last]) && Round(steps[k..], i, responses[last])
  }

  /** A round that breaks off: nothing, a command without response, or part of a response. */
  ghost predicate BrokenRound(steps: seq<Step>, i: ConnId) {
    steps == [] || (steps[0] == Take(i) && (|steps| == 1 || exists r :: Writes(steps[1..], i, r)))
  }

  lemma OneMoreRound(done: seq<Step>, round: seq<Step>, i: ConnId, responses: seq<Response>, r: Response)
    requires Rounds(done, i, responses) && Round(round, i, r)
    ensures Rounds(done + round, i, responses + [r])
  {
    var all := done + round;
    assert all[..|done|] == done && all[|done|..] == round;
    assert (responses + [r])[..|responses|] == responses;
  }

  /** From `before` to `after` the loop did whole rounds, and then perhaps one that broke off. */
  ghost predicate Looped(before: seq<Step>, after: seq<Step>, i: ConnId, responses: seq<Response>, broken: seq<Step>) {
    BrokenRound(broken, i) && exists done :: Rounds(done, i, responses) && after == before + done + broken
  }

  lemma LoopStarts(before: seq<Step>, i: ConnId)
    ensures Looped(before, before, i, [], [])
  {
    assert Rounds([], i, []);
    assert before == before + [] + [];
  }

  lemma LoopGoesOn(before: seq<Step>, after: seq<Step>, i: ConnId, responses: seq<Response>, round: seq<Step>, r: Response)
    requires Looped(before, after, i, responses, []) && Round(round, i, r)
    ensures Looped(before, after + round, i, responses + [r], [])
  {
    var done := WholeRounds(before, after, i, responses);
    OneMoreRound(done, round, i, responses, r);
    Regroup(before, done, round);
    LoopedWith(before, after + round, i, responses + [r], done + round);
  }

  lemma Regroup(a: seq<Step>, b: seq<Step>, c: seq<Step>)
    ensures a + b + c == a + (b + c)
  {
  }

  lemma WholeRounds(before: seq<Step>, after: seq<Step>, i: ConnId, responses: seq<Response>) returns (done: seq<Step>)
    requires Looped(before, after, i, responses, [])
    ensures Rounds(done, i, responses) && after == before + done
  {
    done :| Rounds(done, i, responses) && after == before + done + [];
  }

  lemma LoopedWith(before: seq<Step>, after: seq<Step>, i: ConnId, responses: seq<Response>, done: seq<Step>)
    requires Rounds(done, i, responses) && after == before + done
    ensures Looped(before, after, i, responses, [])
  {
    assert after == before + done + [];
  }

  lemma LoopBreaks(before: seq<Step>, after: seq<Step>, i: ConnId, responses: seq<Response>, broken: seq<Step>)
    requires Looped(before, after, i, responses, []) && BrokenRound(broken, i)
    ensures Looped(before, after + broken, i, responses, broken)
  {
    var done :| Rounds(done, i, responses) && after == before + done + [];
    assert after + broken == before + done + broken;
  }

  // ---------------------------------------------------------------- the code

  class Connection {
    const network: RemoteAgent.Network
    const conn: ConnId

    /** The connection exists and its loop stands at `server`. */
    ghost predicate At(server: Server)
      reads network
    {
      network.Valid() && conn < |network.net.conns| && network.net.conns[conn].server == server
    }

    constructor (network: RemoteAgent.Network, conn: ConnId)
      requires network.Valid() && conn < |network.net.conns| && network.net.conns[conn].server == Waiting
      ensures At(Waiting) && this.network == network && this.conn == conn
    {
      this.network, this.conn := network, conn;
    }

    /** Everybody else: any number of legal steps that are not this loop's. */
    method Others(ghost server: Server)
      requires At(server)
      modifies network
      ensures At(server) && Own(network.trace, conn) == Own(old(network.trace), conn)
    {
      var steps: seq<Step> := *;
      var i := 0;
      while i < |steps|
        invariant 0 <= i <= |steps|
        invariant At(server) && Own(network.trace, conn) == Own(old(network.trace), conn)
      {
        var s := steps[i];
        if Enabled(network.codec, network.net, s) && !OnConn(s, conn) {
          LoopIsOwn(network.codec, network.net, s, conn);
          OwnGrows(network.trace, s, conn);
          network.Do(s);
        }
        i := i + 1;
      }
    }

    /** One step of this loop. */
    method Do(s: Step)
      requires network.Valid() && Enabled(network.codec, network.net, s) && OnConn(s, conn)
      modifies network
      ensures network.Valid() && network.net == Apply(network.codec, old(network.net), s)
      ensures Own(network.trace, conn) == Own(old(network.trace), conn) + [s]
    {
      OwnGrows(network.trace, s, conn);
      network.Do(s);
    }

    /** No complete, readable command has arrived. */
    ghost predicate NoCommand()
      reads network
    {
      conn < |network.net.conns| && Requested(network.codec, network.net.conns[conn]).None?
    }

    /** ReadMessageAsync: a whole command, or None for a disconnect, a bad message or a shutdown. */
    method ReadCommand() returns (command: Option<Command>)
      requires At(Waiting)
      modifies network
      ensures command.Some? ==> At(Handling(command.value)) &&
                                Own(network.trace, conn) == Own(old(network.trace), conn) + [Take(conn)]
      ensures command.None? ==> At(Waiting) && Own(network.trace, conn) == Own(old(network.trace), conn)
      ensures network.calm && command.None? ==> NoCommand()
    {
      Others(Waiting);
      network.History();
      BookkeepingNeverBlocks(network.codec, network.net, conn);
      var stops: bool := *;
      command := Requested(network.codec, network.net.conns[conn]);
      if (stops && !network.calm) || command.None? {
        return None;
      }
      Do(Take(conn));
    }

    /** The dispatch, and the write of its response, tagged with the command's correlation id. */
    method Answer(command: Command) returns (response: Response, ok: bool)
      requires At(Handling(command))
      modifies network
      ensures response.correlationId == command.correlationId
      ensures ok ==> At(Answering([]))
      ensures network.Valid() && conn < |network.net.conns|
      ensures var before, after := Own(old(network.trace), conn), Own(network.trace, conn);
              before <= after &&
              if ok then Writes(after[|before|..], conn, response) && |after| >= |before| + 2
              else after == before || Writes(after[|before|..], conn, response)
      ensures network.calm && !ok ==> Own(network.trace, conn) == Own(old(network.trace), conn) &&
                                      |network.codec.putResponse(response)| >= INT32_LIMIT
    {
      var content: string := *;
      response := Response(command.correlationId, content);
      Others(Handling(command));
      network.History();
      BookkeepingNeverBlocks(network.codec, network.net, conn);
      if |network.codec.putResponse(response)| >= INT32_LIMIT {
        return response, false;
      }
      Do(Respond(conn, response));
      ok := WriteOut(Own(old(network.trace), conn), response);
    }

    /** WriteAsync, in portions; false for an exception. */
    method WriteOut(ghost before: seq<Step>, ghost response: Response) returns (ok: bool)
      requires |network.codec.putResponse(response)| < INT32_LIMIT
      requires At(Answering(Frame(network.codec.putResponse(response))))
      requires Own(network.trace, conn) == before + [Respond(conn, response)]
      modifies network
      ensures network.Valid() && conn < |network.net.conns| && before <= Own(network.trace, conn)
      ensures Writes(Own(network.trace, conn)[|before|..], conn, response)
      ensures ok ==> At(Answering([])) && |Own(network.trace, conn)| >= |before| + 2
      ensures network.calm ==> ok
    {
      ghost var total := Frame(network.codec.putResponse(response));
      var rest := network.net.conns[conn].server.rest;
      while rest != []
        invariant At(Answering(rest)) && before <= Own(network.trace, conn)
        invariant Writes(Own(network.trace, conn)[|before|..], conn, response)
        invariant |Own(network.trace, conn)| >= |before| + if rest == total then 1 else 2
        decreases |rest|
      {
        Others(Answering(rest));
        var fails: bool := *;
        if fails && !network.calm {
          return false;
        }
        var some: int := *;
        var n := if 0 < some <= |rest| then some else |rest|;
        ghost var own := Own(network.trace, conn);
        Do(Push(conn, n));
        rest := rest[n..];
        assert (own + [Push(conn, n)])[|before|..] == own[|before|..] + [Push(conn, n)];
      }
      return true;
    }

    /**
      The loop, for at most as many rounds as the client sends commands. It takes only its
      own legal steps: whole rounds, each a command and then its response with the same
      correlation id, perhaps a round that breaks off, and the end of the loop. On a calm
      network it ends early only when no command has arrived or a response is too large.
     */
    method HandleClient(rounds: nat) returns (commands: seq<Command>, responses: seq<Response>)
      requires At(Waiting)
      modifies network
      ensures At(Gone) && |responses| == |commands|
      ensures forall k | 0 <= k < |responses| :: responses[k].correlationId == commands[k].correlationId
      ensures exists after, broken ::
                Looped(Own(old(network.trace), conn), after, conn, responses, broken) &&
                Own(network.trace, conn) == after + [Quit(conn)] &&
                (network.calm ==> |responses| == rounds || broken == [Take(conn)] || NoCommand())
    {
      commands, responses := [], [];
      ghost var start, broken := Own(network.trace, conn), [];
      LoopStarts(start, conn);
      var goesOn := true;
      for k := 0 to rounds
        invariant |responses| == |commands| && network.Valid() && conn < |network.net.conns|
        invariant forall j | 0 <= j < |responses| :: responses[j].correlationId == commands[j].correlationId
        invariant goesOn ==> At(Waiting) && broken == []
        invariant Looped(start, Own(network.trace, conn), conn, responses, broken)
        invariant goesOn ==> |responses| == k
        invariant network.calm && !goesOn ==> broken == [Take(conn)] || NoCommand()
      {
        if goesOn {
          ghost var before := Own(network.trace, conn);
          ghost var round;
          var command, response;
          goesOn, command, response, round := ServeNext();
          if goesOn {
            LoopGoesOn(start, before, conn, responses, round, response);
            commands, responses := commands + [command.value], responses + [response];
          } else {
            LoopBreaks(start, before, conn, responses, round);
            broken := round;
          }
        }
      }
      ghost var after := Own(network.trace, conn);
      Do(Quit(conn));
      assert Looped(start, after, conn, responses, broken);
    }

    /** One round; false when the loop ends. */
    method ServeNext() returns (goesOn: bool, command: Option<Command>, response: Response, ghost round: seq<Step>)
      requires At(Waiting)
      modifies network
      ensures network.Valid() && conn < |network.net.conns|
      ensures Own(network.trace, conn) == Own(old(network.trace), conn) + round
      ensures goesOn ==> At(Waiting) && command.Some? && Round(round, conn, response) &&
                         response.correlationId == command.value.correlationId
      ensures !goesOn ==> BrokenRound(round, conn)
      ensures network.calm && !goesOn ==>
                (command.None? && NoCommand()) ||
                (round == [Take(conn)] && |network.codec.putResponse(response)| >= INT32_LIMIT)
    {
      response, goesOn, round := Response(0, ""), false, [];
      command := ReadCommand();
      if command.None? {
        return;
      }
      ghost var before := Own(network.trace, conn);
      var ok;
      response, ok := Answer(command.value);
      ghost var written := Own(network.trace, conn)[|before|..];
      round := [Take(conn)] + written;
      assert round[1..] == written;
      if ok {
        Do(Rest(conn));
        round := round + [Rest(conn)];
        assert round[1..|round| - 1] == written;
        goesOn := true;
      }
    }
  }
}
