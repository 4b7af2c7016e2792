/**
  RemoteAgentService as the code is written: fields, a semaphore, and steps in order. At
  every await `Others` lets other callers, the connection monitor and the agent take any
  legal steps of the protocol machine.
 */
module RemoteAgent {
  import opened Common
  import opened Framing
  import opened Channel
  import opened ChannelRuns

  /**
    The protocol machine with its history. When `calm` holds, connections succeed, waits are
    not cancelled, writes and reads do not fail, the agent does not hang up, and no other
    caller acts.
   */
  class Network {
    const codec: Codec
    const calm: bool
    var net: Net
    ghost var trace: seq<Step>

    /** The quantifier only keeps callers from unfolding the run; `History` opens it. */
    ghost predicate Valid()
      reads this
    {
      forall i: nat :: StandsAt(i)
    }

    ghost predicate StandsAt(i: nat)
      reads this
    {
      i == |trace| ==> Faithful(codec) && Legal(codec, trace) && net == Run(codec, trace)
    }

    lemma History()
      requires Valid()
      ensures Faithful(codec) && Legal(codec, trace) && net == Run(codec, trace) && Inv(codec, net)
    {
      assert StandsAt(|trace|);
      InvRun(codec, trace);
    }

    constructor (codec: Codec, calm: bool)
      requires Faithful(codec)
      ensures Valid() && net == START && this.codec == codec && this.calm == calm
    {
      this.codec, this.calm, net, trace := codec, calm, START, [];
    }

    method Do(s: Step)
      requires Valid() && Enabled(codec, net, s)
      modifies this
      ensures Valid() && net == Apply(codec, old(net), s) && trace == old(trace) + [s]
    {
      History();
      net := Apply(codec, net, s);
      trace := trace + [s];
      assert trace[..|trace| - 1] == old(trace);
    }
  }

  /** The steps that belong to a call of SendCommandAsync, or to whoever is reconnecting. */
  predicate Mine(s: Step, me: Option<Call>, connecting: bool) {
    (me.Some? && Concerns(s, me.value)) ||
    (connecting && (s.ConnectSkip? || s.DropOld? || s.ConnectOk? || s.ConnectFails?))
  }

  ghost predicate SameInfo(w: Net, v: Net, me: Option<Call>) {
    me.Some? ==> (me.value in w.calls <==> me.value in v.calls) &&
                 (me.value in w.calls ==> v.calls[me.value] == w.calls[me.value])
  }

  /** What a party may rely on while others act. */
  ghost predicate Relies(w: Net, v: Net, me: Option<Call>, connecting: bool) {
    && SameInfo(w, v, me)
    && (connecting && w.holder.Connector? ==>
          v.holder == w.holder && v.stream == w.stream && v.connected == w.connected)
    && (me.Some? && w.holder == Sender(me.value) ==>
          v.holder == w.holder && v.stream == w.stream && v.connected == w.connected)
  }

  /** What happens on a calm network while the client waits: the agent goes on, and only it. */
  ghost predicate OnlyAgent(w: Net, v: Net) {
    && v.holder == w.holder && v.stream == w.stream && v.connected == w.connected && v.calls == w.calls
    && |v.conns| == |w.conns| && forall i | 0 <= i < |w.conns| && w.conns[i].server != Gone :: v.conns[i].server != Gone
  }

  lemma CalmStep(x: Codec, w: Net, s: Step)
    requires Enabled(x, w, s) && ByAgent(s) && !s.Quit?
    ensures OnlyAgent(w, Apply(x, w, s))
  {
    AgentKeepsClient(x, w, s);
  }

  /** The client's stream is connected to an agent that has not hung up. */
  predicate Served(w: Net) {
    Live(w) && w.conns[w.stream.value].server != Gone
  }

  lemma RelyStep(x: Codec, w: Net, s: Step, me: Option<Call>, connecting: bool)
    requires Inv(x, w) && Enabled(x, w, s) && !Mine(s, me, connecting)
    ensures Relies(w, Apply(x, w, s), me, connecting)
  {
  }

  class RemoteAgentService {
    const network: Network
    var stream: Option<ConnId>
    var isConnected: bool
    var semaphore: Holder

    ghost predicate Valid()
      reads this, network
    {
      network.Valid() && stream == network.net.stream && isConnected == network.net.connected &&
      semaphore == network.net.holder
    }

    constructor (network: Network)
      requires network.Valid() && network.net == START
      ensures Valid() && this.network == network
    {
      this.network := network;
      stream, isConnected, semaphore := None, false, Nobody;
    }

    /** Everybody else: any number of legal steps that are not this party's own. */
    method Others(me: Option<Call>, connecting: bool)
      requires Valid()
      modifies this, network
      ensures Valid() && Relies(old(network.net), network.net, me, connecting)
      ensures network.calm ==> OnlyAgent(old(network.net), network.net)
    {
      var steps: seq<Step> := *;
      var i := 0;
      while i < |steps|
        invariant 0 <= i <= |steps|
        invariant Valid() && Relies(old(network.net), network.net, me, connecting)
        invariant network.calm ==> OnlyAgent(old(network.net), network.net)
      {
        var s := steps[i];
        if Enabled(network.codec, network.net, s) && !Mine(s, me, connecting) &&
           (!network.calm || (ByAgent(s) && !s.Quit?)) {
          network.History();
          if network.calm {
            CalmStep(network.codec, network.net, s);
          }
          RelyStep(network.codec, network.net, s, me, connecting);
          network.Do(s);
          stream, isConnected, semaphore := network.net.stream, network.net.connected, network.net.holder;
        }
        i := i + 1;
      }
    }

    /** tcpClient.Connected: what the socket last noticed, on a calm network the truth. */
    method SocketUp() returns (up: bool)
      requires Valid()
      ensures network.calm && isConnected ==> (up <==> Served(network.net))
    {
      up := *;
      if network.calm {
        up := Served(network.net);
      }
    }

    /** Opens the connection if need be; false stands for an exception or a cancelled wait. */
    method EnsureConnected(me: Option<Call>) returns (ok: bool)
      requires Valid()
      requires me.Some? ==> semaphore != Sender(me.value)
      modifies this, network
      ensures Valid() && SameInfo(old(network.net), network.net, me)
      ensures ok ==> isConnected
      ensures network.calm && old(semaphore) == Nobody ==> ok && semaphore == Nobody && Served(network.net)
    {
      var socketUp := SocketUp();
      if isConnected && socketUp {
        return true;
      }
      Others(me, false);
      var cancelled: bool := *;
      if (cancelled && !network.calm) || semaphore != Nobody {
        return false;
      }
      semaphore := Connector(false);
      network.Do(Connect);
      Others(me, true);
      ok := Reconnect(me);
    }

    /** The try block of EnsureConnectedAsync, inside the semaphore. */
    method Reconnect(me: Option<Call>) returns (ok: bool)
      requires Valid() && semaphore == Connector(false)
      modifies this, network
      ensures Valid() && SameInfo(old(network.net), network.net, me)
      ensures semaphore == Nobody && ok == isConnected
      ensures ok ==> Live(network.net) && Quiet(network.net.conns[stream.value])
      ensures network.calm ==> ok && Served(network.net)
    {
      var socketUp := SocketUp();
      if isConnected && socketUp {
        network.History();
        semaphore := Nobody;
        network.Do(ConnectSkip);
        network.History();
        return true;
      }
      semaphore := Connector(true);
      network.Do(DropOld);
      Others(me, true);
      var connects: bool := *;
      connects := connects || network.calm;
      if connects {
        stream, isConnected, semaphore := Some(|network.net.conns|), true, Nobody;
        network.Do(ConnectOk);
      } else {
        isConnected, semaphore := false, Nobody;
        network.Do(ConnectFails);
      }
      network.History();
      return connects;
    }

    /**
      The response, or None for any exception. On a calm network with the semaphore free the
      request goes out whole, over a new connection if need be, and the response comes back
      if the agent's whole answer has arrived when it is read.
     */
    method SendCommand(k: Call, cmd: Command) returns (r: Option<Response>)
      requires Valid() && k !in network.net.calls
      modifies this, network
      ensures Valid() && InNet(k, cmd) && semaphore != Sender(k)
      ensures r.Some? ==> Answered(k, cmd, r.value)
      ensures r.None? ==> Lost(k)
      ensures network.calm && old(semaphore) == Nobody && |network.codec.putCommand(cmd)| < INT32_LIMIT ==>
                SentWhole(k) && (r.None? ==> NothingToRead(k))
    {
      network.Do(Enter(k, cmd));
      Others(Some(k), false);
      var socketUp := SocketUp();
      var ok := true;
      if !isConnected || !socketUp {
        Concludes(k);
        ok := EnsureConnected(Some(k));
      }
      Others(Some(k), false);
      var cancelled: bool := *;
      if !ok || (cancelled && !network.calm) || semaphore != Nobody {
        network.Do(GiveUp(k));
        r := None;
      } else {
        r := SendConnected(k);
      }
      Concludes(k);
    }

    /** The request of call k was written, to its last byte, to a connection whose agent was there. */
    ghost predicate SentWhole(k: Call)
      reads network
    {
      k in network.net.calls && network.net.calls[k].via.Some? && network.net.calls[k].unsent == [] &&
      network.net.calls[k].via.value < |network.net.conns| &&
      network.net.conns[network.net.calls[k].via.value].server != Gone
    }

    /** The connection of call k holds no complete, readable answer. */
    ghost predicate NothingToRead(k: Call)
      requires SentWhole(k)
      reads network
    {
      Incoming(network.codec, network.net.conns[network.net.calls[k].via.value]).None?
    }

    ghost predicate InNet(k: Call, cmd: Command)
      reads network
    {
      k in network.net.calls && network.net.calls[k].cmd == cmd
    }

    /** r is the agent's answer to call k, which it dispatched exactly once. */
    ghost predicate Answered(k: Call, cmd: Command, r: Response)
      reads network
    {
      r.correlationId == cmd.correlationId && multiset(network.net.log)[k] == 1 &&
      k in network.net.answers && network.net.answers[k] == r
    }

    /** Call k failed: dispatched at most once, and not at all if its frame was cut short. */
    ghost predicate Lost(k: Call)
      reads this, network
    {
      && k in network.net.calls && network.net.calls[k].phase == Failed && multiset(network.net.log)[k] <= 1
      && (network.net.calls[k].unsent != [] ==> k !in network.net.log)
      && (network.net.calls[k].via.Some? ==> !isConnected)
    }

    /** From the grant of the semaphore on: refuse, or exchange request and response. */
    method SendConnected(k: Call) returns (r: Option<Response>)
      requires Valid() && InPhase(network.net, k, Ready) && semaphore == Nobody
      modifies this, network
      ensures Valid() && InNet(k, old(network.net.calls[k].cmd))
      ensures r.Some? ==> network.net.calls[k].phase == Returned(r.value)
      ensures r.None? ==> network.net.calls[k].phase == Failed && !isConnected
      ensures network.calm && old(Served(network.net)) &&
              old(|network.codec.putCommand(network.net.calls[k].cmd)|) < INT32_LIMIT ==>
                SentWhole(k) && (r.None? ==> NothingToRead(k))
    {
      network.History();
      if !isConnected || stream.None? {
        isConnected := false;
        network.Do(Refuse(k));
        r := None;
      } else {
        semaphore := Sender(k);
        network.Do(Grant(k));
        r := Exchange(k);
      }
    }

    /** What the protocol's invariant says of a call that is over. */
    lemma Concludes(k: Call)
      requires Valid() && k in network.net.calls
      ensures semaphore == Sender(k) ==>
                (network.net.calls[k].phase == Sending || network.net.calls[k].phase == Receiving)
      ensures network.net.calls[k].phase == Ready ==> network.net.calls[k].via.None?
      ensures multiset(network.net.log)[k] <= 1
      ensures network.net.calls[k].unsent != [] ==> k !in network.net.log
      ensures network.net.calls[k].phase.Returned? ==>
                k in network.net.answers && network.net.answers[k] == network.net.calls[k].phase.response &&
                network.net.answers[k].correlationId == network.net.calls[k].cmd.correlationId &&
                multiset(network.net.log)[k] == 1
    {
      network.History();
      assert CallInv(network.codec, network.net, k);
      AtMostOnce(network.codec, network.trace, k);
    }

    /** Write the request, then read the response, with the semaphore held throughout. */
    method Exchange(k: Call) returns (r: Option<Response>)
      requires Valid() && semaphore == Sender(k) && InPhase(network.net, k, Sending) && Holds(network.net, k)
      requires network.net.calls[k].via == stream
      modifies this, network
      ensures Valid() && k in network.net.calls && network.net.calls[k].cmd == old(network.net.calls[k].cmd)
      ensures r.Some? ==> network.net.calls[k].phase == Returned(r.value)
      ensures r.None? ==> network.net.calls[k].phase == Failed && !isConnected
      ensures network.net.calls[k].via == old(stream)
      ensures network.calm && old(Served(network.net)) &&
              old(|network.codec.putCommand(network.net.calls[k].cmd)|) < INT32_LIMIT ==>
                SentWhole(k) && (r.None? ==> NothingToRead(k))
    {
      if |network.codec.putCommand(network.net.calls[k].cmd)| >= INT32_LIMIT {
        // serialisation throws before anything is written
        GiveUpConnection(k);
        return None;
      }
      var ok := WriteRequest(k);
      if ok {
        r := ReadAnswer(k);
      } else {
        r := None;
      }
      if r.None? {
        GiveUpConnection(k);
      }
    }

    /** Call k stands inside the semaphore in phase p. */
    ghost predicate Inside(k: Call, p: Phase)
      reads this, network
    {
      Valid() && semaphore == Sender(k) && InPhase(network.net, k, p) && Holds(network.net, k) &&
      network.net.calls[k].via == stream
    }

    /** WriteMessageAsync; false stands for an exception. */
    method WriteRequest(k: Call) returns (ok: bool)
      requires Inside(k, Sending) && |network.codec.putCommand(network.net.calls[k].cmd)| < INT32_LIMIT
      modifies this, network
      ensures Inside(k, if ok then Receiving else Sending) && stream == old(stream)
      ensures network.net.calls[k].cmd == old(network.net.calls[k].cmd)
      ensures ok ==> network.net.calls[k].unsent == []
      ensures network.calm ==> ok && (old(Served(network.net)) ==> Served(network.net))
    {
      while network.net.calls[k].unsent != []
        invariant Inside(k, Sending) && stream == old(stream)
        invariant network.net.calls[k].cmd == old(network.net.calls[k].cmd)
        invariant network.calm && old(Served(network.net)) ==> Served(network.net)
        decreases |network.net.calls[k].unsent|
      {
        Others(Some(k), false);
        network.History();
        var fails: bool := *;
        if fails && !network.calm {
          return false;
        }
        var some: int := *;
        var u := |network.net.calls[k].unsent|;
        network.Do(Write(k, if 0 < some <= u then some else u));
      }
      network.Do(Flush(k));
      return true;
    }

    /** ReadMessageAsync; a timeout, a null response and an invalid one all throw. */
    method ReadAnswer(k: Call) returns (r: Option<Response>)
      requires Inside(k, Receiving) && network.net.calls[k].unsent == []
      modifies this, network
      ensures Valid() && k in network.net.calls && stream == old(stream)
      ensures network.net.calls[k].cmd == old(network.net.calls[k].cmd) && network.net.calls[k].via == stream
      ensures network.net.calls[k].unsent == []
      ensures if r.Some? then network.net.calls[k].phase == Returned(r.value) else Inside(k, Receiving)
      ensures network.calm && old(Served(network.net)) ==> SentWhole(k) && (r.None? ==> NothingToRead(k))
    {
      Others(Some(k), false);
      network.History();
      var fails: bool := *;
      r := Incoming(network.codec, network.net.conns[stream.value]);
      if (fails && !network.calm) || r.None? {
        return None;
      }
      semaphore := Nobody;
      network.Do(Receive(k));
    }

    /** The catch block: any exception marks the connection as lost. */
    method GiveUpConnection(k: Call)
      requires Valid() && semaphore == Sender(k) && k in network.net.calls
      modifies this, network
      ensures Valid() && k in network.net.calls && network.net.calls[k] == old(network.net.calls[k]).(phase := Failed)
      ensures !isConnected && semaphore == Nobody && network.net.conns == old(network.net.conns)
    {
      isConnected, semaphore := false, Nobody;
      network.Do(Abort(k));
    }
  }
}
