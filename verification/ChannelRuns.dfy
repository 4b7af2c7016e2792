/** What the request/response protocol guarantees over every run. */
module ChannelRuns {
  import opened Common
  import opened Framing
  import opened Channel

  predicate Legal(x: Codec, steps: seq<Step>)
    decreases |steps|, 0
  {
    steps == [] ||
    (Legal(x, steps[..|steps| - 1]) && Enabled(x, Run(x, steps[..|steps| - 1]), steps[|steps| - 1]))
  }

  function Run(x: Codec, steps: seq<Step>): Net
    requires Legal(x, steps)
    decreases |steps|, 1
  {
    if steps == [] then START else Apply(x, Run(x, steps[..|steps| - 1]), steps[|steps| - 1])
  }

  lemma {:induction false} LegalPrefix(x: Codec, steps: seq<Step>, i: nat)
    requires Legal(x, steps) && i <= |steps|
    ensures Legal(x, steps[..i])
    decreases |steps|
  {
    if i == |steps| {
      assert steps[..i] == steps;
    } else {
      LegalPrefix(x, steps[..|steps| - 1], i);
      assert steps[..|steps| - 1][..i] == steps[..i];
    }
  }

  lemma {:induction false} InvRun(x: Codec, steps: seq<Step>)
    requires Faithful(x) && Legal(x, steps)
    ensures Inv(x, Run(x, steps))
    decreases |steps|
  {
    if steps != [] {
      InvRun(x, steps[..|steps| - 1]);
      InvStep(x, Run(x, steps[..|steps| - 1]), steps[|steps| - 1]);
    }
  }

  /** In state w, step s is the agent's answer r to the command of call k. */
  ghost predicate Answers(w: Net, s: Step, k: Call, cmd: Command, r: Response) {
    s.Respond? && s.response == r && s.conn < |w.conns| &&
    w.conns[s.conn].server == Handling(cmd) && w.conns[s.conn].asked == Some(k)
  }

  ghost predicate AnsweredAt(x: Codec, steps: seq<Step>, j: nat, k: Call, cmd: Command, r: Response) {
    j < |steps| && Legal(x, steps[..j]) && Answers(Run(x, steps[..j]), steps[j], k, cmd, r)
  }

  lemma AnsweredBefore(x: Codec, steps: seq<Step>, n: nat, j: nat, k: Call, cmd: Command, r: Response)
    requires n <= |steps| && AnsweredAt(x, steps[..n], j, k, cmd, r)
    ensures AnsweredAt(x, steps, j, k, cmd, r)
  {
    assert steps[..n][..j] == steps[..j];
  }

  /** An answer appears only when the agent responds to that call's command, and then stays. */
  lemma AnswerStep(x: Codec, w: Net, s: Step, k: Call)
    requires Inv(x, w) && Enabled(x, w, s) && k in Apply(x, w, s).answers
    ensures k in w.calls && k in Apply(x, w, s).calls && Apply(x, w, s).calls[k].cmd == w.calls[k].cmd
    ensures (k in w.answers && Apply(x, w, s).answers[k] == w.answers[k]) ||
            Answers(w, s, k, w.calls[k].cmd, Apply(x, w, s).answers[k])
  {
    if s.Respond? {
      assert ConnInv(x, w, s.conn);
    }
  }

  lemma {:induction false} AnswersAreMade(x: Codec, steps: seq<Step>, k: Call, cmd: Command, r: Response)
    requires Faithful(x) && Legal(x, steps) && k in Run(x, steps).answers && Run(x, steps).answers[k] == r
    requires k in Run(x, steps).calls && Run(x, steps).calls[k].cmd == cmd
    ensures exists j :: AnsweredAt(x, steps, j, k, cmd, r)
    decreases |steps|
  {
    if steps != [] {
      var n := |steps| - 1;
      var w := Run(x, steps[..n]);
      InvRun(x, steps[..n]);
      AnswerStep(x, w, steps[n], k);
      if Answers(w, steps[n], k, cmd, r) {
        assert AnsweredAt(x, steps, n, k, cmd, r);
      } else {
        AnswersAreMade(x, steps[..n], k, cmd, r);
        var j :| AnsweredAt(x, steps[..n], j, k, cmd, r);
        AnsweredBefore(x, steps, n, j, k, cmd, r);
      }
    }
  }

  /**
    Whatever the interleaving of callers, timeouts, partial writes, disconnects and
    reconnects: a response that SendCommandAsync returned is the one the agent made while
    it handled that very command, with the same correlation id.
   */
  lemma ResponseMatchesRequest(x: Codec, steps: seq<Step>, k: Call, r: Response)
    requires Faithful(x) && Legal(x, steps) && InPhase(Run(x, steps), k, Returned(r))
    ensures r.correlationId == Run(x, steps).calls[k].cmd.correlationId
    ensures exists j :: AnsweredAt(x, steps, j, k, Run(x, steps).calls[k].cmd, r)
  {
    InvRun(x, steps);
    assert CallInv(x, Run(x, steps), k);
    AnswersAreMade(x, steps, k, Run(x, steps).calls[k].cmd, r);
  }

  lemma {:induction false} CountDistinct(log: seq<Call>, k: Call)
    requires forall a, b | 0 <= a < b < |log| :: log[a] != log[b]
    ensures multiset(log)[k] == if k in log then 1 else 0
    decreases |log|
  {
    if log != [] {
      var rest := log[..|log| - 1];
      assert log == rest + [log[|log| - 1]];
      CountDistinct(rest, k);
    }
  }

  /**
    Each call is dispatched at most once, exactly once when it returned normally, and never
    when part of its frame was left unwritten.
   */
  lemma AtMostOnce(x: Codec, steps: seq<Step>, k: Call)
    requires Faithful(x) && Legal(x, steps) && k in Run(x, steps).calls
    ensures multiset(Run(x, steps).log)[k] <= 1
    ensures Run(x, steps).calls[k].phase.Returned? ==> multiset(Run(x, steps).log)[k] == 1
    ensures Run(x, steps).calls[k].unsent != [] ==> multiset(Run(x, steps).log)[k] == 0
  {
    InvRun(x, steps);
    assert CallInv(x, Run(x, steps), k);
    CountDistinct(Run(x, steps).log, k);
  }

  /** The agent only ever handles commands that some caller sent, unchanged. */
  lemma HandledAsSent(x: Codec, steps: seq<Step>, i: ConnId)
    requires Faithful(x) && Legal(x, steps) && i < |Run(x, steps).conns|
    requires Run(x, steps).conns[i].server.Handling?
    ensures exists k :: k in Run(x, steps).calls && Run(x, steps).conns[i].asked == Some(k) &&
              Run(x, steps).conns[i].server == Handling(Run(x, steps).calls[k].cmd) &&
              Run(x, steps).log != [] && k in Run(x, steps).log
  {
    InvRun(x, steps);
    assert ConnInv(x, Run(x, steps), i);
    var k := Run(x, steps).conns[i].asked.value;
    assert k in Run(x, steps).calls;
  }

  /**
    Whenever the semaphore is free and the client counts as connected, its stream carries
    no unread response and no half-written request.
   */
  lemma QuietWhenFree(x: Codec, steps: seq<Step>)
    requires Faithful(x) && Legal(x, steps)
    requires Run(x, steps).holder == Nobody && Run(x, steps).connected
    ensures Live(Run(x, steps))
    ensures var c := Run(x, steps).conns[Run(x, steps).stream.value];
            c.up == [] && c.down == [] && c.pending == None && c.asked == None && !c.server.Handling?
  {
    InvRun(x, steps);
  }

  // ---------------------------------------------------------------- which calls get through

  predicate Fits(body: seq<byte>) {
    1 <= |body| <= MAX_MESSAGE_BYTES
  }

  lemma WholeFrameFits(body: seq<byte>, have: seq<byte>, missing: seq<byte>)
    requires have + missing == Wire(body) && Parse(have).0.Message?
    ensures Fits(body)
  {
    WholeFrame(body, have, missing);
    FrameRoundTrip(body, []);
    assert Frame(body) + [] == have;
  }

  /** A dispatched command and a returned response had bodies within the size limit. */
  ghost predicate Sized(x: Codec, w: Net, k: Call)
    requires k in w.calls
  {
    && (k in w.log ==> Fits(x.putCommand(w.calls[k].cmd)))
    && (w.calls[k].phase.Returned? ==> Fits(x.putResponse(w.calls[k].phase.response)))
  }

  lemma TakeFits(x: Codec, w: Net, i: ConnId)
    requires Faithful(x) && Inv(x, w) && Enabled(x, w, Take(i))
    ensures w.conns[i].pending.value in w.calls && Fits(x.putCommand(w.calls[w.conns[i].pending.value].cmd))
  {
    var k := w.conns[i].pending.value;
    assert ConnInv(x, w, i);
    WholeFrameFits(x.putCommand(w.calls[k].cmd), w.conns[i].up, w.calls[k].unsent);
  }

  lemma ReceiveFits(x: Codec, w: Net, k: Call)
    requires Faithful(x) && Inv(x, w) && Enabled(x, w, Receive(k))
    ensures Fits(x.putResponse(Incoming(x, w.conns[w.stream.value]).value))
  {
    var c := w.conns[w.stream.value];
    ReceiveIsWhole(x, w, k);
    assert ConnInv(x, w, w.stream.value);
    var body := x.putResponse(w.answers[k]);
    var rest := if c.server.Answering? then c.server.rest else Wire(body)[|c.down|..];
    assert c.down + rest == Wire(body);
    WholeFrameFits(body, c.down, rest);
  }

  lemma SizedOther(x: Codec, w: Net, s: Step, k: Call)
    requires Inv(x, w) && Enabled(x, w, s) && k in Apply(x, w, s).calls && !s.Take? && !s.Receive?
    requires k in w.calls ==> Sized(x, w, k)
    ensures Sized(x, Apply(x, w, s), k)
  {
    if s.Enter? && s.call == k {
      assert k !in w.log;
    }
  }

  lemma SizedTake(x: Codec, w: Net, i: ConnId, k: Call)
    requires Faithful(x) && Inv(x, w) && Enabled(x, w, Take(i)) && k in w.calls && Sized(x, w, k)
    ensures k in Apply(x, w, Take(i)).calls && Sized(x, Apply(x, w, Take(i)), k)
  {
    TakeFits(x, w, i);
  }

  lemma SizedReceive(x: Codec, w: Net, c: Call, k: Call)
    requires Faithful(x) && Inv(x, w) && Enabled(x, w, Receive(c)) && k in w.calls && Sized(x, w, k)
    ensures k in Apply(x, w, Receive(c)).calls && Sized(x, Apply(x, w, Receive(c)), k)
  {
    ReceiveFits(x, w, c);
  }

  lemma SizedStep(x: Codec, w: Net, s: Step, k: Call)
    requires Faithful(x) && Inv(x, w) && Enabled(x, w, s) && k in Apply(x, w, s).calls
    requires k in w.calls ==> Sized(x, w, k)
    ensures Sized(x, Apply(x, w, s), k)
  {
    match s {
      case Take(i) => SizedTake(x, w, i, k);
      case Receive(c) => SizedReceive(x, w, c, k);
      case _ => SizedOther(x, w, s, k);
    }
  }

  /**
    The writer does not enforce the size limit, and this is what becomes of it: a command
    beyond it is never dispatched, and a call whose response is beyond it never returns.
   */
  lemma {:induction false} OversizedNeverPasses(x: Codec, steps: seq<Step>, k: Call)
    requires Faithful(x) && Legal(x, steps) && k in Run(x, steps).calls
    ensures k in Run(x, steps).log ==> Fits(x.putCommand(Run(x, steps).calls[k].cmd))
    ensures Run(x, steps).calls[k].phase.Returned? ==> Fits(x.putResponse(Run(x, steps).calls[k].phase.response))
    decreases |steps|
  {
    if steps != [] {
      var before := steps[..|steps| - 1];
      InvRun(x, before);
      if k in Run(x, before).calls {
        OversizedNeverPasses(x, before, k);
      }
      SizedStep(x, Run(x, before), steps[|steps| - 1], k);
    }
  }

  /** A step after a run. */
  lemma Extend(x: Codec, steps: seq<Step>, s: Step)
    requires Legal(x, steps) && Enabled(x, Run(x, steps), s)
    ensures Legal(x, steps + [s]) && Run(x, steps + [s]) == Apply(x, Run(x, steps), s)
  {
    assert (steps + [s])[..|steps|] == steps;
  }

  /** A free semaphore, a live connection, and an agent that waits for a command on it. */
  ghost predicate Waits(w: Net) {
    w.holder == Nobody && Live(w) && w.conns[w.stream.value].server == Waiting
  }

  /** Call k holds the semaphore and stands at `info`, its connection i at c. */
  predicate Stage(w: Net, k: Call, i: ConnId, info: CallInfo, c: Conn) {
    w.holder == Sender(k) && w.stream == Some(i) && w.connected && i < |w.conns| &&
    w.conns[i] == c && k in w.calls && w.calls[k] == info
  }

  /** The same after a run. */
  ghost predicate Reached(x: Codec, steps: seq<Step>, k: Call, i: ConnId, info: CallInfo, c: Conn) {
    Legal(x, steps) && Stage(Run(x, steps), k, i, info, c)
  }

  lemma EnterThenGrant(x: Codec, steps: seq<Step>, k: Call, cmd: Command)
    requires Faithful(x) && Legal(x, steps) && Waits(Run(x, steps)) && k !in Run(x, steps).calls
    ensures var w := Run(x, steps);
            var i := w.stream.value;
            Reached(x, steps + [Enter(k, cmd)] + [Grant(k)], k, i,
                    CallInfo(cmd, Sending, Some(i), Wire(x.putCommand(cmd))),
                    Conn([], [], Waiting, w.conns[i].closed, Some(k), None))
  {
    InvRun(x, steps);
    assert Quiet(Run(x, steps).conns[Run(x, steps).stream.value]);
    Extend(x, steps, Enter(k, cmd));
    Extend(x, steps + [Enter(k, cmd)], Grant(k));
  }

  lemma WriteAll(x: Codec, steps: seq<Step>, k: Call, i: ConnId, info: CallInfo, c: Conn)
    requires Reached(x, steps, k, i, info, c) && info.phase == Sending && info.unsent != []
    ensures Reached(x, steps + [Write(k, |info.unsent|)], k, i, info.(unsent := []), c.(up := c.up + info.unsent))
  {
    var n := |info.unsent|;
    assert info.unsent[n..] == [] && info.unsent[..n] == info.unsent;
    Extend(x, steps, Write(k, n));
  }

  lemma FlushIt(x: Codec, steps: seq<Step>, k: Call, i: ConnId, info: CallInfo, c: Conn)
    requires Reached(x, steps, k, i, info, c) && info.phase == Sending && info.unsent == []
    requires Fits(x.putCommand(info.cmd))
    ensures Reached(x, steps + [Flush(k)], k, i, info.(phase := Receiving), c)
  {
    Extend(x, steps, Flush(k));
  }

  lemma TakeIt(x: Codec, steps: seq<Step>, k: Call, i: ConnId, info: CallInfo, c: Conn, cmd: Command)
    requires Faithful(x) && Reached(x, steps, k, i, info, c) && Fits(x.putCommand(cmd))
    requires c.up == Wire(x.putCommand(cmd)) && c.server == Waiting && c.pending == Some(k)
    ensures Reached(x, steps + [Take(i)], k, i, info,
                    c.(up := [], server := Handling(cmd), pending := None, asked := Some(k)))
  {
    FrameRoundTrip(x.putCommand(cmd), []);
    assert c.up + [] == c.up;
    Extend(x, steps, Take(i));
  }

  lemma RespondIt(x: Codec, steps: seq<Step>, k: Call, i: ConnId, info: CallInfo, c: Conn, r: Response)
    requires Reached(x, steps, k, i, info, c) && c.server.Handling? && c.asked.Some?
    requires r.correlationId == c.server.cmd.correlationId && Fits(x.putResponse(r))
    ensures Reached(x, steps + [Respond(i, r)], k, i, info, c.(server := Answering(Wire(x.putResponse(r)))))
  {
    Extend(x, steps, Respond(i, r));
  }

  lemma PushAll(x: Codec, steps: seq<Step>, k: Call, i: ConnId, info: CallInfo, c: Conn)
    requires Reached(x, steps, k, i, info, c) && c.server.Answering? && c.server.rest != []
    ensures Reached(x, steps + [Push(i, |c.server.rest|)], k, i, info,
                    c.(down := c.down + c.server.rest, server := Answering([])))
  {
    var n := |c.server.rest|;
    assert c.server.rest[n..] == [] && c.server.rest[..n] == c.server.rest;
    Extend(x, steps, Push(i, n));
  }

  lemma RestIt(x: Codec, steps: seq<Step>, k: Call, i: ConnId, info: CallInfo, c: Conn)
    requires Reached(x, steps, k, i, info, c) && c.server == Answering([])
    ensures Reached(x, steps + [Rest(i)], k, i, info, c.(server := Waiting))
  {
    Extend(x, steps, Rest(i));
  }

  lemma ReceiveIt(x: Codec, steps: seq<Step>, k: Call, i: ConnId, info: CallInfo, c: Conn, r: Response)
    requires Faithful(x) && Reached(x, steps, k, i, info, c) && Fits(x.putResponse(r))
    requires info.phase == Receiving && c.server == Waiting && c.down == Wire(x.putResponse(r))
    ensures Completed(x, steps + [Receive(k)], k, r)
  {
    FrameRoundTrip(x.putResponse(r), []);
    assert c.down + [] == c.down;
    Extend(x, steps, Receive(k));
  }

  /** After a run: call k has returned r, and client and agent are ready for the next call. */
  ghost predicate Completed(x: Codec, steps: seq<Step>, k: Call, r: Response) {
    Legal(x, steps) && InPhase(Run(x, steps), k, Returned(r)) && Waits(Run(x, steps))
  }

  function Request(x: Codec, i: ConnId, k: Call, cmd: Command): seq<Step> {
    [Enter(k, cmd)] + [Grant(k)] + [Write(k, |Wire(x.putCommand(cmd))|)] + [Flush(k)] + [Take(i)]
  }

  function Reply(x: Codec, i: ConnId, k: Call, r: Response): seq<Step> {
    [Respond(i, r)] + [Push(i, |Wire(x.putResponse(r))|)] + [Rest(i)] + [Receive(k)]
  }

  lemma RequestArrives(x: Codec, steps: seq<Step>, k: Call, i: ConnId, info: CallInfo, c: Conn, cmd: Command)
    requires Faithful(x) && Reached(x, steps, k, i, info, c) && Fits(x.putCommand(cmd))
    requires info == CallInfo(cmd, Sending, Some(i), Wire(x.putCommand(cmd)))
    requires c.up == [] && c.down == [] && c.server == Waiting && c.pending == Some(k)
    ensures Reached(x, steps + [Write(k, |info.unsent|)] + [Flush(k)] + [Take(i)], k, i,
                    CallInfo(cmd, Receiving, Some(i), []), c.(server := Handling(cmd), pending := None, asked := Some(k)))
  {
    WriteAll(x, steps, k, i, info, c);
    var t := steps + [Write(k, |info.unsent|)];
    var written := c.(up := c.up + info.unsent);
    assert written.up == info.unsent;
    FlushIt(x, t, k, i, info.(unsent := []), written);
    TakeIt(x, t + [Flush(k)], k, i, CallInfo(cmd, Receiving, Some(i), []), written, cmd);
  }

  lemma ReplyArrives(x: Codec, steps: seq<Step>, k: Call, i: ConnId, info: CallInfo, c: Conn, r: Response)
    requires Faithful(x) && Reached(x, steps, k, i, info, c)
    requires info.phase == Receiving && c.server.Handling? && c.asked.Some? && c.down == []
    requires r.correlationId == c.server.cmd.correlationId && Fits(x.putResponse(r))
    ensures Completed(x, steps + Reply(x, i, k, r), k, r)
  {
    var frame := Wire(x.putResponse(r));
    var t := steps + [Respond(i, r)];
    RespondIt(x, steps, k, i, info, c, r);
    PushAll(x, t, k, i, info, c.(server := Answering(frame)));
    assert [] + frame == frame;
    RestIt(x, t + [Push(i, |frame|)], k, i, info, c.(down := frame, server := Answering([])));
    ReceiveIt(x, t + [Push(i, |frame|)] + [Rest(i)], k, i, info, c.(down := frame, server := Waiting), r);
    assert t + [Push(i, |frame|)] + [Rest(i)] + [Receive(k)] == steps + Reply(x, i, k, r);
  }

  /**
    Nothing else stands in the way: after any run that leaves the client connected and the
    agent waiting, a call whose command and response are within the limit can be carried
    out to its end, and leaves client and agent ready for the next one.
   */
  lemma CallCanComplete(x: Codec, steps: seq<Step>, k: Call, cmd: Command, r: Response)
    requires Faithful(x) && Legal(x, steps) && Waits(Run(x, steps)) && k !in Run(x, steps).calls
    requires r.correlationId == cmd.correlationId && Fits(x.putCommand(cmd)) && Fits(x.putResponse(r))
    ensures var i := Run(x, steps).stream.value;
            Completed(x, steps + Request(x, i, k, cmd) + Reply(x, i, k, r), k, r)
  {
    var i, frame := Run(x, steps).stream.value, Wire(x.putCommand(cmd));
    var closed := Run(x, steps).conns[i].closed;
    var t := steps + [Enter(k, cmd)] + [Grant(k)];
    EnterThenGrant(x, steps, k, cmd);
    RequestArrives(x, t, k, i, CallInfo(cmd, Sending, Some(i), frame), Conn([], [], Waiting, closed, Some(k), None), cmd);
    assert t + [Write(k, |frame|)] + [Flush(k)] + [Take(i)] == steps + Request(x, i, k, cmd);
    ReplyArrives(x, steps + Request(x, i, k, cmd), k, i, CallInfo(cmd, Receiving, Some(i), []),
                 Conn([], [], Handling(cmd), closed, None, Some(k)), r);
  }
}
