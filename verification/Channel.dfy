/**
  The request/response protocol between RemoteAgentService and TcpCommandListener as a
  state machine: many callers share one stream behind a semaphore, connections are dropped
  and replaced on failure, and the agent serves each connection with its own loop. The
  client never compares correlation ids, so that a response belongs to its request is a
  property of the whole machine.
 */
module Channel {
  import opened Common
  import opened Framing

  type Call = nat
  type ConnId = nat

  datatype Command = Command(correlationId: nat, content: string)
  datatype Response = Response(correlationId: nat, content: string)

  /** JSON both ways; `get` gives nothing when deserialisation throws or yields null. */
  datatype Codec = Codec(
    putCommand: Command -> seq<byte>, getCommand: seq<byte> -> Option<Command>,
    putResponse: Response -> seq<byte>, getResponse: seq<byte> -> Option<Response>)

  ghost predicate Faithful(x: Codec) {
    && (forall c :: x.getCommand(x.putCommand(c)) == Some(c))
    && (forall r :: x.getResponse(x.putResponse(r)) == Some(r))
  }

  /** The agent's loop on one connection. */
  datatype Server = Waiting | Handling(cmd: Command) | Answering(rest: seq<byte>) | Gone

  /**
    One TCP connection: bytes under way in both directions and the agent's loop. Bookkeeping:
    `pending` is the call whose request is on it but not dispatched yet, `asked` the one
    whose request was dispatched and whose response the client has not read.
   */
  datatype Conn = Conn(
    up: seq<byte>, down: seq<byte>, server: Server, closed: bool,
    pending: Option<Call>, asked: Option<Call>)

  datatype Phase = Ready | Sending | Receiving | Returned(response: Response) | Failed

  /** `unsent` is what is left of the request frame, `via` the connection it goes to. */
  datatype CallInfo = CallInfo(cmd: Command, phase: Phase, via: Option<ConnId>, unsent: seq<byte>)

  /** Who is inside the semaphore. */
  datatype Holder = Nobody | Sender(call: Call) | Connector(dropped: bool)

  /** `log` lists the dispatched calls in order, `answers` what the agent answered to each. */
  datatype Net = Net(
    conns: seq<Conn>, stream: Option<ConnId>, connected: bool, holder: Holder,
    calls: map<Call, CallInfo>, log: seq<Call>, answers: map<Call, Response>)

  datatype Step =
    // EnsureConnectedAsync
    | Connect
    | ConnectSkip
    | DropOld
    | ConnectOk
    | ConnectFails
    // SendCommandAsync
    | Enter(call: Call, cmd: Command)
    | GiveUp(call: Call)
    | Refuse(call: Call)
    | Grant(call: Call)
    | Write(call: Call, count: nat)
    | Flush(call: Call)
    | Receive(call: Call)
    | Abort(call: Call)
    // HandleClientAsync
    | Take(conn: ConnId)
    | Respond(conn: ConnId, response: Response)
    | Push(conn: ConnId, count: nat)
    | Rest(conn: ConnId)
    | Quit(conn: ConnId)

  predicate Live(w: Net) {
    w.connected && w.stream.Some? && w.stream.value < |w.conns|
  }

  predicate InPhase(w: Net, k: Call, p: Phase) {
    k in w.calls && w.calls[k].phase == p
  }

  predicate Holds(w: Net, k: Call) {
    w.holder == Sender(k) && k in w.calls && w.stream.Some? && w.stream.value < |w.conns|
  }

  /** What the next read of a complete response gives. */
  function Incoming(x: Codec, c: Conn): Option<Response> {
    match Parse(c.down).0
    case Message(body) => x.getResponse(body)
    case _ => None
  }

  function Requested(x: Codec, c: Conn): Option<Command> {
    match Parse(c.up).0
    case Message(body) => x.getCommand(body)
    case _ => None
  }

  predicate Enabled(x: Codec, w: Net, s: Step) {
    match s
    case Connect => w.holder == Nobody
    case ConnectSkip => w.holder == Connector(false) && Live(w)
    case DropOld => w.holder == Connector(false)
    case ConnectOk => w.holder == Connector(true)
    case ConnectFails => w.holder.Connector?
    case Enter(k, _) => k !in w.calls
    case GiveUp(k) => InPhase(w, k, Ready)
    case Refuse(k) => w.holder == Nobody && InPhase(w, k, Ready) && !Live(w)
    case Grant(k) => w.holder == Nobody && InPhase(w, k, Ready) && Live(w)
    case Write(k, n) => Holds(w, k) && w.calls[k].phase == Sending && 0 < n <= |w.calls[k].unsent|
    case Flush(k) =>
      Holds(w, k) && w.calls[k].phase == Sending && w.calls[k].unsent == [] &&
      |x.putCommand(w.calls[k].cmd)| < INT32_LIMIT
    case Receive(k) =>
      Holds(w, k) && w.calls[k].phase == Receiving && Incoming(x, w.conns[w.stream.value]).Some?
    case Abort(k) => w.holder == Sender(k) && k in w.calls
    case Take(i) =>
      i < |w.conns| && w.conns[i].server == Waiting && Requested(x, w.conns[i]).Some? && w.conns[i].pending.Some?
    case Respond(i, r) =>
      i < |w.conns| && w.conns[i].server.Handling? && w.conns[i].asked.Some? &&
      r.correlationId == w.conns[i].server.cmd.correlationId && |x.putResponse(r)| < INT32_LIMIT
    case Push(i, n) => i < |w.conns| && w.conns[i].server.Answering? && 0 < n <= |w.conns[i].server.rest|
    case Rest(i) => i < |w.conns| && w.conns[i].server == Answering([])
    case Quit(i) => i < |w.conns|
  }

  function SetPhase(w: Net, k: Call, p: Phase): map<Call, CallInfo>
    requires k in w.calls
  {
    w.calls[k := w.calls[k].(phase := p)]
  }

  function Apply(x: Codec, w: Net, s: Step): Net
    requires Enabled(x, w, s)
  {
    match s
    case Connect => w.(holder := Connector(false))
    case ConnectSkip => w.(holder := Nobody)
    case DropOld =>
      if w.stream.Some? && w.stream.value < |w.conns| then
        w.(holder := Connector(true), conns := w.conns[w.stream.value := w.conns[w.stream.value].(closed := true)])
      else w.(holder := Connector(true))
    case ConnectOk =>
      w.(conns := w.conns + [Conn([], [], Waiting, false, None, None)],
         stream := Some(|w.conns|), connected := true, holder := Nobody)
    case ConnectFails => w.(connected := false, holder := Nobody)
    case Enter(k, cmd) => w.(calls := w.calls[k := CallInfo(cmd, Ready, None, Wire(x.putCommand(cmd)))])
    case GiveUp(k) => w.(calls := SetPhase(w, k, Failed))
    case Refuse(k) => w.(calls := SetPhase(w, k, Failed), connected := false)
    case Grant(k) =>
      var i := w.stream.value;
      w.(holder := Sender(k),
         calls := w.calls[k := w.calls[k].(phase := Sending, via := Some(i))],
         conns := w.conns[i := w.conns[i].(pending := Some(k))])
    case Write(k, n) =>
      var i, u := w.stream.value, w.calls[k].unsent;
      w.(calls := w.calls[k := w.calls[k].(unsent := u[n..])],
         conns := w.conns[i := w.conns[i].(up := w.conns[i].up + u[..n])])
    case Flush(k) => w.(calls := SetPhase(w, k, Receiving))
    case Receive(k) =>
      var i := w.stream.value;
      w.(holder := Nobody,
         calls := SetPhase(w, k, Returned(Incoming(x, w.conns[i]).value)),
         conns := w.conns[i := w.conns[i].(down := Parse(w.conns[i].down).1, asked := None)])
    case Abort(k) => w.(holder := Nobody, calls := SetPhase(w, k, Failed), connected := false)
    case Take(i) =>
      var c := w.conns[i];
      w.(conns := w.conns[i := c.(up := Parse(c.up).1, server := Handling(Requested(x, c).value),
                                  pending := None, asked := c.pending)],
         log := w.log + [c.pending.value])
    case Respond(i, r) =>
      w.(conns := w.conns[i := w.conns[i].(server := Answering(Wire(x.putResponse(r))))],
         answers := w.answers[w.conns[i].asked.value := r])
    case Push(i, n) =>
      var c := w.conns[i];
      w.(conns := w.conns[i := c.(down := c.down + c.server.rest[..n], server := Answering(c.server.rest[n..]))])
    case Rest(i) => w.(conns := w.conns[i := w.conns[i].(server := Waiting)])
    case Quit(i) => w.(conns := w.conns[i := w.conns[i].(server := Gone)])
  }

  /** Before the first caller: never connected. */
  const START := Net([], None, false, Nobody, map[], [], map[])

  // ---------------------------------------------------------------- invariant

  /** The request of call k is, whole or in part, on connection c and nothing else is. */
  ghost predicate Outgoing(x: Codec, w: Net, c: Conn, k: Call) {
    && k in w.calls && k !in w.log && k !in w.answers
    && c.up + w.calls[k].unsent == Wire(x.putCommand(w.calls[k].cmd))
    && c.down == [] && Free(c)
  }

  /** The response to call k is being made or is, whole or in part, on c and nothing else is. */
  ghost predicate Ingoing(x: Codec, w: Net, c: Conn, k: Call) {
    && k in w.calls && k in w.log && c.up == [] && w.calls[k].unsent == []
    && match c.server
       case Handling(cmd) => cmd == w.calls[k].cmd && k !in w.answers && c.down == []
       case Answering(rest) => k in w.answers && c.down + rest == Wire(x.putResponse(w.answers[k]))
       case Waiting => k in w.answers && c.down == Wire(x.putResponse(w.answers[k]))
       case Gone => if k in w.answers then c.down <= Wire(x.putResponse(w.answers[k])) else c.down == []
  }

  /** The agent's loop is not at work on a command. */
  ghost predicate Free(c: Conn) {
    c.server == Waiting || c.server == Gone || c.server == Answering([])
  }

  ghost predicate Quiet(c: Conn) {
    c.pending == None && c.asked == None && c.up == [] && c.down == [] && Free(c)
  }

  ghost predicate ConnInv(x: Codec, w: Net, i: ConnId)
    requires i < |w.conns|
  {
    var c := w.conns[i];
    match (c.pending, c.asked)
    case (None, None) => Quiet(c)
    case (Some(k), None) => Outgoing(x, w, c, k) && w.calls[k].via == Some(i)
    case (None, Some(k)) => Ingoing(x, w, c, k) && w.calls[k].via == Some(i)
    case (Some(_), Some(_)) => false
  }

  ghost predicate CallInv(x: Codec, w: Net, k: Call)
    requires k in w.calls
  {
    var c := w.calls[k];
    && (c.via.Some? ==> c.via.value < |w.conns|)
    && (k in w.log ==> c.unsent == [])
    && (k in w.answers ==> k in w.log && w.answers[k].correlationId == c.cmd.correlationId)
    && (c.phase == Ready ==> c.via == None && k !in w.log && c.unsent == Wire(x.putCommand(c.cmd)))
    && (c.phase == Sending || c.phase == Receiving ==> w.holder == Sender(k))
    && (c.phase == Receiving ==> c.unsent == [])
    && (c.phase.Returned? ==> k in w.answers && w.answers[k] == c.phase.response)
  }

  ghost predicate HolderInv(w: Net) {
    match w.holder
    case Nobody => w.connected ==> Live(w) && Quiet(w.conns[w.stream.value])
    case Connector(dropped) => w.connected && !dropped ==> Live(w) && Quiet(w.conns[w.stream.value])
    case Sender(k) =>
      Live(w) && k in w.calls && w.calls[k].via == w.stream &&
      (w.calls[k].phase == Sending || w.calls[k].phase == Receiving) &&
      var c := w.conns[w.stream.value];
      c.pending == Some(k) || c.asked == Some(k)
  }

  ghost predicate Inv(x: Codec, w: Net) {
    && (forall i | 0 <= i < |w.conns| :: ConnInv(x, w, i))
    && (forall k | k in w.calls :: CallInv(x, w, k))
    && HolderInv(w)
    && (forall k | k in w.log :: k in w.calls)
    && (forall k | k in w.answers :: k in w.calls)
    && (forall a, b | 0 <= a < b < |w.log| :: w.log[a] != w.log[b])
  }

  /** A request is read off a connection only when the whole frame is there. */
  lemma TakeIsWhole(x: Codec, w: Net, i: ConnId)
    requires Faithful(x) && Inv(x, w) && Enabled(x, w, Take(i))
    ensures var c, k := w.conns[i], w.conns[i].pending.value;
            k in w.calls && w.calls[k].unsent == [] && Parse(c.up).1 == [] &&
            Requested(x, c) == Some(w.calls[k].cmd)
  {
    var c, k := w.conns[i], w.conns[i].pending.value;
    assert ConnInv(x, w, i);
    WholeFrame(x.putCommand(w.calls[k].cmd), c.up, w.calls[k].unsent);
  }

  lemma WholeFrame(body: seq<byte>, have: seq<byte>, missing: seq<byte>)
    requires have + missing == Wire(body) && Parse(have).0.Message?
    ensures |body| < INT32_LIMIT && missing == [] && Parse(have) == (Message(body), [])
  {
    assert Wire(body) != [];
    if missing != [] {
      assert have == Frame(body)[..|have|];
      TruncatedFrame(body, |have|);
    } else {
      assert have == Frame(body) + [];
      FrameRoundTrip(body, []);
    }
  }

  /** Likewise for the response: what the holder reads is the whole answer to its own call. */
  lemma ReceiveIsWhole(x: Codec, w: Net, k: Call)
    requires Faithful(x) && Inv(x, w) && Enabled(x, w, Receive(k))
    ensures var c := w.conns[w.stream.value];
            c.asked == Some(k) && k in w.answers && Incoming(x, c) == Some(w.answers[k]) &&
            Parse(c.down).1 == [] && Free(c)
  {
    var c := w.conns[w.stream.value];
    assert ConnInv(x, w, w.stream.value);
    assert c.down != [];
    assert c.asked == Some(k) && Ingoing(x, w, c, k);
    var body := x.putResponse(w.answers[k]);
    match c.server {
      case Answering(rest) => WholeFrame(body, c.down, rest);
      case Waiting => WholeFrame(body, c.down, []);
      case Gone =>
        assert c.down + Wire(body)[|c.down|..] == Wire(body);
        WholeFrame(body, c.down, Wire(body)[|c.down|..]);
    }
  }

  /** The bookkeeping fields never hold the agent back. */
  lemma BookkeepingNeverBlocks(x: Codec, w: Net, i: ConnId)
    requires Inv(x, w) && i < |w.conns|
    ensures w.conns[i].server == Waiting && Requested(x, w.conns[i]).Some? ==> Enabled(x, w, Take(i))
    ensures w.conns[i].server.Handling? ==> w.conns[i].asked.Some?
  {
    assert ConnInv(x, w, i);
  }

  // ---------------------------------------------------------------- every step keeps it

  /** The connection whose bytes or bookkeeping a step changes. */
  function Touched(w: Net, s: Step): Option<ConnId> {
    match s
    case Grant(_) => w.stream
    case Write(_, _) => w.stream
    case Receive(_) => w.stream
    case Take(i) => Some(i)
    case Respond(i, _) => Some(i)
    case Push(i, _) => Some(i)
    case Rest(i) => Some(i)
    case Quit(i) => Some(i)
    case _ => None
  }

  /** What ConnInv reads of a call: v agrees with w on it. */
  ghost predicate SameCall(w: Net, v: Net, k: Call) {
    && k in w.calls && k in v.calls && v.calls[k].cmd == w.calls[k].cmd
    && v.calls[k].via == w.calls[k].via && v.calls[k].unsent == w.calls[k].unsent
    && (k in v.log <==> k in w.log) && (k in v.answers <==> k in w.answers)
    && (k in w.answers ==> v.answers[k] == w.answers[k])
  }

  lemma ConnFrame(x: Codec, w: Net, v: Net, i: ConnId)
    requires i < |w.conns| && i < |v.conns| && ConnInv(x, w, i)
    requires v.conns[i].(closed := w.conns[i].closed) == w.conns[i]
    requires w.conns[i].pending.Some? ==> SameCall(w, v, w.conns[i].pending.value)
    requires w.conns[i].asked.Some? ==> SameCall(w, v, w.conns[i].asked.value)
    ensures ConnInv(x, v, i)
  {
  }

  /** The steps that dispatch a command or make its response. */
  predicate Serves(s: Step) {
    s.Take? || s.Respond?
  }

  /** A step leaves alone every call that is on another connection than the one it touches. */
  lemma OtherCall(x: Codec, w: Net, s: Step, k: Call)
    requires Inv(x, w) && Enabled(x, w, s) && k in w.calls && w.calls[k].via.Some?
    requires Touched(w, s) != w.calls[k].via
    ensures SameCall(w, Apply(x, w, s), k)
  {
    assert CallInv(x, w, k);
    if Serves(s) {
      OtherServed(x, w, s, k);
    }
  }

  lemma OtherServed(x: Codec, w: Net, s: Step, k: Call)
    requires Inv(x, w) && Enabled(x, w, s) && Serves(s) && k in w.calls && w.calls[k].via.Some?
    requires Some(s.conn) != w.calls[k].via
    ensures SameCall(w, Apply(x, w, s), k)
  {
    assert ConnInv(x, w, s.conn);
  }

  lemma OtherConn(x: Codec, w: Net, s: Step, i: ConnId)
    requires Enabled(x, w, s) && i < |w.conns| && Touched(w, s) != Some(i)
    ensures i < |Apply(x, w, s).conns| && Apply(x, w, s).conns[i].(closed := w.conns[i].closed) == w.conns[i]
  {
  }

  lemma ConnUntouched(x: Codec, w: Net, s: Step, i: ConnId)
    requires Inv(x, w) && Enabled(x, w, s) && i < |w.conns| && Touched(w, s) != Some(i)
    ensures i < |Apply(x, w, s).conns| && ConnInv(x, Apply(x, w, s), i)
  {
    assert ConnInv(x, w, i);
    var c := w.conns[i];
    if c.pending.Some? {
      OtherCall(x, w, s, c.pending.value);
    }
    if c.asked.Some? {
      OtherCall(x, w, s, c.asked.value);
    }
    OtherConn(x, w, s, i);
    ConnFrame(x, w, Apply(x, w, s), i);
  }

  lemma ConnClient(x: Codec, w: Net, s: Step)
    requires Faithful(x) && Inv(x, w) && Enabled(x, w, s) && (s.Grant? || s.Write? || s.Receive?)
    ensures w.stream.value < |Apply(x, w, s).conns| && ConnInv(x, Apply(x, w, s), w.stream.value)
  {
    assert ConnInv(x, w, w.stream.value) && CallInv(x, w, s.call);
    if s.Receive? {
      ReceiveIsWhole(x, w, s.call);
    } else if s.Write? {
      var up, u := w.conns[w.stream.value].up, w.calls[s.call].unsent;
      assert up + u[..s.count] + u[s.count..] == up + u;
    }
  }

  lemma ConnTake(x: Codec, w: Net, i: ConnId)
    requires Faithful(x) && Inv(x, w) && Enabled(x, w, Take(i))
    ensures i < |Apply(x, w, Take(i)).conns| && ConnInv(x, Apply(x, w, Take(i)), i)
  {
    assert ConnInv(x, w, i);
    TakeIsWhole(x, w, i);
  }

  lemma ConnRespond(x: Codec, w: Net, i: ConnId, r: Response)
    requires Inv(x, w) && Enabled(x, w, Respond(i, r))
    ensures i < |Apply(x, w, Respond(i, r)).conns| && ConnInv(x, Apply(x, w, Respond(i, r)), i)
  {
    assert ConnInv(x, w, i);
    assert [] + Wire(x.putResponse(r)) == Wire(x.putResponse(r));
  }

  lemma ConnPush(x: Codec, w: Net, i: ConnId, n: nat)
    requires Inv(x, w) && Enabled(x, w, Push(i, n))
    ensures i < |Apply(x, w, Push(i, n)).conns| && ConnInv(x, Apply(x, w, Push(i, n)), i)
  {
    assert ConnInv(x, w, i);
    var c := w.conns[i];
    assert c.down + c.server.rest[..n] + c.server.rest[n..] == c.down + c.server.rest;
  }

  lemma ConnEnds(x: Codec, w: Net, s: Step)
    requires Inv(x, w) && Enabled(x, w, s) && (s.Rest? || s.Quit?)
    ensures s.conn < |Apply(x, w, s).conns| && ConnInv(x, Apply(x, w, s), s.conn)
  {
    assert ConnInv(x, w, s.conn);
    assert w.conns[s.conn].down + [] == w.conns[s.conn].down;
  }

  lemma ConnServer(x: Codec, w: Net, s: Step)
    requires Faithful(x) && Inv(x, w) && Enabled(x, w, s) && ByAgent(s)
    ensures s.conn < |Apply(x, w, s).conns| && ConnInv(x, Apply(x, w, s), s.conn)
  {
    match s {
      case Take(i) => ConnTake(x, w, i);
      case Respond(i, r) => ConnRespond(x, w, i, r);
      case Push(i, n) => ConnPush(x, w, i, n);
      case _ => ConnEnds(x, w, s);
    }
  }

  lemma ConnStep(x: Codec, w: Net, s: Step, i: ConnId)
    requires Faithful(x) && Inv(x, w) && Enabled(x, w, s) && i < |Apply(x, w, s).conns|
    ensures ConnInv(x, Apply(x, w, s), i)
  {
    if i < |w.conns| {
      if Touched(w, s) != Some(i) {
        ConnUntouched(x, w, s, i);
      } else if s.Grant? || s.Write? || s.Receive? {
        ConnClient(x, w, s);
      } else {
        ConnServer(x, w, s);
      }
    }
  }

  predicate ByAgent(s: Step) {
    s.Take? || s.Respond? || s.Push? || s.Rest? || s.Quit?
  }

  lemma CallOfTake(x: Codec, w: Net, i: ConnId, k: Call)
    requires Faithful(x) && Inv(x, w) && Enabled(x, w, Take(i)) && k in w.calls
    ensures k in Apply(x, w, Take(i)).calls && CallInv(x, Apply(x, w, Take(i)), k)
  {
    assert CallInv(x, w, k) && ConnInv(x, w, i);
    TakeIsWhole(x, w, i);
  }

  lemma CallOfRespond(x: Codec, w: Net, i: ConnId, r: Response, k: Call)
    requires Inv(x, w) && Enabled(x, w, Respond(i, r)) && k in w.calls
    ensures k in Apply(x, w, Respond(i, r)).calls && CallInv(x, Apply(x, w, Respond(i, r)), k)
  {
    assert CallInv(x, w, k) && ConnInv(x, w, i);
  }

  predicate Concerns(s: Step, k: Call) {
    (s.Enter? || s.GiveUp? || s.Refuse? || s.Grant? || s.Write? || s.Flush? || s.Receive? || s.Abort?) && s.call == k
  }

  lemma CallOfOther(x: Codec, w: Net, s: Step, k: Call)
    requires Enabled(x, w, s) && !Serves(s) && !Concerns(s, k) && k in w.calls && CallInv(x, w, k)
    ensures k in Apply(x, w, s).calls && CallInv(x, Apply(x, w, s), k)
  {
  }

  lemma CallOfStep(x: Codec, w: Net, s: Step, k: Call)
    requires Faithful(x) && Inv(x, w) && Enabled(x, w, s) && Concerns(s, k)
    ensures k in Apply(x, w, s).calls && CallInv(x, Apply(x, w, s), k)
  {
    if s.Receive? {
      ReceiveIsWhole(x, w, k);
    }
    if !s.Enter? {
      assert CallInv(x, w, k);
    }
  }

  /** What HolderInv reads of a connection. */
  ghost predicate SameBooks(c: Conn, d: Conn) {
    (c.pending == d.pending && c.asked == d.asked) || (c.asked == None && d.pending == None && d.asked == c.pending)
  }

  lemma AgentKeepsBooks(x: Codec, w: Net, s: Step)
    requires Inv(x, w) && Enabled(x, w, s) && ByAgent(s)
    ensures SameBooks(w.conns[s.conn], Apply(x, w, s).conns[s.conn])
    ensures Quiet(w.conns[s.conn]) ==> Quiet(Apply(x, w, s).conns[s.conn])
  {
    assert ConnInv(x, w, s.conn);
  }

  lemma HolderByAgent(x: Codec, w: Net, s: Step)
    requires Faithful(x) && Inv(x, w) && Enabled(x, w, s) && ByAgent(s)
    ensures HolderInv(Apply(x, w, s))
  {
    AgentKeepsBooks(x, w, s);
    AgentKeepsClient(x, w, s);
  }

  lemma AgentKeepsClient(x: Codec, w: Net, s: Step)
    requires Enabled(x, w, s) && ByAgent(s)
    ensures var v := Apply(x, w, s);
            v.holder == w.holder && v.stream == w.stream && v.connected == w.connected && v.calls == w.calls &&
            |v.conns| == |w.conns| && forall i | 0 <= i < |w.conns| && i != s.conn :: v.conns[i] == w.conns[i]
  {
  }

  lemma HolderByClient(x: Codec, w: Net, s: Step)
    requires Faithful(x) && Inv(x, w) && Enabled(x, w, s) && !ByAgent(s)
    ensures HolderInv(Apply(x, w, s))
  {
    if s.Receive? {
      ReceiveIsWhole(x, w, s.call);
      assert ConnInv(x, w, w.stream.value);
    } else if s.GiveUp? {
      assert CallInv(x, w, s.call);
    }
  }

  lemma LogStep(x: Codec, w: Net, s: Step)
    requires Faithful(x) && Inv(x, w) && Enabled(x, w, s)
    ensures var v := Apply(x, w, s);
            (forall k | k in v.log :: k in v.calls) && (forall k | k in v.answers :: k in v.calls) &&
            (forall a, b | 0 <= a < b < |v.log| :: v.log[a] != v.log[b])
  {
    if Serves(s) {
      ServedLog(x, w, s);
    }
  }

  lemma ServedLog(x: Codec, w: Net, s: Step)
    requires Faithful(x) && Inv(x, w) && Enabled(x, w, s) && Serves(s)
    ensures var v := Apply(x, w, s);
            (forall k | k in v.log :: k in v.calls) && (forall k | k in v.answers :: k in v.calls) &&
            (forall a, b | 0 <= a < b < |v.log| :: v.log[a] != v.log[b])
  {
    assert ConnInv(x, w, s.conn);
  }

  lemma InvStep(x: Codec, w: Net, s: Step)
    requires Faithful(x) && Inv(x, w) && Enabled(x, w, s)
    ensures Inv(x, Apply(x, w, s))
  {
    forall i | 0 <= i < |Apply(x, w, s).conns| ensures ConnInv(x, Apply(x, w, s), i) {
      ConnStep(x, w, s, i);
    }
    forall k | k in Apply(x, w, s).calls ensures CallInv(x, Apply(x, w, s), k) {
      if s.Take? {
        CallOfTake(x, w, s.conn, k);
      } else if s.Respond? {
        CallOfRespond(x, w, s.conn, s.response, k);
      } else if Concerns(s, k) {
        CallOfStep(x, w, s, k);
      } else {
        CallOfOther(x, w, s, k);
      }
    }
    if ByAgent(s) {
      HolderByAgent(x, w, s);
    } else {
      HolderByClient(x, w, s);
    }
    LogStep(x, w, s);
  }
}
