/**
  A codec that meets `Faithful`, so that what is proved of every faithful codec is proved of
  something: the number in unary, then three bytes for each character.
 */
module SampleCodec {
  import opened Common
  import opened Framing
  import opened Channel
  import opened ChannelRuns

  function PutNumber(n: nat): seq<byte> {
    if n == 0 then [1] else [0] + PutNumber(n - 1)
  }

  function GetNumber(b: seq<byte>): Option<(nat, seq<byte>)> {
    if b == [] || b[0] > 1 then None
    else if b[0] == 1 then Some((0, b[1..]))
    else match GetNumber(b[1..])
      case Some((n, rest)) => Some((n + 1, rest))
      case None => None
  }

  function PutText(s: string): seq<byte> {
    if s == "" then [] else PutChar(s[0]) + PutText(s[1..])
  }

  function PutChar(c: char): (b: seq<byte>)
    ensures |b| == 3
  {
    var n := c as int;
    [n / 65536, n / 256 % 256, n % 256]
  }

  function GetText(b: seq<byte>): Option<string> {
    if b == [] then Some("")
    else if |b| < 3 then None
    else match (GetChar(b[..3]), GetText(b[3..]))
      case (Some(c), Some(s)) => Some([c] + s)
      case _ => None
  }

  function GetChar(b: seq<byte>): Option<char>
    requires |b| == 3
  {
    var n := 65536 * (b[0] as int) + 256 * (b[1] as int) + b[2] as int;
    if n < 0xD800 || 0xE000 <= n < 0x11_0000 then Some(n as char) else None
  }

  lemma {:induction false} NumberRoundTrip(n: nat, rest: seq<byte>)
    ensures GetNumber(PutNumber(n) + rest) == Some((n, rest))
  {
    var b := PutNumber(n) + rest;
    if n == 0 {
      assert b[1..] == rest;
    } else {
      assert b[1..] == PutNumber(n - 1) + rest;
      NumberRoundTrip(n - 1, rest);
    }
  }

  lemma CharRoundTrip(c: char)
    ensures GetChar(PutChar(c)) == Some(c)
  {
  }

  lemma {:induction false} TextRoundTrip(s: string)
    ensures GetText(PutText(s)) == Some(s)
  {
    if s != "" {
      var b := PutText(s);
      assert b[..3] == PutChar(s[0]) && b[3..] == PutText(s[1..]);
      CharRoundTrip(s[0]);
      TextRoundTrip(s[1..]);
      assert s == [s[0]] + s[1..];
    }
  }

  function Put(id: nat, content: string): seq<byte> {
    PutNumber(id) + PutText(content)
  }

  function Get(b: seq<byte>): Option<(nat, string)> {
    match GetNumber(b)
    case Some((n, rest)) => (match GetText(rest) case Some(s) => Some((n, s)) case None => None)
    case None => None
  }

  lemma MessageRoundTrip(id: nat, content: string)
    ensures Get(Put(id, content)) == Some((id, content))
  {
    NumberRoundTrip(id, PutText(content));
    TextRoundTrip(content);
  }

  function PutCommand(c: Command): seq<byte> { Put(c.correlationId, c.content) }

  function PutResponse(r: Response): seq<byte> { Put(r.correlationId, r.content) }

  function GetCommand(b: seq<byte>): Option<Command> {
    match Get(b) case Some((n, s)) => Some(Command(n, s)) case None => None
  }

  function GetResponse(b: seq<byte>): Option<Response> {
    match Get(b) case Some((n, s)) => Some(Response(n, s)) case None => None
  }

  function Sample(): Codec {
    Codec(PutCommand, GetCommand, PutResponse, GetResponse)
  }

  lemma SampleIsFaithful()
    ensures Faithful(Sample())
  {
    forall c: Command ensures GetCommand(PutCommand(c)) == Some(c) {
      MessageRoundTrip(c.correlationId, c.content);
    }
    forall r: Response ensures GetResponse(PutResponse(r)) == Some(r) {
      MessageRoundTrip(r.correlationId, r.content);
    }
  }

  /** The client connects for the first time. */
  const CONNECTING := [Connect] + [DropOld] + [ConnectOk]

  lemma ConnectingWorks(x: Codec)
    ensures Legal(x, CONNECTING) && Waits(Run(x, CONNECTING))
    ensures Run(x, CONNECTING).calls == map[] && Run(x, CONNECTING).stream == Some(0)
  {
    assert Legal(x, []) && Run(x, []) == START;
    assert [] + [Connect] == [Connect];
    Extend(x, [], Connect);
    Extend(x, [Connect], DropOld);
    Extend(x, [Connect] + [DropOld], ConnectOk);
  }

  /** A whole run with this codec in which a call gets its answer. */
  lemma FirstCallCompletes()
    ensures Faithful(Sample())
    ensures var x, cmd, r := Sample(), Command(7, ""), Response(7, "");
            Completed(x, CONNECTING + Request(x, 0, 0, cmd) + ChannelRuns.Reply(x, 0, 0, r), 0, r)
  {
    SampleIsFaithful();
    ConnectingWorks(Sample());
    ShortBody(7);
    CallCanComplete(Sample(), CONNECTING, 0, Command(7, ""), Response(7, ""));
  }

  lemma ShortBody(n: nat)
    requires n < MAX_MESSAGE_BYTES
    ensures Fits(Put(n, ""))
  {
    NumberLength(n);
  }

  lemma {:induction false} NumberLength(n: nat)
    ensures |PutNumber(n)| == n + 1
  {
    if n > 0 {
      NumberLength(n - 1);
    }
  }
}
