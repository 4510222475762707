/** DNS over TCP through the tunnel: one framed exchange per server, and failover along the list. */
module TcpResolver {
  import opened Net
  import opened Utf8
  import opened DnsPacket
  import opened Sequences

  datatype DnsError =
    | NoServers
    | QueryTooLong
    | CannotOpen
    | CannotSend
    | CannotReadLength
    | EmptyAnswer
    | CannotReadAnswer
    | TimedOut

  datatype Outcome = Answer(bytes: seq<Byte>) | Failure(error: DnsError)

  const MAX_MESSAGE := 0xFFFF

  // ----- Framing, section 8 of RFC 7766 -----

  function Frame(message: seq<Byte>): seq<Byte>
    requires |message| <= MAX_MESSAGE
  {
    Be16(|message|) + message
  }

  /** The first message of a byte stream and what follows it, once all of it has come. */
  function Unframe(s: seq<Byte>): Option<(seq<Byte>, seq<Byte>)> {
    if |s| < 2 || |s| < 2 + Word(s, 0) then None
    else Some((s[2..2 + Word(s, 0)], s[2 + Word(s, 0)..]))
  }

  lemma UnframeFrame(message: seq<Byte>, rest: seq<Byte>)
    requires |message| <= MAX_MESSAGE
    ensures Unframe(Frame(message) + rest) == Some((message, rest))
  {
    var s := Frame(message) + rest;
    assert s[0..2] == Be16(|message|);
    WordOfBe16(s, 0, |message|);
    assert s[2..2 + |message|] == message;
  }

  lemma FrameUnframe(s: seq<Byte>)
    requires Unframe(s).Some?
    ensures Frame(Unframe(s).value.0) + Unframe(s).value.1 == s
  {
    assert Be16(Word(s, 0)) == s[..2] by {
      assert Join(s[0], s[1]) / 256 == s[0] && Join(s[0], s[1]) % 256 == s[1];
    }
  }

  /** No prefix of a framed message cut short reads as a message: a mid-answer close is never taken for an answer. */
  lemma CutFrameIsNoMessage(message: seq<Byte>, cut: nat)
    requires |message| <= MAX_MESSAGE && cut < |Frame(message)|
    ensures Unframe(Frame(message)[..cut]).None?
  {
    var s := Frame(message)[..cut];
    if cut >= 2 {
      assert s[0..2] == Be16(|message|);
      WordOfBe16(s, 0, |message|);
    }
  }

  // ----- One exchange -----

  /** A channel to a server: what it has been sent, what it will say before it closes, and how many writes it takes. */
  class DnsStream {
    var sent: seq<Byte>
    var inbound: seq<Byte>
    var writesLeft: nat

    constructor (inbound: seq<Byte>, writesLeft: nat)
      ensures sent == [] && this.inbound == inbound && this.writesLeft == writesLeft
    {
      sent, this.inbound, this.writesLeft := [], inbound, writesLeft;
    }

    method WriteAll(bytes: seq<Byte>) returns (ok: bool)
      modifies this`sent, this`writesLeft
      ensures ok == (old(writesLeft) > 0)
      ensures ok ==> sent == old(sent) + bytes && writesLeft == old(writesLeft) - 1
      ensures !ok ==> sent == old(sent) && writesLeft == 0
    {
      if writesLeft == 0 {
        return false;
      }
      sent, writesLeft := sent + bytes, writesLeft - 1;
      return true;
    }

    /** Fills the buffer, or fails at the end of the stream. */
    method ReadExact(buf: array<Byte>) returns (ok: bool)
      modifies this`inbound, buf
      ensures ok == (|old(inbound)| >= buf.Length)
      ensures ok ==> buf[..] == old(inbound)[..buf.Length] && inbound == old(inbound)[buf.Length..]
    {
      if |inbound| < buf.Length {
        return false;
      }
      for i := 0 to buf.Length
        invariant inbound == old(inbound)
        invariant forall j :: 0 <= j < i ==> buf[j] == inbound[j]
      {
        buf[i] := inbound[i];
      }
      inbound := inbound[buf.Length..];
      return true;
    }
  }

  /** What a server's side of the stream amounts to: the length, the query and the flush are three writes. */
  function Exchange(inbound: seq<Byte>, writes: nat): Outcome {
    if writes < 3 then Failure(CannotSend)
    else if |inbound| < 2 then Failure(CannotReadLength)
    else if Word(inbound, 0) == 0 then Failure(EmptyAnswer)
    else match Unframe(inbound)
      case None => Failure(CannotReadAnswer)
      case Some((message, _)) => Answer(message)
  }

  /** An answer is accepted exactly when the server took the query and sent one whole message that is not empty. */
  lemma AnsweredExactlyWhen(inbound: seq<Byte>, writes: nat)
    ensures Exchange(inbound, writes).Answer? <==>
              writes >= 3 && exists m: seq<Byte> :: 0 < |m| <= MAX_MESSAGE && Frame(m) <= inbound
    ensures forall m: seq<Byte> :: writes >= 3 && 0 < |m| <= MAX_MESSAGE && Frame(m) <= inbound ==>
              Exchange(inbound, writes) == Answer(m)
  {
    forall m: seq<Byte> | writes >= 3 && 0 < |m| <= MAX_MESSAGE && Frame(m) <= inbound
      ensures Exchange(inbound, writes) == Answer(m)
    {
      UnframeFrame(m, inbound[|Frame(m)|..]);
      assert inbound == Frame(m) + inbound[|Frame(m)|..];
    }
    if Exchange(inbound, writes).Answer? {
      FrameUnframe(inbound);
      assert Frame(Exchange(inbound, writes).bytes) <= inbound;
    }
  }

  lemma Be16OfWord(s: seq<Byte>)
    requires |s| >= 2
    ensures Be16(Word(s, 0)) == s[..2]
  {
    assert Join(s[0], s[1]) / 256 == s[0] && Join(s[0], s[1]) % 256 == s[1];
  }

  /** What a message cut short is the beginning of. */
  lemma Completed(s: seq<Byte>) returns (m: seq<Byte>)
    requires |s| >= 2 && Unframe(s).None?
    ensures |m| <= MAX_MESSAGE && s < Frame(m)
  {
    Be16OfWord(s);
    var n := Word(s, 0);
    assert |s| < 2 + n;
    hide Word, Be16, Unframe;
    var missing := seq(2 + n - |s|, _ => 0);
    m := s[2..] + missing;
    ConcatAssociates(s[..2], s[2..], missing);
    assert s[..2] + s[2..] == s;
    assert Frame(m) == s + missing;
  }

  /** The bytes of a length and then not all of what it announces are a message cut short, and nothing else is. */
  lemma CutShortExactlyWhen(s: seq<Byte>)
    requires |s| >= 2
    ensures Unframe(s).None? <==> exists m: seq<Byte> :: |m| <= MAX_MESSAGE && s < Frame(m)
  {
    hide Unframe, Frame;
    if Unframe(s).None? {
      var m := Completed(s);
    }
    if m: seq<Byte> :| |m| <= MAX_MESSAGE && s < Frame(m) {
      CutFrameIsNoMessage(m, |s|);
      assert Frame(m)[..|s|] == s;
    }
  }

  /** Why a server's side of the stream is no answer: exactly one of these, in the order in which they come up. */
  lemma FailureNamesItsCause(inbound: seq<Byte>, writes: nat)
    ensures var r := Exchange(inbound, writes);
            && (r == Failure(CannotSend) <==> writes < 3)
            && (r == Failure(CannotReadLength) <==> writes >= 3 && |inbound| < 2)
            && (r == Failure(EmptyAnswer) <==> writes >= 3 && |inbound| >= 2 && inbound[..2] == [0, 0])
            && (r == Failure(CannotReadAnswer) <==>
                  writes >= 3 && |inbound| >= 2 && exists m: seq<Byte> :: |m| <= MAX_MESSAGE && inbound < Frame(m))
  {
    if |inbound| >= 2 {
      CutShortExactlyWhen(inbound);
      NoLength(inbound);
      hide Frame, Word;
    }
  }

  lemma NoLength(s: seq<Byte>)
    requires |s| >= 2
    ensures Word(s, 0) == 0 <==> s[..2] == [0, 0]
    ensures Word(s, 0) == 0 ==> Unframe(s).Some?
  {
    Be16OfWord(s);
    var n := Word(s, 0);
    assert Unframe(s).None? ==> n > 0;
    hide Word, Unframe;
    if n == 0 {
      assert Be16(n) == [0, 0];
    }
    if s[..2] == [0, 0] {
      assert Be16(n)[0] == n / 256 && Be16(n)[1] == n % 256;
    }
  }

  /** `query_one`, on a stream already opened. The server is sent the framed query, and reads it back whole. */
  method QueryOne(stream: DnsStream, query: seq<Byte>) returns (r: Outcome)
    requires |query| <= MAX_MESSAGE && stream.sent == []
    modifies stream
    ensures r == Exchange(old(stream.inbound), old(stream.writesLeft))
    ensures stream.sent <= Frame(query)
    ensures r != Failure(CannotSend) ==> stream.sent == Frame(query) && Unframe(stream.sent) == Some((query, []))
  {
    var ok := stream.WriteAll(Be16(|query|));
    if !ok {
      return Failure(CannotSend);
    }
    ok := stream.WriteAll(query);
    if !ok {
      return Failure(CannotSend);
    }
    ok := stream.WriteAll([]);
    if !ok {
      return Failure(CannotSend);
    }
    UnframeFrame(query, []);
    assert Frame(query) + [] == Frame(query);
    var length := new Byte[2];
    ghost var said := stream.inbound;
    ok := stream.ReadExact(length);
    if !ok {
      return Failure(CannotReadLength);
    }
    assert length[0] == length[..][0] && length[1] == length[..][1];
    var n := Join(length[0], length[1]);
    assert n == Word(said, 0);
    if n == 0 {
      return Failure(EmptyAnswer);
    }
    var answer := new Byte[n];
    ok := stream.ReadExact(answer);
    if !ok {
      return Failure(CannotReadAnswer);
    }
    assert said[2..][..n] == said[2..2 + n];
    return Answer(answer[..]);
  }

  // ----- Failover -----

  /** How one server behaves: its stream may not open, and it may be too slow. */
  datatype Server = Unreachable | Late | Speaks(inbound: seq<Byte>, writes: nat)

  function Attempt(server: Server): Outcome {
    match server
    case Unreachable => Failure(CannotOpen)
    case Late => Failure(TimedOut)
    case Speaks(inbound, writes) => Exchange(inbound, writes)
  }

  /** The first answer in the list, or its last failure. */
  function FirstAnswer(servers: seq<Server>): Outcome
    requires servers != []
  {
    if Attempt(servers[0]).Answer? || |servers| == 1 then Attempt(servers[0]) else FirstAnswer(servers[1..])
  }

  /** How many servers there are up to the first that answers, or in all. */
  function Asked(servers: seq<Server>): (n: nat)
    ensures n <= |servers|
  {
    if servers == [] then 0
    else if Attempt(servers[0]).Answer? then 1
    else 1 + Asked(servers[1..])
  }

  lemma {:induction false} FirstAnswerIs(servers: seq<Server>, asked: nat)
    requires 0 < asked <= |servers|
    requires forall i :: 0 <= i < asked - 1 ==> Attempt(servers[i]).Failure?
    requires asked < |servers| ==> Attempt(servers[asked - 1]).Answer?
    ensures FirstAnswer(servers) == Attempt(servers[asked - 1])
    ensures Asked(servers) == asked
  {
    if asked > 1 {
      FirstAnswerIs(servers[1..], asked - 1);
    }
  }

  /** A server that is reached in time, takes the query, and sends `m`, whole and not empty. */
  ghost predicate Gives(server: Server, m: seq<Byte>) {
    server.Speaks? && server.writes >= 3 && 0 < |m| <= MAX_MESSAGE && Frame(m) <= server.inbound
  }

  ghost predicate Silent(server: Server) {
    forall m :: !Gives(server, m)
  }

  /**
   * Where an answer comes from: the first server in the list to give one, none that is late or out of reach. With none
   * to give one it is a failure, a timeout or a channel that would not open if that is what the last server came to.
   */
  ghost predicate Resolves(servers: seq<Server>, r: Outcome)
    requires servers != []
  {
    var last := servers[|servers| - 1];
    && (r.Answer? ==>
          exists i :: 0 <= i < |servers| && Gives(servers[i], r.bytes) && forall j :: 0 <= j < i ==> Silent(servers[j]))
    && (r.Failure? <==> forall s :: s in servers ==> Silent(s))
    && (r.Failure? && last.Late? ==> r.error == TimedOut)
    && (r.Failure? && last.Unreachable? ==> r.error == CannotOpen)
  }

  lemma GivenIsAnswered(server: Server, m: seq<Byte>)
    requires Gives(server, m)
    ensures Attempt(server) == Answer(m)
  {
    hide Frame, Exchange;
    AnsweredExactlyWhen(server.inbound, server.writes);
  }

  lemma AnswerIsGiven(server: Server)
    requires Attempt(server).Answer?
    ensures Gives(server, Attempt(server).bytes)
  {
    var inbound := server.inbound;
    FrameUnframe(inbound);
    hide Frame, Unframe, Word;
    var (m, rest) := Unframe(inbound).value;
    assert Frame(m) <= Frame(m) + rest;
  }

  lemma AttemptAnswers(server: Server)
    ensures Attempt(server).Answer? ==> Gives(server, Attempt(server).bytes)
    ensures Attempt(server).Failure? <==> Silent(server)
  {
    hide Gives, Attempt;
    forall m | Gives(server, m)
      ensures Attempt(server) == Answer(m)
    {
      GivenIsAnswered(server, m);
    }
    if Attempt(server).Answer? {
      AnswerIsGiven(server);
    }
  }

  lemma {:induction false} FirstAnswerResolves(servers: seq<Server>)
    requires servers != []
    ensures Resolves(servers, FirstAnswer(servers))
  {
    var r := FirstAnswer(servers);
    AttemptAnswers(servers[0]);
    hide Silent, Gives;
    if Attempt(servers[0]).Answer? {
      assert Gives(servers[0], r.bytes) && servers[0] in servers;
    } else if |servers| == 1 {
      assert forall s :: s in servers ==> s == servers[0];
    } else {
      var rest := servers[1..];
      FirstAnswerResolves(rest);
      assert rest[|rest| - 1] == servers[|servers| - 1];
      assert forall s :: s in servers <==> s == servers[0] || s in rest;
      if r.Answer? {
        var i :| 0 <= i < |rest| && Gives(rest[i], r.bytes) && forall j :: 0 <= j < i ==> Silent(rest[j]);
        assert Gives(servers[i + 1], r.bytes);
        assert forall j :: 0 < j < i + 1 ==> servers[j] == rest[j - 1];
      }
    }
  }

  /** The tunnel's DNS channels. It remembers which servers it has been asked to reach. */
  class Channels {
    var asked: seq<Server>

    constructor ()
      ensures asked == []
    {
      asked := [];
    }

    /** `open_dns_stream`: a stream, unless the server cannot be reached. A late server's stream says nothing in time. */
    method OpenDnsStream(server: Server) returns (stream: Option<DnsStream>)
      modifies this
      ensures asked == old(asked) + [server]
      ensures stream.Some? <==> !server.Unreachable?
      ensures stream.Some? ==> fresh(stream.value) && stream.value.sent == []
      ensures server.Speaks? ==> stream.value.inbound == server.inbound && stream.value.writesLeft == server.writes
    {
      asked := asked + [server];
      match server {
        case Unreachable => return None;
        case Late =>
          var silent := new DnsStream([], 0);
          return Some(silent);
        case Speaks(inbound, writes) =>
          var speaking := new DnsStream(inbound, writes);
          return Some(speaking);
      }
    }
  }

  /** One server's attempt: exactly one channel is opened for it. */
  method Ask(channels: Channels, server: Server, query: seq<Byte>) returns (r: Outcome)
    requires |query| <= MAX_MESSAGE
    modifies channels
    ensures channels.asked == old(channels.asked) + [server]
    ensures r == Attempt(server)
  {
    var stream := channels.OpenDnsStream(server);
    if stream.None? {
      return Failure(CannotOpen);
    }
    if server.Late? {
      return Failure(TimedOut);
    }
    r := QueryOne(stream.value, query);
  }

  /**
   * `query`: the first server that answers is believed and no channel is opened to any after it; if none
   * does, the error is the last server's. A query that cannot be framed, or no servers at all, opens nothing.
   */
  method Query(channels: Channels, servers: seq<Server>, query: seq<Byte>) returns (r: Outcome)
    modifies channels
    ensures servers == [] ==> r == Failure(NoServers)
    ensures servers != [] && |query| > MAX_MESSAGE ==> r == Failure(QueryTooLong)
    ensures servers == [] || |query| > MAX_MESSAGE ==> channels.asked == old(channels.asked)
    ensures servers != [] && |query| <= MAX_MESSAGE ==>
              && Resolves(servers, r)
              && r == FirstAnswer(servers)
              && channels.asked == old(channels.asked) + servers[..Asked(servers)]
  {
    if |servers| == 0 {
      return Failure(NoServers);
    }
    if |query| > MAX_MESSAGE {
      return Failure(QueryTooLong);
    }
    FirstAnswerResolves(servers);
    hide Resolves, FirstAnswer;
    var last := None;
    for i := 0 to |servers|
      invariant channels.asked == old(channels.asked) + servers[..i]
      invariant forall j :: 0 <= j < i ==> Attempt(servers[j]).Failure?
      invariant i > 0 ==> last.Some? && Failure(last.value) == Attempt(servers[i - 1])
    {
      var outcome := Ask(channels, servers[i], query);
      assert servers[..i + 1] == servers[..i] + [servers[i]];
      match outcome {
        case Answer(_) =>
          FirstAnswerIs(servers, i + 1);
          return outcome;
        case Failure(e) => last := Some(e);
      }
    }
    FirstAnswerIs(servers, |servers|);
    return Failure(last.value);
  }
}
