/** The helper: one tunnel, one client at a time, and the protocol between them, watched by a monitor. */
module Daemon {
  import opened Net
  import opened Authorize
  import opened Sequences

  const PROTOCOL_VERSION := 2

  datatype Request =
    | Hello(id: nat, protocolVersion: nat)
    | Connect(id: nat, params: ConnectParams)
    | Disconnect(id: nat)
    | GetStatus(id: nat)

  /** One line from the client: a request, or something that does not parse. */
  datatype Line = Malformed | Parsed(request: Request)

  datatype ErrorKind =
    | VersionMismatch
    | SecretRefused
    | AlreadyConnected
    | NotConnected
    | AuthFailed
    | BadRequest
    | Internal

  datatype Message =
    | Ack(id: nat)
    | Error(id: nat, kind: ErrorKind)
    | State(connected: bool)
    | Stats

  datatype Action = NoAction | Start(id: nat, authorized: Authorized) | StopTunnel

  function KindOf(e: StartError): ErrorKind {
    match e
    case BadProfile => BadRequest
    case BadRouteMode => BadRequest
    case BadTunAddress => BadRequest
    case EnvSecretNotAllowed => BadRequest
    case SecretNotPermitted(_) => SecretRefused
    case TunnelAuth => AuthFailed
    case TunnelConfig => BadRequest
    case TunnelOther => Internal
  }

  /**
   * What a client is told of a start that failed. Its credentials are blamed only by the server they were sent to, a
   * secret only if it may not be read, and the helper only for what no profile can mend; the rest is the request's.
   */
  lemma BlameIsWhereItBelongs(e: StartError)
    ensures KindOf(e) == AuthFailed <==> e == TunnelAuth
    ensures KindOf(e) == SecretRefused <==> e.SecretNotPermitted?
    ensures KindOf(e) == Internal <==> e == TunnelOther
    ensures KindOf(e) == BadRequest <==>
              e in {BadProfile, BadRouteMode, BadTunAddress, EnvSecretNotAllowed, TunnelConfig}
  {
  }

  /**
   * A connect turned away at the gate is never blamed on the server or the helper: it is a bad request, or, when all
   * else is in order, the first secret that may not be used is a file not to be read.
   */
  lemma GateBlames(p: ConnectParams)
    requires Gate(p).Refuse?
    ensures KindOf(Gate(p).error) == BadRequest || KindOf(Gate(p).error) == SecretRefused
    ensures KindOf(Gate(p).error) == SecretRefused <==>
              ShapeOk(p) && exists i :: 0 <= i < |p.profile.value.secretRefs| && FirstBadFile(p.profile.value.secretRefs, i)
  {
    if ShapeOk(p) {
      var refs := p.profile.value.secretRefs;
      SecretsReadExactlyWhen(refs);
      var i := FirstBad(refs);
      FirstBadSecretIsNamed(refs, i);
      assert refs[i].SecretFile? <==> FirstBadFile(refs, i);
      if j :| 0 <= j < |refs| && FirstBadFile(refs, j) {
        assert j == i;
      }
    } else if p.profile.Some? && !p.profile.value.kind.WireGuard? {
      if p.routeMode == "test" {
        TestModePassesExactlyWhen(p.cidrs, p.captureDns);
      }
    }
  }

  predicate FirstBadFile(refs: seq<SecretRef>, i: nat) {
    i < |refs| && refs[i].SecretFile? && refs[i].problem.Some? && forall j :: 0 <= j < i ==> SecretOk(refs[j])
  }

  lemma {:induction false} FirstBad(refs: seq<SecretRef>) returns (i: nat)
    requires exists r :: r in refs && !SecretOk(r)
    ensures i < |refs| && !SecretOk(refs[i]) && forall j :: 0 <= j < i ==> SecretOk(refs[j])
  {
    if !SecretOk(refs[0]) {
      i := 0;
    } else {
      i := FirstBad(refs[1..]);
      i := i + 1;
    }
  }

  /** A malformed line is answered under id 0. */
  function IdOf(line: Line): nat {
    match line
    case Malformed => 0
    case Parsed(r) => r.id
  }

  predicate IsHello(line: Line) {
    line.Parsed? && line.request.Hello? && line.request.protocolVersion == PROTOCOL_VERSION
  }

  predicate IsConnect(line: Line) {
    line.Parsed? && line.request.Connect?
  }

  predicate IsDisconnect(line: Line) {
    line.Parsed? && line.request.Disconnect?
  }

  predicate IsResponse(m: Message) {
    m.Ack? || m.Error?
  }

  // ----- One connection's protocol state -----

  class Session {
    var greeted: bool
    var connected: bool

    constructor ()
      ensures !greeted && !connected
    {
      greeted, connected := false, false;
    }

    /** Adopts a tunnel the daemon already had. */
    method ResumeConnected()
      modifies this
      ensures connected && greeted == old(greeted)
    {
      connected := true;
    }

    method ConnectSucceeded(id: nat) returns (out: seq<Message>)
      modifies this
      ensures connected && greeted == old(greeted)
      ensures out == [Ack(id), State(true)]
    {
      connected := true;
      out := [Ack(id), State(connected)];
    }

    method ConnectFailed(id: nat, e: StartError) returns (out: seq<Message>)
      modifies this
      ensures !connected && greeted == old(greeted)
      ensures out == [Error(id, KindOf(e))]
    {
      connected := false;
      out := [Error(id, KindOf(e))];
    }

    method TunnelStopped() returns (out: seq<Message>)
      modifies this
      ensures !connected && greeted == old(greeted)
      ensures out == [State(false)]
    {
      connected := false;
      out := [State(connected)];
    }

    /** One line: what to reply, and what privileged work to do. */
    method Handle(line: Line) returns (out: seq<Message>, action: Action)
      modifies this
      ensures greeted <==> old(greeted) || IsHello(line)
      ensures connected <==> old(connected) && !action.StopTunnel?
      ensures line.Malformed? ==> out == [Error(0, BadRequest)] && action.NoAction?
      ensures IsHello(line) ==> out == [Ack(IdOf(line))] && action.NoAction?
      ensures line.Parsed? && line.request.Hello? && !IsHello(line) ==>
                out == [Error(IdOf(line), VersionMismatch)] && action.NoAction?
      // Nothing but a fit hello is served before one.
      ensures !old(greeted) && line.Parsed? && !line.request.Hello? ==>
                out == [Error(IdOf(line), BadRequest)] && action.NoAction?
      ensures old(greeted) && line.Parsed? && line.request.GetStatus? ==>
                out == [Ack(IdOf(line)), State(connected)] && action.NoAction?
      ensures old(greeted) && IsDisconnect(line) ==>
                if old(connected) then out == [Ack(IdOf(line)), State(false)] && action.StopTunnel?
                else out == [Error(IdOf(line), NotConnected)] && action.NoAction?
      ensures old(greeted) && old(connected) && IsConnect(line) ==>
                out == [Error(IdOf(line), AlreadyConnected)] && action.NoAction?
      // A start is asked for only with nothing running and the gate passed; it is the one case without a reply yet.
      ensures old(greeted) && !old(connected) && IsConnect(line) ==>
                match Gate(line.request.params) {
                  case Pass(authorized) => out == [] && action == Start(IdOf(line), authorized)
                  case Refuse(e) => out == [Error(IdOf(line), KindOf(e))] && action.NoAction?
                }
    {
      match line {
        case Malformed =>
          return [Error(0, BadRequest)], NoAction;
        case Parsed(request) =>
          var id := request.id;
          if request.Hello? {
            if request.protocolVersion != PROTOCOL_VERSION {
              return [Error(id, VersionMismatch)], NoAction;
            }
            greeted := true;
            return [Ack(id)], NoAction;
          }
          if !greeted {
            return [Error(id, BadRequest)], NoAction;
          }
          match request {
            case GetStatus(_) =>
              return [Ack(id), State(connected)], NoAction;
            case Disconnect(_) =>
              if !connected {
                return [Error(id, NotConnected)], NoAction;
              }
              connected := false;
              return [Ack(id), State(connected)], StopTunnel;
            case Connect(_, params) =>
              if connected {
                return [Error(id, AlreadyConnected)], NoAction;
              }
              var verdict := AuthorizeParams(params);
              match verdict {
                case Pass(authorized) =>
                  return [], Start(id, authorized);
                case Refuse(e) =>
                  out := ConnectFailed(id, e);
                  return out, NoAction;
              }
          }
      }
    }
  }

  // ----- What the daemon does with each client, as a log -----

  datatype Entry =
    | Accepted                                        // a client connects
    | Received(line: Line)
    | Ticked(engineStopped: bool)
    | Sent(message: Message)
    | Started(tunnel: nat, authorized: Authorized)
    | Ended(tunnel: nat)
    | LoopHead(connected: bool)                       // a new turn of the serving loop, with what the session believes
    | HungUp                                          // the client is gone, or a write to it failed
    | Exiting                                         // the daemon stops

  /** What the world answers to one turn of the serving loop. `room` is how many lines can still be written. */
  datatype Turn =
    | Input(line: Line, startFails: Option<StartError>, room: nat)
    | Tick(engineStopped: bool, room: nat)

  /** Where the daemon and its client stand. Tunnels are named by the order they were started in. */
  datatype Standing = Standing(greeted: bool, tunnel: Option<nat>, started: nat)

  const START := Standing(false, None, 0)

  predicate PassesGate(line: Line) {
    IsConnect(line) && Gate(line.request.params).Pass?
  }

  predicate Starts(v: Standing, line: Line, startFails: Option<StartError>) {
    v.greeted && v.tunnel.None? && PassesGate(line) && startFails.None?
  }

  predicate Stops(v: Standing, line: Line) {
    v.greeted && v.tunnel.Some? && IsDisconnect(line)
  }

  /** What a line deserves to be told. */
  function AnswerTo(v: Standing, line: Line, startFails: Option<StartError>): seq<Message> {
    var id := IdOf(line);
    if line.Malformed? then [Error(id, BadRequest)]
    else if IsHello(line) then [Ack(id)]
    else if line.request.Hello? then [Error(id, VersionMismatch)]
    else if !v.greeted then [Error(id, BadRequest)]
    else
      match line.request
      case GetStatus(_) => [Ack(id), State(v.tunnel.Some?)]
      case Disconnect(_) => if v.tunnel.Some? then [Ack(id), State(false)] else [Error(id, NotConnected)]
      case Connect(_, params) =>
        if v.tunnel.Some? then [Error(id, AlreadyConnected)]
        else if Gate(params).Refuse? then [Error(id, KindOf(Gate(params).error))]
        else if startFails.Some? then [Error(id, KindOf(startFails.value))]
        else [Ack(id), State(true)]
      case _ => []
  }

  /** What a tick tells a greeted client whose tunnel is up. */
  function NewsOf(v: Standing, engineStopped: bool): seq<Message> {
    if !v.greeted || v.tunnel.None? then [] else if engineStopped then [State(false)] else [Stats]
  }

  /** As much of some lines as there is room for. */
  function Written(out: seq<Message>, room: nat): seq<Entry> {
    seq(if |out| <= room then |out| else room, i requires 0 <= i < |out| => Sent(out[i]))
  }

  function Messages(v: Standing, t: Turn): seq<Message> {
    match t
    case Input(line, startFails, _) => AnswerTo(v, line, startFails)
    case Tick(engineStopped, _) => NewsOf(v, engineStopped)
  }

  /** The client is still there after the turn: everything could be written. */
  predicate Survives(v: Standing, t: Turn) {
    |Messages(v, t)| <= t.room
  }

  /** One turn: the input, the start before its reply, the reply, the stop after its. A dead engine's tunnel goes first. */
  function TurnLog(v: Standing, t: Turn): seq<Entry> {
    var written := Written(Messages(v, t), t.room);
    match t
    case Input(line, startFails, _) =>
      [Received(line)]
      + (if Starts(v, line, startFails) then [Started(v.started, Gate(line.request.params).value)] else [])
      + written
      + (if Stops(v, line) && Survives(v, t) then [Ended(v.tunnel.value)] else [])
    case Tick(engineStopped, _) =>
      [Ticked(engineStopped)]
      + (if v.greeted && v.tunnel.Some? && engineStopped then [Ended(v.tunnel.value)] else [])
      + written
  }

  function AfterTurn(v: Standing, t: Turn): Standing {
    match t
    case Input(line, startFails, _) =>
      if Starts(v, line, startFails) then Standing(true, Some(v.started), v.started + 1)
      else if Stops(v, line) && Survives(v, t) then v.(tunnel := None)
      else v.(greeted := v.greeted || IsHello(line))
    case Tick(engineStopped, _) => if v.greeted && engineStopped then v.(tunnel := None) else v
  }

  function ClientLog(v: Standing, turns: seq<Turn>): seq<Entry>
    decreases |turns|
  {
    [LoopHead(v.tunnel.Some?)] +
    if turns == [] then [HungUp]
    else
      TurnLog(v, turns[0]) +
      if Survives(v, turns[0]) then ClientLog(AfterTurn(v, turns[0]), turns[1..]) else [HungUp]
  }

  /** What a client's log is after a first turn. */
  function RestOfLog(v: Standing, turns: seq<Turn>): seq<Entry>
    requires turns != []
  {
    if Survives(v, turns[0]) then ClientLog(AfterTurn(v, turns[0]), turns[1..]) else [HungUp]
  }

  lemma ClientLogStep(v: Standing, turns: seq<Turn>)
    requires turns != []
    ensures ClientLog(v, turns) == [LoopHead(v.tunnel.Some?)] + (TurnLog(v, turns[0]) + RestOfLog(v, turns))
  {
  }

  function AfterClient(v: Standing, turns: seq<Turn>): Standing
    decreases |turns|
  {
    if turns == [] then v
    else if Survives(v, turns[0]) then AfterClient(AfterTurn(v, turns[0]), turns[1..])
    else AfterTurn(v, turns[0])
  }

  /** The daemon's whole life: clients one after another, and an exit that takes the tunnel down. */
  function DaemonLog(v: Standing, clients: seq<seq<Turn>>): seq<Entry>
    decreases |clients|
  {
    if clients == [] then [Exiting] + (if v.tunnel.Some? then [Ended(v.tunnel.value)] else [])
    else
      var newcomer := v.(greeted := false);
      [Accepted] + ClientLog(newcomer, clients[0]) + DaemonLog(AfterClient(newcomer, clients[0]), clients[1..])
  }

  lemma NothingWritten(room: nat)
    ensures Written([], room) == []
  {
  }

  lemma DaemonLogStep(v: Standing, clients: seq<seq<Turn>>)
    requires clients != []
    ensures var newcomer := v.(greeted := false);
            DaemonLog(v, clients) ==
            [Accepted] + (ClientLog(newcomer, clients[0]) + DaemonLog(AfterClient(newcomer, clients[0]), clients[1..]))
  {
  }

  lemma LogGrows(before: seq<Entry>, e: Entry, turn: seq<Entry>, rest: seq<Entry>)
    ensures before + ([e] + (turn + rest)) == before + [e] + turn + rest
  {
  }

  class Helper {
    var tunnel: Option<nat>
    var started: nat
    ghost var log: seq<Entry>

    constructor ()
      ensures log == [] && tunnel.None? && started == 0
    {
      tunnel, started, log := None, 0, [];
    }

    /** The daemon as one client's session sees it; the session mirrors the tunnel. */
    ghost predicate Stands(sess: Session, v: Standing)
      reads this, sess
    {
      v == Standing(sess.greeted, tunnel, started) && sess.connected == tunnel.Some?
    }

    /** `write_all`: line by line, stopping where a write fails. */
    method WriteAll(out: seq<Message>, room: nat) returns (ok: bool)
      modifies this`log
      ensures ok <==> |out| <= room
      ensures log == old(log) + Written(out, room)
    {
      for i := 0 to |out|
        invariant i <= room && log == old(log) + Written(out, room)[..i]
      {
        if i == room {
          return false;
        }
        log := log + [Sent(out[i])];
      }
      return true;
    }

    /** Takes the tunnel down, when there is one. */
    method TakeTunnel()
      modifies this`tunnel, this`log
      ensures tunnel.None?
      ensures log == old(log) + (if old(tunnel).Some? then [Ended(old(tunnel).value)] else [])
    {
      if tunnel.Some? {
        log := log + [Ended(tunnel.value)];
        tunnel := None;
      }
    }

    /** `Tunnel::start`, reached only with nothing running. */
    method StartTunnel(authorized: Authorized, fails: Option<StartError>) returns (ok: bool)
      requires tunnel.None?
      modifies this
      ensures ok <==> fails.None?
      ensures ok ==> tunnel == Some(old(started)) && started == old(started) + 1
      ensures ok ==> log == old(log) + [Started(old(started), authorized)]
      ensures !ok ==> tunnel.None? && started == old(started) && log == old(log)
    {
      if fails.Some? {
        return false;
      }
      log := log + [Started(started, authorized)];
      tunnel, started := Some(started), started + 1;
      return true;
    }

    /** What the session makes of a line: the whole answer, unless there is a tunnel to start first. */
    method Consider(sess: Session, line: Line, ghost v: Standing) returns (out: seq<Message>, action: Action)
      requires Stands(sess, v)
      modifies sess
      ensures if v.greeted && v.tunnel.None? && PassesGate(line) then
                && out == [] && action == Start(IdOf(line), Gate(line.request.params).value)
                && AnswerTo(v, line, None) == [Ack(IdOf(line)), State(true)]
                && forall e :: AnswerTo(v, line, Some(e)) == [Error(IdOf(line), KindOf(e))]
              else
                && (forall startFails :: out == AnswerTo(v, line, startFails))
                && action == if Stops(v, line) then StopTunnel else NoAction
      ensures sess.greeted == (v.greeted || IsHello(line))
      ensures sess.connected == (v.tunnel.Some? && !Stops(v, line))
    {
      out, action := sess.Handle(line);
    }

    /** One line: the reply, and the privileged work between or after. */
    method ServeLine(sess: Session, line: Line, startFails: Option<StartError>, room: nat, ghost v: Standing)
      returns (alive: bool)
      requires Stands(sess, v)
      modifies this, sess
      ensures alive <==> Survives(v, Input(line, startFails, room))
      ensures log == old(log) + TurnLog(v, Input(line, startFails, room))
      ensures tunnel == AfterTurn(v, Input(line, startFails, room)).tunnel
      ensures started == AfterTurn(v, Input(line, startFails, room)).started
      ensures alive ==> Stands(sess, AfterTurn(v, Input(line, startFails, room)))
    {
      hide Gate, KindOf, AnswerTo, PassesGate, Written;
      log := log + [Received(line)];
      var out, action := Consider(sess, line, v);
      alive := WriteAll(out, room);
      if !alive {
        return;
      }
      match action {
        case NoAction =>
        case StopTunnel =>
          TakeTunnel();
        case Start(id, authorized) =>
          assert Written(out, room) == [] by { NothingWritten(room); }
          alive := StartAndReply(sess, id, authorized, startFails, room);
      }
    }

    /** The privileged part of a connect, and then its reply. */
    method StartAndReply(sess: Session, id: nat, authorized: Authorized, startFails: Option<StartError>, room: nat)
      returns (alive: bool)
      requires tunnel.None? && !sess.connected
      modifies this, sess
      ensures var reply := if startFails.None? then [Ack(id), State(true)] else [Error(id, KindOf(startFails.value))];
              && (alive <==> |reply| <= room)
              && log == old(log) + (if startFails.None? then [Started(old(started), authorized)] else []) + Written(reply, room)
      ensures tunnel == if startFails.None? then Some(old(started)) else None
      ensures started == if startFails.None? then old(started) + 1 else old(started)
      ensures sess.greeted == old(sess.greeted) && sess.connected == tunnel.Some?
    {
      var ok := StartTunnel(authorized, startFails);
      var reply;
      if ok {
        reply := sess.ConnectSucceeded(id);
      } else {
        reply := sess.ConnectFailed(id, startFails.value);
      }
      alive := WriteAll(reply, room);
    }

    /** One tick: nothing to a client not greeted, the end of a tunnel whose engine died, or a stats frame. */
    method ServeTick(sess: Session, engineStopped: bool, room: nat, ghost v: Standing) returns (alive: bool)
      requires Stands(sess, v)
      modifies this, sess
      ensures alive <==> Survives(v, Tick(engineStopped, room))
      ensures log == old(log) + TurnLog(v, Tick(engineStopped, room))
      ensures tunnel == AfterTurn(v, Tick(engineStopped, room)).tunnel
      ensures started == AfterTurn(v, Tick(engineStopped, room)).started
      ensures alive ==> Stands(sess, AfterTurn(v, Tick(engineStopped, room)))
    {
      log := log + [Ticked(engineStopped)];
      if !sess.greeted || tunnel.None? {
        return true;
      }
      if engineStopped {
        var out := sess.TunnelStopped();
        TakeTunnel();
        alive := WriteAll(out, room);
        return;
      }
      alive := WriteAll([Stats], room);
    }

    /** Serves one client, every turn of it, until it hangs up or cannot be written to. The tunnel is not its to end. */
    method ServeOne(turns: seq<Turn>)
      modifies this
      ensures var v := Standing(false, old(tunnel), old(started));
              && log == old(log) + [Accepted] + ClientLog(v, turns)
              && tunnel == AfterClient(v, turns).tunnel && started == AfterClient(v, turns).started
    {
      log := log + [Accepted];
      var sess := new Session();
      if tunnel.Some? {
        sess.ResumeConnected();
      }
      ghost var v := Standing(false, tunnel, started);
      ghost var all, end := log + ClientLog(v, turns), AfterClient(v, turns);
      for i := 0 to |turns|
        invariant fresh(sess) && Stands(sess, v)
        invariant log + ClientLog(v, turns[i..]) == all && AfterClient(v, turns[i..]) == end
      {
        ghost var before := log;
        assert turns[i..][0] == turns[i] && turns[i..][1..] == turns[i + 1..];
        ClientLogStep(v, turns[i..]);
        hide TurnLog, AfterTurn, Survives, ClientLog;
        log := log + [LoopHead(sess.connected)];
        var alive := true;
        match turns[i] {
          case Input(line, startFails, room) =>
            alive := ServeLine(sess, line, startFails, room, v);
          case Tick(engineStopped, room) =>
            alive := ServeTick(sess, engineStopped, room, v);
        }
        LogGrows(before, LoopHead(v.tunnel.Some?), TurnLog(v, turns[i]), RestOfLog(v, turns[i..]));
        if !alive {
          log := log + [HungUp];
          return;
        }
        v := AfterTurn(v, turns[i]);
      }
      log := log + [LoopHead(sess.connected), HungUp];
    }

    /** The daemon's life: one client after another, then the end, which takes the tunnel down with it. */
    method Serve(clients: seq<seq<Turn>>)
      requires log == [] && tunnel.None? && started == 0
      modifies this
      ensures log == DaemonLog(START, clients) && tunnel.None?
    {
      ghost var v := START;
      for i := 0 to |clients|
        invariant v.tunnel == tunnel && v.started == started
        invariant log + DaemonLog(v, clients[i..]) == DaemonLog(START, clients)
      {
        hide ClientLog, AfterClient;
        ghost var before := log;
        assert clients[i..][0] == clients[i] && clients[i..][1..] == clients[i + 1..];
        ServeOne(clients[i]);
        ghost var newcomer := v.(greeted := false);
        ghost var next := AfterClient(newcomer, clients[i]);
        DaemonLogStep(v, clients[i..]);
        LogGrows(before, Accepted, ClientLog(newcomer, clients[i]), DaemonLog(next, clients[i + 1..]));
        hide DaemonLog;
        v := next;
      }
      log := log + [Exiting];
      TakeTunnel();
    }
  }

  // ----- The rules an observer of the log holds the daemon to -----

  /**
   * The observer's state: the tunnel held, whether this client has been greeted, the line it is owed a
   * response to, the last state event it was sent, whether the newest input allows the tunnel to end,
   * whether that input's tunnel has started, and whether every rule has held so far.
   */
  datatype Monitor = Monitor(
    held: Option<nat>,
    greeted: bool,
    owed: Option<Line>,
    lastState: Option<bool>,
    mayEnd: bool,
    startedHere: bool,
    ok: bool
  )

  const FRESH := Monitor(None, false, None, None, false, false, true)

  function Watch(m: Monitor, e: Entry): Monitor {
    match e
    case Accepted => Monitor(m.held, false, None, None, false, false, m.ok)
    case Received(line) =>
      // Every earlier line has been answered.
      m.(owed := Some(line), mayEnd := IsDisconnect(line), startedHere := false, ok := m.ok && m.owed.None?)
    case Ticked(engineStopped) => m.(mayEnd := engineStopped, ok := m.ok && m.owed.None?)
    case Sent(Ack(id)) =>
      // One response to the line owed one; a connect is acked only once its tunnel has started.
      m.(owed := None,
         greeted := m.greeted || (m.owed.Some? && IsHello(m.owed.value)),
         ok := m.ok && m.owed.Some? && id == IdOf(m.owed.value)
               && (m.greeted || IsHello(m.owed.value))
               && (IsConnect(m.owed.value) ==> m.startedHere && m.held.Some?))
    case Sent(Error(id, _)) =>
      m.(owed := None, ok := m.ok && m.owed.Some? && id == IdOf(m.owed.value))
    case Sent(State(b)) =>
      m.(lastState := Some(b), ok := m.ok && m.greeted)
    case Sent(Stats) =>
      m.(ok := m.ok && m.greeted && m.held.Some?)
    case Started(t, authorized) =>
      // Only for a greeted client's connect that passed the gate, with what passed it, and only with nothing running.
      m.(held := Some(t), startedHere := true,
         ok := m.ok && m.greeted && m.held.None? && m.owed.Some? && PassesGate(m.owed.value)
               && Gate(m.owed.value.request.params).value == authorized)
    case Ended(t) =>
      m.(held := None, ok := m.ok && m.held == Some(t) && m.mayEnd)
    case LoopHead(connected) =>
      m.(ok := m.ok && m.owed.None?
               && connected == m.held.Some?
               && (m.lastState.Some? ==> m.lastState.value == connected))
    case HungUp => m.(mayEnd := false)
    case Exiting => m.(mayEnd := true)
  }

  function WatchFrom(m: Monitor, log: seq<Entry>): Monitor {
    if log == [] then m else Watch(WatchFrom(m, log[..|log| - 1]), log[|log| - 1])
  }

  function WatchAll(log: seq<Entry>): Monitor {
    WatchFrom(FRESH, log)
  }

  lemma WatchAppend(log: seq<Entry>, e: Entry)
    ensures WatchAll(log + [e]) == Watch(WatchAll(log), e)
  {
    assert (log + [e])[..|log|] == log;
  }

  lemma {:induction false} WatchConcat(m: Monitor, a: seq<Entry>, b: seq<Entry>)
    ensures WatchFrom(m, a + b) == WatchFrom(WatchFrom(m, a), b)
  {
    if b == [] {
      assert a + b == a;
    } else {
      var n := |b| - 1;
      WatchConcat(m, a, b[..n]);
      assert (a + b)[..|a + b| - 1] == a + b[..n];
    }
  }

  lemma WatchOne(m: Monitor, e: Entry)
    ensures WatchFrom(m, [e]) == Watch(m, e)
  {
    assert [e][..0] == [];
  }

  lemma WatchThree(m: Monitor, head: Entry, turn: seq<Entry>, rest: seq<Entry>)
    ensures WatchFrom(m, [head] + (turn + rest)) == WatchFrom(WatchFrom(Watch(m, head), turn), rest)
  {
    WatchOne(m, head);
    WatchConcat(m, [head], turn + rest);
    WatchConcat(Watch(m, head), turn, rest);
  }

  lemma WatchTwo(m: Monitor, d: Entry, e: Entry)
    ensures WatchFrom(m, [d, e]) == Watch(Watch(m, d), e)
  {
    assert [d, e][..1] == [d];
    WatchOne(m, d);
  }

  /** At the head of the loop the observer and the daemon agree. */
  predicate InSync(m: Monitor, v: Standing) {
    && m.ok && m.owed.None? && m.held == v.tunnel && m.greeted == v.greeted
    && (m.lastState.Some? ==> m.lastState.value == v.tunnel.Some?)
  }

  /** A response and perhaps a state event, or as much of them as could be written. */
  lemma WatchWritten(m: Monitor, out: seq<Message>, room: nat)
    requires |out| <= 2
    ensures |out| == 0 || room == 0 ==> WatchFrom(m, Written(out, room)) == m
    ensures |out| >= 1 && room >= 1 && (|out| == 1 || room == 1) ==> WatchFrom(m, Written(out, room)) == Watch(m, Sent(out[0]))
    ensures |out| == 2 && room >= 2 ==> WatchFrom(m, Written(out, room)) == Watch(Watch(m, Sent(out[0])), Sent(out[1]))
  {
    if |out| == 0 || room == 0 {
      assert Written(out, room) == [];
    } else if |out| == 1 || room == 1 {
      assert Written(out, room) == [Sent(out[0])];
      WatchOne(m, Sent(out[0]));
    } else {
      assert Written(out, room) == [Sent(out[0]), Sent(out[1])];
      WatchTwo(m, Sent(out[0]), Sent(out[1]));
    }
  }

  /** No turn is longer than two lines, so room for two is room for any. */
  lemma TwoLinesAreEnough(v: Standing, t: Turn)
    ensures |Messages(v, t)| <= 2
    ensures t.room >= 2 ==> Survives(v, t)
  {
  }

  lemma TurnKeepsRules(m: Monitor, v: Standing, t: Turn)
    requires InSync(m, v)
    ensures var m' := WatchFrom(m, TurnLog(v, t));
            && m'.ok && m'.held == AfterTurn(v, t).tunnel
            && (Survives(v, t) ==> InSync(m', AfterTurn(v, t)))
  {
    if t.Input? {
      LineKeepsRules(m, v, t);
    } else {
      TickKeepsRules(m, v, t);
    }
  }

  lemma LineKeepsRules(m: Monitor, v: Standing, t: Turn)
    requires InSync(m, v) && t.Input?
    ensures var m' := WatchFrom(m, TurnLog(v, t));
            && m'.ok && m'.held == AfterTurn(v, t).tunnel
            && (Survives(v, t) ==> InSync(m', AfterTurn(v, t)))
  {
    var written := Written(AnswerTo(v, t.line, t.startFails), t.room);
    if Starts(v, t.line, t.startFails) {
      var start := Started(v.started, Gate(t.line.request.params).value);
      assert TurnLog(v, t) == [Received(t.line), start] + written;
      StartKeepsRules(m, v, t, start, written);
    } else if Stops(v, t.line) && Survives(v, t) {
      assert TurnLog(v, t) == [Received(t.line)] + (written + [Ended(v.tunnel.value)]);
      StopKeepsRules(m, v, t, written);
    } else {
      assert TurnLog(v, t) == [Received(t.line)] + written;
      ReplyKeepsRules(m, v, t, written);
    }
  }

  lemma StartKeepsRules(m: Monitor, v: Standing, t: Turn, start: Entry, written: seq<Entry>)
    requires InSync(m, v) && t.Input? && Starts(v, t.line, t.startFails)
    requires start == Started(v.started, Gate(t.line.request.params).value)
    requires written == Written(AnswerTo(v, t.line, t.startFails), t.room)
    ensures var m' := WatchFrom(m, [Received(t.line), start] + written);
            && m'.ok && m'.held == Some(v.started)
            && (Survives(v, t) ==> InSync(m', Standing(true, Some(v.started), v.started + 1)))
  {
    WatchConcat(m, [Received(t.line), start], written);
    WatchTwo(m, Received(t.line), start);
    WatchWritten(Watch(Watch(m, Received(t.line)), start), AnswerTo(v, t.line, t.startFails), t.room);
    hide WatchFrom, Gate;
  }

  lemma StopKeepsRules(m: Monitor, v: Standing, t: Turn, written: seq<Entry>)
    requires InSync(m, v) && t.Input? && Stops(v, t.line) && Survives(v, t)
    requires written == Written(AnswerTo(v, t.line, t.startFails), t.room)
    ensures InSync(WatchFrom(m, [Received(t.line)] + (written + [Ended(v.tunnel.value)])), v.(tunnel := None))
  {
    var heard, stop := Watch(m, Received(t.line)), Ended(v.tunnel.value);
    WatchOne(m, Received(t.line));
    WatchConcat(m, [Received(t.line)], written + [stop]);
    WatchConcat(heard, written, [stop]);
    WatchWritten(heard, AnswerTo(v, t.line, t.startFails), t.room);
    WatchOne(WatchFrom(heard, written), stop);
    hide WatchFrom;
  }

  lemma ReplyKeepsRules(m: Monitor, v: Standing, t: Turn, written: seq<Entry>)
    requires InSync(m, v) && t.Input?
    requires !Starts(v, t.line, t.startFails) && !(Stops(v, t.line) && Survives(v, t))
    requires written == Written(AnswerTo(v, t.line, t.startFails), t.room)
    ensures var m' := WatchFrom(m, [Received(t.line)] + written);
            && m'.ok && m'.held == v.tunnel
            && (Survives(v, t) ==> InSync(m', v.(greeted := v.greeted || IsHello(t.line))))
  {
    var heard := Watch(m, Received(t.line));
    WatchOne(m, Received(t.line));
    WatchConcat(m, [Received(t.line)], written);
    WatchWritten(heard, AnswerTo(v, t.line, t.startFails), t.room);
    hide WatchFrom, Gate;
  }

  lemma TickKeepsRules(m: Monitor, v: Standing, t: Turn)
    requires InSync(m, v) && t.Tick?
    ensures var m' := WatchFrom(m, TurnLog(v, t));
            && m'.ok && m'.held == AfterTurn(v, t).tunnel
            && (Survives(v, t) ==> InSync(m', AfterTurn(v, t)))
  {
    var out := NewsOf(v, t.engineStopped);
    var written := Written(out, t.room);
    var ticked := Watch(m, Ticked(t.engineStopped));
    WatchOne(m, Ticked(t.engineStopped));
    if v.greeted && v.tunnel.Some? && t.engineStopped {
      var stop := Ended(v.tunnel.value);
      assert TurnLog(v, t) == [Ticked(t.engineStopped), stop] + written;
      WatchConcat(m, [Ticked(t.engineStopped), stop], written);
      WatchTwo(m, Ticked(t.engineStopped), stop);
      WatchWritten(Watch(ticked, stop), out, t.room);
    } else {
      assert TurnLog(v, t) == [Ticked(t.engineStopped)] + written;
      WatchConcat(m, [Ticked(t.engineStopped)], written);
      WatchWritten(ticked, out, t.room);
    }
  }

  lemma {:induction false} ClientKeepsRules(m: Monitor, v: Standing, turns: seq<Turn>)
    requires InSync(m, v)
    ensures var m' := WatchFrom(m, ClientLog(v, turns)); m'.ok && m'.held == AfterClient(v, turns).tunnel
    decreases |turns|
  {
    var head := LoopHead(v.tunnel.Some?);
    assert Watch(m, head) == m;
    if turns == [] {
      assert ClientLog(v, turns) == [head, HungUp];
      WatchTwo(m, head, HungUp);
    } else {
      var log, rest := TurnLog(v, turns[0]), RestOfLog(v, turns);
      TurnKeepsRules(m, v, turns[0]);
      ClientLogStep(v, turns);
      WatchThree(m, head, log, rest);
      WatchOne(WatchFrom(m, log), HungUp);
      hide TurnLog, AfterTurn, Survives, ClientLog, WatchFrom;
      if Survives(v, turns[0]) {
        ClientKeepsRules(WatchFrom(m, log), AfterTurn(v, turns[0]), turns[1..]);
      }
    }
  }

  lemma {:induction false} DaemonKeepsRulesFrom(m: Monitor, v: Standing, clients: seq<seq<Turn>>)
    requires m.ok && m.held == v.tunnel
    ensures WatchFrom(m, DaemonLog(v, clients)).ok && WatchFrom(m, DaemonLog(v, clients)).held.None?
    decreases |clients|
  {
    if clients == [] {
      WatchOne(m, Exiting);
      if v.tunnel.Some? {
        assert DaemonLog(v, clients) == [Exiting, Ended(v.tunnel.value)];
        WatchTwo(m, Exiting, Ended(v.tunnel.value));
      } else {
        assert DaemonLog(v, clients) == [Exiting];
      }
    } else {
      var newcomer := v.(greeted := false);
      var log, next := ClientLog(newcomer, clients[0]), AfterClient(newcomer, clients[0]);
      var rest := DaemonLog(next, clients[1..]);
      DaemonLogStep(v, clients);
      WatchThree(m, Accepted, log, rest);
      ClientKeepsRules(Watch(m, Accepted), newcomer, clients[0]);
      DaemonKeepsRulesFrom(WatchFrom(Watch(m, Accepted), log), next, clients[1..]);
    }
  }

  /** Whatever its clients say and however its writes and starts fare, the daemon breaks no rule, and exits with no tunnel. */
  lemma DaemonKeepsRules(clients: seq<seq<Turn>>)
    ensures WatchAll(DaemonLog(START, clients)).ok && WatchAll(DaemonLog(START, clients)).held.None?
  {
    DaemonKeepsRulesFrom(FRESH, START, clients);
  }

  // ----- Everything said is heard, and answered -----

  /** The inputs of a log and the turns of its loop, without the work between. */
  datatype Mark = Arrived | Heard(line: Line) | Tock(engineStopped: bool) | Head | Left | Quit

  function MarkOf(e: Entry): seq<Mark> {
    match e
    case Accepted => [Arrived]
    case Received(line) => [Heard(line)]
    case Ticked(engineStopped) => [Tock(engineStopped)]
    case LoopHead(_) => [Head]
    case HungUp => [Left]
    case Exiting => [Quit]
    case _ => []
  }

  function Marks(log: seq<Entry>): seq<Mark> {
    if log == [] then [] else MarkOf(log[0]) + Marks(log[1..])
  }

  lemma MarksOfFirst(head: Entry, rest: seq<Entry>)
    ensures Marks([head] + rest) == MarkOf(head) + Marks(rest)
  {
    hide MarkOf;
    assert ([head] + rest)[1..] == rest;
  }

  lemma {:induction false} MarksConcat(a: seq<Entry>, b: seq<Entry>)
    ensures Marks(a + b) == Marks(a) + Marks(b)
  {
    hide MarkOf;
    if a == [] {
      assert a + b == b;
    } else {
      var head, rest := a[0], a[1..];
      MarksConcat(rest, b);
      MarksOfFirst(head, rest);
      MarksOfFirst(head, rest + b);
      assert a == [head] + rest && a + b == [head] + (rest + b);
      ConcatAssociates(MarkOf(head), Marks(rest), Marks(b));
    }
  }

  lemma MarksThree(head: Entry, turn: seq<Entry>, rest: seq<Entry>)
    ensures Marks([head] + (turn + rest)) == MarkOf(head) + (Marks(turn) + Marks(rest))
  {
    MarksConcat([head], turn + rest);
    MarksConcat(turn, rest);
    assert Marks([head]) == MarkOf(head) + Marks([]);
  }

  predicate IsWork(e: Entry) {
    e.Sent? || e.Started? || e.Ended?
  }

  predicate AllWork(log: seq<Entry>) {
    forall e :: e in log ==> IsWork(e)
  }

  lemma {:induction false} WorkHasNoMarks(log: seq<Entry>)
    requires AllWork(log)
    ensures Marks(log) == []
  {
    if log != [] {
      assert IsWork(log[0]) && MarkOf(log[0]) == [];
      WorkHasNoMarks(log[1..]);
    }
  }

  function InputOf(t: Turn): Entry {
    match t
    case Input(line, _, _) => Received(line)
    case Tick(engineStopped, _) => Ticked(engineStopped)
  }

  lemma TurnIsInputAndWork(v: Standing, t: Turn)
    ensures |TurnLog(v, t)| >= 1 && TurnLog(v, t)[0] == InputOf(t) && AllWork(TurnLog(v, t)[1..])
  {
  }

  lemma TurnMarks(v: Standing, t: Turn)
    ensures Marks(TurnLog(v, t)) == MarkOf(InputOf(t))
  {
    var log := TurnLog(v, t);
    TurnIsInputAndWork(v, t);
    WorkHasNoMarks(log[1..]);
  }

  /** A client every turn of which is served, up to the `n`-th: each input, and then the head of the loop. */
  function ClientMarks(turns: seq<Turn>, n: nat): seq<Mark>
    requires n <= |turns|
  {
    [Head] +
    if turns == [] then [Left]
    else MarkOf(InputOf(turns[0])) + if n == 0 then [Left] else ClientMarks(turns[1..], n - 1)
  }

  /** How many turns of a client are served to the end. */
  function Served(v: Standing, turns: seq<Turn>): (n: nat)
    ensures n <= |turns|
    decreases |turns|
  {
    if turns == [] || !Survives(v, turns[0]) then 0 else 1 + Served(AfterTurn(v, turns[0]), turns[1..])
  }

  /** The marks of what follows a first turn. */
  function RestOfMarks(v: Standing, turns: seq<Turn>): seq<Mark>
    requires turns != []
  {
    if Survives(v, turns[0]) then
      var next := AfterTurn(v, turns[0]);
      ClientMarks(turns[1..], Served(next, turns[1..]))
    else [Left]
  }

  lemma ClientMarksStep(v: Standing, turns: seq<Turn>)
    requires turns != []
    ensures ClientMarks(turns, Served(v, turns)) == [Head] + (MarkOf(InputOf(turns[0])) + RestOfMarks(v, turns))
  {
    hide AfterTurn, Survives, InputOf, MarkOf;
  }

  lemma NoTurnIsHeard(v: Standing)
    ensures Marks(ClientLog(v, [])) == ClientMarks([], 0) && Served(v, []) == 0
  {
    assert ClientLog(v, []) == [LoopHead(v.tunnel.Some?)] + ([HungUp] + []);
    MarksThree(LoopHead(v.tunnel.Some?), [HungUp], []);
  }

  lemma RestIsHeard(v: Standing, turns: seq<Turn>)
    requires turns != []
    requires Survives(v, turns[0]) ==>
               var next := AfterTurn(v, turns[0]);
               Marks(ClientLog(next, turns[1..])) == ClientMarks(turns[1..], Served(next, turns[1..]))
    ensures Marks(RestOfLog(v, turns)) == RestOfMarks(v, turns)
  {
    hide AfterTurn, ClientLog, ClientMarks, Served;
  }

  /** A client is heard turn by turn, up to the last it survives. */
  lemma {:induction false} ClientIsHeard(v: Standing, turns: seq<Turn>)
    ensures Marks(ClientLog(v, turns)) == ClientMarks(turns, Served(v, turns))
    decreases |turns|
  {
    hide *;
    if turns == [] {
      NoTurnIsHeard(v);
    } else {
      if Survives(v, turns[0]) {
        ClientIsHeard(AfterTurn(v, turns[0]), turns[1..]);
      }
      RestIsHeard(v, turns);
      ClientStepIsHeard(v, turns);
    }
  }

  /** A client is dropped early only where there was no room for two lines. */
  lemma {:induction false} OnlyWritesCutAClientShort(v: Standing, turns: seq<Turn>)
    ensures Served(v, turns) < |turns| ==> turns[Served(v, turns)].room < 2
    decreases |turns|
  {
    hide AfterTurn, Survives;
    if turns != [] {
      TwoLinesAreEnough(v, turns[0]);
      if Survives(v, turns[0]) {
        OnlyWritesCutAClientShort(AfterTurn(v, turns[0]), turns[1..]);
      }
    }
  }

  lemma ClientStepIsHeard(v: Standing, turns: seq<Turn>)
    requires turns != []
    requires Marks(RestOfLog(v, turns)) == RestOfMarks(v, turns)
    ensures Marks(ClientLog(v, turns)) == ClientMarks(turns, Served(v, turns))
  {
    ClientLogStep(v, turns);
    ClientMarksStep(v, turns);
    TurnMarks(v, turns[0]);
    MarksThree(LoopHead(v.tunnel.Some?), TurnLog(v, turns[0]), RestOfLog(v, turns));
    hide *;
  }

  predicate Roomy(turns: seq<Turn>) {
    forall t :: t in turns ==> t.room >= 2
  }

  function DaemonMarks(clients: seq<seq<Turn>>): seq<Mark> {
    if clients == [] then [Quit]
    else [Arrived] + (ClientMarks(clients[0], |clients[0]|) + DaemonMarks(clients[1..]))
  }

  /**
   * When every write succeeds, the inputs the daemon acts on are exactly those it was given, in order,
   * each to the end of its turn.
   */
  lemma {:induction false} EveryoneIsHeardOut(v: Standing, clients: seq<seq<Turn>>)
    requires forall c :: c in clients ==> Roomy(c)
    ensures Marks(DaemonLog(v, clients)) == DaemonMarks(clients)
    decreases |clients|
  {
    if clients == [] {
      if v.tunnel.Some? {
        MarksConcat([Exiting], [Ended(v.tunnel.value)]);
      }
    } else {
      var next := AfterClient(v.(greeted := false), clients[0]);
      assert Roomy(clients[0]);
      FirstClientIsHeardOut(v, clients);
      hide *;
      EveryoneIsHeardOut(next, clients[1..]);
    }
  }

  lemma RoomyClientIsServedOut(v: Standing, turns: seq<Turn>)
    requires Roomy(turns)
    ensures Served(v, turns) == |turns|
  {
    hide Served;
    OnlyWritesCutAClientShort(v, turns);
    assert forall n :: 0 <= n < |turns| ==> turns[n] in turns;
  }

  lemma DaemonMarksStep(clients: seq<seq<Turn>>)
    requires clients != []
    ensures DaemonMarks(clients) == [Arrived] + (ClientMarks(clients[0], |clients[0]|) + DaemonMarks(clients[1..]))
  {
    hide ClientMarks;
  }

  lemma FirstClientIsHeardOut(v: Standing, clients: seq<seq<Turn>>)
    requires clients != [] && Roomy(clients[0])
    ensures var rest := DaemonLog(AfterClient(v.(greeted := false), clients[0]), clients[1..]);
            Marks(rest) == DaemonMarks(clients[1..]) ==> Marks(DaemonLog(v, clients)) == DaemonMarks(clients)
  {
    var newcomer := v.(greeted := false);
    assert MarkOf(Accepted) == [Arrived];
    hide *;
    DaemonLogStep(v, clients);
    DaemonMarksStep(clients);
    MarksThree(Accepted, ClientLog(newcomer, clients[0]), DaemonLog(AfterClient(newcomer, clients[0]), clients[1..]));
    ClientIsHeard(newcomer, clients[0]);
    RoomyClientIsServedOut(newcomer, clients[0]);
  }

  predicate IsInput(e: Entry) {
    e.Accepted? || e.Received? || e.Ticked? || e.HungUp? || e.Exiting?
  }

  predicate NoInput(seg: seq<Entry>) {
    forall e :: e in seg ==> !IsInput(e)
  }

  /** The line at `i` has a turn of the loop to itself. */
  ghost predicate HasItsTurn(log: seq<Entry>, i: nat) {
    exists j :: i < j < |log| && log[j].LoopHead? && NoInput(log[i + 1..j])
  }

  lemma HasItsTurnWithin(a: seq<Entry>, b: seq<Entry>, c: seq<Entry>, i: nat)
    requires HasItsTurn(b, i)
    ensures HasItsTurn(a + b + c, |a| + i)
  {
    var j :| i < j < |b| && b[j].LoopHead? && NoInput(b[i + 1..j]);
    var log := a + b + c;
    assert log[|a| + j] == b[j];
    assert log[|a| + i + 1..|a| + j] == b[i + 1..j];
  }

  /** A turn's one line is its first entry, and the next head of the loop is the first thing after its work. */
  lemma TurnLineHasItsTurn(head: Entry, log: seq<Entry>, rest: seq<Entry>, i: nat)
    requires head.LoopHead? && log != [] && AllWork(log[1..]) && rest != [] && rest[0].LoopHead?
    requires i < 1 + |log| && ([head] + log + rest)[i].Received?
    ensures HasItsTurn([head] + log + rest, i)
  {
    var all, n := [head] + log + rest, 1 + |log|;
    assert forall k :: 1 < k < n ==> all[k] == log[1..][k - 2] && all[k] in log[1..];
    assert i == 1;
    assert all[n] == rest[0];
    assert all[2..n] == log[1..];
  }

  lemma HasItsTurnAfter(a: seq<Entry>, b: seq<Entry>, i: nat)
    requires HasItsTurn(b, i)
    ensures HasItsTurn(a + b, |a| + i)
  {
    HasItsTurnWithin(a, b, [], i);
    assert a + b + [] == a + b;
  }

  lemma EmptyClientLog(v: Standing)
    ensures ClientLog(v, []) == [LoopHead(v.tunnel.Some?), HungUp]
  {
  }

  /** With room in every turn, a client's log goes from one head of the loop to the next. */
  lemma RoomyClientLog(v: Standing, turns: seq<Turn>)
    requires turns != [] && Roomy(turns)
    ensures var rest := ClientLog(AfterTurn(v, turns[0]), turns[1..]);
            && ClientLog(v, turns) == [LoopHead(v.tunnel.Some?)] + TurnLog(v, turns[0]) + rest
            && Roomy(turns[1..]) && rest != [] && rest[0].LoopHead?
  {
    TwoLinesAreEnough(v, turns[0]);
    ClientLogStep(v, turns);
    hide TurnLog, AfterTurn, Survives;
    ConcatAssociates([LoopHead(v.tunnel.Some?)], TurnLog(v, turns[0]), RestOfLog(v, turns));
  }

  lemma {:induction false} ClientLineHasItsTurn(v: Standing, turns: seq<Turn>, i: nat)
    requires Roomy(turns)
    requires i < |ClientLog(v, turns)| && ClientLog(v, turns)[i].Received?
    ensures HasItsTurn(ClientLog(v, turns), i)
    decreases |turns|
  {
    hide *;
    if turns == [] {
      EmptyClientLog(v);
    } else {
      var next, n := AfterTurn(v, turns[0]), 1 + |TurnLog(v, turns[0])|;
      RoomyClientLog(v, turns);
      TurnIsInputAndWork(v, turns[0]);
      if i < n {
        TurnLineHasItsTurn(LoopHead(v.tunnel.Some?), TurnLog(v, turns[0]), ClientLog(next, turns[1..]), i);
      } else {
        LaterEntry([LoopHead(v.tunnel.Some?)] + TurnLog(v, turns[0]), ClientLog(next, turns[1..]), i);
        ClientLineHasItsTurn(next, turns[1..], i - n);
        HasItsTurnAfter([LoopHead(v.tunnel.Some?)] + TurnLog(v, turns[0]), ClientLog(next, turns[1..]), i - n);
      }
    }
  }

  lemma LaterEntry(a: seq<Entry>, b: seq<Entry>, i: nat)
    requires |a| <= i < |a + b|
    ensures (a + b)[i] == b[i - |a|]
  {
  }

  lemma {:induction false} LineHasItsTurn(v: Standing, clients: seq<seq<Turn>>, i: nat)
    requires forall c :: c in clients ==> Roomy(c)
    requires i < |DaemonLog(v, clients)| && DaemonLog(v, clients)[i].Received?
    ensures HasItsTurn(DaemonLog(v, clients), i)
    decreases |clients|
  {
    if clients != [] {
      var newcomer := v.(greeted := false);
      var log, next := ClientLog(newcomer, clients[0]), AfterClient(newcomer, clients[0]);
      var rest := DaemonLog(next, clients[1..]);
      var all := DaemonLog(v, clients);
      assert all == [Accepted] + log + rest;
      assert Roomy(clients[0]);
      hide ClientLog, AfterClient, Roomy;
      var n := 1 + |log|;
      if i < n {
        assert all[i] == log[i - 1];
        ClientLineHasItsTurn(newcomer, clients[0], i - 1);
        HasItsTurnWithin([Accepted], log, rest, i - 1);
      } else {
        LineHasItsTurn(next, clients[1..], i - n);
        HasItsTurnAfter([Accepted] + log, rest, i - n);
      }
    }
  }

  /**
   * When every write succeeds, every line any client sends is answered exactly once before the daemon
   * takes another input, under the line's own id.
   */
  lemma EveryLineIsAnswered(clients: seq<seq<Turn>>, i: nat)
    requires forall c :: c in clients ==> Roomy(c)
    requires i < |DaemonLog(START, clients)| && DaemonLog(START, clients)[i].Received?
    ensures var log := DaemonLog(START, clients);
            exists j :: i < j < |log| && log[j].LoopHead? && NoInput(log[i + 1..j])
                        && Responses(log[i + 1..j]) == 1 && Carry(log[i + 1..j], IdOf(log[i].line))
  {
    hide DaemonLog, WatchAll;
    var log := DaemonLog(START, clients);
    DaemonKeepsRules(clients);
    LineHasItsTurn(START, clients, i);
    var j :| i < j < |log| && log[j].LoopHead? && NoInput(log[i + 1..j]);
    AnsweredExactlyOnce(log, i, j);
  }

  // ----- What a log that breaks no rule is like -----

  lemma {:induction false} PrefixesAreOk(log: seq<Entry>, k: nat)
    requires WatchAll(log).ok && k <= |log|
    ensures WatchAll(log[..k]).ok
  {
    if k == |log| {
      assert log[..k] == log;
    } else {
      var front := log[..|log| - 1];
      assert front[..k] == log[..k];
      OkBefore(WatchAll(front), log[|log| - 1]);
      PrefixesAreOk(front, k);
    }
  }

  lemma RuleAt(log: seq<Entry>, k: nat)
    requires WatchAll(log).ok && k < |log|
    ensures WatchAll(log[..k]).ok && Watch(WatchAll(log[..k]), log[k]).ok
    ensures WatchAll(log[..k + 1]) == Watch(WatchAll(log[..k]), log[k])
  {
    PrefixesAreOk(log, k);
    PrefixesAreOk(log, k + 1);
    assert log[..k + 1] == log[..k] + [log[k]];
    WatchAppend(log[..k], log[k]);
  }

  predicate NoneStarted(seg: seq<Entry>) {
    forall e :: e in seg ==> !e.Started?
  }

  predicate NoneEnded(seg: seq<Entry>) {
    forall e :: e in seg ==> !e.Ended?
  }

  /** Since a start with no end after it, the tunnel is held. */
  lemma {:induction false} HeldUntilEnded(log: seq<Entry>, i: nat)
    requires WatchAll(log).ok && i < |log| && log[i].Started?
    requires NoneEnded(log[i + 1..])
    ensures WatchAll(log).held == Some(log[i].tunnel) && NoneStarted(log[i + 1..])
  {
    var n := |log| - 1;
    var front, last := log[..n], log[n];
    assert log == front + [last];
    WatchAppend(front, last);
    OkBefore(WatchAll(front), last);
    if i < n {
      assert log[i + 1..] == front[i + 1..] + [last];
      hide WatchAll;
      HeldUntilEnded(front, i);
    }
  }

  /** The start at `i` is of tunnel `t`, which has not ended since. */
  predicate LiveSince(log: seq<Entry>, i: nat, t: nat) {
    i < |log| && log[i].Started? && log[i].tunnel == t && NoneEnded(log[i + 1..])
  }

  lemma LiveOn(log: seq<Entry>, i: nat, t: nat, e: Entry)
    requires LiveSince(log, i, t) && !e.Ended?
    ensures LiveSince(log + [e], i, t)
  {
    assert (log + [e])[i] == log[i] && (log + [e])[i + 1..] == log[i + 1..] + [e];
  }

  lemma StartedIsLive(log: seq<Entry>, e: Entry)
    requires e.Started?
    ensures LiveSince(log + [e], |log|, e.tunnel)
  {
    assert (log + [e])[|log| + 1..] == [];
  }

  lemma HeldAfter(m: Monitor, e: Entry)
    ensures Watch(m, e).held == if e.Started? then Some(e.tunnel) else if e.Ended? then None else m.held
  {
  }

  /** What is held was started, and has not ended since. */
  lemma {:induction false} HeldWasStarted(log: seq<Entry>)
    ensures WatchAll(log).held.Some? ==> exists i: nat :: LiveSince(log, i, WatchAll(log).held.value)
  {
    if log != [] {
      var n := |log| - 1;
      var front, last := log[..n], log[n];
      assert log == front + [last];
      WatchAppend(front, last);
      HeldAfter(WatchAll(front), last);
      hide WatchAll, Watch, NoneEnded;
      HeldWasStarted(front);
      if last.Started? {
        StartedIsLive(front, last);
      } else if WatchAll(log).held.Some? {
        var t := WatchAll(front).held.value;
        var i: nat :| LiveSince(front, i, t);
        LiveOn(front, i, t, last);
      }
    }
  }

  /** One tunnel at a time: between two starts, the first of them ends. */
  lemma SingleTunnel(log: seq<Entry>, i: nat, j: nat)
    requires WatchAll(log).ok && i < j < |log|
    requires log[i].Started? && log[j].Started?
    ensures exists e :: e in log[i + 1..j] && e.Ended?
    ensures NoneStarted(log[i + 1..j]) ==> Ended(log[i].tunnel) in log[i + 1..j]
  {
    RuleAt(log, j);
    var before := log[..j];
    assert before[i] == log[i] && before[i + 1..] == log[i + 1..j];
    hide WatchAll;
    if NoneEnded(log[i + 1..j]) {
      HeldUntilEnded(before, i);
    }
    if NoneStarted(log[i + 1..j]) {
      FirstEndIsItsOwn(before, i);
    }
  }

  /** The first tunnel to end after a start is the one started. */
  lemma {:induction false} FirstEndIsItsOwn(log: seq<Entry>, i: nat)
    requires WatchAll(log).ok && i < |log| && log[i].Started?
    requires NoneStarted(log[i + 1..])
    ensures NoneEnded(log[i + 1..]) || Ended(log[i].tunnel) in log[i + 1..]
  {
    var n := |log| - 1;
    if i < n {
      var front, last := log[..n], log[n];
      assert log == front + [last];
      WatchAppend(front, last);
      OkBefore(WatchAll(front), last);
      assert log[i + 1..] == front[i + 1..] + [last];
      hide WatchAll;
      FirstEndIsItsOwn(front, i);
      if last.Ended? && NoneEnded(front[i + 1..]) {
        HeldUntilEnded(front, i);
      }
    }
  }

  /** Only what was started ends, and ends once: a start of it comes before, with no end between. */
  lemma OnlyTheLiveTunnelEnds(log: seq<Entry>, k: nat)
    requires WatchAll(log).ok && k < |log| && log[k].Ended?
    ensures exists i :: 0 <= i < k && log[i].Started? && log[i].tunnel == log[k].tunnel && NoneEnded(log[i + 1..k])
  {
    RuleAt(log, k);
    var before := log[..k];
    hide WatchAll;
    HeldWasStarted(before);
    var i: nat :| LiveSince(before, i, WatchAll(before).held.value);
    assert before[i] == log[i] && before[i + 1..] == log[i + 1..k];
  }

  /** At every loop head the session believes itself connected exactly when some tunnel has started and not ended. */
  lemma SessionMirrorsTheTunnel(log: seq<Entry>, k: nat)
    requires WatchAll(log).ok && k < |log| && log[k].LoopHead?
    ensures log[k].connected <==> exists i :: 0 <= i < k && log[i].Started? && NoneEnded(log[i + 1..k])
  {
    RuleAt(log, k);
    var before := log[..k];
    hide WatchAll;
    HeldWasStarted(before);
    if WatchAll(before).held.Some? {
      var i: nat :| LiveSince(before, i, WatchAll(before).held.value);
      assert before[i] == log[i] && before[i + 1..] == log[i + 1..k];
    }
    if i :| 0 <= i < k && log[i].Started? && NoneEnded(log[i + 1..k]) {
      assert before[i] == log[i] && before[i + 1..] == log[i + 1..k];
      HeldUntilEnded(before, i);
    }
  }

  predicate SaysState(e: Entry) {
    e.Sent? && e.message.State?
  }

  /** Nothing in a stretch changes what the client last heard of the tunnel, or is a new client. */
  predicate NoNews(seg: seq<Entry>) {
    forall e :: e in seg ==> !SaysState(e) && !e.Accepted?
  }

  lemma {:induction false} LastStateIs(log: seq<Entry>, i: nat)
    requires i < |log| && SaysState(log[i])
    requires NoNews(log[i + 1..])
    ensures WatchAll(log).lastState == Some(log[i].message.connected)
  {
    var n := |log| - 1;
    var front, last := log[..n], log[n];
    assert log == front + [last];
    WatchAppend(front, last);
    if i < n {
      assert log[i + 1..] == front[i + 1..] + [last];
      hide WatchAll;
      LastStateIs(front, i);
    }
  }

  /** The newest state event a client has been sent is what the session believes at the next loop head. */
  lemma ClientIsUpToDate(log: seq<Entry>, i: nat, k: nat)
    requires WatchAll(log).ok && i < k < |log| && log[k].LoopHead?
    requires SaysState(log[i]) && NoNews(log[i + 1..k])
    ensures log[i].message.connected == log[k].connected
  {
    RuleAt(log, k);
    var before := log[..k];
    assert before[i] == log[i] && before[i + 1..] == log[i + 1..k];
    hide WatchAll;
    LastStateIs(before, i);
  }

  /** A client that has sent no matching hello since it connected. */
  predicate NotYetGreeted(seg: seq<Entry>) {
    forall e :: e in seg && e.Received? ==> !IsHello(e.line)
  }

  lemma {:induction false} NotGreetedBeforeHello(log: seq<Entry>, i: nat)
    requires i < |log| && log[i].Accepted?
    requires NotYetGreeted(log[i + 1..])
    ensures !WatchAll(log).greeted
    ensures WatchAll(log).owed.Some? ==> !IsHello(WatchAll(log).owed.value)
  {
    var n := |log| - 1;
    var front, last := log[..n], log[n];
    assert log == front + [last];
    WatchAppend(front, last);
    if i < n {
      assert log[i + 1..] == front[i + 1..] + [last];
      hide WatchAll;
      NotGreetedBeforeHello(front, i);
    }
  }

  /** Until a client says a matching hello, nothing starts for it, and it is sent errors and nothing else. */
  lemma NothingBeforeHello(log: seq<Entry>, i: nat, k: nat)
    requires WatchAll(log).ok && i < k < |log| && log[i].Accepted?
    requires NotYetGreeted(log[i + 1..k])
    ensures !log[k].Started?
    ensures log[k].Sent? ==> log[k].message.Error?
  {
    RuleAt(log, k);
    var before := log[..k];
    assert before[i] == log[i] && before[i + 1..] == log[i + 1..k];
    hide WatchAll;
    NotGreetedBeforeHello(before, i);
  }

  predicate NoneReceived(seg: seq<Entry>) {
    forall e :: e in seg ==> !e.Received?
  }

  /** `line` was received at `i`, and no line since. */
  predicate LatestLine(log: seq<Entry>, i: nat, line: Line) {
    i < |log| && log[i] == Received(line) && NoneReceived(log[i + 1..])
  }

  lemma LatestOn(log: seq<Entry>, i: nat, line: Line, e: Entry)
    requires LatestLine(log, i, line) && !e.Received?
    ensures LatestLine(log + [e], i, line)
  {
    assert (log + [e])[i] == log[i] && (log + [e])[i + 1..] == log[i + 1..] + [e];
  }

  lemma ReceivedIsLatest(log: seq<Entry>, line: Line)
    ensures LatestLine(log + [Received(line)], |log|, line)
  {
    assert (log + [Received(line)])[|log| + 1..] == [];
  }

  lemma OwedAfter(m: Monitor, e: Entry)
    ensures Watch(m, e).owed.Some? ==> Watch(m, e).owed == if e.Received? then Some(e.line) else m.owed
  {
  }

  /** A line is owed only after it was received, with no other line since. */
  lemma {:induction false} OwedWasReceived(log: seq<Entry>)
    ensures WatchAll(log).owed.Some? ==> exists i: nat :: LatestLine(log, i, WatchAll(log).owed.value)
  {
    if log != [] {
      var n := |log| - 1;
      var front, last := log[..n], log[n];
      assert log == front + [last];
      WatchAppend(front, last);
      OwedAfter(WatchAll(front), last);
      hide WatchAll, Watch, NoneReceived;
      OwedWasReceived(front);
      if last.Received? {
        ReceivedIsLatest(front, last.line);
      } else if WatchAll(log).owed.Some? {
        var line := WatchAll(front).owed.value;
        var i: nat :| LatestLine(front, i, line);
        LatestOn(front, i, line, last);
      }
    }
  }

  /** Every start answers a connect that passed the gate, with the very profile, mode and secrets it passed with. */
  lemma StartedPassedTheGate(log: seq<Entry>, k: nat)
    requires WatchAll(log).ok && k < |log| && log[k].Started?
    ensures exists i :: 0 <= i < k && log[i].Received? && PassesGate(log[i].line)
                        && Gate(log[i].line.request.params).value == log[k].authorized
                        && NoneReceived(log[i + 1..k])
  {
    RuleAt(log, k);
    var before := log[..k];
    hide WatchAll;
    OwedWasReceived(before);
    var i: nat :| LatestLine(before, i, WatchAll(before).owed.value);
    assert before[i] == log[i] && before[i + 1..] == log[i + 1..k];
  }

  /** The newest input in a log: what the daemon is acting on. */
  function NewestInput(log: seq<Entry>): Option<Entry> {
    if log == [] then None
    else if IsInput(log[|log| - 1]) then Some(log[|log| - 1])
    else NewestInput(log[..|log| - 1])
  }

  lemma {:induction false} MayEndComesFromInput(log: seq<Entry>)
    ensures WatchAll(log).mayEnd ==>
              && NewestInput(log).Some?
              && (NewestInput(log).value.Received? ==> IsDisconnect(NewestInput(log).value.line))
              && (NewestInput(log).value.Ticked? ==> NewestInput(log).value.engineStopped)
              && !NewestInput(log).value.HungUp? && !NewestInput(log).value.Accepted?
  {
    if log != [] {
      MayEndComesFromInput(log[..|log| - 1]);
    }
  }

  /** A tunnel ends only on a disconnect request, a tick that finds its engine dead, or the daemon's exit. */
  lemma TunnelEndsOnlyWhenAsked(log: seq<Entry>, k: nat)
    requires WatchAll(log).ok && k < |log| && log[k].Ended?
    ensures NewestInput(log[..k]).Some?
    ensures match NewestInput(log[..k]).value {
              case Received(line) => IsDisconnect(line)
              case Ticked(engineStopped) => engineStopped
              case Exiting => true
              case _ => false
            }
  {
    RuleAt(log, k);
    MayEndComesFromInput(log[..k]);
    NewestInputIsInput(log[..k]);
  }

  lemma {:induction false} NewestInputIsInput(log: seq<Entry>)
    ensures NewestInput(log).Some? ==> IsInput(NewestInput(log).value)
  {
    if log != [] && !IsInput(log[|log| - 1]) {
      NewestInputIsInput(log[..|log| - 1]);
    }
  }

  /** How many responses a stretch of the log holds. */
  function Responses(log: seq<Entry>): nat {
    if log == [] then 0
    else Responses(log[..|log| - 1]) + (if log[|log| - 1].Sent? && IsResponse(log[|log| - 1].message) then 1 else 0)
  }

  lemma ResponsesAppend(log: seq<Entry>, e: Entry)
    ensures Responses(log + [e]) == Responses(log) + (if e.Sent? && IsResponse(e.message) then 1 else 0)
  {
    assert (log + [e])[..|log|] == log;
  }

  predicate Carry(seg: seq<Entry>, id: nat) {
    forall e :: e in seg && e.Sent? && IsResponse(e.message) ==> e.message.id == id
  }

  /**
   * Between a line and the next turn of the loop, the client is sent exactly one response, and it
   * carries the line's id.
   */
  lemma AnsweredExactlyOnce(log: seq<Entry>, i: nat, j: nat)
    requires WatchAll(log).ok
    requires i < j < |log| && log[i].Received? && log[j].LoopHead?
    requires NoInput(log[i + 1..j])
    ensures Responses(log[i + 1..j]) == 1
    ensures Carry(log[i + 1..j], IdOf(log[i].line))
  {
    hide WatchAll, Carry;
    RuleAt(log, j);
    assert log[..j] == log[..i] + [log[i]] + log[i + 1..j];
    OwedUntilAnswered(log[..i], log[i].line, log[i + 1..j]);
  }

  /** Where the monitor stands after a line and what the daemon has done about it so far. */
  ghost predicate OwedOrAnswered(m: Monitor, line: Line, seg: seq<Entry>) {
    && Responses(seg) <= 1 && Carry(seg, IdOf(line))
    && m.owed == if Responses(seg) == 0 then Some(line) else None
  }

  lemma {:induction false} OwedUntilAnswered(before: seq<Entry>, line: Line, seg: seq<Entry>)
    requires WatchAll(before + [Received(line)] + seg).ok
    requires NoInput(seg)
    ensures OwedOrAnswered(WatchAll(before + [Received(line)] + seg), line, seg)
    decreases |seg|
  {
    if seg == [] {
      WatchAppend(before, Received(line));
      assert before + [Received(line)] + seg == before + [Received(line)];
    } else {
      var n := |seg| - 1;
      var front, last := before + [Received(line)] + seg[..n], seg[n];
      assert before + [Received(line)] + seg == front + [last];
      assert seg == seg[..n] + [last];
      WatchAppend(front, last);
      OkBefore(WatchAll(front), last);
      assert NoInput(seg[..n]) && !IsInput(last);
      hide WatchAll, Watch, OwedOrAnswered, NoInput, IsInput;
      OwedUntilAnswered(before, line, seg[..n]);
      OwedAppend(WatchAll(front), line, seg[..n], last);
    }
  }

  lemma OkBefore(m: Monitor, e: Entry)
    requires Watch(m, e).ok
    ensures m.ok
  {
  }

  lemma OwedAppend(m: Monitor, line: Line, seg: seq<Entry>, last: Entry)
    requires OwedOrAnswered(m, line, seg)
    requires Watch(m, last).ok && !IsInput(last)
    ensures OwedOrAnswered(Watch(m, last), line, seg + [last])
  {
    OwedStep(m, last, line, Responses(seg));
    hide Watch;
    ResponsesAppend(seg, last);
  }

  lemma OwedStep(m: Monitor, e: Entry, line: Line, n: nat)
    requires n <= 1 && m.owed == if n == 0 then Some(line) else None
    requires Watch(m, e).ok && !IsInput(e)
    ensures var n' := n + (if e.Sent? && IsResponse(e.message) then 1 else 0);
            n' <= 1 && Watch(m, e).owed == if n' == 0 then Some(line) else None
    ensures e.Sent? && IsResponse(e.message) ==> e.message.id == IdOf(line)
  {
  }

  /** A connect is acked only after its tunnel has started. */
  lemma ConnectAckedOnlyWhenStarted(log: seq<Entry>, i: nat, k: nat)
    requires WatchAll(log).ok
    requires i < k < |log| && log[i].Received? && IsConnect(log[i].line)
    requires NoInput(log[i + 1..k])
    requires log[k].Sent? && log[k].message.Ack?
    ensures exists e :: e in log[i + 1..k] && e.Started?
  {
    hide WatchAll;
    RuleAt(log, k);
    assert log[..k] == log[..i] + [log[i]] + log[i + 1..k];
    OwedUntilAnswered(log[..i], log[i].line, log[i + 1..k]);
    StartedHereIsRecent(log[..i], log[i].line, log[i + 1..k]);
  }

  lemma {:induction false} StartedHereIsRecent(before: seq<Entry>, line: Line, seg: seq<Entry>)
    requires NoInput(seg)
    ensures WatchAll(before + [Received(line)] + seg).startedHere ==> exists e :: e in seg && e.Started?
    decreases |seg|
  {
    if seg == [] {
      WatchAppend(before, Received(line));
      assert before + [Received(line)] + seg == before + [Received(line)];
    } else {
      var n := |seg| - 1;
      var front, last := before + [Received(line)] + seg[..n], seg[n];
      assert before + [Received(line)] + seg == front + [last] && seg == seg[..n] + [last];
      WatchAppend(front, last);
      hide WatchAll;
      StartedHereIsRecent(before, line, seg[..n]);
      assert last in seg;
    }
  }
}
