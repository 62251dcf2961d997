/** The straight-line handler of `Routing` and the connection machine of `ProxySystem` are the same
    proxy: whatever `HandleClient` leaves on its two streams is a state the machine can reach, so what
    holds in every reachable state holds of the handler. */
module HandlerRun {
  import opened Bytes
  import opened Domains
  import opened Opening
  import opened ProxySystem
  import opened Routing
  import Socks
  import Http

  /** Client and destination have written all they ever will, and closed. */
  predicate Loaded(s: Sys, clientIn: seq<byte>, destIn: seq<byte>) {
    s.clientOut == clientIn && s.clientEof && s.destOut == destIn && s.destEof
  }

  ghost predicate JustLoaded(s: Sys, clientIn: seq<byte>, destIn: seq<byte>) {
    && Loaded(s, clientIn, destIn) && s.phase == Peeking && s.taken == 0 && s.destTaken == 0
    && s.toClient == [] && s.toDest == []
  }

  lemma Load(cfg: Config, clientIn: seq<byte>, destIn: seq<byte>) returns (moves: seq<Move>)
    ensures JustLoaded(Run(cfg, moves), clientIn, destIn)
  {
    hide Run;
    Nobody(cfg);
    moves := Also(cfg, [], ClientWrites(clientIn));
    moves := Also(cfg, moves, DestWrites(destIn));
    moves := Also(cfg, moves, ClientCloses);
    moves := Also(cfg, moves, DestCloses);
    assert [] + clientIn == clientIn && [] + destIn == destIn;
  }

  /** Where the machine stands once it has read an opening. */
  ghost predicate HasOpened(cfg: Config, s: Sys, clientIn: seq<byte>) {
    && s.toDest == [] && s.destTaken == 0
    && match Open(cfg, clientIn)
       case NeedMore => s.phase == Failed && s.toClient == SaidSoFar(clientIn)
       case Fail(_, reply) => s.phase == Failed && s.toClient == reply
       case Done((e, t), n) => s.phase == Connecting(e, t) && s.taken == n && s.toClient == Preamble(e)
  }

  const ANY: Connect := ConnectError(Socks.IoError(Socks.OtherKind, None))

  lemma GreetingOfNothing()
    ensures Socks.ParseGreeting([]).NeedMore?
  {
  }

  lemma LetterIsNoGreeting(s: seq<byte>)
    requires s != [] && s[0] != Socks.VERSION
    ensures !Socks.ParseGreeting(s).Done?
  {
  }

  lemma {:induction false} OpensSocks(cfg: Config, loaded: seq<Move>, clientIn: seq<byte>, destIn: seq<byte>)
    returns (moves: seq<Move>)
    requires JustLoaded(Run(cfg, loaded), clientIn, destIn) && clientIn != [] && clientIn[0] == Socks.VERSION
    ensures var s := Run(cfg, moves); Loaded(s, clientIn, destIn) && HasOpened(cfg, s, clientIn)
  {
    hide Run, Socks.ParseGreeting, Socks.ParseRequest, ReadHead;
    assert clientIn[0..] == clientIn;
    moves := Also(cfg, loaded, ProxySteps(ANY));
    moves := Also(cfg, moves, ProxySteps(ANY));
    assert [] + Socks.GREETING_OK == Socks.GREETING_OK;
    match Socks.ParseGreeting(clientIn)
    case NeedMore =>
    case Fail(_, reply) => assert [] + reply == reply;
    case Done(_, n) =>
      moves := Also(cfg, moves, ProxySteps(ANY));
      assert Socks.GREETING_OK + [] == Socks.GREETING_OK;
  }

  lemma {:induction false} OpensHttp(cfg: Config, loaded: seq<Move>, clientIn: seq<byte>, destIn: seq<byte>)
    returns (moves: seq<Move>)
    requires JustLoaded(Run(cfg, loaded), clientIn, destIn)
    requires clientIn != [] && clientIn[0] != Socks.VERSION && IsLetter(clientIn[0])
    ensures var s := Run(cfg, moves); Loaded(s, clientIn, destIn) && HasOpened(cfg, s, clientIn)
  {
    hide Run, Socks.ParseGreeting, ReadHead;
    assert clientIn[0..] == clientIn;
    LetterIsNoGreeting(clientIn);
    moves := Also(cfg, loaded, ProxySteps(ANY));
    moves := Also(cfg, moves, ProxySteps(ANY));
    match ReadHead(cfg, clientIn)
    case Fail(_, reply) => assert [] + reply == reply;
    case _ =>
  }

  lemma {:induction false} Opens(cfg: Config, clientIn: seq<byte>, destIn: seq<byte>) returns (moves: seq<Move>)
    ensures var s := Run(cfg, moves); Loaded(s, clientIn, destIn) && HasOpened(cfg, s, clientIn)
  {
    hide Run, Socks.ParseGreeting, Socks.ParseRequest, ReadHead;
    moves := Load(cfg, clientIn, destIn);
    assert clientIn[0..] == clientIn;
    if clientIn == [] {
      GreetingOfNothing();
      moves := Also(cfg, moves, ProxySteps(ANY));
    } else if clientIn[0] == Socks.VERSION {
      moves := OpensSocks(cfg, moves, clientIn, destIn);
    } else if IsLetter(clientIn[0]) {
      moves := OpensHttp(cfg, moves, clientIn, destIn);
    } else {
      moves := Also(cfg, moves, ProxySteps(ANY));
    }
  }

  /** The machine has read the opening of a client that asks for `t` and goes on to connect. */
  ghost predicate AtConnect(cfg: Config, s: Sys, clientIn: seq<byte>, destIn: seq<byte>, e: Entry, t: Target, n: nat) {
    && Loaded(s, clientIn, destIn) && s.phase == Connecting(e, t) && s.taken == n && s.toClient == Preamble(e)
    && s.toDest == [] && s.destTaken == 0
  }

  lemma UpstreamIsNamed(cfg: Config, t: Target)
    ensures Routed(cfg, t) == Upstream ==> t.Domain?
  {
  }

  /** An upstream that does not accept has given no whole reply, a malformed one, or a non-zero REP. */
  lemma NotAccepted(destIn: seq<byte>)
    requires |destIn| >= 2 && destIn[..2] == Socks.GREETING_OK && forall n :: !UpstreamAccepts(destIn, n)
    ensures var o := Socks.ParseReply(destIn[2..]); o.Done? ==> o.value[1] != Socks.REP_SUCCESS
  {
    var o := Socks.ParseReply(destIn[2..]);
    if o.Done? {
      assert !UpstreamAccepts(destIn, 2 + o.used);
      assert destIn[2..2 + o.used] == destIn[2..][..o.used];
    }
  }

  lemma {:induction false} Rejects(cfg: Config, before: seq<Move>, clientIn: seq<byte>, destIn: seq<byte>,
                                   e: Entry, t: Target, n: nat, c: Connect)
    returns (moves: seq<Move>)
    requires AtConnect(cfg, Run(cfg, before), clientIn, destIn, e, t, n) && !Connects(cfg, t, c, destIn)
    ensures var s := Run(cfg, moves);
            && Loaded(s, clientIn, destIn) && s.phase == Failed
            && s.toClient == Preamble(e) + Refusal(e, FailureRep(cfg, t, c)) && s.toDest == Asked(cfg, t, c, destIn)
  {
    hide Run, Socks.ParseReply, Routed, Open;
    assert destIn[0..] == destIn;
    UpstreamIsNamed(cfg, t);
    moves := Also(cfg, before, ProxySteps(c));
    if c.Connected? {
      assert [] + Socks.GREETING == Socks.GREETING;
      moves := Also(cfg, moves, ProxySteps(c));
      if |destIn| >= 2 && destIn[..2] == Socks.GREETING_OK && |t.name| <= 255 {
        NotAccepted(destIn);
        moves := Also(cfg, moves, ProxySteps(c));
      }
    }
  }

  ghost function BindOf(reply: seq<byte>): (bind: Socks.SocketAddr)
    requires IsBoundReply(reply)
    ensures reply == Socks.BoundReply(Socks.REP_SUCCESS, bind)
  {
    var bind :| reply == Socks.BoundReply(Socks.REP_SUCCESS, bind); bind
  }

  /** The machine relays for `t` behind a success announced with `reply`. */
  ghost predicate AtRelay(cfg: Config, s: Sys, clientIn: seq<byte>, destIn: seq<byte>,
                          e: Entry, t: Target, n: nat, start: nat, reply: seq<byte>)
  {
    && Loaded(s, clientIn, destIn) && s.phase == Relaying(e, t, n, start, reply, Flowing)
    && s.taken == n && s.destTaken == start
    && s.toClient == Preamble(e) + reply && s.toDest == OwnHandshake(cfg, t)
  }

  lemma {:induction false} AcceptsDirect(cfg: Config, before: seq<Move>, clientIn: seq<byte>, destIn: seq<byte>,
                                         e: Entry, t: Target, n: nat, start: nat, reply: seq<byte>)
    returns (moves: seq<Move>)
    requires AtConnect(cfg, Run(cfg, before), clientIn, destIn, e, t, n)
    requires Routed(cfg, t) == Direct && Announced(cfg, destIn, e, t, start, reply)
    ensures AtRelay(cfg, Run(cfg, moves), clientIn, destIn, e, t, n, start, reply)
  {
    hide Run, Routed, IsBoundReply, Peek, ReadGreeting, ReadRequest, ReadHttp, ConnectUpstream, ReadMethod, ReadReply;
    var bind := if e == Socks5 then BindOf(reply) else Socks.SockV4([0, 0, 0, 0], 0);
    moves := Also(cfg, before, ProxySteps(Connected(bind)));
  }

  lemma {:induction false} AcceptsUpstream(cfg: Config, before: seq<Move>, clientIn: seq<byte>, destIn: seq<byte>,
                                           e: Entry, t: Target, n: nat, start: nat, reply: seq<byte>)
    returns (moves: seq<Move>)
    requires AtConnect(cfg, Run(cfg, before), clientIn, destIn, e, t, n)
    requires Routed(cfg, t) == Upstream && t.Domain? && |t.name| <= 255 && Announced(cfg, destIn, e, t, start, reply)
    ensures AtRelay(cfg, Run(cfg, moves), clientIn, destIn, e, t, n, start, reply)
  {
    hide Run, Socks.ParseReply, Socks.ConnectRequest, Routed, Peek, ReadGreeting, ReadRequest, ReadHttp, ConnectDirect;
    assert destIn[0..] == destIn;
    var c := Connected(Socks.SockV4([0, 0, 0, 0], 0));
    moves := Also(cfg, before, ProxySteps(c));
    assert [] + Socks.GREETING == Socks.GREETING;
    moves := Also(cfg, moves, ProxySteps(c));
    assert Run(cfg, moves).phase == AwaitingReply(e, t);
    assert destIn[2..start][1] == destIn[3];
    moves := Also(cfg, moves, ProxySteps(c));
  }

  lemma {:induction false} Relays(cfg: Config, accepted: seq<Move>, up: nat, down: nat, end: RelayEnd)
    returns (moves: seq<Move>)
    requires var s := Run(cfg, accepted);
             && s.clientEof && s.destEof && CanRelay(s) && up <= |ClientPending(s)| && down <= |DestPending(s)|
             && end != Flowing && (end == ClientDone ==> up == |ClientPending(s)|)
             && (end == DestDone ==> down == |DestPending(s)|)
    ensures var s, r := Run(cfg, accepted), Run(cfg, moves);
            && r.clientOut == s.clientOut && r.destOut == s.destOut && r.clientEof && r.destEof
            && r.phase == s.phase.(end := end)
            && ClientPending(r) == ClientPending(s)[up..] && DestPending(r) == DestPending(s)[down..]
            && r.toDest == s.toDest + ClientPending(s)[..up] && r.toClient == s.toClient + DestPending(s)[..down]
  {
    hide Run, Proxy;
    var s := Run(cfg, accepted);
    moves := Also(cfg, accepted, RelayUp(up));
    moves := Also(cfg, moves, RelayDown(down));
    var m := Run(cfg, moves);
    assert ClientPending(m) == ClientPending(s)[up..] && DestPending(m) == DestPending(s)[down..];
    moves := Also(cfg, moves, RelayEnds(end));
  }

  lemma NameFits(cfg: Config, t: Target, c: Connect, destIn: seq<byte>)
    requires Connects(cfg, t, c, destIn)
    ensures Routed(cfg, t) == Upstream ==> t.Domain? && |t.name| <= 255
  {
  }

  lemma Behind(s: seq<byte>, i: nat, k: nat)
    requires i + k <= |s|
    ensures s[i..][..k] == s[i..i + k] && s[i..][k..] == s[i + k..]
  {
  }

  lemma {:induction false} RelayedIsARun(cfg: Config, before: seq<Move>, clientIn: seq<byte>, destIn: seq<byte>,
                        e: Entry, t: Target, n: nat, c: Connect, schedule: seq<Chunk>,
                        clientLeft: seq<byte>, told: seq<byte>, destLeft: seq<byte>, destGot: seq<byte>)
    returns (moves: seq<Move>)
    requires n <= |clientIn| && AtConnect(cfg, Run(cfg, before), clientIn, destIn, e, t, n)
    requires Connects(cfg, t, c, destIn) && Relayed(cfg, e, t, clientIn[n..], destIn, schedule, clientLeft, told, destLeft, destGot)
    ensures var s := Run(cfg, moves);
            && Loaded(s, clientIn, destIn) && s.toClient == Preamble(e) + told && s.toDest == destGot
            && s.phase.Relaying? && s.phase.end != Flowing
            && ClientPending(s) == clientLeft && DestPending(s) == destLeft
  {
    hide Run, Open, Announced, OwnHandshake, Routed, Connects, Carries;
    NameFits(cfg, t, c, destIn);
    var polled: nat, up: nat, start: nat, reply: seq<byte>, down: nat, end: RelayEnd :|
      RelayedBy(cfg, e, t, clientIn[n..], destIn, schedule, polled, up, start, reply, down, end, clientLeft, told, destLeft, destGot);
    if Routed(cfg, t) == Direct {
      moves := AcceptsDirect(cfg, before, clientIn, destIn, e, t, n, start, reply);
    } else {
      moves := AcceptsUpstream(cfg, before, clientIn, destIn, e, t, n, start, reply);
    }
    Behind(destIn, start, down);
    moves := Relays(cfg, moves, up, down, end);
    assert Preamble(e) + (reply + destIn[start..start + down]) == Preamble(e) + reply + destIn[start..start + down];
  }

  /** Whatever the handler has done when it returns, some run of the machine has done: the same bytes
      have been written to both sides, the connection was relayed or refused alike, and a relay has
      left the same bytes unread. */
  lemma {:induction false} HandlerIsARun(cfg: Config, clientIn: seq<byte>, destIn: seq<byte>, c: Connect, schedule: seq<Chunk>, ok: bool,
                        clientLeft: seq<byte>, clientGot: seq<byte>, destLeft: seq<byte>, destGot: seq<byte>)
    returns (moves: seq<Move>)
    requires Handled(cfg, clientIn, destIn, c, schedule, ok, clientLeft, clientGot, destLeft, destGot)
    ensures var s := Run(cfg, moves);
            && Loaded(s, clientIn, destIn) && s.toClient == clientGot && s.toDest == destGot
            && (if ok then s.phase.Relaying? && s.phase.end != Flowing else s.phase == Failed)
            && (ok ==> ClientPending(s) == clientLeft && DestPending(s) == destLeft)
  {
    hide Run, Open, Relayed, Connects, FailureRep, Asked, SaidSoFar;
    moves := Opens(cfg, clientIn, destIn);
    match Open(cfg, clientIn)
    case NeedMore =>
    case Fail(_, _) =>
    case Done((e, t), n) =>
      var told := clientGot[|Preamble(e)|..];
      assert clientGot == Preamble(e) + told;
      if ok {
        moves := RelayedIsARun(cfg, moves, clientIn, destIn, e, t, n, c, schedule, clientLeft, told, destLeft, destGot);
      } else {
        moves := Rejects(cfg, moves, clientIn, destIn, e, t, n, c);
      }
  }
}
