/** One proxied connection as a state machine: the proxy between a client and a destination it
    reaches directly or through the upstream SOCKS5 proxy. The four byte streams are FIFO: each is
    the sequence of bytes its writer has written, with how many of them its reader has taken.
    Client and destination are arbitrary; they write what they like, when they like, in any chunks. */
module ProxySystem {
  import opened Bytes
  import opened Domains
  import opened Opening
  import Socks
  import Http

  /** A relay runs until one of its two copies has read an end of stream, or one has failed. */
  datatype RelayEnd = Flowing | ClientDone | DestDone | Broken

  datatype Phase =
    | Peeking
    | Greeting
    | Requesting
    | ReadingHead
    | Connecting(entry: Entry, target: Target)
    | AwaitingMethod(entry: Entry, target: Target)
    | AwaitingReply(entry: Entry, target: Target)
    /** `start` and `payload` are where the client's and the destination's payload begin in what
        they write, `reply` is the success the client was told. */
    | Relaying(entry: Entry, target: Target, start: nat, payload: nat, reply: seq<byte>, end: RelayEnd)
    | Failed

  datatype Sys = Sys(
    phase: Phase,
    clientOut: seq<byte>, clientEof: bool, taken: nat,
    toClient: seq<byte>, clientGot: nat,
    toDest: seq<byte>, destGot: nat,
    destOut: seq<byte>, destEof: bool, destTaken: nat)

  const START := Sys(Peeking, [], false, 0, [], 0, [], 0, [], false, 0)

  /** How `TcpStream::connect` turns out, for the destination or for the upstream proxy. */
  datatype Connect = Connected(bind: Socks.SocketAddr) | ConnectError(error: Socks.IoError)

  datatype Move =
    | ClientWrites(bytes: seq<byte>)
    | ClientCloses
    | ClientReads(count: nat)
    | DestWrites(bytes: seq<byte>)
    | DestCloses
    | DestReads(count: nat)
    | ProxySteps(connect: Connect)
    | RelayUp(count: nat)
    | RelayDown(count: nat)
    | RelayEnds(end: RelayEnd)

  function ClientPending(s: Sys): seq<byte>
    requires s.taken <= |s.clientOut|
  {
    s.clientOut[s.taken..]
  }

  function DestPending(s: Sys): seq<byte>
    requires s.destTaken <= |s.destOut|
  {
    s.destOut[s.destTaken..]
  }

  predicate Sound(s: Sys) {
    s.taken <= |s.clientOut| && s.destTaken <= |s.destOut| && s.clientGot <= |s.toClient| && s.destGot <= |s.toDest|
  }

  /** A step of the proxy leaves alone what its peers have written and read. */
  predicate OwnStep(s: Sys, r: Sys) {
    && r.clientOut == s.clientOut && r.clientEof == s.clientEof && r.clientGot == s.clientGot
    && r.destOut == s.destOut && r.destEof == s.destEof && r.destGot == s.destGot
  }

  /** How many steps the proxy can still take before it relays or has failed. */
  function PhaseRank(p: Phase): nat {
    match p
    case Peeking => 6
    case Greeting => 5
    case ReadingHead => 5
    case Requesting => 4
    case Connecting(_, _) => 3
    case AwaitingMethod(_, _) => 2
    case AwaitingReply(_, _) => 1
    case Relaying(_, _, _, _, _, _) => 0
    case Failed => 0
  }

  predicate Steps(s: Sys, r: Sys) {
    Sound(r) && OwnStep(s, r) && (r == s || PhaseRank(r.phase) < PhaseRank(s.phase))
  }

  /** The error a client is told about, in its own protocol. */
  function Refusal(e: Entry, rep: byte): seq<byte> {
    match e
    case Socks5 => Socks.SimpleReply(rep)
    case HttpConnect => Http.BadGateway()
  }

  /** The REP for a failed connect. On the way upstream the error is wrapped in a message, which keeps
      its kind and loses its OS code. */
  function ConnectRep(route: Route, err: Socks.IoError): byte {
    Socks.RepForIoError(if route == Direct then err else Socks.IoError(err.kind, None))
  }

  function Refuse(s: Sys, reply: seq<byte>): (r: Sys)
    requires Sound(s)
    ensures Sound(r) && OwnStep(s, r)
  {
    s.(phase := Failed, toClient := s.toClient + reply)
  }

  function RefuseUpstream(s: Sys, e: Entry): (r: Sys)
    requires Sound(s)
    ensures Sound(r) && OwnStep(s, r)
  {
    Refuse(s, Refusal(e, Socks.REP_GENERAL_FAILURE))
  }

  /** The client is told of success and the relay starts behind what both sides have taken. */
  function Accept(s: Sys, e: Entry, t: Target, reply: seq<byte>): (r: Sys)
    requires Sound(s)
    ensures Sound(r) && OwnStep(s, r)
  {
    s.(phase := Relaying(e, t, s.taken, s.destTaken, reply, Flowing), toClient := s.toClient + reply)
  }

  function Peek(s: Sys): (r: Sys)
    requires Sound(s) && s.phase.Peeking?
    ensures Steps(s, r)
  {
    var p := ClientPending(s);
    if p == [] then if s.clientEof then Refuse(s, []) else s
    else if p[0] == Socks.VERSION then s.(phase := Greeting)
    else if IsLetter(p[0]) then s.(phase := ReadingHead)
    else Refuse(s, [])
  }

  function ReadGreeting(s: Sys): (r: Sys)
    requires Sound(s) && s.phase.Greeting?
    ensures Steps(s, r)
  {
    match Socks.ParseGreeting(ClientPending(s))
    case NeedMore => if s.clientEof then Refuse(s, []) else s
    case Fail(n, reply) => Refuse(s.(taken := s.taken + n), reply)
    case Done(_, n) => s.(phase := Requesting, taken := s.taken + n, toClient := s.toClient + Socks.GREETING_OK)
  }

  function AfterOpening(s: Sys, e: Entry, o: Outcome<Target>): (r: Sys)
    requires Sound(s) && (s.phase.Requesting? || s.phase.ReadingHead?) && (o.NeedMore? || o.used <= |ClientPending(s)|)
    ensures Steps(s, r)
  {
    match o
    case NeedMore => if s.clientEof then Refuse(s, []) else s
    case Fail(n, reply) => Refuse(s.(taken := s.taken + n), reply)
    case Done(t, n) => s.(phase := Connecting(e, t), taken := s.taken + n)
  }

  function ReadRequest(s: Sys): (r: Sys)
    requires Sound(s) && s.phase.Requesting?
    ensures Steps(s, r)
  {
    AfterOpening(s, Socks5, Socks.ParseRequest(ClientPending(s)))
  }

  function ReadHttp(cfg: Config, s: Sys): (r: Sys)
    requires Sound(s) && s.phase.ReadingHead?
    ensures Steps(s, r)
  {
    AfterOpening(s, HttpConnect, Opening.ReadHead(cfg, ClientPending(s)))
  }

  function ConnectDirect(s: Sys, e: Entry, t: Target, c: Connect): (r: Sys)
    requires Sound(s) && s.phase.Connecting?
    ensures Steps(s, r)
  {
    match c
    case ConnectError(err) => Refuse(s, Refusal(e, ConnectRep(Direct, err)))
    case Connected(bind) =>
      Accept(s, e, t, if e == Socks5 then Socks.BoundReply(Socks.REP_SUCCESS, bind) else Http.Established())
  }

  function ConnectUpstream(s: Sys, e: Entry, t: Target, c: Connect): (r: Sys)
    requires Sound(s) && s.phase.Connecting?
    ensures Steps(s, r)
  {
    match c
    case ConnectError(err) => Refuse(s, Refusal(e, ConnectRep(Upstream, err)))
    case Connected(_) => s.(phase := AwaitingMethod(e, t), toDest := s.toDest + Socks.GREETING)
  }

  function ReadMethod(s: Sys, e: Entry, t: Target): (r: Sys)
    requires Sound(s) && s.phase.AwaitingMethod?
    ensures Steps(s, r)
  {
    var p := DestPending(s);
    if |p| < 2 then if s.destEof then RefuseUpstream(s, e) else s
    else
      var s' := s.(destTaken := s.destTaken + 2);
      if p[..2] != Socks.GREETING_OK || !t.Domain? || |t.name| > 255 then RefuseUpstream(s', e)
      else s'.(phase := AwaitingReply(e, t), toDest := s.toDest + Socks.ConnectRequest(t.name, t.port))
  }

  function HearReply(s: Sys, e: Entry, t: Target, reply: seq<byte>, n: nat): (r: Sys)
    requires Sound(s) && s.phase.AwaitingReply? && n <= |DestPending(s)| && |reply| >= 2
    ensures Steps(s, r)
  {
    var s' := s.(destTaken := s.destTaken + n);
    if reply[1] != Socks.REP_SUCCESS then RefuseUpstream(s', e)
    else Accept(s', e, t, if e == Socks5 then reply else Http.Established())
  }

  function ReadReply(s: Sys, e: Entry, t: Target): (r: Sys)
    requires Sound(s) && s.phase.AwaitingReply?
    ensures Steps(s, r)
  {
    match Socks.ParseReply(DestPending(s))
    case NeedMore => if s.destEof then RefuseUpstream(s, e) else s
    case Fail(n, _) => RefuseUpstream(s.(destTaken := s.destTaken + n), e)
    case Done(reply, n) => HearReply(s, e, t, reply, n)
  }

  /** The proxy's next step, blocked (no change) while the message it reads is incomplete. */
  function Proxy(cfg: Config, s: Sys, c: Connect): (r: Sys)
    requires Sound(s)
    ensures Steps(s, r)
  {
    match s.phase
    case Peeking => Peek(s)
    case Greeting => ReadGreeting(s)
    case Requesting => ReadRequest(s)
    case ReadingHead => ReadHttp(cfg, s)
    case Connecting(e, t) => if Routed(cfg, t) == Direct then ConnectDirect(s, e, t, c) else ConnectUpstream(s, e, t, c)
    case AwaitingMethod(e, t) => ReadMethod(s, e, t)
    case AwaitingReply(e, t) => ReadReply(s, e, t)
    case Relaying(_, _, _, _, _, _) => s
    case Failed => s
  }

  predicate CanRelay(s: Sys) {
    s.phase.Relaying? && s.phase.end == Flowing
  }

  /** The relay is over as soon as one copy reads the end of its stream, however much the other still
      has to carry, or when one fails. Which copy is polled first is up to the scheduler, so between a
      peer's close and the moment it is read the other copy may still move some bytes. */
  predicate CanEnd(s: Sys, end: RelayEnd)
    requires Sound(s)
  {
    CanRelay(s)
    && match end
       case Flowing => false
       case ClientDone => s.clientEof && ClientPending(s) == []
       case DestDone => s.destEof && DestPending(s) == []
       case Broken => true
  }

  /** The two directions of `relay`: some more bytes of one stream are copied to the other. */
  function CopyUp(s: Sys, k: nat): (r: Sys)
    requires Sound(s) && k <= |ClientPending(s)|
    ensures Sound(r)
  {
    s.(taken := s.taken + k, toDest := s.toDest + ClientPending(s)[..k])
  }

  function CopyDown(s: Sys, k: nat): (r: Sys)
    requires Sound(s) && k <= |DestPending(s)|
    ensures Sound(r)
  {
    s.(destTaken := s.destTaken + k, toClient := s.toClient + DestPending(s)[..k])
  }

  /** One move of the client, the destination, the proxy or its relay; a move that is not enabled
      changes nothing. */
  function Next(cfg: Config, s: Sys, m: Move): (r: Sys)
    requires Sound(s)
    ensures Sound(r)
  {
    match m
    case ClientWrites(bs) => if s.clientEof then s else s.(clientOut := s.clientOut + bs)
    case ClientCloses => s.(clientEof := true)
    case ClientReads(k) => if s.clientGot + k <= |s.toClient| then s.(clientGot := s.clientGot + k) else s
    case DestWrites(bs) => if s.destEof then s else s.(destOut := s.destOut + bs)
    case DestCloses => s.(destEof := true)
    case DestReads(k) => if s.destGot + k <= |s.toDest| then s.(destGot := s.destGot + k) else s
    case ProxySteps(c) => Proxy(cfg, s, c)
    case RelayUp(k) => if CanRelay(s) && k <= |ClientPending(s)| then CopyUp(s, k) else s
    case RelayDown(k) => if CanRelay(s) && k <= |DestPending(s)| then CopyDown(s, k) else s
    case RelayEnds(end) => if CanEnd(s, end) then s.(phase := s.phase.(end := end)) else s
  }

  /** The state after any sequence of moves: every reachable state is one of these. */
  function Run(cfg: Config, moves: seq<Move>): (s: Sys)
    ensures Sound(s)
  {
    if moves == [] then START
    else
      Next(cfg, Run(cfg, moves[..|moves| - 1]), moves[|moves| - 1])
  }

  // ── The invariant ──────────────────────────────────────────────────────

  /** The client's stream opens a connection to `t`, and its first `n` bytes are the opening. */
  ghost predicate Opened(cfg: Config, s: Sys, e: Entry, t: Target, n: nat) {
    Open(cfg, s.clientOut) == Done((e, t), n) && n <= |s.clientOut|
  }

  /** What the proxy says to the client before it learns whether the connection succeeds. */
  function Preamble(e: Entry): seq<byte> {
    if e == Socks5 then Socks.GREETING_OK else []
  }

  ghost predicate IsBoundReply(reply: seq<byte>) {
    exists bind :: reply == Socks.BoundReply(Socks.REP_SUCCESS, bind)
  }

  /** The first `n` bytes are the method choice and one whole successful reply. */
  predicate UpstreamAccepts(destOut: seq<byte>, n: nat) {
    && 6 <= n <= |destOut| && destOut[..2] == Socks.GREETING_OK
    && Socks.ParseReply(destOut[2..]) == Done(destOut[2..n], n - 2)
    && destOut[3] == Socks.REP_SUCCESS
  }

  /** The success the client is told: the proxy's own words when the proxy connected itself or the
      client speaks HTTP, the upstream's reply verbatim otherwise. `payload` is what follows it. */
  ghost predicate Announced(cfg: Config, destOut: seq<byte>, e: Entry, t: Target, payload: nat, reply: seq<byte>) {
    if Routed(cfg, t) == Direct then
      payload == 0 && (if e == Socks5 then IsBoundReply(reply) else reply == Http.Established())
    else
      && UpstreamAccepts(destOut, payload)
      && reply == if e == Socks5 then destOut[2..payload] else Http.Established()
  }

  ghost predicate Untouched(s: Sys) {
    s.taken == 0 && s.destTaken == 0 && s.toClient == [] && s.toDest == []
  }

  ghost predicate RelayInv(cfg: Config, s: Sys)
    requires Sound(s) && s.phase.Relaying?
  {
    var Relaying(e, t, start, payload, reply, end) := s.phase;
    && Opened(cfg, s, e, t, start) && start <= s.taken && payload <= s.destTaken
    && (end == ClientDone ==> s.clientEof && ClientPending(s) == [])
    && (end == DestDone ==> s.destEof && DestPending(s) == [])
    && s.toDest == OwnHandshake(cfg, t) + s.clientOut[start..s.taken]
    && s.toClient == Preamble(e) + reply + s.destOut[payload..s.destTaken]
    && Announced(cfg, s.destOut, e, t, payload, reply)
  }

  /** The failures a client can be told of: "network unreachable" on a direct connection only. */
  predicate CanTell(route: Route, rep: byte) {
    || rep == Socks.REP_GENERAL_FAILURE || rep == Socks.REP_HOST_UNREACHABLE || rep == Socks.REP_CONN_REFUSED
    || (rep == Socks.REP_NET_UNREACHABLE && route == Direct)
  }

  /** A failure after a complete opening is reported with a non-zero REP or a 5xx status, a bad
      opening as its reader says, and a client that hangs up in the middle is told nothing more. */
  ghost predicate FailedInv(cfg: Config, s: Sys) {
    match Open(cfg, s.clientOut)
    case Done((e, t), _) =>
      && s.toDest <= OwnHandshake(cfg, t)
      && exists rep: byte :: CanTell(Routed(cfg, t), rep) && s.toClient == Preamble(e) + Refusal(e, rep)
    case Fail(_, reply) => s.toDest == [] && s.toClient == reply
    case NeedMore =>
      && s.toDest == [] && s.clientEof
      && (s.toClient == [] || (s.clientOut != [] && s.clientOut[0] == Socks.VERSION && s.toClient == Socks.GREETING_OK))
  }

  ghost predicate Inv(cfg: Config, s: Sys) {
    && Sound(s)
    && match s.phase
       case Peeking => Untouched(s)
       case Greeting => Untouched(s) && |s.clientOut| > 0 && s.clientOut[0] == Socks.VERSION
       case ReadingHead => Untouched(s) && |s.clientOut| > 0 && IsLetter(s.clientOut[0])
       case Requesting =>
         && Socks.ParseGreeting(s.clientOut) == Done((), s.taken) && s.clientOut[0] == Socks.VERSION
         && s.toClient == Socks.GREETING_OK && s.toDest == [] && s.destTaken == 0
       case Connecting(e, t) =>
         Opened(cfg, s, e, t, s.taken) && s.toClient == Preamble(e) && s.toDest == [] && s.destTaken == 0
       case AwaitingMethod(e, t) =>
         && Opened(cfg, s, e, t, s.taken) && s.toClient == Preamble(e) && Routed(cfg, t) == Upstream
         && s.toDest == Socks.GREETING && s.destTaken == 0
       case AwaitingReply(e, t) =>
         && Opened(cfg, s, e, t, s.taken) && s.toClient == Preamble(e) && Routed(cfg, t) == Upstream
         && s.toDest == OwnHandshake(cfg, t) && |t.name| <= 255
         && s.destTaken == 2 && s.destOut[..2] == Socks.GREETING_OK
       case Relaying(_, _, _, _, _, _) => RelayInv(cfg, s)
       case Failed => FailedInv(cfg, s)
  }

  /** The client has been told its connection succeeded: REP 0 behind the method choice, or a 2xx status. */
  predicate Promising(s: Sys) {
    && |s.clientOut| > 0
    && (if s.clientOut[0] == Socks.VERSION then |s.toClient| > 3 && s.toClient[3] == Socks.REP_SUCCESS
        else |s.toClient| > 9 && s.toClient[9] == 50)
  }

  // ── Every move keeps the invariant ─────────────────────────────────────

  lemma {:induction false} ClientWriteKeeps(cfg: Config, s: Sys, bs: seq<byte>)
    requires Inv(cfg, s) && !s.clientEof
    ensures Inv(cfg, s.(clientOut := s.clientOut + bs))
  {
    hide Open, Announced, OwnHandshake;
    OpenSettled(cfg, s.clientOut, bs);
    Socks.GreetingSettled(s.clientOut, bs);
    if s.phase.Relaying? {
      assert (s.clientOut + bs)[s.phase.start..s.taken] == s.clientOut[s.phase.start..s.taken];
    }
  }

  lemma AcceptanceStands(destOut: seq<byte>, bs: seq<byte>, n: nat)
    requires UpstreamAccepts(destOut, n)
    ensures UpstreamAccepts(destOut + bs, n) && (destOut + bs)[2..n] == destOut[2..n]
  {
    Socks.ReplySettled(destOut[2..], bs);
    assert (destOut + bs)[2..] == destOut[2..] + bs;
    assert (destOut + bs)[2..n] == destOut[2..n];
  }

  lemma {:induction false} DestWriteKeeps(cfg: Config, s: Sys, bs: seq<byte>)
    requires Inv(cfg, s) && !s.destEof
    ensures Inv(cfg, s.(destOut := s.destOut + bs))
  {
    hide Open, UpstreamAccepts, OwnHandshake;
    if s.phase.Relaying? {
      if Routed(cfg, s.phase.target) == Upstream { AcceptanceStands(s.destOut, bs, s.phase.payload); }
      assert (s.destOut + bs)[s.phase.payload..s.destTaken] == s.destOut[s.phase.payload..s.destTaken];
    }
  }

  lemma PeekKeeps(cfg: Config, s: Sys)
    requires Inv(cfg, s) && s.phase.Peeking?
    ensures Inv(cfg, Peek(s))
  {
    hide ReadSocks, ReadHead;
    assert s.clientOut[0..] == s.clientOut;
  }

  lemma GreetingKeeps(cfg: Config, s: Sys)
    requires Inv(cfg, s) && s.phase.Greeting?
    ensures Inv(cfg, ReadGreeting(s))
  {
    hide ReadHead, Socks.ParseRequest;
    assert s.clientOut[0..] == s.clientOut;
    assert [] + Socks.GREETING_OK == Socks.GREETING_OK;
    match Socks.ParseGreeting(s.clientOut)
    case Fail(_, reply) => assert [] + reply == reply;
    case _ =>
  }

  /** What the message just read says about the whole stream is what the new phase needs. */
  lemma OpeningKeeps(cfg: Config, s: Sys, e: Entry, o: Outcome<Target>)
    requires Inv(cfg, s) && |s.clientOut| > 0
    requires if e == Socks5 then s.phase.Requesting? && s.clientOut[0] == Socks.VERSION
             else s.phase.ReadingHead? && s.clientOut[0] != Socks.VERSION
    requires s.toClient == Preamble(e) && s.toDest == [] && s.destTaken == 0
    requires o.NeedMore? || o.used <= |ClientPending(s)|
    requires match o
             case NeedMore => Open(cfg, s.clientOut) == NeedMore
             case Done(t, k) => Open(cfg, s.clientOut) == Done((e, t), s.taken + k)
             case Fail(k, reply) => Open(cfg, s.clientOut) == Fail(s.taken + k, Preamble(e) + reply)
    ensures Inv(cfg, AfterOpening(s, e, o))
  {
    hide Open;
  }

  lemma OpenOfRequest(cfg: Config, stream: seq<byte>, o: Outcome<Target>)
    requires Socks.ParseGreeting(stream).Done? && |stream| > 0 && stream[0] == Socks.VERSION
    requires o == Socks.ParseRequest(stream[Socks.ParseGreeting(stream).used..])
    ensures var n := Socks.ParseGreeting(stream).used;
            Open(cfg, stream) == match o
                                 case NeedMore => NeedMore
                                 case Done(t, k) => Done((Socks5, t), n + k)
                                 case Fail(k, reply) => Fail(n + k, Socks.GREETING_OK + reply)
  {
  }

  lemma RequestKeeps(cfg: Config, s: Sys)
    requires Inv(cfg, s) && s.phase.Requesting?
    ensures Inv(cfg, ReadRequest(s))
  {
    hide Open;
    var o := Socks.ParseRequest(ClientPending(s));
    OpenOfRequest(cfg, s.clientOut, o);
    OpeningKeeps(cfg, s, Socks5, o);
  }

  lemma OpenOfHead(cfg: Config, stream: seq<byte>)
    requires |stream| > 0 && IsLetter(stream[0])
    ensures Open(cfg, stream) == Tag(HttpConnect, ReadHead(cfg, stream))
  {
    hide ReadHead;
  }

  lemma HeadKeeps(cfg: Config, s: Sys)
    requires Inv(cfg, s) && s.phase.ReadingHead?
    ensures Inv(cfg, ReadHttp(cfg, s))
  {
    hide Open, ReadHead;
    assert s.clientOut[0..] == s.clientOut;
    OpenOfHead(cfg, s.clientOut);
    var o := ReadHead(cfg, s.clientOut);
    if o.Fail? { assert Preamble(HttpConnect) + o.reply == o.reply; }
    OpeningKeeps(cfg, s, HttpConnect, o);
  }

  lemma AcceptKeeps(cfg: Config, s: Sys, e: Entry, t: Target, reply: seq<byte>)
    requires Sound(s) && Opened(cfg, s, e, t, s.taken) && s.toClient == Preamble(e) && s.toDest == OwnHandshake(cfg, t)
    requires Announced(cfg, s.destOut, e, t, s.destTaken, reply)
    ensures Inv(cfg, Accept(s, e, t, reply))
  {
    hide Open, Announced, OwnHandshake;
    assert s.clientOut[s.taken..s.taken] == [];
    assert s.destOut[s.destTaken..s.destTaken] == [];
  }

  lemma RefusalKeeps(cfg: Config, s: Sys, e: Entry, t: Target, n: nat, rep: byte)
    requires Sound(s) && Opened(cfg, s, e, t, n) && s.toClient == Preamble(e) && s.toDest <= OwnHandshake(cfg, t)
    requires CanTell(Routed(cfg, t), rep)
    ensures Inv(cfg, Refuse(s, Refusal(e, rep)))
  {
    hide Open, OwnHandshake;
  }

  lemma DirectKeeps(cfg: Config, s: Sys, e: Entry, t: Target, c: Connect)
    requires Inv(cfg, s) && s.phase == Connecting(e, t) && Routed(cfg, t) == Direct
    ensures Inv(cfg, ConnectDirect(s, e, t, c))
  {
    hide Open;
    match c
    case ConnectError(err) => RefusalKeeps(cfg, s, e, t, s.taken, ConnectRep(Direct, err));
    case Connected(bind) =>
      AcceptKeeps(cfg, s, e, t, if e == Socks5 then Socks.BoundReply(Socks.REP_SUCCESS, bind) else Http.Established());
  }

  lemma UpstreamKeeps(cfg: Config, s: Sys, e: Entry, t: Target, c: Connect)
    requires Inv(cfg, s) && s.phase == Connecting(e, t) && Routed(cfg, t) == Upstream
    ensures Inv(cfg, ConnectUpstream(s, e, t, c))
  {
    hide Open;
    match c
    case ConnectError(err) => RefusalKeeps(cfg, s, e, t, s.taken, ConnectRep(Upstream, err));
    case Connected(_) =>
  }

  lemma MethodKeeps(cfg: Config, s: Sys, e: Entry, t: Target)
    requires Inv(cfg, s) && s.phase == AwaitingMethod(e, t)
    ensures Inv(cfg, ReadMethod(s, e, t))
  {
    hide Open;
    assert s.destOut[0..] == s.destOut;
    RefusalKeeps(cfg, s, e, t, s.taken, Socks.REP_GENERAL_FAILURE);
    if |s.destOut| >= 2 { RefusalKeeps(cfg, s.(destTaken := 2), e, t, s.taken, Socks.REP_GENERAL_FAILURE); }
  }

  lemma ReplyIsAnnounced(cfg: Config, destOut: seq<byte>, e: Entry, t: Target, o: Outcome<seq<byte>>)
    requires Routed(cfg, t) == Upstream && |destOut| >= 2 && destOut[..2] == Socks.GREETING_OK
    requires o.Done? && o == Socks.ParseReply(destOut[2..]) && o.value[1] == Socks.REP_SUCCESS
    ensures Announced(cfg, destOut, e, t, 2 + o.used, if e == Socks5 then o.value else Http.Established())
  {
    assert destOut[2..2 + o.used] == destOut[2..][..o.used] == o.value;
  }

  lemma ReplyKeeps(cfg: Config, s: Sys, e: Entry, t: Target)
    requires Inv(cfg, s) && s.phase == AwaitingReply(e, t)
    ensures Inv(cfg, ReadReply(s, e, t))
  {
    hide Open, Announced, OwnHandshake, Refusal, Routed, Socks.ParseReply;
    var o := Socks.ParseReply(DestPending(s));
    RefusalKeeps(cfg, s, e, t, s.taken, Socks.REP_GENERAL_FAILURE);
    if !o.NeedMore? {
      var s' := s.(destTaken := s.destTaken + o.used);
      RefusalKeeps(cfg, s', e, t, s.taken, Socks.REP_GENERAL_FAILURE);
      if o.Done? && o.value[1] == Socks.REP_SUCCESS {
        ReplyIsAnnounced(cfg, s.destOut, e, t, o);
        AcceptKeeps(cfg, s', e, t, if e == Socks5 then o.value else Http.Established());
      }
    }
  }

  lemma CopyExtends(front: seq<byte>, stream: seq<byte>, from: nat, taken: nat, k: nat)
    requires from <= taken && taken + k <= |stream|
    ensures front + stream[from..taken] + stream[taken..][..k] == front + stream[from..taken + k]
  {
    assert stream[from..taken] + stream[taken..][..k] == stream[from..taken + k];
  }

  lemma RelayUpKeeps(cfg: Config, s: Sys, k: nat)
    requires Sound(s) && CanRelay(s) && RelayInv(cfg, s) && k <= |ClientPending(s)|
    ensures RelayInv(cfg, CopyUp(s, k)) && Inv(cfg, CopyUp(s, k))
  {
    hide Open, Announced, OwnHandshake;
    CopyExtends(OwnHandshake(cfg, s.phase.target), s.clientOut, s.phase.start, s.taken, k);
  }

  lemma RelayDownKeeps(cfg: Config, s: Sys, k: nat)
    requires Sound(s) && CanRelay(s) && RelayInv(cfg, s) && k <= |DestPending(s)|
    ensures RelayInv(cfg, CopyDown(s, k)) && Inv(cfg, CopyDown(s, k))
  {
    hide Open, Announced, OwnHandshake;
    CopyExtends(Preamble(s.phase.entry) + s.phase.reply, s.destOut, s.phase.payload, s.destTaken, k);
  }

  lemma ProxyKeeps(cfg: Config, s: Sys, c: Connect)
    requires Sound(s) && Inv(cfg, s)
    ensures Inv(cfg, Proxy(cfg, s, c))
  {
    match s.phase
    case Peeking => PeekKeeps(cfg, s);
    case Greeting => GreetingKeeps(cfg, s);
    case Requesting => RequestKeeps(cfg, s);
    case ReadingHead => HeadKeeps(cfg, s);
    case Connecting(e, t) =>
      if Routed(cfg, t) == Direct { DirectKeeps(cfg, s, e, t, c); } else { UpstreamKeeps(cfg, s, e, t, c); }
    case AwaitingMethod(e, t) => MethodKeeps(cfg, s, e, t);
    case AwaitingReply(e, t) => ReplyKeeps(cfg, s, e, t);
    case _ =>
  }

  lemma HangUpKeeps(cfg: Config, s: Sys)
    requires Inv(cfg, s)
    ensures Inv(cfg, s.(clientEof := true))
  {
    hide Open, Announced, OwnHandshake, Refusal, Routed, Socks.ParseGreeting;
  }

  lemma ReadsKeep(cfg: Config, s: Sys, clientGot: nat, destGot: nat, destEof: bool)
    requires Inv(cfg, s) && clientGot <= |s.toClient| && destGot <= |s.toDest| && (s.destEof ==> destEof)
    ensures Inv(cfg, s.(clientGot := clientGot, destGot := destGot, destEof := destEof))
  {
    hide Open, Announced, OwnHandshake, Refusal, Routed, Socks.ParseGreeting;
  }

  lemma EndKeeps(cfg: Config, s: Sys, end: RelayEnd)
    requires Inv(cfg, s) && CanEnd(s, end)
    ensures Inv(cfg, s.(phase := s.phase.(end := end)))
  {
    hide Open, Announced, OwnHandshake, Refusal, Routed, Socks.ParseGreeting;
  }

  lemma NextKeeps(cfg: Config, s: Sys, m: Move)
    requires Sound(s) && Inv(cfg, s)
    ensures Inv(cfg, Next(cfg, s, m))
  {
    hide Open, RelayInv, FailedInv, Proxy;
    match m
    case ClientWrites(bs) => if !s.clientEof { ClientWriteKeeps(cfg, s, bs); }
    case DestWrites(bs) => if !s.destEof { DestWriteKeeps(cfg, s, bs); }
    case RelayUp(k) => if CanRelay(s) && k <= |ClientPending(s)| { RelayUpKeeps(cfg, s, k); }
    case RelayDown(k) => if CanRelay(s) && k <= |DestPending(s)| { RelayDownKeeps(cfg, s, k); }
    case ProxySteps(c) => ProxyKeeps(cfg, s, c);
    case ClientCloses => HangUpKeeps(cfg, s);
    case ClientReads(k) => if s.clientGot + k <= |s.toClient| { ReadsKeep(cfg, s, s.clientGot + k, s.destGot, s.destEof); }
    case DestReads(k) => if s.destGot + k <= |s.toDest| { ReadsKeep(cfg, s, s.clientGot, s.destGot + k, s.destEof); }
    case DestCloses => ReadsKeep(cfg, s, s.clientGot, s.destGot, true);
    case RelayEnds(end) => if CanEnd(s, end) { EndKeeps(cfg, s, end); }
  }

  lemma {:induction false} Reachable(cfg: Config, moves: seq<Move>)
    ensures Inv(cfg, Run(cfg, moves))
  {
    hide Open, Next;
    if moves != [] {
      var front := moves[..|moves| - 1];
      Reachable(cfg, front);
      NextKeeps(cfg, Run(cfg, front), moves[|moves| - 1]);
    }
  }

  lemma {:induction false} ReachableRelay(cfg: Config, moves: seq<Move>)
    requires Run(cfg, moves).phase.Relaying?
    ensures RelayInv(cfg, Run(cfg, moves))
  {
    hide Open, Announced, OwnHandshake, Next;
    Reachable(cfg, moves);
  }

  // ── What holds in every reachable state ────────────────────────────────

  function DestReceived(s: Sys): seq<byte>
    requires Sound(s)
  {
    s.toDest[..s.destGot]
  }

  function ClientReceived(s: Sys): seq<byte>
    requires Sound(s)
  {
    s.toClient[..s.clientGot]
  }

  /** Client to destination. Until the client's opening is complete the destination has received
      nothing. From then on it has received a prefix of the proxy's own handshake followed by
      exactly what the client sent behind its opening, however early the client sent it: no byte of
      the opening leaks through and no payload byte is eaten, repeated or reordered. */
  lemma {:induction false} DestinationTransparency(cfg: Config, moves: seq<Move>)
    ensures var s := Run(cfg, moves);
            match Open(cfg, s.clientOut)
            case Done((_, t), n) => DestReceived(s) <= OwnHandshake(cfg, t) + s.clientOut[n..]
            case _ => DestReceived(s) == []
  {
    hide Open, Announced, Next;
    Reachable(cfg, moves);
    var s := Run(cfg, moves);
    if s.phase.Relaying? {
      var start := s.phase.start;
      assert s.clientOut[start..s.taken] <= s.clientOut[start..];
    }
  }

  /** Destination to client, once the proxy relays: the client has received a prefix of what the
      proxy says in its own name followed by exactly what the destination wrote behind its handshake. */
  lemma {:induction false} ClientTransparency(cfg: Config, moves: seq<Move>)
    ensures var s := Run(cfg, moves);
            s.phase.Relaying? ==>
              var Relaying(e, t, _, payload, reply, _) := s.phase;
              && Open(cfg, s.clientOut).Done? && Open(cfg, s.clientOut).value == (e, t)
              && payload <= |s.destOut|
              && Announced(cfg, s.destOut, e, t, payload, reply)
              && ClientReceived(s) <= Preamble(e) + reply + s.destOut[payload..]
  {
    hide Open, Announced, OwnHandshake, Next;
    Reachable(cfg, moves);
    var s := Run(cfg, moves);
    if s.phase.Relaying? {
      assert s.destOut[s.phase.payload..s.destTaken] <= s.destOut[s.phase.payload..];
    }
  }

  ghost predicate SeesThrough(cfg: Config, s: Sys) {
    s.phase.Relaying? && s.phase.entry == Socks5 && Routed(cfg, s.phase.target) == Upstream
  }

  /** A SOCKS5 client whose target goes upstream cannot tell the proxy from the upstream: it
      receives a prefix of exactly what the upstream wrote, handshake included. */
  lemma {:induction false} ClientSeesUpstream(cfg: Config, moves: seq<Move>)
    requires SeesThrough(cfg, Run(cfg, moves))
    ensures ClientReceived(Run(cfg, moves)) <= Run(cfg, moves).destOut
  {
    hide Open, Next;
    ClientTransparency(cfg, moves);
    var s := Run(cfg, moves);
    var payload := s.phase.payload;
    assert Socks.GREETING_OK + s.destOut[2..payload] + s.destOut[payload..] == s.destOut;
  }

  lemma {:induction false} ForwardedRequest(cfg: Config, stream: seq<byte>)
    requires Open(cfg, stream).Done? && Open(cfg, stream).value.0 == Socks5
    requires Routed(cfg, Open(cfg, stream).value.1) == Upstream
    ensures Socks.ParseGreeting(stream).Done?
    ensures var n, end := Socks.ParseGreeting(stream).used, Open(cfg, stream).used;
            && n + 4 < end
            && OwnHandshake(cfg, Open(cfg, stream).value.1) == Socks.GREETING + stream[n..end][2 := 0]
  {
    var n, end := Socks.ParseGreeting(stream).used, Open(cfg, stream).used;
    var t := Open(cfg, stream).value.1;
    Socks.RequestReencodes(stream[n..]);
    Socks.ConnectRequestIsMessage(t.name, t.port);
    assert stream[n..][..end - n] == stream[n..end];
  }

  /** And the upstream receives a prefix of a three-byte greeting, the client's own request with RSV
      zeroed, and everything the client sent behind it. */
  lemma {:induction false} UpstreamSeesClient(cfg: Config, moves: seq<Move>)
    requires SeesThrough(cfg, Run(cfg, moves))
    ensures var s := Run(cfg, moves);
            && Socks.ParseGreeting(s.clientOut).Done?
            && var n, end := Socks.ParseGreeting(s.clientOut).used, s.phase.start;
               && n + 4 < end <= |s.clientOut|
               && DestReceived(s) <= Socks.GREETING + s.clientOut[n..end][2 := 0] + s.clientOut[end..]
  {
    hide Open, OwnHandshake, Next;
    Reachable(cfg, moves);
    DestinationTransparency(cfg, moves);
    ForwardedRequest(cfg, Run(cfg, moves).clientOut);
  }

  /** A refused opening is answered with a non-zero REP, a method refusal, a 4xx status or nothing. */
  lemma {:induction false} RefusedOpening(cfg: Config, stream: seq<byte>)
    requires Open(cfg, stream).Fail?
    ensures var reply := Open(cfg, stream).reply;
            stream != [] && if stream[0] == Socks.VERSION then |reply| > 3 ==> reply[3] != Socks.REP_SUCCESS
                            else |reply| > 9 ==> reply[9] == 52
  {
    if IsLetter(stream[0]) { Http.HeadIsShortest(stream); }
  }

  lemma {:induction false} FailureIsNoPromise(cfg: Config, s: Sys)
    requires FailedInv(cfg, s)
    ensures !Promising(s)
  {
    hide Open;
    match Open(cfg, s.clientOut)
    case Done((e, t), _) =>
      var rep: byte :| CanTell(Routed(cfg, t), rep) && s.toClient == Preamble(e) + Refusal(e, rep);
    case Fail(_, reply) => RefusedOpening(cfg, s.clientOut);
    case NeedMore =>
  }

  lemma {:induction false} RelayPromises(cfg: Config, s: Sys)
    requires Sound(s) && s.phase.Relaying? && RelayInv(cfg, s)
    ensures Promising(s)
  {
    var reply := s.phase.reply;
    if s.phase.entry == Socks5 {
      if Routed(cfg, s.phase.target) == Direct {
        var bind :| reply == Socks.BoundReply(Socks.REP_SUCCESS, bind);
      } else {
        assert reply[1] == s.destOut[3];
      }
      assert s.toClient[3] == reply[1];
    } else {
      assert s.toClient[9] == reply[9];
    }
  }

  /** The client is told that its connection succeeded exactly when the proxy relays for it; every
      failure on the way there is reported as one, or not at all. */
  lemma {:induction false} PromiseIffRelaying(cfg: Config, moves: seq<Move>)
    ensures var s := Run(cfg, moves);
            Promising(s) <==> s.phase.Relaying?
  {
    hide Open, Announced, OwnHandshake, Next;
    Reachable(cfg, moves);
    var s := Run(cfg, moves);
    match s.phase
    case Relaying(_, _, _, _, _, _) => RelayPromises(cfg, s);
    case Failed => FailureIsNoPromise(cfg, s);
    case _ =>
  }

  // ── How a relay ends ───────────────────────────────────────────────────

  /** The destination has been handed all the client sent behind its opening. */
  ghost predicate UpComplete(cfg: Config, s: Sys)
    requires Sound(s) && s.phase.Relaying?
  {
    s.phase.start <= |s.clientOut| && s.toDest == OwnHandshake(cfg, s.phase.target) + s.clientOut[s.phase.start..]
  }

  /** The client has been handed all the destination wrote behind its handshake. */
  ghost predicate DownComplete(s: Sys)
    requires Sound(s) && s.phase.Relaying?
  {
    s.phase.payload <= |s.destOut| && s.toClient == Preamble(s.phase.entry) + s.phase.reply + s.destOut[s.phase.payload..]
  }

  /** What a relay has not handed on is what it has not read: it holds nothing back. */
  lemma {:induction false} HandedOnIff(cfg: Config, moves: seq<Move>)
    requires Run(cfg, moves).phase.Relaying?
    ensures var s := Run(cfg, moves);
            && (UpComplete(cfg, s) <==> ClientPending(s) == [])
            && (DownComplete(s) <==> DestPending(s) == [])
  {
    hide Open, Announced, OwnHandshake, Next;
    ReachableRelay(cfg, moves);
    var s := Run(cfg, moves);
    CopyExtends([], s.clientOut, s.phase.start, s.taken, |ClientPending(s)|);
    CopyExtends([], s.destOut, s.phase.payload, s.destTaken, |DestPending(s)|);
    assert s.clientOut[s.phase.start..] == s.clientOut[s.phase.start..s.taken] + ClientPending(s);
    assert s.destOut[s.phase.payload..] == s.destOut[s.phase.payload..s.destTaken] + DestPending(s);
  }

  lemma RunAppend(cfg: Config, moves: seq<Move>, m: Move)
    ensures Run(cfg, moves + [m]) == Next(cfg, Run(cfg, moves), m)
  {
    assert (moves + [m])[..|moves|] == moves;
  }

  /** As long as neither side has hung up, nothing is stuck: copying what is pending hands the
      destination all the client has sent, and the client all the destination has, and the relay goes on. */
  lemma {:induction false} RelayDrains(cfg: Config, moves: seq<Move>)
    requires CanRelay(Run(cfg, moves)) && !Run(cfg, moves).clientEof && !Run(cfg, moves).destEof
    ensures var s := Run(cfg, moves);
            var all := Run(cfg, moves + [RelayUp(|ClientPending(s)|)] + [RelayDown(|DestPending(s)|)]);
            && CanRelay(all) && all.clientOut == s.clientOut && all.destOut == s.destOut
            && UpComplete(cfg, all) && DownComplete(all)
  {
    hide Open, Announced, OwnHandshake;
    var s := Run(cfg, moves);
    RunAppend(cfg, moves, RelayUp(|ClientPending(s)|));
    RunAppend(cfg, moves + [RelayUp(|ClientPending(s)|)], RelayDown(|DestPending(s)|));
    HandedOnIff(cfg, moves + [RelayUp(|ClientPending(s)|)] + [RelayDown(|DestPending(s)|)]);
  }

  /** A relay that has ended without an error has carried one direction completely: the one whose
      writer closed. It has lost bytes of the other direction if and only if that side had written
      any it had not read when it noticed the close. */
  lemma {:induction false} EndedRelay(cfg: Config, moves: seq<Move>)
    requires Run(cfg, moves).phase.Relaying?
    ensures var s := Run(cfg, moves);
            match s.phase.end
            case ClientDone => s.clientEof && UpComplete(cfg, s) && (DownComplete(s) <==> DestPending(s) == [])
            case DestDone => s.destEof && DownComplete(s) && (UpComplete(cfg, s) <==> ClientPending(s) == [])
            case _ => true
  {
    hide Open, Announced, OwnHandshake, Next;
    ReachableRelay(cfg, moves);
    HandedOnIff(cfg, moves);
  }

  lemma EndedStays(cfg: Config, s: Sys, m: Move)
    requires Sound(s) && s.phase.Relaying? && s.phase.end != Flowing
    ensures var r := Next(cfg, s, m);
            && r.phase == s.phase && r.toClient == s.toClient && r.toDest == s.toDest
            && r.taken == s.taken && r.destTaken == s.destTaken && s.destOut <= r.destOut
  {
    hide Peek, ReadGreeting, ReadRequest, ReadHttp, ConnectDirect, ConnectUpstream, ReadMethod, ReadReply;
  }

  /** And the loss is for good: whatever happens after the end of a relay, nothing more is read from
      or handed to either side. */
  lemma {:induction false} EndIsFinal(cfg: Config, moves: seq<Move>, later: seq<Move>)
    requires Run(cfg, moves).phase.Relaying? && Run(cfg, moves).phase.end != Flowing
    ensures var s, r := Run(cfg, moves), Run(cfg, moves + later);
            && r.phase == s.phase && r.toClient == s.toClient && r.toDest == s.toDest
            && r.taken == s.taken && r.destTaken == s.destTaken && s.destOut <= r.destOut
  {
    hide Run, Next;
    if later == [] {
      assert moves + later == moves;
    } else {
      var front, last := later[..|later| - 1], later[|later| - 1];
      EndIsFinal(cfg, moves, front);
      RunAppend(cfg, moves + front, last);
      EndedStays(cfg, Run(cfg, moves + front), last);
      assert moves + front + [last] == moves + later;
    }
  }

  /** The half-closed client: one that has sent its request and closed its sending side, as it may,
      and whose bytes have all been copied. The relay can end there and then, and whatever the
      destination answers from then on never reaches the client. */
  lemma {:induction false} HalfClosedClient(cfg: Config, moves: seq<Move>, answer: seq<byte>, later: seq<Move>)
    requires var s := Run(cfg, moves);
             CanRelay(s) && s.clientEof && ClientPending(s) == [] && !s.destEof && answer != []
    ensures var s, r := Run(cfg, moves), Run(cfg, moves + [RelayEnds(ClientDone)] + ([DestWrites(answer)] + later));
            && r.phase == s.phase.(end := ClientDone) && UpComplete(cfg, r)
            && r.toClient == s.toClient && s.destOut + answer <= r.destOut && !DownComplete(r)
  {
    hide Run, Open, Announced, OwnHandshake;
    var over := moves + [RelayEnds(ClientDone)];
    RunAppend(cfg, moves, RelayEnds(ClientDone));
    var answered := over + [DestWrites(answer)];
    RunAppend(cfg, over, DestWrites(answer));
    EndIsFinal(cfg, over, [DestWrites(answer)] + later);
    EndIsFinal(cfg, answered, later);
    assert answered + later == over + ([DestWrites(answer)] + later);
    EndedRelay(cfg, answered + later);
  }

  lemma Also(cfg: Config, moves: seq<Move>, m: Move) returns (more: seq<Move>)
    ensures more == moves + [m] && Run(cfg, more) == Next(cfg, Run(cfg, moves), m)
  {
    more := moves + [m];
    RunAppend(cfg, moves, m);
  }

  /** A SOCKS5 client that asks for 10.0.0.1 port 80 and sends one byte of payload with it. */
  const REQUEST: seq<byte> := [Socks.VERSION, Socks.CMD_CONNECT, 0, Socks.ATYP_IPV4, 10, 0, 0, 1, 0, 80]
  const ASKED: seq<byte> := Socks.GREETING + (REQUEST + [9])

  lemma AskedIsRead()
    ensures Socks.ParseGreeting(ASKED) == Done((), 3) && ASKED[3..] == REQUEST + [9]
    ensures Socks.ParseRequest(REQUEST + [9]) == Done(Ipv4([10, 0, 0, 1], 80), 10)
    ensures |ASKED| == 14 && ASKED[0] == Socks.VERSION && ASKED[0..] == ASKED
  {
    Socks.GreetingAccepted(REQUEST + [9]);
    Socks.RequestSettled(REQUEST, [9]);
    assert REQUEST[4..8] == [10, 0, 0, 1];
  }

  lemma Nobody(cfg: Config)
    ensures Run(cfg, []) == START
  {
  }

  lemma {:induction false} AskedConnects(cfg: Config) returns (moves: seq<Move>)
    ensures var s := Run(cfg, moves);
            && s.phase == Connecting(Socks5, Ipv4([10, 0, 0, 1], 80))
            && s.clientOut == ASKED && s.taken == 13 && !s.clientEof && s.destOut == [] && s.destTaken == 0 && !s.destEof
  {
    hide Run, Socks.ParseGreeting, Socks.ParseRequest, ReadHttp, ConnectDirect, ConnectUpstream, ReadMethod, ReadReply;
    AskedIsRead();
    Nobody(cfg);
    moves := Also(cfg, [], ClientWrites(ASKED));
    assert [] + ASKED == ASKED;
    var c := ConnectError(Socks.IoError(Socks.OtherKind, None));
    moves := Also(cfg, moves, ProxySteps(c));
    moves := Also(cfg, moves, ProxySteps(c));
    moves := Also(cfg, moves, ProxySteps(c));
  }

  lemma {:induction false} AskedRelays(cfg: Config, bind: Socks.SocketAddr) returns (moves: seq<Move>)
    ensures var s := Run(cfg, moves);
            && CanRelay(s) && Routed(cfg, s.phase.target) == Direct
            && s.clientOut == ASKED && s.taken == 13 && !s.clientEof && s.destOut == [] && s.destTaken == 0 && !s.destEof
  {
    hide Run, Peek, ReadGreeting, ReadRequest, ReadHttp, ConnectUpstream, ReadMethod, ReadReply;
    moves := AskedConnects(cfg);
    moves := Also(cfg, moves, ProxySteps(Connected(bind)));
  }

  /** One such client closes when its byte has been copied, while one byte of the answer is already
      there. The relay can end with that byte undelivered. */
  lemma {:induction false} AnswerIsLost(cfg: Config, bind: Socks.SocketAddr) returns (moves: seq<Move>)
    ensures var s := Run(cfg, moves);
            && s.phase.Relaying? && s.phase.end == ClientDone && Routed(cfg, s.phase.target) == Direct
            && UpComplete(cfg, s) && DestPending(s) == [7] && !DownComplete(s)
  {
    hide Run, Proxy, Routed, UpComplete, DownComplete;
    moves := AskedRelays(cfg, bind);
    moves := Also(cfg, moves, DestWrites([7]));
    assert [] + [7] == [7];
    moves := Also(cfg, moves, RelayUp(1));
    AskedIsRead();
    moves := Also(cfg, moves, ClientCloses);
    moves := Also(cfg, moves, RelayEnds(ClientDone));
    EndedRelay(cfg, moves);
  }

  // ── What a client hears of a failure ───────────────────────────────────

  lemma CodesDiffer(said: seq<byte>, rep: byte, other: seq<byte>)
    ensures said + other == said + Socks.SimpleReply(rep) <==> other == Socks.SimpleReply(rep)
    ensures said != said + Socks.SimpleReply(rep)
  {
    assert (said + other)[|said|..] == other;
    assert (said + Socks.SimpleReply(rep))[|said|..] == Socks.SimpleReply(rep);
  }

  lemma CodeOf(a: byte, b: byte)
    ensures Socks.SimpleReply(a) == Socks.SimpleReply(b) <==> a == b
    ensures forall bind :: Socks.BoundReply(a, bind) == Socks.SimpleReply(b) ==> a == b
  {
    assert Socks.SimpleReply(a)[1] == a && Socks.SimpleReply(b)[1] == b;
    assert forall bind :: Socks.BoundReply(a, bind)[1] == a;
  }

  /** A connect step tells a SOCKS5 client that the network is unreachable if and only if the target
      is routed direct and the OS says so, under a kind that has no code of its own. */
  lemma {:induction false} NetUnreachableIff(cfg: Config, s: Sys, t: Target, c: Connect)
    requires Sound(s) && s.phase == Connecting(Socks5, t)
    ensures Proxy(cfg, s, c).toClient == s.toClient + Socks.SimpleReply(Socks.REP_NET_UNREACHABLE)
            <==> && Routed(cfg, t) == Direct && c.ConnectError?
                 && c.error.kind == Socks.OtherKind && (c.error.rawOs == Some(101) || c.error.rawOs == Some(51))
  {
    hide Peek, ReadGreeting, ReadRequest, ReadHttp, ReadMethod, ReadReply, Routed, Socks.SimpleReply, Socks.BoundReply;
    var said, unreachable := s.toClient, Socks.REP_NET_UNREACHABLE;
    match c
    case ConnectError(err) =>
      var rep := ConnectRep(Routed(cfg, t), err);
      CodesDiffer(said, unreachable, Socks.SimpleReply(rep));
      CodeOf(rep, unreachable);
    case Connected(bind) =>
      CodesDiffer(said, unreachable, Socks.BoundReply(Socks.REP_SUCCESS, bind));
      CodeOf(Socks.REP_SUCCESS, unreachable);
  }

  lemma OpenedByVersion(cfg: Config, stream: seq<byte>)
    requires Open(cfg, stream).Done?
    ensures |stream| > 0 && (Open(cfg, stream).value.0 == Socks5 <==> stream[0] == Socks.VERSION)
  {
    hide ReadSocks, ReadHead;
  }

  /** On the way upstream no client ever hears it, whether the upstream could not be reached or gave
      that reason itself. */
  lemma {:induction false} UpstreamHidesUnreachable(cfg: Config, moves: seq<Move>)
    ensures var s := Run(cfg, moves);
            Open(cfg, s.clientOut).Done? && Open(cfg, s.clientOut).value.0 == Socks5
            && Routed(cfg, Open(cfg, s.clientOut).value.1) == Upstream
            ==> |s.toClient| > 3 ==> s.toClient[3] != Socks.REP_NET_UNREACHABLE
  {
    hide Open, Announced, OwnHandshake, Next;
    Reachable(cfg, moves);
    var s := Run(cfg, moves);
    if Open(cfg, s.clientOut).Done? && Open(cfg, s.clientOut).value.0 == Socks5 {
      PromiseIffRelaying(cfg, moves);
      OpenedByVersion(cfg, s.clientOut);
    }
  }

  /** The proxy left to itself, connecting as `cs` says. */
  function ProxyRun(cfg: Config, s: Sys, cs: seq<Connect>): (r: Sys)
    requires Sound(s)
    ensures Sound(r)
    decreases |cs|
  {
    if cs == [] then s else ProxyRun(cfg, Proxy(cfg, s, cs[0]), cs[1..])
  }

  /** A handshake waits for bytes and for nothing else: once both peers have hung up, six steps at
      most decide it, whatever was sent and however the connects turn out. */
  lemma {:induction false} HandshakeIsDecided(cfg: Config, s: Sys, cs: seq<Connect>)
    requires Sound(s) && s.clientEof && s.destEof && |cs| >= PhaseRank(s.phase)
    ensures var r := ProxyRun(cfg, s, cs); r.phase.Failed? || r.phase.Relaying?
    decreases |cs|
  {
    hide Open, Opening.ReadHead, Socks.ParseGreeting, Socks.ParseRequest, Socks.ParseReply, Routed;
    if cs != [] { HandshakeIsDecided(cfg, Proxy(cfg, s, cs[0]), cs[1..]); }
  }
}
