/** The connection handler of the routing proxy, read by read and write by write, proved against
    the readers of `Socks`, `Http` and `Opening`. */
module Routing {
  import opened Bytes
  import opened Domains
  import opened Opening
  import opened Streams
  import opened ProxySystem
  import Socks
  import Http

  /** `s` has been served by a reader whose verdict on its input was `o`: a failure's reply has been
      written, a message's own answer has been written, an early end of input writes nothing. */
  twostate predicate Consumed<T>(s: Stream, o: Outcome<T>, answer: seq<byte>)
    reads s
  {
    match o
    case NeedMore => s.incoming == [] && s.sent == old(s.sent)
    case Fail(n, reply) => n <= |old(s.incoming)| && s.incoming == old(s.incoming)[n..] && s.sent == old(s.sent) + reply
    case Done(_, n) => n <= |old(s.incoming)| && s.incoming == old(s.incoming)[n..] && s.sent == old(s.sent) + answer
  }

  method ClientGreeting(stream: Stream) returns (ok: bool)
    modifies stream
    ensures ok <==> Socks.ParseGreeting(old(stream.incoming)).Done?
    ensures Consumed(stream, Socks.ParseGreeting(old(stream.incoming)), Socks.GREETING_OK)
  {
    ghost var s := stream.incoming;
    var ver := stream.ReadU8();
    if ver.None? { return false; }
    if ver.value != Socks.VERSION {
      stream.WriteAll(Socks.SimpleReply(Socks.REP_GENERAL_FAILURE));
      return false;
    }
    var nmethods := stream.ReadU8();
    if nmethods.None? { return false; }
    var methods := stream.ReadExact(nmethods.value);
    if methods.None? { return false; }
    assert methods.value == s[2..2 + nmethods.value as int];
    assert stream.incoming == s[2 + nmethods.value as int..];
    if Socks.AUTH_NONE !in methods.value {
      stream.WriteAll([Socks.VERSION, 0xFF]);
      return false;
    }
    stream.WriteAll([Socks.VERSION, Socks.AUTH_NONE]);
    ok := true;
  }

  /** The domain branch of `client_request`; `s` is the stream as it was before the request. */
  method ReadDomain(stream: Stream, ghost s: seq<byte>) returns (r: Option<Target>)
    requires |s| >= 4 && s[0] == Socks.VERSION && s[1] == Socks.CMD_CONNECT && s[3] == Socks.ATYP_DOMAIN
    requires stream.incoming == s[4..]
    modifies stream
    ensures r == match Socks.ParseRequest(s)
                 case Done(t, _) => Some(t)
                 case _ => None
    ensures match Socks.ParseRequest(s)
            case NeedMore => stream.incoming == [] && stream.sent == old(stream.sent)
            case Fail(n, reply) => stream.incoming == s[n..] && stream.sent == old(stream.sent) + reply
            case Done(_, n) => stream.incoming == s[n..] && stream.sent == old(stream.sent)
  {
    var len := stream.ReadU8();
    if len.None? { return None; }
    assert stream.incoming == s[5..];
    if len.value == 0 {
      stream.WriteAll(Socks.SimpleReply(Socks.REP_GENERAL_FAILURE));
      return None;
    }
    var name := stream.ReadExact(len.value);
    if name.None? { return None; }
    ghost var end := 5 + len.value as int;
    assert name.value == s[5..end] && stream.incoming == s[end..];
    if !ValidUtf8(name.value) { return None; }
    var p := stream.ReadU16();
    if p.None? { return None; }
    assert stream.incoming == s[end + 2..];
    r := Some(Domain(name.value, p.value));
  }

  method ClientRequest(stream: Stream) returns (r: Option<Target>)
    modifies stream
    ensures r == match Socks.ParseRequest(old(stream.incoming))
                 case Done(t, _) => Some(t)
                 case _ => None
    ensures Consumed(stream, Socks.ParseRequest(old(stream.incoming)), [])
  {
    ghost var s := stream.incoming;
    var ver := stream.ReadU8();
    if ver.None? { return None; }
    if ver.value != Socks.VERSION {
      stream.WriteAll(Socks.SimpleReply(Socks.REP_GENERAL_FAILURE));
      return None;
    }
    var cmd := stream.ReadU8();
    if cmd.None? { return None; }
    var rsv := stream.ReadU8();
    if rsv.None? { return None; }
    var atyp := stream.ReadU8();
    if atyp.None? { return None; }
    assert stream.incoming == s[4..];
    if cmd.value != Socks.CMD_CONNECT {
      stream.WriteAll(Socks.SimpleReply(Socks.REP_CMD_NOT_SUPPORTED));
      return None;
    }
    if atyp.value == Socks.ATYP_IPV4 {
      var addr := stream.ReadExact(4);
      if addr.None? { return None; }
      assert addr.value == s[4..8] && stream.incoming == s[8..];
      var p := stream.ReadU16();
      if p.None? { return None; }
      assert stream.incoming == s[10..];
      return Some(Ipv4(addr.value, p.value));
    } else if atyp.value == Socks.ATYP_DOMAIN {
      r := ReadDomain(stream, s);
    } else if atyp.value == Socks.ATYP_IPV6 {
      var addr := stream.ReadExact(16);
      if addr.None? { return None; }
      assert addr.value == s[4..20] && stream.incoming == s[20..];
      var p := stream.ReadU16();
      if p.None? { return None; }
      assert stream.incoming == s[22..];
      return Some(Ipv6(addr.value, p.value));
    } else {
      stream.WriteAll(Socks.SimpleReply(Socks.REP_ATYP_NOT_SUPPORTED));
      return None;
    }
  }

  lemma Pieces(s: seq<byte>, a: nat, b: nat, c: nat)
    requires a <= b <= c <= |s|
    ensures s[..a] + s[a..b] == s[..b] && s[..b] + s[b..c] == s[..c]
  {
  }

  /** The reply both SOCKS5 clients read: a four-byte header, then the tail its address type sizes. */
  method ReadReplyBytes(stream: Stream) returns (r: Outcome<seq<byte>>)
    modifies stream`incoming
    ensures r == Socks.ParseReply(old(stream.incoming))
    ensures stream.incoming == if r.NeedMore? then [] else old(stream.incoming)[r.used..]
  {
    ghost var s := stream.incoming;
    var header := stream.ReadExact(4);
    if header.None? { return NeedMore; }
    var atyp := header.value[3];
    if atyp == Socks.ATYP_IPV4 {
      var tail := stream.ReadExact(6);
      if tail.None? { return NeedMore; }
      assert header.value + tail.value == s[..10];
      return Done(header.value + tail.value, 10);
    } else if atyp == Socks.ATYP_IPV6 {
      var tail := stream.ReadExact(18);
      if tail.None? { return NeedMore; }
      assert header.value + tail.value == s[..22];
      return Done(header.value + tail.value, 22);
    } else if atyp == Socks.ATYP_DOMAIN {
      var len := stream.ReadU8();
      if len.None? { return NeedMore; }
      assert [len.value] == s[4..5] && stream.incoming == s[5..];
      var tail := stream.ReadExact(len.value as int + 2);
      if tail.None? { return NeedMore; }
      assert tail.value == s[5..7 + len.value as int];
      Pieces(s, 4, 5, 7 + len.value as int);
      return Done(header.value + [len.value] + tail.value, 7 + len.value as int);
    } else {
      return Fail(4, []);
    }
  }

  /** What the upstream hears: the greeting, and the request if it chose "no authentication" and the
      target has a name that fits into one. */
  function UpstreamHears(t: Target, upstreamSays: seq<byte>): seq<byte> {
    Socks.GREETING
    + if Socks.GREETING_OK <= upstreamSays && t.Domain? && |t.name| <= 255 then Socks.ConnectRequest(t.name, t.port) else []
  }

  /** `connect_upstream` once the TCP connect has succeeded. It succeeds iff the target is a name of
      at most 255 bytes and the upstream answers with "no authentication" and one whole reply with
      REP 0; then it has read exactly those bytes and returns the reply as it came. */
  method ConnectUpstreamStream(t: Target, upstream: Stream) returns (r: Option<seq<byte>>)
    modifies upstream
    ensures r.Some? <==> t.Domain? && |t.name| <= 255 && exists n :: UpstreamAccepts(old(upstream.incoming), n)
    ensures r.Some? ==>
              var n := 2 + |r.value|;
              && UpstreamAccepts(old(upstream.incoming), n)
              && r.value == old(upstream.incoming)[2..n] && upstream.incoming == old(upstream.incoming)[n..]
    ensures upstream.sent == old(upstream.sent) + UpstreamHears(t, old(upstream.incoming))
  {
    hide Socks.ParseReply, Socks.ConnectRequest;
    ghost var s := upstream.incoming;
    upstream.WriteAll(Socks.GREETING);
    var choice := upstream.ReadExact(2);
    if choice.None? { return None; }
    if choice.value[0] != Socks.VERSION || choice.value[1] != Socks.AUTH_NONE { return None; }
    if !t.Domain? || |t.name| > 255 { return None; }
    upstream.WriteAll(Socks.ConnectRequest(t.name, t.port));
    assert s[..2] == Socks.GREETING_OK && upstream.incoming == s[2..];
    var reply := ReadReplyBytes(upstream);
    if !reply.Done? { return None; }
    assert reply.value == s[2..][..reply.used] == s[2..2 + reply.used];
    assert upstream.incoming == s[2 + reply.used..];
    if reply.value[1] != Socks.REP_SUCCESS { return None; }
    assert UpstreamAccepts(s, 2 + reply.used);
    r := Some(reply.value);
  }

  /** The byte-by-byte loop of `handle_http_connect`: the head, or nothing after a 431 or an early
      end of input. */
  method ReadHttpHead(client: Stream) returns (r: Option<seq<byte>>)
    modifies client
    ensures r == match Http.ScanHead(old(client.incoming), 0)
                 case Done(_, n) => Some(old(client.incoming)[..n])
                 case _ => None
    ensures Consumed(client, Http.ScanHead(old(client.incoming), 0), [])
  {
    ghost var s := client.incoming;
    var buf := [];
    assert s[0..] == s;
    while true
      invariant |buf| <= |s| && buf == s[..|buf|] && client.incoming == s[|buf|..]
      invariant client.sent == old(client.sent)
      invariant Http.ScanHead(s, |buf|) == Http.ScanHead(s, 0)
      decreases |client.incoming|
    {
      ghost var n := |buf|;
      var b := client.ReadU8();
      if b.None? { return None; }
      buf := buf + [b.value];
      assert buf == s[..n + 1];
      if |buf| >= 4 && buf[|buf| - 4..] == Http.HEAD_END {
        assert s[n - 3..n + 1] == buf[n - 3..];
        return Some(buf);
      }
      assert n + 1 >= 4 ==> buf[n - 3..] == s[n - 3..n + 1];
      if |buf| >= Http.MAX_HEAD_SIZE {
        client.WriteAll(Http.HeadTooLarge());
        return None;
      }
    }
  }

  // ── Relay and connection handler ───────────────────────────────────────

  datatype Chunk = Up(count: nat) | Down(count: nat)

  function Least(a: nat, b: nat): nat {
    if a < b then a else b
  }

  /** How many bytes the polls of a schedule have room for, one way or the other. */
  function Room(upwards: bool, polls: seq<Chunk>): nat {
    if polls == [] then 0
    else
      var last := polls[|polls| - 1];
      Room(upwards, polls[..|polls| - 1]) + if last.Up? == upwards then last.count else 0
  }

  /** The poll at `k` finds its side exhausted: everything has been carried and the peer has closed. */
  predicate ReadsEnd(schedule: seq<Chunk>, k: nat, up: nat, down: nat)
    requires k < |schedule|
  {
    if schedule[k].Up? then Room(true, schedule[..k]) >= up else Room(false, schedule[..k]) >= down
  }

  /** `polled` polls have been made, none of which read an end of stream, and they have carried whatever
      they had room for. */
  ghost predicate Polled(schedule: seq<Chunk>, polled: nat, up: nat, down: nat, carriedUp: nat, carriedDown: nat) {
    && polled <= |schedule|
    && carriedUp == Least(up, Room(true, schedule[..polled]))
    && carriedDown == Least(down, Room(false, schedule[..polled]))
    && forall k :: 0 <= k < polled ==> !ReadsEnd(schedule, k, up, down)
  }

  /** What a schedule does to `up` bytes one way and `down` bytes the other: the relay ends at the first
      poll that reads an end of stream, or broken when the schedule is over. */
  ghost predicate Carries(schedule: seq<Chunk>, polled: nat, up: nat, down: nat,
                          carriedUp: nat, carriedDown: nat, end: RelayEnd)
  {
    && Polled(schedule, polled, up, down, carriedUp, carriedDown)
    && (polled < |schedule| ==> ReadsEnd(schedule, polled, up, down))
    && end == (if polled == |schedule| then Broken else if schedule[polled].Up? then ClientDone else DestDone)
  }

  /** The schedule alone decides what a relay carries and how it ends; without an error, one direction
      is complete. */
  lemma {:induction false} CarriesUniquely(schedule: seq<Chunk>, up: nat, down: nat, polled: nat, polled': nat,
                                           u: nat, d: nat, end: RelayEnd, u': nat, d': nat, end': RelayEnd)
    requires Carries(schedule, polled, up, down, u, d, end) && Carries(schedule, polled', up, down, u', d', end')
    ensures u == u' && d == d' && end == end'
    ensures (end == ClientDone ==> u == up) && (end == DestDone ==> d == down)
  {
    assert polled == polled';
  }

  /** A poll each way, with room for everything, hands each side everything the other has, in either
      order. */
  lemma {:induction false} RoomForAll(up: nat, down: nat, polled: nat, u: nat, d: nat, end: RelayEnd)
    requires up > 0 && down > 0
    requires Carries([Up(up), Down(down)], polled, up, down, u, d, end) || Carries([Down(down), Up(up)], polled, up, down, u, d, end)
    ensures u == up && d == down
  {
    var schedule := if Carries([Up(up), Down(down)], polled, up, down, u, d, end) then [Up(up), Down(down)] else [Down(down), Up(up)];
    assert schedule[..1] == [schedule[0]] && schedule[..2] == schedule;
    assert schedule[..0] == [] && [schedule[0]][..0] == [] && schedule[..2][..1] == [schedule[0]];
    assert Room(true, schedule[..1]) + Room(false, schedule[..1]) == schedule[0].count;
  }

  lemma NothingPolled(schedule: seq<Chunk>, up: nat, down: nat)
    ensures Polled(schedule, 0, up, down, 0, 0)
  {
  }

  lemma PollCarries(schedule: seq<Chunk>, k: nat, up: nat, down: nat, u: nat, d: nat)
    requires k < |schedule| && Polled(schedule, k, up, down, u, d) && (if schedule[k].Up? then u < up else d < down)
    ensures if schedule[k].Up? then Polled(schedule, k + 1, up, down, u + Least(up - u, schedule[k].count), d)
            else Polled(schedule, k + 1, up, down, u, d + Least(down - d, schedule[k].count))
  {
    assert schedule[..k + 1][..k] == schedule[..k];
  }

  lemma PollEnds(schedule: seq<Chunk>, k: nat, up: nat, down: nat, u: nat, d: nat)
    requires Polled(schedule, k, up, down, u, d)
    requires k < |schedule| ==> if schedule[k].Up? then u == up else d == down
    ensures Carries(schedule, k, up, down, u, d,
                    if k == |schedule| then Broken else if schedule[k].Up? then ClientDone else DestDone)
  {
  }

  /** One poll of one copy: as many bytes as it has room for, or all there are. */
  method CopyChunk(from: Stream, to: Stream, count: nat) returns (ghost k: nat)
    requires from != to
    modifies from`incoming, to`sent
    ensures k == Least(|old(from.incoming)|, count)
    ensures from.incoming == old(from.incoming)[k..] && to.sent == old(to.sent) + old(from.incoming)[..k]
  {
    var n := Least(|from.incoming|, count);
    k := n;
    var bytes := from.ReadExact(n);
    to.WriteAll(bytes.value);
  }

  lemma OneMoreChunk(s: seq<byte>, n: nat, k: nat)
    requires n + k <= |s|
    ensures s[..n] + s[n..][..k] == s[..n + k] && s[n..][k..] == s[n + k..]
  {
  }

  /** `relay`: chunks are copied both ways, in the order and sizes the scheduler picks, until a copy
      whose side has no more to give is polled, or one fails (the schedule is over). The ghost results
      say how many polls were made, how many bytes each direction carried and which way it ended:
      without an error, one direction has been carried completely, and what is left of the other is
      lost. */
  method Relay(client: Stream, dest: Stream, schedule: seq<Chunk>)
    returns (ghost polled: nat, ghost up: nat, ghost down: nat, ghost end: RelayEnd)
    requires client != dest
    modifies client, dest
    ensures Carries(schedule, polled, |old(client.incoming)|, |old(dest.incoming)|, up, down, end)
    ensures client.incoming == old(client.incoming)[up..] && dest.sent == old(dest.sent) + old(client.incoming)[..up]
    ensures dest.incoming == old(dest.incoming)[down..] && client.sent == old(client.sent) + old(dest.incoming)[..down]
    ensures up <= |old(client.incoming)| && down <= |old(dest.incoming)| && end != Flowing
    ensures end == ClientDone ==> up == |old(client.incoming)|
    ensures end == DestDone ==> down == |old(dest.incoming)|
  {
    hide Room, Polled, Carries;
    up, down, end := 0, 0, Broken;
    ghost var cin, din := client.incoming, dest.incoming;
    NothingPolled(schedule, |cin|, |din|);
    for i := 0 to |schedule|
      invariant up <= |cin| && down <= |din| && Polled(schedule, i, |cin|, |din|, up, down)
      invariant client.incoming == cin[up..] && dest.sent == old(dest.sent) + cin[..up] && end == Broken
      invariant dest.incoming == din[down..] && client.sent == old(client.sent) + din[..down]
    {
      match schedule[i]
      case Up(count) =>
        if client.incoming == [] {
          PollEnds(schedule, i, |cin|, |din|, up, down);
          return i, up, down, ClientDone;
        }
        PollCarries(schedule, i, |cin|, |din|, up, down);
        ghost var k := CopyChunk(client, dest, count);
        OneMoreChunk(cin, up, k);
        up := up + k;
      case Down(count) =>
        if dest.incoming == [] {
          PollEnds(schedule, i, |cin|, |din|, up, down);
          return i, up, down, DestDone;
        }
        PollCarries(schedule, i, |cin|, |din|, up, down);
        ghost var k := CopyChunk(dest, client, count);
        OneMoreChunk(din, down, k);
        down := down + k;
    }
    polled := |schedule|;
    PollEnds(schedule, polled, |cin|, |din|, up, down);
  }

  method Socks5ReplyWithBind(rep: byte, addr: Socks.SocketAddr) returns (buf: seq<byte>)
    ensures buf == Socks.BoundReply(rep, addr)
  {
    buf := [Socks.VERSION, rep, 0];
    match addr {
      case SockV4(ip, p) =>
        buf := buf + [Socks.ATYP_IPV4];
        buf := buf + ip;
        buf := buf + PortBytes(p);
      case SockV6(ip, p) =>
        buf := buf + [Socks.ATYP_IPV6];
        buf := buf + ip;
        buf := buf + PortBytes(p);
    }
  }

  /** Whether the outbound connection comes about: the TCP connect succeeds, and an upstream also
      accepts the handshake for a name it can be asked for. */
  ghost predicate Connects(cfg: Config, t: Target, c: Connect, destIn: seq<byte>) {
    && c.Connected?
    && (Routed(cfg, t) == Upstream ==> |t.name| <= 255 && exists n :: UpstreamAccepts(destIn, n))
  }

  ghost predicate RelayedBy(cfg: Config, e: Entry, t: Target, payload: seq<byte>, destIn: seq<byte>, schedule: seq<Chunk>,
                            polled: nat, up: nat, start: nat, reply: seq<byte>, down: nat, end: RelayEnd,
                            clientLeft: seq<byte>, clientGot: seq<byte>, destLeft: seq<byte>, destGot: seq<byte>)
  {
    && start <= |destIn| && Carries(schedule, polled, |payload|, |destIn| - start, up, down, end)
    && up <= |payload| && clientLeft == payload[up..]
    && start + down <= |destIn| && destLeft == destIn[start + down..]
    && Announced(cfg, destIn, e, t, start, reply)
    && destGot == OwnHandshake(cfg, t) + payload[..up]
    && clientGot == reply + destIn[start..start + down]
    && end != Flowing && (end == ClientDone ==> clientLeft == []) && (end == DestDone ==> destLeft == [])
  }

  /** `clientLeft`, `clientGot`, `destLeft` and `destGot` are what is unread and what has been
      written after a connection for `t` came about behind the client's stream `payload`. The schedule
      decides how much, and one direction has been carried completely, unless a copy failed. */
  ghost predicate Relayed(cfg: Config, e: Entry, t: Target, payload: seq<byte>, destIn: seq<byte>, schedule: seq<Chunk>,
                          clientLeft: seq<byte>, clientGot: seq<byte>, destLeft: seq<byte>, destGot: seq<byte>)
  {
    exists polled: nat, up: nat, start: nat, reply: seq<byte>, down: nat, end: RelayEnd ::
      RelayedBy(cfg, e, t, payload, destIn, schedule, polled, up, start, reply, down, end, clientLeft, clientGot, destLeft, destGot)
  }

  /** What the destination has been sent when no connection for `t` comes about. */
  function Asked(cfg: Config, t: Target, c: Connect, destIn: seq<byte>): seq<byte> {
    if c.ConnectError? || Routed(cfg, t) == Direct then [] else UpstreamHears(t, destIn)
  }

  /** The REP for it: the connect's own, or a general failure for anything the upstream does. */
  function FailureRep(cfg: Config, t: Target, c: Connect): byte {
    if c.ConnectError? then ConnectRep(Routed(cfg, t), c.error) else Socks.REP_GENERAL_FAILURE
  }

  ghost predicate Rejected(cfg: Config, e: Entry, t: Target, c: Connect, destIn: seq<byte>,
                           clientGot: seq<byte>, destGot: seq<byte>)
  {
    destGot == Asked(cfg, t, c, destIn) && clientGot == Refusal(e, FailureRep(cfg, t, c))
  }

  /** The outbound half: connect by the target's route. `told` is what the client is to hear, and
      on success `start` bytes of what the destination writes belong to its handshake. */
  method Establish(cfg: Config, e: Entry, t: Target, dest: Stream, c: Connect)
    returns (ok: bool, told: seq<byte>, ghost start: nat)
    requires dest.sent == []
    modifies dest
    ensures ok <==> Connects(cfg, t, c, old(dest.incoming))
    ensures if ok then
              && start <= |old(dest.incoming)| && dest.incoming == old(dest.incoming)[start..]
              && dest.sent == OwnHandshake(cfg, t) && Announced(cfg, old(dest.incoming), e, t, start, told)
            else Rejected(cfg, e, t, c, old(dest.incoming), told, dest.sent)
  {
    start := 0;
    if Routed(cfg, t) == Direct {
      match c
      case ConnectError(err) =>
        ok, told := false, Refusal(e, ConnectRep(Direct, err));
      case Connected(bind) =>
        ok := true;
        if e == Socks5 { told := Socks5ReplyWithBind(Socks.REP_SUCCESS, bind); } else { told := Http.Established(); }
    } else {
      match c
      case ConnectError(err) =>
        ok, told := false, Refusal(e, ConnectRep(Upstream, err));
      case Connected(_) =>
        var reply := ConnectUpstreamStream(t, dest);
        ok := reply.Some?;
        if ok {
          start := 2 + |reply.value|;
          told := if e == Socks5 then reply.value else Http.Established();
        } else {
          told := Refusal(e, Socks.REP_GENERAL_FAILURE);
        }
    }
  }

  /** What a connection comes to behind an opening that asks for `t`. */
  ghost predicate ServedAs(cfg: Config, e: Entry, t: Target, c: Connect, payload: seq<byte>, destIn: seq<byte>,
                           schedule: seq<Chunk>, ok: bool, clientLeft: seq<byte>, clientGot: seq<byte>, destLeft: seq<byte>, destGot: seq<byte>)
  {
    && (ok <==> Connects(cfg, t, c, destIn))
    && if ok then Relayed(cfg, e, t, payload, destIn, schedule, clientLeft, clientGot, destLeft, destGot)
       else Rejected(cfg, e, t, c, destIn, clientGot, destGot)
  }

  /** What `handle_client_inner` and `handle_http_connect` do with a target: connect by its route,
      tell the client, relay. The two protocols differ only in what the client is told. */
  method Serve(cfg: Config, e: Entry, t: Target, client: Stream, dest: Stream, c: Connect, schedule: seq<Chunk>)
    returns (ok: bool)
    requires client != dest && dest.sent == []
    modifies client, dest
    ensures old(client.sent) <= client.sent
    ensures ServedAs(cfg, e, t, c, old(client.incoming), old(dest.incoming), schedule, ok,
                     client.incoming, client.sent[|old(client.sent)|..], dest.incoming, dest.sent)
  {
    hide Connects, Announced, OwnHandshake, Asked, FailureRep, Carries;
    ghost var cin, csent, din := client.incoming, client.sent, dest.incoming;
    var told: seq<byte>;
    ghost var start: nat;
    ok, told, start := Establish(cfg, e, t, dest, c);
    client.WriteAll(told);
    if ok {
      ghost var polled, up, down, end := Relay(client, dest, schedule);
      ghost var carried := din[start..start + down];
      assert carried == din[start..][..down];
      assert client.sent == csent + (told + carried);
      assert client.sent[|csent|..] == told + carried;
      assert RelayedBy(cfg, e, t, cin, din, schedule, polled, up, start, told, down, end,
                       client.incoming, told + carried, dest.incoming, dest.sent);
    } else {
      assert client.sent[|csent|..] == told;
    }
  }

  method HandleHttpConnect(cfg: Config, client: Stream, dest: Stream, c: Connect, schedule: seq<Chunk>) returns (ok: bool)
    requires client != dest && client.sent == [] && dest.sent == []
    modifies client, dest
    ensures match ReadHead(cfg, old(client.incoming))
            case NeedMore => !ok && dest.sent == [] && client.sent == []
            case Fail(_, reply) => !ok && dest.sent == [] && client.sent == reply
            case Done(t, n) =>
              ServedAs(cfg, HttpConnect, t, c, old(client.incoming)[n..], old(dest.incoming), schedule, ok,
                       client.incoming, client.sent, dest.incoming, dest.sent)
  {
    hide ServedAs, Http.ScanHead, Http.ParseConnectTarget;
    ghost var s := client.incoming;
    var head := ReadHttpHead(client);
    if head.None? { return false; }
    match Http.ParseConnectTarget(head.value, cfg.parseV6)
    case Err(e) =>
      client.WriteAll(Http.BadRequest(e));
      ok := false;
    case Ok(t) =>
      ok := Serve(cfg, HttpConnect, t, client, dest, c, schedule);
      assert client.sent[0..] == client.sent;
  }

  /** What the client has been told while its opening is incomplete. */
  function SaidSoFar(stream: seq<byte>): seq<byte> {
    if Socks.ParseGreeting(stream).Done? then Socks.GREETING_OK else []
  }

  /** The SOCKS5 path of `handle_client_inner`. */
  method HandleSocks(cfg: Config, client: Stream, dest: Stream, c: Connect, schedule: seq<Chunk>) returns (ok: bool)
    requires client != dest && client.sent == [] && dest.sent == []
    modifies client, dest
    ensures match ReadSocks(old(client.incoming))
            case NeedMore => !ok && dest.sent == [] && client.sent == SaidSoFar(old(client.incoming))
            case Fail(_, reply) => !ok && dest.sent == [] && client.sent == reply
            case Done(t, n) =>
              && Socks.GREETING_OK <= client.sent
              && ServedAs(cfg, Socks5, t, c, old(client.incoming)[n..], old(dest.incoming), schedule, ok,
                          client.incoming, client.sent[2..], dest.incoming, dest.sent)
  {
    hide ServedAs, Socks.ParseGreeting, Socks.ParseRequest;
    ghost var s := client.incoming;
    ok := ClientGreeting(client);
    if !ok { return; }
    ghost var n := Socks.ParseGreeting(s).used;
    var t := ClientRequest(client);
    if t.None? { return false; }
    ghost var k := Socks.ParseRequest(s[n..]).used;
    assert s[n..][k..] == s[n + k..];
    assert client.sent == Socks.GREETING_OK;
    ok := Serve(cfg, Socks5, t.value, client, dest, c, schedule);
  }

  /** `Open`'s verdict on the client's stream decides what everyone gets to see. */
  ghost predicate Handled(cfg: Config, clientIn: seq<byte>, destIn: seq<byte>, c: Connect, schedule: seq<Chunk>, ok: bool,
                          clientLeft: seq<byte>, clientGot: seq<byte>, destLeft: seq<byte>, destGot: seq<byte>)
  {
    match Open(cfg, clientIn)
    case NeedMore => !ok && destGot == [] && clientGot == SaidSoFar(clientIn)
    case Fail(_, reply) => !ok && destGot == [] && clientGot == reply
    case Done((e, t), n) =>
      && n <= |clientIn| && Preamble(e) <= clientGot
      && ServedAs(cfg, e, t, c, clientIn[n..], destIn, schedule, ok, clientLeft, clientGot[|Preamble(e)|..], destLeft, destGot)
  }

  /** One client connection from its first byte on: the first byte, which stays in the stream, picks
      the protocol. */
  method HandleClient(cfg: Config, client: Stream, dest: Stream, c: Connect, schedule: seq<Chunk>) returns (ok: bool)
    requires client != dest && client.sent == [] && dest.sent == []
    modifies client, dest
    ensures Handled(cfg, old(client.incoming), old(dest.incoming), c, schedule, ok,
                    client.incoming, client.sent, dest.incoming, dest.sent)
  {
    hide ServedAs, ReadHead, ReadSocks;
    if client.incoming == [] { return false; }
    var first := client.incoming[0];
    if first == Socks.VERSION {
      ok := HandleSocks(cfg, client, dest, c, schedule);
    } else if IsLetter(first) {
      ok := HandleHttpConnect(cfg, client, dest, c, schedule);
      assert client.sent[0..] == client.sent;
    } else {
      assert Socks.ParseGreeting(client.incoming).Fail?;
      ok := false;
    }
  }
}
