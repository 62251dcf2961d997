/** What a client's byte stream opens a connection with: the SOCKS5 greeting and request, or the
    HTTP CONNECT head, as one reader of everything the client has sent so far. */
module Opening {
  import opened Bytes
  import opened Domains
  import Socks
  import Http

  datatype Entry = Socks5 | HttpConnect

  datatype Config = Config(direct: seq<Text>, proxy: seq<Text>, parseV6: Http.Ipv6Parser)

  function Routed(cfg: Config, t: Target): Route {
    RouteFor(t, cfg.direct, cfg.proxy)
  }

  predicate IsLetter(b: byte) {
    65 <= b <= 90 || 97 <= b <= 122
  }

  /** The head of an HTTP CONNECT request and the target it names. */
  function ReadHead(cfg: Config, s: seq<byte>): (o: Outcome<Target>)
    ensures o.NeedMore? || o.used <= |s|
  {
    match Http.ScanHead(s, 0)
    case NeedMore => NeedMore
    case Fail(n, reply) => Fail(n, reply)
    case Done(_, n) =>
      match Http.ParseConnectTarget(s[..n], cfg.parseV6)
      case Ok(t) => Done(t, n)
      case Err(e) => Fail(n, Http.BadRequest(e))
  }

  /** Greeting, then request: both replies a failure has written are part of its reply. */
  function ReadSocks(s: seq<byte>): (o: Outcome<Target>)
    ensures o.NeedMore? || o.used <= |s|
  {
    match Socks.ParseGreeting(s)
    case NeedMore => NeedMore
    case Fail(n, reply) => Fail(n, reply)
    case Done(_, n) =>
      match Socks.ParseRequest(s[n..])
      case NeedMore => NeedMore
      case Fail(k, reply) => Fail(n + k, Socks.GREETING_OK + reply)
      case Done(t, k) => Done(t, n + k)
  }

  function Tag(e: Entry, o: Outcome<Target>): Outcome<(Entry, Target)> {
    match o
    case NeedMore => NeedMore
    case Done(t, n) => Done((e, t), n)
    case Fail(n, reply) => Fail(n, reply)
  }

  /** The protocol is told apart by the first byte, which stays in the stream. */
  function Open(cfg: Config, s: seq<byte>): (o: Outcome<(Entry, Target)>)
    ensures o.NeedMore? || o.used <= |s|
  {
    if s == [] then NeedMore
    else if s[0] == Socks.VERSION then Tag(Socks5, ReadSocks(s))
    else if IsLetter(s[0]) then Tag(HttpConnect, ReadHead(cfg, s))
    else Fail(0, [])
  }

  lemma {:induction false} ReadHeadSettled(cfg: Config, s: seq<byte>, t: seq<byte>)
    ensures Socks.Settled(x => ReadHead(cfg, x), s, t)
  {
    Http.ScanHeadSettled(s, t, 0);
    match Http.ScanHead(s, 0)
    case Done(_, n) => assert (s + t)[..n] == s[..n];
    case _ =>
  }

  lemma {:induction false} ReadSocksSettled(s: seq<byte>, t: seq<byte>)
    ensures Socks.Settled(ReadSocks, s, t)
  {
    Socks.GreetingSettled(s, t);
    match Socks.ParseGreeting(s)
    case Done(_, n) =>
      Socks.RequestSettled(s[n..], t);
      assert (s + t)[n..] == s[n..] + t;
    case _ =>
  }

  /** Once a stream's opening is decided, nothing the client sends later changes it or where it ends. */
  lemma {:induction false} OpenSettled(cfg: Config, s: seq<byte>, t: seq<byte>)
    ensures Socks.Settled(x => Open(cfg, x), s, t)
  {
    ReadHeadSettled(cfg, s, t);
    ReadSocksSettled(s, t);
  }

  /** `[0x05, 1, 0]`, then the CONNECT request, when the target goes upstream; nothing otherwise.
      A name of more than 255 bytes, which only an HTTP client can ask for, has no request. */
  function OwnHandshake(cfg: Config, t: Target): seq<byte> {
    if Routed(cfg, t) == Upstream then
      Socks.GREETING + (if |t.name| <= 255 then Socks.ConnectRequest(t.name, t.port) else [])
    else []
  }
}
