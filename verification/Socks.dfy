/** SOCKS5 messages (sections 3 to 6 of RFC 1928) as this program reads and writes them: the
    server's two readers, the client's request writer, and the reply reader that the upstream
    client and the probe share. Each reader is a function of the bytes that have arrived. */
module Socks {
  import opened Bytes
  import opened Domains

  const VERSION: byte := 5
  const AUTH_NONE: byte := 0
  const CMD_CONNECT: byte := 1
  const ATYP_IPV4: byte := 1
  const ATYP_DOMAIN: byte := 3
  const ATYP_IPV6: byte := 4

  const REP_SUCCESS: byte := 0
  const REP_GENERAL_FAILURE: byte := 1
  const REP_NET_UNREACHABLE: byte := 3
  const REP_HOST_UNREACHABLE: byte := 4
  const REP_CONN_REFUSED: byte := 5
  const REP_CMD_NOT_SUPPORTED: byte := 7
  const REP_ATYP_NOT_SUPPORTED: byte := 8

  const GREETING: seq<byte> := [VERSION, 1, AUTH_NONE]
  const GREETING_OK: seq<byte> := [VERSION, AUTH_NONE]

  /** `socks5_reply`: a reply carrying the unspecified IPv4 bind address. */
  function SimpleReply(rep: byte): seq<byte> {
    [VERSION, rep, 0, ATYP_IPV4, 0, 0, 0, 0, 0, 0]
  }

  datatype SocketAddr = SockV4(v4: V4, port: port) | SockV6(v6: V6, port: port)

  /** What `socks5_reply_with_bind` builds. */
  function BoundReply(rep: byte, addr: SocketAddr): seq<byte> {
    match addr
    case SockV4(ip, p) => [VERSION, rep, 0, ATYP_IPV4] + ip + PortBytes(p)
    case SockV6(ip, p) => [VERSION, rep, 0, ATYP_IPV6] + ip + PortBytes(p)
  }

  datatype ErrorKind = ConnectionRefused | AddrNotAvailable | ConnectionReset | TimedOut | OtherKind
  datatype IoError = IoError(kind: ErrorKind, rawOs: Option<int>)

  /** `rep_for_io_error`. No connection error is ever reported to the client as a success. */
  function RepForIoError(e: IoError): (rep: byte)
    ensures rep != REP_SUCCESS
  {
    match e.kind
    case ConnectionRefused => REP_CONN_REFUSED
    case AddrNotAvailable => REP_HOST_UNREACHABLE
    case ConnectionReset => REP_HOST_UNREACHABLE
    case TimedOut => REP_HOST_UNREACHABLE
    case OtherKind =>
      if e.rawOs == Some(101) || e.rawOs == Some(51) then REP_NET_UNREACHABLE else REP_GENERAL_FAILURE
  }

  /** Which error a REP stands for, by the numbers of section 6 of RFC 1928. */
  lemma RepMeans(e: IoError)
    ensures RepForIoError(e) == 5 <==> e.kind == ConnectionRefused
    ensures RepForIoError(e) == 4 <==> e.kind in {AddrNotAvailable, ConnectionReset, TimedOut}
    ensures RepForIoError(e) == 3 <==> e.kind == OtherKind && e.rawOs in {Some(101), Some(51)}
    ensures RepForIoError(e) == 1 <==> e.kind == OtherKind && e.rawOs !in {Some(101), Some(51)}
  {
  }

  // ── Readers ────────────────────────────────────────────────────────────

  /** `client_greeting`: version, method count, methods. */
  function ParseGreeting(s: seq<byte>): (o: Outcome<()>)
    ensures o.NeedMore? || o.used <= |s|
  {
    if |s| < 1 then NeedMore
    else if s[0] != VERSION then Fail(1, SimpleReply(REP_GENERAL_FAILURE))
    else if |s| < 2 || |s| < 2 + s[1] as int then NeedMore
    else if AUTH_NONE !in s[2..2 + s[1] as int] then Fail(2 + s[1] as int, [VERSION, 0xFF])
    else Done((), 2 + s[1] as int)
  }

  function ParseName(s: seq<byte>): (o: Outcome<Target>)
    requires |s| >= 5
    ensures o.NeedMore? || o.used <= |s|
  {
    var end := 5 + s[4] as int;
    if |s| < end then NeedMore
    else if !ValidUtf8(s[5..end]) then Fail(end, [])
    else if |s| < end + 2 then NeedMore
    else Done(Domain(s[5..end], PortOf(s[end], s[end + 1])), end + 2)
  }

  /** `client_request`. The command is only looked at once the address type has been read, the
      name's UTF-8 only once the whole name has been read and before the port is. */
  function ParseRequest(s: seq<byte>): (o: Outcome<Target>)
    ensures o.NeedMore? || o.used <= |s|
  {
    if |s| < 1 then NeedMore
    else if s[0] != VERSION then Fail(1, SimpleReply(REP_GENERAL_FAILURE))
    else if |s| < 4 then NeedMore
    else if s[1] != CMD_CONNECT then Fail(4, SimpleReply(REP_CMD_NOT_SUPPORTED))
    else if s[3] == ATYP_IPV4 then
      if |s| < 10 then NeedMore else Done(Ipv4(s[4..8], PortOf(s[8], s[9])), 10)
    else if s[3] == ATYP_DOMAIN then
      if |s| < 5 then NeedMore
      else if s[4] == 0 then Fail(5, SimpleReply(REP_GENERAL_FAILURE))
      else ParseName(s)
    else if s[3] == ATYP_IPV6 then
      if |s| < 22 then NeedMore else Done(Ipv6(s[4..20], PortOf(s[20], s[21])), 22)
    else Fail(4, SimpleReply(REP_ATYP_NOT_SUPPORTED))
  }

  /** How many bytes a reply takes, read as the clients read it: four header bytes, then a tail
      that the address type sizes. */
  function ParseReply(s: seq<byte>): (o: Outcome<seq<byte>>)
    ensures o.NeedMore? || o.used <= |s|
    ensures o.Done? ==> 7 <= o.used == |o.value| && o.value == s[..o.used]
  {
    if |s| < 4 then NeedMore
    else if s[3] == ATYP_IPV4 then
      if |s| < 10 then NeedMore else Done(s[..10], 10)
    else if s[3] == ATYP_IPV6 then
      if |s| < 22 then NeedMore else Done(s[..22], 22)
    else if s[3] == ATYP_DOMAIN then
      if |s| < 5 || |s| < 7 + s[4] as int then NeedMore else Done(s[..7 + s[4] as int], 7 + s[4] as int)
    else Fail(4, [])
  }

  // ── Writers ────────────────────────────────────────────────────────────

  /** The CONNECT request both clients write: always the domain form. */
  function ConnectRequest(name: Text, p: port): seq<byte>
    requires |name| <= 255
  {
    [VERSION, CMD_CONNECT, 0, ATYP_DOMAIN, |name|] + name + PortBytes(p)
  }

  // ── What the readers promise ───────────────────────────────────────────

  /** `o` is the verdict on `s` and stays the verdict whatever arrives later. */
  ghost predicate Settled<T(!new)>(read: seq<byte> -> Outcome<T>, s: seq<byte>, t: seq<byte>) {
    !read(s).NeedMore? ==> read(s + t) == read(s)
  }

  /** A reader never looks past what it takes, so bytes pipelined behind a message cannot change it. */
  lemma GreetingSettled(s: seq<byte>, t: seq<byte>)
    ensures Settled(ParseGreeting, s, t)
  {
    if |s| >= 2 && |s| >= 2 + s[1] as int {
      assert (s + t)[2..2 + s[1] as int] == s[2..2 + s[1] as int];
    }
  }

  lemma RequestSettled(s: seq<byte>, t: seq<byte>)
    ensures Settled(ParseRequest, s, t)
  {
    var u := s + t;
    if |s| >= 10 { assert u[4..8] == s[4..8]; }
    if |s| >= 22 { assert u[4..20] == s[4..20]; }
    if |s| >= 5 && |s| >= 5 + s[4] as int { assert u[5..5 + s[4] as int] == s[5..5 + s[4] as int]; }
  }

  lemma ReplySettled(s: seq<byte>, t: seq<byte>)
    ensures Settled(ParseReply, s, t)
  {
    var u := s + t;
    match ParseReply(s)
    case Done(_, n) => assert u[..n] == s[..n];
    case _ =>
  }

  /** The targets a request or a reply can carry. */
  predicate Addressable(t: Target) {
    t.Domain? ==> |t.name| <= 255
  }

  /** ATYP, address and port as section 5 of RFC 1928 lays them out, with its own numbers. */
  function Address(t: Target): seq<byte>
    requires Addressable(t)
  {
    match t
    case Ipv4(a, p) => [1] + a + PortBytes(p)
    case Domain(name, p) => [3, |name|] + name + PortBytes(p)
    case Ipv6(a, p) => [4] + a + PortBytes(p)
  }

  /** A request with command `code`, or a reply with REP `code`: sections 4 and 6 of RFC 1928. */
  function Message(code: byte, t: Target): seq<byte>
    requires Addressable(t)
  {
    [5, code, 0] + Address(t)
  }

  /** What a server can be asked for: a name must not be empty and must be UTF-8. */
  predicate Requestable(t: Target) {
    Addressable(t) && (t.Domain? ==> t.name != [] && ValidUtf8(t.name))
  }

  /** A message, cut where the readers cut it. */
  lemma Cut(a: seq<byte>, b: seq<byte>, c: seq<byte>, rest: seq<byte>)
    ensures var s, end := a + b + c + rest, |a| + |b|;
            |s| >= end + |c| && s[..|a|] == a && s[|a|..end] == b && s[end..end + |c|] == c
  {
  }

  lemma AddressOfNumber(t: Target)
    requires !t.Domain?
    ensures var number: seq<byte> := if t.Ipv4? then t.v4 else t.v6;
            Address(t) == [if t.Ipv4? then 1 else 4] + number + PortBytes(t.port)
  {
  }

  lemma NumberParts(head: seq<byte>, t: Target, rest: seq<byte>)
    requires |head| == 3 && !t.Domain?
    ensures var s := head + Address(t) + rest;
            && |s| >= 10 && s[0] == head[0] && s[1] == head[1] && s[2] == head[2]
            && if t.Ipv4? then s[3] == 1 && s[4..8] == t.v4 && s[8..10] == PortBytes(t.port)
               else |s| >= 22 && s[3] == 4 && s[4..20] == t.v6 && s[20..22] == PortBytes(t.port)
  {
    hide PortBytes, Address;
    var kind: byte := if t.Ipv4? then 1 else 4;
    var number: seq<byte> := if t.Ipv4? then t.v4 else t.v6;
    var front := head + [kind];
    AddressOfNumber(t);
    Cut(front, number, PortBytes(t.port), rest);
    assert head + Address(t) + rest == front + number + PortBytes(t.port) + rest;
    assert front[..3] == head;
  }

  lemma NameParts(head: seq<byte>, t: Target, rest: seq<byte>)
    requires |head| == 3 && Addressable(t) && t.Domain?
    ensures var s, end := head + Address(t) + rest, 5 + |t.name|;
            && |s| >= end + 2 && s[0] == head[0] && s[1] == head[1] && s[2] == head[2]
            && s[3] == 3 && s[4] == |t.name| && s[5..end] == t.name && s[end..end + 2] == PortBytes(t.port)
  {
    hide PortBytes;
    var front := head + [3, |t.name|];
    Cut(front, t.name, PortBytes(t.port), rest);
    assert head + Address(t) + rest == front + t.name + PortBytes(t.port) + rest;
    assert front[..3] == head;
  }

  lemma AddressLength(t: Target)
    requires Addressable(t)
    ensures |Address(t)| == match t
                            case Ipv4(_, _) => 7
                            case Domain(name, _) => 4 + |name|
                            case Ipv6(_, _) => 19
  {
  }

  /** The server reads back exactly the target a client asked for, of any address type, whatever
      follows the request ... */
  lemma RequestRoundTrip(t: Target, rest: seq<byte>)
    requires Requestable(t)
    ensures ParseRequest(Message(1, t) + rest) == Done(t, |Message(1, t)|)
  {
    hide Address, ValidUtf8;
    var s := Message(1, t) + rest;
    if t.Domain? { NameParts([5, 1, 0], t, rest); } else { NumberParts([5, 1, 0], t, rest); }
    AddressLength(t);
    match t
    case Ipv4(_, p) => assert s[8] == s[8..10][0] && s[9] == s[8..10][1];
    case Domain(name, p) =>
      var end := 5 + |name|;
      assert s[end] == s[end..end + 2][0] && s[end + 1] == s[end..end + 2][1];
    case Ipv6(_, p) => assert s[20] == s[20..22][0] && s[21] == s[20..22][1];
  }

  lemma NameReencodes(s: seq<byte>)
    requires ParseRequest(s).Done? && ParseRequest(s).value.Domain?
    ensures var Done(t, n) := ParseRequest(s);
            Requestable(t) && 4 <= n <= |s| && Address(t) == s[3..n]
  {
    hide ValidUtf8;
    var Done(t, n) := ParseRequest(s);
    PortOfBytes(s[n - 2], s[n - 1]);
    assert s[n - 2..n] == PortBytes(t.port);
    assert s[3..n] == [s[3], s[4]] + s[5..n - 2] + s[n - 2..n];
  }

  lemma NumbersReencode(s: seq<byte>)
    requires ParseRequest(s).Done? && !ParseRequest(s).value.Domain?
    ensures var Done(t, n) := ParseRequest(s);
            4 <= n <= |s| && Address(t) == s[3..n]
  {
    hide ValidUtf8;
    var Done(t, n) := ParseRequest(s);
    PortOfBytes(s[n - 2], s[n - 1]);
    assert s[n - 2..n] == PortBytes(t.port);
    assert s[3..n] == [s[3]] + s[4..n - 2] + s[n - 2..n];
  }

  lemma AcceptedHead(s: seq<byte>)
    requires ParseRequest(s).Done?
    ensures |s| >= 4 && s[0] == 5 && s[1] == 1
  {
    hide ValidUtf8, ParseName;
  }

  /** ... and accepts nothing else: whatever it accepts is, with RSV zeroed, the request for the target
      it returns. */
  lemma RequestReencodes(s: seq<byte>)
    requires ParseRequest(s).Done?
    ensures var Done(t, n) := ParseRequest(s);
            Requestable(t) && 4 <= n <= |s| && Message(1, t) == s[..n][2 := 0]
  {
    hide ValidUtf8, ParseRequest, Address;
    AcceptedHead(s);
    if ParseRequest(s).value.Domain? { NameReencodes(s); } else { NumbersReencode(s); }
    var n := ParseRequest(s).used;
    assert s[..n][2 := 0] == [s[0], s[1], 0] + s[3..n];
  }

  /** What both of the program's clients write is the request for the name. */
  lemma ConnectRequestIsMessage(name: Text, p: port)
    requires |name| <= 255
    ensures ConnectRequest(name, p) == Message(1, Domain(name, p))
  {
  }

  /** Whole request headers that are refused, and with which REP: another command, whatever the address
      type, an unknown address type, an empty name. */
  lemma HeaderVerdict(cmd: byte, rsv: byte, atyp: byte, rest: seq<byte>)
    ensures var o := ParseRequest([5, cmd, rsv, atyp] + rest);
            if cmd != 1 then o == Fail(4, SimpleReply(7))
            else if atyp != 1 && atyp != 3 && atyp != 4 then o == Fail(4, SimpleReply(8))
            else if atyp == 3 && rest != [] && rest[0] == 0 then o == Fail(5, SimpleReply(1))
            else o.Fail? ==> atyp == 3 && o.reply == []
  {
    hide ValidUtf8;
  }

  /** A name that is not UTF-8 is refused without an answer, as soon as it has been read. */
  lemma BadNameIsRefused(name: Text, rsv: byte, rest: seq<byte>)
    requires 1 <= |name| <= 255 && !ValidUtf8(name)
    ensures ParseRequest([5, 1, rsv, 3, |name|] + name + rest) == Fail(5 + |name|, [])
  {
    hide ValidUtf8;
    assert ([5, 1, rsv, 3, |name|] + name + rest)[5..5 + |name|] == name;
  }

  /** A client's greeting: any list of methods. */
  function Greet(methods: seq<byte>): seq<byte>
    requires |methods| <= 255
  {
    [VERSION, |methods|] + methods
  }

  /** Whatever methods a client offers and whatever it sends behind them, the server takes exactly its
      greeting, accepts it iff "no authentication" is among them, and refuses it as section 3 of
      RFC 1928 says otherwise. */
  lemma GreetingVerdict(methods: seq<byte>, rest: seq<byte>)
    requires |methods| <= 255
    ensures ParseGreeting(Greet(methods) + rest)
            == if AUTH_NONE in methods then Done((), |Greet(methods)|) else Fail(|Greet(methods)|, [VERSION, 0xFF])
  {
    var s := Greet(methods) + rest;
    assert s[2..2 + |methods|] == methods;
  }

  /** A greeting or request of another version is refused at its first byte. */
  lemma OtherVersionIsRefused(version: byte, rest: seq<byte>)
    requires version != 5
    ensures ParseGreeting([version] + rest) == Fail(1, SimpleReply(1))
    ensures ParseRequest([version] + rest) == Fail(1, SimpleReply(1))
  {
  }

  lemma GreetingAccepted(rest: seq<byte>)
    ensures ParseGreeting(GREETING + rest) == Done((), 3)
  {
    GreetingVerdict([AUTH_NONE], rest);
    assert Greet([AUTH_NONE]) == GREETING;
  }

  /** A reply of any address type is read back whole, whatever follows. */
  lemma ReplyRoundTrip(rep: byte, t: Target, rest: seq<byte>)
    requires Addressable(t)
    ensures ParseReply(Message(rep, t) + rest) == Done(Message(rep, t), |Message(rep, t)|)
  {
    hide Address;
    var m := Message(rep, t);
    if t.Domain? { NameParts([5, rep, 0], t, rest); } else { NumberParts([5, rep, 0], t, rest); }
    AddressLength(t);
    assert (m + rest)[..|m|] == m;
  }

  function AsTarget(addr: SocketAddr): Target {
    match addr
    case SockV4(ip, p) => Ipv4(ip, p)
    case SockV6(ip, p) => Ipv6(ip, p)
  }

  const NOWHERE: Target := Ipv4([0, 0, 0, 0], 0)

  lemma SimpleIsMessage(rep: byte)
    ensures SimpleReply(rep) == Message(rep, NOWHERE)
  {
    hide ValidUtf8;
    var a: seq<byte> := [0, 0, 0, 0];
    assert Address(NOWHERE) == [1] + a + [0, 0];
  }

  /** Both replies the proxy makes up are such replies. */
  lemma SimpleReplyIsReply(rep: byte, rest: seq<byte>)
    ensures SimpleReply(rep) == Message(rep, NOWHERE)
    ensures ParseReply(SimpleReply(rep) + rest) == Done(SimpleReply(rep), 10)
  {
    hide ParseReply, Message;
    SimpleIsMessage(rep);
    ReplyRoundTrip(rep, NOWHERE, rest);
  }

  lemma BoundReplyIsReply(rep: byte, addr: SocketAddr, rest: seq<byte>)
    ensures BoundReply(rep, addr) == Message(rep, AsTarget(addr))
    ensures ParseReply(BoundReply(rep, addr) + rest) == Done(BoundReply(rep, addr), |BoundReply(rep, addr)|)
  {
    assert BoundReply(rep, addr) == Message(rep, AsTarget(addr));
    ReplyRoundTrip(rep, AsTarget(addr), rest);
  }

  /** A reply carries its own length, so a reader stops behind it whatever follows. */
  lemma ReplyIsSelfDelimiting(s: seq<byte>, rest: seq<byte>)
    requires ParseReply(s).Done?
    ensures var v := ParseReply(s).value;
            |v| == ParseReply(s).used && ParseReply(v + rest) == ParseReply(s)
  {
    var v := ParseReply(s).value;
    assert (v + rest)[..|v|] == v;
  }

  function WithVersion(o: Outcome<seq<byte>>, version: byte): Outcome<seq<byte>>
    requires o.Done? ==> o.value != []
  {
    match o
    case Done(value, n) => Done(value[0 := version], n)
    case _ => o
  }

  /** Nobody looks at the version byte of a reply, nor at its reserved byte: with any other version in
      its place a reply reads the same, carries the same REP and ends at the same byte. */
  lemma ReplyVersionIsIgnored(s: seq<byte>, version: byte, rsv: byte)
    requires s != []
    ensures ParseReply(s[0 := version]) == WithVersion(ParseReply(s), version)
    ensures |s| > 2 ==>
              match (ParseReply(s), ParseReply(s[2 := rsv]))
              case (Done(v, n), Done(v', n')) => n == n' && v' == v[2 := rsv]
              case (a, b) => a == b
  {
    match ParseReply(s)
    case Done(v, n) =>
      assert s[0 := version][..n] == v[0 := version];
      assert s[2 := rsv][..n] == v[2 := rsv];
    case _ =>
  }
}
