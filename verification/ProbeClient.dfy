/** The probe's client end of the handshake, read by read, and its agreement with the probe that
    `ProbeSystem` runs against the proxy. */
module ProbeClient {
  import opened Bytes
  import opened Domains
  import opened Streams
  import opened ProbeSystem
  import opened ProbeTargets
  import Opening
  import Socks
  import Routing

  /** What the probe concludes from everything the proxy ever writes to it. */
  function Conclusion(t: ProbeTarget, fromProxy: seq<byte>): Verdict {
    if |fromProxy| < 2 then Disconnected
    else if fromProxy[..2] != Socks.GREETING_OK then BadMethod
    else if |t.host| > 255 then NameTooLong
    else
      match Socks.ParseReply(fromProxy[2..])
      case NeedMore => Disconnected
      case Fail(_, _) => BadAddressType
      case Done(reply, _) => if reply[1] == Socks.REP_SUCCESS then Reached else Refused(reply[1])
  }

  method Socks5ConnectViaRouting(t: ProbeTarget, stream: Stream) returns (v: Verdict)
    modifies stream
    ensures v == Conclusion(t, old(stream.incoming))
    ensures stream.sent == old(stream.sent)
                           + if Socks.GREETING_OK <= old(stream.incoming) && |t.host| <= 255 then AllSent(t) else Socks.GREETING
  {
    ghost var s := stream.incoming;
    stream.WriteAll(Socks.GREETING);
    var choice := stream.ReadExact(2);
    if choice.None? { return Disconnected; }
    if choice.value[0] != Socks.VERSION || choice.value[1] != Socks.AUTH_NONE { return BadMethod; }
    assert s[..2] == Socks.GREETING_OK;
    if |t.host| > 255 { return NameTooLong; }
    stream.WriteAll(Socks.ConnectRequest(t.host, t.port));
    assert stream.sent == old(stream.sent) + AllSent(t);
    var reply := Routing.ReadReplyBytes(stream);
    match reply
    case NeedMore => v := Disconnected;
    case Fail(_, _) => v := BadAddressType;
    case Done(bytes, _) => v := if bytes[1] == Socks.REP_SUCCESS then Reached else Refused(bytes[1]);
  }

  /** Whatever server answers: one that picks "no authentication" and replies, with any address and
      whatever follows, decides the verdict by its REP; one that picks anything else is not asked. */
  lemma {:induction false} AnswerDecides(t: ProbeTarget, method_: byte, rep: byte, bind: Target, rest: seq<byte>)
    requires |t.host| <= 255 && Socks.Addressable(bind)
    ensures Conclusion(t, [5, method_] + Socks.Message(rep, bind) + rest)
            == if method_ != 0 then BadMethod else if rep == 0 then Reached else Refused(rep)
  {
    hide Socks.ParseReply, Socks.Address;
    var s := [5, method_] + Socks.Message(rep, bind) + rest;
    assert s[..2] == [5, method_] && s[2..] == Socks.Message(rep, bind) + rest;
    Socks.ReplyRoundTrip(rep, bind, rest);
  }

  /** Against the proxy, whatever the interleaving, the verdict of a finished run is the conclusion
      from what the proxy wrote; for a name of at most 255 bytes it is Reached or Refused. */
  lemma {:induction false} RunConcludes(cfg: Opening.Config, t: ProbeTarget, moves: seq<PMove>)
    requires ValidUtf8(t.host) && PRun(cfg, t, moves).probe.Finished? && |t.host| <= 255
    ensures var ps := PRun(cfg, t, moves);
            && ps.probe.verdict == Conclusion(t, ps.sys.toClient)
            && (ps.probe.verdict == Reached || ps.probe.verdict.Refused?)
  {
    hide PRun;
    VerdictIsTheReply(cfg, t, moves);
  }
}
