/** The tunnel probe talking to the proxy: `socks5_connect_via_routing` as the client of
    `ProxySystem`, against an arbitrary destination or upstream. */
module ProbeSystem {
  import opened Bytes
  import opened Domains
  import opened Opening
  import opened ProbeTargets
  import opened ProxySystem
  import Socks

  datatype Verdict =
    | Reached
    | Refused(rep: byte)
    | BadMethod
    | NameTooLong
    | BadAddressType
    | Disconnected

  datatype Probe = AwaitMethod | AwaitReply | Finished(verdict: Verdict)

  /** `sending` is what is left of a `write_all`; the probe reads only once it is empty. */
  datatype PSys = PSys(sys: Sys, probe: Probe, sending: seq<byte>)

  const PSTART := PSys(START, AwaitMethod, Socks.GREETING)

  datatype PMove =
    | ProbeSends(count: nat)
    | ProbeReads
    | ProbeCloses
    | ProxyMoves(connect: Connect)
    | Elsewhere(move: Move)

  /** Moves of the destination and of the relay; everything the client does is the probe's doing. */
  predicate IsElsewhere(m: Move) {
    m.DestWrites? || m.DestCloses? || m.DestReads? || m.RelayUp? || m.RelayDown? || m.RelayEnds?
  }

  predicate HungUp(s: Sys) {
    s.phase.Failed? || (s.phase.Relaying? && s.phase.end != Flowing)
  }

  function Finish(ps: PSys, taken: nat, v: Verdict): PSys
    requires ps.sys.clientGot + taken <= |ps.sys.toClient|
  {
    PSys(ps.sys.(clientGot := ps.sys.clientGot + taken), Finished(v), [])
  }

  function ReadStep(t: ProbeTarget, ps: PSys): (r: PSys)
    requires Sound(ps.sys)
    ensures Sound(r.sys)
  {
    var pending := ps.sys.toClient[ps.sys.clientGot..];
    match ps.probe
    case AwaitMethod =>
      if |pending| < 2 then if HungUp(ps.sys) then Finish(ps, |pending|, Disconnected) else ps
      else if pending[..2] != Socks.GREETING_OK then Finish(ps, 2, BadMethod)
      else if |t.host| > 255 then Finish(ps, 2, NameTooLong)
      else PSys(ps.sys.(clientGot := ps.sys.clientGot + 2), AwaitReply, Socks.ConnectRequest(t.host, t.port))
    case AwaitReply =>
      (match Socks.ParseReply(pending)
       case NeedMore => if HungUp(ps.sys) then Finish(ps, |pending|, Disconnected) else ps
       case Fail(n, _) => Finish(ps, n, BadAddressType)
       case Done(reply, n) => Finish(ps, n, if reply[1] == Socks.REP_SUCCESS then Reached else Refused(reply[1])))
    case Finished(_) => ps
  }

  function PNext(cfg: Config, t: ProbeTarget, ps: PSys, m: PMove): (r: PSys)
    requires Sound(ps.sys)
    ensures Sound(r.sys)
  {
    match m
    case ProbeSends(k) =>
      if k <= |ps.sending| && !ps.probe.Finished? then
        ps.(sys := ps.sys.(clientOut := ps.sys.clientOut + ps.sending[..k]), sending := ps.sending[k..])
      else ps
    case ProbeReads => if ps.sending == [] then ReadStep(t, ps) else ps
    case ProbeCloses => if ps.probe.Finished? then ps.(sys := ps.sys.(clientEof := true)) else ps
    case ProxyMoves(c) => ps.(sys := Proxy(cfg, ps.sys, c))
    case Elsewhere(m') => if IsElsewhere(m') then ps.(sys := Next(cfg, ps.sys, m')) else ps
  }

  function PRun(cfg: Config, t: ProbeTarget, moves: seq<PMove>): (ps: PSys)
    ensures Sound(ps.sys)
  {
    if moves == [] then PSTART
    else PNext(cfg, t, PRun(cfg, t, moves[..|moves| - 1]), moves[|moves| - 1])
  }

  // ── The invariant ──────────────────────────────────────────────────────

  function AllSent(t: ProbeTarget): seq<byte>
    requires |t.host| <= 255
  {
    Socks.GREETING + Socks.ConnectRequest(t.host, t.port)
  }

  ghost predicate FinishedInv(t: ProbeTarget, s: Sys, v: Verdict)
  {
    if |t.host| > 255 then v == NameTooLong && s.clientOut == Socks.GREETING
    else
      && s.clientOut == AllSent(t)
      && match v
         case Reached => s.phase.Relaying? && s.clientGot == 2 + |s.phase.reply|
         case Refused(rep) => s.phase.Failed? && s.clientGot == |s.toClient| && rep != Socks.REP_SUCCESS
                              && s.toClient == Socks.GREETING_OK + Socks.SimpleReply(rep)
         case _ => false
  }

  ghost predicate PInv(cfg: Config, t: ProbeTarget, ps: PSys) {
    && Sound(ps.sys) && Inv(cfg, ps.sys)
    && match ps.probe
       case AwaitMethod =>
         !ps.sys.clientEof && ps.sys.clientOut + ps.sending == Socks.GREETING && ps.sys.clientGot == 0
       case AwaitReply =>
         && |t.host| <= 255 && !ps.sys.clientEof && ps.sys.clientOut + ps.sending == AllSent(t)
         && ps.sys.clientGot == 2
       case Finished(v) => FinishedInv(t, ps.sys, v)
  }

  lemma {:induction false} RequestArrives(t: ProbeTarget, s: seq<byte>)
    requires |t.host| <= 255 && ValidUtf8(t.host) && s <= Socks.ConnectRequest(t.host, t.port)
    ensures Socks.ParseRequest(s)
            == if t.host == [] && |s| >= 5 then Fail(5, Socks.SimpleReply(Socks.REP_GENERAL_FAILURE))
               else if t.host != [] && s == Socks.ConnectRequest(t.host, t.port) then Done(Domain(t.host, t.port), |s|)
               else NeedMore
  {
    var req := Socks.ConnectRequest(t.host, t.port);
    assert |req| == 7 + |t.host| && req[5..5 + |t.host|] == t.host;
    if s == req && t.host != [] {
      Socks.ConnectRequestIsMessage(t.host, t.port);
      Socks.RequestRoundTrip(Domain(t.host, t.port), []);
      assert req + [] == req;
    } else if |s| >= 5 + |t.host| {
      assert s[5..5 + |t.host|] == t.host;
    }
  }

  /** What the proxy makes of the probe's bytes while they arrive: blocked until the last one, then
      exactly the probe's target; an empty name is refused at its length byte. */
  lemma {:induction false} ProbeOpens(cfg: Config, t: ProbeTarget, stream: seq<byte>)
    requires |t.host| <= 255 && ValidUtf8(t.host) && stream <= AllSent(t)
    ensures Open(cfg, stream)
            == if t.host == [] && |stream| >= 8 then Fail(8, Socks.GREETING_OK + Socks.SimpleReply(Socks.REP_GENERAL_FAILURE))
               else if t.host != [] && stream == AllSent(t) then Done((Socks5, Domain(t.host, t.port)), |stream|)
               else NeedMore
  {
    var req := Socks.ConnectRequest(t.host, t.port);
    if |stream| >= 3 {
      assert stream == Socks.GREETING + stream[3..];
      assert stream[3..] <= req;
      Socks.GreetingAccepted(stream[3..]);
      RequestArrives(t, stream[3..]);
    } else {
      assert Socks.ParseGreeting(stream).NeedMore?;
    }
  }

  lemma {:induction false} GreetingArrives(cfg: Config, stream: seq<byte>)
    requires stream <= Socks.GREETING
    ensures Open(cfg, stream) == NeedMore
  {
    if stream == Socks.GREETING {
      assert stream[3..] == [] && stream + [] == stream;
      Socks.GreetingAccepted([]);
    } else {
      assert Socks.ParseGreeting(stream).NeedMore?;
    }
  }

  /** No other move touches what the probe has written or read, nor takes back a reply. */
  lemma ElsewhereKeepsClient(cfg: Config, s: Sys, m: Move)
    requires Sound(s) && IsElsewhere(m)
    ensures var r := Next(cfg, s, m);
            && r.clientOut == s.clientOut && r.clientEof == s.clientEof && r.clientGot == s.clientGot
            && (s.phase.Failed? ==> r.phase.Failed? && r.toClient == s.toClient)
            && (s.phase.Relaying? ==> r.phase.Relaying? && r.phase.reply == s.phase.reply)
  {
  }

  /** While the probe waits for the method choice, the proxy has said nothing or exactly "no authentication". */
  lemma {:induction false} MethodAnswer(cfg: Config, s: Sys)
    requires Inv(cfg, s) && !s.clientEof && s.clientOut <= Socks.GREETING
    ensures s.toClient == [] || s.toClient == Socks.GREETING_OK
    ensures !HungUp(s)
    ensures s.phase.Peeking? || s.phase.Greeting? || s.phase.Requesting?
    ensures s.phase.Requesting? ==> s.toClient == Socks.GREETING_OK
  {
    GreetingArrives(cfg, s.clientOut);
  }

  /** What a relaying proxy tells a SOCKS5 client is one complete reply with REP 0. */
  lemma {:induction false} AnnouncedIsReply(
      cfg: Config, destOut: seq<byte>, t: Target, payload: nat, reply: seq<byte>, rest: seq<byte>)
    requires Announced(cfg, destOut, Socks5, t, payload, reply)
    ensures Socks.ParseReply(reply + rest) == Done(reply, |reply|)
    ensures |reply| > 1 && reply[1] == Socks.REP_SUCCESS
  {
    if Routed(cfg, t) == Direct {
      var bind :| reply == Socks.BoundReply(Socks.REP_SUCCESS, bind);
      Socks.BoundReplyIsReply(Socks.REP_SUCCESS, bind, rest);
    } else {
      Socks.ReplyIsSelfDelimiting(destOut[2..], rest);
    }
  }

  /** What a probe that has sent its whole request finds behind the method choice. */
  ghost predicate Answers(s: Sys, o: Outcome<seq<byte>>) {
    && (s.phase.Relaying? ==> o == Done(s.phase.reply, |s.phase.reply|) && |s.phase.reply| > 1 && s.phase.reply[1] == Socks.REP_SUCCESS)
    && (s.phase.Failed? ==>
          && o.Done? && 2 + o.used == |s.toClient| && |o.value| > 1 && o.value[1] != Socks.REP_SUCCESS
          && s.toClient == Socks.GREETING_OK + Socks.SimpleReply(o.value[1]))
    && (!s.phase.Relaying? && !s.phase.Failed? ==> o == NeedMore)
  }

  lemma {:induction false} RelayAnswer(cfg: Config, s: Sys, rest: seq<byte>)
    requires s.phase.Relaying? && s.toClient == Socks.GREETING_OK + s.phase.reply + rest
    requires Announced(cfg, s.destOut, Socks5, s.phase.target, s.phase.payload, s.phase.reply)
    ensures |s.toClient| >= 2 && s.toClient[..2] == Socks.GREETING_OK
    ensures Answers(s, Socks.ParseReply(s.toClient[2..]))
  {
    AnnouncedIsReply(cfg, s.destOut, s.phase.target, s.phase.payload, s.phase.reply, rest);
    DropFront(Socks.GREETING_OK, s.phase.reply, rest);
  }

  lemma {:induction false} FailureAnswer(s: Sys, rep: byte)
    requires s.phase.Failed? && rep != Socks.REP_SUCCESS && s.toClient == Socks.GREETING_OK + Socks.SimpleReply(rep)
    ensures Socks.ParseReply(s.toClient[2..]) == Done(Socks.SimpleReply(rep), 10)
    ensures Answers(s, Socks.ParseReply(s.toClient[2..]))
  {
    hide Socks.ParseReply, Socks.Message;
    Socks.SimpleReplyIsReply(rep, []);
    assert s.toClient[2..] == Socks.SimpleReply(rep) + [];
  }

  lemma {:induction false} ReplyAnswer(cfg: Config, t: ProbeTarget, s: Sys)
    requires Inv(cfg, s) && !s.clientEof && |t.host| <= 255 && ValidUtf8(t.host) && s.clientOut == AllSent(t)
    requires 2 <= |s.toClient|
    ensures Answers(s, Socks.ParseReply(s.toClient[2..]))
  {
    hide Open;
    ProbeOpens(cfg, t, s.clientOut);
    if |s.toClient| == 2 { assert s.toClient[2..] == []; }
    match s.phase
    case Relaying(_, _, _, payload, _, _) => RelayAnswer(cfg, s, s.destOut[payload..s.destTaken]);
    case Failed =>
      var rep: byte :| rep != Socks.REP_SUCCESS && s.toClient == Socks.GREETING_OK + Socks.SimpleReply(rep);
      FailureAnswer(s, rep);
    case _ =>
  }

  lemma {:induction false} MethodStepKeeps(cfg: Config, t: ProbeTarget, ps: PSys)
    requires PInv(cfg, t, ps) && ps.sending == [] && ps.probe == AwaitMethod
    ensures PInv(cfg, t, ReadStep(t, ps))
  {
    hide Inv, Open;
    var s := ps.sys;
    assert s.clientOut + [] == s.clientOut;
    MethodAnswer(cfg, s);
    assert s.toClient[0..] == s.toClient;
    if s.toClient != [] { ReadsKeep(cfg, s, 2, s.destGot, s.destEof); }
  }

  lemma {:induction false} ReplyStepKeeps(cfg: Config, t: ProbeTarget, ps: PSys)
    requires ValidUtf8(t.host) && PInv(cfg, t, ps) && ps.sending == [] && ps.probe == AwaitReply
    ensures PInv(cfg, t, ReadStep(t, ps))
  {
    hide Inv, Open;
    var s := ps.sys;
    assert s.clientOut + [] == s.clientOut;
    ReplyAnswer(cfg, t, s);
    var o := Socks.ParseReply(s.toClient[2..]);
    if o.Done? { ReadsKeep(cfg, s, 2 + o.used, s.destGot, s.destEof); }
  }

  lemma {:induction false} SendKeeps(cfg: Config, t: ProbeTarget, ps: PSys, k: nat)
    requires PInv(cfg, t, ps) && k <= |ps.sending| && !ps.probe.Finished?
    ensures PInv(cfg, t, PNext(cfg, t, ps, ProbeSends(k)))
  {
    hide Inv;
    ClientWriteKeeps(cfg, ps.sys, ps.sending[..k]);
    var all := ps.sys.clientOut + ps.sending;
    assert ps.sys.clientOut + ps.sending[..k] + ps.sending[k..] == all;
  }

  lemma {:induction false} PNextKeeps(cfg: Config, t: ProbeTarget, ps: PSys, m: PMove)
    requires ValidUtf8(t.host) && PInv(cfg, t, ps)
    ensures PInv(cfg, t, PNext(cfg, t, ps, m))
  {
    hide Open, Inv;
    match m
    case ProbeSends(k) => if k <= |ps.sending| && !ps.probe.Finished? { SendKeeps(cfg, t, ps, k); }
    case ProbeReads =>
      if ps.sending == [] {
        match ps.probe
        case AwaitMethod => MethodStepKeeps(cfg, t, ps);
        case AwaitReply => ReplyStepKeeps(cfg, t, ps);
        case Finished(_) =>
      }
    case ProbeCloses => if ps.probe.Finished? { HangUpKeeps(cfg, ps.sys); }
    case ProxyMoves(c) => ProxyKeeps(cfg, ps.sys, c);
    case Elsewhere(m') =>
      if IsElsewhere(m') {
        NextKeeps(cfg, ps.sys, m');
        ElsewhereKeepsClient(cfg, ps.sys, m');
      }
  }

  lemma {:induction false} PReachable(cfg: Config, t: ProbeTarget, moves: seq<PMove>)
    requires ValidUtf8(t.host)
    ensures PInv(cfg, t, PRun(cfg, t, moves))
  {
    hide Open, PNext;
    if moves != [] {
      var front := moves[..|moves| - 1];
      PReachable(cfg, t, front);
      PNextKeeps(cfg, t, PRun(cfg, t, front), moves[|moves| - 1]);
    }
  }

  // ── What holds in every run ────────────────────────────────────────────

  /** The two ends agree: whatever target the proxy has read is the one the probe asked for. */
  lemma {:induction false} TargetIsDecoded(cfg: Config, t: ProbeTarget, moves: seq<PMove>)
    requires ValidUtf8(t.host)
    ensures var s := PRun(cfg, t, moves).sys;
            Open(cfg, s.clientOut).Done? ==>
              Open(cfg, s.clientOut).value == (Socks5, Domain(t.host, t.port)) && 1 <= |t.host| <= 255
  {
    hide Open, PNext;
    PReachable(cfg, t, moves);
    var ps := PRun(cfg, t, moves);
    if ps.sys.clientOut <= Socks.GREETING {
      GreetingArrives(cfg, ps.sys.clientOut);
    } else {
      assert ps.sys.clientOut <= AllSent(t);
      ProbeOpens(cfg, t, ps.sys.clientOut);
    }
  }

  lemma {:induction false} FinishedMeaning(cfg: Config, t: ProbeTarget, s: Sys, v: Verdict)
    requires Sound(s) && FinishedInv(t, s, v) && |t.host| <= 255
    requires s.phase.Relaying? ==> RelayInv(cfg, s) && s.phase.entry == Socks5
    ensures 6 <= s.clientGot && s.toClient[..2] == Socks.GREETING_OK
    ensures var reply := s.toClient[2..s.clientGot];
            && Socks.ParseReply(s.toClient[2..]) == Done(reply, |reply|)
            && v == (if reply[1] == Socks.REP_SUCCESS then Reached else Refused(reply[1]))
  {
    if s.phase.Relaying? {
      var rest := s.destOut[s.phase.payload..s.destTaken];
      AnnouncedIsReply(cfg, s.destOut, s.phase.target, s.phase.payload, s.phase.reply, rest);
      DropFront(Socks.GREETING_OK, s.phase.reply, rest);
    } else {
      FailureAnswer(s, v.rep);
    }
    assert s.toClient[2..s.clientGot] == s.toClient[2..][..s.clientGot - 2];
  }

  /** A finished probe has read exactly one method choice and one reply, whatever its address type,
      and nothing of any payload behind it; it reports success iff the REP it read is 0, which is
      iff the proxy relays. It never mistakes a reply for a malformed one, never finds the proxy
      gone, and gives up before sending a name only when the name has more than 255 bytes. */
  lemma {:induction false} VerdictIsTheReply(cfg: Config, t: ProbeTarget, moves: seq<PMove>)
    requires ValidUtf8(t.host) && PRun(cfg, t, moves).probe.Finished?
    ensures var ps := PRun(cfg, t, moves);
            var v := ps.probe.verdict;
            if |t.host| > 255 then v == NameTooLong
            else
              && 6 <= ps.sys.clientGot <= |ps.sys.toClient|
              && ps.sys.toClient[..2] == Socks.GREETING_OK
              && var reply := ps.sys.toClient[2..ps.sys.clientGot];
                 && Socks.ParseReply(ps.sys.toClient[2..]) == Done(reply, |reply|)
                 && v == (if reply[1] == Socks.REP_SUCCESS then Reached else Refused(reply[1]))
                 && (v == Reached <==> ps.sys.phase.Relaying?)
  {
    hide Open, PNext;
    PReachable(cfg, t, moves);
    var ps := PRun(cfg, t, moves);
    if |t.host| <= 255 {
      ProbeOpens(cfg, t, ps.sys.clientOut);
      FinishedMeaning(cfg, t, ps.sys, ps.probe.verdict);
    }
  }

  /** An empty name is refused by the proxy and reported as such. */
  lemma {:induction false} EmptyNameIsRefused(cfg: Config, t: ProbeTarget, moves: seq<PMove>)
    requires t.host == [] && PRun(cfg, t, moves).probe.Finished?
    ensures PRun(cfg, t, moves).probe.verdict == Refused(Socks.REP_GENERAL_FAILURE)
  {
    hide Open, PNext;
    PReachable(cfg, t, moves);
    var s := PRun(cfg, t, moves).sys;
    ProbeOpens(cfg, t, s.clientOut);
    assert s.toClient[3] == Socks.REP_GENERAL_FAILURE;
  }

  // ── Progress ───────────────────────────────────────────────────────────

  /** The proxy is waiting for bytes only the upstream can send. */
  predicate WaitsForUpstream(s: Sys)
    requires Sound(s)
  {
    && !s.destEof
    && ((s.phase.AwaitingMethod? && |DestPending(s)| < 2)
        || (s.phase.AwaitingReply? && Socks.ParseReply(DestPending(s)).NeedMore?))
  }

  predicate IsLocal(m: PMove) {
    m.ProbeSends? || m.ProbeReads? || m.ProxyMoves?
  }

  function ProbeRank(p: Probe): nat {
    match p
    case AwaitMethod => 2
    case AwaitReply => 1
    case Finished(_) => 0
  }

  /** How many local moves can still change something. */
  function Budget(ps: PSys): nat {
    300 * ProbeRank(ps.probe) + PhaseRank(ps.sys.phase) + |ps.sending|
  }

  /** Termination: every move of the probe or the proxy that changes anything uses up budget, and
      no other move gives any back; so a run holds at most Budget(PSTART) = 609 such moves. */
  lemma {:induction false} LocalMovesTerminate(cfg: Config, t: ProbeTarget, ps: PSys, m: PMove)
    requires Sound(ps.sys)
    ensures var r := PNext(cfg, t, ps, m);
            Budget(r) <= Budget(ps) && (IsLocal(m) && r != ps ==> Budget(r) < Budget(ps))
  {
    match m
    case ProbeSends(k) => if k == 0 { assert ps.sending[0..] == ps.sending; assert ps.sys.clientOut + [] == ps.sys.clientOut; }
    case _ =>
  }

  lemma {:induction false} ProxyHearsGreeting(cfg: Config, s: Sys, c: Connect)
    requires Inv(cfg, s) && !s.clientEof && s.clientOut == Socks.GREETING && s.toClient == []
    ensures Proxy(cfg, s, c) != s
  {
    MethodAnswer(cfg, s);
    assert s.clientOut[0..] == s.clientOut && s.clientOut + [] == s.clientOut;
    Socks.GreetingAccepted([]);
  }

  lemma {:induction false} MethodProgress(cfg: Config, t: ProbeTarget, ps: PSys, c: Connect)
    requires PInv(cfg, t, ps) && ps.probe == AwaitMethod && ps.sending == [] && ps.sys.clientOut == Socks.GREETING
    ensures ReadStep(t, ps) != ps || Proxy(cfg, ps.sys, c) != ps.sys
  {
    hide Inv, Open, Proxy;
    MethodAnswer(cfg, ps.sys);
    assert ps.sys.toClient[0..] == ps.sys.toClient;
    if ps.sys.toClient == [] { ProxyHearsGreeting(cfg, ps.sys, c); }
  }

  lemma {:induction false} ProxyHearsRequest(cfg: Config, t: ProbeTarget, s: Sys, c: Connect)
    requires Inv(cfg, s) && !s.clientEof && |t.host| <= 255 && ValidUtf8(t.host) && s.clientOut == AllSent(t)
    requires 2 <= |s.toClient| && Socks.ParseReply(s.toClient[2..]).NeedMore? && !WaitsForUpstream(s)
    ensures Proxy(cfg, s, c) != s
  {
    hide Open, ReadHead, Socks.ParseRequest, Socks.ParseReply, OwnHandshake;
    ReplyAnswer(cfg, t, s);
    ProbeOpens(cfg, t, s.clientOut);
    var req := Socks.ConnectRequest(t.host, t.port);
    Socks.GreetingAccepted(req);
    assert s.clientOut[3..] == req;
    RequestArrives(t, req);
  }

  lemma {:induction false} ReplyProgress(cfg: Config, t: ProbeTarget, ps: PSys, c: Connect)
    requires ValidUtf8(t.host) && PInv(cfg, t, ps) && ps.probe == AwaitReply && ps.sending == []
    requires ps.sys.clientOut == AllSent(t)
    ensures ReadStep(t, ps) != ps || Proxy(cfg, ps.sys, c) != ps.sys || WaitsForUpstream(ps.sys)
  {
    hide Inv, Open, Proxy;
    if Socks.ParseReply(ps.sys.toClient[2..]).NeedMore? && !WaitsForUpstream(ps.sys) {
      ProxyHearsRequest(cfg, t, ps.sys, c);
    }
  }

  /** Deadlock freedom: in every reachable state in which the probe has not finished, either one of
      its own moves or the proxy's next step changes something, however a pending connect turns
      out, or the proxy is waiting for the upstream. */
  lemma {:induction false} NeverStuck(cfg: Config, t: ProbeTarget, moves: seq<PMove>, c: Connect)
    requires ValidUtf8(t.host)
    ensures var ps := PRun(cfg, t, moves);
            || ps.probe.Finished?
            || WaitsForUpstream(ps.sys)
            || PNext(cfg, t, ps, ProbeSends(|ps.sending|)) != ps
            || PNext(cfg, t, ps, ProbeReads) != ps
            || PNext(cfg, t, ps, ProxyMoves(c)) != ps
  {
    hide Inv, Open, Proxy, ReadStep, PRun;
    PReachable(cfg, t, moves);
    var ps := PRun(cfg, t, moves);
    if ps.sending == [] {
      assert ps.sys.clientOut + [] == ps.sys.clientOut;
      match ps.probe
      case AwaitMethod => MethodProgress(cfg, t, ps, c);
      case AwaitReply => ReplyProgress(cfg, t, ps, c);
      case Finished(_) =>
    }
  }
}
