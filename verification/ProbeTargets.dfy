/** The targets of tunnel probes as text: `parse_probe_target` and `ProbeTarget::display`. */
module ProbeTargets {
  import opened Bytes
  import opened Http

  datatype ProbeTarget = ProbeTarget(host: Text, port: port)

  function ToOption(r: Result<port, IntError>): Option<port> {
    match r
    case Ok(p) => Some(p)
    case Err(_) => None
  }

  /** In brackets a bad port counts as a missing one; without them a number that is no port, or no
      number at all after the colon, is an error, and anything else is part of the host. */
  function ParseTrimmed(s: Text, defaultPort: port): Option<ProbeTarget> {
    if s == [] then None
    else if s[0] == OPEN_BRACKET then
      var close := IndexOf(s, CLOSE_BRACKET);
      if close == |s| then None
      else
        var rest := s[close + 1..];
        var p := if rest != [] && rest[0] == COLON then ToOption(ParseU16(rest[1..])) else None;
        Some(ProbeTarget(s[1..close], if p.Some? then p.value else defaultPort))
    else
      var colon := LastIndexOf(s, COLON);
      if colon > 0 && AllDigits(s[colon + 1..]) then
        match ToOption(ParseU16(s[colon + 1..]))
        case Some(p) => Some(ProbeTarget(s[..colon], p))
        case None => None
      else Some(ProbeTarget(s, defaultPort))
  }

  function ParseProbeTarget(input: Text, defaultPort: port): Option<ProbeTarget> {
    ParseTrimmed(Trim(input), defaultPort)
  }

  function Display(t: ProbeTarget): Text {
    t.host + [COLON] + Decimal(t.port)
  }

  // ── What a text names ──────────────────────────────────────────────────

  /** `s` is a host, a colon and nothing but digits, so what is behind the colon must be a port. */
  ghost predicate HasPortPart(s: Text) {
    exists host, digits :: InParts(s, host, digits) && host != [] && AllDigits(digits)
  }

  predicate OpensWith(s: Text, address: Text, tail: Text) {
    s == [OPEN_BRACKET] + address + [CLOSE_BRACKET] + tail && CLOSE_BRACKET !in address
  }

  predicate IsTail(tail: Text, p: port) {
    tail != [] && tail[0] == COLON && PortText(tail[1..], p)
  }

  /** The port a bracketed address is followed by, or the default if there is none to be read. */
  ghost predicate TailPort(tail: Text, defaultPort: port, p: port) {
    if exists q: port :: IsTail(tail, q) then IsTail(tail, p) else p == defaultPort
  }

  /** What a trimmed text names: a bracketed address with or without a port, `host:port`, or a bare
      host under the default port. */
  ghost predicate Names(s: Text, defaultPort: port, t: ProbeTarget) {
    if s == [] then false
    else if s[0] == OPEN_BRACKET then
      exists tail :: OpensWith(s, t.host, tail) && TailPort(tail, defaultPort, t.port)
    else if HasPortPart(s) then
      t.host != [] && exists digits :: InParts(s, t.host, digits) && AllDigits(digits) && PortText(digits, t.port)
    else t == ProbeTarget(s, defaultPort)
  }

  lemma {:induction false} PortPart(s: Text)
    ensures HasPortPart(s) <==> LastIndexOf(s, COLON) > 0 && AllDigits(s[LastIndexOf(s, COLON) + 1..])
  {
    hide LastIndexOf;
    var colon := LastIndexOf(s, COLON);
    if colon > 0 && AllDigits(s[colon + 1..]) {
      LastIndexIs(s, COLON);
      assert InParts(s, s[..colon], s[colon + 1..]);
    }
    if HasPortPart(s) {
      var host, digits :| InParts(s, host, digits) && host != [] && AllDigits(digits);
      LastColonOf(host, digits);
      assert s[|host| + 1..] == digits;
    }
  }

  lemma TailPortIff(tail: Text, defaultPort: port, p: port)
    ensures TailPort(tail, defaultPort, p)
            <==> p == var read := if tail != [] && tail[0] == COLON then ToOption(ParseU16(tail[1..])) else None;
                      if read.Some? then read.value else defaultPort
  {
    hide ParseU16, PortText;
    if tail != [] {
      forall q: port ensures ParseU16(tail[1..]) == Ok(q) <==> PortText(tail[1..], q) {
        ParseU16Iff(tail[1..], q);
      }
      if tail[0] == COLON && ParseU16(tail[1..]).Ok? { assert IsTail(tail, ParseU16(tail[1..]).value); }
    }
  }

  lemma {:induction false} BracketedIff(s: Text, defaultPort: port, t: ProbeTarget)
    requires s != [] && s[0] == OPEN_BRACKET
    ensures ParseTrimmed(s, defaultPort) == Some(t) <==> Names(s, defaultPort, t)
  {
    hide ParseU16, TailPort, ToOption;
    var close := IndexOf(s, CLOSE_BRACKET);
    if close < |s| {
      var address, tail := s[1..close], s[close + 1..];
      assert CLOSE_BRACKET !in s[..close];
      assert OpensWith(s, address, tail);
      TailPortIff(tail, defaultPort, t.port);
    }
    forall tail | OpensWith(s, t.host, tail) ensures close == |t.host| + 1 && s[1..close] == t.host && s[close + 1..] == tail {
      FirstAt(s, CLOSE_BRACKET, |t.host| + 1);
    }
  }

  lemma {:induction false} UnbracketedIff(s: Text, defaultPort: port, t: ProbeTarget)
    requires s != [] && s[0] != OPEN_BRACKET
    ensures ParseTrimmed(s, defaultPort) == Some(t) <==> Names(s, defaultPort, t)
  {
    hide ParseU16, PortText, LastIndexOf;
    PortPart(s);
    if HasPortPart(s) {
      var colon := LastIndexOf(s, COLON);
      var host, number := s[..colon], s[colon + 1..];
      LastIndexIs(s, COLON);
      assert InParts(s, host, number);
      ParseU16Iff(number, t.port);
      forall digits | InParts(s, t.host, digits) && AllDigits(digits) ensures t.host == host && digits == number {
        LastColonOf(t.host, digits);
      }
    }
  }

  lemma EmptyNamesNothing(defaultPort: port)
    ensures ParseTrimmed([], defaultPort) == None
  {
  }

  /** For every text, target and default port: the parser returns the target iff the trimmed text
      names it. */
  lemma {:induction false} ParseIff(input: Text, defaultPort: port, t: ProbeTarget)
    ensures ParseProbeTarget(input, defaultPort) == Some(t) <==> Names(Trim(input), defaultPort, t)
  {
    hide ParseTrimmed, HasPortPart, Trim;
    var s := Trim(input);
    assert s == [] ==> ParseTrimmed(s, defaultPort) == None by { EmptyNamesNothing(defaultPort); }
    if s != [] {
      if s[0] == OPEN_BRACKET { BracketedIff(s, defaultPort, t); } else { UnbracketedIff(s, defaultPort, t); }
    }
  }

  // ── Display and parse again ────────────────────────────────────────────

  /** The hosts that can be named without brackets. */
  predicate Plain(host: Text) {
    host != [] && SpaceLen(host) == 0 && host[0] != OPEN_BRACKET
  }

  /** What an unbracketed text names is always plain. */
  lemma UnbracketedIsPlain(input: Text, defaultPort: port)
    requires Trim(input) != [] && Trim(input)[0] != OPEN_BRACKET
    ensures var r := ParseProbeTarget(input, defaultPort); r.Some? ==> Plain(r.value.host)
  {
    hide SpaceLen, SkipSpace, TrimEnd, ParseU16;
    var s := Trim(input);
    SpacePrefix(s, SkipSpace(input));
    if LastIndexOf(s, COLON) > 0 { SpacePrefix(s[..LastIndexOf(s, COLON)], s); }
  }

  lemma DigitIsNoSpace(s: Text, n: nat)
    requires 1 <= n <= |s| && IsDigit(s[|s| - 1])
    ensures SpaceLen(s[|s| - n..]) != n
  {
    assert s[|s| - n..][n - 1] == s[|s| - 1];
  }

  lemma DigitIsNoTail(s: Text)
    requires s != [] && IsDigit(s[|s| - 1])
    ensures SpaceTail(s) == 0
  {
    hide SpaceLen;
    DigitIsNoSpace(s, 1);
    if |s| >= 2 { DigitIsNoSpace(s, 2); }
    if |s| >= 3 { DigitIsNoSpace(s, 3); }
  }

  lemma DigitEnds(s: Text)
    requires s != [] && IsDigit(s[|s| - 1])
    ensures TrimEnd(s) == s
  {
    hide SpaceTail;
    DigitIsNoTail(s);
  }

  lemma DisplayEnds(t: ProbeTarget)
    ensures TrimEnd(Display(t)) == Display(t)
  {
    hide TrimEnd;
    DigitEnds(Display(t));
  }

  predicate IsPlainByte(b: byte) {
    b < 0x80 && !(9 <= b <= 13) && b != SPACE
  }

  lemma SpaceStopsBefore(s: Text, m: nat)
    requires m < |s| && IsPlainByte(s[m])
    ensures SpaceLen(s) <= m
  {
  }

  /** Trimming the front stops at the latest before a plain byte. */
  lemma {:induction false} SkipStopsBefore(s: Text, m: nat)
    requires m < |s| && IsPlainByte(s[m])
    ensures |SkipSpace(s)| >= |s| - m
    ensures SpaceLen(s) > 0 ==> |SkipSpace(s)| < |s|
    decreases |s|
  {
    hide SpaceLen;
    SpaceStopsBefore(s, m);
    var n := SpaceLen(s);
    if n > 0 { SkipStopsBefore(s[n..], m - n); }
  }

  /** Trimming the front of `a + b` stops within `a`, or just behind it. */
  lemma {:induction false} SkipInto(a: Text, b: Text) returns (k: nat)
    requires b != [] && IsPlainByte(b[0])
    ensures k <= |a| && SkipSpace(a + b) == a[k..] + b && (SpaceLen(a) > 0 ==> k > 0)
  {
    hide SpaceLen, SkipSpace;
    SkipStopsBefore(a + b, |a|);
    k := |a + b| - |SkipSpace(a + b)|;
    assert (a + b)[k..] == a[k..] + b;
    if a == [] { NothingIsNoSpace(); } else { SpaceLenAcross(a, b); }
  }

  lemma ColonIsNoSpace(tail: Text)
    requires tail != [] && tail[0] == COLON
    ensures SpaceLen(tail) == 0
  {
  }

  lemma NothingToSkip(a: Text, b: Text)
    requires SpaceLen(a) == 0 && b != [] && b[0] == COLON
    ensures SkipSpace(a + b) == a + b
  {
    hide SpaceLen;
    ColonIsNoSpace(b);
    if a == [] { assert a + b == b; } else { SpaceLenAcross(a, b); }
  }

  lemma {:induction false} TrimDisplay(t: ProbeTarget) returns (k: nat)
    ensures k <= |t.host| && (SpaceLen(t.host) > 0 ==> k > 0)
    ensures Trim(Display(t)) == Display(ProbeTarget(t.host[k..], t.port))
    ensures SpaceLen(t.host) == 0 ==> Trim(Display(t)) == Display(t)
  {
    hide SpaceLen, SpaceTail, SkipSpace, TrimEnd, Decimal;
    var tail := [COLON] + Decimal(t.port);
    assert Display(t) == t.host + tail;
    k := SkipInto(t.host, tail);
    assert t.host[k..] + tail == Display(ProbeTarget(t.host[k..], t.port));
    DisplayEnds(ProbeTarget(t.host[k..], t.port));
    if SpaceLen(t.host) == 0 { NothingToSkip(t.host, tail); }
  }

  lemma DisplayParses(t: ProbeTarget, defaultPort: port)
    requires t.host != [] && t.host[0] != OPEN_BRACKET
    ensures ParseTrimmed(Display(t), defaultPort) == Some(t)
  {
    hide SpaceLen, ParseU16, PortText, LastIndexOf, Decimal;
    var s := Display(t);
    DecimalIsPort(t.port);
    LastColonOf(t.host, Decimal(t.port));
    ParseU16Iff(Decimal(t.port), t.port);
    assert s[|t.host| + 1..] == Decimal(t.port) && s[..|t.host|] == t.host;
  }

  lemma {:induction false} PlainRoundTrip(t: ProbeTarget, defaultPort: port)
    requires Plain(t.host)
    ensures ParseProbeTarget(Display(t), defaultPort) == Some(t)
  {
    var s := Display(t);
    var k := TrimDisplay(t);
    DisplayParses(t, defaultPort);
  }

  lemma {:induction false} BracketsShorten(host: Text, p: port, defaultPort: port)
    requires Display(ProbeTarget(host, p))[0] == OPEN_BRACKET
    ensures var r := ParseTrimmed(Display(ProbeTarget(host, p)), defaultPort); r.Some? ==> |r.value.host| < |host|
  {
    hide ParseU16;
    var s := Display(ProbeTarget(host, p));
    var close := IndexOf(s, CLOSE_BRACKET);
    assert forall i :: |host| <= i < |s| ==> s[i] != CLOSE_BRACKET;
  }

  /** A displayed target reads back as itself exactly when its host is plain, whatever the default
      port. */
  lemma {:induction false} DisplayRoundTripIff(t: ProbeTarget, defaultPort: port)
    ensures ParseProbeTarget(Display(t), defaultPort) == Some(t) <==> Plain(t.host)
  {
    hide Trim, ParseTrimmed, SpaceLen;
    var k := TrimDisplay(t);
    var s := Trim(Display(t));
    if Plain(t.host) {
      PlainRoundTrip(t, defaultPort);
    } else if s[0] == OPEN_BRACKET {
      BracketsShorten(t.host[k..], t.port, defaultPort);
    } else {
      UnbracketedIsPlain(Display(t), defaultPort);
    }
  }

  /** So whatever an unbracketed text names, its display names again, even under another default. */
  lemma {:induction false} DisplayIsStable(input: Text, defaultPort: port, otherDefault: port)
    requires Trim(input) != [] && Trim(input)[0] != OPEN_BRACKET
    requires ParseProbeTarget(input, defaultPort).Some?
    ensures var t := ParseProbeTarget(input, defaultPort).value;
            ParseProbeTarget(Display(t), otherDefault) == Some(t)
  {
    UnbracketedIsPlain(input, defaultPort);
    DisplayRoundTripIff(ParseProbeTarget(input, defaultPort).value, otherDefault);
  }
}
