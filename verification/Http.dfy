/** The HTTP CONNECT entrance: where a request head ends, and which target its first line names
    (section 9.3.6 of RFC 9110, section 3.2.3 of RFC 9112). */
module Http {
  import opened Bytes
  import opened Domains

  const LF: byte := 10
  const CR: byte := 13
  const SPACE: byte := 32
  const PLUS: byte := 43
  const MINUS: byte := 45
  const COLON: byte := 58
  const OPEN_BRACKET: byte := 91
  const CLOSE_BRACKET: byte := 93

  const HEAD_END: seq<byte> := [CR, LF, CR, LF]
  const MAX_HEAD_SIZE: nat := 8192

  predicate IsDigit(b: byte) {
    48 <= b <= 57
  }

  /** Decimal printing. */
  function Decimal(n: nat): (s: Text)
    ensures |s| >= 1 && (forall i :: 0 <= i < |s| ==> IsDigit(s[i]))
    ensures n >= 10 ==> s[0] != 48
    ensures n < 1000 ==> |s| <= 3
    ensures n < 100 ==> |s| <= 2
    ensures n < 10 ==> |s| == 1
    ensures 0 < n ==> s[0] != 48
    ensures 100 <= n < 1000 ==> |s| == 3 && s[0] == 48 + n / 100
    ensures 10 <= n < 100 ==> |s| == 2 && s[0] == 48 + n / 10
  {
    if n < 10 then [48 + n] else Decimal(n / 10) + [48 + n % 10]
  }

  ghost predicate EndsHead(s: seq<byte>, n: nat) {
    4 <= n <= |s| && s[n - 4..n] == HEAD_END
  }

  function Response(code: nat, reason: string): (r: Text)
    requires 100 <= code < 1000
    ensures |r| > 9 && r[9] == 48 + code / 100 && EndsHead(r, |r|)
  {
    Ascii("HTTP/1.1 ") + Decimal(code) + [SPACE] + Ascii(reason) + HEAD_END
  }

  function Established(): Text {
    Response(200, "Connection Established")
  }

  function HeadTooLarge(): Text {
    Response(431, "Request Header Fields Too Large")
  }

  function BadGateway(): Text {
    Response(502, "Bad Gateway")
  }

  // ── The head loop ──────────────────────────────────────────────────────

  /** The byte-reading loop of `handle_http_connect` with `n` bytes buffered so far. */
  function ScanHead(s: seq<byte>, n: nat): (o: Outcome<()>)
    requires n <= |s|
    ensures o.NeedMore? || n < o.used <= |s|
    decreases |s| - n
  {
    if n == |s| then NeedMore
    else if n + 1 >= 4 && s[n - 3..n + 1] == HEAD_END then Done((), n + 1)
    else if n + 1 >= MAX_HEAD_SIZE then Fail(n + 1, HeadTooLarge())
    else ScanHead(s, n + 1)
  }

  ghost predicate NoHeadIn(s: seq<byte>, limit: int) {
    forall m: nat :: m <= limit ==> !EndsHead(s, m)
  }

  /** The right answer for a stream `s`: its shortest head if that has at most 8192 bytes, a
      refusal after exactly 8192 bytes if there is none that short, and more waiting otherwise. */
  ghost predicate HeadVerdict(s: seq<byte>, o: Outcome<()>) {
    && (o.Done? ==> o.used <= MAX_HEAD_SIZE && EndsHead(s, o.used) && NoHeadIn(s, o.used - 1))
    && (o.Fail? ==> o.used == MAX_HEAD_SIZE <= |s| && NoHeadIn(s, o.used) && o.reply == HeadTooLarge())
    && (o.NeedMore? ==> |s| < MAX_HEAD_SIZE && NoHeadIn(s, |s|))
  }

  lemma {:induction false} ScanHeadMeaning(s: seq<byte>, n: nat)
    requires n <= |s| && n < MAX_HEAD_SIZE && NoHeadIn(s, n)
    ensures HeadVerdict(s, ScanHead(s, n))
    decreases |s| - n
  {
    if n < |s| {
      if n + 1 >= 4 && s[n - 3..n + 1] == HEAD_END {
        assert EndsHead(s, n + 1);
      } else if n + 1 < MAX_HEAD_SIZE {
        ScanHeadMeaning(s, n + 1);
      }
    }
  }

  lemma HeadIsShortest(s: seq<byte>)
    ensures HeadVerdict(s, ScanHead(s, 0))
  {
    ScanHeadMeaning(s, 0);
  }

  lemma {:induction false} ScanHeadSettled(s: seq<byte>, t: seq<byte>, n: nat)
    requires n <= |s|
    ensures !ScanHead(s, n).NeedMore? ==> ScanHead(s + t, n) == ScanHead(s, n)
    decreases |s| - n
  {
    if n < |s| {
      if n + 1 >= 4 { assert (s + t)[n - 3..n + 1] == s[n - 3..n + 1]; }
      ScanHeadSettled(s, t, n + 1);
    }
  }

  // ── Lines and words ────────────────────────────────────────────────────

  function IndexOf(s: Text, b: byte): (i: nat)
    ensures i <= |s|
    ensures i < |s| ==> s[i] == b
    ensures b !in s[..i]
  {
    if s == [] || s[0] == b then 0
    else
      var i := 1 + IndexOf(s[1..], b);
      assert s[..i] == [s[0]] + s[1..][..i - 1];
      i
  }

  function LastIndexOf(s: Text, b: byte): (i: int)
    ensures -1 <= i < |s|
  {
    if s == [] then -1
    else if s[|s| - 1] == b then |s| - 1
    else LastIndexOf(s[..|s| - 1], b)
  }

  /** `str::lines().next()` of a non-empty text. */
  function FirstLine(s: Text): Text {
    var i := IndexOf(s, LF);
    if i < |s| && i > 0 && s[i - 1] == CR then s[..i - 1] else s[..i]
  }

  /** Length in bytes of the Unicode White_Space character at the front of `s`, or 0. */
  function SpaceLen(s: Text): (n: nat)
    ensures n <= |s|
  {
    if |s| == 0 then 0
    else if 9 <= s[0] <= 13 || s[0] == SPACE then 1
    else if |s| >= 2 && s[0] == 0xC2 && (s[1] == 0x85 || s[1] == 0xA0) then 2
    else if |s| >= 3 && s[0] == 0xE1 && s[1] == 0x9A && s[2] == 0x80 then 3
    else if |s| >= 3 && s[0] == 0xE2 && s[1] == 0x80
            && (0x80 <= s[2] <= 0x8A || s[2] == 0xA8 || s[2] == 0xA9 || s[2] == 0xAF) then 3
    else if |s| >= 3 && s[0] == 0xE2 && s[1] == 0x81 && s[2] == 0x9F then 3
    else if |s| >= 3 && s[0] == 0xE3 && s[1] == 0x80 && s[2] == 0x80 then 3
    else 0
  }

  function SkipSpace(s: Text): (r: Text)
    ensures |r| <= |s| && r == s[|s| - |r|..] && SpaceLen(r) == 0
    decreases |s|
  {
    if SpaceLen(s) == 0 then s else SkipSpace(s[SpaceLen(s)..])
  }

  /** Length in bytes of the White_Space character at the end of `s`, or 0. */
  function SpaceTail(s: Text): (n: nat)
    ensures n <= |s|
  {
    if |s| >= 1 && SpaceLen(s[|s| - 1..]) == 1 then 1
    else if |s| >= 2 && SpaceLen(s[|s| - 2..]) == 2 then 2
    else if |s| >= 3 && SpaceLen(s[|s| - 3..]) == 3 then 3
    else 0
  }

  function TrimEnd(s: Text): (r: Text)
    ensures r <= s
    decreases |s|
  {
    if SpaceTail(s) == 0 then s else TrimEnd(s[..|s| - SpaceTail(s)])
  }

  /** `str::trim`. */
  function Trim(s: Text): Text {
    TrimEnd(SkipSpace(s))
  }

  function TakeWord(s: Text): (w: Text)
    ensures w <= s
  {
    if s == [] || SpaceLen(s) > 0 then [] else [s[0]] + TakeWord(s[1..])
  }

  /** `split_whitespace().next()` and what is left after it. */
  function NextWord(s: Text): (r: (Text, Text)) {
    var t := SkipSpace(s);
    var w := TakeWord(t);
    (w, t[|w|..])
  }

  // ── Numbers and addresses ──────────────────────────────────────────────

  datatype IntError = EmptyNumber | InvalidDigit | TooLarge

  function ParseDigits(acc: port, s: Text): Result<port, IntError>
    decreases |s|
  {
    if s == [] then Ok(acc)
    else if !IsDigit(s[0]) then Err(InvalidDigit)
    else
      var next: int := acc * 10 + (s[0] - 48);
      if next >= 65536 then Err(TooLarge) else ParseDigits(next, s[1..])
  }

  predicate AllDigits(s: Text) {
    forall i :: 0 <= i < |s| ==> IsDigit(s[i])
  }

  /** `u16::from_str`: an optional plus sign and decimal digits, leading zeros allowed. */
  function ParseU16(s: Text): Result<port, IntError> {
    if s == [] then Err(EmptyNumber)
    else if s == [PLUS] || s == [MINUS] then Err(InvalidDigit)
    else if s[0] == PLUS then ParseDigits(0, s[1..])
    else ParseDigits(0, s)
  }

  /** One octet of `Ipv4Addr::from_str`: canonical decimal, at most 255. */
  function ParseOctet(s: Text): Option<byte> {
    if 1 <= |s| <= 3 && (|s| == 1 || s[0] != 48) then
      match ParseDigits(0, s)
      case Ok(v) => if v < 256 then Some(v as int) else None
      case Err(_) => None
    else None
  }

  function ParseIpv4(s: Text): Option<V4> {
    var parts := Split(s);
    if |parts| != 4 then None
    else
      match (ParseOctet(parts[0]), ParseOctet(parts[1]), ParseOctet(parts[2]), ParseOctet(parts[3]))
      case (Some(a), Some(b), Some(c), Some(d)) => Some([a, b, c, d])
      case _ => None
  }

  function PrintIpv4(a: V4): Text {
    Join([Decimal(a[0]), Decimal(a[1]), Decimal(a[2]), Decimal(a[3])])
  }

  // ── The request line ───────────────────────────────────────────────────

  datatype ParseError =
    | NotUtf8
    | MissingMethod
    | WrongMethod(method_: Text)
    | MissingAuthority
    | UnterminatedBracket
    | MissingPortAfterBracket
    | InvalidIpv6
    | InvalidPort(why: IntError)
    | MissingPort(authority: Text)

  /** The text of the error, which the 400 response repeats. */
  function Describe(e: ParseError): Text {
    match e
    case NotUtf8 => Ascii("HTTP CONNECT request is not valid UTF-8")
    case MissingMethod => Ascii("missing HTTP method")
    case WrongMethod(m) => Ascii("expected CONNECT method, got ") + m
    case MissingAuthority => Ascii("missing authority in CONNECT request")
    case UnterminatedBracket => Ascii("unterminated IPv6 bracket")
    case MissingPortAfterBracket => Ascii("missing port after IPv6 address")
    case InvalidIpv6 => Ascii("invalid IPv6 address: invalid IPv6 address syntax")
    case InvalidPort(EmptyNumber) => Ascii("invalid port: cannot parse integer from empty string")
    case InvalidPort(InvalidDigit) => Ascii("invalid port: invalid digit found in string")
    case InvalidPort(TooLarge) => Ascii("invalid port: number too large to fit in target type")
    case MissingPort(a) => Ascii("missing port in CONNECT authority: ") + a
  }

  function BadRequest(e: ParseError): Text {
    Response(400, "Bad Request") + Describe(e) + [CR, LF]
  }

  type Ipv6Parser = Text -> Option<V6>

  function ParseAuthority(authority: Text, parseV6: Ipv6Parser): Result<Target, ParseError> {
    if authority != [] && authority[0] == OPEN_BRACKET then
      var bracketed := authority[1..];
      var close := IndexOf(bracketed, CLOSE_BRACKET);
      if close == |bracketed| then Err(UnterminatedBracket)
      else
        var rest := bracketed[close + 1..];
        if rest == [] || rest[0] != COLON then Err(MissingPortAfterBracket)
        else
          match parseV6(bracketed[..close])
          case None => Err(InvalidIpv6)
          case Some(ip) =>
            match ParseU16(rest[1..])
            case Err(why) => Err(InvalidPort(why))
            case Ok(p) => Ok(Ipv6(ip, p))
    else
      var colon := LastIndexOf(authority, COLON);
      if colon < 0 then Err(MissingPort(authority))
      else
        match ParseU16(authority[colon + 1..])
        case Err(why) => Err(InvalidPort(why))
        case Ok(p) =>
          match ParseIpv4(authority[..colon])
          case Some(ip) => Ok(Ipv4(ip, p))
          case None => Ok(Domain(authority[..colon], p))
  }

  const CONNECT: Text := Ascii("connect")

  /** `parse_connect_target`. A head that the loop accepted is never empty. */
  function ParseConnectTarget(head: Text, parseV6: Ipv6Parser): Result<Target, ParseError> {
    if !ValidUtf8(head) then Err(NotUtf8)
    else
      var (verb, rest) := NextWord(FirstLine(head));
      if verb == [] then Err(MissingMethod)
      else if Lower(verb) != CONNECT then Err(WrongMethod(verb))
      else
        var (authority, _) := NextWord(rest);
        if authority == [] then Err(MissingAuthority)
        else ParseAuthority(authority, parseV6)
  }

  // ── Printing a target and reading it back ──────────────────────────────

  /** `Display` for the two forms whose text does not come from the standard library's IPv6 printer. */
  function PrintTarget(t: Target): Text
    requires !t.Ipv6?
  {
    match t
    case Ipv4(ip, p) => PrintIpv4(ip) + [COLON] + Decimal(p)
    case Domain(name, p) => name + [COLON] + Decimal(p)
  }

  const VERB: Text := Ascii("CONNECT")
  const VERSION: Text := Ascii(" HTTP/1.1")

  /** A CONNECT head naming `t`, followed by any further header bytes. */
  function ConnectHead(t: Target, headers: Text): Text
    requires !t.Ipv6?
  {
    VERB + [SPACE] + PrintTarget(t) + VERSION + [CR, LF] + headers
  }

  predicate SpaceFree(s: Text) {
    forall i :: 0 <= i < |s| ==> SpaceLen(s[i..]) == 0
  }

  lemma {:induction false} ParseDigitsConcat(acc: port, a: Text, b: Text)
    ensures ParseDigits(acc, a + b)
            == match ParseDigits(acc, a)
               case Ok(v) => ParseDigits(v, b)
               case Err(e) => Err(e)
    decreases |a|
  {
    if a == [] {
      assert a + b == b;
    } else {
      assert (a + b)[1..] == a[1..] + b;
      if IsDigit(a[0]) {
        var next: int := acc * 10 + (a[0] - 48);
        if next < 65536 { ParseDigitsConcat(next, a[1..], b); }
      }
    }
  }

  /** The value of a decimal numeral. */
  function Numeral(s: Text): nat
    requires AllDigits(s)
  {
    if s == [] then 0 else Numeral(s[..|s| - 1]) * 10 + (s[|s| - 1] - 48)
  }

  /** Reading digits gives the numeral's value, if it fits into 16 bits, and nothing else is read. */
  lemma {:induction false} ParseDigitsIff(s: Text)
    ensures ParseDigits(0, s).Ok? <==> AllDigits(s) && Numeral(s) < 65536
    ensures ParseDigits(0, s).Ok? ==> ParseDigits(0, s).value == Numeral(s)
  {
    if s != [] {
      var front, last := s[..|s| - 1], s[|s| - 1];
      assert s == front + [last] && [last][1..] == [];
      ParseDigitsIff(front);
      ParseDigitsConcat(0, front, [last]);
      if AllDigits(s) { assert AllDigits(front) && Numeral(s) >= Numeral(front); }
    }
  }

  /** `p` as a decimal number: an optional plus sign, then at least one digit. */
  predicate PortText(s: Text, p: port) {
    var digits := if s != [] && s[0] == PLUS then s[1..] else s;
    digits != [] && AllDigits(digits) && Numeral(digits) == p
  }

  /** A port is read exactly from the decimal numbers below 65536, leading zeros and all. */
  lemma ParseU16Iff(s: Text, p: port)
    ensures ParseU16(s) == Ok(p) <==> PortText(s, p)
  {
    var digits := if s != [] && s[0] == PLUS then s[1..] else s;
    ParseDigitsIff(digits);
    if s == [MINUS] { assert !IsDigit(s[0]); }
  }

  lemma {:induction false} DecimalNumeral(n: nat)
    ensures AllDigits(Decimal(n)) && Numeral(Decimal(n)) == n
  {
    if n >= 10 {
      DecimalNumeral(n / 10);
      assert Decimal(n)[..|Decimal(n)| - 1] == Decimal(n / 10);
    }
  }

  lemma DecimalIsPort(p: port)
    ensures PortText(Decimal(p), p) && AllDigits(Decimal(p))
  {
    DecimalNumeral(p);
    assert Decimal(p)[0] != PLUS;
  }

  lemma {:induction false} LeadingDigit(s: Text)
    requires AllDigits(s) && s != [] && s[0] != 48
    ensures Numeral(s) >= 1
  {
    if |s| > 1 { LeadingDigit(s[..|s| - 1]); }
  }

  lemma DecimalStep(n: nat, d: nat)
    requires d < 10
    ensures Decimal(d) == [48 + d] && (n > 0 ==> Decimal(n * 10 + d) == Decimal(n) + [48 + d])
  {
    assert (n * 10 + d) / 10 == n && (n * 10 + d) % 10 == d;
  }

  /** A numeral without leading zeros is the printed form of its value. */
  lemma {:induction false} CanonicalNumeral(s: Text)
    requires AllDigits(s) && s != [] && (|s| == 1 || s[0] != 48)
    ensures s == Decimal(Numeral(s))
  {
    hide Decimal;
    var front, d := s[..|s| - 1], s[|s| - 1] - 48;
    assert s == front + [48 + d];
    DecimalStep(Numeral(front), d);
    if |s| > 1 {
      LeadingDigit(front);
      CanonicalNumeral(front);
    }
  }

  lemma ParseOctetIff(s: Text, b: byte)
    ensures ParseOctet(s) == Some(b) <==> s == Decimal(b)
  {
    ParseDigitsIff(s);
    if ParseOctet(s) == Some(b) { CanonicalNumeral(s); }
    if s == Decimal(b) { DecimalNumeral(b); }
  }

  lemma {:induction false} ParsePrintedIpv4(a: V4)
    ensures ParseIpv4(PrintIpv4(a)) == Some(a)
  {
    hide Decimal, ParseOctet, Split;
    var parts := [Decimal(a[0]), Decimal(a[1]), Decimal(a[2]), Decimal(a[3])];
    forall i | 0 <= i < 4 ensures ParseOctet(parts[i]) == Some(a[i]) && DOT !in parts[i] {
      ParseOctetIff(parts[i], a[i]);
    }
    SplitJoin(parts);
    assert a == [a[0], a[1], a[2], a[3]];
  }

  /** A text is read as an address exactly when it is that address printed: four canonical octets,
      joined by dots, and nothing more. */
  lemma {:induction false} ParseIpv4Iff(s: Text, a: V4)
    ensures ParseIpv4(s) == Some(a) <==> s == PrintIpv4(a)
  {
    hide Decimal, ParseOctet, Split, Join;
    if ParseIpv4(s) == Some(a) {
      var parts := Split(s);
      JoinSplit(s);
      ParseOctetIff(parts[0], a[0]);
      ParseOctetIff(parts[1], a[1]);
      ParseOctetIff(parts[2], a[2]);
      ParseOctetIff(parts[3], a[3]);
      assert parts == [Decimal(a[0]), Decimal(a[1]), Decimal(a[2]), Decimal(a[3])];
    }
    ParsePrintedIpv4(a);
  }

  /** No address prints as `name`. */
  ghost predicate NoAddress(name: Text) {
    forall a: V4 :: name != PrintIpv4(a)
  }

  lemma NoAddressIff(name: Text)
    ensures NoAddress(name) <==> ParseIpv4(name).None?
  {
    hide ParseIpv4, PrintIpv4;
    if ParseIpv4(name).Some? { ParseIpv4Iff(name, ParseIpv4(name).value); }
    if !NoAddress(name) {
      var a: V4 :| name == PrintIpv4(a);
      ParseIpv4Iff(name, a);
    }
  }

  /** Plain bytes end a word only when they are ASCII white space; they never complete one. */
  lemma SpaceLenAcross(a: Text, b: Text)
    requires a != [] && (b == [] || b[0] < 0x80)
    ensures SpaceLen(a + b) == SpaceLen(a)
  {
  }

  lemma {:induction false} TakeWholeWord(a: Text, b: Text)
    requires SpaceFree(a) && (b == [] || b[0] == SPACE)
    ensures TakeWord(a + b) == a
    decreases |a|
  {
    if a == [] {
      assert a + b == b;
    } else {
      SpaceLenAcross(a, b);
      assert a[0..] == a;
      assert (a + b)[1..] == a[1..] + b;
      assert forall i :: 0 <= i < |a[1..]| ==> a[1..][i..] == a[i + 1..];
      TakeWholeWord(a[1..], b);
    }
  }

  lemma SpacePrefix(a: Text, s: Text)
    requires a <= s && SpaceLen(s) == 0
    ensures SpaceLen(a) == 0
  {
  }

  /** The characters with the property White_Space. */
  predicate IsWhiteSpace(c: scalar) {
    9 <= c <= 13 || c in {0x20, 0x85, 0xA0, 0x1680, 0x2028, 0x2029, 0x202F, 0x205F, 0x3000} || 0x2000 <= c <= 0x200A
  }

  lemma SpaceOfChar(c: scalar, rest: Text)
    requires IsWhiteSpace(c)
    ensures SpaceLen(Utf8(c) + rest) == |Utf8(c)|
  {
  }

  lemma CharOfSpace(s: Text) returns (c: scalar)
    requires SpaceLen(s) > 0
    ensures IsWhiteSpace(c) && Utf8(c) == s[..SpaceLen(s)]
  {
    assert CharLen(s) == SpaceLen(s);
    c := CharIsEncoding(s);
  }

  /** `SpaceLen` finds exactly the encodings of the White_Space characters. */
  lemma {:induction false} SpaceIff(s: Text, n: nat)
    requires 0 < n <= |s|
    ensures SpaceLen(s) == n <==> exists c: scalar :: IsWhiteSpace(c) && s[..n] == Utf8(c)
  {
    hide SpaceLen, Utf8, IsWhiteSpace;
    if SpaceLen(s) == n { var c := CharOfSpace(s); }
    if exists c: scalar :: IsWhiteSpace(c) && s[..n] == Utf8(c) {
      var c: scalar :| IsWhiteSpace(c) && s[..n] == Utf8(c);
      SpaceOfChar(c, s[n..]);
      assert s == s[..n] + s[n..];
    }
  }

  /** White space and nothing else. */
  predicate AllSpace(s: Text)
    decreases |s|
  {
    s == [] || (SpaceLen(s) > 0 && AllSpace(s[SpaceLen(s)..]))
  }

  lemma SpaceFirst(c: Text, s: Text)
    requires c != [] && SpaceLen(c) == |c|
    ensures SpaceLen(c + s) == |c|
  {
  }

  lemma SpaceAtFront(s: Text)
    ensures SpaceLen(s[..SpaceLen(s)]) == SpaceLen(s)
  {
  }

  lemma SpaceBefore(c: Text, s: Text)
    requires c != [] && SpaceLen(c) == |c| && AllSpace(s)
    ensures AllSpace(c + s)
  {
    hide SpaceLen;
    SpaceFirst(c, s);
    assert (c + s)[|c|..] == s;
  }

  lemma {:induction false} SpaceBehind(s: Text, c: Text)
    requires AllSpace(s) && c != [] && SpaceLen(c) == |c|
    ensures AllSpace(s + c)
    decreases |s|
  {
    hide SpaceLen;
    if s == [] {
      assert s + c == c + [];
      SpaceBefore(c, []);
    } else {
      var n := SpaceLen(s);
      SpaceAtFront(s);
      SpaceBehind(s[n..], c);
      SpaceBefore(s[..n], s[n..] + c);
      assert s + c == s[..n] + (s[n..] + c);
    }
  }

  lemma NothingIsSpace()
    ensures AllSpace([])
  {
  }

  lemma SkipStep(s: Text)
    ensures SkipSpace(s) == if SpaceLen(s) == 0 then s else SkipSpace(s[SpaceLen(s)..])
  {
  }

  lemma {:induction false} SkipsSpace(s: Text)
    ensures AllSpace(s[..|s| - |SkipSpace(s)|])
    decreases |s|
  {
    hide SpaceLen, AllSpace, SkipSpace;
    var n := SpaceLen(s);
    NothingIsSpace();
    SkipStep(s);
    if n > 0 {
      var rest := s[n..];
      var skipped := rest[..|rest| - |SkipSpace(rest)|];
      SkipsSpace(rest);
      SpaceAtFront(s);
      SpaceBefore(s[..n], skipped);
      assert s[..|s| - |SkipSpace(s)|] == s[..n] + skipped;
    }
  }

  lemma NothingIsNoSpace()
    ensures SpaceLen([]) == 0
  {
  }

  lemma SpaceAtEnd(s: Text)
    ensures SpaceLen(s[|s| - SpaceTail(s)..]) == SpaceTail(s)
  {
    hide SpaceLen;
    NothingIsNoSpace();
    assert s[|s|..] == [];
  }

  lemma {:induction false} TrimsEnd(s: Text)
    ensures SpaceTail(TrimEnd(s)) == 0 && AllSpace(s[|TrimEnd(s)|..])
    decreases |s|
  {
    hide SpaceLen, SpaceTail;
    var n := SpaceTail(s);
    if n > 0 {
      var front := s[..|s| - n];
      TrimsEnd(front);
      SpaceAtEnd(s);
      SpaceBehind(front[|TrimEnd(front)|..], s[|s| - n..]);
      assert s[|TrimEnd(s)|..] == front[|TrimEnd(front)|..] + s[|s| - n..];
    }
  }

  /** Trimming takes white space off both ends, all of it and nothing else. */
  lemma {:induction false} TrimMeaning(s: Text) returns (before: Text, after: Text)
    ensures s == before + Trim(s) + after && AllSpace(before) && AllSpace(after)
    ensures SpaceLen(Trim(s)) == 0 && SpaceTail(Trim(s)) == 0
  {
    hide SpaceLen, SpaceTail, SkipSpace, TrimEnd, AllSpace;
    var t := SkipSpace(s);
    before, after := s[..|s| - |t|], t[|Trim(s)|..];
    SkipsSpace(s);
    TrimsEnd(t);
    SpacePrefix(Trim(s), t);
  }

  lemma {:induction false} SpacesTogether(a: Text, b: Text)
    requires AllSpace(a) && AllSpace(b)
    ensures AllSpace(a + b)
    decreases |a|
  {
    hide SpaceLen;
    if a == [] {
      assert a + b == b;
    } else {
      var n := SpaceLen(a);
      SpaceAtFront(a);
      SpacesTogether(a[n..], b);
      SpaceBefore(a[..n], a[n..] + b);
      assert a + b == a[..n] + (a[n..] + b);
    }
  }

  lemma {:induction false} AllSkipped(s: Text)
    requires AllSpace(s)
    ensures SkipSpace(s) == []
    decreases |s|
  {
    hide SpaceLen;
    if s != [] { AllSkipped(s[SpaceLen(s)..]); }
    NothingIsNoSpace();
  }

  /** Nothing is left of a text exactly when it is all white space. */
  lemma {:induction false} BlankIff(s: Text)
    ensures Trim(s) == [] <==> AllSpace(s)
  {
    hide SkipSpace, TrimEnd, AllSpace, SpaceTail;
    if AllSpace(s) { AllSkipped(s); }
    var before, after := TrimMeaning(s);
    if Trim(s) == [] {
      SpacesTogether(before, after);
      assert s == before + after;
    }
  }

  lemma {:induction false} WordIsSpaceFree(s: Text)
    ensures SpaceFree(TakeWord(s))
  {
    var w := TakeWord(s);
    if w != [] {
      WordIsSpaceFree(s[1..]);
      forall i | 0 <= i < |w| ensures SpaceLen(w[i..]) == 0 {
        if i == 0 {
          SpacePrefix(w, s);
        } else {
          assert w[i..] == TakeWord(s[1..])[i - 1..];
        }
      }
    }
  }

  lemma {:induction false} SpaceFreePrefix(s: Text, k: nat)
    requires SpaceFree(s) && k <= |s|
    ensures SpaceFree(s[..k])
  {
    forall i | 0 <= i < k ensures SpaceLen(s[..k][i..]) == 0 {
      SpacePrefix(s[..k][i..], s[i..]);
    }
  }

  lemma {:induction false} FirstWord(w: Text, rest: Text)
    requires SpaceFree(w) && w != [] && rest != [] && rest[0] == SPACE
    ensures SkipSpace(w + rest) == w + rest && NextWord(w + rest) == (w, rest)
  {
    SpaceLenAcross(w, rest);
    assert w[0..] == w;
    TakeWholeWord(w, rest);
  }

  /** The first line of a printed head, cut into words. */
  lemma {:induction false} WordsOfLine(verb: Text, authority: Text, version: Text)
    requires SpaceFree(verb) && verb != []
    requires SpaceFree(authority) && authority != []
    requires version != [] && version[0] == SPACE
    ensures var (w, rest) := NextWord(verb + [SPACE] + authority + version);
            w == verb && NextWord(rest).0 == authority
  {
    var rest := [SPACE] + (authority + version);
    var line := verb + rest;
    assert line == verb + [SPACE] + authority + version;
    FirstWord(verb, rest);
    assert rest[1..] == authority + version;
    FirstWord(authority, version);
    assert SkipSpace(rest) == SkipSpace(authority + version);
  }

  lemma {:induction false} FirstAt(s: Text, b: byte, k: nat)
    requires k < |s| && s[k] == b && forall j :: 0 <= j < k ==> s[j] != b
    ensures IndexOf(s, b) == k
  {
    if k > 0 { FirstAt(s[1..], b, k - 1); }
  }

  /** A line ends with a line feed, with or without a carriage return before it. */
  predicate IsNewline(s: Text) {
    s == [LF] || s == [CR, LF]
  }

  lemma {:induction false} FirstLineOf(line: Text, newline: Text, headers: Text)
    requires LF !in line && IsNewline(newline) && (line == [] || line[|line| - 1] != CR)
    ensures FirstLine(line + newline + headers) == line
  {
    var s := line + newline + headers;
    var k := |line| + |newline| - 1;
    assert s[k] == LF && (k > |line| ==> s[|line|] == CR) && s[..|line|] == line;
    assert k == |line| && k > 0 ==> s[k - 1] == line[k - 1];
    FirstAt(s, LF, k);
  }

  lemma NoLineFeed(word: Text)
    requires SpaceFree(word)
    ensures LF !in word
  {
    forall i | 0 <= i < |word| ensures word[i] != LF {
      assert word[i..][0] == word[i] && SpaceLen(word[i..]) == 0;
    }
  }

  lemma {:induction false} WordsOfHead(verb: Text, authority: Text, newline: Text, headers: Text)
    requires SpaceFree(verb) && verb != [] && SpaceFree(authority) && authority != [] && IsNewline(newline)
    ensures var line := FirstLine(verb + [SPACE] + authority + VERSION + newline + headers);
            NextWord(line).0 == verb && NextWord(NextWord(line).1).0 == authority
  {
    NoLineFeed(verb);
    NoLineFeed(authority);
    FirstLineOf(verb + [SPACE] + authority + VERSION, newline, headers);
    WordsOfLine(verb, authority, VERSION);
  }

  lemma {:induction false} LastAt(s: Text, b: byte, k: nat)
    requires k < |s| && s[k] == b && forall j :: k < j < |s| ==> s[j] != b
    ensures LastIndexOf(s, b) == k
  {
    if k < |s| - 1 { LastAt(s[..|s| - 1], b, k); }
  }

  lemma {:induction false} LastIndexIs(s: Text, b: byte)
    ensures LastIndexOf(s, b) >= 0 ==> s[LastIndexOf(s, b)] == b
  {
    if s != [] && s[|s| - 1] != b { LastIndexIs(s[..|s| - 1], b); }
  }

  lemma {:induction false} LastColonOf(host: Text, digits: Text)
    requires COLON !in digits
    ensures LastIndexOf(host + [COLON] + digits, COLON) == |host|
  {
    var s := host + [COLON] + digits;
    LastAt(s, COLON, |host|);
  }

  // ── What an authority names ────────────────────────────────────────────

  /** `authority` is `host`, a colon, and `number`. */
  predicate InParts(authority: Text, host: Text, number: Text) {
    authority == host + [COLON] + number
  }

  predicate InBrackets(authority: Text, address: Text, number: Text) {
    authority == [OPEN_BRACKET] + address + [CLOSE_BRACKET, COLON] + number && CLOSE_BRACKET !in address
  }

  /** The authority-form of section 3.2.3 of RFC 9112: a bracketed IPv6 address, an IPv4 address, or
      any other name that does not start with a bracket, and a port. */
  ghost predicate Names(authority: Text, parseV6: Ipv6Parser, t: Target) {
    match t
    case Ipv6(ip, p) =>
      exists address, number ::
        InBrackets(authority, address, number) && parseV6(address) == Some(ip) && PortText(number, p)
    case Ipv4(ip, p) => exists number :: InParts(authority, PrintIpv4(ip), number) && PortText(number, p)
    case Domain(name, p) =>
      && (name == [] || name[0] != OPEN_BRACKET) && NoAddress(name)
      && exists number :: InParts(authority, name, number) && PortText(number, p)
  }

  lemma PortTextIsPlain(s: Text, p: port)
    requires PortText(s, p)
    ensures COLON !in s
  {
    var digits := if s != [] && s[0] == PLUS then s[1..] else s;
    forall i | 0 <= i < |s| ensures s[i] != COLON {
      if s[0] == PLUS { assert i > 0 ==> s[i] == digits[i - 1]; } else { assert s[i] == digits[i]; }
    }
  }

  lemma {:induction false} NamesPlain(host: Text, number: Text, p: port, parseV6: Ipv6Parser)
    requires (host == [] || host[0] != OPEN_BRACKET) && PortText(number, p)
    ensures ParseAuthority(host + [COLON] + number, parseV6)
            == match ParseIpv4(host)
               case Some(ip) => Ok(Ipv4(ip, p))
               case None => Ok(Domain(host, p))
  {
    hide ParseIpv4, ParseU16, PortText;
    var s := host + [COLON] + number;
    PortTextIsPlain(number, p);
    LastColonOf(host, number);
    ParseU16Iff(number, p);
    assert s[|host| + 1..] == number && s[..|host|] == host;
  }

  lemma {:induction false} ParsePrintedAuthority(host: Text, p: port, parseV6: Ipv6Parser)
    requires host == [] || host[0] != OPEN_BRACKET
    ensures ParseAuthority(host + [COLON] + Decimal(p), parseV6)
            == match ParseIpv4(host)
               case Some(ip) => Ok(Ipv4(ip, p))
               case None => Ok(Domain(host, p))
  {
    DecimalIsPort(p);
    NamesPlain(host, Decimal(p), p, parseV6);
  }

  lemma {:induction false} NamesBracketed(address: Text, number: Text, ip: V6, p: port, parseV6: Ipv6Parser)
    requires CLOSE_BRACKET !in address && parseV6(address) == Some(ip) && PortText(number, p)
    ensures ParseAuthority([OPEN_BRACKET] + address + [CLOSE_BRACKET, COLON] + number, parseV6) == Ok(Ipv6(ip, p))
  {
    hide ParseU16, PortText;
    var s := [OPEN_BRACKET] + address + [CLOSE_BRACKET, COLON] + number;
    var bracketed := s[1..];
    assert bracketed == address + [CLOSE_BRACKET, COLON] + number;
    FirstAt(bracketed, CLOSE_BRACKET, |address|);
    assert bracketed[..|address|] == address;
    assert bracketed[|address| + 1..][1..] == number;
    ParseU16Iff(number, p);
  }

  lemma DigitsStartNoBracket(ip: V4)
    ensures PrintIpv4(ip) != [] && PrintIpv4(ip)[0] != OPEN_BRACKET
  {
  }

  lemma {:induction false} ParsedPlain(authority: Text, t: Target, parseV6: Ipv6Parser)
    requires (authority == [] || authority[0] != OPEN_BRACKET) && ParseAuthority(authority, parseV6) == Ok(t)
    ensures Names(authority, parseV6, t)
  {
    hide ParseIpv4, ParseU16, PortText, PrintIpv4, NoAddress;
    var colon := LastIndexOf(authority, COLON);
    var host, number := authority[..colon], authority[colon + 1..];
    LastIndexIs(authority, COLON);
    assert InParts(authority, host, number);
    ParseU16Iff(number, t.port);
    NoAddressIff(host);
    if t.Ipv4? {
      ParseIpv4Iff(host, t.v4);
      assert InParts(authority, PrintIpv4(t.v4), number);
    } else {
      assert t == Domain(host, t.port) && (host == [] || host[0] == authority[0]);
    }
  }

  lemma {:induction false} ParsedBracketed(authority: Text, t: Target, parseV6: Ipv6Parser)
    requires authority != [] && authority[0] == OPEN_BRACKET && ParseAuthority(authority, parseV6) == Ok(t)
    ensures Names(authority, parseV6, t)
  {
    hide ParseIpv4, ParseU16, PortText, PrintIpv4, NoAddress, IndexOf;
    var bracketed := authority[1..];
    var close := IndexOf(bracketed, CLOSE_BRACKET);
    var address, number := bracketed[..close], bracketed[close + 1..][1..];
    assert InBrackets(authority, address, number);
    ParseU16Iff(number, t.port);
    assert t.Ipv6? && parseV6(address) == Some(t.v6) && PortText(number, t.port);
  }

  /** For every authority and target: the parser returns the target iff the authority names it. */
  lemma {:induction false} AuthorityIff(authority: Text, t: Target, parseV6: Ipv6Parser)
    ensures ParseAuthority(authority, parseV6) == Ok(t) <==> Names(authority, parseV6, t)
  {
    hide ParseAuthority, ParseIpv4, PortText, PrintIpv4, NoAddress;
    if ParseAuthority(authority, parseV6) == Ok(t) {
      if authority != [] && authority[0] == OPEN_BRACKET {
        ParsedBracketed(authority, t, parseV6);
      } else {
        ParsedPlain(authority, t, parseV6);
      }
    }
    if Names(authority, parseV6, t) {
      match t
      case Ipv6(ip, p) =>
        var address, number :| InBrackets(authority, address, number) && parseV6(address) == Some(ip) && PortText(number, p);
        NamesBracketed(address, number, ip, p, parseV6);
      case Ipv4(ip, p) =>
        var number :| InParts(authority, PrintIpv4(ip), number) && PortText(number, p);
        DigitsStartNoBracket(ip);
        NamesPlain(PrintIpv4(ip), number, p, parseV6);
        ParseIpv4Iff(PrintIpv4(ip), ip);
      case Domain(name, p) =>
        var number :| InParts(authority, name, number) && PortText(number, p);
        NamesPlain(name, number, p, parseV6);
        NoAddressIff(name);
    }
  }

  lemma {:induction false} PrintedAuthorityIsSpaceFree(host: Text, p: port)
    requires SpaceFree(host)
    ensures SpaceFree(host + [COLON] + Decimal(p))
  {
    var tail := [COLON] + Decimal(p);
    var s := host + [COLON] + Decimal(p);
    assert s == host + tail;
    forall i | 0 <= i < |s| ensures SpaceLen(s[i..]) == 0 {
      if i < |host| {
        assert s[i..] == host[i..] + tail;
        SpaceLenAcross(host[i..], tail);
      } else {
        assert s[i] == COLON || IsDigit(s[i]);
      }
    }
  }

  lemma {:induction false} HeadIsUtf8(verb: Text, target: Text, newline: Text, headers: Text)
    requires ValidUtf8(verb) && ValidUtf8(target) && ValidUtf8(headers) && IsNewline(newline)
    ensures ValidUtf8(verb + [SPACE] + target + VERSION + newline + headers)
  {
    AsciiIsUtf8([SPACE]);
    AsciiIsUtf8(VERSION);
    AsciiIsUtf8(newline);
    ValidUtf8Concat(verb, [SPACE]);
    ValidUtf8Concat(verb + [SPACE], target);
    ValidUtf8Concat(verb + [SPACE] + target, VERSION);
    ValidUtf8Concat(verb + [SPACE] + target + VERSION, newline);
    ValidUtf8Concat(verb + [SPACE] + target + VERSION + newline, headers);
  }

  lemma VerbIsConnect()
    ensures Lower(VERB) == CONNECT
  {
  }

  /** A request line (section 3 of RFC 9112) under any line ending and before any headers: the method
      decides, in any case, and then the authority. */
  lemma {:induction false} RequestLine(verb: Text, authority: Text, newline: Text, headers: Text, parseV6: Ipv6Parser)
    requires ValidUtf8(verb) && ValidUtf8(authority) && ValidUtf8(headers) && IsNewline(newline)
    requires SpaceFree(verb) && verb != [] && SpaceFree(authority) && authority != []
    ensures ParseConnectTarget(verb + [SPACE] + authority + VERSION + newline + headers, parseV6)
            == if SameButCase(verb, VERB) then ParseAuthority(authority, parseV6) else Err(WrongMethod(verb))
  {
    hide ParseAuthority, ValidUtf8, FirstLine, NextWord, Lower, SameButCase;
    HeadIsUtf8(verb, authority, newline, headers);
    WordsOfHead(verb, authority, newline, headers);
    VerbIsConnect();
    LowerIff(verb, VERB);
  }

  lemma {:induction false} ParseHeadWithAuthority(authority: Text, headers: Text, parseV6: Ipv6Parser)
    requires ValidUtf8(authority) && ValidUtf8(headers) && SpaceFree(authority) && authority != []
    ensures ParseConnectTarget(VERB + [SPACE] + authority + VERSION + [CR, LF] + headers, parseV6)
            == ParseAuthority(authority, parseV6)
  {
    hide ParseConnectTarget, ParseAuthority, ValidUtf8;
    AsciiIsUtf8(VERB);
    RequestLine(VERB, authority, [CR, LF], headers, parseV6);
  }

  lemma {:induction false} AuthorityIsUtf8(host: Text, p: port)
    requires ValidUtf8(host)
    ensures ValidUtf8(host + [COLON] + Decimal(p))
  {
    AsciiIsUtf8([COLON] + Decimal(p));
    ValidUtf8Concat(host, [COLON] + Decimal(p));
    assert host + [COLON] + Decimal(p) == host + ([COLON] + Decimal(p));
  }

  lemma {:induction false} ParseHeadOfHost(host: Text, p: port, headers: Text, parseV6: Ipv6Parser)
    requires ValidUtf8(host) && ValidUtf8(headers) && SpaceFree(host)
    requires host == [] || host[0] != OPEN_BRACKET
    ensures ParseConnectTarget(ConnectHead(Domain(host, p), headers), parseV6)
            == match ParseIpv4(host)
               case Some(ip) => Ok(Ipv4(ip, p))
               case None => Ok(Domain(host, p))
  {
    hide ParseConnectTarget, ParseAuthority, ParseIpv4, SpaceFree, ValidUtf8, Decimal;
    var authority := host + [COLON] + Decimal(p);
    AuthorityIsUtf8(host, p);
    PrintedAuthorityIsSpaceFree(host, p);
    ParseHeadWithAuthority(authority, headers, parseV6);
    ParsePrintedAuthority(host, p, parseV6);
  }

  /** A printed host reads back, behind any further headers, as the address it is the text of, and as
      a name if it is none's. */
  lemma {:induction false} ParsePrintedHead(host: Text, p: port, headers: Text, parseV6: Ipv6Parser)
    requires ValidUtf8(host) && ValidUtf8(headers) && SpaceFree(host)
    requires host == [] || host[0] != OPEN_BRACKET
    ensures var r := ParseConnectTarget(ConnectHead(Domain(host, p), headers), parseV6);
            && (NoAddress(host) ==> r == Ok(Domain(host, p)))
            && (forall ip: V4 :: host == PrintIpv4(ip) ==> r == Ok(Ipv4(ip, p)))
  {
    hide ParseConnectTarget, ParseIpv4, PrintIpv4, SpaceFree, ValidUtf8;
    ParseHeadOfHost(host, p, headers, parseV6);
    NoAddressIff(host);
    forall ip: V4 | host == PrintIpv4(ip) ensures ParseIpv4(host) == Some(ip) { ParseIpv4Iff(host, ip); }
  }

  lemma {:induction false} JoinBytes(ls: seq<Text>)
    requires |ls| >= 1
    requires forall k, i :: 0 <= k < |ls| && 0 <= i < |ls[k]| ==> IsDigit(ls[k][i])
    ensures forall i :: 0 <= i < |Join(ls)| ==> IsDigit(Join(ls)[i]) || Join(ls)[i] == DOT
  {
    if |ls| > 1 { JoinBytes(ls[1..]); }
  }

  lemma {:induction false} PrintedIpv4Bytes(ip: V4)
    ensures forall i :: 0 <= i < |PrintIpv4(ip)| ==> IsDigit(PrintIpv4(ip)[i]) || PrintIpv4(ip)[i] == DOT
  {
    JoinBytes([Decimal(ip[0]), Decimal(ip[1]), Decimal(ip[2]), Decimal(ip[3])]);
  }

  lemma DottedDigitsArePlain(s: Text)
    requires forall i :: 0 <= i < |s| ==> IsDigit(s[i]) || s[i] == DOT
    ensures SpaceFree(s) && (s == [] || s[0] != OPEN_BRACKET) && forall i :: 0 <= i < |s| ==> s[i] < 0x80
  {
    forall i | 0 <= i < |s| ensures SpaceLen(s[i..]) == 0 {
      assert s[i..][0] == s[i];
    }
  }

  /** Every IPv4 target survives printing and reading back. */
  lemma {:induction false} Ipv4RoundTrip(ip: V4, p: port, headers: Text, parseV6: Ipv6Parser)
    requires ValidUtf8(headers)
    ensures ParseConnectTarget(ConnectHead(Ipv4(ip, p), headers), parseV6) == Ok(Ipv4(ip, p))
  {
    hide ParseConnectTarget, ParseIpv4, ValidUtf8, PrintIpv4, SpaceFree;
    var host := PrintIpv4(ip);
    PrintedIpv4Bytes(ip);
    DottedDigitsArePlain(host);
    AsciiIsUtf8(host);
    ParsePrintedIpv4(ip);
    ParseHeadOfHost(host, p, headers, parseV6);
    assert ConnectHead(Ipv4(ip, p), headers) == ConnectHead(Domain(host, p), headers);
  }

  /** The names a CONNECT line can carry. */
  ghost predicate Printable(name: Text) {
    SpaceFree(name) && (name == [] || name[0] != OPEN_BRACKET) && NoAddress(name)
  }

  lemma {:induction false} AuthorityDomainIsPrintable(authority: Text, parseV6: Ipv6Parser)
    requires SpaceFree(authority)
    requires ParseAuthority(authority, parseV6).Ok? && ParseAuthority(authority, parseV6).value.Domain?
    ensures Printable(ParseAuthority(authority, parseV6).value.name)
  {
    SpaceFreePrefix(authority, LastIndexOf(authority, COLON));
    NoAddressIff(ParseAuthority(authority, parseV6).value.name);
  }

  /** Every domain the parser returns is printable ... */
  lemma {:induction false} ParsedDomainIsPrintable(head: Text, parseV6: Ipv6Parser)
    requires ParseConnectTarget(head, parseV6).Ok? && ParseConnectTarget(head, parseV6).value.Domain?
    ensures Printable(ParseConnectTarget(head, parseV6).value.name)
  {
    var authority := NextWord(NextWord(FirstLine(head)).1).0;
    WordIsSpaceFree(SkipSpace(NextWord(FirstLine(head)).1));
    AuthorityDomainIsPrintable(authority, parseV6);
  }

  /** ... and a domain target survives printing and reading back exactly when its name is. */
  lemma {:induction false} DomainRoundTripIff(name: Text, p: port, headers: Text, parseV6: Ipv6Parser)
    requires ValidUtf8(name) && ValidUtf8(headers)
    ensures ParseConnectTarget(ConnectHead(Domain(name, p), headers), parseV6) == Ok(Domain(name, p))
            <==> Printable(name)
  {
    hide ParseConnectTarget, ParseIpv4;
    NoAddressIff(name);
    if Printable(name) {
      ParseHeadOfHost(name, p, headers, parseV6);
    } else if ParseConnectTarget(ConnectHead(Domain(name, p), headers), parseV6) == Ok(Domain(name, p)) {
      ParsedDomainIsPrintable(ConnectHead(Domain(name, p), headers), parseV6);
    }
  }
}
