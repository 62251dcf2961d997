/** The hand-written JSON string encoder, against a reader of JSON strings as section 7 of RFC 8259
    defines them. */
module Json {
  import opened Bytes

  // ── The encoder ────────────────────────────────────────────────────────

  function HexDigit(n: int): char
    requires 0 <= n < 16
  {
    "0123456789abcdef"[n]
  }

  function EncodeChar(c: char): string {
    if c == '"' then "\\\""
    else if c == '\\' then "\\\\"
    else if c == '\n' then "\\n"
    else if c == '\r' then "\\r"
    else if c == '\t' then "\\t"
    else if c < ' ' then ['\\', 'u', '0', '0', HexDigit(c as int / 16), HexDigit(c as int % 16)]
    else [c]
  }

  function EncodeBody(s: string): string {
    if s == [] then [] else EncodeChar(s[0]) + EncodeBody(s[1..])
  }

  function Encode(s: string): string {
    ['"'] + EncodeBody(s) + ['"']
  }

  /** The match in the loop of `serde_json_encode`: `c` is pushed onto `out`, escaped where it has to be. */
  method Push(out: string, c: char) returns (r: string)
    ensures r == out + EncodeChar(c)
  {
    match c {
      case '"' => r := out + "\\\"";
      case '\\' => r := out + "\\\\";
      case '\n' => r := out + "\\n";
      case '\r' => r := out + "\\r";
      case '\t' => r := out + "\\t";
      case c =>
        if c < ' ' {
          r := out + ['\\', 'u', '0', '0', HexDigit(c as int / 16), HexDigit(c as int % 16)];
        } else {
          r := out + [c];
        }
    }
  }

  /** `serde_json_encode`. */
  method SerdeJsonEncode(s: string) returns (out: string)
    ensures out == Encode(s)
  {
    hide EncodeChar;
    out := ['"'];
    for i := 0 to |s|
      invariant out + EncodeBody(s[i..]) == ['"'] + EncodeBody(s)
    {
      ghost var rest := EncodeBody(s[i + 1..]);
      assert s[i..][1..] == s[i + 1..];
      assert out + (EncodeChar(s[i]) + rest) == out + EncodeChar(s[i]) + rest;
      out := Push(out, s[i]);
    }
    out := out + ['"'];
  }

  // ── The reader ─────────────────────────────────────────────────────────

  function HexValue(c: char): Option<int> {
    if '0' <= c <= '9' then Some(c as int - '0' as int)
    else if 'a' <= c <= 'f' then Some(c as int - 'a' as int + 10)
    else if 'A' <= c <= 'F' then Some(c as int - 'A' as int + 10)
    else None
  }

  /** The UTF-16 code unit spelled by the four hex digits at the front of `t`. */
  function CodeUnit(t: string): (r: Option<int>)
    ensures r.Some? ==> |t| >= 4
  {
    if |t| < 4 then None
    else
      match (HexValue(t[0]), HexValue(t[1]), HexValue(t[2]), HexValue(t[3]))
      case (Some(a), Some(b), Some(c), Some(d)) => Some(4096 * a + 256 * b + 16 * c + d)
      case _ => None
  }

  /** The character behind a backslash and how many characters spell it. A code unit of a surrogate
      pair stands for a character only together with its other half. */
  function ReadEscape(t: string): (r: Option<(char, nat)>)
    ensures r.Some? ==> 1 <= r.value.1 <= |t|
  {
    if t == [] then None
    else if t[0] == '"' || t[0] == '\\' || t[0] == '/' then Some((t[0], 1))
    else if t[0] == 'b' then Some((8 as char, 1))
    else if t[0] == 'f' then Some((12 as char, 1))
    else if t[0] == 'n' then Some(('\n', 1))
    else if t[0] == 'r' then Some(('\r', 1))
    else if t[0] == 't' then Some(('\t', 1))
    else if t[0] == 'u' then
      match CodeUnit(t[1..])
      case None => None
      case Some(n) =>
        if 0 <= n < 0xD800 || 0xE000 <= n < 0x10000 then Some((n as char, 5))
        else if 0xD800 <= n < 0xDC00 && |t| >= 7 && t[5..7] == "\\u" then
          match CodeUnit(t[7..])
          case Some(m) =>
            if 0xDC00 <= m < 0xE000 then Some(((0x10000 + 1024 * (n - 0xD800) + (m - 0xDC00)) as char, 11)) else None
          case None => None
        else None
    else None
  }

  function Cons(c: char, r: Option<(string, string)>): Option<(string, string)> {
    match r
    case None => None
    case Some((s, rest)) => Some(([c] + s, rest))
  }

  /** The rest of a string behind its opening quote, and what follows its closing one. */
  function ReadBody(t: string): Option<(string, string)>
    decreases |t|
  {
    if t == [] || t[0] < ' ' then None
    else if t[0] == '"' then Some(([], t[1..]))
    else if t[0] == '\\' then
      match ReadEscape(t[1..])
      case None => None
      case Some((c, n)) => Cons(c, ReadBody(t[1 + n..]))
    else Cons(t[0], ReadBody(t[1..]))
  }

  function ReadString(t: string): Option<(string, string)> {
    if t == [] || t[0] != '"' then None else ReadBody(t[1..])
  }

  // ── Round trip ─────────────────────────────────────────────────────────

  lemma HexRoundTrip(c: char, t: string)
    requires c < ' '
    ensures ReadEscape(['u', '0', '0', HexDigit(c as int / 16), HexDigit(c as int % 16)] + t) == Some((c, 5))
  {
    var u := ['u', '0', '0', HexDigit(c as int / 16), HexDigit(c as int % 16)] + t;
    assert CodeUnit(u[1..]) == Some(c as int);
  }

  lemma ReadEncodedChar(c: char, t: string)
    ensures ReadBody(EncodeChar(c) + t) == Cons(c, ReadBody(t))
  {
    var e := EncodeChar(c);
    var u := e + t;
    assert u[|e|..] == t;
    if |e| > 1 {
      assert u[1..] == e[1..] + t;
      if |e| == 6 { HexRoundTrip(c, t); }
      assert u[1..][|e| - 1..] == t;
    }
  }

  lemma {:induction false} ReadEncodedBody(s: string, t: string)
    ensures ReadBody(EncodeBody(s) + ['"'] + t) == Some((s, t))
    decreases |s|
  {
    hide EncodeChar;
    if s == [] {
      assert (EncodeBody(s) + ['"'] + t)[1..] == t;
    } else {
      var rest := EncodeBody(s[1..]) + ['"'] + t;
      ReadEncodedBody(s[1..], t);
      ReadEncodedChar(s[0], rest);
      assert EncodeBody(s) + ['"'] + t == EncodeChar(s[0]) + rest;
      assert [s[0]] + s[1..] == s;
    }
  }

  /** The encoding is self-delimiting and invertible: whatever follows it, a JSON reader gets the
      string back and stops right behind the closing quote. */
  lemma {:induction false} EncodingIsInvertible(s: string, t: string)
    ensures ReadString(Encode(s) + t) == Some((s, t))
  {
    ReadEncodedBody(s, t);
    assert (Encode(s) + t)[1..] == EncodeBody(s) + ['"'] + t;
  }

  /** So no encoding is a prefix of a different string's encoding. */
  lemma {:induction false} EncodingIsPrefixFree(a: string, b: string, t: string)
    requires Encode(a) + t == Encode(b)
    ensures a == b && t == []
  {
    EncodingIsInvertible(a, t);
    EncodingIsInvertible(b, []);
    assert Encode(b) + [] == Encode(b);
  }

  /** No raw control character, which a JSON string must not contain, is ever written. */
  lemma {:induction false} NoRawControl(s: string)
    ensures forall i :: 0 <= i < |EncodeBody(s)| ==> EncodeBody(s)[i] >= ' '
  {
    if s != [] { NoRawControl(s[1..]); }
  }
}
