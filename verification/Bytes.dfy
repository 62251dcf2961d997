/** Bytes, UTF-8 text and the two outcomes every reader of a byte stream in this
    project returns. A Rust `String` is its UTF-8 bytes, so text is modelled as bytes. */
module Bytes {
  type byte = b: int | 0 <= b < 256
  type port = p: int | 0 <= p < 65536
  type Text = seq<byte>

  datatype Option<+T> = None | Some(value: T)
  datatype Result<+T, +E> = Ok(value: T) | Err(error: E)

  /** What a reader makes of the bytes that have arrived so far: it is still blocked, it has
      taken `used` bytes and holds a value, or it has taken `used` bytes and gives up after
      writing `reply` to its peer. */
  datatype Outcome<+T> =
    | NeedMore
    | Done(value: T, used: nat)
    | Fail(used: nat, reply: seq<byte>)

  /** Network byte order: the high byte comes first. */
  function PortOf(hi: byte, lo: byte): (p: port)
    ensures p / 256 == hi && p % 256 == lo
  {
    hi * 256 + lo
  }

  function PortBytes(p: port): (bs: seq<byte>)
    ensures |bs| == 2 && (bs[0] as int) * 256 + bs[1] == p && PortOf(bs[0], bs[1]) == p
  {
    [p / 256, p % 256]
  }

  lemma PortOfBytes(hi: byte, lo: byte)
    ensures PortBytes(PortOf(hi, lo)) == [hi, lo]
  {
  }

  /** The bytes of an ASCII literal. */
  function Ascii(s: string): (bs: Text)
    ensures |bs| == |s|
    ensures forall i :: 0 <= i < |bs| ==> bs[i] < 128
  {
    seq(|s|, i requires 0 <= i < |s| => if s[i] < 128 as char then s[i] as int else 63)
  }

  lemma DropFront(a: seq<byte>, b: seq<byte>, c: seq<byte>)
    ensures (a + b + c)[|a|..] == b + c && (a + b + c)[..|a|] == a
  {
  }

  predicate Continuation(b: byte) {
    0x80 <= b < 0xC0
  }

  /** Length of the well-formed UTF-8 sequence at the front of `s` (section 4 of RFC 3629), or 0. */
  function CharLen(s: Text): (n: nat)
    ensures n <= |s|
  {
    if |s| == 0 then 0
    else if s[0] < 0x80 then 1
    else if |s| >= 2 && 0xC2 <= s[0] <= 0xDF && Continuation(s[1]) then 2
    else if |s| >= 3 && Continuation(s[1]) && Continuation(s[2]) && 0xE0 <= s[0] <= 0xEF
            && (s[0] == 0xE0 ==> 0xA0 <= s[1]) && (s[0] == 0xED ==> s[1] <= 0x9F) then 3
    else if |s| >= 4 && Continuation(s[1]) && Continuation(s[2]) && Continuation(s[3]) && 0xF0 <= s[0] <= 0xF4
            && (s[0] == 0xF0 ==> 0x90 <= s[1]) && (s[0] == 0xF4 ==> s[1] <= 0x8F) then 4
    else 0
  }

  predicate ValidUtf8(s: Text) {
    |s| == 0 || (CharLen(s) > 0 && ValidUtf8(s[CharLen(s)..]))
  }

  lemma {:induction false} ValidUtf8Concat(a: Text, b: Text)
    requires ValidUtf8(a) && ValidUtf8(b)
    ensures ValidUtf8(a + b)
    decreases |a|
  {
    if |a| == 0 {
      assert a + b == b;
    } else {
      var n := CharLen(a);
      assert CharLen(a + b) == n;
      assert (a + b)[n..] == a[n..] + b;
      ValidUtf8Concat(a[n..], b);
    }
  }

  lemma {:induction false} AsciiIsUtf8(a: Text)
    requires forall i :: 0 <= i < |a| ==> a[i] < 0x80
    ensures ValidUtf8(a)
    decreases |a|
  {
    if |a| > 0 { AsciiIsUtf8(a[1..]); }
  }

  // ── Validity is being the encoding of something ────────────────────────

  /** A Unicode scalar value. */
  type scalar = c: int | 0 <= c < 0xD800 || 0xE000 <= c < 0x110000

  /** The table of section 3 of RFC 3629. */
  function Utf8(c: scalar): (s: Text)
    ensures 1 <= |s| <= 4
  {
    if c < 0x80 then [c]
    else if c < 0x800 then [0xC0 + c / 0x40, 0x80 + c % 0x40]
    else if c < 0x10000 then [0xE0 + c / 0x1000, 0x80 + c / 0x40 % 0x40, 0x80 + c % 0x40]
    else [0xF0 + c / 0x40000, 0x80 + c / 0x1000 % 0x40, 0x80 + c / 0x40 % 0x40, 0x80 + c % 0x40]
  }

  function Utf8All(cs: seq<scalar>): Text {
    if cs == [] then [] else Utf8(cs[0]) + Utf8All(cs[1..])
  }

  lemma CharOfEncoding(c: scalar, rest: Text)
    ensures CharLen(Utf8(c) + rest) == |Utf8(c)|
  {
  }

  lemma Sextets(a: nat, b: nat, c: nat, d: nat)
    requires b < 0x40 && c < 0x40 && d < 0x40
    ensures var n := a * 0x40000 + b * 0x1000 + c * 0x40 + d;
            n / 0x40000 == a && n / 0x1000 % 0x40 == b && n / 0x40 % 0x40 == c && n % 0x40 == d
    ensures (b * 0x1000 + c * 0x40 + d) / 0x1000 == b && (c * 0x40 + d) / 0x40 == c
  {
    var n := a * 0x40000 + b * 0x1000 + c * 0x40 + d;
    assert n / 0x40 == a * 0x1000 + b * 0x40 + c;
    assert n / 0x1000 == a * 0x40 + b;
  }

  lemma LongCharIsEncoding(s: Text) returns (c: scalar)
    requires CharLen(s) == 4
    ensures s[..4] == Utf8(c)
  {
    Sextets(s[0] - 0xF0, s[1] - 0x80, s[2] - 0x80, s[3] - 0x80);
    c := (s[0] as int - 0xF0) * 0x40000 + (s[1] as int - 0x80) * 0x1000 + (s[2] as int - 0x80) * 0x40 + (s[3] as int - 0x80);
  }

  lemma CharIsEncoding(s: Text) returns (c: scalar)
    requires CharLen(s) > 0
    ensures s[..CharLen(s)] == Utf8(c)
  {
    if CharLen(s) == 1 {
      c := s[0];
    } else if CharLen(s) == 2 {
      Sextets(0, 0, s[0] - 0xC0, s[1] - 0x80);
      c := (s[0] as int - 0xC0) * 0x40 + (s[1] as int - 0x80);
    } else if CharLen(s) == 3 {
      Sextets(0, s[0] - 0xE0, s[1] - 0x80, s[2] - 0x80);
      c := (s[0] as int - 0xE0) * 0x1000 + (s[1] as int - 0x80) * 0x40 + (s[2] as int - 0x80);
    } else {
      c := LongCharIsEncoding(s);
    }
  }

  lemma {:induction false} EncodingIsValid(cs: seq<scalar>)
    ensures ValidUtf8(Utf8All(cs))
  {
    hide Utf8, CharLen;
    if cs != [] {
      EncodingIsValid(cs[1..]);
      CharOfEncoding(cs[0], Utf8All(cs[1..]));
      assert Utf8All(cs)[|Utf8(cs[0])|..] == Utf8All(cs[1..]);
    }
  }

  lemma {:induction false} ValidIsEncoding(s: Text) returns (cs: seq<scalar>)
    requires ValidUtf8(s)
    ensures s == Utf8All(cs)
    decreases |s|
  {
    hide Utf8, CharLen;
    cs := [];
    if s != [] {
      var c := CharIsEncoding(s);
      var more := ValidIsEncoding(s[CharLen(s)..]);
      cs := [c] + more;
      assert cs[1..] == more && s == s[..CharLen(s)] + s[CharLen(s)..];
    }
  }

  /** A text is valid exactly when it is the encoding of some scalar values. */
  lemma {:induction false} ValidUtf8Iff(s: Text)
    ensures ValidUtf8(s) <==> exists cs :: s == Utf8All(cs)
  {
    if ValidUtf8(s) { var cs := ValidIsEncoding(s); }
    if exists cs :: s == Utf8All(cs) {
      var cs :| s == Utf8All(cs);
      EncodingIsValid(cs);
    }
  }
}
