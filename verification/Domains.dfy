/** Per-domain routing: `domain_matches`, `route_for` and `route_label_for_host`. */
module Domains {
  import opened Bytes

  const DOT: byte := 46

  function LowerByte(b: byte): byte {
    if 65 <= b <= 90 then b + 32 else b
  }

  /** `to_ascii_lowercase`. */
  function Lower(s: Text): (r: Text)
    ensures |r| == |s|
  {
    seq(|s|, i requires 0 <= i < |s| => LowerByte(s[i]))
  }

  /** ASCII letters that differ in case only are 32 apart. */
  predicate SameLetter(a: byte, b: byte) {
    a == b || (65 <= a <= 90 && b == a + 32) || (65 <= b <= 90 && a == b + 32)
  }

  predicate SameButCase(a: Text, b: Text) {
    |a| == |b| && forall i :: 0 <= i < |a| ==> SameLetter(a[i], b[i])
  }

  /** Lower-casing forgets exactly the case of ASCII letters, and leaves no capital. */
  lemma {:induction false} LowerIff(a: Text, b: Text)
    ensures Lower(a) == Lower(b) <==> SameButCase(a, b)
    ensures forall i :: 0 <= i < |a| ==> !(65 <= Lower(a)[i] <= 90)
  {
    if Lower(a) == Lower(b) {
      forall i | 0 <= i < |a| ensures SameLetter(a[i], b[i]) {
        assert Lower(a)[i] == Lower(b)[i];
      }
    }
  }

  predicate EndsWith(s: Text, suffix: Text) {
    |suffix| <= |s| && s[|s| - |suffix|..] == suffix
  }

  predicate DomainMatches(hostname: Text, pattern: Text) {
    var h := Lower(hostname);
    var p := Lower(pattern);
    h == p || EndsWith(h, [DOT] + p)
  }

  datatype Target =
    | Ipv4(v4: V4, port: port)
    | Ipv6(v6: V6, port: port)
    | Domain(name: Text, port: port)

  type V4 = a: seq<byte> | |a| == 4 witness [0, 0, 0, 0]
  type V6 = a: seq<byte> | |a| == 16 witness [0, 0, 0, 0, 0, 0, 0, 0, 0, 0, 0, 0, 0, 0, 0, 0]

  datatype Route = Direct | Upstream

  /** The loop over a domain list that returns at the first match. */
  predicate AnyMatches(hostname: Text, patterns: seq<Text>) {
    patterns != [] && (DomainMatches(hostname, patterns[0]) || AnyMatches(hostname, patterns[1..]))
  }

  function RouteFor(target: Target, direct: seq<Text>, proxy: seq<Text>): Route {
    match target
    case Ipv4(_, _) => Direct
    case Ipv6(_, _) => Direct
    case Domain(name, _) =>
      if AnyMatches(name, direct) then Direct
      else if AnyMatches(name, proxy) then Upstream
      else Direct
  }

  function RouteLabelForHost(hostname: Text, direct: seq<Text>, proxy: seq<Text>): string {
    if AnyMatches(hostname, direct) then "direct"
    else if AnyMatches(hostname, proxy) then "tunnel"
    else "direct"
  }

  // ── Labels: the reference meaning of a match ────────────────────────────

  /** Dot-separated labels, as DNS reads a name; the empty name is one empty label. */
  function Split(s: Text): (ls: seq<Text>)
    ensures |ls| >= 1
  {
    if s == [] then [[]]
    else
      var rest := Split(s[1..]);
      if s[0] == DOT then [[]] + rest else [[s[0]] + rest[0]] + rest[1..]
  }

  function Join(ls: seq<Text>): Text
    requires |ls| >= 1
  {
    if |ls| == 1 then ls[0] else ls[0] + [DOT] + Join(ls[1..])
  }

  predicate IsSuffix(a: seq<Text>, b: seq<Text>) {
    |a| <= |b| && b[|b| - |a|..] == a
  }

  lemma {:induction false} JoinSplit(s: Text)
    ensures Join(Split(s)) == s
  {
    if s != [] {
      JoinSplit(s[1..]);
      var rest := Split(s[1..]);
      if s[0] == DOT {
        assert ([[]] + rest)[1..] == rest;
      } else {
        assert Split(s)[1..] == rest[1..];
      }
    }
  }

  lemma SplitStep(c: byte, s: Text)
    ensures Split([]) == [[]]
    ensures var rest := Split(s);
            Split([c] + s) == if c == DOT then [[]] + rest else [[c] + rest[0]] + rest[1..]
  {
    assert ([c] + s)[1..] == s;
  }

  lemma FrontOfConcat(x: Text, a: seq<Text>, b: seq<Text>)
    ensures [x] + a + b == [x] + (a + b)
    ensures a != [] ==> (a + b)[0] == a[0] && (a + b)[1..] == a[1..] + b
  {
  }

  lemma {:induction false} SplitDot(a: Text, b: Text)
    ensures Split(a + [DOT] + b) == Split(a) + Split(b)
  {
    hide Split;
    if a == [] {
      assert a + [DOT] + b == [DOT] + b;
      SplitStep(DOT, b);
    } else {
      var rest := Split(a[1..]);
      assert a + [DOT] + b == [a[0]] + (a[1..] + [DOT] + b) && a == [a[0]] + a[1..];
      SplitStep(a[0], a[1..]);
      SplitStep(a[0], a[1..] + [DOT] + b);
      SplitDot(a[1..], b);
      FrontOfConcat([], rest, Split(b));
      FrontOfConcat([a[0]] + rest[0], rest[1..], Split(b));
    }
  }

  lemma {:induction false} JoinConcat(a: seq<Text>, b: seq<Text>)
    requires |a| >= 1 && |b| >= 1
    ensures Join(a + b) == Join(a) + [DOT] + Join(b)
  {
    if |a| == 1 {
      assert (a + b)[1..] == b;
    } else {
      JoinConcat(a[1..], b);
      assert (a + b)[1..] == a[1..] + b;
    }
  }

  lemma {:induction false} SplitDotFree(s: Text)
    requires DOT !in s
    ensures Split(s) == [s]
  {
    if s != [] {
      SplitDotFree(s[1..]);
      assert [s[0]] + s[1..] == s;
    }
  }

  lemma {:induction false} SplitJoin(ls: seq<Text>)
    requires |ls| >= 1
    requires forall i :: 0 <= i < |ls| ==> DOT !in ls[i]
    ensures Split(Join(ls)) == ls
  {
    SplitDotFree(ls[0]);
    if |ls| > 1 {
      SplitJoin(ls[1..]);
      SplitDot(ls[0], Join(ls[1..]));
      assert ls == [ls[0]] + ls[1..];
    } else {
      assert ls == [ls[0]];
    }
  }

  lemma {:induction false} SuffixSpellsTail(h: Text, p: Text)
    requires IsSuffix(Split(p), Split(h))
    ensures h == p || EndsWith(h, [DOT] + p)
  {
    hide Split, Join;
    JoinSplit(h);
    JoinSplit(p);
    var hs, ps := Split(h), Split(p);
    var k := |hs| - |ps|;
    if k == 0 {
      assert hs[0..] == hs;
    } else {
      assert hs == hs[..k] + ps;
      JoinConcat(hs[..k], ps);
      assert h == Join(hs[..k]) + ([DOT] + p);
    }
  }

  lemma {:induction false} TailSpellsSuffix(h: Text, p: Text)
    requires h == p || EndsWith(h, [DOT] + p)
    ensures IsSuffix(Split(p), Split(h))
  {
    if h != p {
      var front := h[..|h| - |p| - 1];
      assert h == front + [DOT] + p;
      SplitDot(front, p);
    }
  }

  /** A pattern matches exactly the names whose trailing labels it spells, ignoring ASCII case. */
  lemma {:induction false} MatchesIffLabelSuffix(hostname: Text, pattern: Text)
    ensures DomainMatches(hostname, pattern) <==> IsSuffix(Split(Lower(pattern)), Split(Lower(hostname)))
  {
    var h, p := Lower(hostname), Lower(pattern);
    if h == p || EndsWith(h, [DOT] + p) { TailSpellsSuffix(h, p); }
    if IsSuffix(Split(p), Split(h)) { SuffixSpellsTail(h, p); }
  }

  lemma MatchesReflexive(s: Text)
    ensures DomainMatches(s, s)
  {
  }

  lemma {:induction false} MatchesTransitive(a: Text, b: Text, c: Text)
    requires DomainMatches(a, b) && DomainMatches(b, c)
    ensures DomainMatches(a, c)
  {
    MatchesIffLabelSuffix(a, b);
    MatchesIffLabelSuffix(b, c);
    MatchesIffLabelSuffix(a, c);
    var x, y, z := Split(Lower(a)), Split(Lower(b)), Split(Lower(c));
    assert x[|x| - |z|..] == x[|x| - |y|..][|y| - |z|..];
  }

  // ── Routes ─────────────────────────────────────────────────────────────

  lemma {:induction false} AnyMatchesIffMember(hostname: Text, patterns: seq<Text>)
    ensures AnyMatches(hostname, patterns) <==> exists p :: p in patterns && DomainMatches(hostname, p)
  {
    if patterns != [] {
      AnyMatchesIffMember(hostname, patterns[1..]);
      if exists p :: p in patterns && DomainMatches(hostname, p) {
        var p :| p in patterns && DomainMatches(hostname, p);
        assert p == patterns[0] || p in patterns[1..];
      }
    }
  }

  /** Every entry of `b` is matched by some entry of `a`, which therefore matches whatever it matches. */
  ghost predicate Covers(a: seq<Text>, b: seq<Text>) {
    forall q :: q in b ==> exists p :: p in a && DomainMatches(q, p)
  }

  lemma {:induction false} CoverKeepsMatches(hostname: Text, a: seq<Text>, b: seq<Text>)
    requires Covers(a, b) && AnyMatches(hostname, b)
    ensures AnyMatches(hostname, a)
  {
    AnyMatchesIffMember(hostname, a);
    AnyMatchesIffMember(hostname, b);
    var q :| q in b && DomainMatches(hostname, q);
    var p :| p in a && DomainMatches(q, p);
    MatchesTransitive(hostname, q, p);
  }

  /** Only what the lists cover matters: reordering, repeating, re-casing an entry, or dropping an
      entry that another one in its list covers never changes a route. */
  lemma {:induction false} RouteDependsOnCoverOnly(
      target: Target, direct: seq<Text>, proxy: seq<Text>, direct': seq<Text>, proxy': seq<Text>)
    requires Covers(direct, direct') && Covers(direct', direct)
    requires Covers(proxy, proxy') && Covers(proxy', proxy)
    ensures RouteFor(target, direct, proxy) == RouteFor(target, direct', proxy')
  {
    if target.Domain? {
      var h := target.name;
      if AnyMatches(h, direct) { CoverKeepsMatches(h, direct', direct); }
      if AnyMatches(h, direct') { CoverKeepsMatches(h, direct, direct'); }
      if AnyMatches(h, proxy) { CoverKeepsMatches(h, proxy', proxy); }
      if AnyMatches(h, proxy') { CoverKeepsMatches(h, proxy, proxy'); }
    }
  }

  lemma {:induction false} DroppingCoveredEntry(list: seq<Text>, i: nat, j: nat)
    requires i < |list| && j < |list| && i != j && DomainMatches(list[i], list[j])
    ensures Covers(list, list[..i] + list[i + 1..]) && Covers(list[..i] + list[i + 1..], list)
  {
    var shorter := list[..i] + list[i + 1..];
    assert list[j] in shorter by {
      if j < i { assert shorter[j] == list[j]; } else { assert shorter[j - 1] == list[j]; }
    }
    forall q | q in list
      ensures exists p :: p in shorter && DomainMatches(q, p)
    {
      var k :| 0 <= k < |list| && list[k] == q;
      if k < i {
        assert shorter[k] == q;
      } else if k > i {
        assert shorter[k - 1] == q;
      }
      MatchesReflexive(q);
    }
    forall q | q in shorter
      ensures q in list && DomainMatches(q, q)
    {
      MatchesReflexive(q);
    }
  }

  /** The routing decision in one line: a name goes upstream iff some proxy entry spells its
      trailing labels and no direct entry does; an IP address never goes upstream. */
  lemma {:induction false} UpstreamIff(target: Target, direct: seq<Text>, proxy: seq<Text>)
    ensures RouteFor(target, direct, proxy) == Upstream <==>
            && target.Domain?
            && (forall d :: d in direct ==> !IsSuffix(Split(Lower(d)), Split(Lower(target.name))))
            && (exists p :: p in proxy && IsSuffix(Split(Lower(p)), Split(Lower(target.name))))
  {
    if target.Domain? {
      var h := target.name;
      AnyMatchesIffMember(h, direct);
      AnyMatchesIffMember(h, proxy);
      forall p ensures DomainMatches(h, p) <==> IsSuffix(Split(Lower(p)), Split(Lower(h))) {
        MatchesIffLabelSuffix(h, p);
      }
    }
  }

  lemma LabelAgreesWithRoute(hostname: Text, p: port, direct: seq<Text>, proxy: seq<Text>)
    ensures RouteLabelForHost(hostname, direct, proxy) == "tunnel"
            <==> RouteFor(Domain(hostname, p), direct, proxy) == Upstream
    ensures RouteLabelForHost(hostname, direct, proxy) == "direct"
            <==> RouteFor(Domain(hostname, p), direct, proxy) == Direct
  {
  }
}
