/** The PAC generator as a compiler from the two domain lists to the decision program it prints,
    and that program's meaning in a browser. */
module Pac {
  import opened Bytes
  import opened Domains

  const STAR: byte := 42
  const QUESTION: byte := 63

  /** The conditions the generated script uses. */
  datatype Cond =
    | HostIs(name: Text)              // host === "name"
    | DnsDomainIs(suffix: Text)       // dnsDomainIs(host, "suffix")
    | ShExpMatch(pattern: Text)       // shExpMatch(host, "pattern")
    | Or(left: Cond, right: Cond)
    | False

  /** An early `return "DIRECT"`. */
  datatype Rule = DirectIf(cond: Cond) | DirectIfUrlHas(needle: Text)

  datatype Script = Script(rules: seq<Rule>, chainIf: Cond)

  // ── Compilation ────────────────────────────────────────────────────────

  predicate IsWildcard(domain: Text) {
    |domain| >= 2 && domain[..2] == [STAR, DOT]
  }

  function DomainCondition(domain: Text): Cond {
    if IsWildcard(domain) then ShExpMatch([STAR, DOT] + domain[2..])
    else Or(HostIs(domain), DnsDomainIs([DOT] + domain))
  }

  function BuildConditionBlock(conditions: seq<Cond>): Cond {
    if conditions == [] then False
    else if |conditions| == 1 then conditions[0]
    else Or(conditions[0], BuildConditionBlock(conditions[1..]))
  }

  function DirectRules(domains: seq<Text>): seq<Rule> {
    if domains == [] then []
    else DirectRules(domains[..|domains| - 1])
         + [DirectIf(DomainCondition(domains[|domains| - 1])), DirectIfUrlHas(domains[|domains| - 1])]
  }

  method BuildDirectRules(domains: seq<Text>) returns (blocks: seq<Rule>)
    ensures blocks == DirectRules(domains)
  {
    blocks := [];
    for i := 0 to |domains|
      invariant blocks == DirectRules(domains[..i])
    {
      assert domains[..i + 1][..i] == domains[..i];
      blocks := blocks + [DirectIf(DomainCondition(domains[i])), DirectIfUrlHas(domains[i])];
    }
    assert domains[..|domains|] == domains;
  }

  function Conditions(domains: seq<Text>): (cs: seq<Cond>)
    ensures |cs| == |domains|
  {
    seq(|domains|, i requires 0 <= i < |domains| => DomainCondition(domains[i]))
  }

  function Generate(direct: seq<Text>, proxy: seq<Text>): Script {
    Script(DirectRules(direct), BuildConditionBlock(Conditions(proxy)))
  }

  // ── Meaning ────────────────────────────────────────────────────────────

  /** `shExpMatch`: `*` stands for any run of characters, `?` for any one. */
  predicate Glob(pattern: Text, s: Text)
    decreases |pattern| + |s|
  {
    if pattern == [] then s == []
    else if pattern[0] == STAR then Glob(pattern[1..], s) || (s != [] && Glob(pattern, s[1..]))
    else s != [] && (pattern[0] == QUESTION || pattern[0] == s[0]) && Glob(pattern[1..], s[1..])
  }

  predicate Holds(c: Cond, host: Text) {
    match c
    case HostIs(name) => host == name
    case DnsDomainIs(suffix) => EndsWith(host, suffix)
    case ShExpMatch(pattern) => Glob(pattern, host)
    case Or(l, r) => Holds(l, host) || Holds(r, host)
    case False => false
  }

  /** `url.indexOf(needle) !== -1`. */
  predicate Occurs(needle: Text, url: Text) {
    exists i :: 0 <= i <= |url| && needle <= url[i..]
  }

  predicate Fires(r: Rule, url: Text, host: Text) {
    match r
    case DirectIf(c) => Holds(c, host)
    case DirectIfUrlHas(n) => Occurs(n, url)
  }

  /** `FindProxyForURL(url, host)` returns the proxy chain. */
  predicate ReturnsChain(s: Script, url: Text, host: Text)
    decreases |s.rules|
  {
    if s.rules == [] then Holds(s.chainIf, host)
    else !Fires(s.rules[0], url, host) && ReturnsChain(s.(rules := s.rules[1..]), url, host)
  }

  // ── Correctness of the compilation ─────────────────────────────────────

  lemma {:induction false} RulesAllPass(s: Script, url: Text, host: Text)
    ensures ReturnsChain(s, url, host)
            <==> (forall r :: r in s.rules ==> !Fires(r, url, host)) && Holds(s.chainIf, host)
    decreases |s.rules|
  {
    if s.rules != [] {
      RulesAllPass(s.(rules := s.rules[1..]), url, host);
      assert forall r :: r in s.rules <==> r == s.rules[0] || r in s.rules[1..];
    }
  }

  lemma {:induction false} BlockHoldsIff(cs: seq<Cond>, host: Text)
    ensures Holds(BuildConditionBlock(cs), host) <==> exists c :: c in cs && Holds(c, host)
  {
    if |cs| == 1 {
      assert cs[0] in cs;
    } else if |cs| > 1 {
      BlockHoldsIff(cs[1..], host);
      if exists c :: c in cs && Holds(c, host) {
        var c :| c in cs && Holds(c, host);
        assert c == cs[0] || c in cs[1..];
      }
      if exists c :: c in cs[1..] && Holds(c, host) {
        var c :| c in cs[1..] && Holds(c, host);
        assert c in cs;
      }
      assert cs[0] in cs;
    }
  }

  lemma {:induction false} DirectRulesAre(domains: seq<Text>, r: Rule)
    ensures r in DirectRules(domains)
            <==> exists d :: d in domains && (r == DirectIf(DomainCondition(d)) || r == DirectIfUrlHas(d))
  {
    if domains != [] {
      var front, last := domains[..|domains| - 1], domains[|domains| - 1];
      DirectRulesAre(front, r);
      assert forall d :: d in domains <==> d in front || d == last;
    }
  }

  lemma {:induction false} ConditionsAre(domains: seq<Text>, c: Cond)
    ensures c in Conditions(domains) <==> exists d :: d in domains && c == DomainCondition(d)
  {
    var cs := Conditions(domains);
    if c in cs {
      var i :| 0 <= i < |cs| && cs[i] == c;
      assert domains[i] in domains;
    }
    if exists d :: d in domains && c == DomainCondition(d) {
      var d :| d in domains && c == DomainCondition(d);
      var i :| 0 <= i < |domains| && domains[i] == d;
      assert cs[i] == c;
    }
  }

  /** For every pair of lists: the script returns the chain iff some proxy entry's condition holds,
      no direct entry's does, and no direct entry's text occurs anywhere in the url. */
  lemma {:induction false} ChainIff(direct: seq<Text>, proxy: seq<Text>, url: Text, host: Text)
    ensures ReturnsChain(Generate(direct, proxy), url, host)
            <==> && (forall d :: d in direct ==> !Holds(DomainCondition(d), host) && !Occurs(d, url))
                 && (exists p :: p in proxy && Holds(DomainCondition(p), host))
  {
    var s := Generate(direct, proxy);
    RulesAllPass(s, url, host);
    BlockHoldsIff(Conditions(proxy), host);
    forall r ensures r in s.rules <==> exists d :: d in direct && (r == DirectIf(DomainCondition(d)) || r == DirectIfUrlHas(d)) {
      DirectRulesAre(direct, r);
    }
    if forall r :: r in s.rules ==> !Fires(r, url, host) {
      forall d | d in direct ensures !Holds(DomainCondition(d), host) && !Occurs(d, url) {
        assert DirectIf(DomainCondition(d)) in s.rules && DirectIfUrlHas(d) in s.rules;
        assert !Fires(DirectIf(DomainCondition(d)), url, host) && !Fires(DirectIfUrlHas(d), url, host);
      }
    }
    forall c ensures c in Conditions(proxy) <==> exists p :: p in proxy && c == DomainCondition(p) {
      ConditionsAre(proxy, c);
    }
    if exists p :: p in proxy && Holds(DomainCondition(p), host) {
      var p :| p in proxy && Holds(DomainCondition(p), host);
      assert DomainCondition(p) in Conditions(proxy);
    }
  }

  /** No upper-case ASCII letter. */
  predicate IsLower(s: Text) {
    Lower(s) == s
  }

  /** An entry both implementations read the same way. */
  predicate Plain(domain: Text) {
    IsLower(domain) && !IsWildcard(domain)
  }

  lemma PlainConditionMatches(domain: Text, host: Text)
    requires Plain(domain) && IsLower(host)
    ensures Holds(DomainCondition(domain), host) <==> DomainMatches(host, domain)
  {
  }

  /** The compilation preserves routing: for plain entries and lower-case names, the browser gets
      the chain exactly when the routing proxy would go upstream and no direct entry's text occurs
      in the url. */
  lemma {:induction false} CompilationPreservesRouting(
      direct: seq<Text>, proxy: seq<Text>, url: Text, host: Text, p: port)
    requires IsLower(host)
    requires forall d :: d in direct ==> Plain(d)
    requires forall q :: q in proxy ==> Plain(q)
    ensures ReturnsChain(Generate(direct, proxy), url, host)
            <==> && RouteFor(Domain(host, p), direct, proxy) == Upstream
                 && (forall d :: d in direct ==> !Occurs(d, url))
  {
    ChainIff(direct, proxy, url, host);
    AnyMatchesIffMember(host, direct);
    AnyMatchesIffMember(host, proxy);
    forall d | d in direct ensures Holds(DomainCondition(d), host) <==> DomainMatches(host, d) {
      PlainConditionMatches(d, host);
    }
    forall q | q in proxy ensures Holds(DomainCondition(q), host) <==> DomainMatches(host, q) {
      PlainConditionMatches(q, host);
    }
  }

  // ── Where the two implementations part ─────────────────────────────────

  predicate GlobFree(s: Text) {
    STAR !in s && QUESTION !in s
  }

  lemma {:induction false} LiteralGlob(pattern: Text, s: Text)
    requires GlobFree(pattern)
    ensures Glob(pattern, s) <==> pattern == s
  {
    if pattern != [] && s != [] {
      LiteralGlob(pattern[1..], s[1..]);
      assert pattern == [pattern[0]] + pattern[1..] && s == [s[0]] + s[1..];
    }
  }

  lemma {:induction false} StarGlob(tail: Text, s: Text)
    requires GlobFree(tail)
    ensures Glob([STAR] + tail, s) <==> EndsWith(s, tail)
    decreases |s|
  {
    var pattern := [STAR] + tail;
    assert pattern[1..] == tail;
    LiteralGlob(tail, s);
    if s != [] {
      StarGlob(tail, s[1..]);
      if |tail| < |s| { assert s[|s| - |tail|..] == s[1..][|s[1..]| - |tail|..]; }
      if |tail| == |s| { assert s[0..] == s; }
    }
  }

  lemma SuffixBytes(s: Text, suffix: Text, b: byte)
    requires b in suffix
    ensures EndsWith(s, suffix) ==> b in s
  {
    if EndsWith(s, suffix) {
      var i :| 0 <= i < |suffix| && suffix[i] == b;
      assert s[|s| - |suffix|..][i] == b;
    }
  }

  /** A wildcard entry is live in the PAC script, where it covers the names below its base, and dead
      in the routing proxy, where no name without a literal `*` matches it. So the two agree on such
      a name exactly when it is not below the base. */
  lemma {:induction false} WildcardEntriesDiffer(base: Text, host: Text)
    requires GlobFree(base) && STAR !in host
    ensures Holds(DomainCondition([STAR, DOT] + base), host) <==> EndsWith(host, [DOT] + base)
    ensures !DomainMatches(host, [STAR, DOT] + base)
  {
    var entry := [STAR, DOT] + base;
    assert entry[2..] == base;
    assert [STAR] + ([DOT] + base) == entry;
    StarGlob([DOT] + base, host);
    var h, e := Lower(host), Lower(entry);
    assert e[0] == STAR;
    assert ([DOT] + e)[1] == STAR;
    SuffixBytes(h, e, STAR);
    SuffixBytes(h, [DOT] + e, STAR);
    assert h == e ==> EndsWith(h, e);
  }

  /** The url test reaches past the host: with direct entry "d" and proxy entry "e", a url on host
      "e" whose text contains a d goes DIRECT in the browser and upstream through the proxy. */
  lemma UrlTextOverridesRoute()
    ensures var direct, proxy, host, url := [[100]], [[101]], [101], [101, 47, 100];
            && RouteFor(Domain(host, 443), direct, proxy) == Upstream
            && !ReturnsChain(Generate(direct, proxy), url, host)
  {
    ChainIff([[100]], [[101]], [101, 47, 100], [101]);
    assert [100] <= [101, 47, 100][2..];
    assert Occurs([100], [101, 47, 100]);
    assert Lower([101])[0] != Lower([100])[0];
    assert !AnyMatches([101], [[100]]);
    assert AnyMatches([101], [[101]]);
    assert [100] in [[100]];
  }

  lemma LowerTail(s: Text, k: nat)
    requires IsLower(s) && k <= |s|
    ensures IsLower(s[k..])
  {
    assert forall i :: 0 <= i < |s[k..]| ==> Lower(s[k..])[i] == Lower(s)[k + i];
  }

  lemma LowerTwice(s: Text)
    ensures IsLower(Lower(s)) && (IsWildcard(Lower(s)) <==> IsWildcard(s))
  {
  }

  /** An upper-case letter makes an entry dead in the browser, which compares it as it stands with a
      lower-case name. The routing proxy reads it as if it were lower-case, so the two disagree on
      exactly the names the entry matches there. */
  lemma {:induction false} UpperCaseEntriesDiffer(entry: Text, host: Text)
    requires !IsLower(entry) && !IsWildcard(entry) && IsLower(host)
    ensures !Holds(DomainCondition(entry), host)
    ensures DomainMatches(host, entry) <==> Holds(DomainCondition(Lower(entry)), host)
    ensures (Holds(DomainCondition(entry), host) <==> DomainMatches(host, entry)) <==> !DomainMatches(host, entry)
  {
    LowerTwice(entry);
    PlainConditionMatches(Lower(entry), host);
    if EndsWith(host, [DOT] + entry) {
      var k := |host| - |entry|;
      assert host[k..] == entry by { assert host[k - 1..] == [DOT] + entry; }
      LowerTail(host, k);
    }
  }

  /** So on every entry and every lower-case name without a `*` the two implementations agree, unless
      the entry is a wildcard above the name or spells a suffix of it with an upper-case letter. */
  lemma {:induction false} EntriesAgreeIff(entry: Text, host: Text)
    requires IsLower(host) && STAR !in host && (IsWildcard(entry) ==> GlobFree(entry[2..]))
    ensures (Holds(DomainCondition(entry), host) <==> DomainMatches(host, entry))
            <==> if IsWildcard(entry) then !EndsWith(host, entry[1..]) else IsLower(entry) || !DomainMatches(host, entry)
  {
    if IsWildcard(entry) {
      assert [STAR, DOT] + entry[2..] == entry;
      assert [DOT] + entry[2..] == entry[1..];
      WildcardEntriesDiffer(entry[2..], host);
    } else if IsLower(entry) {
      PlainConditionMatches(entry, host);
    } else {
      UpperCaseEntriesDiffer(entry, host);
    }
  }
}
