/** Route selection: the linear scan, the documented precedence, and the compiled index. */
module Routing {
  import opened Foundations
  import opened ConfigModel
  import opened PrefixTrie

  datatype Request = Request(
    url: Option<Bytes>,          // the request path, or no URL at all
    rawQuery: string, httpMethod: string, host: string, remoteAddr: string,
    header: string -> seq<string>)

  // ---- Conditions other than the path ----

  predicate StartsWith(s: string, p: string) { p <= s }

  predicate EndsWith(s: string, p: string) {
    |p| <= |s| && s[|s| - |p|..] == p
  }

  predicate ContainsText(s: string, p: string) {
    exists i | 0 <= i <= |s| :: StartsWith(s[i..], p)
  }

  predicate HeaderMatches(h: HeaderMatch, values: seq<string>) {
    match EffectiveOp(h)
    case Present => values != []
    case Equals => h.value in values
    case Prefix => exists v | v in values :: StartsWith(v, h.value)
    case Contains => exists v | v in values :: ContainsText(v, h.value)
    case Unset => false
    case Unknown(_) => false
  }

  function TrimPrefix(s: string, p: string): string {
    if StartsWith(s, p) then s[|p|..] else s
  }

  function TrimSuffix(s: string, p: string): string {
    if EndsWith(s, p) then s[..|s| - |p|] else s
  }

  /** Without the port, or without the brackets of an address that has no port. */
  function HostOnly(lib: Lib, host: string): string {
    match lib.splitHostPort(host)
    case Some(h) => lib.lower(h)
    case None => lib.lower(TrimSuffix(TrimPrefix(host, "["), "]"))
  }

  predicate ClientIPMatches(lib: Lib, cidrs: seq<string>, remoteAddr: string) {
    var split := lib.splitHostPort(remoteAddr);
    var ip := lib.parseIP(if split.Some? then split.value else remoteAddr);
    ip.Some? && exists c | c in cidrs :: lib.parsesCIDR(c) && lib.cidrContains(c, ip.value)
  }

  predicate HostMatches(lib: Lib, pattern: string, host: string) {
    var h, p := HostOnly(lib, host), lib.lower(pattern);
    if StartsWith(p, "*.") then EndsWith(h, p[1..]) && |h| > |p| - 1 else h == p
  }

  predicate MatchConditions(lib: Lib, rule: Rule, r: Request) {
    && (rule.httpMethod == "" || rule.httpMethod == r.httpMethod)
    && (forall h | h in rule.headers :: HeaderMatches(h, r.header(h.name)))
    && (rule.hosts == [] || exists p | p in rule.hosts :: HostMatches(lib, p, r.host))
    && (rule.clientCIDRs == [] || ClientIPMatches(lib, rule.clientCIDRs, r.remoteAddr))
  }

  /** What each kind of header condition asks for, the shorthand without an operator included. */
  lemma HeaderCondition(h: HeaderMatch, values: seq<string>)
    ensures h.op.Present? || (h.op.Unset? && h.value == "") ==> (HeaderMatches(h, values) <==> values != [])
    ensures h.op.Equals? || (h.op.Unset? && h.value != "") ==> (HeaderMatches(h, values) <==> h.value in values)
    ensures h.op.Prefix? ==> (HeaderMatches(h, values) <==> exists rest: string :: h.value + rest in values)
    ensures h.op.Contains? ==>
              (HeaderMatches(h, values) <==> exists a: string, b: string :: a + h.value + b in values)
    ensures h.op.Unknown? ==> !HeaderMatches(h, values)
  {
    if h.op.Prefix? {
      forall v | v in values && StartsWith(v, h.value) ensures exists rest: string :: h.value + rest in values {
        assert h.value + v[|h.value|..] == v;
      }
    }
    if h.op.Contains? {
      forall v | v in values && ContainsText(v, h.value)
        ensures exists a: string, b: string :: a + h.value + b in values
      {
        var i :| 0 <= i <= |v| && StartsWith(v[i..], h.value);
        assert v[..i] + h.value + v[i..][|h.value|..] == v;
      }
      forall a: string, b: string | a + h.value + b in values ensures ContainsText(a + h.value + b, h.value) {
        assert (a + h.value + b)[|a|..] == h.value + b;
      }
    }
  }

  /** The conditions of a rule are all needed, and none is no condition. */
  lemma ConditionsCombine(lib: Lib, rule: Rule, r: Request)
    ensures rule.httpMethod == "" && rule.headers == [] && rule.hosts == [] && rule.clientCIDRs == [] ==>
              MatchConditions(lib, rule, r)
    ensures rule.httpMethod != "" ==>
              (MatchConditions(lib, rule, r)
               <==> r.httpMethod == rule.httpMethod && MatchConditions(lib, rule.(httpMethod := ""), r))
    ensures forall h :: MatchConditions(lib, rule.(headers := rule.headers + [h]), r)
                   <==> MatchConditions(lib, rule, r) && HeaderMatches(h, r.header(h.name))
  {
  }

  /** Within the hosts, and within the networks, one is enough. */
  lemma AlternativesCombine(lib: Lib, rule: Rule, r: Request)
    ensures forall p :: MatchConditions(lib, rule.(hosts := rule.hosts + [p]), r)
                   <==> || (rule.hosts != [] && MatchConditions(lib, rule, r))
                        || (MatchConditions(lib, rule.(hosts := []), r) && HostMatches(lib, p, r.host))
    ensures forall c :: MatchConditions(lib, rule.(clientCIDRs := rule.clientCIDRs + [c]), r)
                   <==> || (rule.clientCIDRs != [] && MatchConditions(lib, rule, r))
                        || (MatchConditions(lib, rule.(clientCIDRs := []), r)
                            && ClientIPMatches(lib, [c], r.remoteAddr))
  {
  }

  /** The client's address, without the port if there is one, lies in one of the networks; networks and
      addresses that do not parse match nothing. */
  lemma ClientAddress(lib: Lib, cidrs: seq<string>, remoteAddr: string)
    ensures ClientIPMatches(lib, cidrs, remoteAddr)
       <==> exists c, ip, host | c in cidrs ::
              && lib.parsesCIDR(c) && lib.cidrContains(c, ip) && lib.parseIP(host) == Some(ip)
              && (lib.splitHostPort(remoteAddr) == Some(host)
                  || (lib.splitHostPort(remoteAddr) == None && host == remoteAddr))
  {
    if ClientIPMatches(lib, cidrs, remoteAddr) {
      var split := lib.splitHostPort(remoteAddr);
      var host := if split.Some? then split.value else remoteAddr;
      var ip := lib.parseIP(host).value;
      var c :| c in cidrs && lib.parsesCIDR(c) && lib.cidrContains(c, ip);
    }
  }

  /** A pattern without a wildcard stands for the one host. */
  lemma PlainPatternIsTheHost(lib: Lib, pattern: string, host: string)
    requires !StartsWith(lib.lower(pattern), "*.")
    ensures HostMatches(lib, pattern, host) <==> HostOnly(lib, host) == lib.lower(pattern)
  {
  }

  lemma TrimBrackets(name: string)
    ensures TrimSuffix(TrimPrefix("[" + name + "]", "["), "]") == name
  {
    var bracketed := "[" + name + "]";
    assert StartsWith(bracketed, "[") && bracketed[1..] == name + "]";
    assert (name + "]")[|name|..] == "]" && (name + "]")[..|name|] == name;
  }

  lemma TrimNothing(name: string)
    requires name == "" || (name[0] != '[' && name[|name| - 1] != ']')
    ensures TrimSuffix(TrimPrefix(name, "["), "]") == name
  {
    if name != "" { assert name[|name| - 1..] == [name[|name| - 1]]; }
  }

  /** A port, and the brackets around an address without one, do not count. */
  lemma HostOnlyStrips(lib: Lib, name: string)
    ensures lib.splitHostPort("[" + name + "]").None? ==> HostOnly(lib, "[" + name + "]") == lib.lower(name)
    ensures lib.splitHostPort(name).None? && (name == "" || (name[0] != '[' && name[|name| - 1] != ']')) ==>
              HostOnly(lib, name) == lib.lower(name)
    ensures forall h :: lib.splitHostPort(name) == Some(h) ==> HostOnly(lib, name) == lib.lower(h)
  {
    TrimBrackets(name);
    if name == "" || (name[0] != '[' && name[|name| - 1] != ']') { TrimNothing(name); }
  }

  /** A wildcard pattern stands for exactly the strict subdomains. */
  lemma WildcardIsStrictSubdomain(lib: Lib, pattern: string, host: string, domain: string)
    requires lib.lower(pattern) == "*." + domain
    ensures HostMatches(lib, pattern, host)
       <==> exists sub: string :: sub != "" && HostOnly(lib, host) == sub + "." + domain
  {
    var h, p := HostOnly(lib, host), lib.lower(pattern);
    assert p[1..] == "." + domain;
    if EndsWith(h, p[1..]) && |h| > |p| - 1 {
      var sub := h[..|h| - |p| + 1];
      assert sub + "." + domain == sub + ("." + domain) == h;
    }
    forall sub: string | sub != "" && h == sub + "." + domain ensures EndsWith(h, p[1..]) {
      assert sub + "." + domain == sub + ("." + domain);
    }
  }

  // ---- Which part of the index a rule belongs to ----

  datatype Part = ExactPart(path: Bytes) | PrefixPart(prefix: Bytes) | RegexPart | NoPart

  function PartOf(rule: Rule): Part {
    if rule.path != [] then ExactPart(rule.path)
    else if rule.pathPrefix != [] then PrefixPart(rule.pathPrefix)
    else if rule.regex != "" then RegexPart
    else NoPart
  }

  /** The routes of one part among the first `n`, in config order. */
  function Members(routes: seq<Route>, n: nat, part: Part): (ids: seq<RouteId>)
    requires n <= |routes|
    ensures forall i | i in ids :: i < n
  {
    if n == 0 then []
    else Members(routes, n - 1, part) + if PartOf(routes[n - 1].rule) == part then [n - 1] else []
  }

  lemma {:induction false} MembersInOrder(routes: seq<Route>, n: nat, part: Part)
    requires n <= |routes|
    ensures forall i: nat :: i in Members(routes, n, part) <==> i < n && PartOf(routes[i].rule) == part
    ensures forall j, k | 0 <= j < k < |Members(routes, n, part)| ::
              Members(routes, n, part)[j] < Members(routes, n, part)[k]
  {
    if n > 0 {
      MembersInOrder(routes, n - 1, part);
      var before := Members(routes, n - 1, part);
      forall j | 0 <= j < |before| ensures before[j] < n - 1 { assert before[j] in before; }
    }
  }

  // ---- The linear scan ----

  predicate RegexMatches(lib: Lib, rule: Rule, path: Bytes) {
    rule.compiled.Some? && lib.matchString(rule.compiled.value, path)
  }

  datatype Best = Best(exact: Option<RouteId>, prefix: Option<RouteId>, regex: Option<RouteId>)

  /** The three accumulators after the first `n` routes. */
  function Scan(lib: Lib, routes: seq<Route>, r: Request, path: Bytes, n: nat): (best: Best)
    requires n <= |routes|
    ensures best.exact.Some? ==> best.exact.value < n
    ensures best.prefix.Some? ==> best.prefix.value < n
    ensures best.regex.Some? ==> best.regex.value < n
  {
    if n == 0 then Best(None, None, None)
    else
      var best := Scan(lib, routes, r, path, n - 1);
      var rule := routes[n - 1].rule;
      if rule.path != [] then
        if best.exact.None? && rule.path == path && MatchConditions(lib, rule, r)
        then best.(exact := Some(n - 1)) else best
      else if rule.pathPrefix != [] then
        if !(rule.pathPrefix <= path) || !MatchConditions(lib, rule, r) then best
        else if best.prefix.None? || |rule.pathPrefix| > |routes[best.prefix.value].rule.pathPrefix|
        then best.(prefix := Some(n - 1)) else best
      else if rule.regex != "" then
        if best.regex.Some? || !MatchConditions(lib, rule, r) then best
        else if RegexMatches(lib, rule, path) then best.(regex := Some(n - 1)) else best
      else best
  }

  function FirstOf(best: Best): Option<RouteId> {
    if best.exact.Some? then best.exact else if best.prefix.Some? then best.prefix else best.regex
  }

  /** `referenceDecide`: the oracle that the index has to agree with. */
  function ReferenceDecide(lib: Lib, cfg: ConfigView, r: Request, path: Bytes): (w: Option<RouteId>)
    ensures w.Some? ==> w.value < |cfg.routes|
  {
    FirstOf(Scan(lib, cfg.routes, r, path, |cfg.routes|))
  }

  // ---- The documented precedence ----

  /** Route `i` applies to the request. */
  predicate Applies(lib: Lib, rule: Rule, r: Request, path: Bytes) {
    && MatchConditions(lib, rule, r)
    && match PartOf(rule)
       case ExactPart(p) => p == path
       case PrefixPart(p) => p <= path
       case RegexPart => RegexMatches(lib, rule, path)
       case NoPart => false
  }

  /** An exact route beats a prefix route, a longer prefix beats a shorter one, a prefix route beats
      a regex route. */
  predicate Outranks(a: Part, b: Part) {
    match a
    case ExactPart(_) => !b.ExactPart?
    case PrefixPart(p) => b.RegexPart? || (b.PrefixPart? && |p| > |b.prefix|)
    case _ => false
  }

  /** `i` applies, nothing that applies outranks it, and config order breaks ties. */
  ghost predicate IsDocumentedWinner(lib: Lib, routes: seq<Route>, r: Request, path: Bytes, n: nat, i: nat)
    requires n <= |routes|
  {
    && i < n && Applies(lib, routes[i].rule, r, path)
    && forall j | 0 <= j < n && j != i && Applies(lib, routes[j].rule, r, path) ::
         || Outranks(PartOf(routes[i].rule), PartOf(routes[j].rule))
         || (i < j && !Outranks(PartOf(routes[j].rule), PartOf(routes[i].rule)))
  }

  // What each accumulator of the scan holds.

  ghost predicate ExactInv(lib: Lib, routes: seq<Route>, r: Request, path: Bytes, n: nat)
    requires n <= |routes|
  {
    var e := Scan(lib, routes, r, path, n).exact;
    && (forall j | 0 <= j < n && Applies(lib, routes[j].rule, r, path) && PartOf(routes[j].rule).ExactPart? ::
          e.Some? && e.value <= j)
    && (e.Some? ==> Applies(lib, routes[e.value].rule, r, path) && PartOf(routes[e.value].rule).ExactPart?)
  }

  ghost predicate PrefixInv(lib: Lib, routes: seq<Route>, r: Request, path: Bytes, n: nat)
    requires n <= |routes|
  {
    var e := Scan(lib, routes, r, path, n).prefix;
    && (forall j | 0 <= j < n && Applies(lib, routes[j].rule, r, path) && PartOf(routes[j].rule).PrefixPart? ::
          e.Some? && BeatsPrefix(routes, e.value, j))
    && (e.Some? ==> Applies(lib, routes[e.value].rule, r, path) && PartOf(routes[e.value].rule).PrefixPart?)
  }

  predicate BeatsPrefix(routes: seq<Route>, i: nat, j: nat)
    requires i < |routes| && j < |routes|
  {
    || |routes[i].rule.pathPrefix| > |routes[j].rule.pathPrefix|
    || (|routes[i].rule.pathPrefix| == |routes[j].rule.pathPrefix| && i <= j)
  }

  ghost predicate RegexInv(lib: Lib, routes: seq<Route>, r: Request, path: Bytes, n: nat)
    requires n <= |routes|
  {
    var e := Scan(lib, routes, r, path, n).regex;
    && (forall j | 0 <= j < n && Applies(lib, routes[j].rule, r, path) && PartOf(routes[j].rule).RegexPart? ::
          e.Some? && e.value <= j)
    && (e.Some? ==> Applies(lib, routes[e.value].rule, r, path) && PartOf(routes[e.value].rule).RegexPart?)
  }

  lemma {:induction false} ScanKeepsExact(lib: Lib, routes: seq<Route>, r: Request, path: Bytes, n: nat)
    requires n <= |routes|
    ensures ExactInv(lib, routes, r, path, n)
  {
    if n > 0 {
      ScanKeepsExact(lib, routes, r, path, n - 1);
      var before, rule := Scan(lib, routes, r, path, n - 1).exact, routes[n - 1].rule;
      assert Scan(lib, routes, r, path, n).exact
          == if PartOf(rule).ExactPart? && Applies(lib, rule, r, path) && before.None? then Some(n - 1) else before;
    }
  }

  lemma {:induction false} ScanKeepsPrefix(lib: Lib, routes: seq<Route>, r: Request, path: Bytes, n: nat)
    requires n <= |routes|
    ensures PrefixInv(lib, routes, r, path, n)
  {
    if n > 0 {
      ScanKeepsPrefix(lib, routes, r, path, n - 1);
      var before, rule := Scan(lib, routes, r, path, n - 1).prefix, routes[n - 1].rule;
      assert Scan(lib, routes, r, path, n).prefix
          == if PartOf(rule).PrefixPart? && Applies(lib, rule, r, path)
                && (before.None? || |rule.pathPrefix| > |routes[before.value].rule.pathPrefix|)
             then Some(n - 1) else before;
    }
  }

  lemma {:induction false} ScanKeepsRegex(lib: Lib, routes: seq<Route>, r: Request, path: Bytes, n: nat)
    requires n <= |routes|
    ensures RegexInv(lib, routes, r, path, n)
  {
    if n > 0 {
      ScanKeepsRegex(lib, routes, r, path, n - 1);
      var before, rule := Scan(lib, routes, r, path, n - 1).regex, routes[n - 1].rule;
      assert Scan(lib, routes, r, path, n).regex
          == if PartOf(rule).RegexPart? && Applies(lib, rule, r, path) && before.None? then Some(n - 1) else before;
    }
  }

  /** The scan implements the documented precedence: it picks the winner, and none exactly when no
      route applies. */
  lemma ReferenceIsDocumented(lib: Lib, cfg: ConfigView, r: Request, path: Bytes)
    ensures forall i: nat :: ReferenceDecide(lib, cfg, r, path) == Some(i)
              <==> IsDocumentedWinner(lib, cfg.routes, r, path, |cfg.routes|, i)
    ensures ReferenceDecide(lib, cfg, r, path).None?
       <==> forall i | 0 <= i < |cfg.routes| :: !Applies(lib, cfg.routes[i].rule, r, path)
  {
    ScanKeepsExact(lib, cfg.routes, r, path, |cfg.routes|);
    ScanKeepsPrefix(lib, cfg.routes, r, path, |cfg.routes|);
    ScanKeepsRegex(lib, cfg.routes, r, path, |cfg.routes|);
    var w := ReferenceDecide(lib, cfg, r, path);
    if w.Some? {
      assert IsDocumentedWinner(lib, cfg.routes, r, path, |cfg.routes|, w.value);
    }
  }
}
