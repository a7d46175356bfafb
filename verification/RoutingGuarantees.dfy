/** What routing promises for a config that parsed and validated. */
module RoutingGuarantees {
  import opened Foundations
  import opened ConfigModel
  import opened FieldValidation
  import opened MirrorGraph
  import opened RewriteTemplate
  import opened Validation
  import opened Routing
  import opened RouteIndexing
  import opened Routers
  import opened RuleKeys

  /** Every route of an accepted config has exactly one matcher and is filed once, in its own part. */
  lemma RouteLiesInOnePart(lib: Lib, cfg: ConfigView, i: nat)
    requires Accepted(lib, cfg) && i < |cfg.routes|
    ensures !PartOf(cfg.routes[i].rule).NoPart?
    ensures MatchersSet(cfg.routes[i].rule) == 1
    ensures forall part :: i in Members(cfg.routes, |cfg.routes|, part) <==> part == PartOf(cfg.routes[i].rule)
    ensures Distinct(Members(cfg.routes, |cfg.routes|, PartOf(cfg.routes[i].rule)))
  {
    AcceptedRouteFields(lib, cfg, i);
    forall part ensures i in Members(cfg.routes, |cfg.routes|, part) <==> part == PartOf(cfg.routes[i].rule) {
      MembersInOrder(cfg.routes, |cfg.routes|, part);
    }
    MembersInOrder(cfg.routes, |cfg.routes|, PartOf(cfg.routes[i].rule));
  }

  predicate HasEmptyMirror(route: Route) {
    exists m | m in route.mirrors :: m.upstream == ""
  }

  /** The mirrors of a loaded config that have no host are exactly the empty ones. */
  lemma UnmappedMirrorIsEmpty(lib: Lib, doc: Document, i: nat, m: Mirror)
    requires Loaded(lib, Some(doc)).Some? && i < |doc.routes| && m in ParsedView(lib, doc).routes[i].mirrors
    ensures Unmapped(ParsedView(lib, doc))(m) <==> m.upstream == ""
  {
    var cfg := ParsedView(lib, doc);
    AcceptedMirror(lib, cfg, i, m);
    AcceptedNames(lib, cfg);
  }

  /** For a loaded config a decision fails only because no route applies, or because the winning
      route carries an empty mirror entry. */
  lemma LoadedConfigResolves(lib: Lib, doc: Document, r: Request, d: Result<Decision, RouteError>)
    requires Loaded(lib, Some(doc)).Some? && r.url.Some? && r.url.value != []
    requires IsDecision(lib, ParsedView(lib, doc), r, d)
    ensures d == Err(RouteNotFound)
       <==> forall i | 0 <= i < |doc.routes| :: !Applies(lib, ParsedView(lib, doc).routes[i].rule, r, r.url.value)
    ensures d == Err(MirrorNotMapped(""))
       <==> exists i: nat :: IsDocumentedWinner(lib, ParsedView(lib, doc).routes, r, r.url.value, |doc.routes|, i)
              && HasEmptyMirror(ParsedView(lib, doc).routes[i])
    ensures d.Ok? || d == Err(RouteNotFound) || d == Err(MirrorNotMapped(""))
  {
    var cfg, path := ParsedView(lib, doc), r.url.value;
    ReferenceIsDocumented(lib, cfg, r, path);
    var w := ReferenceDecide(lib, cfg, r, path);
    if w.Some? {
      var route := cfg.routes[w.value];
      AcceptedRouteFields(lib, cfg, w.value);
      FirstOkWitness(route.mirrors, Unmapped(cfg));
      forall m | m in route.mirrors ensures Unmapped(cfg)(m) <==> m.upstream == "" {
        UnmappedMirrorIsEmpty(lib, doc, w.value, m);
      }
    }
  }

  /** The decision has a fallback exactly when its upstream names one; it is another upstream. */
  lemma LoadedConfigFallback(lib: Lib, doc: Document, r: Request, d: Decision)
    requires Loaded(lib, Some(doc)).Some? && IsDecision(lib, ParsedView(lib, doc), r, Ok(d))
    ensures LastNamed(doc.upstreams, d.upstream).Some?
    ensures var u := doc.upstreams[LastNamed(doc.upstreams, d.upstream).value];
            && (d.fallback.Some? <==> u.fallback != "")
            && (d.fallback.Some? ==> d.fallback.value.name == u.fallback != d.upstream)
            && (d.fallback.Some? ==>
                  exists v | v in doc.upstreams :: u.fallback == v.name && IsFallbackTo(lib, v, d.fallback.value))
  {
    LoadedView(lib, doc, ParsedView(lib, doc));
    SoundConfigFallback(lib, ParsedView(lib, doc), r, d);
  }

  /** A loaded config is that of its document, with the regexes compiled and the hosts parsed. */
  lemma LoadedView(lib: Lib, doc: Document, cfg: ConfigView)
    requires Loaded(lib, Some(doc)) == Some(cfg)
    ensures cfg.upstreams == doc.upstreams && |cfg.routes| == |doc.routes|
    ensures forall i | 0 <= i < |cfg.routes| :: IsCompiledFrom(cfg.routes[i], doc.routes[i])
    ensures IsSound(lib, cfg)
  {
  }

  ghost predicate IsSound(lib: Lib, cfg: ConfigView) {
    && Accepted(lib, cfg)
    && (forall u | u in cfg.upstreams :: HasGoodUrl(lib, u)) && cfg.nameToHost == HostsByName(lib, cfg.upstreams)
  }

  ghost predicate AreCompiledFrom(now: seq<Route>, was: seq<Route>) {
    |now| == |was| && forall i | 0 <= i < |now| :: IsCompiledFrom(now[i], was[i])
  }

  lemma CompilingKeepsKey(lib: Lib, now: Route, was: Route)
    requires IsCompiledFrom(now, was)
    ensures lib.dedupKey(now.rule) == lib.dedupKey(was.rule)
    ensures IsGoodRule(lib, now.rule) <==> IsGoodRule(lib, was.rule)
  {
    SameRuleSameKey(lib, now.rule, was.rule);
  }

  lemma CompilingKeepsRoutes(lib: Lib, names: set<string>, now: seq<Route>, was: seq<Route>)
    requires AreCompiledFrom(now, was)
    ensures AreGoodRoutes(lib, names, now) <==> AreGoodRoutes(lib, names, was)
  {
    forall i | 0 <= i < |now|
      ensures lib.dedupKey(now[i].rule) == lib.dedupKey(was[i].rule)
      ensures IsGoodRoute(lib, names, now[i]) <==> IsGoodRoute(lib, names, was[i])
    {
      CompilingKeepsKey(lib, now[i], was[i]);
    }
    assert (forall r | r in now :: IsGoodRoute(lib, names, r)) <==> (forall r | r in was :: IsGoodRoute(lib, names, r))
    by {
      assert (forall r | r in now :: IsGoodRoute(lib, names, r))
        <==> forall i | 0 <= i < |now| :: IsGoodRoute(lib, names, now[i]);
      assert (forall r | r in was :: IsGoodRoute(lib, names, r))
        <==> forall i | 0 <= i < |was| :: IsGoodRoute(lib, names, was[i]);
    }
  }

  lemma CompilingKeepsHops(names: set<string>, now: seq<Route>, was: seq<Route>)
    requires AreCompiledFrom(now, was)
    ensures MirrorEdges(names, now) == MirrorEdges(names, was)
  {
    forall a, b ensures (a, b) in MirrorEdges(names, now) <==> (a, b) in MirrorEdges(names, was) {
      MirrorEdgesAreHops(names, now, a, b);
      MirrorEdgesAreHops(names, was, a, b);
      assert IsMirrorHop(now, a, b) <==> IsMirrorHop(was, a, b) by {
        assert forall i | 0 <= i < |now| :: now[i].upstream == was[i].upstream && now[i].mirrors == was[i].mirrors;
      }
    }
  }

  /** A document is published exactly when it is as it should be: nothing else decides. */
  lemma LoadedExactly(lib: Lib, doc: Document)
    ensures Loaded(lib, Some(doc)).Some?
       <==> && AreGoodUpstreams(lib, doc.upstreams) && AreGoodRoutes(lib, Names(doc.upstreams), doc.routes)
            && IsAcyclic(MirrorEdges(Names(doc.upstreams), doc.routes))
  {
    if Parses(lib, doc) {
      var cfg := ParsedView(lib, doc);
      AcceptedExactly(lib, cfg);
      assert AreCompiledFrom(cfg.routes, doc.routes);
      CompilingKeepsRoutes(lib, Names(doc.upstreams), cfg.routes, doc.routes);
      CompilingKeepsHops(Names(doc.upstreams), cfg.routes, doc.routes);
    } else {
      GoodDocumentParses(lib, doc);
    }
  }

  lemma GoodDocumentParses(lib: Lib, doc: Document)
    ensures AreGoodUpstreams(lib, doc.upstreams) && AreGoodRoutes(lib, Names(doc.upstreams), doc.routes) ==>
              Parses(lib, doc)
  {
    if AreGoodUpstreams(lib, doc.upstreams) && AreGoodRoutes(lib, Names(doc.upstreams), doc.routes) {
      forall u | u in doc.upstreams ensures HasGoodUrl(lib, u) { assert IsGoodUpstream(lib, doc.upstreams, u); }
      forall r | r in doc.routes ensures r.rule.regex == "" || lib.compiles(r.rule.regex) {
        assert IsGoodRoute(lib, Names(doc.upstreams), r);
      }
    }
  }

  /** The position of an upstream is the last of its name. */
  lemma SoundPosition(lib: Lib, cfg: ConfigView, u: Upstream) returns (i: nat)
    requires IsSound(lib, cfg) && u in cfg.upstreams
    ensures IsLast(cfg.upstreams, i) && cfg.upstreams[i] == u
  {
    AcceptedNames(lib, cfg);
    i :| 0 <= i < |cfg.upstreams| && cfg.upstreams[i] == u;
  }

  /** The name of an upstream stands for its own parsed host and timeout. */
  predicate IsNamed(lib: Lib, cfg: ConfigView, u: Upstream) {
    && u.name in cfg.nameToHost && Some(cfg.nameToHost[u.name]) == lib.parseUrl(u.host)
    && TimeoutOf(cfg.upstreams, u.name) == u.timeout
  }

  lemma SoundName(lib: Lib, cfg: ConfigView, u: Upstream)
    requires IsSound(lib, cfg) && u in cfg.upstreams
    ensures IsNamed(lib, cfg, u)
  {
    var i := SoundPosition(lib, cfg, u);
    HostsOfLast(lib, cfg.upstreams);
    TimeoutOfLast(cfg.upstreams, i);
  }

  /** A fallback target with the host and the timeout of this upstream. */
  predicate IsFallbackTo(lib: Lib, v: Upstream, f: FailoverTarget) {
    f.name == v.name && Some(f.url) == lib.parseUrl(v.host) && f.timeoutMs == v.timeout
  }

  lemma SoundFallback(lib: Lib, cfg: ConfigView, u: Upstream)
    requires IsSound(lib, cfg) && u in cfg.upstreams
    ensures var f := FallbackOf(cfg, u.name);
            && (f.Some? <==> u.fallback != "")
            && (f.Some? ==> exists v | v in cfg.upstreams :: u.fallback == v.name && IsFallbackTo(lib, v, f.value))
  {
    var i := SoundPosition(lib, cfg, u);
    if u.fallback == "" {
      NoFallback(cfg, i);
    } else {
      AcceptedFallback(lib, cfg, i);
      var v :| v in cfg.upstreams && v.name == u.fallback;
      var j := SoundPosition(lib, cfg, v);
      SoundName(lib, cfg, v);
      FallbackIsItsOwn(cfg, i, j);
    }
  }

  ghost predicate IsMirrorTo(lib: Lib, us: seq<Upstream>, m: Mirror, t: MirrorTarget) {
    t.ratio == m.ratio && exists v | v in us :: v.name == m.upstream && Some(t.url) == lib.parseUrl(v.host)
  }

  lemma SoundMirrors(lib: Lib, cfg: ConfigView, ms: seq<Mirror>, out: seq<MirrorTarget>)
    requires IsSound(lib, cfg) && ResolvesTo(cfg, ms, out)
    ensures |out| == |ms| && forall k | 0 <= k < |out| :: IsMirrorTo(lib, cfg.upstreams, ms[k], out[k])
  {
    forall k | 0 <= k < |out| ensures IsMirrorTo(lib, cfg.upstreams, ms[k], out[k]) {
      assert ms[k].upstream in Names(cfg.upstreams);
      var v :| v in cfg.upstreams && v.name == ms[k].upstream;
      SoundName(lib, cfg, v);
    }
  }

  /** The decision is about the upstreams that the config names: the target is the primary's parsed
      host, with its own timeout and the request's query, the fallback the other upstream's host with
      its own timeout, and each mirror the host of the upstream it names, with its own ratio. */
  lemma SoundDecision(lib: Lib, cfg: ConfigView, r: Request, d: Decision) returns (i: nat, u: Upstream)
    requires IsSound(lib, cfg) && IsDecision(lib, cfg, r, Ok(d))
    ensures IsDocumentedWinner(lib, cfg.routes, r, r.url.value, |cfg.routes|, i)
    ensures u in cfg.upstreams && cfg.routes[i].upstream == u.name == d.upstream && d.timeoutMs == u.timeout
    ensures var host := lib.parseUrl(u.host);
            host.Some? && d.target.scheme == host.value.scheme && d.target.host == host.value.host
    ensures d.target.rawQuery == r.rawQuery
    ensures d.fallback.Some? <==> u.fallback != ""
    ensures d.fallback.Some? ==>
              exists v | v in cfg.upstreams :: u.fallback == v.name && IsFallbackTo(lib, v, d.fallback.value)
    ensures |d.mirrors| == |cfg.routes[i].mirrors|
    ensures forall k | 0 <= k < |d.mirrors| ::
              IsMirrorTo(lib, cfg.upstreams, cfg.routes[i].mirrors[k], d.mirrors[k])
  {
    ReferenceIsDocumented(lib, cfg, r, r.url.value);
    i := ReferenceDecide(lib, cfg, r, r.url.value).value;
    AcceptedRouteFields(lib, cfg, i);
    u :| u in cfg.upstreams && u.name == d.upstream;
    SoundName(lib, cfg, u);
    SoundFallback(lib, cfg, u);
    SoundMirrors(lib, cfg, cfg.routes[i].mirrors, d.mirrors);
  }

  lemma NamedFallback(lib: Lib, cfg: ConfigView, name: string)
    requires IsSound(lib, cfg) && name in Names(cfg.upstreams)
    ensures LastNamed(cfg.upstreams, name).Some?
    ensures var u, f := cfg.upstreams[LastNamed(cfg.upstreams, name).value], FallbackOf(cfg, name);
            && (f.Some? <==> u.fallback != "")
            && (f.Some? ==> f.value.name == u.fallback != name)
            && (f.Some? ==> exists v | v in cfg.upstreams :: u.fallback == v.name && IsFallbackTo(lib, v, f.value))
  {
    var i := LastNamed(cfg.upstreams, name).value;
    SoundFallback(lib, cfg, cfg.upstreams[i]);
    if cfg.upstreams[i].fallback != "" { AcceptedFallback(lib, cfg, i); }
  }

  lemma SoundConfigFallback(lib: Lib, cfg: ConfigView, r: Request, d: Decision)
    requires IsSound(lib, cfg) && IsDecision(lib, cfg, r, Ok(d))
    ensures LastNamed(cfg.upstreams, d.upstream).Some?
    ensures var u := cfg.upstreams[LastNamed(cfg.upstreams, d.upstream).value];
            && (d.fallback.Some? <==> u.fallback != "")
            && (d.fallback.Some? ==> d.fallback.value.name == u.fallback != d.upstream)
            && (d.fallback.Some? ==>
                  exists v | v in cfg.upstreams :: u.fallback == v.name && IsFallbackTo(lib, v, d.fallback.value))
  {
    AcceptedRouteFields(lib, cfg, ReferenceDecide(lib, cfg, r, r.url.value).value);
    NamedFallback(lib, cfg, d.upstream);
  }

  /** An exact route sends its rewrite, or else the request path. */
  lemma ExactRouteTarget(lib: Lib, cfg: ConfigView, r: Request, d: Decision, i: nat)
    requires IsDecision(lib, cfg, r, Ok(d))
    requires ReferenceDecide(lib, cfg, r, r.url.value) == Some(i) && cfg.routes[i].rule.path != []
    ensures r.url.value == cfg.routes[i].rule.path
    ensures d.target.path == if cfg.routes[i].rule.rewrite == [] then r.url.value else cfg.routes[i].rule.rewrite
  {
    assert PartOf(cfg.routes[i].rule).ExactPart?;
  }

  /** A regex route sends its rewrite with the groups of its compiled regex, in a loaded config its
      own regex. */
  lemma RegexRouteTarget(lib: Lib, cfg: ConfigView, r: Request, d: Decision, i: nat)
    requires IsDecision(lib, cfg, r, Ok(d))
    requires ReferenceDecide(lib, cfg, r, r.url.value) == Some(i) && PartOf(cfg.routes[i].rule).RegexPart?
    ensures cfg.routes[i].rule.compiled.Some?
    ensures var m := lib.find(cfg.routes[i].rule.compiled.value, r.url.value);
            m.Some? && d.target.path == Expansion(cfg.routes[i].rule.rewrite, r.url.value, m.value)
  {
  }

  /** A prefix route sends the request path on: unchanged without a rewrite, otherwise with the
      matched prefix replaced by the rewrite. */
  lemma PrefixRouteTarget(lib: Lib, cfg: ConfigView, r: Request, d: Decision, i: nat)
    requires IsDecision(lib, cfg, r, Ok(d))
    requires ReferenceDecide(lib, cfg, r, r.url.value) == Some(i) && PartOf(cfg.routes[i].rule).PrefixPart?
    ensures var rule := cfg.routes[i].rule;
            exists rest: Bytes :: r.url.value == rule.pathPrefix + rest
              && d.target.path == (if rule.rewrite == [] then rule.pathPrefix else rule.rewrite) + rest
  {
    var rule, path := cfg.routes[i].rule, r.url.value;
    var rest := path[|rule.pathPrefix|..];
    assert path == rule.pathPrefix + rest;
  }

  // ---- Outbound paths stay rooted ----

  predicate IsRooted(p: Bytes) {
    p != [] && p[0] == SLASH
  }

  lemma AcceptedRuleForm(lib: Lib, cfg: ConfigView, i: nat)
    requires Accepted(lib, cfg) && i < |cfg.routes|
    ensures var rule := cfg.routes[i].rule;
            && IsPathLike(rule.path) && IsPathLike(rule.pathPrefix)
            && (if rule.rewrite == [] then rule.regex == "" else IsRewrite(rule.rewrite))
  {
    AcceptedRoute(lib, cfg, i, BadPath(i));
    AcceptedRoute(lib, cfg, i, BadPathPrefix(i));
    AcceptedRoute(lib, cfg, i, MissingRewrite(i));
    AcceptedRoute(lib, cfg, i, BadRewrite(i));
  }

  lemma ExpansionIsRooted(t: Bytes, path: Bytes, m: seq<int>)
    requires IsRooted(t) && WellFormedMatch(m, |path|)
    ensures IsRooted(Expansion(t, path, m))
  {
    assert Tokenize(t)[0] == Plain(SLASH);
  }

  /** Whatever kind of route wins, and whatever its rewrite and captures, a loaded config sends out
      only paths that start with '/'. */
  lemma OutboundPathIsRooted(lib: Lib, doc: Document, r: Request, d: Decision)
    requires Loaded(lib, Some(doc)).Some? && IsDecision(lib, ParsedView(lib, doc), r, Ok(d))
    ensures IsRooted(d.target.path)
  {
    var cfg, path := ParsedView(lib, doc), r.url.value;
    var w := ReferenceDecide(lib, cfg, r, path).value;
    AcceptedRuleForm(lib, cfg, w);
    var rule := cfg.routes[w].rule;
    if PartOf(rule).RegexPart? {
      ExpansionIsRooted(rule.rewrite, path, lib.find(rule.compiled.value, path).value);
    }
  }

  const TWO_SLASHES := [SLASH, SLASH]

  lemma JoinDoublesSlash(rewrite: Bytes, rest: Bytes)
    requires IsRewrite(rewrite)
    ensures TWO_SLASHES <= rewrite + rest <==> rewrite == [SLASH] && IsRooted(rest)
  {
    var whole := rewrite + rest;
    assert TWO_SLASHES <= whole <==> |whole| > 1 && whole[0] == whole[1] == SLASH by {
      if |whole| > 1 && whole[0] == whole[1] == SLASH { assert whole[..2] == TWO_SLASHES; }
      if TWO_SLASHES <= whole { assert whole[1] == TWO_SLASHES[1]; }
    }
  }

  /** A rewrite may not start with "//", but the outbound path of a rewriting prefix route may: exactly
      when the rewrite is "/" and what follows the prefix starts with '/'. */
  lemma RewriteDoublesSlash(lib: Lib, doc: Document, r: Request, d: Decision, i: nat)
    requires Loaded(lib, Some(doc)).Some? && IsDecision(lib, ParsedView(lib, doc), r, Ok(d))
    requires ReferenceDecide(lib, ParsedView(lib, doc), r, r.url.value) == Some(i)
    requires var rule := ParsedView(lib, doc).routes[i].rule; PartOf(rule).PrefixPart? && rule.rewrite != []
    ensures var rule := ParsedView(lib, doc).routes[i].rule;
            && rule.pathPrefix <= r.url.value
            && (TWO_SLASHES <= d.target.path
                <==> rule.rewrite == [SLASH] && IsRooted(r.url.value[|rule.pathPrefix|..]))
  {
    AcceptedRuleForm(lib, ParsedView(lib, doc), i);
    var rule := ParsedView(lib, doc).routes[i].rule;
    var rest := r.url.value[|rule.pathPrefix|..];
    JoinDoublesSlash(rule.rewrite, rest);
    assert d.target.path == rule.rewrite + rest;
  }

  /** Such a config exists: prefix "/api" and rewrite "/" turn "/api/x" into "//x". */
  lemma DoubledSlash(lib: Lib, rule: Rule, r: Request)
    requires rule.path == [] && rule.pathPrefix == [SLASH, 97, 112, 105] && rule.rewrite == [SLASH]
    requires MatchConditions(lib, rule, r) && r.url == Some([SLASH, 97, 112, 105, SLASH, 120])
    ensures IsPathLike(rule.pathPrefix) && IsRewrite(rule.rewrite)
    ensures Applies(lib, rule, r, r.url.value) && OutboundPath(lib, rule, r, r.url.value) == [SLASH, SLASH, 120]
  {
    assert r.url.value[4..] == [SLASH, 120];
  }

  /** The side condition is needed: an empty mirror with ratio 0 validates, and then every request
      its route wins fails. */
  lemma EmptyMirrorValidatesButFails() returns (lib: Lib, doc: Document, r: Request)
    ensures Loaded(lib, Some(doc)).Some? && r.url.Some? && r.url.value != []
    ensures forall d :: IsDecision(lib, ParsedView(lib, doc), r, d) ==> d == Err(MirrorNotMapped(""))
  {
    var raw := RawLib(
      s => Some(Url("http", s, "", "", "", "")), s => true, (p, x) => None, (p, x) => false, s => s == "",
      s => None, r => KeyText(s => s, s => s, r), s => s, s => s, s => true, (c, a) => false, s => None, s => None);
    lib := raw;
    var rule := Rule([], [SLASH], "", [], "", [], [], [], None);
    doc := Document([Upstream("api", "http://api", 0, "")], [Route(rule, "api", [Mirror("", 0.0)])]);
    r := Request(Some([SLASH]), "", "GET", "", "", (name: string) => []);
    var cfg := ParsedView(lib, doc);
    assert cfg.routes == doc.routes;
    ApiHostIsGood(lib);
    SingleRouteAccepted(lib, cfg);
    ReferenceIsDocumented(lib, cfg, r, [SLASH]);
    assert Applies(lib, cfg.routes[0].rule, r, [SLASH]);
    assert IsDocumentedWinner(lib, cfg.routes, r, [SLASH], 1, 0);
    assert FirstOk(cfg.routes[0].mirrors, Unmapped(cfg)) == Some(cfg.routes[0].mirrors[0]);
  }

  lemma ApiHostIsGood(lib: Lib)
    requires lib.parseUrl("http://api") == Some(Url("http", "http://api", "", "", "", ""))
    ensures ValidateUpstreamHost(lib, "http://api").None?
  {
    var host := "http://api";
    assert forall c | c in host :: c in {'h', 't', 'p', ':', '/', 'a', 'i'};
    assert !ContainsAny(host, WHITESPACE);
  }

  lemma SingleRouteAccepted(lib: Lib, cfg: ConfigView)
    requires !lib.isBlank("api") && ValidateUpstreamHost(lib, "http://api").None?
    requires cfg.upstreams == [Upstream("api", "http://api", 0, "")]
    requires cfg.routes == [Route(Rule([], [SLASH], "", [], "", [], [], [], None), "api", [Mirror("", 0.0)])]
    ensures Accepted(lib, cfg)
  {
    var names := Names(cfg.upstreams);
    assert cfg.upstreams[0] in cfg.upstreams;
    forall f ensures !RouteFault(lib, names, cfg.routes, f) {
      assert !RouteFaultAt(lib, names, cfg.routes, 0, f);
    }
    assert MirrorEdges(names, cfg.routes) == {} by {
      assert cfg.routes[..0] == [];
    }
    RankedIsAcyclic({}, map[]);
  }
}
