/** `Config.Validate`: which faults are reported, and what an accepted config guarantees. */
module Validation {
  import opened Foundations
  import opened ConfigModel
  import opened FieldValidation
  import opened MirrorGraph

  datatype Fault =
    | NoUpstreams
    | BlankName(i: nat)
    | DuplicateName(i: nat)
    | BadHost(i: nat, why: HostFault)
    | NegativeTimeout(i: nat)
    | SelfFallback(i: nat)
    | UnknownFallback(i: nat)
    | NoRoutes
    | EmptyUpstream(i: nat)
    | UnknownUpstream(i: nat)
    | MatcherCount(i: nat, matchers: nat)
    | BadPath(i: nat)
    | BadPathPrefix(i: nat)
    | BadRegex(i: nat)
    | MissingRewrite(i: nat)
    | BadRewrite(i: nat)
    | BadField(i: nat, fault: FieldFault)
    | DuplicateRoute(i: nat, first: nat)
    | RatioWithoutMirror(i: nat)
    | UnknownMirror(i: nat, mirror: string)
    | SelfMirror(i: nat)
    | RatioOutOfRange(i: nat, ratio: real)
    | MirrorCycle(cycle: seq<string>)

  // ---- Upstreams ----

  /** Faults found while names are collected. */
  ghost predicate NameFault(lib: Lib, us: seq<Upstream>, f: Fault) {
    match f
    case BlankName(i) => i < |us| && lib.isBlank(us[i].name)
    case DuplicateName(i) => i < |us| && !lib.isBlank(us[i].name) && exists j | 0 <= j < i :: us[j].name == us[i].name
    case BadHost(i, why) => i < |us| && ValidateUpstreamHost(lib, us[i].host) == Some(why)
    case NegativeTimeout(i) => i < |us| && us[i].timeout < 0
    case _ => false
  }

  /** Faults found in the second pass, once all names are known. */
  ghost predicate FallbackFault(lib: Lib, us: seq<Upstream>, f: Fault) {
    match f
    case SelfFallback(i) => i < |us| && us[i].fallback != "" && us[i].fallback == us[i].name
    case UnknownFallback(i) =>
      && i < |us| && us[i].fallback != "" && us[i].fallback != us[i].name
      && forall u | u in us :: u.name == us[i].fallback ==> lib.isBlank(u.name)
    case _ => false
  }

  ghost predicate UpstreamFault(lib: Lib, us: seq<Upstream>, f: Fault) {
    (f == NoUpstreams && us == []) || NameFault(lib, us, f) || FallbackFault(lib, us, f)
  }

  method ValidateUpstreams(lib: Lib, us: seq<Upstream>) returns (errs: seq<Fault>)
    ensures forall f :: f in errs <==> UpstreamFault(lib, us, f)
  {
    if |us| == 0 { return [NoUpstreams]; }
    var names, seen := CollectNames(lib, us);
    var fallbacks := CheckFallbacks(lib, us, seen);
    errs := names + fallbacks;
  }

  /** First pass: collect the names, so that a fallback may name a later upstream. */
  method CollectNames(lib: Lib, us: seq<Upstream>) returns (errs: seq<Fault>, seen: set<string>)
    ensures forall f :: f in errs <==> NameFault(lib, us, f)
    ensures forall n :: n in seen <==> !lib.isBlank(n) && n in Names(us)
  {
    errs, seen := [], {};
    for i := 0 to |us|
      invariant forall f :: f in errs <==> NameFault(lib, us, f) && f.i < i
      invariant forall n :: n in seen <==> !lib.isBlank(n) && exists j | 0 <= j < i :: us[j].name == n
    {
      var u := us[i];
      var found := [];
      if lib.isBlank(u.name) {
        found := [BlankName(i)];
      } else if u.name in seen {
        found := [DuplicateName(i)];
      } else {
        seen := seen + {u.name};
      }
      var why := ValidateUpstreamHost(lib, u.host);
      if why.Some? { found := found + [BadHost(i, why.value)]; }
      if u.timeout < 0 { found := found + [NegativeTimeout(i)]; }
      assert forall f :: f in found <==> NameFault(lib, us, f) && f.i == i;
      errs := errs + found;
    }
  }

  method CheckFallbacks(lib: Lib, us: seq<Upstream>, seen: set<string>) returns (errs: seq<Fault>)
    requires forall n :: n in seen <==> !lib.isBlank(n) && n in Names(us)
    ensures forall f :: f in errs <==> FallbackFault(lib, us, f)
  {
    errs := [];
    for i := 0 to |us|
      invariant forall f :: f in errs <==> FallbackFault(lib, us, f) && f.i < i
    {
      var u := us[i];
      if u.fallback == "" { continue; }
      if u.fallback == u.name {
        errs := errs + [SelfFallback(i)];
        continue;
      }
      if u.fallback !in seen { errs := errs + [UnknownFallback(i)]; }
    }
  }

  // ---- Rules and mirrors ----

  const SLASH: Byte := 47

  /** Space, tab, newline, carriage return, '?' and '#'. */
  predicate HasForbiddenByte(v: Bytes) {
    exists b | b in v :: b in {32, 9, 10, 13, 63, 35}
  }

  predicate IsPathLike(v: Bytes) {
    v == [] || (v[0] == SLASH && !HasForbiddenByte(v))
  }

  predicate IsRewrite(v: Bytes) {
    v != [] && v[0] == SLASH && !(|v| > 1 && v[1] == SLASH) && !HasForbiddenByte(v)
  }

  function MatchersSet(r: Rule): nat {
    (if r.path != [] then 1 else 0) + (if r.pathPrefix != [] then 1 else 0) + (if r.regex != "" then 1 else 0)
  }

  ghost predicate RuleFault(lib: Lib, i: nat, r: Rule, f: Fault) {
    match f
    case MatcherCount(k, n) => k == i && n == MatchersSet(r) && n != 1
    case BadPath(k) => k == i && !IsPathLike(r.path)
    case BadPathPrefix(k) => k == i && !IsPathLike(r.pathPrefix)
    case BadRegex(k) => k == i && r.regex != "" && !lib.compiles(r.regex)
    case MissingRewrite(k) => k == i && r.rewrite == [] && r.regex != ""
    case BadRewrite(k) => k == i && r.rewrite != [] && !IsRewrite(r.rewrite)
    case BadField(k, fault) => k == i && IsFieldFault(lib, r, fault)
    case _ => false
  }

  function When(c: bool, f: Fault): seq<Fault> {
    if c then [f] else []
  }

  /** Exactly one of path, path-prefix and regex, each of the right form. */
  method CheckMatchers(lib: Lib, i: nat, r: Rule) returns (errs: seq<Fault>)
    ensures forall f :: f in errs <==>
              RuleFault(lib, i, r, f) && (f.MatcherCount? || f.BadPath? || f.BadPathPrefix? || f.BadRegex?)
  {
    var matchers := 0;
    if r.path != [] { matchers := matchers + 1; }
    if r.pathPrefix != [] { matchers := matchers + 1; }
    if r.regex != "" { matchers := matchers + 1; }
    errs := When(matchers != 1, MatcherCount(i, matchers))
      + When(!IsPathLike(r.path), BadPath(i))
      + When(!IsPathLike(r.pathPrefix), BadPathPrefix(i))
      + When(r.regex != "" && !lib.compiles(r.regex), BadRegex(i));
  }

  /** A rewrite is optional, except for a regex. */
  method CheckRewrite(lib: Lib, i: nat, r: Rule) returns (errs: seq<Fault>)
    ensures forall f :: f in errs <==> RuleFault(lib, i, r, f) && (f.MissingRewrite? || f.BadRewrite?)
  {
    if r.rewrite == [] {
      errs := When(r.regex != "", MissingRewrite(i));
    } else {
      errs := When(!IsRewrite(r.rewrite), BadRewrite(i));
    }
  }

  method CheckFields(lib: Lib, i: nat, r: Rule) returns (errs: seq<Fault>)
    ensures forall f :: f in errs <==> RuleFault(lib, i, r, f) && f.BadField?
  {
    var faults := ValidateFields(lib, r);
    errs := [];
    for k := 0 to |faults|
      invariant forall f :: f in errs <==> f.BadField? && f.i == i && f.fault in faults[..k]
    {
      errs := errs + [BadField(i, faults[k])];
    }
  }

  method ValidateRule(lib: Lib, i: nat, r: Rule) returns (errs: seq<Fault>)
    ensures forall f :: f in errs <==> RuleFault(lib, i, r, f)
  {
    var matchers := CheckMatchers(lib, i, r);
    var rewrite := CheckRewrite(lib, i, r);
    var fields := CheckFields(lib, i, r);
    errs := matchers + rewrite + fields;
  }

  /** Faults of the first `n` mirrors of route `i`. */
  ghost predicate MirrorFault(names: set<string>, i: nat, r: Route, n: nat, f: Fault)
    requires n <= |r.mirrors|
  {
    exists k | 0 <= k < n ::
      var m := r.mirrors[k];
      match f
      case RatioWithoutMirror(j) => j == i && m.upstream == "" && m.ratio != 0.0
      case UnknownMirror(j, name) => j == i && m.upstream != "" && m.upstream == name && name !in names
      case SelfMirror(j) => j == i && m.upstream != "" && m.upstream == r.upstream
      case RatioOutOfRange(j, x) => j == i && m.upstream != "" && m.ratio == x && (x < 0.0 || x > 1.0)
      case _ => false
  }

  method ValidateMirror(i: nat, r: Route, names: set<string>) returns (errs: seq<Fault>)
    ensures forall f :: f in errs <==> MirrorFault(names, i, r, |r.mirrors|, f)
  {
    errs := [];
    for k := 0 to |r.mirrors|
      invariant forall f :: f in errs <==> MirrorFault(names, i, r, k, f)
    {
      var m := r.mirrors[k];
      if m.upstream == "" {
        if m.ratio != 0.0 { errs := errs + [RatioWithoutMirror(i)]; }
        continue;
      }
      if m.upstream !in names { errs := errs + [UnknownMirror(i, m.upstream)]; }
      if m.upstream == r.upstream { errs := errs + [SelfMirror(i)]; }
      if m.ratio < 0.0 || m.ratio > 1.0 { errs := errs + [RatioOutOfRange(i, m.ratio)]; }
    }
  }

  // ---- Routes ----

  ghost predicate DuplicateFault(lib: Lib, routes: seq<Route>, i: nat, f: Fault)
    requires i < |routes|
  {
    f.DuplicateRoute? && f.i == i && FirstWithKey(lib, routes, i, lib.dedupKey(routes[i].rule), f.first)
  }

  ghost predicate RouteFaultAt(lib: Lib, names: set<string>, routes: seq<Route>, i: nat, f: Fault)
    requires i < |routes|
  {
    var r := routes[i];
    || (f == EmptyUpstream(i) && r.upstream == "")
    || (f == UnknownUpstream(i) && r.upstream != "" && r.upstream !in names)
    || RuleFault(lib, i, r.rule, f)
    || DuplicateFault(lib, routes, i, f)
    || MirrorFault(names, i, r, |r.mirrors|, f)
  }

  /** `j` is the first of the first `n` routes with this key. */
  ghost predicate FirstWithKey(lib: Lib, routes: seq<Route>, n: nat, key: string, j: nat)
    requires n <= |routes|
  {
    && j < n && lib.dedupKey(routes[j].rule) == key
    && forall k | 0 <= k < j :: lib.dedupKey(routes[k].rule) != key
  }

  ghost predicate RouteFault(lib: Lib, names: set<string>, routes: seq<Route>, f: Fault) {
    (f == NoRoutes && routes == []) || exists i: nat | i < |routes| :: RouteFaultAt(lib, names, routes, i, f)
  }

  method ValidateRoutes(lib: Lib, routes: seq<Route>, us: seq<Upstream>) returns (errs: seq<Fault>)
    ensures forall f :: f in errs <==> RouteFault(lib, Names(us), routes, f)
  {
    if |routes| == 0 { return [NoRoutes]; }
    var names := set u | u in us :: u.name;
    errs := [];
    var seen: map<string, nat> := map[];
    for i := 0 to |routes|
      invariant forall f :: f in errs <==> exists j: nat | j < i :: RouteFaultAt(lib, names, routes, j, f)
      invariant SeenKeys(lib, routes, i, seen)
    {
      var found: seq<Fault>;
      found, seen := ValidateRoute(lib, names, routes, i, seen);
      errs := errs + found;
    }
  }

  ghost predicate SeenKeys(lib: Lib, routes: seq<Route>, n: nat, seen: map<string, nat>)
    requires n <= |routes|
  {
    && (forall key | key in seen :: FirstWithKey(lib, routes, n, key, seen[key]))
    && (forall k | 0 <= k < n :: lib.dedupKey(routes[k].rule) in seen)
  }

  method CheckDuplicate(lib: Lib, routes: seq<Route>, i: nat, seen: map<string, nat>)
    returns (errs: seq<Fault>, seen': map<string, nat>)
    requires i < |routes| && SeenKeys(lib, routes, i, seen)
    ensures forall f :: f in errs <==> DuplicateFault(lib, routes, i, f)
    ensures SeenKeys(lib, routes, i + 1, seen')
  {
    var key := lib.dedupKey(routes[i].rule);
    if key in seen { return [DuplicateRoute(i, seen[key])], seen; }
    return [], seen[key := i];
  }

  /** One turn of the loop over the routes. */
  method ValidateRoute(lib: Lib, names: set<string>, routes: seq<Route>, i: nat, seen: map<string, nat>)
    returns (errs: seq<Fault>, seen': map<string, nat>)
    requires i < |routes| && SeenKeys(lib, routes, i, seen)
    ensures forall f :: f in errs <==> RouteFaultAt(lib, names, routes, i, f)
    ensures SeenKeys(lib, routes, i + 1, seen')
  {
    var r := routes[i];
    errs := [];
    if r.upstream == "" {
      errs := errs + [EmptyUpstream(i)];
    } else if r.upstream !in names {
      errs := errs + [UnknownUpstream(i)];
    }
    var ruleErrs := ValidateRule(lib, i, r.rule);
    var dup: seq<Fault>;
    dup, seen' := CheckDuplicate(lib, routes, i, seen);
    var mirrorErrs := ValidateMirror(i, r, names);
    errs := errs + ruleErrs + dup + mirrorErrs;
  }

  // ---- Mirror cycles ----

  /** What `validateMirrorCycles` keeps of a mirror entry. */
  predicate IsMirrorEdge(names: set<string>, a: string, b: string) {
    b != "" && b != a && a in names && b in names
  }

  ghost function RouteEdges(names: set<string>, r: Route, n: nat): Edges
    requires n <= |r.mirrors|
  {
    set k | 0 <= k < n && IsMirrorEdge(names, r.upstream, r.mirrors[k].upstream) :: (r.upstream, r.mirrors[k].upstream)
  }

  ghost function MirrorEdges(names: set<string>, routes: seq<Route>): Edges {
    if routes == [] then {}
    else
      var last := routes[|routes| - 1];
      MirrorEdges(names, routes[..|routes| - 1]) + RouteEdges(names, last, |last.mirrors|)
  }

  /** Every mirror entry of the config, kept or not. */
  ghost predicate IsMirrorHop(routes: seq<Route>, a: string, b: string) {
    b != "" && exists i, k | 0 <= i < |routes| && 0 <= k < |routes[i].mirrors| ::
      routes[i].upstream == a && routes[i].mirrors[k].upstream == b
  }

  /** The edges are the mirror entries between distinct known upstreams, and nothing else. */
  lemma {:induction false} MirrorEdgesAreHops(names: set<string>, routes: seq<Route>, a: string, b: string)
    ensures (a, b) in MirrorEdges(names, routes) <==> IsMirrorHop(routes, a, b) && IsMirrorEdge(names, a, b)
  {
    if routes != [] {
      var n := |routes| - 1;
      MirrorEdgesAreHops(names, routes[..n], a, b);
      assert forall i | 0 <= i < n :: routes[..n][i] == routes[i];
      if IsMirrorHop(routes, a, b) {
        var i, k :| 0 <= i < |routes| && 0 <= k < |routes[i].mirrors|
                    && routes[i].upstream == a && routes[i].mirrors[k].upstream == b;
        if i < n { assert IsMirrorHop(routes[..n], a, b) by { assert routes[..n][i] == routes[i]; } }
      }
    }
  }

  lemma AddEdge(adj: Graph, a: string, b: string)
    ensures EdgesOf(adj[a := Succ(adj, a) + [b]]) == EdgesOf(adj) + {(a, b)}
  {
  }

  /** The adjacency lists hold exactly the kept edges, each once. */
  method BuildAdjacency(names: set<string>, routes: seq<Route>) returns (adj: Graph)
    ensures EdgesOf(adj) == MirrorEdges(names, routes)
    ensures forall n | n in adj :: Distinct(adj[n])
  {
    adj := map[];
    var seen: set<(string, string)> := {};
    for i := 0 to |routes|
      invariant EdgesOf(adj) == seen == MirrorEdges(names, routes[..i])
      invariant forall n | n in adj :: Distinct(adj[n])
    {
      adj, seen := AddRoute(names, routes[i], adj, seen);
      assert routes[..i + 1][..i] == routes[..i];
    }
    assert routes[..|routes|] == routes;
  }

  method AddRoute(names: set<string>, r: Route, adj: Graph, seen: Edges) returns (adj': Graph, seen': Edges)
    requires EdgesOf(adj) == seen && forall n | n in adj :: Distinct(adj[n])
    ensures EdgesOf(adj') == seen' == seen + RouteEdges(names, r, |r.mirrors|)
    ensures forall n | n in adj' :: Distinct(adj'[n])
  {
    adj', seen' := adj, seen;
    for k := 0 to |r.mirrors|
      invariant EdgesOf(adj') == seen' == seen + RouteEdges(names, r, k)
      invariant forall n | n in adj' :: Distinct(adj'[n])
    {
      var m := r.mirrors[k].upstream;
      if IsMirrorEdge(names, r.upstream, m) && (r.upstream, m) !in seen' {
        AddEdge(adj', r.upstream, m);
        assert m !in Succ(adj', r.upstream) by {
          assert m in Succ(adj', r.upstream) ==> (r.upstream, m) in EdgesOf(adj');
        }
        seen' := seen' + {(r.upstream, m)};
        adj' := adj'[r.upstream := Succ(adj', r.upstream) + [m]];
      }
      assert RouteEdges(names, r, k + 1) == RouteEdges(names, r, k)
        + if IsMirrorEdge(names, r.upstream, m) then {(r.upstream, m)} else {};
    }
  }

  method ValidateMirrorCycles(cfg: ConfigView) returns (errs: seq<Fault>)
    ensures errs == [] <==> IsAcyclic(MirrorEdges(Names(cfg.upstreams), cfg.routes))
    ensures forall f | f in errs ::
              f.MirrorCycle? && IsCycle(MirrorEdges(Names(cfg.upstreams), cfg.routes), f.cycle)
  {
    var names := set u | u in cfg.upstreams :: u.name;
    var adj := BuildAdjacency(names, cfg.routes);
    var cycle, rank := FindCycle(adj);
    if cycle.None? { return []; }
    return [MirrorCycle(cycle.value)];
  }

  // ---- The whole config ----

  ghost predicate Accepted(lib: Lib, cfg: ConfigView) {
    && (forall f :: !UpstreamFault(lib, cfg.upstreams, f))
    && (forall f :: !RouteFault(lib, Names(cfg.upstreams), cfg.routes, f))
    && IsAcyclic(MirrorEdges(Names(cfg.upstreams), cfg.routes))
  }

  /** Exactly the faults present are reported, and a reported cycle is a real one. */
  method Validate(lib: Lib, cfg: ConfigView) returns (errs: seq<Fault>)
    ensures errs == [] <==> Accepted(lib, cfg)
    ensures forall f: Fault | !f.MirrorCycle? ::
              f in errs
              <==> UpstreamFault(lib, cfg.upstreams, f) || RouteFault(lib, Names(cfg.upstreams), cfg.routes, f)
    ensures forall f | f in errs && f.MirrorCycle? ::
              IsCycle(MirrorEdges(Names(cfg.upstreams), cfg.routes), f.cycle)
    ensures (exists f | f in errs :: f.MirrorCycle?)
       <==> !IsAcyclic(MirrorEdges(Names(cfg.upstreams), cfg.routes))
  {
    var upstreamErrs := ValidateUpstreams(lib, cfg.upstreams);
    var routeErrs := ValidateRoutes(lib, cfg.routes, cfg.upstreams);
    var cycleErrs := ValidateMirrorCycles(cfg);
    NoOtherCycleFaults(lib, cfg);
    errs := upstreamErrs + routeErrs + cycleErrs;
    assert cycleErrs != [] ==> cycleErrs[0] in errs;
    assert upstreamErrs != [] ==> upstreamErrs[0] in errs;
    assert routeErrs != [] ==> routeErrs[0] in errs;
  }

  lemma NoOtherCycleFaults(lib: Lib, cfg: ConfigView)
    ensures forall f: Fault | f.MirrorCycle? ::
              !UpstreamFault(lib, cfg.upstreams, f) && !RouteFault(lib, Names(cfg.upstreams), cfg.routes, f)
  {
  }

  // ---- What acceptance means ----

  lemma AcceptedRoute(lib: Lib, cfg: ConfigView, i: nat, f: Fault)
    requires Accepted(lib, cfg) && i < |cfg.routes|
    ensures !RouteFaultAt(lib, Names(cfg.upstreams), cfg.routes, i, f)
  {
    assert !RouteFault(lib, Names(cfg.upstreams), cfg.routes, f);
  }

  lemma AcceptedUpstream(lib: Lib, cfg: ConfigView, f: Fault)
    requires Accepted(lib, cfg)
    ensures !UpstreamFault(lib, cfg.upstreams, f)
  {
  }

  /** Upstream names are pairwise different and none is blank. */
  lemma AcceptedNames(lib: Lib, cfg: ConfigView)
    requires Accepted(lib, cfg)
    ensures "" !in Names(cfg.upstreams)
    ensures forall i, j | 0 <= i < j < |cfg.upstreams| :: cfg.upstreams[i].name != cfg.upstreams[j].name
  {
    var us := cfg.upstreams;
    forall u | u in us ensures u.name != "" {
      var i :| 0 <= i < |us| && us[i] == u;
      assert !UpstreamFault(lib, us, BlankName(i));
    }
    forall i, j | 0 <= i < j < |us| ensures us[i].name != us[j].name {
      assert !UpstreamFault(lib, us, DuplicateName(j)) && !UpstreamFault(lib, us, BlankName(j));
    }
  }

  /** A named fallback exists and is another upstream. */
  lemma AcceptedFallback(lib: Lib, cfg: ConfigView, i: nat)
    requires Accepted(lib, cfg) && i < |cfg.upstreams| && cfg.upstreams[i].fallback != ""
    ensures cfg.upstreams[i].fallback in Names(cfg.upstreams)
    ensures cfg.upstreams[i].fallback != cfg.upstreams[i].name
  {
    assert !UpstreamFault(lib, cfg.upstreams, SelfFallback(i));
    assert !UpstreamFault(lib, cfg.upstreams, UnknownFallback(i));
  }

  /** An upstream host is an http or https origin. */
  lemma AcceptedHost(lib: Lib, cfg: ConfigView, i: nat)
    requires Accepted(lib, cfg) && i < |cfg.upstreams|
    ensures lib.parseUrl(cfg.upstreams[i].host).Some?
    ensures IsOrigin(lib, lib.parseUrl(cfg.upstreams[i].host).value)
  {
    var host := cfg.upstreams[i].host;
    var why := ValidateUpstreamHost(lib, host);
    if why.Some? { AcceptedUpstream(lib, cfg, BadHost(i, why.value)); }
    GoodHostIsOrigin(lib, host);
  }

  /** A host condition is a name, or stands for the subdomains of one. */
  lemma AcceptedHostPattern(lib: Lib, cfg: ConfigView, i: nat, h: string)
    requires Accepted(lib, cfg) && i < |cfg.routes| && h in cfg.routes[i].rule.hosts
    ensures '*' !in h || exists domain: string :: h == "*." + domain && '*' !in domain
  {
    var j :| 0 <= j < |cfg.routes[i].rule.hosts| && cfg.routes[i].rule.hosts[j] == h;
    var why := ValidateHostPattern(h);
    if why.Some? { AcceptedRoute(lib, cfg, i, BadField(i, BadHostPattern(j, why.value))); }
    GoodPatternIsNameOrSubdomains(h);
  }

  /** The route names a known upstream and has exactly one matcher. */
  lemma AcceptedRouteFields(lib: Lib, cfg: ConfigView, i: nat)
    requires Accepted(lib, cfg) && i < |cfg.routes|
    ensures cfg.routes[i].upstream in Names(cfg.upstreams)
    ensures MatchersSet(cfg.routes[i].rule) == 1
  {
    AcceptedRoute(lib, cfg, i, EmptyUpstream(i));
    AcceptedRoute(lib, cfg, i, UnknownUpstream(i));
    AcceptedRoute(lib, cfg, i, MatcherCount(i, MatchersSet(cfg.routes[i].rule)));
  }

  /** A mirror is empty with ratio 0, or names another known upstream with a ratio in [0, 1]. */
  lemma AcceptedMirror(lib: Lib, cfg: ConfigView, i: nat, m: Mirror)
    requires Accepted(lib, cfg) && i < |cfg.routes| && m in cfg.routes[i].mirrors
    ensures m.upstream == "" ==> m.ratio == 0.0
    ensures m.upstream != "" ==>
              m.upstream in Names(cfg.upstreams) && m.upstream != cfg.routes[i].upstream && 0.0 <= m.ratio <= 1.0
  {
    AcceptedRoute(lib, cfg, i, RatioWithoutMirror(i));
    AcceptedRoute(lib, cfg, i, UnknownMirror(i, m.upstream));
    AcceptedRoute(lib, cfg, i, SelfMirror(i));
    AcceptedRoute(lib, cfg, i, RatioOutOfRange(i, m.ratio));
  }

  /** In an accepted config no mirror entry was left out of the cycle check: the relation of all
      mirror hops is acyclic, so a chain of hops makes fewer hops than there are upstreams. */
  lemma AcceptedMirrorsAreAcyclic(lib: Lib, cfg: ConfigView, chain: seq<string>)
    requires Accepted(lib, cfg)
    requires forall i, j | 0 <= i < j < |chain| && j == i + 1 :: IsMirrorHop(cfg.routes, chain[i], chain[j])
    requires |chain| >= 2
    ensures Distinct(chain)
    ensures |chain| - 1 < |Names(cfg.upstreams)| <= |cfg.upstreams|
  {
    var names := Names(cfg.upstreams);
    var edges := MirrorEdges(names, cfg.routes);
    forall i: nat | i < |chain| - 1 ensures Hop(edges, chain, i) {
      assert IsMirrorHop(cfg.routes, chain[i], chain[i + 1]);
      HopIsKept(lib, cfg, chain[i], chain[i + 1]);
      MirrorEdgesAreHops(names, cfg.routes, chain[i], chain[i + 1]);
    }
    forall n | n in chain ensures n in names {
      var j :| 0 <= j < |chain| && chain[j] == n;
      var i := if j == |chain| - 1 then j - 1 else j;
      assert Hop(edges, chain, i);
      MirrorEdgesAreHops(names, cfg.routes, chain[i], chain[i + 1]);
    }
    AcyclicWalkIsShort(edges, chain, names);
    NamesFit(cfg.upstreams);
  }

  lemma HopIsKept(lib: Lib, cfg: ConfigView, a: string, b: string)
    requires Accepted(lib, cfg) && IsMirrorHop(cfg.routes, a, b)
    ensures IsMirrorEdge(Names(cfg.upstreams), a, b)
  {
    var i, k :| 0 <= i < |cfg.routes| && 0 <= k < |cfg.routes[i].mirrors|
                && cfg.routes[i].upstream == a && cfg.routes[i].mirrors[k].upstream == b;
    AcceptedRouteFields(lib, cfg, i);
    AcceptedMirror(lib, cfg, i, cfg.routes[i].mirrors[k]);
  }

  lemma {:induction false} NamesFit(us: seq<Upstream>)
    ensures |Names(us)| <= |us|
  {
    if us != [] {
      var n := |us| - 1;
      NamesFit(us[..n]);
      assert us == us[..n] + [us[n]];
      assert Names(us) == Names(us[..n]) + {us[n].name};
    }
  }

  // ---- Exactly what passes ----

  /** Starts with '/' and has no white space, query or fragment. */
  predicate IsPathText(v: Bytes) {
    v != [] && v[0] as char == '/' && forall b | b in v :: (b as char) !in " \t\n\r?#"
  }

  lemma ForbiddenBytes(v: Bytes)
    ensures HasForbiddenByte(v) <==> exists b | b in v :: (b as char) in " \t\n\r?#"
  {
    forall b | b in v ensures b in {32, 9, 10, 13, 63, 35} <==> (b as char) in " \t\n\r?#" {
      assert (b as char) in " \t\n\r?#" <==> (b as char) in {' ', '\t', '\n', '\r', '?', '#'};
    }
  }

  ghost predicate IsGoodRule(lib: Lib, r: Rule) {
    && (|| (r.path != [] && r.pathPrefix == [] && r.regex == "")
        || (r.path == [] && r.pathPrefix != [] && r.regex == "")
        || (r.path == [] && r.pathPrefix == [] && r.regex != ""))
    && (r.path != [] ==> IsPathText(r.path)) && (r.pathPrefix != [] ==> IsPathText(r.pathPrefix))
    && (r.regex != "" ==> lib.compiles(r.regex) && r.rewrite != [])
    && (r.rewrite != [] ==> IsPathText(r.rewrite) && !([SLASH, SLASH] <= r.rewrite))
    && AreGoodFields(lib, r)
  }

  lemma RulePassesExactly(lib: Lib, i: nat, r: Rule)
    ensures (forall f :: !RuleFault(lib, i, r, f)) <==> IsGoodRule(lib, r)
  {
    ForbiddenBytes(r.path);
    ForbiddenBytes(r.pathPrefix);
    ForbiddenBytes(r.rewrite);
    FieldsPassExactly(lib, r);
    assert [SLASH, SLASH] <= r.rewrite <==> |r.rewrite| > 1 && r.rewrite[0] == SLASH && r.rewrite[1] == SLASH by {
      if |r.rewrite| > 1 && r.rewrite[0] == SLASH && r.rewrite[1] == SLASH {
        assert r.rewrite[..2] == [SLASH, SLASH];
      }
      if [SLASH, SLASH] <= r.rewrite { assert r.rewrite[1] == [SLASH, SLASH][1]; }
    }
    if forall f :: !RuleFault(lib, i, r, f) {
      NoRuleFault(lib, i, r, MatcherCount(i, MatchersSet(r)));
      NoRuleFault(lib, i, r, BadPath(i));
      NoRuleFault(lib, i, r, BadPathPrefix(i));
      NoRuleFault(lib, i, r, BadRegex(i));
      NoRuleFault(lib, i, r, MissingRewrite(i));
      NoRuleFault(lib, i, r, BadRewrite(i));
      forall f ensures !IsFieldFault(lib, r, f) { NoRuleFault(lib, i, r, BadField(i, f)); }
    }
  }

  lemma NoRuleFault(lib: Lib, i: nat, r: Rule, f: Fault)
    requires forall g :: !RuleFault(lib, i, r, g)
    ensures !RuleFault(lib, i, r, f)
  {
  }

  /** Empty with ratio 0, or another known upstream with a ratio in [0, 1]. */
  predicate IsGoodMirror(names: set<string>, upstream: string, m: Mirror) {
    if m.upstream == "" then m.ratio == 0.0
    else m.upstream in names && m.upstream != upstream && 0.0 <= m.ratio <= 1.0
  }

  lemma MirrorsPassExactly(names: set<string>, i: nat, r: Route)
    ensures (forall f :: !MirrorFault(names, i, r, |r.mirrors|, f))
       <==> forall m | m in r.mirrors :: IsGoodMirror(names, r.upstream, m)
  {
    if forall f :: !MirrorFault(names, i, r, |r.mirrors|, f) {
      forall m | m in r.mirrors ensures IsGoodMirror(names, r.upstream, m) {
        assert !MirrorFault(names, i, r, |r.mirrors|, RatioWithoutMirror(i));
        assert !MirrorFault(names, i, r, |r.mirrors|, UnknownMirror(i, m.upstream));
        assert !MirrorFault(names, i, r, |r.mirrors|, SelfMirror(i));
        assert !MirrorFault(names, i, r, |r.mirrors|, RatioOutOfRange(i, m.ratio));
      }
    } else {
      var f :| MirrorFault(names, i, r, |r.mirrors|, f);
      assert exists k | 0 <= k < |r.mirrors| :: !IsGoodMirror(names, r.upstream, r.mirrors[k]);
    }
  }

  ghost predicate IsGoodUpstream(lib: Lib, us: seq<Upstream>, u: Upstream) {
    && !lib.isBlank(u.name) && u.timeout >= 0
    && u.host != "" && (forall c | c in u.host :: c !in WHITESPACE)
    && lib.parseUrl(u.host).Some? && IsOrigin(lib, lib.parseUrl(u.host).value)
    && (u.fallback != "" ==> u.fallback != u.name && exists v | v in us :: v.name == u.fallback)
  }

  ghost predicate AreGoodUpstreams(lib: Lib, us: seq<Upstream>) {
    && us != [] && (forall u | u in us :: IsGoodUpstream(lib, us, u))
    && (forall i, j | 0 <= i < j < |us| :: us[i].name != us[j].name)
  }

  lemma UpstreamsPassExactly(lib: Lib, us: seq<Upstream>)
    ensures (forall f :: !UpstreamFault(lib, us, f)) <==> AreGoodUpstreams(lib, us)
  {
    if forall f :: !UpstreamFault(lib, us, f) {
      assert !UpstreamFault(lib, us, NoUpstreams);
      forall i: nat | i < |us| ensures !lib.isBlank(us[i].name) { NoUpstreamFault(lib, us, BlankName(i)); }
      forall i: nat | i < |us| ensures IsGoodUpstream(lib, us, us[i]) {
        NoUpstreamFault(lib, us, NegativeTimeout(i));
        NoUpstreamFault(lib, us, SelfFallback(i));
        NoUpstreamFault(lib, us, UnknownFallback(i));
        var why := ValidateUpstreamHost(lib, us[i].host);
        if why.Some? { NoUpstreamFault(lib, us, BadHost(i, why.value)); }
        GoodHostIsOrigin(lib, us[i].host);
      }
      forall i: nat, j: nat | i < j < |us| ensures us[i].name != us[j].name {
        NoUpstreamFault(lib, us, DuplicateName(j));
      }
    } else {
      var f :| UpstreamFault(lib, us, f);
      FaultyUpstreams(lib, us, f);
    }
  }

  lemma FaultyUpstreams(lib: Lib, us: seq<Upstream>, f: Fault)
    requires UpstreamFault(lib, us, f)
    ensures !AreGoodUpstreams(lib, us)
  {
    if f != NoUpstreams {
      var u := us[f.i];
      assert u in us;
      if f.BadHost? { GoodHostIsOrigin(lib, u.host); }
      if f.UnknownFallback? {
        assert forall v | v in us :: v.name == u.fallback ==> !IsGoodUpstream(lib, us, v);
      }
    }
  }

  lemma NoUpstreamFault(lib: Lib, us: seq<Upstream>, f: Fault)
    requires forall g :: !UpstreamFault(lib, us, g)
    ensures !UpstreamFault(lib, us, f)
  {
  }

  ghost predicate IsGoodRoute(lib: Lib, names: set<string>, r: Route) {
    && r.upstream != "" && r.upstream in names && IsGoodRule(lib, r.rule)
    && forall m | m in r.mirrors :: IsGoodMirror(names, r.upstream, m)
  }

  ghost predicate AreGoodRoutes(lib: Lib, names: set<string>, routes: seq<Route>) {
    && routes != [] && (forall r | r in routes :: IsGoodRoute(lib, names, r))
    && (forall i, j | 0 <= i < j < |routes| :: lib.dedupKey(routes[i].rule) != lib.dedupKey(routes[j].rule))
  }

  lemma NoRouteFault(lib: Lib, names: set<string>, routes: seq<Route>, i: nat, f: Fault)
    requires i < |routes| && forall g :: !RouteFault(lib, names, routes, g)
    ensures !RouteFaultAt(lib, names, routes, i, f)
  {
    assert !RouteFault(lib, names, routes, f);
  }

  lemma {:induction false} FirstOfKey(lib: Lib, routes: seq<Route>, k: nat, key: string) returns (first: nat)
    requires k < |routes| && lib.dedupKey(routes[k].rule) == key
    ensures first <= k && FirstWithKey(lib, routes, k + 1, key, first)
  {
    if q :| 0 <= q < k && lib.dedupKey(routes[q].rule) == key {
      first := FirstOfKey(lib, routes, q, key);
    } else {
      first := k;
    }
  }

  lemma RouteIsGood(lib: Lib, names: set<string>, routes: seq<Route>, i: nat)
    requires i < |routes| && forall f :: !RouteFault(lib, names, routes, f)
    ensures IsGoodRoute(lib, names, routes[i])
  {
    NoRouteFault(lib, names, routes, i, EmptyUpstream(i));
    NoRouteFault(lib, names, routes, i, UnknownUpstream(i));
    forall f ensures !RuleFault(lib, i, routes[i].rule, f) { NoRouteFault(lib, names, routes, i, f); }
    RulePassesExactly(lib, i, routes[i].rule);
    forall f ensures !MirrorFault(names, i, routes[i], |routes[i].mirrors|, f) {
      NoRouteFault(lib, names, routes, i, f);
    }
    MirrorsPassExactly(names, i, routes[i]);
  }

  lemma RoutesPassExactly(lib: Lib, names: set<string>, routes: seq<Route>)
    ensures (forall f :: !RouteFault(lib, names, routes, f)) <==> AreGoodRoutes(lib, names, routes)
  {
    if forall f :: !RouteFault(lib, names, routes, f) {
      assert !RouteFault(lib, names, routes, NoRoutes);
      forall i: nat | i < |routes| ensures IsGoodRoute(lib, names, routes[i]) { RouteIsGood(lib, names, routes, i); }
      forall i: nat, j: nat | i < j < |routes|
        ensures lib.dedupKey(routes[i].rule) != lib.dedupKey(routes[j].rule)
      {
        if lib.dedupKey(routes[i].rule) == lib.dedupKey(routes[j].rule) {
          var first := FirstOfKey(lib, routes, i, lib.dedupKey(routes[j].rule));
          NoRouteFault(lib, names, routes, j, DuplicateRoute(j, first));
        }
      }
    } else if AreGoodRoutes(lib, names, routes) {
      var f :| RouteFault(lib, names, routes, f);
      var i: nat :| i < |routes| && RouteFaultAt(lib, names, routes, i, f);
      GoodRouteHasNoFault(lib, names, routes, i, f);
    }
  }

  lemma GoodRouteHasNoFault(lib: Lib, names: set<string>, routes: seq<Route>, i: nat, f: Fault)
    requires AreGoodRoutes(lib, names, routes) && i < |routes|
    ensures !RouteFaultAt(lib, names, routes, i, f)
  {
    assert IsGoodRoute(lib, names, routes[i]);
    RulePassesExactly(lib, i, routes[i].rule);
    MirrorsPassExactly(names, i, routes[i]);
  }

  /** `Validate` lets pass exactly the configs that are as they should be: upstreams and routes there
      and well formed, names and routes unique, everything named known, and no mirror loop. */
  lemma AcceptedExactly(lib: Lib, cfg: ConfigView)
    ensures Accepted(lib, cfg)
       <==> && AreGoodUpstreams(lib, cfg.upstreams) && AreGoodRoutes(lib, Names(cfg.upstreams), cfg.routes)
            && IsAcyclic(MirrorEdges(Names(cfg.upstreams), cfg.routes))
  {
    UpstreamsPassExactly(lib, cfg.upstreams);
    RoutesPassExactly(lib, Names(cfg.upstreams), cfg.routes);
  }
}
